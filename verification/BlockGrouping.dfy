/** Grouping a document's blocks into chunks, and numbering the chunks. */
module BlockGrouping {
  import opened Wrappers

  /** A blank-line separated paragraph, never blank itself; `colon` says whether its text, trailing white space
      aside, ends in a colon. */
  datatype Block = Block(text: string, isList: bool, colon: bool)

  datatype Chunk = Chunk(index: nat, blocks: seq<Block>)

  datatype ChunkError = NoChunks

  // ---------------------------------------------------------------- what a grouping must be

  /** A boundary before block `i`: a list goes to the chunk before it. */
  predicate FreeStart(blocks: seq<Block>, i: nat) {
    i < |blocks| ==> !blocks[i].isList
  }

  /** The chunk from `i` to `j` stops only where nothing may be glued to it: no list follows, and after a colon
      nothing follows at all unless the chunk has already taken in a second paragraph. */
  ghost predicate ProperEnd(blocks: seq<Block>, i: nat, j: nat) {
    && i < j <= |blocks| && FreeStart(blocks, j)
    && (j < |blocks| && blocks[j - 1].colon ==> exists k :: i < k < j && !blocks[k].isList)
  }

  /** Within a chunk a second paragraph appears only right after a colon, and only as the first one. */
  ghost predicate Joined(blocks: seq<Block>, i: nat, j: nat) {
    && j <= |blocks|
    && forall k :: i < k < j && !blocks[k].isList ==> blocks[k - 1].colon && forall m :: i < m < k ==> blocks[m].isList
  }

  /** The chunks are consecutive, non-empty runs of the blocks from `i` on, each properly joined and ended. */
  ghost predicate Grouping(blocks: seq<Block>, chunks: seq<seq<Block>>, i: nat) {
    if chunks == [] then i == |blocks|
    else
      var j := i + |chunks[0]|;
      && ProperEnd(blocks, i, j) && Joined(blocks, i, j) && chunks[0] == blocks[i..j]
      && Grouping(blocks, chunks[1..], j)
  }

  function Flatten(chunks: seq<seq<Block>>): seq<Block> {
    if chunks == [] then [] else chunks[0] + Flatten(chunks[1..])
  }

  /** Nothing is lost, repeated or moved. */
  lemma {:induction false} ChunksAreTheDocument(blocks: seq<Block>, chunks: seq<seq<Block>>, i: nat)
    requires Grouping(blocks, chunks, i)
    ensures i <= |blocks| && Flatten(chunks) == blocks[i..]
    decreases |chunks|
  {
    if chunks == [] {
      assert blocks[i..] == [];
    } else {
      var j := i + |chunks[0]|;
      ChunksAreTheDocument(blocks, chunks[1..], j);
      assert blocks[i..] == blocks[i..j] + blocks[j..];
    }
  }

  /** No chunk but the first starts with a list, and a one-block chunk that ends in a colon can only be the
      last chunk. */
  lemma {:induction false} ChunksStartAndEndProperly(blocks: seq<Block>, chunks: seq<seq<Block>>, i: nat, k: nat)
    requires Grouping(blocks, chunks, i) && k < |chunks|
    ensures chunks[k] != []
    ensures k > 0 || FreeStart(blocks, i) ==> !chunks[k][0].isList
    ensures |chunks[k]| == 1 && chunks[k][0].colon ==> k == |chunks| - 1
    decreases |chunks|
  {
    if k > 0 {
      ChunksStartAndEndProperly(blocks, chunks[1..], i + |chunks[0]|, k - 1);
    }
  }

  lemma OneWayToEnd(blocks: seq<Block>, i: nat, j: nat, k: nat)
    requires ProperEnd(blocks, i, j) && Joined(blocks, i, j) && ProperEnd(blocks, i, k) && Joined(blocks, i, k)
    ensures j == k
  {
  }

  lemma SameFirstChunk(blocks: seq<Block>, a: seq<seq<Block>>, b: seq<seq<Block>>, i: nat)
    requires a != [] && b != [] && Grouping(blocks, a, i) && Grouping(blocks, b, i)
    ensures a[0] == b[0]
  {
    OneWayToEnd(blocks, i, i + |a[0]|, i + |b[0]|);
  }

  /** The requirements leave no choice: a document has one grouping. */
  lemma {:induction false} GroupingIsUnique(blocks: seq<Block>, a: seq<seq<Block>>, b: seq<seq<Block>>, i: nat)
    requires Grouping(blocks, a, i) && Grouping(blocks, b, i)
    ensures a == b
    decreases |a|
  {
    if a != [] && b != [] {
      SameFirstChunk(blocks, a, b, i);
      GroupingIsUnique(blocks, a[1..], b[1..], i + |a[0]|);
      assert a == [a[0]] + a[1..] && b == [b[0]] + b[1..];
    }
  }

  /** Chunks so far that any grouping of the rest completes. */
  ghost predicate Grouped(blocks: seq<Block>, chunks: seq<seq<Block>>, i: nat) {
    forall rest :: Grouping(blocks, rest, i) ==> Grouping(blocks, chunks + rest, 0)
  }

  lemma OneMoreChunk(blocks: seq<Block>, chunks: seq<seq<Block>>, i: nat, chunk: seq<Block>, j: nat)
    requires Grouped(blocks, chunks, i) && ProperEnd(blocks, i, j) && Joined(blocks, i, j) && chunk == blocks[i..j]
    ensures Grouped(blocks, chunks + [chunk], j)
  {
    forall rest | Grouping(blocks, rest, j) ensures Grouping(blocks, (chunks + [chunk]) + rest, 0) {
      assert ([chunk] + rest)[1..] == rest;
      assert Grouping(blocks, [chunk] + rest, i);
      assert (chunks + [chunk]) + rest == chunks + ([chunk] + rest);
    }
  }

  // ---------------------------------------------------------------- the loops

  /** Take in the lists that immediately follow block `i`. */
  method GlueLists(blocks: seq<Block>, i: nat, buffer: seq<Block>) returns (j: nat, glued: seq<Block>)
    requires i < |blocks|
    ensures i <= j < |blocks| && FreeStart(blocks, j + 1)
    ensures forall k :: i < k <= j ==> blocks[k].isList
    ensures glued == buffer + blocks[i + 1..j + 1]
  {
    j, glued := i, buffer;
    while j + 1 < |blocks| && blocks[j + 1].isList
      invariant i <= j < |blocks| && glued == buffer + blocks[i + 1..j + 1]
      invariant forall k :: i < k <= j ==> blocks[k].isList
    {
      j := j + 1;
      glued := glued + [blocks[j]];
      assert blocks[i + 1..j + 1] == blocks[i + 1..j] + [blocks[j]];
    }
  }

  /** One chunk, from block `i` to block `j`. */
  method GroupOne(blocks: seq<Block>, i: nat) returns (j: nat, buffer: seq<Block>)
    requires i < |blocks|
    ensures i <= j < |blocks| && buffer == blocks[i..j + 1]
    ensures ProperEnd(blocks, i, j + 1) && Joined(blocks, i, j + 1)
  {
    j, buffer := GlueLists(blocks, i, [blocks[i]]);
    assert buffer == blocks[i..j + 1];
    assert buffer[|buffer| - 1] == blocks[j];
    if buffer[|buffer| - 1].colon && j + 1 < |blocks| && !blocks[j + 1].isList {
      var k := j + 1;
      buffer := buffer + [blocks[k]];
      var extended;
      j, extended := GlueLists(blocks, k, buffer);
      assert extended == blocks[i..j + 1];
      assert !blocks[k].isList;
      buffer := extended;
    }
  }

  /** `_group_blocks`. */
  method GroupBlocks(blocks: seq<Block>) returns (chunks: seq<seq<Block>>)
    ensures Grouping(blocks, chunks, 0)
  {
    chunks := [];
    var i := 0;
    assert forall rest: seq<seq<Block>> :: [] + rest == rest;
    while i < |blocks|
      invariant i <= |blocks| && Grouped(blocks, chunks, i)
    {
      var j, buffer := GroupOne(blocks, i);
      OneMoreChunk(blocks, chunks, i, buffer, j + 1);
      chunks := chunks + [buffer];
      i := j + 1;
    }
    assert Grouping(blocks, [], i) && chunks + [] == chunks;
  }

  /** `chunk_document`: the chunks numbered from zero without gaps; an empty document is refused. */
  method ChunkDocument(blocks: seq<Block>) returns (r: Result<seq<Chunk>, ChunkError>)
    ensures r.Err? <==> blocks == []
    ensures r.Ok? ==> Grouping(blocks, Bodies(r.value), 0) && Flatten(Bodies(r.value)) == blocks
    ensures r.Ok? ==> forall k :: 0 <= k < |r.value| ==> r.value[k].index == k
  {
    var chunks := GroupBlocks(blocks);
    ChunksAreTheDocument(blocks, chunks, 0);
    if chunks == [] {
      return Err(NoChunks);
    }
    var numbered := seq(|chunks|, k requires 0 <= k < |chunks| => Chunk(k, chunks[k]));
    assert Bodies(numbered) == chunks;
    return Ok(numbered);
  }

  function Bodies(chunks: seq<Chunk>): seq<seq<Block>> {
    seq(|chunks|, k requires 0 <= k < |chunks| => chunks[k].blocks)
  }
}
