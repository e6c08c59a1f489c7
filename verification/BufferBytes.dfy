/** What the buffer's operations mean for the bytes in memory, and whole runs of them. */
module BufferBytes {
  import opened Basics
  import opened ByteChain
  import opened Buffer

  /** Memory after copying `data` to the locations `locs`, one byte each. */
  function Stored(m: map<Loc<BlockId>, Byte>, locs: seq<Loc<BlockId>>, data: seq<Byte>): (r: map<Loc<BlockId>, Byte>)
    requires |data| == |locs|
  {
    if locs == [] then m
    else Stored(m, locs[..|locs| - 1], data[..|locs| - 1])[locs[|locs| - 1] := data[|locs| - 1]]
  }

  lemma {:induction false} StoredElsewhere(m: map<Loc<BlockId>, Byte>, locs: seq<Loc<BlockId>>, data: seq<Byte>, l: Loc<BlockId>)
    requires |data| == |locs| && l !in locs
    ensures var r := Stored(m, locs, data); (l in r <==> l in m) && (l in m ==> r[l] == m[l])
  {
    if locs != [] { StoredElsewhere(m, locs[..|locs| - 1], data[..|locs| - 1], l); }
  }

  lemma {:induction false} StoredAt(m: map<Loc<BlockId>, Byte>, locs: seq<Loc<BlockId>>, data: seq<Byte>, i: nat)
    requires |data| == |locs| && Distinct(locs) && i < |locs|
    ensures var r := Stored(m, locs, data); locs[i] in r && r[locs[i]] == data[i]
  {
    if i < |locs| - 1 { StoredAt(m, locs[..|locs| - 1], data[..|locs| - 1], i); }
  }

  lemma {:induction false} BytesAtConcat(arena: Arena, a: seq<Loc<BlockId>>, b: seq<Loc<BlockId>>)
    ensures BytesAt(arena, a + b) == BytesAt(arena, a) + BytesAt(arena, b)
  {
  }

  lemma BlocksDiffer(buffer: BasicBuffer)
    requires buffer.Valid()
    ensures DistinctBlocks(buffer.blocks)
  {
    var ids := Ids(buffer.blocks);
    assert forall i :: 0 <= i < |ids| ==> ids[i] == buffer.blocks[i].block;
  }

  /** Storing to free locations leaves the data as it is and can be read back. */
  lemma StoringToSpace(cs: seq<Cell<BlockId>>, cap: nat, m: map<Loc<BlockId>, Byte>, locs: seq<Loc<BlockId>>, data: seq<Byte>)
    requires DistinctBlocks(cs) && locs <= Space(cs, cap) && |data| == |locs|
    ensures var r := Stored(m, locs, data);
            && (forall i :: 0 <= i < |locs| ==> locs[i] in r && r[locs[i]] == data[i])
            && (forall l :: l in Data(cs) ==> (l in r <==> l in m) && (l in m ==> r[l] == m[l]))
  {
    hide Data, Space, Stored;
    SpaceDistinct(cs, cap);
    forall i | 0 <= i < |locs| ensures locs[i] in Stored(m, locs, data) && Stored(m, locs, data)[locs[i]] == data[i] {
      StoredAt(m, locs, data, i);
    }
    forall l | l in Data(cs)
      ensures (l in Stored(m, locs, data) <==> l in m) && (l in m ==> Stored(m, locs, data)[l] == m[l])
    {
      DataApartFromSpace(cs, cap, l);
      StoredElsewhere(m, locs, data, l);
    }
  }

  /** The operating system fills the start of a reservation.  The data in the buffer does not change,
      and the filled locations read back what was written. */
  method Fill(buffer: BasicBuffer, arena: Arena, bufs: seq<SysBuf>, data: seq<Byte>)
    requires buffer.Valid() && buffer.reserved && LocsOf(bufs) == buffer.reservation && |data| <= |buffer.reservation|
    modifies arena
    ensures buffer.Contents(arena) == old(buffer.Contents(arena))
    ensures BytesAt(arena, buffer.reservation[..|data|]) == data
  {
    hide Data, Space, Stored;
    var locs := LocsOf(bufs)[..|data|];
    BlocksDiffer(buffer);
    StoringToSpace(buffer.blocks, buffer.capacity, arena.bytes, locs, data);
    arena.bytes := Stored(arena.bytes, locs, data);
  }

  /** Appends a chunk: reserve, copy in, commit. */
  method CopyIn(buffer: BasicBuffer, arena: Arena, data: seq<Byte>)
    requires buffer.Valid() && buffer.Backed() && !buffer.reserved
    requires data != [] || buffer.blocks != []
    modifies buffer, buffer.freelist, arena
    ensures buffer.Valid() && buffer.Backed() && !buffer.reserved && buffer.peeked == old(buffer.peeked)
    ensures buffer.Contents(arena) == old(buffer.Contents(arena)) + data
  {
    hide Data, Space, LocsOf, BasicBuffer.Chained, Apart, Conserved;
    ghost var locs := Data(buffer.blocks);
    var bufs := buffer.Reserve(|data|);
    ghost var taken := Space(buffer.blocks, buffer.capacity)[..|data|];
    Fill(buffer, arena, bufs, data);
    buffer.CommitAllowed(|data|);
    buffer.Commit(|data|);
    BytesAtConcat(arena, locs, taken);
  }

  /** Consumes up to `size` bytes: peek, copy out, drain. */
  method CopyOut(buffer: BasicBuffer, arena: Arena, size: nat) returns (out: seq<Byte>)
    requires buffer.Valid() && buffer.Backed() && !buffer.peeked
    modifies buffer, buffer.freelist
    ensures buffer.Valid() && buffer.Backed() && !buffer.peeked && buffer.reserved == old(buffer.reserved)
    ensures |out| == if size <= |old(buffer.Contents(arena))| then size else |old(buffer.Contents(arena))|
    ensures out + buffer.Contents(arena) == old(buffer.Contents(arena))
  {
    hide Data, Space, LocsOf, BasicBuffer.Chained, Apart, Conserved, EndsWith;
    ghost var data := Data(buffer.blocks);
    var bufs := buffer.Peek();
    out := CopyBufs(arena, bufs, size);
    buffer.Drain(|out|);
    assert data == data[..|out|] + data[|out|..];
    BytesAtConcat(arena, data[..|out|], data[|out|..]);
  }

  /** Copies up to `size` bytes out of the pieces, in order. */
  method CopyBufs(arena: Arena, bufs: seq<SysBuf>, size: nat) returns (out: seq<Byte>)
    ensures |out| == if size <= |LocsOf(bufs)| then size else |LocsOf(bufs)|
    ensures out == BytesAt(arena, LocsOf(bufs)[..|out|])
  {
    out := [];
    var i := 0;
    assert LocsOf(bufs[..0]) == [];
    hide LocsOf, BytesAt, Span;
    while i < |bufs| && size > 0
      invariant i <= |bufs|
      invariant |out| == if size <= |LocsOf(bufs[..i])| then size else |LocsOf(bufs[..i])|
      invariant out == BytesAt(arena, LocsOf(bufs[..i])[..|out|])
      decreases |bufs| - i
    {
      var b := bufs[i];
      var remaining := size - |out|;
      var toCopy := if remaining > b.len then b.len else remaining;
      CopyMore(arena, bufs, i, |out|, toCopy);
      out := out + BytesAt(arena, Span(b.block, b.start, toCopy));
      i := i + 1;
    }
    assert i == |bufs| ==> bufs[..i] == bufs;
  }

  lemma CopyMore(arena: Arena, bufs: seq<SysBuf>, i: nat, n: nat, k: nat)
    requires i < |bufs| && k <= bufs[i].len && n <= |LocsOf(bufs[..i])| && (k > 0 ==> n == |LocsOf(bufs[..i])|)
    ensures |LocsOf(bufs[..i + 1])| == |LocsOf(bufs[..i])| + bufs[i].len
    ensures LocsOf(bufs[..i + 1])[..n + k] == LocsOf(bufs[..i])[..n] + Span(bufs[i].block, bufs[i].start, k)
    ensures BytesAt(arena, LocsOf(bufs[..i + 1])[..n + k])
            == BytesAt(arena, LocsOf(bufs[..i])[..n]) + BytesAt(arena, Span(bufs[i].block, bufs[i].start, k))
  {
    assert bufs[..i + 1] == bufs[..i] + [bufs[i]];
    hide LocsOf, BytesAt, Span;
    LocsOfAppend(bufs[..i], bufs[i]);
    SpanSplit(bufs[i].block, bufs[i].start, bufs[i].len, k);
    BytesAtConcat(arena, LocsOf(bufs[..i])[..n], Span(bufs[i].block, bufs[i].start, k));
  }
}
