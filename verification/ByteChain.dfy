/** The layout of a scatter-gather buffer as a value: for each block of the chain, in order, where
    its consumable bytes start and how many there are.  A location names one byte of one block. */
module ByteChain {
  import Seqs

  datatype Cell<B> = Cell(block: B, offset: nat, len: nat)

  datatype Loc<B> = Loc(block: B, index: nat)

  function Span<B>(block: B, start: nat, n: nat): (r: seq<Loc<B>>)
    ensures |r| == n
    ensures forall i :: 0 <= i < n ==> r[i] == Loc(block, start + i)
  {
    seq(n, i requires 0 <= i < n => Loc(block, start + i))
  }

  lemma SpanSplit<B>(block: B, start: nat, n: nat, k: nat)
    requires k <= n
    ensures Span(block, start, n) == Span(block, start, k) + Span(block, start + k, n - k)
  {
  }

  /** The locations of the consumable bytes, front first. */
  function Data<B>(cs: seq<Cell<B>>): seq<Loc<B>> {
    if cs == [] then [] else Span(cs[0].block, cs[0].offset, cs[0].len) + Data(cs[1..])
  }

  function Free<B>(c: Cell<B>, cap: nat): nat
  {
    if c.offset + c.len <= cap then cap - c.offset - c.len else 0
  }

  function SpaceOf<B>(c: Cell<B>, cap: nat): seq<Loc<B>> {
    Span(c.block, c.offset + c.len, Free(c, cap))
  }

  /** The locations behind the consumable bytes, in the order they will be filled. */
  function Space<B>(cs: seq<Cell<B>>, cap: nat): seq<Loc<B>> {
    if cs == [] then [] else SpaceOf(cs[0], cap) + Space(cs[1..], cap)
  }

  /** Data is contiguous: only the head block may start late, blocks before the end block `e` are
      full, blocks after it are unused, and an end block behind the head holds data. */
  predicate Layout<B>(cs: seq<Cell<B>>, e: nat, cap: nat) {
    && (if cs == [] then e == 0 else e < |cs|)
    && (forall i :: 0 <= i < |cs| ==> cs[i].offset < cap && cs[i].offset + cs[i].len <= cap)
    && (forall i :: 0 <= i < e ==> cs[i].offset + cs[i].len == cap)
    && (forall i :: e < i < |cs| ==> cs[i].len == 0)
    && (forall i :: 0 < i < |cs| ==> cs[i].offset == 0)
    && (e > 0 ==> cs[e].len > 0)
  }

  lemma {:induction false} DataConcat<B>(a: seq<Cell<B>>, b: seq<Cell<B>>)
    ensures Data(a + b) == Data(a) + Data(b)
  {
    if a == [] {
      assert a + b == b;
    } else {
      DataConcat(a[1..], b);
      assert (a + b)[1..] == a[1..] + b;
      Seqs.Assoc(Span(a[0].block, a[0].offset, a[0].len), Data(a[1..]), Data(b));
    }
  }

  lemma {:induction false} SpaceConcat<B>(a: seq<Cell<B>>, b: seq<Cell<B>>, cap: nat)
    ensures Space(a + b, cap) == Space(a, cap) + Space(b, cap)
  {
    if a == [] {
      assert a + b == b;
    } else {
      SpaceConcat(a[1..], b, cap);
      assert (a + b)[1..] == a[1..] + b;
      Seqs.Assoc(SpaceOf(a[0], cap), Space(a[1..], cap), Space(b, cap));
    }
  }

  /** A chain seen around its `j`th block. */
  lemma Around<B>(cs: seq<Cell<B>>, j: nat, cap: nat)
    requires j < |cs|
    ensures Data(cs) == Data(cs[..j]) + Span(cs[j].block, cs[j].offset, cs[j].len) + Data(cs[j + 1..])
    ensures Space(cs, cap) == Space(cs[..j], cap) + SpaceOf(cs[j], cap) + Space(cs[j + 1..], cap)
  {
    assert cs == cs[..j] + cs[j..] && cs[j..][1..] == cs[j + 1..];
    DataConcat(cs[..j], cs[j..]);
    SpaceConcat(cs[..j], cs[j..], cap);
  }

  lemma {:induction false} NoSpace<B>(cs: seq<Cell<B>>, cap: nat)
    requires forall i :: 0 <= i < |cs| ==> cs[i].offset + cs[i].len == cap
    ensures Space(cs, cap) == []
  {
    if cs != [] { NoSpace(cs[1..], cap); }
  }

  lemma {:induction false} NoData<B>(cs: seq<Cell<B>>)
    requires forall i :: 0 <= i < |cs| ==> cs[i].len == 0
    ensures Data(cs) == []
  {
    if cs != [] { NoData(cs[1..]); }
  }

  /** The first block with room behind the data: the end block, or the one after it when full. */
  function FirstFree<B>(cs: seq<Cell<B>>, e: nat, cap: nat): (j: nat)
    requires Layout(cs, e, cap)
    ensures j <= |cs| && (j == e || j == e + 1)
  {
    if e < |cs| && cs[e].offset + cs[e].len == cap then e + 1 else e
  }

  lemma SpaceStartsAtFirstFree<B>(cs: seq<Cell<B>>, e: nat, cap: nat)
    requires Layout(cs, e, cap)
    ensures Space(cs[..FirstFree(cs, e, cap)], cap) == []
    ensures Data(cs[FirstFree(cs, e, cap) + if FirstFree(cs, e, cap) == e && cs != [] then 1 else 0..]) == []
  {
    hide Space, Data;
    var j := FirstFree(cs, e, cap);
    NoSpace(cs[..j], cap);
    NoData(cs[j + if j == e && cs != [] then 1 else 0..]);
  }

  /** Moving `y` from the front of `y + z + r` to the back of `p + x`. */
  lemma MoveAcross<T>(p: seq<T>, x: seq<T>, y: seq<T>, z: seq<T>, r: seq<T>)
    ensures p + (x + y) + [] == (p + x + []) + ([] + (y + z) + r)[..|y|]
    ensures ([] + (y + z) + r)[|y|..] == [] + z + r
  {
    assert [] + (y + z) + r == y + (z + r);
  }

  /** The pieces a commit of `k` bytes works on: `y` is the part of the free locations it takes. */
  lemma CommitPieces<B>(cs: seq<Cell<B>>, e: nat, cap: nat, k: nat)
    returns (p: seq<Loc<B>>, x: seq<Loc<B>>, y: seq<Loc<B>>, z: seq<Loc<B>>, r: seq<Loc<B>>)
    requires Layout(cs, e, cap)
    requires FirstFree(cs, e, cap) < |cs| && 0 < k <= Free(cs[FirstFree(cs, e, cap)], cap)
    ensures |y| == k
    ensures var j := FirstFree(cs, e, cap);
            var after := cs[j := cs[j].(len := cs[j].len + k)];
            && Data(cs) == p + x + [] && Data(after) == p + (x + y) + []
            && Space(cs, cap) == [] + (y + z) + r && Space(after, cap) == [] + z + r
  {
    hide Data, Space;
    var j := FirstFree(cs, e, cap);
    var c := cs[j];
    var d := c.(len := c.len + k);
    var after := cs[j := d];
    Around(cs, j, cap);
    Around(after, j, cap);
    assert after[..j] == cs[..j] && after[j + 1..] == cs[j + 1..];
    NoSpace(cs[..j], cap);
    NoData(cs[j + 1..]);
    SpanSplit(c.block, c.offset, c.len + k, c.len);
    SpanSplit(c.block, c.offset + c.len, Free(c, cap), k);
    p, x, y := Data(cs[..j]), Span(c.block, c.offset, c.len), Span(c.block, c.offset + c.len, k);
    z, r := SpaceOf(d, cap), Space(cs[j + 1..], cap);
  }

  /** Committing `k` bytes to the first block with room appends the first `k` free locations. */
  lemma CommitCell<B>(cs: seq<Cell<B>>, e: nat, cap: nat, k: nat)
    requires Layout(cs, e, cap)
    requires FirstFree(cs, e, cap) < |cs| && 0 < k <= Free(cs[FirstFree(cs, e, cap)], cap)
    ensures var j := FirstFree(cs, e, cap);
            var after := cs[j := cs[j].(len := cs[j].len + k)];
            && |Space(cs, cap)| >= k
            && Data(after) == Data(cs) + Space(cs, cap)[..k]
            && Space(after, cap) == Space(cs, cap)[k..]
  {
    var p, x, y, z, r := CommitPieces(cs, e, cap, k);
    hide *;
    MoveAcross(p, x, y, z, r);
  }

  lemma CommitLayout<B>(cs: seq<Cell<B>>, e: nat, cap: nat, k: nat)
    requires Layout(cs, e, cap)
    requires FirstFree(cs, e, cap) < |cs| && 0 < k <= Free(cs[FirstFree(cs, e, cap)], cap)
    ensures var j := FirstFree(cs, e, cap);
            var after := cs[j := cs[j].(len := cs[j].len + k)];
            Layout(after, j, cap) && (k == Free(cs[j], cap) ==> FirstFree(after, j, cap) == j + 1)
  {
  }

  lemma FirstFreeHasRoom<B>(cs: seq<Cell<B>>, e: nat, cap: nat)
    requires Layout(cs, e, cap) && FirstFree(cs, e, cap) < |cs| && cap > 0
    ensures Free(cs[FirstFree(cs, e, cap)], cap) > 0
  {
  }

  lemma DropFront<T>(x: seq<T>, y: seq<T>, r: seq<T>)
    ensures (x + y + r)[|x|..] == y + r
  {
    assert x + y + r == x + (y + r);
  }

  /** Draining `k` bytes from the head removes the first `k` data locations and no free one. */
  lemma DrainCell<B>(cs: seq<Cell<B>>, e: nat, cap: nat, k: nat)
    requires Layout(cs, e, cap) && cs != [] && k <= cs[0].len && (k < cs[0].len || cs[0].offset + cs[0].len < cap)
    ensures var after := cs[0 := cs[0].(offset := cs[0].offset + k, len := cs[0].len - k)];
            && |Data(cs)| >= k
            && Data(after) == Data(cs)[k..]
            && Space(after, cap) == Space(cs, cap)
  {
    var c := cs[0];
    var d := c.(offset := c.offset + k, len := c.len - k);
    assert cs[0 := d][1..] == cs[1..];
    SpanSplit(c.block, c.offset, c.len, k);
    var x, y, r := Span(c.block, c.offset, k), Span(c.block, c.offset + k, c.len - k), Data(cs[1..]);
    assert Data(cs) == x + y + r && Data(cs[0 := d]) == y + r;
    hide Data, Space, Span;
    DropFront(x, y, r);
  }

  lemma DrainLayout<B>(cs: seq<Cell<B>>, e: nat, cap: nat, k: nat)
    requires Layout(cs, e, cap) && cs != [] && k <= cs[0].len && (k < cs[0].len || (e == 0 && cs[0].offset + cs[0].len < cap))
    ensures Layout(cs[0 := cs[0].(offset := cs[0].offset + k, len := cs[0].len - k)], e, cap)
  {
  }

  /** Draining a full head completely prunes its block; the next one becomes the head. */
  lemma PruneCell<B>(cs: seq<Cell<B>>, e: nat, cap: nat)
    requires Layout(cs, e, cap) && cs != [] && cs[0].offset + cs[0].len == cap
    ensures Layout(cs[1..], if e == 0 then 0 else e - 1, cap)
    ensures |Data(cs)| >= cs[0].len
    ensures Data(cs[1..]) == Data(cs)[cs[0].len..]
    ensures Space(cs[1..], cap) == Space(cs, cap)
    ensures e == 0 ==> Data(cs[1..]) == []
  {
    if e == 0 { NoData(cs[1..]); }
    var head := Span(cs[0].block, cs[0].offset, cs[0].len);
    assert Data(cs) == head + Data(cs[1..]) && Space(cs, cap) == SpaceOf(cs[0], cap) + Space(cs[1..], cap);
    hide Data, Space, Span;
    Seqs.DropHead(head, Data(cs[1..]));
  }

  /** A new block at the tail adds its whole capacity behind all other free locations. */
  lemma AppendCell<B>(cs: seq<Cell<B>>, e: nat, cap: nat, block: B)
    requires Layout(cs, e, cap) && cap > 0
    ensures Layout(cs + [Cell(block, 0, 0)], e, cap)
    ensures Data(cs + [Cell(block, 0, 0)]) == Data(cs)
    ensures Space(cs + [Cell(block, 0, 0)], cap) == Space(cs, cap) + Span(block, 0, cap)
  {
    var c := Cell(block, 0, 0);
    assert [c][1..] == [];
    DataConcat(cs, [c]);
    SpaceConcat(cs, [c], cap);
  }

  /** Rewinding an empty head gives its drained locations back in front of the free ones. */
  lemma RewindCell<B>(cs: seq<Cell<B>>, cap: nat)
    requires Layout(cs, 0, cap) && cs != [] && cs[0].len == 0
    ensures var after := cs[0 := cs[0].(offset := 0)];
            && Layout(after, 0, cap)
            && Data(after) == Data(cs) == []
            && Space(after, cap) == Span(cs[0].block, 0, cs[0].offset) + Space(cs, cap)
  {
    var c := cs[0];
    NoData(cs);
    NoData(cs[0 := c.(offset := 0)]);
    SpanSplit(c.block, 0, cap, c.offset);
    assert cs[0 := c.(offset := 0)][1..] == cs[1..];
  }

  /** With no data left the end block is the head. */
  lemma EmptyEndsAtHead<B>(cs: seq<Cell<B>>, e: nat, cap: nat)
    requires Layout(cs, e, cap) && Data(cs) == []
    ensures e == 0
  {
    if e > 0 { Around(cs, e, cap); }
  }

  // ---- Counting and distinctness ---------------------------------------------------------

  lemma OneMore(n: nat, cap: nat)
    requires n > 0
    ensures n * cap == cap + (n - 1) * cap
  {
  }

  /** Capacity is data, space and what the head has already drained. */
  lemma {:induction false} SpaceArithmetic<B>(cs: seq<Cell<B>>, e: nat, cap: nat)
    requires Layout(cs, e, cap) && cs != []
    ensures |Data(cs)| + |Space(cs, cap)| + cs[0].offset == |cs| * cap
  {
    CountCells(cs[1..], cap);
    OneMore(|cs|, cap);
    assert |Data(cs)| == cs[0].len + |Data(cs[1..])|;
    assert |Space(cs, cap)| == Free(cs[0], cap) + |Space(cs[1..], cap)|;
    hide Data, Space;
  }

  lemma {:induction false} CountCells<B>(cs: seq<Cell<B>>, cap: nat)
    requires forall i :: 0 <= i < |cs| ==> cs[i].offset == 0 && cs[i].len <= cap
    ensures |Data(cs)| + |Space(cs, cap)| == |cs| * cap
  {
    if cs != [] {
      CountCells(cs[1..], cap);
      OneMore(|cs|, cap);
    }
  }

  predicate Distinct<T(==)>(s: seq<T>) {
    forall i, j :: 0 <= i < j < |s| ==> s[i] != s[j]
  }

  /** Walking the chain block by block collects the free locations in order. */
  lemma SpacePrefix<B>(cs: seq<Cell<B>>, p: nat, cap: nat)
    requires p < |cs|
    ensures Space(cs[..p + 1], cap) == Space(cs[..p], cap) + SpaceOf(cs[p], cap)
    ensures Space(cs[..p + 1], cap) <= Space(cs, cap)
  {
    assert cs[..p + 1] == cs[..p] + [cs[p]] && [cs[p]][1..] == [];
    assert Space([cs[p]], cap) == SpaceOf(cs[p], cap) + [];
    hide Space, SpaceOf;
    SpaceConcat(cs[..p], [cs[p]], cap);
    assert cs == cs[..p + 1] + cs[p + 1..];
    SpaceConcat(cs[..p + 1], cs[p + 1..], cap);
  }

  lemma DataPrefix<B>(cs: seq<Cell<B>>, p: nat)
    requires p < |cs|
    ensures Data(cs[..p + 1]) == Data(cs[..p]) + Span(cs[p].block, cs[p].offset, cs[p].len)
  {
    assert cs[..p + 1] == cs[..p] + [cs[p]] && [cs[p]][1..] == [];
    assert Data([cs[p]]) == Span(cs[p].block, cs[p].offset, cs[p].len) + [];
    hide Data, Span;
    DataConcat(cs[..p], [cs[p]]);
  }

  // ---- No location is used twice ---------------------------------------------------------

  /** `l` is one of the bytes `low` to `high` of the block of `c`. */
  predicate InBlock<B(==)>(c: Cell<B>, l: Loc<B>, low: nat, high: nat) {
    l.block == c.block && low <= l.index < high
  }

  lemma {:induction false} DataIn<B>(cs: seq<Cell<B>>, l: Loc<B>) returns (i: nat)
    requires l in Data(cs)
    ensures i < |cs| && InBlock(cs[i], l, cs[i].offset, cs[i].offset + cs[i].len)
  {
    if l in Span(cs[0].block, cs[0].offset, cs[0].len) {
      i := 0;
    } else {
      var j := DataIn(cs[1..], l);
      i := j + 1;
    }
  }

  lemma {:induction false} SpaceIn<B>(cs: seq<Cell<B>>, cap: nat, l: Loc<B>) returns (i: nat)
    requires l in Space(cs, cap)
    ensures i < |cs| && l.block == cs[i].block && cs[i].offset + cs[i].len <= l.index
  {
    if l in SpaceOf(cs[0], cap) {
      i := 0;
    } else {
      var j := SpaceIn(cs[1..], cap, l);
      i := j + 1;
    }
  }

  predicate DistinctBlocks<B(==)>(cs: seq<Cell<B>>) {
    forall i, j :: 0 <= i < j < |cs| ==> cs[i].block != cs[j].block
  }

  /** Free locations never hold data. */
  lemma DataApartFromSpace<B>(cs: seq<Cell<B>>, cap: nat, l: Loc<B>)
    requires DistinctBlocks(cs) && l in Data(cs)
    ensures l !in Space(cs, cap)
  {
    var i := DataIn(cs, l);
    if l in Space(cs, cap) {
      var j := SpaceIn(cs, cap, l);
    }
  }

  /** The free locations are all different. */
  lemma {:induction false} SpaceDistinct<B>(cs: seq<Cell<B>>, cap: nat)
    requires DistinctBlocks(cs)
    ensures Distinct(Space(cs, cap))
  {
    if cs != [] {
      SpaceDistinct(cs[1..], cap);
      var first, rest := SpaceOf(cs[0], cap), Space(cs[1..], cap);
      forall l | l in rest ensures l !in first {
        var j := SpaceIn(cs[1..], cap, l);
        assert cs[1..][j] == cs[j + 1];
      }
      forall i, j | 0 <= i < j < |first + rest| ensures (first + rest)[i] != (first + rest)[j] {
        if i < |first| <= j { assert rest[j - |first|] in rest; }
      }
    }
  }
}
