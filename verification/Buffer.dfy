/** The scatter-gather byte buffer of the proxy: a chain of fixed-size blocks with a two-phase append
    (reserve, then commit) and a two-phase consume (peek, then drain), and the freelist its blocks
    come from and go back to.  A block is named by an id; the chain is the sequence of its blocks in
    link order, so the successor of a block is the next element. */
module Buffer {
  import opened Basics
  import opened ByteChain

  type BlockId = nat

  function Ids(cs: seq<Cell<BlockId>>): (r: seq<BlockId>)
    ensures |r| == |cs|
    ensures forall i :: 0 <= i < |cs| ==> r[i] == cs[i].block
  {
    seq(|cs|, i requires 0 <= i < |cs| => cs[i].block)
  }

  /** The ids of a chain have been handed out and are not on the freelist. */
  ghost predicate Apart(chain: seq<BlockId>, free: seq<BlockId>, nextId: nat) {
    forall b :: b in chain ==> b !in free && b < nextId
  }

  class Freelist {
    var blocks: seq<BlockId>
    var size: nat
    /** Ids below this one have been handed out by the allocator. */
    var nextId: nat

    ghost predicate Valid()
      reads this
    {
      size == |blocks| && Distinct(blocks) && forall b :: b in blocks ==> b < nextId
    }

    constructor ()
      ensures Valid() && blocks == [] && nextId == 0
    {
      blocks, size, nextId := [], 0, 0;
    }

    /** Takes a block off the list, or allocates one when the list is empty. */
    method New() returns (b: BlockId)
      requires Valid()
      modifies this
      ensures Valid() && b < nextId && b !in blocks
      ensures if old(blocks) == [] then b == old(nextId) && blocks == [] && nextId == old(nextId) + 1
              else b == old(blocks)[0] && blocks == old(blocks)[1..] && nextId == old(nextId)
    {
      if blocks == [] {
        b := nextId;
        nextId := nextId + 1;
        return;
      }
      b := blocks[0];
      assert blocks == [b] + blocks[1..] && b in blocks;
      assert forall x :: x in blocks[1..] ==> x in blocks;
      blocks, size := blocks[1..], size - 1;
    }

    /** Gives one block back. */
    method Delete(b: BlockId)
      requires Valid() && b !in blocks && b < nextId
      modifies this`blocks, this`size
      ensures Valid() && blocks == [b] + old(blocks)
    {
      blocks, size := [b] + blocks, size + 1;
    }

    /** Gives a whole chain back. */
    method DeleteChain(chain: seq<BlockId>)
      requires Valid() && Distinct(chain) && Apart(chain, blocks, nextId)
      modifies this`blocks, this`size
      ensures Valid() && blocks == chain + old(blocks)
    {
      if chain == [] {
        return;
      }
      var count, tail := 1, 0;
      while tail + 1 < |chain|
        invariant tail < |chain| && count == tail + 1
      {
        count, tail := count + 1, tail + 1;
      }
      forall i, j | 0 <= i < j < |chain + blocks| ensures (chain + blocks)[i] != (chain + blocks)[j] {
        if i < |chain| <= j { assert chain[i] in chain; }
      }
      blocks, size := chain + blocks, size + count;
    }
  }

  lemma DistinctAppend(s: seq<BlockId>, b: BlockId)
    requires Distinct(s) && b !in s
    ensures Distinct(s + [b])
  {
  }

  /** Memory: the byte at each location of each block. */
  class Arena {
    var bytes: map<Loc<BlockId>, Byte>

    constructor ()
    {
      bytes := map[];
    }

    function At(l: Loc<BlockId>): Byte
      reads this
    {
      if l in bytes then bytes[l] else 0
    }
  }

  /** A contiguous piece of one block, as handed to the operating system. */
  datatype SysBuf = SysBuf(block: BlockId, start: nat, len: nat)

  function LocsOf(bufs: seq<SysBuf>): seq<Loc<BlockId>> {
    if bufs == [] then []
    else LocsOf(bufs[..|bufs| - 1])
         + Span(bufs[|bufs| - 1].block, bufs[|bufs| - 1].start, bufs[|bufs| - 1].len)
  }

  lemma LocsOfAppend(bufs: seq<SysBuf>, b: SysBuf)
    ensures LocsOf(bufs + [b]) == LocsOf(bufs) + Span(b.block, b.start, b.len)
  {
    assert (bufs + [b])[..|bufs|] == bufs;
  }

  /** Adding the first `k` free locations of block `p` to those of all blocks before it. */
  lemma TakeSpace(cs: seq<Cell<BlockId>>, p: nat, cap: nat, bufs: seq<SysBuf>, k: nat)
    requires p < |cs| && k <= Free(cs[p], cap) && LocsOf(bufs) == Space(cs[..p], cap)
    ensures var more := bufs + [SysBuf(cs[p].block, cs[p].offset + cs[p].len, k)];
            && |LocsOf(more)| == |LocsOf(bufs)| + k
            && LocsOf(more) <= Space(cs, cap)
            && (k == Free(cs[p], cap) ==> LocsOf(more) == Space(cs[..p + 1], cap))
  {
    hide Space, LocsOf;
    var c := cs[p];
    SpacePrefix(cs, p, cap);
    SpanSplit(c.block, c.offset + c.len, Free(c, cap), k);
    LocsOfAppend(bufs, SysBuf(c.block, c.offset + c.len, k));
  }

  class BasicBuffer {
    const freelist: Freelist
    const capacity: Pos
    /** The chain; its first block is the head. */
    var blocks: seq<Cell<BlockId>>
    var end: Option<BlockId>
    var tail: Option<BlockId>
    var blockCnt: nat
    var dataSize: nat
    var reserved: bool
    var peeked: bool

    /** The index of the end block in the chain. */
    ghost var e: nat
    /** The locations handed out by the outstanding reserve and by the outstanding peek. */
    ghost var reservation: seq<Loc<BlockId>>
    ghost var view: seq<Loc<BlockId>>

    /** The chain is laid out as it should be and its pointers point into it.  The tail pointer may be
        left dangling by an empty chain. */
    ghost predicate Chained()
      reads this`blocks, this`end, this`tail, this`blockCnt, this`e
    {
      && Layout(blocks, e, capacity)
      && Distinct(Ids(blocks))
      && blockCnt == |blocks|
      && (blocks == [] ==> end == None)
      && (blocks != [] ==> end == Some(blocks[e].block) && tail == Some(blocks[|blocks| - 1].block))
    }

    ghost predicate Valid()
      reads this
    {
      && Chained()
      && dataSize == |Data(blocks)|
      && (reserved ==> reservation <= Space(blocks, capacity))
      && (peeked ==> view <= Data(blocks))
    }

    /** The freelist is in order and holds none of this buffer's blocks. */
    ghost predicate Backed()
      reads this`blocks, freelist
    {
      freelist.Valid() && Apart(Ids(blocks), freelist.blocks, freelist.nextId)
    }

    ghost function Held(): Holding
      reads this`blocks, freelist
    {
      Holding(Ids(blocks), freelist.blocks, freelist.nextId)
    }

    constructor (freelist: Freelist, capacity: Pos)
      requires freelist.Valid()
      ensures Valid() && Backed() && this.freelist == freelist && this.capacity == capacity
      ensures blocks == [] && !reserved && !peeked
    {
      this.freelist, this.capacity := freelist, capacity;
      blocks, end, tail, blockCnt, dataSize := [], None, None, 0, 0;
      reserved, peeked := false, false;
      e, reservation, view := 0, [], [];
    }

    /** The bytes still to be consumed. */
    ghost function Contents(arena: Arena): (r: seq<Byte>)
      reads this`blocks, arena
    {
      BytesAt(arena, Data(blocks))
    }

    // ---- Sizes ---------------------------------------------------------------------------

    function SpaceSize(): (n: int)
      reads this`blocks, this`blockCnt, this`dataSize
    {
      if blocks == [] then 0 else blockCnt * capacity - dataSize - blocks[0].offset
    }

    /** The computed size is the number of locations that can still be filled. */
    lemma SpaceSizeIsExact()
      requires Chained() && dataSize == |Data(blocks)|
      ensures SpaceSize() == |Space(blocks, capacity)|
    {
      if blocks != [] { SpaceArithmetic(blocks, e, capacity); }
    }

    // ---- Growing -------------------------------------------------------------------------

    /** Takes a block for the end of the chain. */
    method TakeBlock() returns (b: BlockId)
      requires Distinct(Ids(blocks)) && Backed()
      modifies freelist
      ensures var ids := Ids(blocks + [Cell(b, 0, 0)]);
              && Distinct(ids) && freelist.Valid() && Apart(ids, freelist.blocks, freelist.nextId)
              && Conserved(Holding(ids, freelist.blocks, freelist.nextId), old(Held()))
    {
      AppendKeeps(blocks, freelist.blocks, freelist.nextId);
      hide Distinct, Apart, Conserved, Ids;
      b := freelist.New();
    }

    /** Adds one empty block at the tail. */
    method AppendNewBlock()
      requires Chained() && Backed()
      modifies this`blocks, this`end, this`tail, this`blockCnt, freelist
      ensures Chained() && Backed()
      ensures |blocks| > 0 && blocks == old(blocks) + [Cell(blocks[|blocks| - 1].block, 0, 0)]
      ensures Conserved(Held(), old(Held()))
    {
      hide Data, Space, Layout, Distinct, Apart, Conserved, Ids, Freelist.Valid;
      var b := TakeBlock();
      AppendCell(blocks, e, capacity, b);
      LayoutEnd(blocks, e, capacity);
      if blocks == [] {
        end := Some(b);
      }
      tail := Some(b);
      blockCnt := blockCnt + 1;
      blocks := blocks + [Cell(b, 0, 0)];
    }

    /** Where the next free location is: the end block, or the one after it when that is full. */
    method StepperStart() returns (p: nat)
      requires Chained()
      ensures p == FirstFree(blocks, e, capacity)
    {
      if end.None? {
        return |blocks|;
      }
      p := IndexOf(Ids(blocks), end.value);
      assert p == e;
      if Free(blocks[p], capacity) == 0 {
        p := p + 1;
      }
    }

    /** Makes sure there is a block at `p`, adding one when the chain ends there. */
    method StepTo(p: nat)
      requires Chained() && Backed() && FirstFree(blocks, e, capacity) <= p <= |blocks|
      modifies this`blocks, this`end, this`tail, this`blockCnt, freelist
      ensures Chained() && Backed() && Layout(blocks, e, capacity) && p < |blocks|
      ensures blocks == old(blocks) || blocks == old(blocks) + [Cell(blocks[|blocks| - 1].block, 0, 0)]
      ensures FirstFree(blocks, e, capacity) == old(FirstFree(blocks, e, capacity)) && Free(blocks[p], capacity) > 0
      ensures Data(blocks) == old(Data(blocks)) && old(Space(blocks, capacity)) <= Space(blocks, capacity)
      ensures Conserved(Held(), old(Held()))
    {
      hide Data, Space, Conserved;
      if p == |blocks| {
        AppendNewBlock();
        AppendCell(old(blocks), e, capacity, blocks[p].block);
      } else {
        NothingMoved(Held());
      }
    }

    /** Halfway through handing out space: `bufs` covers all free locations before block `p`, or, when
        the walk is over, some first part of them; nothing else has changed since the start. */
    ghost predicate Reserving(p: nat, bufs: seq<SysBuf>, over: bool, data: seq<Loc<BlockId>>, space: seq<Loc<BlockId>>, held: Holding)
      reads this`blocks, this`end, this`tail, this`blockCnt, this`e, freelist
    {
      && Chained() && Backed() && FirstFree(blocks, e, capacity) <= p <= |blocks|
      && LocsOf(bufs) <= Space(blocks, capacity)
      && (!over ==> LocsOf(bufs) == Space(blocks[..p], capacity))
      && Data(blocks) == data && space <= Space(blocks, capacity)
      && Conserved(Held(), held)
    }

    /** Hands out up to `limit` bytes of the block at `p`. */
    method ReserveBlock(p: nat, bufs: seq<SysBuf>, limit: nat, ghost data: seq<Loc<BlockId>>, ghost space: seq<Loc<BlockId>>, ghost held: Holding)
      returns (more: seq<SysBuf>, taken: nat)
      requires Reserving(p, bufs, false, data, space, held) && limit > 0
      modifies this`blocks, this`end, this`tail, this`blockCnt, freelist
      ensures 0 < taken <= limit && |LocsOf(more)| == |LocsOf(bufs)| + taken
      ensures p < |blocks| && taken == if limit >= Free(blocks[p], capacity) then Free(blocks[p], capacity) else limit
      ensures Reserving(p + 1, more, taken == limit, data, space, held)
      ensures taken == Free(blocks[p], capacity) ==> Reserving(p + 1, more, false, data, space, held)
      ensures |old(blocks)| <= |blocks|
    {
      hide Data, Space, Conserved, Backed, Held, Distinct, LocsOf;
      StepTo(p);
      assert blocks[..p] == old(blocks)[..p];
      ConservedTransitive(Held(), old(Held()), held);
      var c := blocks[p];
      taken := if limit >= Free(c, capacity) then Free(c, capacity) else limit;
      TakeSpace(blocks, p, capacity, bufs, taken);
      more := bufs + [SysBuf(c.block, c.offset + c.len, taken)];
    }

    ghost predicate ReservedExactly(bufs: seq<SysBuf>, n: nat)
      reads this, freelist
    {
      && Valid() && Backed() && reserved
      && n <= |Space(blocks, capacity)|
      && LocsOf(bufs) == reservation == Space(blocks, capacity)[..n]
    }

    lemma ReservingStarts(p: nat)
      requires Chained() && Backed() && p == FirstFree(blocks, e, capacity)
      ensures Reserving(p, [], false, Data(blocks), Space(blocks, capacity), Held())
      ensures Reserving(p, [], true, Data(blocks), Space(blocks, capacity), Held())
    {
      hide Data, Space, Backed, Conserved;
      SpaceStartsAtFirstFree(blocks, e, capacity);
      NothingMoved(Held());
    }

    method FinishReserve(p: nat, bufs: seq<SysBuf>, over: bool, ghost data: seq<Loc<BlockId>>, ghost space: seq<Loc<BlockId>>, ghost held: Holding)
      requires Reserving(p, bufs, over, data, space, held) && dataSize == |data| && (peeked ==> view <= data)
      modifies this`reserved, this`reservation
      ensures ReservedExactly(bufs, |LocsOf(bufs)|)
      ensures Data(blocks) == data && space <= Space(blocks, capacity)
      ensures Conserved(Held(), held)
    {
      hide Data, Space, Conserved, Backed, Held, Distinct, LocsOf, Layout;
      reserved, reservation := true, LocsOf(bufs);
    }

    method RunReserve(start: nat, size: nat, ghost data: seq<Loc<BlockId>>, ghost space: seq<Loc<BlockId>>, ghost held: Holding)
      returns (p: nat, bufs: seq<SysBuf>)
      requires Reserving(start, [], false, data, space, held) && Reserving(start, [], true, data, space, held)
      modifies this`blocks, this`end, this`tail, this`blockCnt, freelist
      ensures Reserving(p, bufs, true, data, space, held) && |LocsOf(bufs)| == size
      ensures (blocks == [] <==> size == 0 && old(blocks) == []) && |old(blocks)| <= |blocks|
    {
      p, bufs := start, [];
      assert LocsOf(bufs) == [];
      hide Reserving, LocsOf;
      var remaining: nat := size;
      while remaining > 0
        invariant Reserving(p, bufs, remaining == 0, data, space, held) && |LocsOf(bufs)| == size - remaining
        invariant (blocks == [] <==> remaining == size && old(blocks) == []) && |old(blocks)| <= |blocks|
      {
        var taken;
        bufs, taken := ReserveBlock(p, bufs, remaining, data, space, held);
        remaining := remaining - taken;
        p := p + 1;
      }
    }

    /** Hands out the next `size` free locations, growing the chain as needed. */
    method Reserve(size: nat) returns (bufs: seq<SysBuf>)
      requires Valid() && Backed() && !reserved
      modifies this`blocks, this`end, this`tail, this`blockCnt, this`reserved, this`reservation, freelist
      ensures ReservedExactly(bufs, size)
      ensures Data(blocks) == old(Data(blocks)) && old(Space(blocks, capacity)) <= Space(blocks, capacity)
      ensures |old(blocks)| <= |blocks| && Conserved(Held(), old(Held()))
      ensures blocks == [] <==> size == 0 && old(blocks) == []
    {
      hide Data, Space, Conserved, Backed, Held, Chained, Reserving, ReservedExactly, LocsOf, Layout, FirstFree, Ids;
      ghost var data, space, held := Data(blocks), Space(blocks, capacity), Held();
      var p := StepperStart();
      ReservingStarts(p);
      p, bufs := RunReserve(p, size, data, space, held);
      FinishReserve(p, bufs, true, data, space, held);
    }

    method RunReserveAtLeast(start: nat, size: nat, ghost data: seq<Loc<BlockId>>, ghost space: seq<Loc<BlockId>>, ghost held: Holding)
      returns (p: nat, bufs: seq<SysBuf>, total: nat)
      requires Reserving(start, [], false, data, space, held)
      modifies this`blocks, this`end, this`tail, this`blockCnt, freelist
      ensures Reserving(p, bufs, false, data, space, held) && |LocsOf(bufs)| == total
      ensures if size == 0 then total == 0 else size <= total < size + capacity
      ensures blocks == [] <==> size == 0 && old(blocks) == []
    {
      p, bufs, total := start, [], 0;
      assert LocsOf(bufs) == [];
      hide Reserving, LocsOf;
      while total < size
        invariant Reserving(p, bufs, false, data, space, held) && |LocsOf(bufs)| == total
        invariant blocks == [] <==> total == 0 && old(blocks) == []
        invariant if size == 0 then total == 0 else total < size + capacity
      {
        var taken;
        bufs, taken := ReserveBlock(p, bufs, capacity, data, space, held);
        total := total + taken;
        p := p + 1;
      }
    }

    /** Hands out whole blocks of free locations until they come to at least `size`. */
    method ReserveAtLeast(size: nat) returns (bufs: seq<SysBuf>, total: nat)
      requires Valid() && Backed() && !reserved
      modifies this`blocks, this`end, this`tail, this`blockCnt, this`reserved, this`reservation, freelist
      ensures ReservedExactly(bufs, total)
      ensures if size == 0 then total == 0 else size <= total < size + capacity
      ensures Data(blocks) == old(Data(blocks)) && old(Space(blocks, capacity)) <= Space(blocks, capacity)
      ensures Conserved(Held(), old(Held()))
      ensures blocks == [] <==> size == 0 && old(blocks) == []
    {
      hide Data, Space, Conserved, Backed, Held, Chained, Reserving, ReservedExactly, LocsOf, Layout, FirstFree, Ids;
      ghost var data, space, held := Data(blocks), Space(blocks, capacity), Held();
      var p := StepperStart();
      ReservingStarts(p);
      p, bufs, total := RunReserveAtLeast(p, size, data, space, held);
      FinishReserve(p, bufs, false, data, space, held);
    }

    // ---- Appending -----------------------------------------------------------------------

    /** Commits up to `size` bytes to the block at `p` and makes it the end block. */
    method CommitBlock(p: nat, size: nat) returns (left: nat)
      requires Chained() && size > 0 && p == FirstFree(blocks, e, capacity) && p < |blocks|
      modifies this`blocks, this`end, this`e
      ensures Chained() && Ids(blocks) == old(Ids(blocks)) && left < size
      ensures left > 0 ==> FirstFree(blocks, e, capacity) == p + 1
      ensures size - left <= |old(Space(blocks, capacity))|
      ensures Data(blocks) == old(Data(blocks)) + old(Space(blocks, capacity))[..size - left]
      ensures Space(blocks, capacity) == old(Space(blocks, capacity))[size - left..]
    {
      hide Data, Space, Distinct, Ids, Layout, FirstFree;
      var c := blocks[p];
      var toCommit := if size < Free(c, capacity) then size else Free(c, capacity);
      FirstFreeHasRoom(blocks, e, capacity);
      CommitCell(blocks, e, capacity, toCommit);
      CommitLayout(blocks, e, capacity, toCommit);
      blocks := blocks[p := c.(len := c.len + toCommit)];
      end, e := Some(c.block), p;
      SameIds(blocks, old(blocks), p);
      return size - toCommit;
    }

    /** Halfway through a commit: `done` bytes have moved from the free locations to the data. */
    ghost predicate Committing(p: nat, done: nat, over: bool, data: seq<Loc<BlockId>>, space: seq<Loc<BlockId>>, ids: seq<BlockId>)
      reads this`blocks, this`end, this`tail, this`blockCnt, this`e
    {
      && Chained() && Ids(blocks) == ids
      && done <= |space|
      && (!over ==> p == FirstFree(blocks, e, capacity))
      && Data(blocks) == data + space[..done]
      && Space(blocks, capacity) == space[done..]
    }

    method CommitStep(p: nat, done: nat, size: nat, ghost data: seq<Loc<BlockId>>, ghost space: seq<Loc<BlockId>>, ghost ids: seq<BlockId>)
      returns (left: nat)
      requires Committing(p, done, false, data, space, ids) && done < size <= |space|
      modifies this`blocks, this`end, this`e
      ensures left < size - done
      ensures Committing(p + 1, size - left, left == 0, data, space, ids)
    {
      hide Data, Space, Layout, Distinct, Ids;
      RoomAhead(blocks, e, capacity);
      left := CommitBlock(p, size - done);
      SliceFurther(data, space, done, size - left);
    }

    lemma CommittingStarts(p: nat)
      requires Chained() && p == FirstFree(blocks, e, capacity)
      ensures Committing(p, 0, false, Data(blocks), Space(blocks, capacity), Ids(blocks))
    {
      hide Data, Space;
      assert Data(blocks) + Space(blocks, capacity)[..0] == Data(blocks);
      assert Space(blocks, capacity)[0..] == Space(blocks, capacity);
    }

    method RunCommit(start: nat, size: nat, ghost data: seq<Loc<BlockId>>, ghost space: seq<Loc<BlockId>>, ghost ids: seq<BlockId>)
      requires Committing(start, 0, false, data, space, ids) && size <= |space|
      modifies this`blocks, this`end, this`e
      ensures Chained() && Ids(blocks) == ids
      ensures Data(blocks) == data + space[..size] && Space(blocks, capacity) == space[size..]
    {
      hide Data, Space, Layout, Distinct, Ids;
      var p, remaining := start, size;
      while remaining > 0
        invariant 0 <= remaining <= size && p >= 0
        invariant Committing(p, size - remaining, remaining == 0, data, space, ids)
      {
        remaining := CommitStep(p, size - remaining, size, data, space, ids);
        p := p + 1;
      }
    }

    /** Appends the first `size` bytes written to the free locations. */
    method Commit(size: nat)
      requires Valid() && reserved && blocks != [] && size <= |Space(blocks, capacity)|
      modifies this`blocks, this`end, this`e, this`dataSize, this`reserved
      ensures Valid() && !reserved && Ids(blocks) == old(Ids(blocks))
      ensures Data(blocks) == old(Data(blocks)) + old(Space(blocks, capacity))[..size]
      ensures Space(blocks, capacity) == old(Space(blocks, capacity))[size..]
    {
      hide Data, Space, Chained, Committing, Ids;
      ghost var data, space := Data(blocks), Space(blocks, capacity);
      var p := StepperStart();
      CommittingStarts(p);
      RunCommit(p, size, data, space, Ids(blocks));
      dataSize := dataSize + size;
      reserved := false;
    }

    /** What a commit asserts before it starts. */
    predicate CommitPasses(size: nat)
      reads this`blocks, this`blockCnt, this`dataSize, this`reserved
    {
      reserved && blocks != [] && size <= SpaceSize()
    }

    /** The asserts are what the contract of a commit requires. */
    lemma CommitPassesIff(size: nat)
      requires Valid()
      ensures CommitPasses(size) <==> reserved && blocks != [] && size <= |Space(blocks, capacity)|
    {
      hide Data, Space;
      SpaceSizeIsExact();
    }

    /** Within a reservation the asserts of a commit pass exactly when there is a block. */
    lemma CommitAllowed(n: nat)
      requires Valid() && reserved && n <= |reservation|
      ensures n <= |Space(blocks, capacity)| && (reservation != [] ==> blocks != [])
      ensures CommitPasses(n) <==> blocks != []
    {
      CommitPassesIff(n);
    }

    /** A commit of part of what was just reserved passes its asserts, unless nothing was reserved and
        the buffer had no block before: known before the reserve, and exact. */
    method ReserveThenCommitIff(size: nat, n: nat) returns (passes: bool)
      requires Valid() && Backed() && !reserved && n <= size
      modifies this, freelist
      ensures Valid() && passes == CommitPasses(n)
      ensures passes <==> size > 0 || old(blocks) != []
    {
      hide Data, Space, Conserved, Chained, LocsOf;
      var bufs := Reserve(size);
      CommitAllowed(n);
      passes := CommitPasses(n);
    }

    // ---- Consuming -----------------------------------------------------------------------

    /** Gives out the locations of all the data. */
    method Peek() returns (bufs: seq<SysBuf>)
      requires Valid() && !peeked
      modifies this`peeked, this`view
      ensures Valid() && peeked && LocsOf(bufs) == view == Data(blocks)
    {
      hide Space, Ids, Distinct;
      bufs := [];
      var p := 0;
      while p < |blocks| && blocks[p].len > 0
        invariant p <= |blocks| && LocsOf(bufs) == Data(blocks[..p])
        decreases |blocks| - p
      {
        var c := blocks[p];
        DataPrefix(blocks, p);
        LocsOfAppend(bufs, SysBuf(c.block, c.offset, c.len));
        bufs := bufs + [SysBuf(c.block, c.offset, c.len)];
        p := p + 1;
      }
      DataUpTo(blocks, e, capacity, p);
      peeked, view := true, Data(blocks);
    }

    /** Halfway through a drain: `done` data locations are gone, no free one has moved, and the end
        pointer may dangle once no data is left. */
    ghost predicate Draining(done: nat, data: seq<Loc<BlockId>>, space: seq<Loc<BlockId>>, held: Holding)
      reads this`blocks, this`end, this`tail, this`blockCnt, this`e, freelist
    {
      && Layout(blocks, e, capacity) && Distinct(Ids(blocks)) && blockCnt == |blocks|
      && (blocks != [] ==> tail == Some(blocks[|blocks| - 1].block))
      && done <= |data| && Data(blocks) == data[done..] && Space(blocks, capacity) == space
      && (done < |data| ==> blocks != [] && end == Some(blocks[e].block))
      && Backed() && Conserved(Held(), held)
    }

    /** Gives a full and wholly drained head block back to the freelist. */
    method PruneHead()
      requires Layout(blocks, e, capacity) && Distinct(Ids(blocks)) && Backed() && blockCnt == |blocks|
      requires blocks != [] && blocks[0].offset + blocks[0].len == capacity
      modifies this`blocks, this`blockCnt, this`e, freelist
      ensures Layout(blocks, e, capacity) && Distinct(Ids(blocks)) && Backed() && blockCnt == |blocks|
      ensures blocks == old(blocks)[1..] && e == if old(e) == 0 then 0 else old(e) - 1
      ensures old(e) == 0 ==> Data(blocks) == []
      ensures Data(blocks) == old(Data(blocks))[old(blocks[0].len)..] && Space(blocks, capacity) == old(Space(blocks, capacity))
      ensures Conserved(Held(), old(Held()))
    {
      hide Data, Space, Layout, Distinct, Ids, Apart, Conserved;
      PruneCell(blocks, e, capacity);
      PruneKeeps(blocks, freelist.blocks, freelist.nextId);
      var b := blocks[0].block;
      freelist.Delete(b);
      blockCnt := blockCnt - 1;
      blocks := blocks[1..];
      e := if e == 0 then 0 else e - 1;
    }

    /** Takes `k` bytes off the head block, which keeps data or room. */
    method ShrinkHead(k: nat)
      requires Layout(blocks, e, capacity) && blocks != [] && k <= blocks[0].len
      requires k < blocks[0].len || blocks[0].offset + blocks[0].len < capacity
      modifies this`blocks
      ensures Layout(blocks, e, capacity) && Ids(blocks) == old(Ids(blocks))
      ensures k <= |old(Data(blocks))| && Data(blocks) == old(Data(blocks))[k..]
      ensures Space(blocks, capacity) == old(Space(blocks, capacity))
    {
      hide Data, Space;
      DrainCell(blocks, e, capacity, k);
      if blocks[0].offset + blocks[0].len < capacity { AllInHead(blocks, e, capacity); }
      DrainLayout(blocks, e, capacity, k);
      blocks := blocks[0 := blocks[0].(offset := blocks[0].offset + k, len := blocks[0].len - k)];
      assert Ids(blocks) == old(Ids(blocks));
    }

    /** Drains the head block as far as it goes and prunes it when it is used up. */
    method DrainBlock(done: nat, size: nat, ghost data: seq<Loc<BlockId>>, ghost space: seq<Loc<BlockId>>, ghost held: Holding)
      returns (left: nat)
      requires Draining(done, data, space, held) && done < size <= |data|
      modifies this`blocks, this`blockCnt, this`e, freelist
      ensures left < size - done && Draining(size - left, data, space, held)
    {
      hide Data, Space, Conserved, Apart, Distinct, Freelist.Valid, Ids;
      HeadHasData(blocks, e, capacity);
      var c := blocks[0];
      var toDrain := if c.len < size - done then c.len else size - done;
      left := size - done - toDrain;
      SliceDrop(data, done, size - left);
      SameEnds(blocks, e, capacity);
      if toDrain == c.len && Free(c, capacity) == 0 {
        PruneHead();
        ConservedTransitive(Held(), old(Held()), held);
      } else {
        ShrinkHead(toDrain);
      }
    }

    method RunDrain(size: nat, ghost data: seq<Loc<BlockId>>, ghost space: seq<Loc<BlockId>>, ghost held: Holding)
      requires Draining(0, data, space, held) && size <= |data|
      modifies this`blocks, this`blockCnt, this`e, freelist
      ensures Draining(size, data, space, held)
      ensures size == 0 ==> blocks == old(blocks)
    {
      hide Draining;
      var remaining := size;
      while remaining > 0
        invariant 0 <= remaining <= size && Draining(size - remaining, data, space, held)
        invariant remaining == size ==> blocks == old(blocks)
      {
        remaining := DrainBlock(size - remaining, size, data, space, held);
      }
    }

    /** With no data left the end block is the head, and without an outstanding reserve the head starts
        over at its first byte. */
    method SettleEmpty(ghost data: seq<Loc<BlockId>>, ghost space: seq<Loc<BlockId>>, ghost held: Holding)
      requires Draining(|data|, data, space, held)
      modifies this`blocks, this`end, this`e
      ensures Chained() && Backed() && Data(blocks) == [] && Conserved(Held(), held)
      ensures reserved ==> Space(blocks, capacity) == space
      ensures EndsWith(Space(blocks, capacity), space) && |blocks| == |old(blocks)|
      ensures !reserved && blocks != [] ==> blocks[0].offset == 0
    {
      hide Conserved, Apart, Distinct;
      assert data[|data|..] == [];
      EmptyEndsAtHead(blocks, e, capacity);
      end := if blocks == [] then None else Some(blocks[0].block);
      if blocks != [] && !reserved {
        AllLensZero(blocks, capacity);
        RewindCell(blocks, capacity);
        blocks := blocks[0 := blocks[0].(offset := 0)];
        assert Ids(blocks) == old(Ids(blocks));
      }
    }

    /** Removes the first `size` bytes of the data. */
    method Drain(size: nat)
      requires Valid() && Backed() && peeked && size <= dataSize
      modifies this`blocks, this`end, this`blockCnt, this`e, this`dataSize, this`peeked, freelist
      ensures Valid() && Backed() && !peeked
      ensures Data(blocks) == old(Data(blocks))[size..]
      ensures reserved || Data(blocks) != [] ==> Space(blocks, capacity) == old(Space(blocks, capacity))
      ensures EndsWith(Space(blocks, capacity), old(Space(blocks, capacity)))
      ensures Conserved(Held(), old(Held()))
      ensures old(blocks) == [] ==> blocks == []
      ensures Data(blocks) == [] && !reserved && blocks != [] ==> blocks[0].offset == 0
    {
      ghost var data, space, held := Data(blocks), Space(blocks, capacity), Held();
      DrainingStarts();
      hide Data, Space, Conserved, Apart, Distinct, Layout, Held, Draining, Chained, Ids, Backed;
      RunDrain(size, data, space, held);
      FinishDrain(size, data, space, held);
    }

    /** A buffer without data whose head starts at its first byte has all its space free. */
    lemma AllFree()
      requires Chained() && dataSize == |Data(blocks)| && Data(blocks) == [] && (blocks != [] ==> blocks[0].offset == 0)
      ensures |Space(blocks, capacity)| == |blocks| * capacity
    {
      if blocks != [] { SpaceArithmetic(blocks, e, capacity); }
    }

    lemma DrainingStarts()
      requires Chained() && Backed()
      ensures Draining(0, Data(blocks), Space(blocks, capacity), Held())
      ensures blocks == [] ==> Data(blocks) == []
    {
      var data := Data(blocks);
      assert blocks == [] ==> data == [];
      hide Data, Space, Conserved, Apart, Distinct, Layout;
      NothingMoved(Held());
      assert data[0..] == data;
      if data != [] { HeadHasData(blocks, e, capacity); }
    }

    method FinishDrain(size: nat, ghost data: seq<Loc<BlockId>>, ghost space: seq<Loc<BlockId>>, ghost held: Holding)
      requires Draining(size, data, space, held) && size <= dataSize == |data|
      requires (reserved ==> reservation <= space)
      modifies this`blocks, this`end, this`e, this`dataSize, this`peeked
      ensures Valid() && Backed() && !peeked && Data(blocks) == data[size..] && |blocks| == |old(blocks)|
      ensures reserved || Data(blocks) != [] ==> Space(blocks, capacity) == space
      ensures EndsWith(Space(blocks, capacity), space) && Conserved(Held(), held)
      ensures Data(blocks) == [] && !reserved && blocks != [] ==> blocks[0].offset == 0
    {
      hide Data, Space, Conserved, Apart, Distinct, Layout, Held, Ids;
      dataSize := dataSize - size;
      peeked := false;
      if dataSize == 0 {
        assert data[size..] == [] && size == |data|;
        SettleEmpty(data, space, held);
      } else {
        WholeSuffix(space);
      }
    }

    /** Destruction gives every block back. */
    method Destroy()
      requires Valid() && Backed()
      modifies this`blocks, this`blockCnt, freelist
      ensures freelist.Valid() && blocks == [] && freelist.blocks == old(Ids(blocks)) + old(freelist.blocks)
      ensures freelist.nextId == old(freelist.nextId)
      ensures Conserved(Held(), old(Held()))
    {
      freelist.DeleteChain(Ids(blocks));
      blocks, blockCnt := [], 0;
    }
  }

  /** On a fresh buffer a commit of nothing, after reserving nothing, trips an assert. */
  method CommitWithoutBlockExample() returns (buffer: BasicBuffer)
    ensures buffer.Valid() && buffer.reserved && buffer.reservation == [] && !buffer.CommitPasses(0)
  {
    var freelist := new Freelist();
    buffer := new BasicBuffer(freelist, 1);
    var bufs := buffer.Reserve(0);
  }

  ghost predicate EndsWith<T>(s: seq<T>, tail: seq<T>) {
    |tail| <= |s| && s[|s| - |tail|..] == tail
  }

  lemma WholeSuffix<T>(s: seq<T>)
    ensures EndsWith(s, s)
  {
  }

  lemma AllLensZero(cs: seq<Cell<BlockId>>, cap: nat)
    requires Layout(cs, 0, cap) && cs != [] && Data(cs) == []
    ensures cs[0].len == 0
  {
  }

  /** Moving the first free block, or a new one when there is none, to the end of a chain. */
  lemma AppendKeeps(cs: seq<Cell<BlockId>>, free: seq<BlockId>, nextId: nat)
    requires Distinct(Ids(cs)) && Distinct(free) && Apart(Ids(cs), free, nextId) && forall b :: b in free ==> b < nextId
    ensures var b, free1, nextId1 := if free == [] then nextId else free[0], if free == [] then [] else free[1..],
                                     if free == [] then nextId + 1 else nextId;
            && Distinct(Ids(cs + [Cell(b, 0, 0)])) && Apart(Ids(cs + [Cell(b, 0, 0)]), free1, nextId1)
            && Conserved(Holding(Ids(cs + [Cell(b, 0, 0)]), free1, nextId1), Holding(Ids(cs), free, nextId))
  {
    var b := if free == [] then nextId else free[0];
    assert free != [] ==> free == [b] + free[1..] && b in free;
    assert Ids(cs + [Cell(b, 0, 0)]) == Ids(cs) + [b];
    assert b !in Ids(cs);
    DistinctAppend(Ids(cs), b);
  }

  lemma SameIds(cs: seq<Cell<BlockId>>, ds: seq<Cell<BlockId>>, p: nat)
    requires p < |cs| == |ds| && cs == ds[p := cs[p]] && cs[p].block == ds[p].block
    ensures Ids(cs) == Ids(ds)
  {
    assert forall i :: 0 <= i < |cs| ==> Ids(cs)[i] == Ids(ds)[i];
  }

  lemma LayoutEnd(cs: seq<Cell<BlockId>>, e: nat, cap: nat)
    requires Layout(cs, e, cap)
    ensures if cs == [] then e == 0 else e < |cs|
  {
  }

  lemma PruneKeeps(cs: seq<Cell<BlockId>>, free: seq<BlockId>, nextId: nat)
    requires cs != [] && Distinct(Ids(cs)) && Apart(Ids(cs), free, nextId)
    ensures Distinct(Ids(cs[1..])) && cs[0].block !in free && cs[0].block < nextId
    ensures Apart(Ids(cs[1..]), [cs[0].block] + free, nextId)
    ensures Conserved(Holding(Ids(cs[1..]), [cs[0].block] + free, nextId), Holding(Ids(cs), free, nextId))
  {
    IdsTail(cs);
  }

  lemma IdsTail(cs: seq<Cell<BlockId>>)
    requires cs != [] && Distinct(Ids(cs))
    ensures Ids(cs) == [cs[0].block] + Ids(cs[1..])
    ensures Distinct(Ids(cs[1..])) && cs[0].block in Ids(cs) && cs[0].block !in Ids(cs[1..])
    ensures forall b :: b in Ids(cs[1..]) ==> b in Ids(cs)
  {
    var tail := Ids(cs[1..]);
    assert forall i :: 0 <= i < |tail| ==> tail[i] == Ids(cs)[i + 1];
  }

  lemma SliceDrop<T>(data: seq<T>, done: nat, more: nat)
    requires done <= more <= |data|
    ensures data[done..][more - done..] == data[more..]
  {
  }

  /** The walk over data blocks stops behind the end block. */
  lemma DataUpTo(cs: seq<Cell<BlockId>>, e: nat, cap: nat, p: nat)
    requires Layout(cs, e, cap) && p <= |cs| && (p < |cs| ==> cs[p].len == 0)
    ensures Data(cs[..p]) == Data(cs)
  {
    NoData(cs[p..]);
    assert cs == cs[..p] + cs[p..];
    hide Data;
    DataConcat(cs[..p], cs[p..]);
  }

  /** The end and the tail of a chain, told from its ids. */
  lemma SameEnds(cs: seq<Cell<BlockId>>, e: nat, cap: nat)
    requires Layout(cs, e, cap) && cs != []
    ensures cs[e].block == Ids(cs)[e] && cs[|cs| - 1].block == Ids(cs)[|cs| - 1]
    ensures |cs| > 1 ==> cs[1..][|cs| - 2] == cs[|cs| - 1] && (e > 0 ==> cs[1..][e - 1] == cs[e])
  {
  }

  lemma HeadHasData(cs: seq<Cell<BlockId>>, e: nat, cap: nat)
    requires Layout(cs, e, cap) && Data(cs) != []
    ensures cs != [] && cs[0].len > 0
  {
    if cs != [] && cs[0].len == 0 { NoData(cs); }
  }

  /** When the head has room all the data is in it. */
  lemma AllInHead(cs: seq<Cell<BlockId>>, e: nat, cap: nat)
    requires Layout(cs, e, cap) && cs != [] && cs[0].offset + cs[0].len < cap
    ensures e == 0 && |Data(cs)| == cs[0].len
  {
    NoData(cs[1..]);
  }

  /** While there are free locations there is a block to step to. */
  lemma RoomAhead(cs: seq<Cell<BlockId>>, e: nat, cap: nat)
    requires Layout(cs, e, cap) && Space(cs, cap) != []
    ensures FirstFree(cs, e, cap) < |cs|
  {
    SpaceStartsAtFirstFree(cs, e, cap);
    assert cs[..|cs|] == cs;
  }

  lemma SliceFurther<T>(data: seq<T>, space: seq<T>, done: nat, more: nat)
    requires done <= more <= |space|
    ensures data + space[..done] + space[done..][..more - done] == data + space[..more]
    ensures space[done..][more - done..] == space[more..]
  {
  }

  function IndexOf(s: seq<BlockId>, b: BlockId): (i: nat)
    requires b in s
    ensures i < |s| && s[i] == b
  {
    if s[0] == b then 0 else 1 + IndexOf(s[1..], b)
  }

  function BytesAt(arena: Arena, locs: seq<Loc<BlockId>>): (r: seq<Byte>)
    reads arena
    ensures |r| == |locs|
    ensures forall i :: 0 <= i < |locs| ==> r[i] == arena.At(locs[i])
  {
    if locs == [] then [] else [arena.At(locs[0])] + BytesAt(arena, locs[1..])
  }

  /** The blocks of a buffer and of its freelist, and the ids handed out so far. */
  datatype Holding = Holding(chain: seq<BlockId>, free: seq<BlockId>, nextId: nat)

  /** From `h0` to `h` no block is lost, and none appears that was not allocated in between. */
  ghost predicate Conserved(h: Holding, h0: Holding) {
    && h0.nextId <= h.nextId
    && (forall b :: b in h0.chain || b in h0.free ==> b in h.chain || b in h.free)
    && (forall b :: b in h.chain || b in h.free ==> b in h0.chain || b in h0.free || h0.nextId <= b < h.nextId)
    && (forall b :: h0.nextId <= b < h.nextId ==> b in h.chain || b in h.free)
  }

  lemma NothingMoved(h: Holding)
    ensures Conserved(h, h)
  {
  }

  lemma ConservedTransitive(h: Holding, h1: Holding, h0: Holding)
    requires Conserved(h, h1) && Conserved(h1, h0)
    ensures Conserved(h, h0)
  {
  }

  // ---- Several buffers sharing a freelist ------------------------------------------------

  /** Every block handed out is in exactly one chain or on the freelist, and in it once. */
  ghost predicate Partition(chains: seq<seq<BlockId>>, free: seq<BlockId>, nextId: nat) {
    && Distinct(free)
    && (forall i :: 0 <= i < |chains| ==> Distinct(chains[i]) && Apart(chains[i], free, nextId))
    && (forall i, j, b :: 0 <= i < j < |chains| && b in chains[i] ==> b !in chains[j])
    && (forall b :: b in free ==> b < nextId)
    && (forall b: nat :: b < nextId ==> b in free || exists i :: 0 <= i < |chains| && b in chains[i])
  }

  /** An operation of one buffer keeps the blocks of all buffers and of the freelist apart and complete. */
  lemma PartitionKept(chains: seq<seq<BlockId>>, free: seq<BlockId>, nextId: nat, k: nat,
                      chain1: seq<BlockId>, free1: seq<BlockId>, nextId1: nat)
    requires k < |chains| && Partition(chains, free, nextId)
    requires Conserved(Holding(chain1, free1, nextId1), Holding(chains[k], free, nextId))
    requires Distinct(chain1) && Distinct(free1) && Apart(chain1, free1, nextId1) && forall b :: b in free1 ==> b < nextId1
    ensures Partition(chains[k := chain1], free1, nextId1)
  {
    var after := chains[k := chain1];
    forall i | 0 <= i < |after| ensures Distinct(after[i]) && Apart(after[i], free1, nextId1) {
      if i != k {
        forall b | b in chains[i] ensures b !in free1 && b < nextId1 {
          assert b !in chains[k];
        }
      }
    }
    forall b: nat | b < nextId1 ensures b in free1 || exists i :: 0 <= i < |after| && b in after[i] {
      if b < nextId && b !in free && b !in chains[k] {
        var i :| 0 <= i < |chains| && b in chains[i];
        assert b in after[i];
      } else if b !in free1 {
        assert b in after[k];
      }
    }
  }
}
