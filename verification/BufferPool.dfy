/** Several buffers sharing one freelist: over any run of their operations every block that was ever
    allocated is in exactly one chain or on the freelist. */
module BufferPool {
  import opened ByteChain
  import opened Buffer

  datatype Op =
    | Reserve(n: nat)
    | ReserveAtLeast(n: nat)
    | Commit(n: nat)
    | Peek
    | Drain(n: nat)

  ghost function Chains(buffers: seq<BasicBuffer>): (r: seq<seq<BlockId>>)
    reads buffers
    ensures |r| == |buffers|
    ensures forall i :: 0 <= i < |buffers| ==> r[i] == Ids(buffers[i].blocks)
  {
    seq(|buffers|, i requires 0 <= i < |buffers| reads buffers => Ids(buffers[i].blocks))
  }

  predicate DistinctBuffers(buffers: seq<BasicBuffer>) {
    forall i, j :: 0 <= i < j < |buffers| ==> buffers[i] != buffers[j]
  }

  ghost predicate Pool(buffers: seq<BasicBuffer>, freelist: Freelist)
    reads buffers, freelist
  {
    && DistinctBuffers(buffers)
    && (forall i :: 0 <= i < |buffers| ==> buffers[i].freelist == freelist && buffers[i].Valid())
    && freelist.Valid()
    && Partition(Chains(buffers), freelist.blocks, freelist.nextId)
  }

  /** What each chain's operation has to leave behind, for the others to be unaffected. */
  ghost predicate Kept(b: BasicBuffer, before: Holding)
    reads b, b.freelist
  {
    b.Valid() && b.Backed() && Conserved(b.Held(), before)
  }

  /** Does one operation on one buffer, if the buffer's own asserts allow it. */
  method Operate(b: BasicBuffer, op: Op)
    requires b.Valid() && b.Backed()
    modifies b, b.freelist
    ensures Kept(b, old(b.Held()))
    ensures op.Reserve? && !old(b.reserved) ==> b.reserved && |b.reservation| == op.n
    ensures op.ReserveAtLeast? && !old(b.reserved) ==> b.reserved && op.n <= |b.reservation|
    ensures op.Commit? && old(b.CommitPasses(op.n)) ==>
              !b.reserved && |Data(b.blocks)| == old(|Data(b.blocks)|) + op.n && old(Data(b.blocks)) <= Data(b.blocks)
    ensures op.Peek? && !old(b.peeked) ==> b.peeked && b.view == Data(b.blocks)
    ensures op.Drain? && old(b.peeked) && op.n <= old(b.dataSize) ==> !b.peeked && Data(b.blocks) == old(Data(b.blocks))[op.n..]
  {
    hide Data, Space, BasicBuffer.Chained, Apart, Conserved, EndsWith, Ids;
    NothingMoved(b.Held());
    b.SpaceSizeIsExact();
    match op
    case Reserve(n) =>
      if !b.reserved {
        var _ := b.Reserve(n);
      }
    case ReserveAtLeast(n) =>
      if !b.reserved {
        var _, _ := b.ReserveAtLeast(n);
      }
    case Commit(n) =>
      if b.reserved && b.blocks != [] && n <= b.SpaceSize() {
        b.Commit(n);
      }
    case Peek =>
      if !b.peeked {
        var _ := b.Peek();
      }
    case Drain(n) =>
      if b.peeked && n <= b.dataSize {
        b.Drain(n);
      }
  }

  /** One operation on one of the buffers keeps the pool in order. */
  method OperateOn(buffers: seq<BasicBuffer>, freelist: Freelist, k: nat, op: Op)
    requires Pool(buffers, freelist) && k < |buffers|
    modifies buffers[k], freelist
    ensures Pool(buffers, freelist)
  {
    hide Partition, Conserved, Apart, BasicBuffer.Valid, Freelist.Valid;
    ghost var chains, free, nextId := Chains(buffers), freelist.blocks, freelist.nextId;
    var b := buffers[k];
    BackedInPool(buffers, freelist, k);
    Operate(b, op);
    KeptFacts(b);
    PartitionKept(chains, free, nextId, k, Ids(b.blocks), freelist.blocks, freelist.nextId);
    assert Chains(buffers) == chains[k := Ids(b.blocks)];
  }

  lemma BackedInPool(buffers: seq<BasicBuffer>, freelist: Freelist, k: nat)
    requires Pool(buffers, freelist) && k < |buffers|
    ensures buffers[k].Backed()
  {
    assert Chains(buffers)[k] == Ids(buffers[k].blocks);
  }

  lemma KeptFacts(b: BasicBuffer)
    requires b.Valid() && b.Backed()
    ensures Distinct(Ids(b.blocks)) && Apart(Ids(b.blocks), b.freelist.blocks, b.freelist.nextId)
    ensures Distinct(b.freelist.blocks) && forall x :: x in b.freelist.blocks ==> x < b.freelist.nextId
  {
  }

  /** Any run of operations on any of the buffers. */
  method Run(buffers: seq<BasicBuffer>, freelist: Freelist, ops: seq<(nat, Op)>)
    requires Pool(buffers, freelist)
    modifies buffers, freelist
    ensures Pool(buffers, freelist)
  {
    hide Pool;
    for i := 0 to |ops|
      invariant Pool(buffers, freelist)
    {
      var (k, op) := ops[i];
      if k < |buffers| {
        OperateOn(buffers, freelist, k, op);
      }
    }
  }

  /** Destroying a buffer gives all its blocks to the freelist and leaves the others in order. */
  method DestroyOne(b: BasicBuffer, others: seq<BasicBuffer>, freelist: Freelist)
    requires Pool([b] + others, freelist)
    modifies b, freelist
    ensures Pool(others, freelist)
    ensures freelist.blocks == old(Ids(b.blocks)) + old(freelist.blocks) && freelist.nextId == old(freelist.nextId)
    ensures freelist.size == old(freelist.size) + |old(b.blocks)|
  {
    FirstApart(b, others, freelist);
    hide Partition, Conserved, Apart, Distinct, DistinctBuffers, BasicBuffer.Valid, Freelist.Valid, Pool, Chains;
    ghost var chain, free, nextId := Ids(b.blocks), freelist.blocks, freelist.nextId;
    DestroyBuffer(b);
    AfterDestroy(chain, Chains(others), free, nextId, freelist.blocks);
    Together(others, freelist);
  }

  /** What a pool says of its first buffer and of the others. */
  lemma FirstApart(b: BasicBuffer, others: seq<BasicBuffer>, freelist: Freelist)
    requires Pool([b] + others, freelist)
    ensures b.Valid() && b.Backed() && b.freelist == freelist && b !in others
    ensures DistinctBuffers(others) && freelist.Valid() && forall c <- others :: c.freelist == freelist && c.Valid()
    ensures Partition([Ids(b.blocks)] + Chains(others), freelist.blocks, freelist.nextId)
  {
    var all := [b] + others;
    BackedInPool(all, freelist, 0);
    hide Partition, BasicBuffer.Valid, Freelist.Valid;
    assert Chains(all) == [Ids(b.blocks)] + Chains(others);
    assert all[0] == b && forall i :: 0 <= i < |others| ==> others[i] == all[i + 1];
  }

  lemma Together(others: seq<BasicBuffer>, freelist: Freelist)
    requires DistinctBuffers(others) && freelist.Valid() && forall c <- others :: c.freelist == freelist && c.Valid()
    requires Partition(Chains(others), freelist.blocks, freelist.nextId)
    ensures Pool(others, freelist)
  {
  }

  method DestroyBuffer(b: BasicBuffer)
    requires b.Valid() && b.Backed()
    modifies b, b.freelist
    ensures b.freelist.Valid() && b.freelist.nextId == old(b.freelist.nextId)
    ensures b.freelist.blocks == old(Ids(b.blocks)) + old(b.freelist.blocks)
    ensures b.freelist.size == old(b.freelist.size) + |old(b.blocks)|
    ensures Distinct(b.freelist.blocks) && forall x :: x in b.freelist.blocks ==> x < b.freelist.nextId
    ensures Conserved(Holding([], b.freelist.blocks, b.freelist.nextId), old(b.Held()))
  {
    hide Conserved, Apart, Distinct, BasicBuffer.Chained, Data, Space;
    b.Destroy();
    assert b.Held() == Holding([], b.freelist.blocks, b.freelist.nextId);
  }

  lemma AfterDestroy(chain: seq<BlockId>, others: seq<seq<BlockId>>, free: seq<BlockId>, nextId: nat, free1: seq<BlockId>)
    requires Partition([chain] + others, free, nextId) && Distinct(free1) && forall b :: b in free1 ==> b < nextId
    requires Conserved(Holding([], free1, nextId), Holding(chain, free, nextId))
    ensures Partition(others, free1, nextId)
  {
    hide Partition, Conserved;
    PartitionKept([chain] + others, free, nextId, 0, [], free1, nextId);
    assert ([chain] + others)[0 := []] == [[]] + others;
    WithoutEmpty(others, free1, nextId);
  }

  /** A chain without blocks can be left out. */
  lemma WithoutEmpty(others: seq<seq<BlockId>>, free: seq<BlockId>, nextId: nat)
    requires Partition([[]] + others, free, nextId)
    ensures Partition(others, free, nextId)
  {
    hide Distinct, Apart;
    var all := [[]] + others;
    assert forall i :: 0 <= i < |others| ==> others[i] == all[i + 1];
    forall b: nat | b < nextId ensures b in free || exists i :: 0 <= i < |others| && b in others[i] {
      if b !in free {
        var i :| 0 <= i < |all| && b in all[i];
        assert b in others[i - 1];
      }
    }
  }
}
