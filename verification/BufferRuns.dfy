/** Any interleaving of appends and consumes behaves like a plain first-in first-out byte queue. */
module BufferRuns {
  import opened Basics
  import opened ByteChain
  import opened Buffer
  import opened BufferBytes
  import Seqs

  datatype Op =
    | DoReserve(n: nat)
    | DoReserveAtLeast(n: nat)
    | DoFill(data: seq<Byte>)
    | DoCommit(n: nat)
    | DoPeek
    | DoDrain(n: nat)

  /** The queue a buffer stands for: bytes to consume, the room handed out and what has been written
      to it so far, the bytes a peek has shown, whether there is a block, and everything appended,
      consumed and read up to now.  What is drained without having been shown is consumed unread. */
  datatype Fifo = Fifo(
    queue: seq<Byte>,
    room: Option<nat>,
    written: seq<Byte>,
    shown: Option<seq<Byte>>,
    hasBlock: bool,
    appended: seq<Byte>,
    consumed: seq<Byte>,
    read: seq<Byte>)

  const EMPTY := Fifo([], None, [], None, false, [], [], [])

  /** What the buffer asserts of its callers, and that they write within the room handed out and commit
      no more than they wrote. */
  predicate Allowed(f: Fifo, op: Op) {
    match op
    case DoReserve(_) => f.room.None?
    case DoReserveAtLeast(_) => f.room.None?
    case DoFill(data) => f.room.Some? && |data| <= f.room.value
    case DoCommit(n) => f.room.Some? && n <= |f.written| && f.hasBlock
    case DoPeek => f.shown.None?
    case DoDrain(n) => f.shown.Some? && n <= |f.queue|
  }

  /** An operation with what the buffer decides: how much room it hands out, and whether it is left with
      a block. */
  datatype Move = Move(op: Op, total: nat, block: bool)

  /** What the buffer may decide. */
  predicate Possible(f: Fifo, m: Move, capacity: nat) {
    match m.op
    case DoReserve(n) => m.total == n && m.block == (n > 0 || f.hasBlock)
    case DoReserveAtLeast(n) =>
      && (if n == 0 then m.total == 0 else n <= m.total < n + capacity)
      && m.block == (n > 0 || f.hasBlock)
    case DoDrain(n) => (m.block ==> f.hasBlock) && (n < |f.queue| || (f.room.Some? && f.room.value > 0) ==> m.block)
    case _ => m.block == f.hasBlock
  }

  function Prefix(s: seq<Byte>, n: nat): seq<Byte> { if n <= |s| then s[..n] else s }

  function Effect(f: Fifo, m: Move): Fifo
    requires Allowed(f, m.op)
  {
    var g := f.(hasBlock := m.block);
    match m.op
    case DoReserve(_) => g.(room := Some(m.total), written := [])
    case DoReserveAtLeast(_) => g.(room := Some(m.total), written := [])
    case DoFill(data) => g.(written := data)
    case DoCommit(n) => g.(queue := f.queue + f.written[..n], appended := f.appended + f.written[..n], room := None)
    case DoPeek => g.(shown := Some(f.queue))
    case DoDrain(n) =>
      g.(queue := f.queue[n..], consumed := f.consumed + f.queue[..n], read := f.read + Prefix(f.shown.value, n), shown := None)
  }

  predicate Legal(f: Fifo, moves: seq<Move>, capacity: nat)
    decreases |moves|
  {
    moves != [] ==>
      Allowed(f, moves[0].op) && Possible(f, moves[0], capacity) && Legal(Effect(f, moves[0]), moves[1..], capacity)
  }

  function Final(f: Fifo, moves: seq<Move>, capacity: nat): Fifo
    requires Legal(f, moves, capacity)
    decreases |moves|
  {
    if moves == [] then f else Final(Effect(f, moves[0]), moves[1..], capacity)
  }

  // ---- The queue ---------------------------------------------------------------------------

  /** Nothing lost, doubled or reordered; what is shown is what comes next; and there is a block
      wherever bytes are or may go. */
  predicate Ordered(f: Fifo) {
    && f.consumed + f.queue == f.appended
    && (f.shown.Some? ==> f.shown.value <= f.queue)
    && (f.queue != [] || (f.room.Some? && f.room.value > 0) ==> f.hasBlock)
  }

  lemma MoveKeepsOrder(f: Fifo, m: Move, capacity: nat)
    requires Ordered(f) && Allowed(f, m.op) && Possible(f, m, capacity)
    ensures Ordered(Effect(f, m))
  {
    match m.op {
      case DoCommit(n) =>
        Seqs.Assoc(f.consumed, f.queue, f.written[..n]);
      case DoDrain(n) =>
        Seqs.TakeDrop(f.queue, n);
        Seqs.Assoc(f.consumed, f.queue[..n], f.queue[n..]);
      case _ =>
    }
  }

  /** Bytes come out in the order they went in, none lost, none twice. */
  lemma {:induction false} FirstInFirstOut(f: Fifo, moves: seq<Move>, capacity: nat)
    requires Legal(f, moves, capacity) && Ordered(f)
    ensures Ordered(Final(f, moves, capacity))
    decreases |moves|
  {
    if moves != [] {
      MoveKeepsOrder(f, moves[0], capacity);
      hide Ordered, Effect;
      FirstInFirstOut(Effect(f, moves[0]), moves[1..], capacity);
    }
  }

  lemma {:induction false} LegalAppend(f: Fifo, moves: seq<Move>, more: seq<Move>, capacity: nat)
    requires Legal(f, moves, capacity) && Legal(Final(f, moves, capacity), more, capacity)
    ensures Legal(f, moves + more, capacity)
    ensures Final(f, moves + more, capacity) == Final(Final(f, moves, capacity), more, capacity)
    decreases |moves|
  {
    if moves == [] {
      assert moves + more == more;
    } else {
      hide Effect, Allowed, Possible;
      assert (moves + more)[1..] == moves[1..] + more;
      LegalAppend(Effect(f, moves[0]), moves[1..], more, capacity);
    }
  }

  lemma LegalOne(f: Fifo, m: Move, capacity: nat)
    requires Allowed(f, m.op) && Possible(f, m, capacity)
    ensures Legal(f, [m], capacity) && Final(f, [m], capacity) == Effect(f, m)
  {
    assert [m][1..] == [];
    hide Effect, Allowed, Possible;
    assert Legal(Effect(f, m), [m][1..], capacity);
  }

  // ---- The buffer --------------------------------------------------------------------------

  /** The room handed out is the reservation, and starts with what has been written to it. */
  ghost predicate RoomHolds(arena: Arena, bufs: seq<SysBuf>, reservation: seq<Loc<BlockId>>, room: nat, written: seq<Byte>)
    reads arena
  {
    && LocsOf(bufs) == reservation && |written| <= |reservation| == room
    && BytesAt(arena, reservation[..|written|]) == written
  }

  /** The buffer and memory stand for the queue `f`. */
  ghost predicate Represents(buffer: BasicBuffer, arena: Arena, bufs: seq<SysBuf>, pieces: seq<SysBuf>, f: Fifo)
    reads buffer, buffer.freelist, arena
  {
    && buffer.Valid() && buffer.Backed()
    && buffer.Contents(arena) == f.queue
    && buffer.reserved == f.room.Some?
    && (f.room.Some? ==> RoomHolds(arena, bufs, buffer.reservation, f.room.value, f.written))
    && buffer.peeked == f.shown.Some?
    && (f.shown.Some? ==> f.shown.value <= f.queue && LocsOf(pieces) == buffer.view && |f.shown.value| == |buffer.view|)
    && f.hasBlock == (buffer.blocks != [])
  }

  /** The committed part of what was written, and the bytes that stay in front of it. */
  lemma CommittedBytes(arena: Arena, data: seq<Loc<BlockId>>, reservation: seq<Loc<BlockId>>, written: seq<Byte>, n: nat)
    requires n <= |written| <= |reservation| && BytesAt(arena, reservation[..|written|]) == written
    ensures BytesAt(arena, data + reservation[..n]) == BytesAt(arena, data) + written[..n]
  {
    BytesAtConcat(arena, data, reservation[..n]);
    assert reservation[..n] == reservation[..|written|][..n];
  }

  method CommitOp(buffer: BasicBuffer, arena: Arena, bufs: seq<SysBuf>, pieces: seq<SysBuf>, n: nat, f: Fifo)
    requires Represents(buffer, arena, bufs, pieces, f) && Allowed(f, DoCommit(n))
    modifies buffer
    ensures Represents(buffer, arena, bufs, pieces, Effect(f, Move(DoCommit(n), 0, f.hasBlock)))
  {
    hide Data, Space, LocsOf, BasicBuffer.Chained, Apart, BytesAt;
    ghost var data, reservation := Data(buffer.blocks), buffer.reservation;
    buffer.CommitAllowed(n);
    CommittedBytes(arena, data, reservation, f.written, n);
    assert Space(buffer.blocks, buffer.capacity)[..n] == reservation[..n];
    assert |Ids(buffer.blocks)| == |buffer.blocks|;
    buffer.Commit(n);
    assert |Ids(buffer.blocks)| == |buffer.blocks|;
  }

  method ReserveOp(buffer: BasicBuffer, arena: Arena, pieces: seq<SysBuf>, op: Op, ghost bufs: seq<SysBuf>, f: Fifo)
    returns (after: seq<SysBuf>, m: Move)
    requires Represents(buffer, arena, bufs, pieces, f) && Allowed(f, op) && (op.DoReserve? || op.DoReserveAtLeast?)
    modifies buffer, buffer.freelist
    ensures m.op == op && Possible(f, m, buffer.capacity) && Represents(buffer, arena, after, pieces, Effect(f, m))
  {
    hide Data, Space, LocsOf, BasicBuffer.Chained, Apart, Conserved, BytesAt;
    if op.DoReserve? {
      after := buffer.Reserve(op.n);
      m := Move(op, op.n, buffer.blocks != []);
    } else {
      var total;
      after, total := buffer.ReserveAtLeast(op.n);
      m := Move(op, total, buffer.blocks != []);
    }
    NothingWritten(arena, buffer.reservation);
  }

  lemma NothingWritten(arena: Arena, reservation: seq<Loc<BlockId>>)
    ensures BytesAt(arena, reservation[..0]) == []
  {
  }

  method Append(buffer: BasicBuffer, arena: Arena, bufs: seq<SysBuf>, pieces: seq<SysBuf>, op: Op, f: Fifo)
    returns (after: seq<SysBuf>, m: Move)
    requires Represents(buffer, arena, bufs, pieces, f) && Allowed(f, op) && !op.DoPeek? && !op.DoDrain?
    modifies buffer, buffer.freelist, arena
    ensures m.op == op && Possible(f, m, buffer.capacity) && Represents(buffer, arena, after, pieces, Effect(f, m))
  {
    hide Data, Space, LocsOf, BasicBuffer.Chained, Apart, Conserved, BytesAt;
    after, m := bufs, Move(op, 0, f.hasBlock);
    if op.DoFill? {
      Fill(buffer, arena, bufs, op.data);
    } else if op.DoCommit? {
      CommitOp(buffer, arena, bufs, pieces, op.n, f);
    } else {
      after, m := ReserveOp(buffer, arena, pieces, op, bufs, f);
    }
  }

  /** The consumed part of the data, and the bytes that stay behind it. */
  lemma DrainedBytes(arena: Arena, data: seq<Loc<BlockId>>, n: nat)
    requires n <= |data|
    ensures BytesAt(arena, data[..n]) == BytesAt(arena, data)[..n]
    ensures BytesAt(arena, data[n..]) == BytesAt(arena, data)[n..]
  {
  }

  /** Reads up to `n` bytes through the pieces of a peek. */
  method ReadView(arena: Arena, pieces: seq<SysBuf>, n: nat, ghost data: seq<Loc<BlockId>>, ghost shown: seq<Byte>)
    returns (out: seq<Byte>)
    requires LocsOf(pieces) <= data && shown <= BytesAt(arena, data) && |shown| == |LocsOf(pieces)|
    ensures out == Prefix(shown, n)
  {
    hide LocsOf, BytesAt;
    out := CopyBufs(arena, pieces, n);
    DrainedBytes(arena, data, |out|);
    assert LocsOf(pieces)[..|out|] == data[..|out|];
  }

  /** What the buffer stands for once the drained bytes are gone. */
  lemma Drained(buffer: BasicBuffer, arena: Arena, bufs: seq<SysBuf>, pieces: seq<SysBuf>, n: nat, f: Fifo)
    requires f.shown.Some? && n <= |f.queue| && buffer.Valid() && buffer.Backed() && !buffer.peeked
    requires buffer.Contents(arena) == f.queue[n..] && buffer.reserved == f.room.Some?
    requires f.room.Some? ==> RoomHolds(arena, bufs, buffer.reservation, f.room.value, f.written)
    requires f.hasBlock || buffer.blocks == []
    ensures var m := Move(DoDrain(n), 0, buffer.blocks != []);
            Possible(f, m, buffer.capacity) && Represents(buffer, arena, bufs, pieces, Effect(f, m))
  {
    hide BasicBuffer.Chained, BasicBuffer.Backed, Prefix;
    assert buffer.blocks == [] ==> Data(buffer.blocks) == [] && Space(buffer.blocks, buffer.capacity) == [];
    assert |BytesAt(arena, Data(buffer.blocks))| == |Data(buffer.blocks)|;
  }

  /** What the buffer stands for tells what a drain finds. */
  lemma Undrained(buffer: BasicBuffer, arena: Arena, bufs: seq<SysBuf>, pieces: seq<SysBuf>, n: nat, f: Fifo)
    requires Represents(buffer, arena, bufs, pieces, f) && f.shown.Some? && n <= |f.queue|
    ensures buffer.Valid() && buffer.Backed() && buffer.peeked && n <= buffer.dataSize == |Data(buffer.blocks)|
    ensures BytesAt(arena, Data(buffer.blocks)[n..]) == f.queue[n..]
    ensures buffer.reserved == f.room.Some? && f.hasBlock == (buffer.blocks != [])
    ensures f.room.Some? ==> RoomHolds(arena, bufs, buffer.reservation, f.room.value, f.written)
  {
    hide Data, Space, BasicBuffer.Chained, RoomHolds, BytesAt;
    DrainedBytes(arena, Data(buffer.blocks), n);
  }

  lemma Reads(buffer: BasicBuffer, arena: Arena)
    ensures buffer.Contents(arena) == BytesAt(arena, Data(buffer.blocks))
  {
  }

  method DrainOnly(buffer: BasicBuffer, arena: Arena, bufs: seq<SysBuf>, pieces: seq<SysBuf>, n: nat, f: Fifo)
    returns (m: Move)
    requires Represents(buffer, arena, bufs, pieces, f) && f.shown.Some? && n <= |f.queue|
    modifies buffer, buffer.freelist
    ensures m.op == DoDrain(n) && Possible(f, m, buffer.capacity)
    ensures Represents(buffer, arena, bufs, pieces, Effect(f, m))
  {
    Undrained(buffer, arena, bufs, pieces, n, f);
    hide *;
    DrainBuffer(buffer, arena, n, f.queue[n..]);
    Drained(buffer, arena, bufs, pieces, n, f);
    m := Move(DoDrain(n), 0, buffer.blocks != []);
  }

  /** What draining means for the bytes, and what it leaves alone. */
  method DrainBuffer(buffer: BasicBuffer, arena: Arena, n: nat, ghost left: seq<Byte>)
    requires buffer.Valid() && buffer.Backed() && buffer.peeked && n <= buffer.dataSize == |Data(buffer.blocks)|
    requires BytesAt(arena, Data(buffer.blocks)[n..]) == left
    modifies buffer, buffer.freelist
    ensures buffer.Valid() && buffer.Backed() && !buffer.peeked && buffer.Contents(arena) == left
    ensures buffer.reserved == old(buffer.reserved) && buffer.reservation == old(buffer.reservation)
    ensures old(buffer.blocks) == [] ==> buffer.blocks == []
  {
    hide *;
    buffer.Drain(n);
    Reads(buffer, arena);
  }

  method DrainOp(buffer: BasicBuffer, arena: Arena, bufs: seq<SysBuf>, pieces: seq<SysBuf>, n: nat, f: Fifo)
    returns (out: seq<Byte>, m: Move)
    requires Represents(buffer, arena, bufs, pieces, f) && Allowed(f, DoDrain(n))
    modifies buffer, buffer.freelist
    ensures m.op == DoDrain(n) && Possible(f, m, buffer.capacity)
    ensures Represents(buffer, arena, bufs, pieces, Effect(f, m)) && out == Prefix(f.shown.value, n)
  {
    hide Data, Space, LocsOf, BasicBuffer.Chained, BytesAt, RoomHolds, Prefix, BasicBuffer.Backed, Possible, Effect;
    out := ReadView(arena, pieces, n, Data(buffer.blocks), f.shown.value);
    hide Represents;
    m := DrainOnly(buffer, arena, bufs, pieces, n, f);
  }

  method Consume(buffer: BasicBuffer, arena: Arena, bufs: seq<SysBuf>, pieces: seq<SysBuf>, op: Op, f: Fifo)
    returns (after: seq<SysBuf>, out: seq<Byte>, m: Move)
    requires Represents(buffer, arena, bufs, pieces, f) && Allowed(f, op) && (op.DoPeek? || op.DoDrain?)
    modifies buffer, buffer.freelist
    ensures m.op == op && Possible(f, m, buffer.capacity) && Represents(buffer, arena, bufs, after, Effect(f, m))
    ensures f.read + out == Effect(f, m).read
  {
    hide Data, Space, LocsOf, BasicBuffer.Chained, Apart, BytesAt;
    after, out, m := pieces, [], Move(op, 0, f.hasBlock);
    match op
    case DoPeek =>
      after := buffer.Peek();
    case DoDrain(n) =>
      out, m := DrainOp(buffer, arena, bufs, pieces, n, f);
  }

  /** Any operation the queue allows. */
  method Perform(buffer: BasicBuffer, arena: Arena, bufs: seq<SysBuf>, pieces: seq<SysBuf>, op: Op, f: Fifo)
    returns (bufs': seq<SysBuf>, pieces': seq<SysBuf>, out: seq<Byte>, m: Move)
    requires Represents(buffer, arena, bufs, pieces, f) && Allowed(f, op)
    modifies buffer, buffer.freelist, arena
    ensures m.op == op && Possible(f, m, buffer.capacity) && Represents(buffer, arena, bufs', pieces', Effect(f, m))
    ensures f.read + out == Effect(f, m).read
  {
    hide Represents, Possible;
    bufs', pieces', out := bufs, pieces, [];
    if op.DoPeek? || op.DoDrain? {
      pieces', out, m := Consume(buffer, arena, bufs, pieces, op, f);
    } else {
      bufs', m := Append(buffer, arena, bufs, pieces, op, f);
    }
  }

  /** A caller decides its next operation from what it has done and seen so far; it may be any that
      always keeps to what is allowed. */
  type Caller = (nat, Fifo) -> Op

  ghost predicate Obeys(caller: Caller) { forall i, f :: Allowed(f, caller(i, f)) }

  /** Every run of every caller on a fresh buffer, whatever overlaps, is a run of the queue: it reads what
      the queue shows, ends with the queue's bytes, and everything appended has been consumed or is
      still there, in order. */
  method Run(buffer: BasicBuffer, arena: Arena, caller: Caller, n: nat) returns (out: seq<Byte>, moves: seq<Move>)
    requires buffer.Valid() && buffer.Backed() && buffer.blocks == [] && !buffer.reserved && !buffer.peeked
    requires Obeys(caller)
    modifies buffer, buffer.freelist, arena
    ensures |moves| == n && Legal(EMPTY, moves, buffer.capacity)
    ensures buffer.Valid() && buffer.Contents(arena) == Final(EMPTY, moves, buffer.capacity).queue
    ensures out == Final(EMPTY, moves, buffer.capacity).read
    ensures Ordered(Final(EMPTY, moves, buffer.capacity))
  {
    var bufs, pieces, i := [], [], 0;
    out, moves := [], [];
    var f := EMPTY;
    assert Represents(buffer, arena, bufs, pieces, f);
    assert Legal(EMPTY, moves, buffer.capacity) && Final(EMPTY, moves, buffer.capacity) == f;
    hide Represents, Effect, Allowed, Possible, Legal, Final;
    while i < n
      invariant i <= n && |moves| == i && Legal(EMPTY, moves, buffer.capacity) && Final(EMPTY, moves, buffer.capacity) == f
      invariant Represents(buffer, arena, bufs, pieces, f) && out == f.read
    {
      var op := caller(i, f);
      var more, m;
      bufs, pieces, more, m := Perform(buffer, arena, bufs, pieces, op, f);
      LegalOne(f, m, buffer.capacity);
      LegalAppend(EMPTY, moves, [m], buffer.capacity);
      out, moves, i := out + more, moves + [m], i + 1;
      f := Effect(f, m);
    }
    FirstInFirstOut(EMPTY, moves, buffer.capacity);
    Unfold(buffer, arena, bufs, pieces, f);
  }

  lemma Unfold(buffer: BasicBuffer, arena: Arena, bufs: seq<SysBuf>, pieces: seq<SysBuf>, f: Fifo)
    requires Represents(buffer, arena, bufs, pieces, f)
    ensures buffer.Valid() && buffer.Contents(arena) == f.queue
  {
  }
}
