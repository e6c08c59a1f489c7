/** The bridge's queues are the buffers: every run of the bridge is, for each queue, a run of the
    first-in first-out reading of the buffer, with the rooms the buffer hands out. */
module BridgeBuffer {
  import opened Basics
  import opened BufferRuns
  import opened Bridge

  function QueueOf(f: Fifo): Queue {
    Queue(
      f.queue,
      f.room.Some?, if f.room.Some? then f.room.value else 0,
      f.shown.Some?, if f.shown.Some? then |f.shown.value| else 0)
  }

  /** The buffer `f` is the queue of `d`: it was given what came from the source, and what it gave up
      went to the sink. */
  ghost predicate Backs(f: Fifo, d: Direction) {
    && Ordered(f) && QueueOf(f) == d.queue
    && f.appended == d.trace.taken && f.consumed == Delivered(d.trace.sink)
  }

  /** `moves` take the buffer of `d` to the buffer of `d'`. */
  ghost predicate Carries(f: Fifo, moves: seq<Move>, capacity: nat, d: Direction) {
    Legal(f, moves, capacity) && Backs(Final(f, moves, capacity), d)
  }

  lemma Still(f: Fifo, capacity: nat, d: Direction)
    requires Backs(f, d)
    ensures Carries(f, [], capacity, d)
  {
  }

  lemma OneMove(f: Fifo, m: Move, capacity: nat, d: Direction)
    requires Ordered(f) && Allowed(f, m.op) && BufferRuns.Possible(f, m, capacity)
    requires QueueOf(Effect(f, m)) == d.queue
    requires Effect(f, m).appended == d.trace.taken && Effect(f, m).consumed == Delivered(d.trace.sink)
    ensures Carries(f, [m], capacity, d)
  {
    MoveKeepsOrder(f, m, capacity);
    LegalOne(f, m, capacity);
  }

  lemma Then(f: Fifo, moves: seq<Move>, more: seq<Move>, capacity: nat, d: Direction)
    requires Legal(f, moves, capacity) && Carries(Final(f, moves, capacity), more, capacity, d)
    ensures Carries(f, moves + more, capacity, d)
  {
    LegalAppend(f, moves, more, capacity);
  }

  // ---- One direction -------------------------------------------------------------------------

  /** Issuing a read reserves at least the read size; issuing a write peeks. */
  lemma ForwardMoves(d: Direction, room: nat, f: Fifo, capacity: nat) returns (moves: seq<Move>)
    requires FlagsMatch(d) && Backs(f, d) && READ_SIZE <= room < READ_SIZE + capacity
    ensures Carries(f, moves, capacity, Forward(d, room))
  {
    hide Delivered, Legal, Final;
    var r := d;
    moves := [];
    Still(f, capacity, d);
    if !d.reading && d.readable && d.writable && |d.queue.data| < MAX_BUFFER_SIZE {
      r := d.(reading := true, queue := d.queue.ReserveAtLeast(room));
      var m := Move(DoReserveAtLeast(READ_SIZE), room, true);
      OneMove(f, m, capacity, r);
      moves := [m];
    }
    assert Carries(f, moves, capacity, r);
    if !r.writing && r.writable && |r.queue.data| > 0 {
      var b := Final(f, moves, capacity);
      var m := Move(DoPeek, 0, b.hasBlock);
      var w := r.(writing := true, queue := r.queue.Peek());
      OneMove(b, m, capacity, w);
      Then(f, moves, [m], capacity, w);
      moves := moves + [m];
    }
  }

  /** A completed read has written its bytes to the room and commits all of them. */
  lemma ReadMoves(d: Direction, bytes: seq<Byte>, failed: bool, f: Fifo, capacity: nat) returns (moves: seq<Move>)
    requires Good(d, capacity) && d.reading && |bytes| <= d.queue.room && Backs(f, d)
    ensures Carries(f, moves, capacity, ReadDone(d, bytes, failed))
  {
    SinkAppend(d.trace.sink, ShutdownSend);
    assert FlagsMatch(d) && READ_SIZE <= d.queue.room && f.hasBlock;
    hide Delivered, Legal, Final, Good;
    var fill, commit := Move(DoFill(bytes), 0, true), Move(DoCommit(|bytes|), 0, true);
    OneMove(f, fill, capacity, d);
    LegalOne(f, fill, capacity);
    var b := Final(f, [fill], capacity);
    assert b == Effect(f, fill) && b.written[..|bytes|] == bytes;
    OneMove(b, commit, capacity, ReadDone(d, bytes, failed));
    Then(f, [fill], [commit], capacity, ReadDone(d, bytes, failed));
    moves := [fill] + [commit];
  }

  /** A completed write drains what was written. */
  lemma WriteMoves(d: Direction, n: nat, failed: bool, f: Fifo, capacity: nat) returns (moves: seq<Move>)
    requires FlagsMatch(d) && d.writing && n <= d.queue.shown && Backs(f, d)
    ensures Carries(f, moves, capacity, WriteDone(d, n, failed))
  {
    WriteFacts(d, n, failed);
    hide Delivered, Legal, Final, WriteDone;
    var m := Move(DoDrain(n), 0, f.hasBlock);
    OneMove(f, m, capacity, WriteDone(d, n, failed));
    moves := [m];
  }

  lemma WriteFacts(d: Direction, n: nat, failed: bool)
    requires FlagsMatch(d) && d.writing && n <= |d.queue.data|
    ensures var w := WriteDone(d, n, failed);
            && w.queue == d.queue.Drain(n) && w.trace.taken == d.trace.taken
            && Delivered(w.trace.sink) == Delivered(d.trace.sink) + d.queue.data[..n]
  {
    var front := d.queue.data[..n];
    SinkAppend(d.trace.sink, Wrote(front));
    SinkAppend(d.trace.sink + [Wrote(front)], ShutdownSend);
    hide Delivered;
  }

  // ---- Whole runs ----------------------------------------------------------------------------

  /** What one handler call does to the two buffers. */
  lemma CallMoves(p: Pair, c: Call, capacity: nat, f: Fifo, g: Fifo) returns (ups: seq<Move>, downs: seq<Move>)
    requires Sound(p, capacity) && Bridge.Possible(p, c.what) && RoomsFit(c, capacity)
    requires Backs(f, p.up) && Backs(g, p.down)
    ensures Carries(f, ups, capacity, Next(p, c).up) && Carries(g, downs, capacity, Next(p, c).down)
  {
    hide Good, Busy, Backs, Legal, Final, Forward, ReadDone, WriteDone;
    ups, downs := [], [];
    Still(f, capacity, p.up);
    Still(g, capacity, p.down);
    match c.what {
      case ClientRead(bytes, failed) => ups := ReadMoves(p.up, bytes, failed, f, capacity);
      case ClientWritten(n, failed) => downs := WriteMoves(p.down, n, failed, g, capacity);
      case DestRead(bytes, failed) => downs := ReadMoves(p.down, bytes, failed, g, capacity);
      case DestWritten(n, failed) => ups := WriteMoves(p.up, n, failed, f, capacity);
    }
    var q := Completed(p, c.what);
    var moreUp := ForwardMoves(q.up, c.roomUp, Final(f, ups, capacity), capacity);
    var moreDown := ForwardMoves(q.down, c.roomDown, Final(g, downs, capacity), capacity);
    Then(f, ups, moreUp, capacity, Next(p, c).up);
    Then(g, downs, moreDown, capacity, Next(p, c).down);
    ups, downs := ups + moreUp, downs + moreDown;
  }

  /** Every run of the bridge is a run of its two buffers: each operation is one the buffer allows, with
      room in the range its reserve gives, and at the end each buffer holds the queue, was given
      what came from the source and has given up what went to the sink. */
  lemma {:induction false} RunIsBufferRun(p: Pair, calls: seq<Call>, capacity: nat, f: Fifo, g: Fifo) returns (ups: seq<Move>, downs: seq<Move>)
    requires Sound(p, capacity) && IsRun(p, calls, capacity) && Backs(f, p.up) && Backs(g, p.down)
    ensures Carries(f, ups, capacity, Reached(p, calls, capacity).up)
    ensures Carries(g, downs, capacity, Reached(p, calls, capacity).down)
    decreases |calls|
  {
    if calls == [] {
      Still(f, capacity, p.up);
      Still(g, capacity, p.down);
      ups, downs := [], [];
    } else {
      CallKeeps(p, calls[0], capacity);
      hide Good, Busy, Backs, Legal, Final, Next, Sound;
      var q := Next(p, calls[0]);
      ups, downs := CallMoves(p, calls[0], capacity, f, g);
      var restUp, restDown := RunIsBufferRun(q, calls[1..], capacity, Final(f, ups, capacity), Final(g, downs, capacity));
      Then(f, ups, restUp, capacity, Reached(p, calls, capacity).up);
      Then(g, downs, restDown, capacity, Reached(p, calls, capacity).down);
      ups, downs := ups + restUp, downs + restDown;
    }
  }
}
