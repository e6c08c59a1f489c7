/** Traffic forwarding between a client and a destination: two directions, each read from one socket
    into a queue and written from it to the other, with back-pressure and half-close. */
module Bridge {
  import opened Basics
  import opened Socks5
  import Seqs

  const MAX_BUFFER_SIZE: nat := 1024 * 1024
  const READ_SIZE: nat := 64 * 1024

  // ---- The byte queue between the sockets ------------------------------------------------

  /** The buffer as its users see it.  Each operation requires what the buffer asserts. */
  datatype Queue = Queue(data: seq<Byte>, reserved: bool, room: nat, peeked: bool, shown: nat)
  {
    function ReserveAtLeast(total: nat): Queue
      requires !reserved
    {
      this.(reserved := true, room := total)
    }

    function Commit(bytes: seq<Byte>): Queue
      requires reserved && |bytes| <= room
    {
      this.(data := data + bytes, reserved := false, room := 0)
    }

    function Peek(): Queue
      requires !peeked
    {
      this.(peeked := true, shown := |data|)
    }

    function Drain(n: nat): Queue
      requires peeked && n <= |data|
    {
      this.(data := data[n..], peeked := false, shown := 0)
    }
  }

  // ---- One direction ---------------------------------------------------------------------

  /** What has happened at the socket written to. */
  datatype SinkOp = Wrote(bytes: seq<Byte>) | ShutdownSend

  /** One direction: whether its source can be read and its sink written, whether a read or a write
      is outstanding, the queue between them, all bytes taken from the source (or left over by the
      handshake) and what was done to the sink. */
  datatype Direction = Direction(
    readable: bool,
    writable: bool,
    reading: bool,
    writing: bool,
    queue: Queue,
    trace: Trace)

  /** What came from the source, what was done to the sink, and how often a failed write made the source's
      receiving side be shut down. */
  datatype Trace = Trace(taken: seq<Byte>, sink: seq<SinkOp>, writeFailed: bool, sourceShut: nat)

  function Delivered(ops: seq<SinkOp>): seq<Byte> {
    if ops == [] then []
    else Delivered(ops[..|ops| - 1]) + match ops[|ops| - 1]
                                       case Wrote(bytes) => bytes
                                       case ShutdownSend => []
  }

  function Shutdowns(ops: seq<SinkOp>): nat {
    if ops == [] then 0
    else Shutdowns(ops[..|ops| - 1]) + if ops[|ops| - 1].ShutdownSend? then 1 else 0
  }

  /** Issues a read if one is due.  `room` is what the queue hands out for it. */
  function IssueRead(d: Direction, room: nat): (r: Direction)
    requires FlagsMatch(d)
    ensures FlagsMatch(r) && r.trace == d.trace
  {
    if !d.reading && d.readable && d.writable && |d.queue.data| < MAX_BUFFER_SIZE
    then d.(reading := true, queue := d.queue.ReserveAtLeast(room)) else d
  }

  /** Issues a write if one is due. */
  function IssueWrite(d: Direction): (r: Direction)
    requires FlagsMatch(d)
    ensures FlagsMatch(r) && r.trace == d.trace
  {
    if !d.writing && d.writable && |d.queue.data| > 0
    then d.(writing := true, queue := d.queue.Peek()) else d
  }

  function Forward(d: Direction, room: nat): (r: Direction)
    requires FlagsMatch(d)
    ensures FlagsMatch(r) && r.trace == d.trace
  {
    IssueWrite(IssueRead(d, room))
  }

  /** It does not matter which is issued first. */
  lemma IssueOrder(d: Direction, room: nat)
    requires FlagsMatch(d)
    ensures IssueRead(IssueWrite(d), room) == IssueWrite(IssueRead(d, room))
  {
  }

  function Shut(t: Trace): Trace { t.(sink := t.sink + [ShutdownSend]) }

  function WriteError(t: Trace): Trace { t.(writeFailed := true, sourceShut := t.sourceShut + 1) }

  function ReadDone(d: Direction, bytes: seq<Byte>, failed: bool): (r: Direction)
    requires FlagsMatch(d) && d.reading && |bytes| <= d.queue.room
    ensures FlagsMatch(r) && r.trace.taken == d.trace.taken + bytes
  {
    var r := d.(reading := false, queue := d.queue.Commit(bytes), trace := d.trace.(taken := d.trace.taken + bytes));
    if !failed then r
    else r.(readable := false, trace := if r.queue.data == [] then Shut(r.trace) else r.trace)
  }

  function WriteDone(d: Direction, n: nat, failed: bool): (r: Direction)
    requires FlagsMatch(d) && d.writing && n <= |d.queue.data|
    ensures FlagsMatch(r) && r.trace.taken == d.trace.taken
  {
    var w := d.(writing := false, queue := d.queue.Drain(n),
                trace := d.trace.(sink := d.trace.sink + [Wrote(d.queue.data[..n])]));
    var f := if failed then w.(writable := false, trace := WriteError(w.trace)) else w;
    if !f.readable && f.queue.data == [] then f.(writable := false, trace := Shut(f.trace)) else f
  }

  /** The outstanding operations are exactly the open phases of the queue, so none of its asserts
      can fire. */
  predicate FlagsMatch(d: Direction) {
    && d.reading == d.queue.reserved
    && d.writing == d.queue.peeked
    && (d.writing ==> d.queue.shown <= |d.queue.data|)
  }

  /** What holds whenever no handler is running. */
  ghost predicate Good(d: Direction, capacity: nat) {
    && FlagsMatch(d)
    // Nothing is lost, doubled or reordered.
    && Delivered(d.trace.sink) + d.queue.data == d.trace.taken
    && (d.reading ==> d.readable && |d.queue.data| < MAX_BUFFER_SIZE && READ_SIZE <= d.queue.room < READ_SIZE + capacity)
    && (d.writing ==> d.writable && d.queue.data != [])
    && |d.queue.data| <= MAX_BUFFER_SIZE + READ_SIZE + capacity - 2
    // The sink is shut down once, at the moment nothing more can come, and not written afterwards.
    && Shutdowns(d.trace.sink) == (if Ended(d) then 1 else 0)
    && (forall i :: 0 <= i < |d.trace.sink| && d.trace.sink[i].ShutdownSend? ==> Ended(d) && i == |d.trace.sink| - 1)
    && (Ended(d) ==> d.trace.sink != [] && d.trace.sink[|d.trace.sink| - 1].ShutdownSend?)
    && (!d.writable ==> d.trace.writeFailed || Ended(d))
    // A write fails at most once, and then the source is told once to send no more.
    && (d.trace.writeFailed ==> !d.writable)
    && d.trace.sourceShut == (if d.trace.writeFailed then 1 else 0)
  }

  /** The source has closed and all its bytes have been passed on. */
  predicate Ended(d: Direction) { !d.readable && d.queue.data == [] }

  /** Everything that can be done is being done. */
  predicate Busy(d: Direction) {
    && (d.writable && d.queue.data != [] ==> d.writing)
    && (d.writable && d.readable && |d.queue.data| < MAX_BUFFER_SIZE ==> d.reading)
  }

  lemma SinkAppend(ops: seq<SinkOp>, op: SinkOp)
    ensures op.Wrote? ==> Delivered(ops + [op]) == Delivered(ops) + op.bytes
    ensures op.ShutdownSend? ==> Delivered(ops + [op]) == Delivered(ops)
    ensures Shutdowns(ops + [op]) == Shutdowns(ops) + if op.ShutdownSend? then 1 else 0
  {
    assert (ops + [op])[..|ops|] == ops;
  }

  lemma ForwardKeeps(d: Direction, room: nat, capacity: nat)
    requires Good(d, capacity) && READ_SIZE <= room < READ_SIZE + capacity
    ensures Good(Forward(d, room), capacity) && Busy(Forward(d, room))
    ensures Busy(d) ==> Forward(d, room) == d
  {
  }

  lemma ReadDoneKeeps(d: Direction, bytes: seq<Byte>, failed: bool, capacity: nat)
    requires Good(d, capacity) && d.reading && |bytes| <= d.queue.room
    ensures Good(ReadDone(d, bytes, failed), capacity)
  {
    hide Delivered, Shutdowns;
    Seqs.Assoc(Delivered(d.trace.sink), d.queue.data, bytes);
    SinkAppend(d.trace.sink, ShutdownSend);
  }

  lemma WriteDoneKeeps(d: Direction, n: nat, failed: bool, capacity: nat)
    requires Good(d, capacity) && d.writing && n <= |d.queue.data|
    ensures Good(WriteDone(d, n, failed), capacity)
  {
    hide Delivered, Shutdowns;
    var front := d.queue.data[..n];
    Seqs.TakeDrop(d.queue.data, n);
    Seqs.Assoc(Delivered(d.trace.sink), front, d.queue.data[n..]);
    SinkAppend(d.trace.sink, Wrote(front));
    SinkAppend(d.trace.sink + [Wrote(front)], ShutdownSend);
  }

  // ---- The bridge ------------------------------------------------------------------------

  /** Completed operations; `ups` and `downs` are what the queues hand out if a read is issued next. */
  datatype Completion =
    | ClientRead(bytes: seq<Byte>, failed: bool)
    | ClientWritten(n: nat, failed: bool)
    | DestRead(bytes: seq<Byte>, failed: bool)
    | DestWritten(n: nat, failed: bool)

  datatype Pair = Pair(up: Direction, down: Direction)

  function ForwardBoth(p: Pair, roomUp: nat, roomDown: nat): Pair
    requires FlagsMatch(p.up) && FlagsMatch(p.down)
  {
    Pair(Forward(p.up, roomUp), Forward(p.down, roomDown))
  }

  predicate Possible(p: Pair, c: Completion) {
    && FlagsMatch(p.up) && FlagsMatch(p.down)
    && match c
       case ClientRead(bytes, _) => p.up.reading && |bytes| <= p.up.queue.room
       case ClientWritten(n, _) => p.down.writing && n <= p.down.queue.shown
       case DestRead(bytes, _) => p.down.reading && |bytes| <= p.down.queue.room
       case DestWritten(n, _) => p.up.writing && n <= p.up.queue.shown
  }

  function Completed(p: Pair, c: Completion): (q: Pair)
    requires Possible(p, c)
    ensures FlagsMatch(q.up) && FlagsMatch(q.down)
  {
    match c
    case ClientRead(bytes, failed) => p.(up := ReadDone(p.up, bytes, failed))
    case ClientWritten(n, failed) => p.(down := WriteDone(p.down, n, failed))
    case DestRead(bytes, failed) => p.(down := ReadDone(p.down, bytes, failed))
    case DestWritten(n, failed) => p.(up := WriteDone(p.up, n, failed))
  }

  /** Both ways open, nothing outstanding, and what the handshake left over ready to go up. */
  function Opened(leftover: seq<Byte>): Pair {
    Pair(Direction(true, true, false, false, Queue(leftover, false, 0, false, 0), Trace(leftover, [], false, 0)),
         Direction(true, true, false, false, Queue([], false, 0, false, 0), Trace([], [], false, 0)))
  }

  class ProxyBridge {
    const capacity: nat
    var readingClient: bool
    var writingClient: bool
    var clientReadable: bool
    var clientWritable: bool
    var readingDest: bool
    var writingDest: bool
    var destReadable: bool
    var destWritable: bool
    var upstream: Queue
    var downstream: Queue

    /** What came from each source and was done to its sink, for the record. */
    ghost var upTrace: Trace
    ghost var downTrace: Trace

    ghost function Abs(): Pair
      reads this
    {
      Pair(Direction(clientReadable, destWritable, readingClient, writingDest, upstream, upTrace),
           Direction(destReadable, clientWritable, readingDest, writingClient, downstream, downTrace))
    }

    /** A bridge whose handshake is over, with the client bytes it left in the buffer. */
    constructor (capacity: nat, leftover: seq<Byte>)
      ensures Abs() == Opened(leftover) && this.capacity == capacity
    {
      this.capacity := capacity;
      readingClient, writingClient, clientReadable, clientWritable := false, false, true, true;
      readingDest, writingDest, destReadable, destWritable := false, false, true, true;
      upstream, downstream := Queue(leftover, false, 0, false, 0), Queue([], false, 0, false, 0);
      upTrace, downTrace := Trace(leftover, [], false, 0), Trace([], [], false, 0);
    }

    method ReadClient(room: nat)
      requires FlagsMatch(Abs().up) && FlagsMatch(Abs().down)
      modifies this`readingClient, this`upstream
      ensures Abs() == old(Abs()).(up := IssueRead(old(Abs()).up, room))
    {
      if !readingClient && clientReadable && destWritable && |upstream.data| < MAX_BUFFER_SIZE {
        upstream := upstream.ReserveAtLeast(room);
        readingClient := true;
      }
    }

    method WriteClient()
      requires FlagsMatch(Abs().up) && FlagsMatch(Abs().down)
      modifies this`writingClient, this`downstream
      ensures Abs() == old(Abs()).(down := IssueWrite(old(Abs()).down))
    {
      if !writingClient && clientWritable && |downstream.data| > 0 {
        downstream := downstream.Peek();
        writingClient := true;
      }
    }

    method ReadDest(room: nat)
      requires FlagsMatch(Abs().up) && FlagsMatch(Abs().down)
      modifies this`readingDest, this`downstream
      ensures Abs() == old(Abs()).(down := IssueRead(old(Abs()).down, room))
    {
      if !readingDest && destReadable && clientWritable && |downstream.data| < MAX_BUFFER_SIZE {
        downstream := downstream.ReserveAtLeast(room);
        readingDest := true;
      }
    }

    method WriteDest()
      requires FlagsMatch(Abs().up) && FlagsMatch(Abs().down)
      modifies this`writingDest, this`upstream
      ensures Abs() == old(Abs()).(up := IssueWrite(old(Abs()).up))
    {
      if !writingDest && destWritable && |upstream.data| > 0 {
        upstream := upstream.Peek();
        writingDest := true;
      }
    }

    /** Issues every read and write that is due, in both directions. */
    method ForwardTraffic(roomUp: nat, roomDown: nat)
      requires FlagsMatch(Abs().up) && FlagsMatch(Abs().down)
      modifies this`readingClient, this`writingClient, this`readingDest, this`writingDest, this`upstream, this`downstream
      ensures Abs() == ForwardBoth(old(Abs()), roomUp, roomDown)
    {
      IssueOrder(Abs().down, roomDown);
      hide FlagsMatch, IssueRead, IssueWrite, Abs;
      ReadClient(roomUp);
      WriteClient();
      ReadDest(roomDown);
      WriteDest();
    }

    method ClientReadHandler(failed: bool, bytes: seq<Byte>, roomUp: nat, roomDown: nat)
      requires Possible(Abs(), ClientRead(bytes, failed))
      modifies this
      ensures Abs() == ForwardBoth(Completed(old(Abs()), ClientRead(bytes, failed)), roomUp, roomDown)
    {
      readingClient := false;
      upstream := upstream.Commit(bytes);
      upTrace := upTrace.(taken := upTrace.taken + bytes);
      if failed {
        clientReadable := false;
        if |upstream.data| == 0 {
          upTrace := Shut(upTrace);
        }
      }
      assert Abs() == Completed(old(Abs()), ClientRead(bytes, failed));
      hide Abs, Completed, ForwardBoth, FlagsMatch;
      ForwardTraffic(roomUp, roomDown);
    }

    method ClientWriteHandler(failed: bool, n: nat, roomUp: nat, roomDown: nat)
      requires Possible(Abs(), ClientWritten(n, failed))
      modifies this
      ensures Abs() == ForwardBoth(Completed(old(Abs()), ClientWritten(n, failed)), roomUp, roomDown)
    {
      writingClient := false;
      downTrace := downTrace.(sink := downTrace.sink + [Wrote(downstream.data[..n])]);
      downstream := downstream.Drain(n);
      if failed {
        clientWritable, downTrace := false, WriteError(downTrace);
      }
      if !destReadable && |downstream.data| == 0 {
        clientWritable := false;
        downTrace := Shut(downTrace);
      }
      assert Abs() == Completed(old(Abs()), ClientWritten(n, failed));
      hide Abs, Completed, ForwardBoth, FlagsMatch;
      ForwardTraffic(roomUp, roomDown);
    }

    method DestReadHandler(failed: bool, bytes: seq<Byte>, roomUp: nat, roomDown: nat)
      requires Possible(Abs(), DestRead(bytes, failed))
      modifies this
      ensures Abs() == ForwardBoth(Completed(old(Abs()), DestRead(bytes, failed)), roomUp, roomDown)
    {
      readingDest := false;
      downstream := downstream.Commit(bytes);
      downTrace := downTrace.(taken := downTrace.taken + bytes);
      if failed {
        destReadable := false;
        if |downstream.data| == 0 {
          downTrace := Shut(downTrace);
        }
      }
      assert Abs() == Completed(old(Abs()), DestRead(bytes, failed));
      hide Abs, Completed, ForwardBoth, FlagsMatch;
      ForwardTraffic(roomUp, roomDown);
    }

    method DestWriteHandler(failed: bool, n: nat, roomUp: nat, roomDown: nat)
      requires Possible(Abs(), DestWritten(n, failed))
      modifies this
      ensures Abs() == ForwardBoth(Completed(old(Abs()), DestWritten(n, failed)), roomUp, roomDown)
    {
      writingDest := false;
      upTrace := upTrace.(sink := upTrace.sink + [Wrote(upstream.data[..n])]);
      upstream := upstream.Drain(n);
      if failed {
        destWritable, upTrace := false, WriteError(upTrace);
      }
      if !clientReadable && |upstream.data| == 0 {
        destWritable := false;
        upTrace := Shut(upTrace);
      }
      assert Abs() == Completed(old(Abs()), DestWritten(n, failed));
      hide Abs, Completed, ForwardBoth, FlagsMatch;
      ForwardTraffic(roomUp, roomDown);
    }
  }

  // ---- Whole runs ------------------------------------------------------------------------

  /** One handler call: what completed, and what the queues hand out for reads issued after it. */
  datatype Call = Call(what: Completion, roomUp: nat, roomDown: nat)

  predicate RoomsFit(c: Call, capacity: nat) {
    READ_SIZE <= c.roomUp < READ_SIZE + capacity && READ_SIZE <= c.roomDown < READ_SIZE + capacity
  }

  function Next(p: Pair, c: Call): Pair
    requires Possible(p, c.what)
  {
    ForwardBoth(Completed(p, c.what), c.roomUp, c.roomDown)
  }

  predicate IsRun(p: Pair, calls: seq<Call>, capacity: nat)
    decreases |calls|
  {
    calls != [] ==>
      Possible(p, calls[0].what) && RoomsFit(calls[0], capacity) && IsRun(Next(p, calls[0]), calls[1..], capacity)
  }

  function Reached(p: Pair, calls: seq<Call>, capacity: nat): Pair
    requires IsRun(p, calls, capacity)
    decreases |calls|
  {
    if calls == [] then p else Reached(Next(p, calls[0]), calls[1..], capacity)
  }

  ghost predicate Sound(p: Pair, capacity: nat) {
    && Good(p.up, capacity) && Busy(p.up)
    && Good(p.down, capacity) && Busy(p.down)
  }

  lemma CallKeeps(p: Pair, c: Call, capacity: nat)
    requires Sound(p, capacity) && Possible(p, c.what) && RoomsFit(c, capacity)
    ensures Sound(Next(p, c), capacity)
  {
    hide Good, Busy;
    match c.what {
      case ClientRead(bytes, failed) => ReadDoneKeeps(p.up, bytes, failed, capacity);
      case ClientWritten(n, failed) => WriteDoneKeeps(p.down, n, failed, capacity);
      case DestRead(bytes, failed) => ReadDoneKeeps(p.down, bytes, failed, capacity);
      case DestWritten(n, failed) => WriteDoneKeeps(p.up, n, failed, capacity);
    }
    var q := Completed(p, c.what);
    ForwardKeeps(q.up, c.roomUp, capacity);
    ForwardKeeps(q.down, c.roomDown, capacity);
  }

  /** In every reachable state, both ways: bytes delivered and bytes queued are the bytes taken; every
      queue assert holds; nothing possible is left undone; the queue stays within its bound; and the
      sink is shut down exactly when its source has closed and everything was passed on. */
  lemma {:induction false} AlwaysSound(p: Pair, calls: seq<Call>, capacity: nat)
    requires Sound(p, capacity) && IsRun(p, calls, capacity)
    ensures Sound(Reached(p, calls, capacity), capacity)
    decreases |calls|
  {
    if calls != [] {
      CallKeeps(p, calls[0], capacity);
      AlwaysSound(Next(p, calls[0]), calls[1..], capacity);
    }
  }

  /** A writable direction that still has or can get bytes has an operation outstanding. */
  lemma NeverStalls(d: Direction, capacity: nat)
    requires Good(d, capacity) && Busy(d) && d.writable && (d.readable || d.queue.data != [])
    ensures d.reading || d.writing
  {
  }

  /** With nothing outstanding and no failed write, all bytes have been delivered and the sink has been
      shut down once, after the last write. */
  lemma QuietMeansDelivered(d: Direction, capacity: nat)
    requires Good(d, capacity) && Busy(d) && !d.reading && !d.writing && !d.trace.writeFailed
    ensures Ended(d) && Delivered(d.trace.sink) == d.trace.taken
    ensures Shutdowns(d.trace.sink) == 1 && d.trace.sink[|d.trace.sink| - 1].ShutdownSend?
  {
  }
}
