/** How a direction of the bridge ends: what a closing source and a failing sink lead to, call by call and
    over whole runs. */
module BridgeClosing {
  import opened Basics
  import opened Bridge
  import opened BridgeHandshake

  /** A completed operation as one direction sees it. */
  datatype Done = ReadOf(bytes: seq<Byte>, failed: bool) | WriteOf(n: nat, failed: bool) | Elsewhere

  function Seen(c: Completion, up: bool): Done {
    match c
    case ClientRead(bytes, failed) => if up then ReadOf(bytes, failed) else Elsewhere
    case DestRead(bytes, failed) => if up then Elsewhere else ReadOf(bytes, failed)
    case DestWritten(n, failed) => if up then WriteOf(n, failed) else Elsewhere
    case ClientWritten(n, failed) => if up then Elsewhere else WriteOf(n, failed)
  }

  function Side(p: Pair, up: bool): Direction { if up then p.up else p.down }

  function Room(c: Call, up: bool): nat { if up then c.roomUp else c.roomDown }

  // ---- One call ----------------------------------------------------------------------------------

  /** Between the direction before a call and after it. */
  ghost predicate Moves(d: Direction, done: Done, r: Direction) {
    match done
    case Elsewhere =>
      r.readable == d.readable && r.writable == d.writable && r.trace == d.trace && r.queue.data == d.queue.data
    case ReadOf(bytes, failed) =>
      // The bytes are queued; an error or the end of the stream closes the source, and if nothing is
      // left to send also the sink.
      && r.queue.data == d.queue.data + bytes && r.trace.taken == d.trace.taken + bytes
      && r.readable == (d.readable && !failed) && r.writable == d.writable
      && r.trace.sink == d.trace.sink + (if failed && d.queue.data + bytes == [] then [ShutdownSend] else [])
      && r.trace.writeFailed == d.trace.writeFailed && r.trace.sourceShut == d.trace.sourceShut
    case WriteOf(n, failed) =>
      // The bytes are gone; an error closes the sink and shuts the source; and the sink is shut down
      // when these were the last bytes of a closed source.
      && n <= |d.queue.data| && r.queue.data == d.queue.data[n..] && r.trace.taken == d.trace.taken
      && r.readable == d.readable && r.writable == (d.writable && !failed && !Ended(r))
      && r.trace.sink == d.trace.sink + [Wrote(d.queue.data[..n])] + (if Ended(r) then [ShutdownSend] else [])
      && r.trace.writeFailed == (d.trace.writeFailed || failed)
      && r.trace.sourceShut == d.trace.sourceShut + if failed then 1 else 0
  }

  /** What is outstanding afterwards: what was and has not completed, and what is due. */
  predicate Outstanding(d: Direction, done: Done, r: Direction) {
    && (r.reading <==> (d.reading && !done.ReadOf?) || (r.readable && r.writable && |r.queue.data| < MAX_BUFFER_SIZE))
    && (r.writing <==> (d.writing && !done.WriteOf?) || (r.writable && |r.queue.data| > 0))
  }

  lemma ReadCall(d: Direction, bytes: seq<Byte>, failed: bool, room: nat)
    requires FlagsMatch(d) && d.reading && |bytes| <= d.queue.room
    ensures Moves(d, ReadOf(bytes, failed), Forward(ReadDone(d, bytes, failed), room))
    ensures Outstanding(d, ReadOf(bytes, failed), Forward(ReadDone(d, bytes, failed), room))
  {
    assert d.trace.sink + [] == d.trace.sink;
  }

  lemma WriteCall(d: Direction, n: nat, failed: bool, room: nat)
    requires FlagsMatch(d) && d.writing && n <= |d.queue.data|
    ensures Moves(d, WriteOf(n, failed), Forward(WriteDone(d, n, failed), room))
    ensures Outstanding(d, WriteOf(n, failed), Forward(WriteDone(d, n, failed), room))
  {
    var sink := d.trace.sink + [Wrote(d.queue.data[..n])];
    assert sink + [] == sink;
  }

  lemma ElsewhereCall(d: Direction, room: nat)
    requires FlagsMatch(d)
    ensures Moves(d, Elsewhere, Forward(d, room)) && Outstanding(d, Elsewhere, Forward(d, room))
  {
  }

  /** Every handler call moves both directions as their sources and sinks demand: bytes, end of the stream,
      failure and shutdown, and exactly the operations that are due are outstanding afterwards. */
  lemma CallMovesOn(p: Pair, c: Call, up: bool)
    requires Possible(p, c.what)
    ensures Moves(Side(p, up), Seen(c.what, up), Side(Next(p, c), up))
    ensures Outstanding(Side(p, up), Seen(c.what, up), Side(Next(p, c), up))
  {
    hide Moves, Outstanding, Forward, ReadDone, WriteDone;
    var d, room := Side(p, up), Room(c, up);
    match Seen(c.what, up) {
      case ReadOf(bytes, failed) => ReadCall(d, bytes, failed, room);
      case WriteOf(n, failed) => WriteCall(d, n, failed, room);
      case Elsewhere => ElsewhereCall(d, room);
    }
  }

  // ---- Whole runs --------------------------------------------------------------------------------

  /** The source of the direction has closed or failed. */
  predicate SourceEnded(calls: seq<Call>, up: bool) {
    calls != [] && ((Seen(calls[0].what, up).ReadOf? && Seen(calls[0].what, up).failed) || SourceEnded(calls[1..], up))
  }

  /** A write to the sink of the direction has failed. */
  predicate SinkFailed(calls: seq<Call>, up: bool) {
    calls != [] && ((Seen(calls[0].what, up).WriteOf? && Seen(calls[0].what, up).failed) || SinkFailed(calls[1..], up))
  }

  /** A direction is readable until its source ends, and its failure is known exactly when a write failed. */
  lemma {:induction false} FlagsTellTheRun(p: Pair, calls: seq<Call>, capacity: nat, up: bool)
    requires IsRun(p, calls, capacity)
    ensures var t := Side(Reached(p, calls, capacity), up);
            && (t.readable <==> Side(p, up).readable && !SourceEnded(calls, up))
            && (t.trace.writeFailed <==> Side(p, up).trace.writeFailed || SinkFailed(calls, up))
    decreases |calls|
  {
    if calls != [] {
      CallMovesOn(p, calls[0], up);
      hide Next, Outstanding, Bridge.Possible;
      FlagsTellTheRun(Next(p, calls[0]), calls[1..], capacity, up);
    }
  }

  /** The number of reads a run completes in a direction. */
  function Reads(calls: seq<Call>, up: bool): nat {
    if calls == [] then 0 else (if Seen(calls[0].what, up).ReadOf? then 1 else 0) + Reads(calls[1..], up)
  }

  /** Once its source has closed or its sink cannot be written, a direction issues no read any more: at most
      the outstanding one completes. */
  lemma {:induction false} NoReadAfterClosing(p: Pair, calls: seq<Call>, capacity: nat, up: bool)
    requires IsRun(p, calls, capacity) && (!Side(p, up).readable || !Side(p, up).writable)
    ensures var t := Side(Reached(p, calls, capacity), up);
            && (!t.readable || !t.writable)
            && Reads(calls, up) + (if t.reading then 1 else 0) <= if Side(p, up).reading then 1 else 0
    decreases |calls|
  {
    if calls != [] {
      CallMovesOn(p, calls[0], up);
      ReadNeedsReading(p, calls[0], up);
      hide Next, Bridge.Possible;
      NoReadAfterClosing(Next(p, calls[0]), calls[1..], capacity, up);
    }
  }

  lemma ReadNeedsReading(p: Pair, c: Call, up: bool)
    requires Possible(p, c.what)
    ensures Seen(c.what, up).ReadOf? ==> Side(p, up).reading
  {
  }

  /** Half-close, in every reachable state: the sink has been shut down, once, exactly when the source has
      ended and everything it sent has been passed on. */
  lemma HalfCloseIff(leftover: seq<Byte>, calls: seq<Call>, roomUp: nat, roomDown: nat, capacity: nat, up: bool)
    requires |leftover| <= LONGEST_WAIT + capacity
    requires READ_SIZE <= roomUp < READ_SIZE + capacity && READ_SIZE <= roomDown < READ_SIZE + capacity
    requires IsRun(ForwardBoth(Opened(leftover), roomUp, roomDown), calls, capacity)
    ensures var t := Side(Reached(ForwardBoth(Opened(leftover), roomUp, roomDown), calls, capacity), up);
            && (Shutdowns(t.trace.sink) == 1 <==> SourceEnded(calls, up) && t.queue.data == [])
            && Shutdowns(t.trace.sink) <= 1
            && (t.trace.sourceShut == 1 <==> SinkFailed(calls, up)) && t.trace.sourceShut <= 1
            && (t.readable <==> !SourceEnded(calls, up))
  {
    var p := ForwardBoth(Opened(leftover), roomUp, roomDown);
    OpenedIsSound(leftover, roomUp, roomDown, capacity);
    assert Side(p, up).readable && !Side(p, up).trace.writeFailed;
    hide Forward, Opened, IsRun, Reached, Shutdowns, Delivered;
    AlwaysSound(p, calls, capacity);
    FlagsTellTheRun(p, calls, capacity, up);
  }
}
