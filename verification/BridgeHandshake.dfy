/** The handshake and the forwarding together: what a client sends behind its handshake, and nothing
    else, reaches the destination. */
module BridgeHandshake {
  import opened Basics
  import opened Socks5
  import opened Socks5Fragments
  import opened Socks5Requests
  import opened Bridge
  import Seqs

  /** The longest message part the machine ever waits for. */
  const LONGEST_WAIT: nat := 255

  // ---- Waiting for the outside ----------------------------------------------------------

  /** A machine that waits for a connection has asked for one. */
  predicate WaitsForAnswer(s: State, env: Env) {
    s.phase == WaitAccept || (s.phase == WaitConnect && env.connect.Some?) ==> !NoRequest(s.events)
  }

  lemma StepWaits(s: State, data: seq<Byte>, env: Env)
    requires Sane(s) && WaitsForAnswer(s, env)
    ensures WaitsForAnswer(Step(s, data, env).state, env)
  {
    var t := Step(s, data, env).state;
    if t.phase == WaitAccept && s.phase == RequestBind {
      assert IsRequest(t.events[|s.events|]);
    } else if t.phase == WaitConnect && env.connect.Some? && s.phase in {RequestAddrV4, RequestAddrV6} {
      assert IsRequest(t.events[|s.events|]);
    }
  }

  lemma {:induction false} RunLoopWaits(s: State, data: seq<Byte>, env: Env)
    requires Sane(s) && WaitsForAnswer(s, env)
    ensures WaitsForAnswer(RunLoop(s, data, env).0, env)
    decreases 6 - Rank(s.phase)
  {
    if s.phase != Success {
      StepWaits(s, data, env);
      var r := Step(s, data, env);
      hide Step;
      if r.ok {
        RunLoopWaits(r.state, r.rest, env);
      }
    }
  }

  /** What is buffered when reading stops: less than the machine waited for, and the last read. */
  lemma {:induction false} DriveBuffersLittle(s: State, buffered: seq<Byte>, chunks: seq<seq<Byte>>, env: Env, most: nat)
    requires Sane(s) && |buffered| <= LONGEST_WAIT + most && (forall c <- chunks :: |c| <= most)
    requires s.phase != Fail
    ensures |Drive(s, buffered, chunks, env).buffered| <= LONGEST_WAIT + most || Drive(s, buffered, chunks, env).state.phase == Fail
    decreases |chunks|
  {
    if chunks != [] && WantsMore(s, buffered) {
      var (t, rest) := RunLoop(s, buffered + chunks[0], env);
      RunLoopConsumes(s, buffered + chunks[0], env);
      if t.phase == Fail {
        StaysFailed(t, rest, chunks[1..], env);
      } else {
        DriveBuffersLittle(t, rest, chunks[1..], env, most);
      }
    }
  }

  lemma {:induction false} StaysFailed(s: State, buffered: seq<Byte>, chunks: seq<seq<Byte>>, env: Env)
    requires Sane(s) && s.phase == Fail
    ensures Drive(s, buffered, chunks, env).state.phase == Fail
    decreases |chunks|
  {
    if chunks != [] && WantsMore(s, buffered) {
      var (t, rest) := RunLoop(s, buffered + chunks[0], env);
      StaysFailed(t, rest, chunks[1..], env);
    }
  }

  lemma {:induction false} RunLoopConsumes(s: State, data: seq<Byte>, env: Env)
    requires Sane(s)
    ensures |RunLoop(s, data, env).1| <= |data|
    decreases 6 - Rank(s.phase)
  {
    if s.phase != Success && Step(s, data, env).ok {
      RunLoopConsumes(Step(s, data, env).state, Step(s, data, env).rest, env);
    }
  }

  /** The handshake has stopped to wait for the destination, having been cut into reads in any way: its
      request is the one in the bytes sent, no read is outstanding, and what it has buffered together
      with what is still unread is everything behind its two messages. */
  lemma HandshakeHandsOver(chunks: seq<seq<Byte>>, env: Env)
    requires env.connect.Some? && Drive(INIT, [], chunks, env).state.phase in {WaitConnect, WaitAccept}
    ensures var o, p := Drive(INIT, [], chunks, env), Parse(Seqs.Flatten(chunks));
            && !WantsMore(o.state, o.buffered)
            && p.Some? && p.value.1 <= |Seqs.Flatten(chunks)|
            && o.buffered + o.unread == Seqs.Flatten(chunks)[p.value.1..]
            && |o.state.events| >= 2 && o.state.events[1] == AsEvent(p.value.0)
  {
    var data, o := Seqs.Flatten(chunks), Drive(INIT, [], chunks, env);
    DriveIsOneRun(INIT, [], chunks, env);
    assert [] + data == data;
    OneRunHandsOver(data, env);
    hide RunLoop, Drive, Parse, NoRequest;
    assert o.state == RunLoop(INIT, data, env).0;
  }

  lemma OneRunHandsOver(data: seq<Byte>, env: Env)
    requires env.connect.Some? && RunLoop(INIT, data, env).0.phase in {WaitConnect, WaitAccept}
    ensures var ((t, rest), p) := (RunLoop(INIT, data, env), Parse(data));
            && t.required == 0
            && p.Some? && p.value.1 <= |data| && rest == data[p.value.1..]
            && |t.events| >= 2 && t.events[1] == AsEvent(p.value.0)
  {
    RunLoopWaits(INIT, data, env);
    RequestIff(data, env);
    var t := RunLoop(INIT, data, env).0;
    assert Sane(t);
    hide RunLoop, Parse;
    assert t.events[1] == t.events[..2][1];
  }

  // ---- Forwarding ------------------------------------------------------------------------

  /** The bytes a run reads from the client. */
  function ClientBytes(calls: seq<Call>): seq<Byte> {
    if calls == [] then []
    else (if calls[0].what.ClientRead? then calls[0].what.bytes else []) + ClientBytes(calls[1..])
  }

  /** The bytes a run reads from the destination. */
  function DestBytes(calls: seq<Call>): seq<Byte> {
    if calls == [] then []
    else (if calls[0].what.DestRead? then calls[0].what.bytes else []) + DestBytes(calls[1..])
  }

  lemma CallTakes(p: Pair, c: Call)
    requires Bridge.Possible(p, c.what)
    ensures Next(p, c).up.trace.taken == p.up.trace.taken + if c.what.ClientRead? then c.what.bytes else []
    ensures Next(p, c).down.trace.taken == p.down.trace.taken + if c.what.DestRead? then c.what.bytes else []
  {
    hide Forward, ReadDone, WriteDone;
  }

  lemma {:induction false} TakenGrows(p: Pair, calls: seq<Call>, capacity: nat)
    requires IsRun(p, calls, capacity)
    ensures Reached(p, calls, capacity).up.trace.taken == p.up.trace.taken + ClientBytes(calls)
    ensures Reached(p, calls, capacity).down.trace.taken == p.down.trace.taken + DestBytes(calls)
    decreases |calls|
  {
    if calls != [] {
      var q := Next(p, calls[0]);
      var first := if calls[0].what.ClientRead? then calls[0].what.bytes else [];
      var firstDown := if calls[0].what.DestRead? then calls[0].what.bytes else [];
      CallTakes(p, calls[0]);
      hide Next, Bridge.Possible;
      TakenGrows(q, calls[1..], capacity);
      Seqs.Assoc(p.up.trace.taken, first, ClientBytes(calls[1..]));
      Seqs.Assoc(p.down.trace.taken, firstDown, DestBytes(calls[1..]));
    }
  }

  predicate Quiet(d: Direction) { !d.reading && !d.writing && !d.trace.writeFailed }

  /** All of `bytes` was written, then the sink was shut down, once and for all. */
  predicate DeliveredAll(d: Direction, bytes: seq<Byte>) {
    && Delivered(d.trace.sink) == bytes
    && Shutdowns(d.trace.sink) == 1 && d.trace.sink[|d.trace.sink| - 1] == ShutdownSend
  }

  /** After every run, a direction in which nothing is outstanding and no write has failed has delivered
      every byte its source sent, what the handshake left over first, and has then shut its sink down. */
  lemma QuietRunDelivered(leftover: seq<Byte>, calls: seq<Call>, roomUp: nat, roomDown: nat, capacity: nat)
    requires |leftover| <= LONGEST_WAIT + capacity
    requires READ_SIZE <= roomUp < READ_SIZE + capacity && READ_SIZE <= roomDown < READ_SIZE + capacity
    requires IsRun(ForwardBoth(Opened(leftover), roomUp, roomDown), calls, capacity)
    ensures var t := Reached(ForwardBoth(Opened(leftover), roomUp, roomDown), calls, capacity);
            && (Quiet(t.up) ==> DeliveredAll(t.up, leftover + ClientBytes(calls)))
            && (Quiet(t.down) ==> DeliveredAll(t.down, DestBytes(calls)))
  {
    var p := ForwardBoth(Opened(leftover), roomUp, roomDown);
    OpenedIsSound(leftover, roomUp, roomDown, capacity);
    assert p.up.trace.taken == leftover && p.down.trace.taken == [];
    AlwaysSound(p, calls, capacity);
    TakenGrows(p, calls, capacity);
    hide IsRun, Reached, Opened, ForwardBoth, Good, Delivered, Shutdowns;
    var t := Reached(p, calls, capacity);
    if Quiet(t.up) { QuietMeansDelivered(t.up, capacity); }
    if Quiet(t.down) { QuietMeansDelivered(t.down, capacity); }
    assert [] + DestBytes(calls) == DestBytes(calls);
  }

  lemma OpenedIsSound(leftover: seq<Byte>, roomUp: nat, roomDown: nat, capacity: nat)
    requires |leftover| <= LONGEST_WAIT + capacity
    requires READ_SIZE <= roomUp < READ_SIZE + capacity && READ_SIZE <= roomDown < READ_SIZE + capacity
    ensures Sound(ForwardBoth(Opened(leftover), roomUp, roomDown), capacity)
  {
    var p := Opened(leftover);
    assert Good(p.up, capacity) && Good(p.down, capacity);
    ForwardKeeps(p.up, roomUp, capacity);
    ForwardKeeps(p.down, roomDown, capacity);
  }

  /** However the client's bytes are cut into reads, during the handshake and after it: in every
      reachable state, what the destination has received, what is queued for it and what is not yet read
      are, in this order, exactly the client's bytes behind its two handshake messages. */
  lemma DeliversWhatFollows(chunks: seq<seq<Byte>>, env: Env, calls: seq<Call>, unread: seq<Byte>, roomUp: nat, roomDown: nat, capacity: nat)
    requires forall c <- chunks :: |c| <= capacity
    requires READ_SIZE <= roomUp < READ_SIZE + capacity && READ_SIZE <= roomDown < READ_SIZE + capacity
    requires env.connect.Some? && Drive(INIT, [], chunks, env).state.phase in {WaitConnect, WaitAccept}
    requires var o := Drive(INIT, [], chunks, env);
             && IsRun(ForwardBoth(Opened(o.buffered), roomUp, roomDown), calls, capacity)
             && ClientBytes(calls) + unread == o.unread
    ensures var o, p := Drive(INIT, [], chunks, env), Parse(Seqs.Flatten(chunks));
            var d := Reached(ForwardBoth(Opened(o.buffered), roomUp, roomDown), calls, capacity).up;
            && Good(d, capacity) && Busy(d)
            && p.Some? && p.value.1 <= |Seqs.Flatten(chunks)|
            && Delivered(d.trace.sink) + d.queue.data + unread == Seqs.Flatten(chunks)[p.value.1..]
  {
    var o := Drive(INIT, [], chunks, env);
    HandshakeHandsOver(chunks, env);
    DriveBuffersLittle(INIT, [], chunks, env, capacity);
    hide Drive, Parse, Seqs.Flatten, WantsMore, AsEvent, Resting;
    ForwardedSoFar(o.buffered, calls, roomUp, roomDown, capacity);
    hide *;
    Seqs.Assoc(o.buffered, ClientBytes(calls), unread);
  }

  /** What has been delivered and queued upstream is what the handshake left over and what was read. */
  lemma ForwardedSoFar(leftover: seq<Byte>, calls: seq<Call>, roomUp: nat, roomDown: nat, capacity: nat)
    requires |leftover| <= LONGEST_WAIT + capacity
    requires READ_SIZE <= roomUp < READ_SIZE + capacity && READ_SIZE <= roomDown < READ_SIZE + capacity
    requires IsRun(ForwardBoth(Opened(leftover), roomUp, roomDown), calls, capacity)
    ensures var d := Reached(ForwardBoth(Opened(leftover), roomUp, roomDown), calls, capacity).up;
            Good(d, capacity) && Busy(d) && Delivered(d.trace.sink) + d.queue.data == leftover + ClientBytes(calls)
  {
    var p := ForwardBoth(Opened(leftover), roomUp, roomDown);
    OpenedIsSound(leftover, roomUp, roomDown, capacity);
    assert p.up.trace.taken == leftover;
    hide Forward, Opened, IsRun, Reached;
    AlwaysSound(p, calls, capacity);
    TakenGrows(p, calls, capacity);
  }
}
