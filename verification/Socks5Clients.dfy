/** The two clients of the SOCKS5 server, and the conversations they have with it. */
module Socks5Clients {
  import opened Basics
  import opened Socks5
  import opened Socks5Requests
  import Seqs

  // ---- CONNECT ---------------------------------------------------------------------------

  /** Greeting and request in one message. */
  function ConnectBytes(a: Address): seq<Byte> { [5, 1, 0, 5, 1, 0] + FillAddrPort(a) }

  /** The client's reading of the two replies: the code it returns and how many bytes it has taken.
      `stream` is everything the server will have sent by the time the connection closes. */
  function Receive(stream: seq<Byte>): (int, nat) {
    if |stream| < 7 then (-1, |stream|)
    else
      var rep: int, extra: int := stream[3], stream[6];
      if stream[..5] != [5, 0, 5, 0, 0] then (if rep != 0 then -rep else -1, 7)
      else
        var more: int := match stream[5]
                         case 1 => 5
                         case 3 => extra + 2
                         case 4 => 17
                         case _ => 7;
        if |stream| < 7 + more then (-1, |stream|) else (0, 7 + more)
  }

  /** What one receive call gives; no bytes means that the peer has closed. */
  datatype Incoming = Interrupted | Broken | Got(bytes: seq<Byte>)

  /** The bytes that can be received before the stream closes or breaks. */
  function Available(incoming: seq<Incoming>): seq<Byte> {
    if incoming == [] then []
    else
      match incoming[0]
      case Interrupted => Available(incoming[1..])
      case Broken => []
      case Got(bytes) => if bytes == [] then [] else bytes + Available(incoming[1..])
  }

  class Socket {
    var sent: seq<Byte>
    var incoming: seq<Incoming>

    /** One send call, of which the first `taken` bytes are accepted, or none if it fails. */
    method Send(bytes: seq<Byte>, taken: int)
      modifies this`sent
      ensures sent == old(sent) + if 0 <= taken <= |bytes| then bytes[..taken] else []
    {
      if 0 <= taken <= |bytes| {
        sent := sent + bytes[..taken];
      }
    }

    /** One receive call: up to `len` bytes of what comes next. */
    method Recv(len: nat) returns (r: Incoming)
      requires len > 0
      modifies this`incoming
      ensures match r
              case Interrupted => |incoming| < |old(incoming)| && Available(incoming) == old(Available(incoming))
              case Broken => Available(incoming) == old(Available(incoming)) == []
              case Got(bytes) => |bytes| <= len && bytes + Available(incoming) == old(Available(incoming))
                                 && (bytes == [] ==> Available(incoming) == [])
    {
      if incoming == [] {
        return Got([]);
      }
      r := incoming[0];
      if r.Got? && |r.bytes| > len {
        var rest := Got(r.bytes[len..]);
        Seqs.TakeDrop(r.bytes, len);
        Seqs.Assoc(r.bytes[..len], rest.bytes, Available(incoming[1..]));
        assert ([rest] + incoming[1..])[1..] == incoming[1..];
        r, incoming := Got(r.bytes[..len]), [rest] + incoming[1..];
      } else if r.Interrupted? || (r.Got? && r.bytes != []) {
        incoming := incoming[1..];
      }
    }

    /** Receives `len` bytes, resuming after interruptions: as many as asked for, fewer only when the
        stream closes or breaks before, and in either case the ones that come next. */
    method RecvAll(len: nat) returns (bytes: seq<Byte>)
      modifies this`incoming
      ensures bytes + Available(incoming) == old(Available(incoming))
      ensures |bytes| == if len <= |old(Available(incoming))| then len else |old(Available(incoming))|
    {
      hide Available;
      bytes := [];
      while |bytes| < len
        invariant |bytes| <= len && bytes + Available(incoming) == old(Available(incoming))
        decreases len - |bytes|, |incoming|
      {
        var r := Recv(len - |bytes|);
        if r.Broken? || (r.Got? && r.bytes == []) {
          return;
        }
        if r.Got? {
          Seqs.Assoc(bytes, r.bytes, Available(incoming));
          bytes := bytes + r.bytes;
        }
      }
    }
  }

  /** The handshake of the connecting side, over a socket whose send call answers `sendResult`: nothing is
      received unless the whole message was sent; then the code is that of the replies, and exactly
      their bytes have been taken. */
  method ClientConnect(socket: Socket, a: Address, sendResult: int) returns (code: int)
    modifies socket
    ensures FillAddrPort(a) == [] ==> code == -1 && unchanged(socket)
    ensures FillAddrPort(a) != [] && sendResult != |ConnectBytes(a)| ==> code == -1 && unchanged(socket`incoming)
    ensures FillAddrPort(a) != [] && sendResult == |ConnectBytes(a)| ==>
              && socket.sent == old(socket.sent) + ConnectBytes(a)
              && code == Receive(old(Available(socket.incoming))).0
              && Receive(old(Available(socket.incoming))).1 <= |old(Available(socket.incoming))|
              && Available(socket.incoming) == old(Available(socket.incoming))[Receive(old(Available(socket.incoming))).1..]
  {
    var buffer: seq<Byte> := [5, 1, 0, 5, 1, 0];
    var filled := FillAddrPort(a);
    if filled == [] {
      return -1;
    }
    buffer := buffer + filled;
    socket.Send(buffer, sendResult);
    if sendResult != |buffer| {
      return -1;
    }
    hide FillAddrPort, Available;
    assert buffer[..|buffer|] == buffer;
    code := ReceiveReplies(socket);
  }

  method ReceiveReplies(socket: Socket) returns (code: int)
    modifies socket`incoming
    ensures var stream := old(Available(socket.incoming));
            && code == Receive(stream).0 && Receive(stream).1 <= |stream|
            && Available(socket.incoming) == stream[Receive(stream).1..]
  {
    hide Available;
    ghost var stream := Available(socket.incoming);
    var buffer := socket.RecvAll(7);
    assert stream[|buffer|..] == Available(socket.incoming) && stream[..|buffer|] == buffer;
    if |buffer| != 7 {
      return -1;
    }
    assert buffer[..5] == stream[..5] && forall i :: 0 <= i < 7 ==> buffer[i] == stream[i];
    if buffer[..5] != [5, 0, 5, 0, 0] {
      var rep: int := buffer[3];
      return if rep != 0 then -rep else -1;
    }
    var atyp: int, extra: int := buffer[5], buffer[6];
    var toReceive: nat := 7;
    if atyp == 1 {
      toReceive := 4 + 2 - 1;
    } else if atyp == 3 {
      toReceive := extra + 2;
    } else if atyp == 4 {
      toReceive := 16 + 2 - 1;
    }
    var rest := socket.RecvAll(toReceive);
    Seqs.DropDrop(stream, 7, |rest|);
    assert stream[7..][|rest|..] == Available(socket.incoming);
    return if |rest| != toReceive then -1 else 0;
  }

  lemma ParseConnect(a: Address, app: seq<Byte>)
    requires a.Valid() && !a.OtherFamily?
    ensures Parse(ConnectBytes(a) + app) == Some((ConnectTo(a), |ConnectBytes(a)|))
  {
    AddrPortRoundTrip(a, app);
    ConnectLayout(a, app);
    hide FillAddrPort, HeaderAsks, HeaderRequest;
    ParseSingleMethod([5, 1, 0] + FillAddrPort(a) + app);
  }

  /** With "no authentication" as the only method the rest of the input is the request. */
  lemma ParseSingleMethod(d: seq<Byte>)
    ensures Parse([5, 1, 0] + d)
            == if HeaderAsks(d) then Some((HeaderRequest(d), 7 + AddressLength(d))) else None
  {
    var data: seq<Byte> := [5, 1, 0] + d;
    assert data[2..3] == [0] && data[3..] == d;
  }

  lemma ConnectLayout(a: Address, app: seq<Byte>)
    ensures ConnectBytes(a) + app == [5, 1, 0] + ([5, 1, 0] + FillAddrPort(a) + app)
  {
    hide FillAddrPort;
    Seqs.Assoc([5, 1, 0], [5, 1, 0] + FillAddrPort(a), app);
    Seqs.Assoc([5, 1, 0], [5, 1, 0], FillAddrPort(a));
  }

  /** Type, address and port as filled in are read back as they were, whatever follows. */
  lemma AddrPortRoundTrip(a: Address, app: seq<Byte>)
    requires a.Valid() && !a.OtherFamily?
    ensures var d := [5, 1, 0] + FillAddrPort(a) + app;
            HeaderAsks(d) && HeaderRequest(d) == ConnectTo(a) && 4 + AddressLength(d) == 3 + |FillAddrPort(a)|
            && d[4 + AddressLength(d)..] == app
  {
    var atyp: Byte := if a.V4? then 1 else 4;
    var d := [5, 1, 0] + FillAddrPort(a) + app;
    assert d == [5, 1, 0, atyp] + a.addr + a.port + app;
    assert |FillAddrPort(a)| == if a.V4? then 7 else 19;
    hide FillAddrPort, HeaderAsks, HeaderRequest, AddressLength;
    HeaderReads(atyp, a.addr, a.port, app);
  }

  lemma HeaderReads(atyp: Byte, addr: seq<Byte>, port: seq<Byte>, app: seq<Byte>)
    requires |port| == 2 && ((atyp == 1 && |addr| == 4) || (atyp == 4 && |addr| == 16))
    ensures var d := [5, 1, 0, atyp] + addr + port + app;
            && HeaderAsks(d) && HeaderRequest(d) == ConnectTo(if atyp == 1 then V4(addr, port) else V6(addr, port))
            && AddressLength(d) == |addr| + 2 && d[4 + AddressLength(d)..] == app
  {
    var head: seq<Byte> := [5, 1, 0, atyp];
    var d := head + addr + port + app;
    Seqs.Middle(head, addr, port + app);
    Seqs.Assoc(head + addr, port, app);
    Seqs.Middle(head + addr, port, app);
    Seqs.DropHead(head + addr + port, app);
  }

  /** After a greeting with the one method the server is at the request. */
  lemma GreetingRun(d: seq<Byte>, env: Env)
    requires env.respond(GREETING_REPLY) == StatusOk
    ensures RunLoop(INIT, [5, 1, 0] + d, env) == RunLoop(State(RequestHeader, 4, [Responded(GREETING_REPLY)]), d, env)
  {
    var data: seq<Byte> := [5, 1, 0] + d;
    var s1 := State(GreetingMethods, 1, []);
    assert data[2..][..1] == [0] && data[2..][1..] == d;
    assert Step(INIT, data, env) == Result(s1, data[2..], true);
    assert Step(s1, data[2..], env) == Result(State(RequestHeader, 4, [] + [Responded(GREETING_REPLY)]), d, true);
    assert [] + [Responded(GREETING_REPLY)] == [Responded(GREETING_REPLY)];
    hide Step;
    assert RunLoop(INIT, data, env) == RunLoop(s1, data[2..], env);
  }

  /** What the server does once it has a CONNECT request. */
  lemma ConnectRun(a: Address, app: seq<Byte>, env: Env)
    requires a.Valid() && !a.OtherFamily? && env.respond(GREETING_REPLY) == StatusOk
    ensures var r := StepConnect(State(if a.V4? then RequestAddrV4 else RequestAddrV6, if a.V4? then 6 else 18, [Responded(GREETING_REPLY)]), a, app, env);
            Sane(r.state) && RunLoop(INIT, ConnectBytes(a) + app, env) == if r.ok then RunLoop(r.state, r.rest, env) else (r.state, r.rest)
  {
    var d := [5, 1, 0] + FillAddrPort(a) + app;
    ConnectLayout(a, app);
    GreetingRun(d, env);
    AddrPortRoundTrip(a, app);
    assert d[3] == if a.V4? then 1 else 4;
    hide RunLoop, FillAddrPort, Step, StepConnect;
    var s2 := State(RequestHeader, 4, [Responded(GREETING_REPLY)]);
    var s3 := State(if a.V4? then RequestAddrV4 else RequestAddrV6, AddressLength(d), s2.events);
    ConnectSteps(s2, s3, d, a, app, env);
    Unroll(s2, d, env);
    Unroll(s3, d[4..], env);
  }

  lemma ConnectSteps(s2: State, s3: State, d: seq<Byte>, a: Address, app: seq<Byte>, env: Env)
    requires HeaderAsks(d) && d[1] == 1 && HeaderRequest(d) == ConnectTo(a) && d[4 + AddressLength(d)..] == app
    requires s2.phase == RequestHeader && s2.required == 4
    requires s3 == State(if d[3] == 1 then RequestAddrV4 else RequestAddrV6, AddressLength(d), s2.events)
    ensures Step(s2, d, env) == Result(s3, d[4..], true)
    ensures Step(s3, d[4..], env) == StepConnect(s3, a, app, env)
  {
    var m := AddressLength(d);
    hide StepConnect, StepBind, StepGreeting, StepMethods, StepResponse;
    Seqs.DropDrop(d, 4, m);
    assert d[4..][..m - 2] == d[4..4 + m - 2] && d[4..][m - 2..m] == d[4 + m - 2..4 + m];
  }

  /** The bytes the server has sent. */
  function SentBytes(events: seq<Event>): seq<Byte> {
    if events == [] then []
    else (if events[0].Responded? then events[0].bytes else []) + SentBytes(events[1..])
  }

  lemma SentInConnect(a: Address, resp: seq<Byte>)
    ensures SentBytes([Responded(GREETING_REPLY), AskedConnect(a), Responded(resp)]) == GREETING_REPLY + resp
  {
    var last: seq<Event> := [Responded(resp)];
    var asked: seq<Event> := [AskedConnect(a)] + last;
    var all: seq<Event> := [Responded(GREETING_REPLY)] + asked;
    assert last[1..] == [] && asked[1..] == last && all[1..] == asked;
    assert SentBytes(last) == resp + SentBytes([]) == resp;
    assert SentBytes(asked) == [] + SentBytes(last) == resp;
    assert all == [Responded(GREETING_REPLY), AskedConnect(a), Responded(resp)];
  }

  /** The server once its connection is up, whether it came up at once or later. */
  function Established(t: State, env: Env): State {
    if t.phase == WaitConnect then Conclude(t, env).state else t
  }

  /** The server is asked for exactly the client's address and has consumed exactly its message; the
      bytes the server sends are accepted by the client, which takes exactly them.  What either side
      sends next is application data for the other. */
  lemma ConnectComposes(a: Address, bound: Address, app: seq<Byte>, serverApp: seq<Byte>, env: Env)
    requires a.Valid() && !a.OtherFamily? && bound.Valid() && !bound.OtherFamily?
    requires env.respond(GREETING_REPLY) == StatusOk && env.respond(CreateResp(env, false)) == StatusOk
    requires env.connect.Some? && env.connect.value(a) != StatusFail && env.destAddress(false) == Some(bound)
    ensures var (t, rest) := RunLoop(INIT, ConnectBytes(a) + app, env);
            var u := Established(t, env);
            && rest == app && u.phase == Success
            && u.events == [Responded(GREETING_REPLY), AskedConnect(a), Responded(CreateResp(env, false))]
            && Receive(SentBytes(u.events) + serverApp) == (0, |SentBytes(u.events)|)
  {
    ConnectRun(a, app, env);
    RepliesAccepted(bound, serverApp);
    var resp := CreateResp(env, false);
    SentInConnect(a, resp);
    var asked := [Responded(GREETING_REPLY), AskedConnect(a)];
    assert [Responded(GREETING_REPLY)] + [AskedConnect(a)] == asked;
    assert asked + [Responded(resp)] == [Responded(GREETING_REPLY), AskedConnect(a), Responded(resp)];
    hide Receive, SentBytes, FillAddrPort;
    if env.connect.value(a) == StatusOk {
      ResponseRun(State(Response, 0, asked), app, env);
    }
    hide RunLoop, CreateResp;
  }

  lemma ResponseRun(s: State, d: seq<Byte>, env: Env)
    requires s.phase == Response && s.required == 0 && env.respond(CreateResp(env, false)) == StatusOk
    ensures RunLoop(s, d, env) == (s.(phase := Success, required := 1, events := s.events + [Responded(CreateResp(env, false))]), d)
  {
    hide CreateResp;
    assert Step(s, d, env) == StepResponse(s, d, env);
  }

  /** A handshake whose final reply cannot be sent is still reported as a success. */
  lemma UnsentSuccessExample(a: Address) returns (env: Env)
    requires a.Valid() && !a.OtherFamily?
    ensures var t := RunLoop(INIT, ConnectBytes(a), env).0;
            t.phase == WaitConnect && Conclude(t, env).ok && !Conclude(t, env).sent
  {
    env := Env(b => if b == GREETING_REPLY then StatusOk else StatusFail, Some(_ => StatusInProgress), p => (StatusFail, p), _ => None);
    assert ConnectBytes(a) + [] == ConnectBytes(a);
    hide RunLoop, ConnectBytes, FillAddrPort, Receive;
    ConnectRun(a, [], env);
  }

  lemma RepliesAccepted(bound: Address, serverApp: seq<Byte>)
    requires bound.Valid() && !bound.OtherFamily?
    ensures var replies := GREETING_REPLY + ([5, 0, 0] + FillAddrPort(bound));
            Receive(replies + serverApp) == (0, |replies|)
  {
    var stream := GREETING_REPLY + ([5, 0, 0] + FillAddrPort(bound)) + serverApp;
    assert stream[..5] == [5, 0, 5, 0, 0];
    assert stream[5] == if bound.V4? then 1 else 4;
  }

  /** When the server cannot tell its own address it says so, and the client returns that error. */
  lemma FailureIsReported(serverApp: seq<Byte>, env: Env)
    requires env.destAddress(false) == None
    ensures Receive(GREETING_REPLY + CreateResp(env, false) + serverApp).0 == -1
  {
  }

  /** A reply with a domain name is taken whole, by the length it carries. */
  lemma ReceivesDomainReply(name: seq<Byte>, port: seq<Byte>, serverApp: seq<Byte>)
    requires |name| < 256 && |port| == 2
    ensures Receive([5, 0, 5, 0, 0, 3, |name|] + name + port + serverApp) == (0, 7 + |name| + 2)
  {
    var stream: seq<Byte> := [5, 0, 5, 0, 0, 3, |name|] + name + port + serverApp;
    assert stream[..5] == [5, 0, 5, 0, 0];
  }

  /** Any other beginning is a failure, with the server's code if it gave one. */
  lemma RefusalIsReported(stream: seq<Byte>)
    requires |stream| >= 7 && stream[..5] != [5, 0, 5, 0, 0]
    ensures var rep: int := stream[3]; Receive(stream) == (if rep == 0 then -1 else -rep, 7)
  {
  }

  /** Nothing less than the whole reply will do. */
  lemma TruncatedReplyFails(stream: seq<Byte>, k: nat)
    requires Receive(stream).0 == 0 && k < Receive(stream).1
    ensures Receive(stream).1 <= |stream| && Receive(stream[..k]) == (-1, k)
  {
    if k >= 7 {
      assert stream[..k][..5] == stream[..5];
    }
  }

  // ---- Replies ---------------------------------------------------------------------------------

  /** What a reply says: its code, and the address and port in it (section 6 of RFC 1928). */
  function ReadReply(reply: seq<Byte>): Option<(Byte, Address)> {
    if |reply| < 10 || reply[0] != 5 || reply[2] != 0 then None
    else if reply[3] == 1 && |reply| == 10 then Some((reply[1], V4(reply[4..8], reply[8..10])))
    else if reply[3] == 4 && |reply| == 22 then Some((reply[1], V6(reply[4..20], reply[20..22])))
    else None
  }

  /** A final reply tells success and the socket's own address, or the peer's after a BIND; or a general
      failure and no address when that cannot be told. */
  lemma ReplyRoundTrip(env: Env, isBind: bool)
    requires env.destAddress(isBind).Some? ==> env.destAddress(isBind).value.Valid() && !env.destAddress(isBind).value.OtherFamily?
    ensures ReadReply(CreateResp(env, isBind))
            == Some(match env.destAddress(isBind)
                    case Some(a) => (0, a)
                    case None => (1, V4([0, 0, 0, 0], [0, 0])))
  {
    var resp := CreateResp(env, isBind);
    if env.destAddress(isBind).Some? {
      var a := env.destAddress(isBind).value;
      var head: seq<Byte> := [5, 0, 0, if a.V4? then 1 else 4];
      assert resp == head + a.addr + a.port + [];
      Seqs.Middle(head, a.addr, a.port + []);
      Seqs.Assoc(head + a.addr, a.port, []);
      Seqs.Middle(head + a.addr, a.port, []);
    } else {
      assert resp[4..8] == [0, 0, 0, 0] && resp[8..10] == [0, 0];
    }
  }

  lemma BindReplyRoundTrip(bound: nat)
    ensures ReadReply(BindReply(bound)) == Some((0, V4([0, 0, 0, 0], PortBytes(bound))))
  {
    var reply := BindReply(bound);
    assert reply[4..8] == [0, 0, 0, 0] && reply[8..10] == PortBytes(bound);
  }

  /** Port bytes are in network order: the first one counts more. */
  lemma PortsInNetworkOrder(p: nat, q: nat)
    requires p < q < 65536
    ensures var (a, b) := (PortBytes(p), PortBytes(q)); a[0] < b[0] || (a[0] == b[0] && a[1] < b[1])
  {
  }

  // ---- BIND ------------------------------------------------------------------------------

  /** The 13-byte request of the session pool. */
  function BindBytes(port: nat): seq<Byte> { [5, 1, 0] + BindRequest(port) }

  function BindRequest(port: nat): seq<Byte> { [5, 2, 0, 1, 0, 0, 0, 0] + PortBytes(port) }

  lemma PortRoundTrip(port: nat)
    requires port < 65536
    ensures PortOf(PortBytes(port)) == port
  {
  }

  lemma ParseBind(port: nat, app: seq<Byte>)
    requires port < 65536
    ensures Parse(BindBytes(port) + app) == Some((BindPort(port), 13))
  {
    var d := BindRequest(port) + app;
    Seqs.Assoc([5, 1, 0], BindRequest(port), app);
    BindLayout(port, app);
    PortRoundTrip(port);
    assert d[0] == d[..4][0] && d[1] == d[..4][1] && d[2] == d[..4][2] && d[3] == d[..4][3];
    assert d[8..10] == d[4..][4..6];
    ParseSingleMethod(d);
  }

  /** The first exchange: the server is asked for exactly the port, consumes exactly 13 bytes and
      answers with exactly 12, in which the client finds a success byte and the port bound. */
  lemma BindFirstExchange(port: nat, bound: nat, app: seq<Byte>, env: Env)
    requires port < 65536 && bound < 65536 && env.respond(GREETING_REPLY) == StatusOk
    requires env.bind(port).0 != StatusFail && env.bind(port).1 == bound && env.respond(BindReply(bound)) != StatusFail
    ensures RunLoop(INIT, BindBytes(port) + app, env)
            == (State(WaitAccept, 0, [Responded(GREETING_REPLY), AskedBind(port), Responded(BindReply(bound))]), app)
    ensures var replies := GREETING_REPLY + BindReply(bound);
            |replies| == 12 && replies[3] == 0 && PortOf(replies[10..12]) == bound
  {
    var s2 := State(RequestHeader, 4, [Responded(GREETING_REPLY)]);
    var d := BindRequest(port) + app;
    Seqs.Assoc([5, 1, 0], BindRequest(port), app);
    BindLayout(port, app);
    PortRoundTrip(port);
    BindReplies(bound);
    hide Step, RunLoop, BindRequest, BindReply, PortOf, PortBytes;
    GreetingRun(d, env);
    BindHeader(s2, d, env);
    Unroll(s2, d, env);
    BindStep(State(RequestBind, 6, s2.events), d[4..], port, bound, app, env);
  }

  lemma BindHeader(s: State, d: seq<Byte>, env: Env)
    requires s.phase == RequestHeader && s.required == 4 && |d| >= 4 && d[..4] == [5, 2, 0, 1]
    ensures Step(s, d, env) == Result(s.(phase := RequestBind, required := 6), d[4..], true)
  {
    assert d[0] == d[..4][0] && d[1] == d[..4][1] && d[2] == d[..4][2] && d[3] == d[..4][3];
  }

  lemma BindReplies(bound: nat)
    requires bound < 65536
    ensures var replies := GREETING_REPLY + BindReply(bound);
            |replies| == 12 && replies[3] == 0 && PortOf(replies[10..12]) == bound
  {
    PortRoundTrip(bound);
    assert (GREETING_REPLY + BindReply(bound))[10..12] == PortBytes(bound);
  }

  lemma BindLayout(port: nat, app: seq<Byte>)
    ensures var d := BindRequest(port) + app;
            |d| >= 10 && d[..4] == [5, 2, 0, 1] && d[4..][4..6] == PortBytes(port) && d[4..][6..] == app
  {
    var d := BindRequest(port) + app;
    assert d[4..] == [0, 0, 0, 0] + PortBytes(port) + app;
    Seqs.Middle([0, 0, 0, 0], PortBytes(port), app);
    Seqs.DropHead([0, 0, 0, 0] + PortBytes(port), app);
  }

  lemma BindStep(s: State, d: seq<Byte>, port: nat, bound: nat, app: seq<Byte>, env: Env)
    requires s == State(RequestBind, 6, [Responded(GREETING_REPLY)]) && |d| >= 6 && PortOf(d[4..6]) == port && d[6..] == app
    requires env.bind(port).0 != StatusFail && env.bind(port).1 == bound && env.respond(BindReply(bound)) != StatusFail
    ensures RunLoop(s, d, env)
            == (State(WaitAccept, 0, [Responded(GREETING_REPLY), AskedBind(port), Responded(BindReply(bound))]), app)
  {
    assert s.events + [AskedBind(port)] + [Responded(BindReply(bound))]
        == [Responded(GREETING_REPLY), AskedBind(port), Responded(BindReply(bound))];
  }

  /** The pool reads the second reply as 22 bytes: success byte, address and port. */
  const SECOND_REPLY_SIZE: nat := 22

  /** The second exchange stays aligned exactly when the peer that was accepted has an IPv6 address;
      the pool then passes on that peer's address and port. */
  lemma BindSecondExchangeIff(env: Env)
    requires env.destAddress(true).Some? ==> env.destAddress(true).value.Valid()
    ensures |CreateResp(env, true)| == SECOND_REPLY_SIZE
            <==> env.destAddress(true).Some? && env.destAddress(true).value.V6?
    ensures |CreateResp(env, true)| == SECOND_REPLY_SIZE ==>
              var resp, peer := CreateResp(env, true), env.destAddress(true).value;
              resp[1] == 0 && resp[4..20] == peer.addr && resp[20..22] == peer.port
  {
  }

  /** The whole BIND conversation: after the first exchange and the inbound connection the server sends one
      more reply, about the peer; it has the 22 bytes the pool reads exactly for an IPv6 peer, and then
      tells that peer's address and port. */
  lemma BindComposes(port: nat, bound: nat, app: seq<Byte>, env: Env)
    requires port < 65536 && bound < 65536 && env.respond(GREETING_REPLY) == StatusOk
    requires env.bind(port).0 != StatusFail && env.bind(port).1 == bound && env.respond(BindReply(bound)) != StatusFail
    requires env.destAddress(true).Some? ==> env.destAddress(true).value.Valid()
    ensures var (t, rest) := RunLoop(INIT, BindBytes(port) + app, env);
            var u := Conclude(t, env).state;
            && rest == app && u.phase == Success && |u.events| == |t.events| + 1 && t.events <= u.events
            && u.events[|t.events|].Responded?
            && var reply := u.events[|t.events|].bytes;
               && (|reply| == SECOND_REPLY_SIZE <==> env.destAddress(true).Some? && env.destAddress(true).value.V6?)
               && (|reply| == SECOND_REPLY_SIZE ==> ReadReply(reply) == Some((0, env.destAddress(true).value)))
  {
    BindFirstExchange(port, bound, app, env);
    BindSecondExchangeIff(env);
    var peer := env.destAddress(true);
    if peer.Some? && peer.value.V6? { ReplyRoundTrip(env, true); }
    hide RunLoop, CreateResp, ReadReply, BindReply;
  }

  /** An IPv4 peer makes the pool wait for 22 bytes of a reply that has 10. */
  lemma BindSecondExchangeFails(env: Env)
    requires env.destAddress(true) == Some(V4([127, 0, 0, 1], [0, 80]))
    ensures |CreateResp(env, true)| == 10 < SECOND_REPLY_SIZE
  {
  }
}
