/** The whole outcome of a handshake, told from its input at once: when it fails, when it waits for more
    bytes, and what has been sent and asked by then. */
module Socks5Outcomes {
  import opened Basics
  import opened Socks5
  import opened Socks5Requests
  import Seqs

  /** Where the greeting ends. */
  function GreetingEnd(data: seq<Byte>): nat
    requires |data| >= 2
  {
    var n: int := data[1];
    2 + n
  }

  /** A greeting that offers "no authentication" is complete. */
  predicate GreetingDone(data: seq<Byte>) {
    |data| >= 2 && data[0] == 5 && data[1] > 0 && |data| >= GreetingEnd(data) && 0 in data[2..GreetingEnd(data)]
  }

  /** Some part of the input that is already there is not supported. */
  predicate Malformed(data: seq<Byte>) {
    if |data| < 2 then false
    else if data[0] != 5 || data[1] == 0 then true
    else if |data| < GreetingEnd(data) then false
    else if 0 !in data[2..GreetingEnd(data)] then true
    else BadHeader(data[GreetingEnd(data)..])
  }

  predicate BadHeader(d: seq<Byte>) {
    |d| >= 4 && (d[0] != 5 || d[2] != 0 || d[1] !in {1, 2} || d[3] !in {1, 4})
  }

  /** Where the server stands, and what it has sent and asked, once it has a request. */
  function Answer(r: Request, env: Env): (Phase, seq<Event>) {
    var greeted := Responded(GREETING_REPLY);
    match r
    case ConnectTo(a) =>
      if env.connect.None? then (WaitConnect, [greeted])
      else if env.connect.value(a) == StatusFail then (Fail, [greeted, AskedConnect(a)])
      else if env.connect.value(a) == StatusInProgress then (WaitConnect, [greeted, AskedConnect(a)])
      else (if env.respond(CreateResp(env, false)) == StatusOk then Success else Fail,
            [greeted, AskedConnect(a), Responded(CreateResp(env, false))])
    case BindPort(port) =>
      if env.bind(port).0 == StatusFail then (Fail, [greeted, AskedBind(port)])
      else
        var reply := BindReply(env.bind(port).1);
        (if env.respond(reply) == StatusFail then Fail else WaitAccept, [greeted, AskedBind(port), Responded(reply)])
  }

  /** Stopped for more bytes, or failed. */
  predicate StoppedEarly(t: State, rest: seq<Byte>, failed: bool) {
    (t.phase == Fail <==> failed) && (!failed ==> WantsMore(t, rest))
  }

  /** For every input and every behaviour of the callbacks: before the greeting is complete nothing is sent;
      if its reply cannot be sent the handshake fails; with it sent and no complete request, nothing
      more is sent or asked, and the handshake has failed exactly if the input is malformed, and
      else waits for more bytes; and a complete request is answered as `Answer` says, with exactly its
      bytes consumed. */
  lemma HandshakeOutcome(data: seq<Byte>, env: Env)
    ensures var ((t, rest), p) := (RunLoop(INIT, data, env), Parse(data));
            if !GreetingDone(data) then
              t.events == [] && StoppedEarly(t, rest, Malformed(data))
            else if env.respond(GREETING_REPLY) != StatusOk then
              t.events == [Responded(GREETING_REPLY)] && t.phase == Fail
            else if p.None? then
              t.events == [Responded(GREETING_REPLY)] && StoppedEarly(t, rest, Malformed(data))
            else
              (t.phase, t.events) == Answer(p.value.0, env) && p.value.1 <= |data| && rest == data[p.value.1..]
  {
    Unroll(INIT, data, env);
    if |data| >= 2 && data[0] == 5 && data[1] > 0 {
      var n: nat := data[1];
      assert Step(INIT, data, env) == Result(State(GreetingMethods, n, []), data[2..], true);
      hide RunLoop, Step, Answer, HeaderRequest, AddressLength, HeaderAsks;
      MethodsOutcome(n, data[2..], env);
      ByParts(data);
      hide Parse, GreetingDone, Malformed, BadHeader;
    } else {
      hide RunLoop, Answer;
    }
  }

  /** The conditions on the whole input, told from what follows its first two bytes. */
  lemma ByParts(data: seq<Byte>)
    requires |data| >= 2 && data[0] == 5 && data[1] > 0
    ensures var n: nat, d := data[1], data[2..];
            && (GreetingDone(data) <==> n <= |d| && 0 in d[..n])
            && (Malformed(data) <==> n <= |d| && (0 !in d[..n] || BadHeader(d[n..])))
            && (Parse(data).Some? <==> GreetingDone(data) && HeaderAsks(d[n..]))
            && (Parse(data).Some? ==>
                  && Parse(data).value.0 == HeaderRequest(d[n..]) && Parse(data).value.1 <= |data|
                  && d[n..][4 + AddressLength(d[n..])..] == data[Parse(data).value.1..])
  {
    var n: nat, d := data[1], data[2..];
    ParseByParts(data);
    hide Parse, HeaderRequest, BadHeader;
    if n <= |d| {
      assert d[..n] == data[2..2 + n];
      if HeaderAsks(d[n..]) { Seqs.DropDrop(data, 2 + n, 4 + AddressLength(d[n..])); }
    }
  }

  lemma MethodsOutcome(n: nat, d: seq<Byte>, env: Env)
    requires 0 < n < 256
    ensures var (t, rest) := RunLoop(State(GreetingMethods, n, []), d, env);
            if |d| < n || 0 !in d[..n] then
              t.events == [] && StoppedEarly(t, rest, |d| >= n)
            else if env.respond(GREETING_REPLY) != StatusOk then
              t.events == [Responded(GREETING_REPLY)] && t.phase == Fail
            else if !HeaderAsks(d[n..]) then
              t.events == [Responded(GREETING_REPLY)] && StoppedEarly(t, rest, BadHeader(d[n..]))
            else
              (t.phase, t.events) == Answer(HeaderRequest(d[n..]), env) && rest == d[n..][4 + AddressLength(d[n..])..]
  {
    var s := State(GreetingMethods, n, []);
    Unroll(s, d, env);
    if |d| >= n && 0 in d[..n] && env.respond(GREETING_REPLY) == StatusOk {
      assert s.events + [Responded(GREETING_REPLY)] == [Responded(GREETING_REPLY)];
      assert Step(s, d, env) == Result(State(RequestHeader, 4, [Responded(GREETING_REPLY)]), d[n..], true);
      HeaderOutcome(d[n..], env);
      hide RunLoop, Step, HeaderRequest, Answer, AddressLength, HeaderAsks;
    } else {
      assert s.events + [Responded(GREETING_REPLY)] == [Responded(GREETING_REPLY)];
      hide RunLoop, HeaderRequest, Answer, HeaderAsks;
    }
  }

  lemma HeaderOutcome(d: seq<Byte>, env: Env)
    ensures var (t, rest) := RunLoop(State(RequestHeader, 4, [Responded(GREETING_REPLY)]), d, env);
            if !HeaderAsks(d) then
              t.events == [Responded(GREETING_REPLY)] && StoppedEarly(t, rest, BadHeader(d))
            else
              (t.phase, t.events) == Answer(HeaderRequest(d), env) && rest == d[4 + AddressLength(d)..]
  {
    var s := State(RequestHeader, 4, [Responded(GREETING_REPLY)]);
    Unroll(s, d, env);
    HeaderStep(d, s.events, env);
    var r := Step(s, d, env);
    if r.ok {
      AddressOutcome(r.state, r.rest, env);
      if HeaderAsks(d) { Seqs.DropDrop(d, 4, AddressLength(d)); }
      assert !BadHeader(d);
      hide RunLoop, Step, HeaderRequest, Answer, AddressRequest, AddressLength;
    } else {
      hide RunLoop, HeaderRequest, Answer;
    }
  }

  lemma AddressOutcome(s: State, d: seq<Byte>, env: Env)
    requires Sane(s) && s.phase in {RequestAddrV4, RequestAddrV6, RequestBind} && s.events == [Responded(GREETING_REPLY)]
    ensures var (t, rest) := RunLoop(s, d, env);
            if |d| < s.required then t.events == s.events && StoppedEarly(t, rest, false)
            else (t.phase, t.events) == Answer(AddressRequest(s.phase, d[..s.required]), env) && rest == d[s.required..]
  {
    Unroll(s, d, env);
    if |d| < s.required {
      assert Step(s, d, env) == Result(s, d, false);
      hide RunLoop, Step, Answer;
    } else if s.phase == RequestBind {
      BindOutcome(s, d, env);
      hide RunLoop, Step, Answer;
    } else {
      ConnectOutcome(s, d, env);
      hide RunLoop, Step, Answer;
    }
  }

  lemma BindOutcome(s: State, d: seq<Byte>, env: Env)
    requires Sane(s) && s.phase == RequestBind && s.events == [Responded(GREETING_REPLY)] && |d| >= s.required
    ensures var r := Step(s, d, env);
            && !r.ok && r.rest == d[s.required..]
            && (r.state.phase, r.state.events) == Answer(AddressRequest(s.phase, d[..s.required]), env)
  {
    var request := d[..s.required];
    assert request[|request| - 2..] == d[s.required - 2..s.required];
    hide BindReply, StepConnect, StepGreeting, StepMethods, StepRequest, StepResponse;
    assert Step(s, d, env) == StepBind(s, d, env);
    var port := PortOf(d[s.required - 2..s.required]);
    var asked := s.events + [AskedBind(port)];
    var reply := Responded(BindReply(env.bind(port).1));
    assert asked == [Responded(GREETING_REPLY), AskedBind(port)];
    assert asked + [reply] == [Responded(GREETING_REPLY), AskedBind(port), reply];
  }

  lemma ConnectOutcome(s: State, d: seq<Byte>, env: Env)
    requires Sane(s) && s.phase in {RequestAddrV4, RequestAddrV6} && s.events == [Responded(GREETING_REPLY)] && |d| >= s.required
    ensures var (t, rest) := RunLoop(s, d, env);
            rest == d[s.required..] && (t.phase, t.events) == Answer(AddressRequest(s.phase, d[..s.required]), env)
  {
    var request := d[..s.required];
    assert s.phase == RequestAddrV4 ==> request[..4] == d[..4] && request[4..6] == d[4..6];
    assert s.phase == RequestAddrV6 ==> request[..16] == d[..16] && request[16..18] == d[16..18];
    var a := AddressRequest(s.phase, request).to;
    Unroll(s, d, env);
    assert Step(s, d, env) == StepConnect(s, a, d[s.required..], env);
    hide Step, CreateResp;
    var asked := s.events + [AskedConnect(a)];
    assert asked == [Responded(GREETING_REPLY), AskedConnect(a)];
    var rest := d[s.required..];
    if env.connect.None? {
      Stays(State(WaitConnect, 0, s.events), rest, env);
    } else if env.connect.value(a) == StatusOk {
      FinalReply(State(Response, 0, asked), rest, env);
      assert asked + [Responded(CreateResp(env, false))] == [Responded(GREETING_REPLY), AskedConnect(a), Responded(CreateResp(env, false))];
    }
    hide RunLoop;
  }

  lemma Stays(s: State, d: seq<Byte>, env: Env)
    requires s.phase == WaitConnect && s.required == 0
    ensures RunLoop(s, d, env) == (s, d)
  {
  }

  lemma FinalReply(s: State, d: seq<Byte>, env: Env)
    requires s.phase == Response && s.required == 0
    ensures var (t, rest) := RunLoop(s, d, env);
            && rest == d && t.events == s.events + [Responded(CreateResp(env, false))]
            && t.phase == if env.respond(CreateResp(env, false)) == StatusOk then Success else Fail
  {
    hide CreateResp;
    Unroll(s, d, env);
    assert Step(s, d, env) == StepResponse(s, d, env);
  }
}
