/** Which inputs make the server ask for a connection or a port, and what it asks for. */
module Socks5Requests {
  import opened Basics
  import opened Socks5
  import Seqs

  datatype Request = ConnectTo(to: Address) | BindPort(port: nat)

  /** The supported subset of sections 3 to 5 of RFC 1928, read off the whole input at once: a greeting
      that offers "no authentication", then CONNECT or BIND with an IPv4 or IPv6 address.  The number is
      the length of the two messages. */
  function Parse(data: seq<Byte>): Option<(Request, nat)> {
    if |data| < 2 || data[0] != 5 || data[1] == 0 then None
    else
      var n: nat := data[1];
      if |data| < 2 + n + 4 || 0 !in data[2..2 + n] then None
      else
        var d := data[2 + n..];
        if d[0] != 5 || d[2] != 0 || d[1] !in {1, 2} || d[3] !in {1, 4} then None
        else
          var m := if d[3] == 1 then 6 else 18;
          if |d| < 4 + m then None
          else
            var addr, port := d[4..4 + m - 2], d[4 + m - 2..4 + m];
            Some((if d[1] == 2 then BindPort(PortOf(port))
                  else ConnectTo(if d[3] == 1 then V4(addr, port) else V6(addr, port)),
                  2 + n + 4 + m))
  }

  predicate IsRequest(e: Event) { e.AskedConnect? || e.AskedBind? }

  predicate NoRequest(events: seq<Event>) {
    forall i :: 0 <= i < |events| ==> !IsRequest(events[i])
  }

  function AsEvent(r: Request): Event {
    match r
    case ConnectTo(a) => AskedConnect(a)
    case BindPort(p) => AskedBind(p)
  }

  /** From `before` to `after` nothing was asked. */
  predicate Silent(before: seq<Event>, after: seq<Event>) {
    before <= after && NoRequest(after[|before|..])
  }

  /** From `before` to `after` exactly `r` was asked. */
  predicate Asked(before: seq<Event>, after: seq<Event>, r: Request) {
    && before <= after && |before| < |after|
    && after[|before|] == AsEvent(r)
    && NoRequest(after[|before| + 1..])
  }

  lemma Unroll(s: State, d: seq<Byte>, env: Env)
    requires Sane(s) && s.phase != Success
    ensures var r := Step(s, d, env);
            RunLoop(s, d, env) == if r.ok then RunLoop(r.state, r.rest, env) else (r.state, r.rest)
  {
  }

  /** Past the request the input is not touched, whatever is still replied. */
  lemma NothingMoreAsked(s: State, data: seq<Byte>, env: Env)
    requires Sane(s) && s.phase in {WaitConnect, WaitAccept, Response, Success, Fail}
    ensures Silent(s.events, RunLoop(s, data, env).0.events) && RunLoop(s, data, env).1 == data
  {
    if s.phase == Response {
      var r := Step(s, data, env);
      assert r == StepResponse(s, data, env);
      assert RunLoop(s, data, env).0.events == s.events + [Responded(CreateResp(env, false))];
    }
  }

  /** The request an address phase has read. */
  function AddressRequest(p: Phase, d: seq<Byte>): Request
    requires p in {RequestAddrV4, RequestAddrV6, RequestBind} && |d| >= 6 && (p == RequestAddrV6 ==> |d| >= 18)
  {
    if p == RequestAddrV4 then ConnectTo(V4(d[..4], d[4..6]))
    else if p == RequestAddrV6 then ConnectTo(V6(d[..16], d[16..18]))
    else BindPort(PortOf(d[|d| - 2..]))
  }

  lemma FromAddress(s: State, d: seq<Byte>, env: Env)
    requires Sane(s) && s.phase in {RequestAddrV4, RequestAddrV6, RequestBind}
    ensures var (t, rest) := RunLoop(s, d, env);
            if |d| >= s.required && (s.phase == RequestBind || env.connect.Some?)
            then Asked(s.events, t.events, AddressRequest(s.phase, d[..s.required])) && rest == d[s.required..]
            else Silent(s.events, t.events)
  {
    if |d| >= s.required {
      var r := Step(s, d, env);
      AddressStep(s, d, env);
      NothingMoreAsked(r.state, r.rest, env);
      assert RunLoop(s, d, env) == if r.ok then RunLoop(r.state, r.rest, env) else (r.state, r.rest);
      var after := RunLoop(r.state, r.rest, env).0.events;
      hide RunLoop, Step;
      if s.phase == RequestBind || env.connect.Some? {
        AskedThenSilent(s.events, r.state.events, after, AddressRequest(s.phase, d[..s.required]));
      } else {
        SilentThenSilent(s.events, r.state.events, after);
      }
    }
  }

  lemma AddressStep(s: State, d: seq<Byte>, env: Env)
    requires Sane(s) && s.phase in {RequestAddrV4, RequestAddrV6, RequestBind} && |d| >= s.required
    ensures var r := Step(s, d, env);
            && r.rest == d[s.required..] && r.state.phase in {WaitConnect, WaitAccept, Response, Fail}
            && if s.phase == RequestBind || env.connect.Some?
               then Asked(s.events, r.state.events, AddressRequest(s.phase, d[..s.required]))
               else Silent(s.events, r.state.events)
  {
    var request := d[..s.required];
    assert request[|request| - 2..] == d[s.required - 2..s.required];
    assert s.phase == RequestAddrV4 ==> request[..4] == d[..4] && request[4..6] == d[4..6];
    assert s.phase == RequestAddrV6 ==> request[..16] == d[..16] && request[16..18] == d[16..18];
  }

  lemma AskedThenSilent(a: seq<Event>, b: seq<Event>, c: seq<Event>, r: Request)
    requires Asked(a, b, r) && Silent(b, c)
    ensures Asked(a, c, r)
  {
    assert forall i :: |b| <= i < |c| ==> c[i] == c[|b|..][i - |b|];
    assert forall i :: |a| < i < |b| ==> c[i] == b[|a| + 1..][i - |a| - 1];
  }

  lemma SilentThenSilent(a: seq<Event>, b: seq<Event>, c: seq<Event>)
    requires Silent(a, b) && Silent(b, c)
    ensures Silent(a, c)
  {
    assert forall i :: |b| <= i < |c| ==> c[i] == c[|b|..][i - |b|];
    assert forall i :: |a| <= i < |b| ==> c[i] == b[|a|..][i - |a|];
  }

  predicate HeaderAsks(d: seq<Byte>) {
    |d| >= 4 && d[0] == 5 && d[2] == 0 && d[1] in {1, 2} && d[3] in {1, 4} && |d| >= 4 + AddressLength(d)
  }

  function AddressLength(d: seq<Byte>): nat
    requires |d| >= 4
  {
    if d[3] == 1 then 6 else 18
  }

  function HeaderRequest(d: seq<Byte>): Request
    requires HeaderAsks(d)
  {
    var m := AddressLength(d);
    var addr, port := d[4..4 + m - 2], d[4 + m - 2..4 + m];
    if d[1] == 2 then BindPort(PortOf(port))
    else ConnectTo(if d[3] == 1 then V4(addr, port) else V6(addr, port))
  }

  lemma FromHeader(d: seq<Byte>, events: seq<Event>, env: Env)
    ensures var (t, rest) := RunLoop(State(RequestHeader, 4, events), d, env);
            if HeaderAsks(d) && (d[1] == 1 ==> env.connect.Some?)
            then Asked(events, t.events, HeaderRequest(d)) && rest == d[4 + AddressLength(d)..]
            else Silent(events, t.events)
  {
    var s := State(RequestHeader, 4, events);
    var r := Step(s, d, env);
    HeaderStep(d, events, env);
    assert RunLoop(s, d, env) == if r.ok then RunLoop(r.state, r.rest, env) else (r.state, r.rest);
    if r.ok {
      FromAddress(r.state, r.rest, env);
    }
    hide RunLoop, Step, HeaderRequest, AddressRequest;
    if HeaderAsks(d) {
      Seqs.DropDrop(d, 4, AddressLength(d));
    }
  }

  lemma HeaderStep(d: seq<Byte>, events: seq<Event>, env: Env)
    ensures var r := Step(State(RequestHeader, 4, events), d, env);
            && r.state.events == events
            && (HeaderAsks(d) ==> r.ok)
            && (r.ok ==>
                  && |d| >= 4 && r.rest == d[4..] && r.state.phase in {RequestAddrV4, RequestAddrV6, RequestBind}
                  && r.state.required == AddressLength(d) && (r.state.phase == RequestBind <==> d[1] != 1)
                  && (|d[4..]| >= AddressLength(d) <==> HeaderAsks(d))
                  && (HeaderAsks(d) ==> AddressRequest(r.state.phase, d[4..][..AddressLength(d)]) == HeaderRequest(d)))
  {
    if HeaderAsks(d) {
      var m := AddressLength(d);
      Seqs.Window(d, 4, m, 0, m - 2);
      Seqs.Window(d, 4, m, m - 2, m);
      var b := d[4..][..m];
      assert b[..m - 2] == b[0..m - 2] && b[m - 2..] == b[m - 2..m];
    }
  }

  /** The whole handshake up to the request.  The server asks for something exactly when the greeting
      reply can be sent and the input begins with a supported handshake (and, for CONNECT, someone is
      there to be asked); it then asks for exactly what the input says, once, and has consumed exactly
      the two messages. */
  lemma RequestIff(data: seq<Byte>, env: Env)
    ensures var (t, rest) := RunLoop(INIT, data, env);
            var p := Parse(data);
            if p.Some? && env.respond(GREETING_REPLY) == StatusOk && (p.value.0.ConnectTo? ==> env.connect.Some?)
            then
              && |t.events| >= 2 && t.events[..2] == [Responded(GREETING_REPLY), AsEvent(p.value.0)]
              && NoRequest(t.events[2..])
              && p.value.1 <= |data| && rest == data[p.value.1..]
            else NoRequest(t.events)
  {
    var r := Step(INIT, data, env);
    if r.ok {
      var n: nat := data[1];
      var s := State(GreetingMethods, n, []);
      assert r == Result(s, data[2..], true);
      assert RunLoop(INIT, data, env) == RunLoop(s, data[2..], env);
      FromMethods(n, data[2..], env);
      ParseByParts(data);
      if |data| >= 2 + n {
        Seqs.DropDrop(data, 2 + n, if HeaderAsks(data[2 + n..]) then 4 + AddressLength(data[2 + n..]) else 0);
      }
      hide RunLoop, Step, Parse, HeaderAsks, HeaderRequest;
    }
  }

  /** The parts a handshake is read off in. */
  lemma ParseByParts(data: seq<Byte>)
    requires |data| >= 2 && data[0] == 5 && data[1] > 0
    ensures var n: nat, d := data[1], data[2..];
            && (n <= |d| ==> d[n..] == data[2 + n..])
            && Parse(data) == if n <= |d| && 0 in d[..n] && HeaderAsks(d[n..])
                              then Some((HeaderRequest(d[n..]), 2 + n + 4 + AddressLength(d[n..]))) else None
  {
    var n: nat := data[1];
    if |data| >= 2 + n {
      assert data[2..][..n] == data[2..2 + n] && data[2..][n..] == data[2 + n..];
    }
  }

  lemma FromMethods(n: nat, d: seq<Byte>, env: Env)
    requires 0 < n < 256
    ensures var (t, rest) := RunLoop(State(GreetingMethods, n, []), d, env);
            if |d| >= n && 0 in d[..n] && env.respond(GREETING_REPLY) == StatusOk
               && HeaderAsks(d[n..]) && (d[n..][1] == 1 ==> env.connect.Some?)
            then
              && |t.events| >= 2 && t.events[..2] == [Responded(GREETING_REPLY), AsEvent(HeaderRequest(d[n..]))]
              && NoRequest(t.events[2..])
              && rest == d[n..][4 + AddressLength(d[n..])..]
            else NoRequest(t.events)
  {
    var s := State(GreetingMethods, n, []);
    var r := Step(s, d, env);
    if r.ok {
      var replied := [Responded(GREETING_REPLY)];
      assert r == Result(State(RequestHeader, 4, replied), d[n..], true);
      assert RunLoop(s, d, env) == RunLoop(r.state, r.rest, env);
      FromHeader(d[n..], replied, env);
      var t := RunLoop(r.state, r.rest, env).0.events;
      hide RunLoop, Step, HeaderRequest;
      assert replied <= t;
      assert forall i :: 1 <= i < |t| ==> t[i] == t[1..][i - 1];
    }
  }
}
