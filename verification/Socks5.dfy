/** The server side of the SOCKS5 handshake (sections 3 to 6 of RFC 1928): an incremental parser that
    consumes client bytes from a queue and talks to the outside through callbacks. */
module Socks5 {
  import opened Basics

  datatype Phase =
    | GreetingHeader
    | GreetingMethods
    | RequestHeader
    | RequestAddrV4
    | RequestAddrV6
    | RequestBind
    | WaitConnect
    | WaitAccept
    | Response
    | Success
    | Fail

  /** Address and port bytes are in network order; other families have no encoding. */
  datatype Address = V4(addr: seq<Byte>, port: seq<Byte>) | V6(addr: seq<Byte>, port: seq<Byte>) | OtherFamily
  {
    predicate Valid() {
      match this
      case V4(a, p) => |a| == 4 && |p| == 2
      case V6(a, p) => |a| == 16 && |p| == 2
      case OtherFamily => true
    }
  }

  datatype Status = StatusOk | StatusInProgress | StatusFail

  /** A call made to the outside. */
  datatype Event = Responded(bytes: seq<Byte>) | AskedConnect(to: Address) | AskedBind(port: nat)

  /** What the callbacks answer.  Each is asked at most once with given arguments, so functions of the
      arguments cover every behaviour. */
  datatype Env = Env(
    respond: seq<Byte> -> Status,
    connect: Option<Address -> Status>,
    bind: nat -> (Status, nat),
    destAddress: bool -> Option<Address>)

  datatype State = State(phase: Phase, required: nat, events: seq<Event>)

  const INIT := State(GreetingHeader, 2, [])

  const GREETING_REPLY: seq<Byte> := [5, 0]

  /** The type byte, address and port of an IPv4 or IPv6 address. */
  function FillAddrPort(a: Address): (r: seq<Byte>)
    ensures a.Valid() ==> |r| == if a.V4? then 7 else if a.V6? then 19 else 0
  {
    match a
    case V4(addr, port) => [1] + addr + port
    case V6(addr, port) => [4] + addr + port
    case OtherFamily => []
  }

  /** The final reply: the bound address on success, a general failure otherwise. */
  function CreateResp(env: Env, isBind: bool): seq<Byte> {
    match env.destAddress(isBind)
    case Some(a) => [5, 0, 0] + FillAddrPort(a)
    case None => [5, 1, 0, 1, 0, 0, 0, 0, 0, 0]
  }

  function PortOf(bytes: seq<Byte>): nat
    requires |bytes| == 2
  {
    var high: int, low: int := bytes[0], bytes[1];
    high * 256 + low
  }

  function PortBytes(port: nat): (r: seq<Byte>)
    ensures |r| == 2
  {
    [port / 256 % 256, port % 256]
  }

  function BindReply(port: nat): (r: seq<Byte>)
    ensures |r| == 10
  {
    [5, 0, 0, 1, 0, 0, 0, 0] + PortBytes(port)
  }

  // ---- One step --------------------------------------------------------------------------

  /** The state after a step, the bytes not consumed, and whether to go on. */
  datatype Result = Result(state: State, rest: seq<Byte>, ok: bool)

  function Failed(s: State, rest: seq<Byte>): Result { Result(s.(phase := Fail), rest, false) }

  function StepGreeting(s: State, data: seq<Byte>): Result
    requires |data| >= 2
  {
    if data[0] != 5 || data[1] == 0 then Failed(s, data[2..])
    else Result(s.(phase := GreetingMethods, required := data[1]), data[2..], true)
  }

  function StepMethods(s: State, data: seq<Byte>, env: Env): Result
    requires |data| >= s.required
  {
    var rest := data[s.required..];
    if 0 !in data[..s.required] then Failed(s, rest)
    else
      var t := s.(events := s.events + [Responded(GREETING_REPLY)]);
      if env.respond(GREETING_REPLY) != StatusOk then Failed(t, rest)
      else Result(t.(phase := RequestHeader, required := 4), rest, true)
  }

  function StepRequest(s: State, data: seq<Byte>): Result
    requires |data| >= 4
  {
    var rest := data[4..];
    if data[0] != 5 || data[2] != 0 then Failed(s, rest)
    else if data[1] == 1 then
      if data[3] == 1 then Result(s.(phase := RequestAddrV4, required := 6), rest, true)
      else if data[3] == 4 then Result(s.(phase := RequestAddrV6, required := 18), rest, true)
      else Failed(s, rest)
    else if data[1] == 2 then
      if data[3] == 1 then Result(s.(phase := RequestBind, required := 6), rest, true)
      else if data[3] == 4 then Result(s.(phase := RequestBind, required := 18), rest, true)
      else Failed(s, rest)
    else Failed(s, rest)
  }

  function StepConnect(s: State, a: Address, rest: seq<Byte>, env: Env): Result {
    var t := s.(required := 0);
    match env.connect
    case None => Result(t.(phase := WaitConnect), rest, true)
    case Some(connect) =>
      var u := t.(events := s.events + [AskedConnect(a)]);
      match connect(a)
      case StatusOk => Result(u.(phase := Response), rest, true)
      case StatusInProgress => Result(u.(phase := WaitConnect), rest, false)
      case StatusFail => Failed(u, rest)
  }

  function StepBind(s: State, data: seq<Byte>, env: Env): Result
    requires 2 <= s.required <= |data|
  {
    var rest := data[s.required..];
    var port := PortOf(data[s.required - 2..s.required]);
    var t := s.(required := 0, events := s.events + [AskedBind(port)]);
    var (status, bound) := env.bind(port);
    if status == StatusFail then Failed(t, rest)
    else
      var u := t.(events := t.events + [Responded(BindReply(bound))]);
      if env.respond(BindReply(bound)) == StatusFail then Failed(u, rest)
      else Result(u.(phase := WaitAccept), rest, false)
  }

  function StepResponse(s: State, rest: seq<Byte>, env: Env): Result {
    var t := s.(events := s.events + [Responded(CreateResp(env, false))]);
    if env.respond(CreateResp(env, false)) != StatusOk then Failed(t, rest)
    else Result(t.(phase := Success, required := 1), rest, true)
  }

  /** The byte counts each phase relies on. */
  predicate Sane(s: State) {
    match s.phase
    case GreetingHeader => s.required == 2
    case GreetingMethods => 0 < s.required < 256
    case RequestHeader => s.required == 4
    case RequestAddrV4 => s.required == 6
    case RequestAddrV6 => s.required == 18
    case RequestBind => s.required == 6 || s.required == 18
    case WaitConnect => s.required == 0
    case WaitAccept => s.required == 0
    case Response => s.required == 0
    case Success => s.required <= 1
    case Fail => true
  }

  function Step(s: State, data: seq<Byte>, env: Env): (r: Result)
    requires Sane(s)
    ensures Sane(r.state)
    ensures r.ok ==> Rank(r.state.phase) > Rank(s.phase)
  {
    if |data| < s.required then Result(s, data, false)
    else
      match s.phase
      case GreetingHeader => StepGreeting(s, data)
      case GreetingMethods => StepMethods(s, data, env)
      case RequestHeader => StepRequest(s, data)
      case RequestAddrV4 => StepConnect(s, V4(data[..4], data[4..6]), data[6..], env)
      case RequestAddrV6 => StepConnect(s, V6(data[..16], data[16..18]), data[18..], env)
      case RequestBind => StepBind(s, data, env)
      case WaitConnect => Result(s, data, false)
      case WaitAccept => Result(s, data, false)
      case Response => StepResponse(s, data, env)
      case Success => Result(s, data, false)
      case Fail => Result(s.(required := 0), data, false)
  }

  function Rank(p: Phase): nat {
    match p
    case GreetingHeader => 0
    case GreetingMethods => 1
    case RequestHeader => 2
    case RequestAddrV4 => 3
    case RequestAddrV6 => 3
    case RequestBind => 3
    case WaitConnect => 5
    case WaitAccept => 5
    case Response => 4
    case Success => 6
    case Fail => 6
  }

  // ---- The drive loop --------------------------------------------------------------------

  /** Steps until the handshake succeeds or cannot go on. */
  function RunLoop(s: State, data: seq<Byte>, env: Env): (r: (State, seq<Byte>))
    requires Sane(s)
    ensures Sane(r.0)
    decreases 6 - Rank(s.phase)
  {
    if s.phase == Success then (s, data)
    else
      var r := Step(s, data, env);
      if r.ok then RunLoop(r.state, r.rest, env) else (r.state, r.rest)
  }

  // ---- The connection asked for -------------------------------------------------------------

  predicate Waiting(p: Phase) { p == WaitConnect || p == WaitAccept }

  /** The state once the connection asked for is up, what is reported, and whether the final reply could
      be sent. */
  datatype Conclusion = Conclusion(state: State, ok: bool, sent: bool)

  function Conclude(s: State, env: Env): Conclusion {
    if !Waiting(s.phase) then Conclusion(s.(phase := Fail), false, false)
    else
      var resp := CreateResp(env, s.phase == WaitAccept);
      Conclusion(s.(phase := Success, events := s.events + [Responded(resp)]), true, env.respond(resp) == StatusOk)
  }

  /** Success is reported although the final reply was not sent exactly when the handshake was waiting
      and the sending of that reply fails. */
  lemma UnsentSuccessIff(s: State, env: Env)
    ensures Conclude(s, env).ok && !Conclude(s, env).sent
            <==> Waiting(s.phase) && env.respond(CreateResp(env, s.phase == WaitAccept)) != StatusOk
    ensures Conclude(s, env).state.phase == Success <==> Waiting(s.phase)
  {
  }

  /** The handler asks for more bytes. */
  predicate WantsMore(s: State, data: seq<Byte>) { |data| < s.required }

  class Socks5State {
    const env: Env
    var phase: Phase
    var required: nat
    var events: seq<Event>

    ghost function Abs(): State
      reads this
    {
      State(phase, required, events)
    }

    constructor (env: Env)
      ensures Abs() == INIT && this.env == env
    {
      this.env := env;
      phase, required, events := GreetingHeader, 2, [];
    }

    /** One transition; true if it was made without failure. */
    method Proceed(data: seq<Byte>) returns (rest: seq<Byte>, ok: bool)
      requires Sane(Abs())
      modifies this
      ensures Result(Abs(), rest, ok) == Step(old(Abs()), data, env)
    {
      rest, ok := data, false;
      if |data| < required {
        return;
      }
      match phase {
        case GreetingHeader =>
          rest := data[2..];
          if data[0] != 5 || data[1] == 0 {
            phase := Fail;
          } else {
            required := data[1];
            phase := GreetingMethods;
          }
        case GreetingMethods =>
          var methods := data[..required];
          rest := data[required..];
          if 0 !in methods {
            phase := Fail;
          } else {
            var status := Respond(GREETING_REPLY);
            if status != StatusOk {
              phase := Fail;
            } else {
              phase, required := RequestHeader, 4;
            }
          }
        case RequestHeader =>
          rest := data[4..];
          if data[0] != 5 || data[2] != 0 {
            phase := Fail;
          } else if data[1] == 1 {
            if data[3] == 1 {
              phase, required := RequestAddrV4, 6;
            } else if data[3] == 4 {
              phase, required := RequestAddrV6, 18;
            } else {
              phase := Fail;
            }
          } else if data[1] == 2 && (data[3] == 1 || data[3] == 4) {
            required := if data[3] == 1 then 6 else 18;
            phase := RequestBind;
          } else {
            phase := Fail;
          }
        case RequestAddrV4 =>
          rest := data[6..];
          var goOn := Connect(V4(data[..4], data[4..6]));
          return rest, goOn;
        case RequestAddrV6 =>
          rest := data[18..];
          var goOn := Connect(V6(data[..16], data[16..18]));
          return rest, goOn;
        case RequestBind =>
          rest := data[required..];
          var port := PortOf(data[required - 2..required]);
          required := 0;
          events := events + [AskedBind(port)];
          var (status, bound) := env.bind(port);
          if status == StatusFail {
            phase := Fail;
            return;
          }
          var replied := Respond(BindReply(bound));
          phase := if replied == StatusFail then Fail else WaitAccept;
          return;
        case Response =>
          var status := Respond(CreateResp(env, false));
          if status != StatusOk {
            phase := Fail;
          } else {
            phase, required := Success, 1;
          }
        case Fail =>
          required := 0;
          return;
        case _ =>
          return;
      }
      ok := phase != Fail;
    }

    method Respond(bytes: seq<Byte>) returns (status: Status)
      modifies this`events
      ensures events == old(events) + [Responded(bytes)] && status == env.respond(bytes)
    {
      events := events + [Responded(bytes)];
      status := env.respond(bytes);
    }

    method Connect(a: Address) returns (goOn: bool)
      modifies this
      ensures Result(Abs(), [], goOn) == StepConnect(old(Abs()), a, [], env)
    {
      required := 0;
      if env.connect.None? {
        phase := WaitConnect;
        return true;
      }
      events := events + [AskedConnect(a)];
      match env.connect.value(a) {
        case StatusOk => phase := Response; return true;
        case StatusInProgress => phase := WaitConnect; return false;
        case StatusFail => phase := Fail; return false;
      }
    }

    /** The connection asked for is up: sends the final reply.  The outcome of sending it is lost. */
    method ConnectionSucceed() returns (ok: bool, ghost sent: bool)
      modifies this
      ensures Conclusion(Abs(), ok, sent) == Conclude(old(Abs()), env)
    {
      sent := false;
      var resp: seq<Byte>;
      if phase == WaitConnect {
        resp := CreateResp(env, false);
      } else if phase == WaitAccept {
        resp := CreateResp(env, true);
      } else {
        phase := Fail;
        return false, false;
      }
      var status := Respond(resp);
      sent := status == StatusOk;
      if status != StatusOk {
        phase := Fail;
      }
      phase := Success;
      ok := phase == Success;
    }

    /** The handler of one read: runs the machine on everything received so far. */
    method Handle(buffered: seq<Byte>, received: seq<Byte>) returns (rest: seq<Byte>, more: bool)
      requires Sane(Abs())
      modifies this
      ensures (Abs(), rest) == RunLoop(old(Abs()), buffered + received, env)
      ensures more == WantsMore(Abs(), rest)
    {
      rest := buffered + received;
      var going := true;
      while phase != Success && going
        invariant Sane(Abs())
        invariant RunLoop(old(Abs()), buffered + received, env)
                  == if going then RunLoop(Abs(), rest, env) else (Abs(), rest)
        decreases going, 6 - Rank(phase)
      {
        rest, going := Proceed(rest);
      }
      more := |rest| < required;
    }
  }
}
