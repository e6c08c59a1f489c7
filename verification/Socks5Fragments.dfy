/** The handshake does not depend on how the client's bytes are cut into reads. */
module Socks5Fragments {
  import opened Basics
  import opened Socks5
  import Seqs

  /** How a connection stands once it stops reading: the machine, the bytes it has buffered and the
      bytes still in the socket. */
  datatype Outcome = Outcome(state: State, buffered: seq<Byte>, unread: seq<Byte>)

  /** Reads chunk after chunk for as long as the handler asks for more. */
  function Drive(s: State, buffered: seq<Byte>, chunks: seq<seq<Byte>>, env: Env): Outcome
    requires Sane(s)
    decreases |chunks|
  {
    if chunks == [] || !WantsMore(s, buffered) then Outcome(s, buffered, Seqs.Flatten(chunks))
    else
      var (t, rest) := RunLoop(s, buffered + chunks[0], env);
      Drive(t, rest, chunks[1..], env)
  }

  /** A failed machine's byte count no longer means anything. */
  function Normal(s: State): State { if s.phase == Fail then s.(required := 0) else s }

  /** What can be seen of an outcome: phase, count, callback calls, and the bytes not consumed. */
  function Observed(o: Outcome): (State, seq<Byte>) { (Normal(o.state), o.buffered + o.unread) }

  /** More bytes behind those a step needs do not change the step. */
  lemma StepAppend(s: State, data: seq<Byte>, more: seq<Byte>, env: Env)
    requires Sane(s) && |data| >= s.required
    ensures var r, q := Step(s, data, env), Step(s, data + more, env);
            q.state == r.state && q.ok == r.ok && q.rest == r.rest + more
  {
    hide Step;
    if s.phase in {RequestAddrV4, RequestAddrV6, RequestBind} {
      AddressAppend(s, data, more, env);
    } else if s.phase in {GreetingHeader, RequestHeader} {
      HeaderAppend(s, data, more, env);
    } else if s.phase == GreetingMethods {
      MethodsAppend(s, data, more, env);
    } else {
      IdleAppend(s, data, more, env);
    }
  }

  lemma HeaderAppend(s: State, data: seq<Byte>, more: seq<Byte>, env: Env)
    requires Sane(s) && |data| >= s.required && s.phase in {GreetingHeader, RequestHeader}
    ensures var r, q := Step(s, data, env), Step(s, data + more, env);
            q.state == r.state && q.ok == r.ok && q.rest == r.rest + more
  {
    hide StepConnect, StepBind, StepResponse, StepMethods;
    FrontKept(data, more, s.required);
  }

  lemma MethodsAppend(s: State, data: seq<Byte>, more: seq<Byte>, env: Env)
    requires Sane(s) && |data| >= s.required && s.phase == GreetingMethods
    ensures var r, q := Step(s, data, env), Step(s, data + more, env);
            q.state == r.state && q.ok == r.ok && q.rest == r.rest + more
  {
    hide StepConnect, StepBind, StepResponse, StepGreeting, StepRequest;
    FrontKept(data, more, s.required);
  }

  lemma IdleAppend(s: State, data: seq<Byte>, more: seq<Byte>, env: Env)
    requires Sane(s) && |data| >= s.required && s.phase in {WaitConnect, WaitAccept, Response, Success, Fail}
    ensures var r, q := Step(s, data, env), Step(s, data + more, env);
            q.state == r.state && q.ok == r.ok && q.rest == r.rest + more
  {
    hide StepConnect, StepBind, StepMethods, StepGreeting, StepRequest, CreateResp;
  }

  lemma FrontKept(data: seq<Byte>, more: seq<Byte>, k: nat)
    requires k <= |data|
    ensures (data + more)[..k] == data[..k] && (data + more)[k..] == data[k..] + more
  {
    Seqs.FrontPart(data, more, 0, k);
    assert (data + more)[..k] == (data + more)[0..k] && data[..k] == data[0..k];
  }

  lemma AddressAppend(s: State, data: seq<Byte>, more: seq<Byte>, env: Env)
    requires Sane(s) && |data| >= s.required && s.phase in {RequestAddrV4, RequestAddrV6, RequestBind}
    ensures var r, q := Step(s, data, env), Step(s, data + more, env);
            q.state == r.state && q.ok == r.ok && q.rest == r.rest + more
  {
    hide StepGreeting, StepMethods, StepRequest, StepResponse;
    FrontKept(data, more, s.required);
    FrontKept(data, more, s.required - 2);
    Seqs.FrontPart(data, more, s.required - 2, s.required);
  }

  /** A machine that has run as far as it can: nothing changes until more bytes come. */
  predicate Resting(s: State, data: seq<Byte>) {
    s.phase in {WaitConnect, WaitAccept, Success, Fail} || |data| < s.required
  }

  lemma {:induction false} RunLoopRests(s: State, data: seq<Byte>, env: Env)
    requires Sane(s)
    ensures Resting(RunLoop(s, data, env).0, RunLoop(s, data, env).1)
    decreases 6 - Rank(s.phase)
  {
    if s.phase != Success && Step(s, data, env).ok {
      RunLoopRests(Step(s, data, env).state, Step(s, data, env).rest, env);
    }
  }

  /** Running a resting machine again changes nothing that can be seen. */
  lemma RestingStays(s: State, data: seq<Byte>, env: Env)
    requires Sane(s) && Resting(s, data)
    ensures Normal(RunLoop(s, data, env).0) == Normal(s) && RunLoop(s, data, env).1 == data
  {
  }

  /** Running on a first part and then on the rest ends where running on everything does. */
  lemma {:induction false} RunLoopAppend(s: State, data: seq<Byte>, more: seq<Byte>, env: Env)
    requires Sane(s)
    ensures var (t, rest) := RunLoop(s, data, env);
            var (u, left) := RunLoop(s, data + more, env);
            var (v, left') := RunLoop(t, rest + more, env);
            Normal(u) == Normal(v) && left == left'
    decreases 6 - Rank(s.phase)
  {
    if s.phase != Success && |data| >= s.required {
      StepAppend(s, data, more, env);
      var r := Step(s, data, env);
      if !r.ok { StepStops(s, data, env); }
      hide Step;
      if r.ok {
        RunLoopAppend(r.state, r.rest, more, env);
      } else {
        RestingStays(r.state, r.rest + more, env);
      }
    } else if s.phase != Success {
      assert Step(s, data, env) == Result(s, data, false);
      hide Step;
    }
  }

  /** With enough bytes a step stops only to wait for the outside or because it failed. */
  lemma StepStops(s: State, data: seq<Byte>, env: Env)
    requires Sane(s) && s.phase != Success && |data| >= s.required && !Step(s, data, env).ok
    ensures Step(s, data, env).state.phase in {WaitConnect, WaitAccept, Fail}
  {
  }

  /** However the bytes arrive, the outcome is that of running once on all of them. */
  lemma {:induction false} DriveIsOneRun(s: State, buffered: seq<Byte>, chunks: seq<seq<Byte>>, env: Env)
    requires Sane(s) && Resting(s, buffered)
    ensures var (t, rest) := RunLoop(s, buffered + Seqs.Flatten(chunks), env);
            Observed(Drive(s, buffered, chunks, env)) == (Normal(t), rest)
    decreases |chunks|
  {
    if chunks == [] || !WantsMore(s, buffered) {
      RestingStays(s, buffered + Seqs.Flatten(chunks), env);
    } else {
      var (t, rest) := RunLoop(s, buffered + chunks[0], env);
      RunLoopRests(s, buffered + chunks[0], env);
      DriveIsOneRun(t, rest, chunks[1..], env);
      RunLoopAppend(s, buffered + chunks[0], Seqs.Flatten(chunks[1..]), env);
      Seqs.Assoc(buffered, chunks[0], Seqs.Flatten(chunks[1..]));
    }
  }

  /** Two ways of cutting the same bytes give the same phase, the same callback calls in the same
      order, and the same bytes left for what follows the handshake. */
  lemma FragmentationDoesNotMatter(chunks: seq<seq<Byte>>, chunks': seq<seq<Byte>>, env: Env)
    requires Seqs.Flatten(chunks) == Seqs.Flatten(chunks')
    ensures Observed(Drive(INIT, [], chunks, env)) == Observed(Drive(INIT, [], chunks', env))
  {
    DriveIsOneRun(INIT, [], chunks, env);
    DriveIsOneRun(INIT, [], chunks', env);
  }
}
