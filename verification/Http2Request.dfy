/** The request body buffer and the pending callback as the code runs them. */
module Http2Request {
  import opened Basics
  import opened Http2Join

  class RequestBody {
    const bytes: array<Byte>
    var length: nat

    ghost predicate Valid()
      reads this
    {
      length <= bytes.Length
    }

    ghost function Contents(): seq<Byte>
      requires Valid()
      reads this, bytes
    {
      bytes[..length]
    }

    /** Room for the announced number of bytes. */
    constructor (contentLength: nat)
      ensures Valid() && bytes.Length == contentLength && Contents() == [] && fresh(bytes)
    {
      bytes := new Byte[contentLength](_ => 0);
      length := 0;
    }

    /** Takes one piece of the body; the empty piece is the end of the data.  The answer is what the
        callback is called with, if it is called. */
    method OnRequestBodyDataChunkReceived(data: seq<Byte>) returns (callback: Option<bool>)
      requires Valid()
      modifies this`length, bytes
      ensures Valid()
      ensures data == [] ==> callback == Some(length == bytes.Length)
      ensures data != [] && Fits(bytes.Length, old(Contents()), data) ==>
                callback == None && Contents() == old(Contents()) + data
      ensures data != [] && !Fits(bytes.Length, old(Contents()), data) ==> callback == Some(false)
      ensures callback.Some? ==> Contents() == old(Contents())
    {
      if |data| == 0 {
        return Some(length >= bytes.Length);
      }
      if |data| > bytes.Length || length > bytes.Length - |data| {
        return Some(false);
      }
      for i := 0 to |data|
        invariant length == old(length)
        invariant bytes[..length + i] == old(Contents()) + data[..i]
      {
        bytes[length + i] := data[i];
        assert bytes[..length + i + 1] == bytes[..length + i] + [data[i]];
        assert data[..i + 1] == data[..i] + [data[i]];
      }
      assert data[..|data|] == data;
      length := length + |data|;
      return None;
    }
  }

  lemma {:induction false} RunExtends(s: State, steps: seq<Step>, step: Step)
    requires IsRun(s, steps) && Enabled(After(s, steps), step)
    ensures IsRun(s, steps + [step]) && After(s, steps + [step]) == Next(After(s, steps), step)
    decreases |steps|
  {
    var longer := steps + [step];
    if steps == [] {
      assert longer[1..] == [];
      assert IsRun(Next(s, step), longer[1..]);
    } else {
      assert longer[1..] == steps[1..] + [step];
      RunExtends(Next(s, steps[0]), steps[1..], step);
    }
  }

  /** What one invocation of the pending callback does to the outside. */
  datatype Effect = Nothing | SentFailure | CalledHandler(accepted: bool)

  // ---- The stages of one invocation -------------------------------------------------------------

  /** Nothing but the failure flag and the number of failures has changed. */
  predicate OnlyMarked(s: State, t: State, ok: bool) {
    && t.active == s.active && t.pending == s.pending && t.input.body == s.input.body
    && t.handled == s.handled && t.handlerFailures == s.handlerFailures
    && t.failed == (s.failed || !ok) && t.failures == s.failures + Count(!ok && !s.failed)
  }

  lemma LookGoes(s: State, ok: bool, accepts: bool, who: Who)
    requires ThreadOf(s, who) == Looking(ok)
    ensures AfterGo(s, who, accepts) == WithThread(s, who, if s.active then Marking(ok) else Idle)
  {
  }

  lemma MarkGoes(s: State, ok: bool, who: Who)
    requires ThreadOf(s, who) == Marking(ok)
    ensures var t := AfterGo(s, who, true);
            if !ok && !s.failed
            then !ThreadOf(t, who).Idle? && ThreadOf(AfterGo(t, who, true), who) == Counting(ok)
                 && OnlyMarked(s, AfterGo(t, who, true), ok)
            else ThreadOf(t, who) == Counting(ok) && OnlyMarked(s, t, ok)
  {
  }

  lemma CountGoes(s: State, ok: bool, accepts: bool, who: Who)
    requires ThreadOf(s, who) == Counting(ok)
    ensures var t := AfterGo(s, who, accepts);
            var u := AfterGo(t, who, accepts);
            && !ThreadOf(t, who).Idle? && ThreadOf(u, who).Idle?
            && u.active == s.active && u.failed == s.failed && u.failures == s.failures
            && u.pending == Decrement(s.pending)
            && u.handled == s.handled + (if s.pending == 1 && !s.failed then [s.input.body] else [])
            && u.handlerFailures == s.handlerFailures + Count(s.pending == 1 && !s.failed && !accepts)
  {
  }

  class SyncContext {
    /** Still among the active requests. */
    var active: bool
    var pending: nat
    var failed: bool
    ghost var machine: State

    ghost predicate Valid()
      reads this
    {
      machine.active == active && machine.pending == pending && machine.failed == failed
    }

    constructor (capacity: nat)
      ensures Valid() && machine == Start(capacity)
    {
      active, pending, failed := true, 2, false;
      machine := Start(capacity);
    }

    ghost method Move(who: Who, accepted: bool, before: State, done: seq<Step>) returns (steps: seq<Step>)
      requires IsRun(before, done) && After(before, done) == machine && !ThreadOf(machine, who).Idle?
      modifies this`machine
      ensures machine == AfterGo(old(machine), who, accepted)
      ensures IsRun(before, steps) && After(before, steps) == machine
    {
      RunExtends(before, done, Go(who, accepted));
      steps := done + [Go(who, accepted)];
      machine := AfterGo(machine, who, accepted);
    }

    /** The thread sets the failure flag if it has failed, and answers if it was the first to. */
    method Mark(ok: bool, ghost who: Who, ghost before: State, ghost done: seq<Step>) returns (sent: bool, ghost steps: seq<Step>)
      requires Valid() && ThreadOf(machine, who) == Marking(ok)
      requires IsRun(before, done) && After(before, done) == machine
      modifies this`failed, this`machine
      ensures Valid() && IsRun(before, steps) && After(before, steps) == machine
      ensures ThreadOf(machine, who) == Counting(ok) && OnlyMarked(old(machine), machine, ok)
      ensures sent <==> !ok && !old(failed)
    {
      hide IsRun, After, AfterGo;
      MarkGoes(machine, ok, who);
      sent := !ok && !failed;
      steps := Move(who, true, before, done);
      if sent {
        failed := true;
        steps := Move(who, true, before, steps);
      }
    }

    /** The thread counts itself and, if it is the last and nothing has failed, calls the handler. */
    method CountDown(ok: bool, accepts: bool, ghost who: Who, ghost before: State, ghost done: seq<Step>)
      returns (called: bool, ghost steps: seq<Step>)
      requires Valid() && ThreadOf(machine, who) == Counting(ok)
      requires IsRun(before, done) && After(before, done) == machine
      modifies this`pending, this`machine
      ensures Valid() && IsRun(before, steps) && After(before, steps) == machine
      ensures ThreadOf(machine, who).Idle? && machine.failures == old(machine).failures
      ensures called <==> old(pending) == 1 && !failed
      ensures machine.handled == old(machine).handled + if called then [old(machine).input.body] else []
      ensures machine.handlerFailures == old(machine).handlerFailures + Count(called && !accepts)
    {
      hide IsRun, After, AfterGo;
      CountGoes(machine, ok, accepts, who);
      var was := pending;
      pending := Decrement(pending);
      steps := Move(who, accepts, before, done);
      called := was == 1 && !failed;
      steps := Move(who, accepts, before, steps);
    }

    /** One invocation, from finding the request to the last access: the steps the thread takes in the
        machine, and their effect. */
    method OnHttp2PendingCallback(ok: bool, accepts: bool, ghost who: Who) returns (effect: Effect, ghost steps: seq<Step>)
      requires Valid() && ThreadOf(machine, who) == Looking(ok)
      modifies this
      ensures Valid() && ThreadOf(machine, who).Idle?
      ensures IsRun(old(machine), steps) && After(old(machine), steps) == machine
      ensures machine.failures == old(machine.failures) + Count(effect.SentFailure?)
      ensures machine.handled == old(machine.handled) + if effect.CalledHandler? then [old(machine.input.body)] else []
      ensures machine.handlerFailures == old(machine.handlerFailures) + Count(effect == CalledHandler(false))
    {
      assert IsRun(machine, []) && After(machine, []) == machine;
      hide IsRun, After, AfterGo;
      LookGoes(machine, ok, accepts, who);
      effect := Nothing;
      steps := Move(who, accepts, machine, []);
      if !active {
        return;
      }
      var sent, called;
      sent, steps := Mark(ok, who, old(machine), steps);
      called, steps := CountDown(ok, accepts, who, old(machine), steps);
      effect := if sent then SentFailure else if called then CalledHandler(accepts) else Nothing;
    }
  }
}
