/** The client connection's methods as the code runs them, each shown to be steps of the interleaved
    machine. */
module HttpConnection {
  import opened Basics
  import opened HttpClient

  /** What a status code is turned into: success, a known failure, or the failure for unknown codes. */
  datatype Status = Successful | Failed(code: nat) | UnknownStatus

  datatype Outcome = RetryDropped | FailDropped | FailToSend | RetryToSend | RetryClosed | Responded(status: Status)

  /** How a closed stream finishes its call: with what the status says, unless the stream was closed with
      an error and the status tells of no known failure; then the call is to be retried. */
  function OutcomeOfClose(error: nat, status: Status): (r: Outcome)
    ensures r == RetryClosed <==> error != 0 && !status.Failed?
    ensures r != RetryClosed ==> r == Responded(status)
  {
    if error == 0 then Responded(status)
    else if status != Successful && status != UnknownStatus then Responded(status)
    else RetryClosed
  }

  /** A finished call: its context and how it was finished. */
  datatype Done<C> = Done(id: nat, context: C, outcome: Outcome)

  /** The steps that try to erase a call. */
  predicate Tries(step: Step, id: nat) {
    || step == ErrorErase(id) || step == StopErase(id) || step == Closed(id)
    || step == Send(id, BadUri) || step == Send(id, UnsupportedMethod) || step == Send(id, SubmitFailed)
  }

  lemma TryFacts(s: State, step: Step, id: nat)
    requires Enabled(s, step) && Tries(step, id)
    ensures var t := Next(s, step);
            && t.ready == s.ready && t.dropped == s.dropped && t.accepted == s.accepted && t.finished == s.finished
            && t.pending == s.pending - {id} && (id in s.pending ==> id in t.won)
  {
  }

  lemma FinishFacts(s: State, id: nat)
    requires id in s.won
    ensures var t := Next(s, Finish(id));
            && t.ready == s.ready && t.dropped == s.dropped && t.accepted == s.accepted && t.pending == s.pending
            && t.finished == s.finished + [id] && t.stopping == s.stopping && t.ioPass == s.ioPass
  {
  }

  class Connection<C(==)> {
    var ready: bool
    var dropped: bool
    var accepted: nat
    var pending: map<nat, C>
    var finished: seq<Done<C>>
    ghost var machine: State

    ghost predicate Valid()
      reads this
    {
      && machine.ready == ready && machine.dropped == dropped && machine.accepted == accepted
      && machine.pending == pending.Keys
      && |machine.finished| == |finished|
      && (forall i :: 0 <= i < |finished| ==> machine.finished[i] == finished[i].id)
    }

    constructor ()
      ensures Valid() && machine == START
    {
      ready, dropped, accepted, pending, finished := false, false, 0, map[], [];
      machine := START;
    }

    /** Erases the call if it is pending; then, and only then, finishes it. */
    method EraseAndFinish(id: nat, outcome: Outcome, ghost before: State, ghost done: seq<Step>, ghost step: Step)
      returns (won: bool, ghost steps: seq<Step>)
      requires Valid() && Owned(machine) && Enabled(machine, step)
      requires Tries(step, id)
      requires IsRun(before, done) && After(before, done) == machine
      modifies this`pending, this`finished, this`machine
      ensures Valid() && Owned(machine) && IsRun(before, steps) && After(before, steps) == machine
      ensures won <==> id in old(pending)
      ensures pending == old(pending) - {id}
      ensures finished == old(finished) + if won then [Done(id, old(pending)[id], outcome)] else []
      ensures machine.stopping == Next(old(machine), step).stopping && machine.ioPass == Next(old(machine), step).ioPass
    {
      TryFacts(machine, step, id);
      hide IsRun, After, Owned, Next, Tries, Enabled;
      RunExtends(before, done, step);
      OwnedKept(machine, step);
      machine, steps := Next(machine, step), done + [step];
      won := id in pending;
      if won {
        var context := pending[id];
        pending := pending - {id};
        steps := FinishWon(id, context, outcome, before, steps);
      }
    }

    method FinishWon(id: nat, context: C, outcome: Outcome, ghost before: State, ghost done: seq<Step>) returns (ghost steps: seq<Step>)
      requires Valid() && Owned(machine) && id in machine.won
      requires IsRun(before, done) && After(before, done) == machine
      modifies this`finished, this`machine
      ensures Valid() && Owned(machine) && IsRun(before, steps) && After(before, steps) == machine
      ensures finished == old(finished) + [Done(id, context, outcome)]
      ensures machine.stopping == old(machine).stopping && machine.ioPass == old(machine).ioPass
    {
      FinishFacts(machine, id);
      hide IsRun, After, Owned, Next;
      RunExtends(before, done, Finish(id));
      OwnedKept(machine, Finish(id));
      finished := finished + [Done(id, context, outcome)];
      machine, steps := Next(machine, Finish(id)), done + [Finish(id)];
    }

    /** Enters the call, if the connection is ready. */
    method Execute(context: C) returns (ok: bool, ghost steps: seq<Step>)
      requires Valid() && Owned(machine)
      modifies this
      ensures Valid() && Owned(machine) && IsRun(old(machine), steps) && After(old(machine), steps) == machine
      ensures ok == old(ready) && finished == old(finished)
      ensures pending == if ok then old(pending)[old(accepted) := context] else old(pending)
      ensures ok ==> old(accepted) !in old(pending) && old(accepted) in machine.posted
    {
      assert IsRun(machine, []) && After(machine, []) == machine;
      assert accepted !in pending by {
        assert Places(machine, accepted) == 0;
      }
      ghost var before := machine;
      hide IsRun, After, Owned;
      RunExtends(before, [], Check);
      OwnedKept(machine, Check);
      machine, steps := Next(machine, Check), [] + [Check];
      ok := ready;
      if !ok {
        return;
      }
      var id := accepted;
      RunExtends(before, steps, Enter);
      OwnedKept(machine, Enter);
      machine, steps := Next(machine, Enter), steps + [Enter];
      pending := pending[id := context];
      accepted := accepted + 1;
      RunExtends(before, steps, Post(id));
      OwnedKept(machine, Post(id));
      machine, steps := Next(machine, Post(id)), steps + [Post(id)];
    }

    /** Sends a posted call.  If it cannot be sent it is finished at once, unless it already has been. */
    method SendHttpRequest(id: nat, result: Sent) returns (ghost steps: seq<Step>)
      requires Valid() && Owned(machine) && Enabled(machine, Send(id, result))
      modifies this
      ensures Valid() && Owned(machine) && IsRun(old(machine), steps) && After(old(machine), steps) == machine
      ensures result.Submitted? ==> pending == old(pending) && finished == old(finished) && Enabled(machine, Closed(id))
      ensures !result.Submitted? ==>
                && pending == old(pending) - {id}
                && (if id !in old(pending) then finished == old(finished)
                    else finished == old(finished) + [Done(id, old(pending)[id], if result.SubmitFailed? then RetryToSend else FailToSend)])
    {
      assert IsRun(machine, []) && After(machine, []) == machine;
      hide IsRun, After, Owned;
      if result.Submitted? {
        RunExtends(machine, [], Send(id, result));
        OwnedKept(machine, Send(id, result));
        machine, steps := Next(machine, Send(id, result)), [] + [Send(id, result)];
      } else {
        var won;
        won, steps := EraseAndFinish(id, if result.SubmitFailed? then RetryToSend else FailToSend, machine, [], Send(id, result));
      }
    }

    /** The stream of a call is closed: finishes the call, unless it already has been. */
    method OnRequestResponseClosed(id: nat, error: nat, status: Status) returns (ghost steps: seq<Step>)
      requires Valid() && Owned(machine) && Enabled(machine, Closed(id))
      modifies this
      ensures Valid() && Owned(machine) && IsRun(old(machine), steps) && After(old(machine), steps) == machine
      ensures pending == old(pending) - {id}
      ensures if id !in old(pending) then finished == old(finished)
              else finished == old(finished) + [Done(id, old(pending)[id], OutcomeOfClose(error, status))]
    {
      assert IsRun(machine, []) && After(machine, []) == machine;
      var won;
      won, steps := EraseAndFinish(id, OutcomeOfClose(error, status), machine, [], Closed(id));
    }

    /** Finishes every call that is pending: to be retried if the connection was dropped. */
    method CancelPendingCallbacks(ghost before: State, ghost done: seq<Step>, ghost stopping: bool) returns (ghost steps: seq<Step>)
      requires Valid() && Owned(machine) && IsRun(before, done) && After(before, done) == machine
      requires if stopping then machine.stopping == Cancelling(machine.pending, machine.accepted)
               else IoRuns(machine) && machine.ioPass == Some(machine.pending)
      modifies this`pending, this`finished, this`machine
      ensures Valid() && Owned(machine) && IsRun(before, steps) && After(before, steps) == machine
      ensures pending == map[]
      ensures old(finished) <= finished && |finished| == |old(finished)| + |old(pending)|
      ensures forall d <- finished[|old(finished)|..] ::
                d.id in old(pending) && d.context == old(pending)[d.id] && d.outcome == if dropped then RetryDropped else FailDropped
    {
      steps := done;
      var keys := pending.Keys;
      hide IsRun, After, Owned;
      while keys != {}
        invariant Valid() && Owned(machine) && IsRun(before, steps) && After(before, steps) == machine
        invariant pending.Keys == keys && keys <= old(pending).Keys && forall k <- keys :: pending[k] == old(pending)[k]
        invariant if stopping then machine.stopping.Cancelling? && machine.stopping.keys == keys
                  else IoRuns(machine) && machine.ioPass == Some(keys)
        invariant old(finished) <= finished && |finished| + |keys| == |old(finished)| + |old(pending)|
        invariant forall d <- finished[|old(finished)|..] ::
                    d.id in old(pending) && d.context == old(pending)[d.id] && d.outcome == if dropped then RetryDropped else FailDropped
        decreases |keys|
      {
        var key :| key in keys;
        var won;
        won, steps := EraseAndFinish(key, if dropped then RetryDropped else FailDropped, before, steps,
                                     if stopping then StopErase(key) else ErrorErase(key));
        keys := keys - {key};
      }
    }
  }
}
