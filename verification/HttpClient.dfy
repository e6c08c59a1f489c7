/** One HTTP/2 client connection: calls wait in a map until someone erases them, and whoever erases a
    call finishes it.  Callers, the I/O thread and the stopping thread interleave; every step below is
    one atomic access to the map, a flag or a queue. */
module HttpClient {
  import opened Basics

  /** What happens when a posted call is sent. */
  datatype Sent = UnsupportedMethod | BadUri | SubmitFailed | Submitted

  /** How far stopping has come.  `keys` are the calls its cancel pass has still to visit, `from` the
      number of calls accepted when the pass looked. */
  datatype Stopping =
    | NotStopping
    | NoLongerReady
    | Joined
    | Cancelling(keys: set<nat>, from: nat)
    | Stopped(from: nat)

  /** Calls are numbered as they are accepted.  `passed` counts callers that have seen the connection
      ready but not yet entered their call; `won` holds the calls erased but not yet finished. */
  datatype State = State(
    ready: bool,
    dropped: bool,
    passed: nat,
    accepted: nat,
    pending: set<nat>,
    unposted: set<nat>,
    posted: set<nat>,
    open: set<nat>,
    won: set<nat>,
    finished: seq<nat>,
    errors: nat,
    ioPass: Option<set<nat>>,
    stopping: Stopping)

  const START := State(false, false, 0, 0, {}, {}, {}, {}, {}, [], 0, None, NotStopping)

  datatype Step =
    | Check                        // Execute reads the ready flag
    | Enter                        // Execute inserts its call
    | Post(id: nat)                // Execute posts the sending
    | Connected                    // I/O thread: the connection is up
    | Send(id: nat, result: Sent)  // I/O thread: a posted call is sent
    | Closed(id: nat)              // I/O thread: a stream is closed
    | Error                        // the session reports an error: its handling is posted
    | HandleError                  // I/O thread: the connection is dropped, a cancel pass begins
    | ErrorErase(id: nat)          // I/O thread: the pass visits one call
    | ErrorDone                    // I/O thread: the pass is over
    | StopReady                    // Stop clears the ready flag
    | StopJoin                     // Stop has waited for the I/O thread to end
    | StopKeys                     // Stop's cancel pass begins
    | StopErase(id: nat)           // the pass visits one call
    | StopDone                     // the pass is over
    | Finish(id: nat)              // whoever erased the call finishes it

  predicate IoRuns(s: State) { s.stopping.NotStopping? || s.stopping.NoLongerReady? }

  predicate IoFree(s: State) { IoRuns(s) && s.ioPass.None? }

  predicate Enabled(s: State, step: Step) {
    match step
    case Check => true
    case Enter => s.passed > 0
    case Post(id) => id in s.unposted
    case Connected => IoFree(s)
    case Send(id, _) => IoFree(s) && id in s.posted
    case Closed(id) => IoFree(s) && id in s.open
    case Error => true
    case HandleError => IoFree(s) && s.errors > 0
    case ErrorErase(id) => IoRuns(s) && s.ioPass.Some? && id in s.ioPass.value
    case ErrorDone => IoRuns(s) && s.ioPass == Some({})
    case StopReady => s.stopping.NotStopping?
    case StopJoin => s.stopping.NoLongerReady? && s.ioPass.None?
    case StopKeys => s.stopping.Joined?
    case StopErase(id) => s.stopping.Cancelling? && id in s.stopping.keys
    case StopDone => s.stopping.Cancelling? && s.stopping.keys == {}
    case Finish(id) => id in s.won
  }

  /** Erasing succeeds for one of those who try, and that one will finish the call.  A cancel pass looks
      the call up first, to have it at hand; a failed lookup and a failed erase are both passed over. */
  function Erase(s: State, id: nat): State {
    if id in s.pending then s.(pending := s.pending - {id}, won := s.won + {id}) else s
  }

  function Next(s: State, step: Step): State
    requires Enabled(s, step)
  {
    match step
    case Check => if s.ready then s.(passed := s.passed + 1) else s
    case Enter =>
      s.(passed := s.passed - 1, accepted := s.accepted + 1,
         pending := s.pending + {s.accepted}, unposted := s.unposted + {s.accepted})
    case Post(id) => s.(unposted := s.unposted - {id}, posted := s.posted + {id})
    case Connected => s.(ready := true)
    case Send(id, result) =>
      var t := s.(posted := s.posted - {id});
      (match result
       case Submitted => t.(open := s.open + {id})
       // A failed submission posts the handling of a connection error, if it wins the erase.
       case SubmitFailed => Erase(t, id).(errors := s.errors + if id in s.pending then 1 else 0)
       case _ => Erase(t, id))
    case Closed(id) => Erase(s.(open := s.open - {id}), id)
    case Error => s.(errors := s.errors + 1)
    case HandleError => s.(errors := s.errors - 1, ready := false, dropped := true, ioPass := Some(s.pending))
    case ErrorErase(id) => Erase(s.(ioPass := Some(s.ioPass.value - {id})), id)
    case ErrorDone => s.(ioPass := None)
    case StopReady => s.(ready := false, stopping := NoLongerReady)
    case StopJoin => s.(stopping := Joined)
    case StopKeys => s.(stopping := Cancelling(s.pending, s.accepted))
    case StopErase(id) => Erase(s.(stopping := s.stopping.(keys := s.stopping.keys - {id})), id)
    case StopDone => s.(stopping := Stopped(s.stopping.from))
    case Finish(id) => s.(won := s.won - {id}, finished := s.finished + [id])
  }

  predicate IsRun(s: State, steps: seq<Step>)
    decreases |steps|
  {
    steps != [] ==> Enabled(s, steps[0]) && IsRun(Next(s, steps[0]), steps[1..])
  }

  function After(s: State, steps: seq<Step>): State
    requires IsRun(s, steps)
    decreases |steps|
  {
    if steps == [] then s else After(Next(s, steps[0]), steps[1..])
  }

  // ---- Invariants --------------------------------------------------------------------------

  function Count(b: bool): nat { if b then 1 else 0 }

  predicate NoRepeats(ids: seq<nat>) { forall i, j | 0 <= i < j < |ids| :: ids[i] != ids[j] }

  /** Every accepted call is in exactly one place. */
  ghost predicate Owned(s: State) {
    && (forall id: nat :: Places(s, id) == Count(id < s.accepted))
    && NoRepeats(s.finished)
  }

  /** What the stopping pass has not visited was accepted after it looked. */
  ghost predicate PassInv(s: State) {
    match s.stopping
    case Cancelling(keys, from) =>
      from <= s.accepted && forall id: nat | id < s.accepted :: id in s.pending ==> id in keys || from <= id
    case Stopped(from) =>
      from <= s.accepted && forall id: nat :: id in s.pending ==> from <= id < s.accepted
    case _ => true
  }

  /** Once the I/O thread is gone, only the stopping pass erases, and only what it saw. */
  ghost predicate LateInv(s: State) {
    match s.stopping
    case Cancelling(keys, from) =>
      (forall id <- keys :: id < from) && forall id: nat :: from <= id < s.accepted ==> id in s.pending
    case Stopped(from) =>
      forall id: nat :: from <= id < s.accepted ==> id in s.pending
    case _ => true
  }

  /** In how many places a call is. */
  function Places(s: State, id: nat): nat { Count(id in s.pending) + Count(id in s.won) + Count(id in s.finished) }

  lemma PlaceKept(s: State, step: Step, id: nat)
    requires Places(s, id) == Count(id < s.accepted) && Enabled(s, step)
    ensures Places(Next(s, step), id) == Count(id < Next(s, step).accepted)
  {
  }

  lemma OwnedKept(s: State, step: Step)
    requires Owned(s) && Enabled(s, step)
    ensures Owned(Next(s, step))
  {
    var t := Next(s, step);
    if step.Finish? {
      assert Places(s, step.id) == Count(step.id < s.accepted);
      assert t.finished == s.finished + [step.id];
    } else {
      assert t.finished == s.finished;
    }
    hide Next, Enabled;
    forall id: nat
      ensures Places(t, id) == Count(id < t.accepted)
    {
      assert Places(s, id) == Count(id < s.accepted);
      PlaceKept(s, step, id);
    }
  }

  lemma PendingAccepted(s: State)
    requires Owned(s)
    ensures forall id <- s.pending :: id < s.accepted
  {
    forall id | id in s.pending
      ensures id < s.accepted
    {
      assert Places(s, id) == Count(id < s.accepted);
    }
  }

  lemma PassKept(s: State, step: Step)
    requires Owned(s) && PassInv(s) && LateInv(s) && Enabled(s, step)
    ensures PassInv(Next(s, step)) && LateInv(Next(s, step))
  {
    PendingAccepted(s);
  }

  ghost predicate Inv(s: State) { Owned(s) && PassInv(s) && LateInv(s) }

  lemma {:induction false} AlwaysInv(s: State, steps: seq<Step>)
    requires Inv(s) && IsRun(s, steps)
    ensures Inv(After(s, steps))
    decreases |steps|
  {
    if steps != [] {
      OwnedKept(s, steps[0]);
      PassKept(s, steps[0]);
      hide Owned, PassInv, LateInv, Next;
      AlwaysInv(Next(s, steps[0]), steps[1..]);
    }
  }

  ghost predicate Reachable(s: State) {
    exists steps :: IsRun(START, steps) && After(START, steps) == s
  }

  lemma ReachableInv(s: State)
    requires Reachable(s)
    ensures Inv(s)
  {
    var steps :| IsRun(START, steps) && After(START, steps) == s;
    assert Inv(START);
    AlwaysInv(START, steps);
  }

  // ---- What every interleaving gives ---------------------------------------------------------

  /** Every accepted call waits in the map, or has been won by exactly one finisher, or has been
      finished; it is finished at most once, and nothing else is. */
  lemma FinishedAtMostOnce(s: State, id: nat)
    requires Reachable(s)
    ensures NoRepeats(s.finished)
    ensures Places(s, id) == Count(id < s.accepted)
  {
    ReachableInv(s);
  }

  /** When stopping is over, exactly the calls accepted since its cancel pass looked are still pending;
      so all calls have been finished exactly once if and only if there are none of those. */
  lemma StopFinishesIff(s: State)
    requires Reachable(s) && s.stopping.Stopped? && s.won == {}
    ensures forall id: nat :: id in s.pending <==> s.stopping.from <= id < s.accepted
    ensures (forall id: nat | id < s.accepted :: id in s.finished) <==> s.accepted == s.stopping.from
  {
    ReachableInv(s);
    if s.accepted > s.stopping.from {
      assert s.stopping.from in s.pending;
      assert Places(s, s.stopping.from) <= 1;
    }
    forall id: nat | id < s.stopping.from
      ensures id in s.finished
    {
      assert Places(s, id) == 1;
    }
  }

  /** The stopping pass, if it has begun, began when as many calls were accepted as now. */
  predicate NoneSince(s: State) {
    match s.stopping
    case Joined => true
    case Cancelling(_, from) => from == s.accepted
    case Stopped(from) => from == s.accepted
    case _ => false
  }

  /** With the I/O thread gone, the connection not ready and no caller between its check and its insert,
      no call is accepted any more. */
  lemma {:induction false} NothingLate(s: State, steps: seq<Step>)
    requires NoneSince(s) && !s.ready && s.passed == 0 && IsRun(s, steps)
    ensures NoneSince(After(s, steps)) && After(s, steps).accepted == s.accepted
    decreases |steps|
  {
    if steps != [] {
      NothingLate(Next(s, steps[0]), steps[1..]);
    }
  }

  /** If no caller is under way when the I/O thread has ended and the connection is not ready, then by
      the end of the cancel pass every call ever accepted has been finished exactly once. */
  lemma StopFinishesAll(s: State, steps: seq<Step>)
    requires Reachable(s) && s.stopping.Joined? && !s.ready && s.passed == 0 && IsRun(s, steps)
    requires After(s, steps).stopping.Stopped? && After(s, steps).won == {}
    ensures var t := After(s, steps);
            && NoRepeats(t.finished) && t.pending == {}
            && forall id: nat :: id in t.finished <==> id < t.accepted
  {
    ReachableInv(s);
    AlwaysInv(s, steps);
    NothingLate(s, steps);
    var t := After(s, steps);
    hide After, IsRun;
    forall id: nat
      ensures id !in t.pending && (id in t.finished <==> id < t.accepted)
    {
      assert Places(t, id) == Count(id < t.accepted);
    }
  }

  lemma {:induction false} RunExtends(s: State, steps: seq<Step>, step: Step)
    requires IsRun(s, steps) && Enabled(After(s, steps), step)
    ensures IsRun(s, steps + [step]) && After(s, steps + [step]) == Next(After(s, steps), step)
    decreases |steps|
  {
    var longer := steps + [step];
    if steps == [] {
      assert longer[1..] == [];
      assert IsRun(Next(s, step), longer[1..]);
    } else {
      assert longer[1..] == steps[1..] + [step];
      RunExtends(Next(s, steps[0]), steps[1..], step);
    }
  }

  // ---- When stopping leaves a call behind --------------------------------------------------------

  /** A run that ends stopping with a call still pending. */
  ghost predicate LeavesCall(s: State, steps: seq<Step>) {
    IsRun(s, steps) && After(s, steps).stopping.Stopped? && After(s, steps).pending != {}
  }

  /** Once stopping is over nobody erases: a call that is pending then stays so, and is never finished. */
  lemma {:induction false} PendingForever(s: State, steps: seq<Step>)
    requires s.stopping.Stopped? && IsRun(s, steps)
    ensures After(s, steps).stopping.Stopped? && s.pending <= After(s, steps).pending
    decreases |steps|
  {
    if steps != [] {
      PendingForever(Next(s, steps[0]), steps[1..]);
    }
  }

  /** The cancel pass can always be carried through. */
  lemma {:induction false} PassEnds(s: State) returns (steps: seq<Step>)
    requires s.stopping.Cancelling?
    ensures IsRun(s, steps) && After(s, steps).stopping.Stopped?
    ensures After(s, steps).ready == s.ready && After(s, steps).passed == s.passed
    decreases |s.stopping.keys|
  {
    if s.stopping.keys == {} {
      steps := [StopDone];
      assert steps[1..] == [];
      assert IsRun(Next(s, StopDone), steps[1..]);
    } else {
      var id :| id in s.stopping.keys;
      var rest := PassEnds(Next(s, StopErase(id)));
      steps := [StopErase(id)] + rest;
      assert steps[1..] == rest;
    }
  }

  /** From a connection that is ready, or has a caller past its check, stopping can leave a call behind. */
  lemma LateCallPossible(s: State) returns (steps: seq<Step>)
    requires s.stopping.Joined? && (s.ready || s.passed > 0)
    ensures LeavesCall(s, steps)
  {
    var t := Next(s, StopKeys);
    var pass := PassEnds(t);
    steps := [StopKeys] + pass;
    assert steps[1..] == pass;
    assert IsRun(s, steps) && After(s, steps) == After(t, pass);
    var u := After(s, steps);
    if u.passed == 0 {
      RunExtends(s, steps, Check);
      steps, u := steps + [Check], Next(u, Check);
    }
    hide IsRun, After;
    RunExtends(s, steps, Enter);
    steps := steps + [Enter];
    assert u.accepted in Next(u, Enter).pending;
  }

  /** When the I/O thread has ended, known then and exact: stopping can leave a call behind if and only if
      the connection is ready again or some caller is between its check and its insert. */
  lemma StopStrandsIff(s: State)
    requires Reachable(s) && s.stopping.Joined?
    ensures (exists steps :: LeavesCall(s, steps)) <==> s.ready || s.passed > 0
  {
    if s.ready || s.passed > 0 {
      var steps := LateCallPossible(s);
    } else {
      forall steps | IsRun(s, steps)
        ensures !LeavesCall(s, steps)
      {
        NothingPending(s, steps);
      }
    }
  }

  lemma NothingPending(s: State, steps: seq<Step>)
    requires Reachable(s) && s.stopping.Joined? && !s.ready && s.passed == 0 && IsRun(s, steps)
    ensures After(s, steps).stopping.Stopped? ==> After(s, steps).pending == {}
  {
    ReachableInv(s);
    AlwaysInv(s, steps);
    NothingLate(s, steps);
  }

  lemma ReachNext(s: State, step: Step)
    requires Reachable(s) && Enabled(s, step)
    ensures Reachable(Next(s, step))
  {
    var steps :| IsRun(START, steps) && After(START, steps) == s;
    RunExtends(START, steps, step);
  }

  /** The connection comes up while it is being stopped: the ready flag is set again behind Stop's back,
      and a call made after Stop has returned is accepted and never finished. */
  lemma AcceptedAfterStopExample()
    ensures exists s :: Reachable(s) && s.stopping.Stopped? && s.won == {} && 0 in s.pending
  {
    assert IsRun(START, []) && After(START, []) == START;
    assert Reachable(START);
    hide Reachable;
    ReachNext(START, StopReady);
    var s1 := Next(START, StopReady);
    ReachNext(s1, Connected);
    var s2 := Next(s1, Connected);
    ReachNext(s2, StopJoin);
    var s3 := Next(s2, StopJoin);
    ReachNext(s3, StopKeys);
    var s4 := Next(s3, StopKeys);
    ReachNext(s4, StopDone);
    var s5 := Next(s4, StopDone);
    ReachNext(s5, Check);
    var s6 := Next(s5, Check);
    ReachNext(s6, Enter);
    var s7 := Next(s6, Enter);
    assert Reachable(s7) && s7.stopping.Stopped? && s7.won == {} && 0 in s7.pending;
  }

  // ---- The flags -----------------------------------------------------------------------------------

  /** Stop clears the ready flag, and only a connection that comes up sets it again. */
  lemma {:induction false} ReadyOnlyByConnecting(s: State, steps: seq<Step>)
    requires !s.ready && IsRun(s, steps) && Connected !in steps
    ensures !After(s, steps).ready
    decreases |steps|
  {
    if steps != [] {
      assert steps[0] in steps && forall x <- steps[1..] :: x in steps;
      ReadyOnlyByConnecting(Next(s, steps[0]), steps[1..]);
    }
  }

  lemma StopClearsReady(s: State, steps: seq<Step>)
    requires Enabled(s, StopReady) && IsRun(Next(s, StopReady), steps) && Connected !in steps
    ensures !Next(s, StopReady).ready && !After(Next(s, StopReady), steps).ready
  {
    ReadyOnlyByConnecting(Next(s, StopReady), steps);
  }

  /** The connection is dropped exactly from the handling of its first error on. */
  lemma {:induction false} DroppedIff(s: State, steps: seq<Step>)
    requires IsRun(s, steps)
    ensures After(s, steps).dropped <==> s.dropped || HandleError in steps
    decreases |steps|
  {
    if steps != [] {
      assert steps == [steps[0]] + steps[1..];
      assert Next(s, steps[0]).dropped == (s.dropped || steps[0] == HandleError);
      hide Next, Enabled;
      DroppedIff(Next(s, steps[0]), steps[1..]);
    }
  }

  ghost predicate ErrorPassInv(s: State) { s.ioPass.Some? ==> s.dropped && !s.ready }

  lemma {:induction false} AlwaysErrorPassInv(s: State, steps: seq<Step>)
    requires ErrorPassInv(s) && IsRun(s, steps)
    ensures ErrorPassInv(After(s, steps))
    decreases |steps|
  {
    if steps != [] {
      assert ErrorPassInv(Next(s, steps[0]));
      AlwaysErrorPassInv(Next(s, steps[0]), steps[1..]);
    }
  }

  /** Whenever the pass of a connection error cancels a call, the connection is marked dropped, so the call
      is to be retried, and no new one is accepted meanwhile. */
  lemma ErrorPassRetries(s: State, id: nat)
    requires Reachable(s) && Enabled(s, ErrorErase(id))
    ensures s.dropped && !s.ready && id !in Next(s, ErrorErase(id)).pending
  {
    var steps :| IsRun(START, steps) && After(START, steps) == s;
    AlwaysErrorPassInv(START, steps);
  }

  /** A call that could not be submitted is taken out, and the connection's error handling is posted, unless
      someone else has finished the call. */
  lemma SubmitFailureDropsConnection(s: State, id: nat)
    requires Enabled(s, Send(id, SubmitFailed))
    ensures var t := Next(s, Send(id, SubmitFailed));
            && id !in t.pending && Enabled(t, HandleError) == (s.errors > 0 || id in s.pending)
            && (id in t.won <==> id in s.pending || id in s.won)
  {
  }

  /** The number of times a caller has read the ready flag. */
  function Checks(steps: seq<Step>): nat {
    if steps == [] then 0 else (if steps[0] == Check then 1 else 0) + Checks(steps[1..])
  }

  /** Every accepted call has its own check: no more calls are accepted than callers found the connection
      ready. */
  lemma {:induction false} AcceptedPerCheck(s: State, steps: seq<Step>)
    requires IsRun(s, steps)
    ensures var t := After(s, steps); t.accepted + t.passed <= s.accepted + s.passed + Checks(steps)
    decreases |steps|
  {
    if steps != [] {
      var t := Next(s, steps[0]);
      assert t.accepted + t.passed <= s.accepted + s.passed + if steps[0] == Check then 1 else 0;
      hide Next, Enabled;
      AcceptedPerCheck(t, steps[1..]);
    }
  }
}
