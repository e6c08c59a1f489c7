/** What the executor promises over whole runs, and where it falls short. */
module ExecutorRuns {
  import opened Basics
  import opened Executor

  /** A state some run from `Run` leads to, under any interleaving. */
  ghost predicate Reachable(s: State) {
    exists start, steps :: Initial(start) && IsRun(start, steps) && After(start, steps) == s
  }

  lemma ReachableInv(s: State)
    requires Reachable(s)
    ensures Inv(s)
  {
    var start, steps :| Initial(start) && IsRun(start, steps) && After(start, steps) == s;
    assert Inv(start);
    AlwaysInv(start, steps);
  }

  // ---- Waking up in time -----------------------------------------------------------------

  /** A sleeping worker has been notified, or its deadline is no later than any queued task needs: the
      task's time (or the clock reading, if the task was due then), plus the delay between reading the
      clock and starting to wait.  When the deadline has passed, or the worker was told to look again
      or to stop, it does look. */
  lemma WakesInTime(s: State, id: nat)
    requires Reachable(s) && s.worker.Sleeping? && id in s.queue
    ensures id < |s.stamps| && s.next <= s.stamps[id]
    ensures s.worker.notified
            || s.stamps[id] == MAX_TIMESTAMP
            || (s.worker.deadline.Some?
                && s.worker.deadline.value <= Max(s.stamps[id], s.worker.read) + (s.worker.entered - s.worker.read))
    ensures s.updateWait || !s.running ==> s.worker.notified
    ensures s.updateWait || !s.running || TimedOut(s) ==> Next(s, Wake).worker.Checking?
  {
    ReachableInv(s);
  }

  /** The deadline of a worker that has not been told to look again is exactly the next timestamp (or the
      clock reading, if that is later), put off by the delay between reading the clock and starting
      to wait.  So it is on time for the task waited for if and only if there was no such delay. */
  lemma DeadlineOnTimeIff(s: State)
    requires Reachable(s) && s.worker.Sleeping? && !s.updateWait
    ensures match s.worker.deadline
            case None => s.next == MAX_TIMESTAMP
            case Some(d) =>
              && d == Max(s.next, s.worker.read) + (s.worker.entered - s.worker.read)
              && (d <= Max(s.next, s.worker.read) <==> s.worker.entered == s.worker.read)
    ensures forall id <- s.queue :: id < |s.stamps| && s.next <= s.stamps[id]
  {
    ReachableInv(s);
  }

  /** A task is taken from the queue at or after its time, and only when none waiting was earlier. */
  lemma PickedInOrder(s: State, i: nat)
    requires Reachable(s) && i < |s.log| && s.log[i].Picked?
    ensures var Picked(id, at, others) := s.log[i];
            && id < |s.stamps| && s.stamps[id] <= at
            && forall q <- others :: q < |s.stamps| && s.stamps[id] <= s.stamps[q]
  {
    ReachableInv(s);
    assert Fits(s, s.log[i]);
  }

  // ---- No task lost or run twice ---------------------------------------------------------

  /** Every pushed task is in exactly one of queue, flight, executed, discarded, dropped; discarded
      tasks had been cancelled; tasks are dropped only by Stop and only if so configured. */
  lemma TasksConserved(s: State, id: nat)
    requires Reachable(s)
    ensures Places(s, id) == Count(id < |s.stamps|)
    ensures id in s.discarded ==> id in s.cancelled
    ensures id in s.dropped ==> s.dropOnStop && !s.running
    ensures |s.queue| <= s.cap
  {
    ReachableInv(s);
  }

  /** The operation of a task starts at most once, and exactly for the tasks executed or operating. */
  lemma StartsAtMostOnce(s: State, id: nat)
    requires Reachable(s)
    ensures forall i, j | 0 <= i < |s.log| && 0 <= j < |s.log| && s.log[i] == s.log[j] == Started(id) :: i == j
    ensures HasStarted(s.log, id) <==> id in s.executed || (s.worker.Operating? && s.worker.task == id)
  {
    ReachableInv(s);
    assert forall i, j | 0 <= i < j < |s.log| :: MayFollow(s.log[i], s.log[j]);
  }

  /** A cancel that answers true prevents the operation, now and forever, exactly when the operation has
      not started by then.  (Only the first cancel of a task answers true.) */
  lemma CancelPreventsIff(s: State, i: nat, id: nat)
    requires Reachable(s) && i < |s.log| && s.log[i] == Cancelled(id, true)
    ensures !HasStarted(s.log, id) <==> !HasStarted(s.log[..i], id)
    ensures forall j | 0 <= j < i :: s.log[j] != Cancelled(id, true) && s.log[j] != Cancelled(id, false)
  {
    ReachableInv(s);
    assert forall j | i < j < |s.log| :: MayFollow(s.log[i], s.log[j]);
    assert forall j | 0 <= j < i :: MayFollow(s.log[j], s.log[i]);
    if HasStarted(s.log, id) {
      var j :| 0 <= j < |s.log| && s.log[j] == Started(id);
      assert j < i;
      assert s.log[..i][j] == Started(id);
    }
  }

  // ---- Stopping --------------------------------------------------------------------------

  /** When the worker has left, every task pushed before that has been executed, discarded because
      cancelled, or dropped by Stop. */
  lemma ExitMeansDrained(s: State, id: nat)
    requires Reachable(s) && s.worker.Exited? && id < s.worker.pushedBefore
    ensures !s.running && id < |s.stamps|
    ensures id in s.executed || (id in s.discarded && id in s.cancelled) || (id in s.dropped && s.dropOnStop)
  {
    ReachableInv(s);
    assert Places(s, id) == 1;
  }

  /** After the worker has left nothing runs any more, and callers past the unlocked check can only be
      used up. */
  lemma {:induction false} NothingRunsAfterExit(s: State, steps: seq<Step>)
    requires s.worker.Exited? && !s.running && IsRun(s, steps)
    ensures var t := After(s, steps);
            && t.worker == s.worker && !t.running && t.executed == s.executed
            && |t.stamps| + t.admitted <= |s.stamps| + s.admitted
            && (s.admitted == 0 ==> t.queue <= s.queue)
    decreases |steps|
  {
    if steps != [] {
      NothingRunsAfterExit(Next(s, steps[0]), steps[1..]);
    }
  }

  ghost predicate Strands(s: State, steps: seq<Step>) { IsRun(s, steps) && After(s, steps).queue != {} }

  /** A task can be accepted and never looked at, exactly when some caller has passed the unlocked check
      of the running flag but not yet pushed when the worker leaves. */
  lemma StrandsIff(s: State)
    requires s.worker.Exited? && !s.running && s.queue == {} && s.cap > 0
    ensures (exists steps :: Strands(s, steps)) <==> s.admitted > 0
  {
    if s.admitted > 0 {
      var steps := [Push(0)];
      var t := Next(s, Push(0));
      assert |s.stamps| in t.queue;
      assert IsRun(t, steps[1..]);
      assert Strands(s, steps);
    } else {
      forall steps | IsRun(s, steps)
        ensures !Strands(s, steps)
      {
        NothingRunsAfterExit(s, steps);
      }
    }
  }

  /** A stopped executor can always finish: from wherever the worker is, its own steps and the passing of
      time lead it through the whole queue and out. */
  lemma {:induction false} CanExit(s: State) returns (steps: seq<Step>)
    requires Inv(s) && !s.running
    ensures IsRun(s, steps) && After(s, steps).worker.Exited? && After(s, steps).queue == (if s.worker.Exited? then s.queue else {})
    decreases |s.queue|, Stage(s.worker), Waits(s)
  {
    if s.worker.Exited? {
      steps := [];
    } else {
      var step := Onward(s);
      OnwardAdvances(s);
      TimeKept(s, step);
      FateKept(s, step);
      LogKept(s, step);
      var rest := CanExit(Next(s, step));
      steps := [step] + rest;
      assert steps[1..] == rest;
      hide Inv, Next, Enabled;
    }
  }

  /** How far the worker is from looking at the queue again. */
  function Stage(w: Worker): nat {
    match w
    case Exited(_) => 0
    case Checking => 1
    case Sleeping(_, _, _, _) => 2
    case Between(_, _, _) => 3
    case Operating(_, _) => 4
    case Executing(_, _) => 5
  }

  /** The earliest task is still ahead. */
  ghost predicate Waits(s: State) { exists id: nat :: IsTop(s, id) && s.now < s.stamps[id] }

  ghost function Onward(s: State): Step
    requires Inv(s) && !s.worker.Exited?
  {
    match s.worker
    case Between(_, _, _) => Enter
    case Sleeping(_, _, _, _) => Wake
    case Executing(_, _) => Begin
    case Operating(_, _) => Finish
    case Checking =>
      if s.queue == {} then Decide(0)
      else
        TopExists(s);
        var id: nat :| IsTop(s, id);
        if s.now < s.stamps[id] then Tick(s.stamps[id]) else Decide(id)
  }

  lemma {:induction false} EarliestOf(stamps: seq<Timestamp>, q: set<nat>) returns (id: nat)
    requires q != {} && forall x <- q :: x < |stamps|
    ensures id in q && forall x <- q :: stamps[id] <= stamps[x]
    decreases |q|
  {
    id :| id in q;
    if q != {id} {
      var rest := q - {id};
      assert rest + {id} == q;
      var other := EarliestOf(stamps, rest);
      if stamps[other] < stamps[id] { id := other; }
    }
  }

  lemma TopExists(s: State)
    requires NextIsEarliest(s) && s.queue != {}
    ensures exists id: nat :: IsTop(s, id)
  {
    var id := EarliestOf(s.stamps, s.queue);
    assert IsTop(s, id);
  }

  lemma OnwardAdvances(s: State)
    requires Inv(s) && !s.running && !s.worker.Exited?
    ensures Enabled(s, Onward(s)) && !Next(s, Onward(s)).running
    ensures var t := Next(s, Onward(s));
            && (t.worker.Exited? ==> t.queue == {})
            && (|t.queue| < |s.queue|
                || (t.queue == s.queue && Stage(t.worker) < Stage(s.worker))
                || (t.queue == s.queue && s.worker.Checking? && t.worker.Checking? && Waits(s) && !Waits(t)))
  {
    hide LogInv, FateInv, WaitBounded;
    if s.worker.Checking? && s.queue != {} {
      TopExists(s);
      var step := Onward(s);
      if step.Decide? {
        Shrinks(s.queue, step.top);
      }
    }
  }

  // ---- Where the code departs from its intent ---------------------------------------------

  lemma {:induction false} RunExtends(s: State, steps: seq<Step>, step: Step)
    requires IsRun(s, steps) && Enabled(After(s, steps), step)
    ensures IsRun(s, steps + [step]) && After(s, steps + [step]) == Next(After(s, steps), step)
    decreases |steps|
  {
    var longer := steps + [step];
    if steps == [] {
      assert longer[1..] == [];
      assert IsRun(Next(s, step), longer[1..]);
    } else {
      assert longer[1..] == steps[1..] + [step];
      RunExtends(Next(s, steps[0]), steps[1..], step);
    }
  }

  lemma ReachNext(s: State, step: Step)
    requires Reachable(s) && Enabled(s, step)
    ensures Reachable(Next(s, step))
  {
    var start, steps :| Initial(start) && IsRun(start, steps) && After(start, steps) == s;
    RunExtends(start, steps, step);
  }

  lemma ReachStart(s: State)
    requires Initial(s)
    ensures Reachable(s)
  {
    assert IsRun(s, []) && After(s, []) == s;
  }

  /** A caller checks the running flag, the executor stops and its worker leaves, the caller's task is
      then accepted: it stays queued forever. */
  lemma StrandedExample()
    ensures exists s :: Reachable(s) && s.worker.Exited? && 0 in s.queue
  {
    hide Reachable;
    var s0 := Start(1, false, 0);
    ReachStart(s0);
    ReachNext(s0, Admit);
    var s1 := Next(s0, Admit);
    ReachNext(s1, Stop);
    var s2 := Next(s1, Stop);
    ReachNext(s2, Enter);
    var s3 := Next(s2, Enter);
    ReachNext(s3, Decide(0));
    var s4 := Next(s3, Decide(0));
    ReachNext(s4, Push(7));
    var s5 := Next(s4, Push(7));
    assert Reachable(s5) && s5.worker.Exited? && 0 in s5.queue;
  }

  /** The worker reads the clock, is held up, and then waits as long as it had computed: a task due at 7
      is waited for until 10, and nobody has notified the worker. */
  lemma LateDeadlineExample()
    ensures exists s :: Reachable(s) && s.worker == Sleeping(Some(10), 0, 3, false) && s.queue == {0} && s.stamps == [7]
  {
    hide Reachable;
    var s0 := Start(1, false, 0);
    ReachStart(s0);
    ReachNext(s0, Admit);
    var s1 := Next(s0, Admit);
    ReachNext(s1, Push(7));
    var s2 := Next(s1, Push(7));
    ReachNext(s2, Enter);
    var s3 := Next(s2, Enter);
    ReachNext(s3, Decide(0));
    var s4 := Next(s3, Decide(0));
    ReachNext(s4, Tick(3));
    var s5 := Next(s4, Tick(3));
    ReachNext(s5, Enter);
    var s6 := Next(s5, Enter);
    assert Reachable(s6) && s6.worker == Sleeping(Some(10), 0, 3, false) && s6.queue == {0} && s6.stamps == [7];
  }

  /** A task that was due when it was scheduled is being executed. */
  lemma ReachExecuting() returns (s: State)
    ensures Reachable(s) && s.worker == Executing(0, 9) && s.stamps == [7] && s.cancelled == {} && |s.log| == 1
  {
    hide Reachable;
    var s0 := Start(1, false, 9);
    ReachStart(s0);
    ReachNext(s0, Admit);
    var s1 := Next(s0, Admit);
    ReachNext(s1, Push(7));
    var s2 := Next(s1, Push(7));
    ReachNext(s2, Enter);
    var s3 := Next(s2, Enter);
    ReachNext(s3, Decide(0));
    s := Next(s3, Decide(0));
  }

  /** A task runs to its end; the cancel that follows still answers true. */
  lemma CancelTooLateExample()
    ensures exists s :: Reachable(s) && 0 in s.executed && Cancelled(0, true) in s.log
  {
    hide Reachable;
    var s4 := ReachExecuting();
    ReachNext(s4, Begin);
    var s5 := Next(s4, Begin);
    ReachNext(s5, Finish);
    var s6 := Next(s5, Finish);
    ReachNext(s6, Cancel(0));
    var s7 := Next(s6, Cancel(0));
    assert s7.log[2] == Cancelled(0, true);
    assert Reachable(s7) && 0 in s7.executed && Cancelled(0, true) in s7.log;
  }
}
