/** What stopping and cancelling lead to, step by step and over whole runs. */
module ExecutorStops {
  import opened Basics
  import opened Executor
  import opened ExecutorRuns

  // ---- Stopping ----------------------------------------------------------------------------------

  /** Stop clears the running flag, wakes a sleeping worker, and empties the queue into the dropped tasks if
      so configured; else it leaves every task where it is. */
  lemma StopTakesEffect(s: State)
    requires Enabled(s, Stop)
    ensures var t := Next(s, Stop);
            && !t.running
            && (s.worker.Sleeping? ==> t.worker.Sleeping? && t.worker.notified && Next(t, Wake).worker.Checking?)
            && (if s.dropOnStop then t.queue == {} && t.dropped == s.dropped + s.queue
                else t.queue == s.queue && t.dropped == s.dropped)
  {
  }

  /** It is not undone: the executor stays stopped, and what was dropped stays dropped. */
  lemma {:induction false} StaysStopped(s: State, steps: seq<Step>)
    requires !s.running && IsRun(s, steps)
    ensures var t := After(s, steps); !t.running && s.dropped <= t.dropped && t.dropOnStop == s.dropOnStop
    decreases |steps|
  {
    if steps != [] {
      StepStaysStopped(s, steps[0]);
      hide Next, Enabled;
      StaysStopped(Next(s, steps[0]), steps[1..]);
    }
  }

  lemma StepStaysStopped(s: State, step: Step)
    requires !s.running && Enabled(s, step)
    ensures var t := Next(s, step); !t.running && s.dropped <= t.dropped && t.dropOnStop == s.dropOnStop
  {
    hide IsTop, HasRoom, WaitCondition, TimedOut;
  }

  /** A task that was queued when an executor configured to drop was stopped never starts. */
  lemma DroppedNeverRuns(s: State, steps: seq<Step>, id: nat)
    requires Reachable(s) && s.dropOnStop && id in s.queue && Enabled(s, Stop) && IsRun(Next(s, Stop), steps)
    ensures var t := After(Next(s, Stop), steps);
            id in t.dropped && id !in t.executed && !HasStarted(t.log, id)
  {
    StopTakesEffect(s);
    ReachNext(s, Stop);
    ReachableInv(Next(s, Stop));
    var u := Next(s, Stop);
    hide Next, Enabled, Reachable;
    StaysStopped(u, steps);
    AlwaysInv(u, steps);
    var t := After(u, steps);
    hide After, IsRun;
    assert Places(t, id) <= 1;
    assert HasStarted(t.log, id) ==> Fits(t, Started(id));
  }

  /** A worker that leaves has seen all tasks pushed so far. */
  lemma {:induction false} LeavesBehindAll(s: State, steps: seq<Step>, n: nat)
    requires IsRun(s, steps) && n <= |s.stamps| && (s.worker.Exited? ==> n <= s.worker.pushedBefore)
    ensures After(s, steps).worker.Exited? ==> n <= After(s, steps).worker.pushedBefore
    decreases |steps|
  {
    if steps != [] {
      LeavesBehindAll(Next(s, steps[0]), steps[1..], n);
    }
  }

  /** A task that was queued when one not so configured was stopped, with its worker still there, has, once
      the worker has left, been executed, unless it was cancelled. */
  lemma KeptTasksAreDone(s: State, steps: seq<Step>, id: nat)
    requires Reachable(s) && !s.dropOnStop && id in s.queue && !s.worker.Exited?
    requires Enabled(s, Stop) && IsRun(Next(s, Stop), steps) && After(Next(s, Stop), steps).worker.Exited?
    ensures var t := After(Next(s, Stop), steps); id in t.executed || id in t.cancelled
  {
    StopTakesEffect(s);
    ReachableInv(s);
    LeavesBehindAll(Next(s, Stop), steps, |s.stamps|);
    ReachNext(s, Stop);
    ReachableInv(Next(s, Stop));
    var u := Next(s, Stop);
    assert u.dropOnStop == s.dropOnStop;
    hide Next, Enabled, Reachable;
    StaysStopped(u, steps);
    AlwaysInv(u, steps);
    var t := After(u, steps);
    hide After, IsRun;
    assert Places(t, id) == Count(id < |t.stamps|);
  }

  // ---- Cancelling --------------------------------------------------------------------------------

  ghost predicate CancelledBefore(log: seq<Event>, i: nat, id: nat)
    requires i <= |log|
  {
    exists j :: 0 <= j < i && log[j].Cancelled? && log[j].task == id
  }

  /** A task is cancelled once some cancel of it was made, and only the first of them answers true. */
  ghost predicate CancelInv(s: State) {
    && (forall id :: id in s.cancelled <==> CancelledBefore(s.log, |s.log|, id))
    && (forall i | 0 <= i < |s.log| && s.log[i].Cancelled? ::
          s.log[i].answer <==> !CancelledBefore(s.log, i, s.log[i].task))
  }

  lemma CancelKept(s: State, step: Step)
    requires CancelInv(s) && Enabled(s, step)
    ensures CancelInv(Next(s, step))
  {
    LogGrows(s, step);
    var t, added := Next(s, step), Added(s, step);
    assert t.cancelled == if step.Cancel? then s.cancelled + {step.task} else s.cancelled by { CancelledSet(s, step); }
    assert forall f <- added :: f.Cancelled? <==> step.Cancel?;
    assert step.Cancel? ==> added == [Cancelled(step.task, step.task !in s.cancelled)];
    hide Next, Enabled, Added;
    forall i, id | 0 <= i <= |s.log|
      ensures CancelledBefore(t.log, i, id) <==> CancelledBefore(s.log, i, id)
    {
      EarlierSame(s.log, added, i, id);
    }
    forall id
      ensures id in t.cancelled <==> CancelledBefore(t.log, |t.log|, id)
    {
      LastStep(t.log, |s.log|, id);
    }
  }

  lemma CancelledSet(s: State, step: Step)
    requires Enabled(s, step)
    ensures Next(s, step).cancelled == if step.Cancel? then s.cancelled + {step.task} else s.cancelled
  {
    hide IsTop, HasRoom, WaitCondition, TimedOut;
  }

  lemma EarlierSame(log: seq<Event>, added: seq<Event>, i: nat, id: nat)
    requires i <= |log|
    ensures CancelledBefore(log + added, i, id) <==> CancelledBefore(log, i, id)
  {
    assert forall j :: 0 <= j < i ==> (log + added)[j] == log[j];
  }

  lemma LastStep(log: seq<Event>, n: nat, id: nat)
    requires n <= |log| <= n + 1
    ensures CancelledBefore(log, |log|, id)
            <==> CancelledBefore(log, n, id) || (n < |log| && log[n].Cancelled? && log[n].task == id)
  {
  }

  lemma {:induction false} AlwaysCancelInv(s: State, steps: seq<Step>)
    requires CancelInv(s) && IsRun(s, steps)
    ensures CancelInv(After(s, steps))
    decreases |steps|
  {
    if steps != [] {
      CancelKept(s, steps[0]);
      hide CancelInv, Next;
      AlwaysCancelInv(Next(s, steps[0]), steps[1..]);
    }
  }

  /** In every run a cancel answers true if and only if it is the first of its task. */
  lemma FirstCancelIff(s: State, i: nat)
    requires Reachable(s) && i < |s.log| && s.log[i].Cancelled?
    ensures s.log[i].answer <==> !CancelledBefore(s.log, i, s.log[i].task)
  {
    var start, steps :| Initial(start) && IsRun(start, steps) && After(start, steps) == s;
    assert CancelInv(start);
    hide CancelledBefore;
    AlwaysCancelInv(start, steps);
  }

  // ---- Looking and picking -----------------------------------------------------------------------

  /** The worker looks at the queue, forgetting that it was told to, exactly when it is stopped, was told to
      look again, or the next timestamp has passed; a sleeping one also when its time is up. */
  lemma LooksIff(s: State)
    ensures s.worker.Between? ==>
              var t := Next(s, Enter);
              if !s.running || s.updateWait || s.now > s.next then t.worker == Checking && !t.updateWait
              else t.worker.Sleeping? && t.worker.entered == s.now && !t.worker.notified
    ensures s.worker.Sleeping? ==>
              var t := Next(s, Wake);
              if !s.running || s.updateWait || s.now > s.next || (s.worker.deadline.Some? && s.worker.deadline.value <= s.now)
              then t.worker == Checking && !t.updateWait
              else t.worker == s.worker.(notified := false)
  {
  }

  /** A top task is taken exactly when it is due; an empty queue makes the worker leave exactly when stopped. */
  lemma PicksIff(s: State, top: nat)
    requires Enabled(s, Decide(top))
    ensures var t := Next(s, Decide(top));
            if s.queue == {} then (t.worker.Exited? <==> !s.running) && (s.running ==> t.worker.Between? && t.worker.wait == None)
            else if s.stamps[top] <= s.now
            then t.worker == Executing(top, s.now) && t.queue == s.queue - {top} && t.log == s.log + [Picked(top, s.now, t.queue)]
            else t.worker == Between(Some(s.stamps[top] - s.now), s.now, true) && t.queue == s.queue
  {
  }
}
