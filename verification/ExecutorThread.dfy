/** The executor's critical sections as the code runs them.  Each is shown to be steps of the
    interleaved machine, so what holds in all runs of the machine holds of the code. */
module ExecutorThread {
  import opened Basics
  import opened Executor
  import opened ExecutorRuns

  class PriorityExecutor {
    const cap: nat
    const dropOnStop: bool
    var running: bool
    var updateWait: bool
    var next: Timestamp
    /** The tasks pushed so far: when each is due, and which are cancelled. */
    var stamps: seq<Timestamp>
    var cancelled: set<nat>
    /** The priority queue; its top is some task of least timestamp. */
    var queue: set<nat>
    /** The machine state these fields are part of. */
    ghost var machine: State

    ghost predicate Valid()
      reads this
    {
      && machine.cap == cap && machine.dropOnStop == dropOnStop
      && machine.running == running && machine.updateWait == updateWait && machine.next == next
      && machine.stamps == stamps && machine.cancelled == cancelled && machine.queue == queue
      && NextIsEarliest(machine)
    }

    constructor (cap: nat, dropOnStop: bool, ghost now: nat)
      ensures Valid() && machine == Start(cap, dropOnStop, now)
    {
      this.cap, this.dropOnStop := cap, dropOnStop;
      running, updateWait, next := true, false, MAX_TIMESTAMP;
      stamps, cancelled, queue := [], {}, {};
      machine := Start(cap, dropOnStop, now);
    }

    /** The part of scheduling done with the mutex held. */
    method Schedule(at: Timestamp) returns (accepted: bool)
      requires Valid() && Enabled(machine, Push(at))
      modifies this
      ensures Valid() && machine == Next(old(machine), Push(at))
      ensures accepted <==> |old(queue)| < cap
      ensures accepted ==> |old(stamps)| in queue && stamps == old(stamps) + [at]
    {
      NextKept(machine, Push(at));
      hide AfterDecide, AfterStop, WaitCondition, TimedOut, IsTop;
      machine := Next(machine, Push(at));
      if |queue| >= cap {
        return false;
      }
      queue := queue + {|stamps|};
      stamps := stamps + [at];
      if at < next {
        next, updateWait := at, true;
      }
      return true;
    }

    /** The part of stopping done with the mutex held. */
    method StopLocked()
      requires Valid() && Enabled(machine, Stop)
      modifies this
      ensures Valid() && machine == Next(old(machine), Stop)
    {
      NextKept(machine, Stop);
      machine := Next(machine, Stop);
      running := false;
      if dropOnStop {
        while queue != {}
          invariant queue <= old(queue) && machine == Next(old(machine), Stop)
          invariant !running && updateWait == old(updateWait) && next == old(next)
          invariant stamps == old(stamps) && cancelled == old(cancelled)
          decreases |queue|
        {
          var id :| id in queue;
          queue := queue - {id};
        }
      }
    }

    /** The task at the top of the queue. */
    method Top() returns (top: nat)
      requires Valid() && queue != {}
      ensures IsTop(machine, top)
    {
      top :| top in queue;
      var rest := queue - {top};
      while rest != {}
        invariant top in queue && rest <= queue
        invariant forall id <- queue - rest :: stamps[top] <= stamps[id]
        decreases |rest|
      {
        var id :| id in rest;
        if stamps[id] < stamps[top] {
          top := id;
        }
        rest := rest - {id};
      }
    }

    /** Takes one machine step that is the worker's alone. */
    ghost method Move(step: Step, before: State, done: seq<Step>) returns (steps: seq<Step>)
      requires IsRun(before, done) && After(before, done) == machine && Enabled(machine, step)
      requires NextIsEarliest(machine)
      modifies this`machine
      ensures machine == Next(old(machine), step) && NextIsEarliest(machine)
      ensures steps == done + [step] && IsRun(before, steps) && After(before, steps) == machine
    {
      RunExtends(before, done, step);
      NextKept(machine, step);
      steps := done + [step];
      machine := Next(machine, step);
    }

    /** Discards cancelled tasks from the top of the queue. */
    method DiscardCancelled() returns (ghost steps: seq<Step>)
      requires Valid() && machine.worker.Checking?
      modifies this`queue, this`machine
      ensures Valid() && machine.worker.Checking? && machine.now == old(machine.now)
      ensures IsRun(old(machine), steps) && After(old(machine), steps) == machine
      ensures forall id <- old(queue) - queue :: id in cancelled
      ensures queue <= old(queue) && (queue != {} ==> exists top <- queue :: IsTop(machine, top) && top !in cancelled)
    {
      steps := [];
      assert IsRun(machine, steps) && After(machine, steps) == machine;
      hide IsRun, After, AfterPush, AfterStop, AfterDecide, WaitCondition, TimedOut;
      while queue != {}
        invariant Valid() && machine.worker.Checking? && machine.now == old(machine.now)
        invariant IsRun(old(machine), steps) && After(old(machine), steps) == machine
        invariant queue <= old(queue) && forall id <- old(queue) - queue :: id in cancelled
        decreases |queue|
      {
        var top := Top();
        if top !in cancelled {
          return;
        }
        steps := Move(Discard(top), old(machine), steps);
        queue := queue - {top};
      }
    }

    /** What the worker does between waking up and its next wait or its next task: it takes the task that
        is due, or says how long to wait, or leaves. */
    method Pass(now: nat) returns (picked: Option<nat>, ghost steps: seq<Step>)
      requires Valid() && machine.worker.Checking? && now == machine.now
      modifies this
      ensures Valid() && IsRun(old(machine), steps) && After(old(machine), steps) == machine
      ensures !machine.worker.Checking? && machine.worker.Exited? == (queue == {} && !running && picked.None?)
      ensures picked.Some? <==> machine.worker.Executing?
      ensures picked.Some? ==> machine.worker.task == picked.value && picked.value in old(queue) && stamps == old(stamps)
                               && picked.value < |stamps| && stamps[picked.value] <= now
                               && forall id <- queue :: id < |stamps| && stamps[picked.value] <= stamps[id]
    {
      hide IsRun, After, AfterPush, AfterStop, WaitCondition, TimedOut;
      steps := DiscardCancelled();
      picked := None;
      if queue == {} {
        steps := Move(Decide(0), old(machine), steps);
        if running {
          next := MAX_TIMESTAMP;
        }
        return;
      }
      var top := Top();
      steps := Move(Decide(top), old(machine), steps);
      next := stamps[top];
      if now >= next {
        picked := Some(top);
        queue := queue - {top};
      }
    }
  }
}
