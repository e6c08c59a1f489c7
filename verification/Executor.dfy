/** The timed executor: one worker thread that runs tasks at their time, with callers scheduling,
    cancelling and stopping concurrently.  Every step below is atomic in the program: it is done under
    the executor's mutex, under a task's mutex, or is one atomic access. */
module Executor {
  import opened Basics

  const MAX_TIMESTAMP: nat := 0xFFFF_FFFF_FFFF_FFFF

  type Timestamp = t: nat | t <= MAX_TIMESTAMP

  // ---- State -----------------------------------------------------------------------------

  /** Where the worker thread is.  `read` is the clock reading a wait was computed from, `entered` the
      clock when the wait began; no deadline stands for the infinite wait. */
  datatype Worker =
    | Between(wait: Option<nat>, read: nat, locked: bool)
    | Sleeping(deadline: Option<nat>, read: nat, entered: nat, notified: bool)
    | Checking
    | Executing(task: nat, read: nat)
    | Operating(task: nat, read: nat)
    | Exited(pushedBefore: nat)

  datatype Event =
    | Picked(task: nat, at: nat, others: set<nat>)
    | Started(task: nat)
    | Cancelled(task: nat, answer: bool)

  /** Tasks are numbered as they are pushed; `stamps` holds their execution timestamps. */
  datatype State = State(
    cap: nat,
    dropOnStop: bool,
    now: nat,
    running: bool,
    updateWait: bool,
    next: Timestamp,
    admitted: nat,
    stamps: seq<Timestamp>,
    queue: set<nat>,
    cancelled: set<nat>,
    executed: set<nat>,
    discarded: set<nat>,
    dropped: set<nat>,
    worker: Worker,
    log: seq<Event>)

  /** Just after `Run`: the thread is about to take the mutex for the first time. */
  function Start(cap: nat, dropOnStop: bool, now: nat): State {
    State(cap, dropOnStop, now, true, false, MAX_TIMESTAMP, 0, [], {}, {}, {}, {}, {}, Between(None, now, false), [])
  }

  predicate Initial(s: State) { s == Start(s.cap, s.dropOnStop, s.now) }

  // ---- Steps -----------------------------------------------------------------------------

  datatype Step =
    | Tick(to: nat)            // time passes
    | Admit                    // ScheduleFor reads the running flag, without the mutex
    | Push(at: Timestamp)      // ScheduleFor's critical section
    | Cancel(task: nat)
    | Stop                     // Stop's critical section
    | Enter                    // the worker evaluates its wait condition, mutex held
    | Wake                     // the sleeping worker is notified, times out or wakes spuriously
    | Discard(top: nat)        // the worker finds the top task cancelled
    | Decide(top: nat)         // the worker looks at the top task, if any
    | Begin                    // AsyncTask::Execute takes the task's mutex
    | Finish                   // the operation returns

  predicate MutexFree(s: State) { !s.worker.Checking? && !(s.worker.Between? && s.worker.locked) }

  /** Some task of least timestamp; ties are broken in any way. */
  predicate IsTop(s: State, id: nat) {
    && id in s.queue && id < |s.stamps|
    && forall q <- s.queue :: q < |s.stamps| ==> s.stamps[id] <= s.stamps[q]
  }

  predicate Enabled(s: State, step: Step) {
    match step
    case Tick(to) => s.now <= to
    case Admit => true
    case Push(_) => s.admitted > 0 && MutexFree(s)
    case Cancel(id) => id < |s.stamps| && !(s.worker.Operating? && s.worker.task == id)
    case Stop => MutexFree(s)
    case Enter => s.worker.Between?
    case Wake => s.worker.Sleeping?
    case Discard(id) => s.worker.Checking? && IsTop(s, id) && id in s.cancelled
    case Decide(id) => s.worker.Checking? && (s.queue != {} ==> IsTop(s, id))
    case Begin => s.worker.Executing?
    case Finish => s.worker.Operating?
  }

  predicate WaitCondition(s: State) { !s.running || s.updateWait || s.now > s.next }

  function Notified(w: Worker): Worker { if w.Sleeping? then w.(notified := true) else w }

  function ToCheck(s: State): State { s.(worker := Checking, updateWait := false) }

  predicate HasRoom(s: State) { |s.queue| < s.cap }

  function AfterPush(s: State, at: Timestamp): State {
    var t := s.(admitted := if s.admitted > 0 then s.admitted - 1 else 0);
    if !HasRoom(s) then t
    else
      var u := t.(stamps := s.stamps + [at], queue := s.queue + {|s.stamps|}, worker := Notified(s.worker));
      if at < s.next then u.(next := at, updateWait := true) else u
  }

  function AfterStop(s: State): State {
    var t := s.(running := false, worker := Notified(s.worker));
    if s.dropOnStop then t.(queue := {}, dropped := s.dropped + s.queue) else t
  }

  function AfterDecide(s: State, id: nat): State
    requires s.queue != {} ==> IsTop(s, id)
  {
    if s.queue == {} then
      if !s.running then s.(worker := Exited(|s.stamps|))
      else s.(next := MAX_TIMESTAMP, worker := Between(None, s.now, true))
    else
      var t := s.(next := s.stamps[id]);
      if s.now < s.stamps[id] then t.(worker := Between(Some(s.stamps[id] - s.now), s.now, true))
      else t.(queue := s.queue - {id}, worker := Executing(id, s.now),
              log := s.log + [Picked(id, s.now, s.queue - {id})])
  }

  function Next(s: State, step: Step): State
    requires Enabled(s, step)
  {
    match step
    case Tick(to) => s.(now := to)
    case Admit => if s.running then s.(admitted := s.admitted + 1) else s
    case Push(at) => AfterPush(s, at)
    case Cancel(id) => s.(cancelled := s.cancelled + {id}, log := s.log + [Cancelled(id, id !in s.cancelled)])
    case Stop => AfterStop(s)
    case Enter =>
      if WaitCondition(s) then ToCheck(s)
      else s.(worker := Sleeping(if s.worker.wait.Some? then Some(s.now + s.worker.wait.value) else None,
                                 s.worker.read, s.now, false))
    case Wake =>
      if WaitCondition(s) || TimedOut(s) then ToCheck(s) else s.(worker := s.worker.(notified := false))
    case Discard(id) => s.(queue := s.queue - {id}, discarded := s.discarded + {id})
    case Decide(id) => AfterDecide(s, id)
    case Begin =>
      var id := s.worker.task;
      if id in s.cancelled then s.(discarded := s.discarded + {id}, worker := Between(Some(0), s.worker.read, false))
      else s.(worker := Operating(id, s.worker.read), log := s.log + [Started(id)])
    case Finish =>
      s.(executed := s.executed + {s.worker.task}, worker := Between(Some(0), s.worker.read, false))
  }

  predicate TimedOut(s: State) { s.worker.Sleeping? && s.worker.deadline.Some? && s.worker.deadline.value <= s.now }

  predicate IsRun(s: State, steps: seq<Step>)
    decreases |steps|
  {
    steps != [] ==> Enabled(s, steps[0]) && IsRun(Next(s, steps[0]), steps[1..])
  }

  function After(s: State, steps: seq<Step>): State
    requires IsRun(s, steps)
    decreases |steps|
  {
    if steps == [] then s else After(Next(s, steps[0]), steps[1..])
  }

  // ---- Time ------------------------------------------------------------------------------

  function Max(a: nat, b: nat): nat { if a < b then b else a }

  /** The next timestamp is at most every queued one. */
  ghost predicate NextIsEarliest(s: State) {
    forall id <- s.queue :: id < |s.stamps| && s.next <= s.stamps[id]
  }

  /** Unless the worker has been told to look again, a wait lasts exactly from the clock reading it was
      computed from to the next timestamp, and is put off by the delay between that reading and the
      start of the wait; and the worker is not left asleep when it should look. */
  predicate WaitBounded(s: State) {
    match s.worker
    case Between(wait, read, _) =>
      && read <= s.now
      && (s.updateWait || match wait case None => s.next == MAX_TIMESTAMP
                                     case Some(w) => read + w == Max(s.next, read))
    case Sleeping(deadline, read, entered, notified) =>
      && read <= entered <= s.now
      && (notified || (s.running && !s.updateWait))
      && (s.updateWait || match deadline case None => s.next == MAX_TIMESTAMP
                                         case Some(d) => d == Max(s.next, read) + (entered - read))
    case Executing(_, read) => read <= s.now && (s.updateWait || s.next <= read)
    case Operating(_, read) => read <= s.now && (s.updateWait || s.next <= read)
    case _ => true
  }

  ghost predicate TimeInv(s: State) { NextIsEarliest(s) && WaitBounded(s) }

  lemma TimeKept(s: State, step: Step)
    requires TimeInv(s) && Enabled(s, step)
    ensures TimeInv(Next(s, step))
  {
    NextKept(s, step);
    WaitKept(s, step);
  }

  lemma NextKept(s: State, step: Step)
    requires NextIsEarliest(s) && Enabled(s, step)
    ensures NextIsEarliest(Next(s, step))
  {
    hide HasRoom, WaitCondition, TimedOut;
  }

  lemma WaitKept(s: State, step: Step)
    requires WaitBounded(s) && Enabled(s, step)
    ensures WaitBounded(Next(s, step))
  {
    hide IsTop, HasRoom;
    if step.Push? {
      PushWait(s, step.at);
      hide AfterPush, WaitBounded;
    } else if step.Decide? {
      hide AfterPush, AfterStop, WaitCondition, TimedOut;
    } else {
      hide AfterPush, AfterDecide;
    }
  }

  lemma PushWait(s: State, at: Timestamp)
    requires WaitBounded(s) && MutexFree(s)
    ensures WaitBounded(AfterPush(s, at))
  {
    hide HasRoom;
  }

  // ---- What becomes of a task ------------------------------------------------------------

  predicate InFlight(s: State, id: nat) {
    (s.worker.Executing? || s.worker.Operating?) && s.worker.task == id
  }

  function Count(b: bool): nat { if b then 1 else 0 }

  function Places(s: State, id: nat): nat {
    Count(id in s.queue) + Count(InFlight(s, id)) + Count(id in s.executed) + Count(id in s.discarded) + Count(id in s.dropped)
  }

  /** Every pushed task is in exactly one place; only cancelled tasks are discarded, only Stop drops. */
  ghost predicate FateInv(s: State) { Placed(s) && Accounted(s) && |s.queue| <= s.cap }

  ghost predicate Placed(s: State) { forall id: nat :: Places(s, id) == Count(id < |s.stamps|) }

  ghost predicate Accounted(s: State) {
    && (forall id <- s.discarded :: id in s.cancelled)
    && (s.dropped != {} ==> s.dropOnStop && !s.running)
    && (s.worker.Exited? ==> !s.running && s.worker.pushedBefore <= |s.stamps|
                             && forall id <- s.queue :: s.worker.pushedBefore <= id)
  }

  lemma PlaceKept(s: State, step: Step, id: nat)
    requires Places(s, id) == Count(id < |s.stamps|) && Enabled(s, step)
    ensures Places(Next(s, step), id) == Count(id < |Next(s, step).stamps|)
  {
    hide HasRoom, WaitCondition, TimedOut, AfterDecide, AfterPush, AfterStop;
    match step {
      case Decide(top) => DecidePlaces(s, top, id); hide Places;
      case Push(at) => PushPlaces(s, at, id); hide Places;
      case Stop => StopPlaces(s, id); hide Places;
      case _ =>
    }
  }

  lemma PushPlaces(s: State, at: Timestamp, id: nat)
    requires Places(s, id) == Count(id < |s.stamps|)
    ensures Places(AfterPush(s, at), id) == Count(id < |AfterPush(s, at).stamps|)
  {
    hide HasRoom;
  }

  lemma StopPlaces(s: State, id: nat)
    requires Places(s, id) == Count(id < |s.stamps|)
    ensures Places(AfterStop(s), id) == Count(id < |AfterStop(s).stamps|)
  {
  }

  lemma DecidePlaces(s: State, top: nat, id: nat)
    requires Places(s, id) == Count(id < |s.stamps|) && s.worker.Checking? && (s.queue != {} ==> IsTop(s, top))
    ensures Places(AfterDecide(s, top), id) == Count(id < |AfterDecide(s, top).stamps|)
  {
  }

  /** The ways a step can change the queue. */
  lemma QueueChanges(s: State, step: Step)
    requires Enabled(s, step)
    ensures var t := Next(s, step);
            && t.cap == s.cap
            && (|| t.queue <= s.queue
                || (step.Push? && HasRoom(s) && t.queue == s.queue + {|s.stamps|}))
  {
    hide IsTop, HasRoom, WaitCondition, TimedOut;
  }

  lemma QueueBoundKept(s: State, step: Step)
    requires |s.queue| <= s.cap && Enabled(s, step)
    ensures |Next(s, step).queue| <= s.cap == Next(s, step).cap
  {
    QueueChanges(s, step);
    hide Next, Enabled;
    Subset(Next(s, step).queue, s.queue);
    Grows(s.queue, |s.stamps|);
  }

  lemma {:induction false} Subset(q: set<nat>, r: set<nat>)
    ensures q <= r ==> |q| <= |r|
    decreases |q|
  {
    if q <= r && q != {} {
      var x :| x in q;
      Subset(q - {x}, r - {x});
    }
  }

  lemma Shrinks(q: set<nat>, id: nat)
    requires id in q
    ensures |q - {id}| == |q| - 1
  {
  }

  lemma Grows(q: set<nat>, id: nat)
    ensures |q + {id}| <= |q| + 1
  {
    assert id in q ==> q + {id} == q;
  }

  lemma FateKept(s: State, step: Step)
    requires FateInv(s) && Enabled(s, step)
    ensures FateInv(Next(s, step))
  {
    forall id: nat
      ensures Places(Next(s, step), id) == Count(id < |Next(s, step).stamps|)
    {
      assert Places(s, id) == Count(id < |s.stamps|);
      PlaceKept(s, step, id);
    }
    QueueBoundKept(s, step);
    AccountKept(s, step);
    hide Places, Accounted, Next;
  }

  lemma AccountKept(s: State, step: Step)
    requires Accounted(s) && Enabled(s, step)
    ensures Accounted(Next(s, step))
  {
    hide IsTop, HasRoom, WaitCondition, TimedOut;
    if step.Push? {
      PushAccounted(s, step.at);
      hide AfterPush, Accounted;
    } else {
      hide AfterPush;
    }
  }

  lemma PushAccounted(s: State, at: Timestamp)
    requires Accounted(s)
    ensures Accounted(AfterPush(s, at))
  {
    hide HasRoom;
  }

  // ---- What happened, in order -----------------------------------------------------------

  predicate HasStarted(log: seq<Event>, id: nat) { Started(id) in log }

  /** What an event says about the state after it. */
  ghost predicate Fits(s: State, e: Event) {
    match e
    case Picked(id, at, others) =>
      && id < |s.stamps| && s.stamps[id] <= at <= s.now
      && (forall q <- others :: q < |s.stamps| && s.stamps[id] <= s.stamps[q])
    case Started(id) => id in s.executed || (s.worker.Operating? && s.worker.task == id)
    case Cancelled(id, _) => id in s.cancelled
  }

  /** What may come after what: an operation starts at most once, and not after a cancel that answered
      true; only the first cancel of a task answers true. */
  predicate MayFollow(e: Event, f: Event) {
    && (e.Started? && f.Started? ==> e.task != f.task)
    && (e.Cancelled? && e.answer && f.Started? ==> e.task != f.task)
    && (e.Cancelled? && f.Cancelled? && f.answer ==> e.task != f.task)
  }

  ghost predicate LogInv(s: State) {
    && (forall e <- s.log :: Fits(s, e))
    && (forall i, j | 0 <= i < j < |s.log| :: MayFollow(s.log[i], s.log[j]))
    && (forall id <- s.executed :: HasStarted(s.log, id))
    && (s.worker.Operating? ==> HasStarted(s.log, s.worker.task))
  }

  lemma FitsKept(s: State, step: Step, e: Event)
    requires Enabled(s, step) && Fits(s, e)
    ensures Fits(Next(s, step), e)
  {
    hide IsTop, HasRoom, WaitCondition, TimedOut;
  }

  /** What a step adds to the log. */
  function Added(s: State, step: Step): (r: seq<Event>)
    requires Enabled(s, step)
    ensures |r| <= 1
  {
    match step
    case Cancel(id) => [Cancelled(id, id !in s.cancelled)]
    case Decide(id) => if s.queue != {} && s.stamps[id] <= s.now then [Picked(id, s.now, s.queue - {id})] else []
    case Begin => if s.worker.task in s.cancelled then [] else [Started(s.worker.task)]
    case _ => []
  }

  lemma LogGrows(s: State, step: Step)
    requires Enabled(s, step)
    ensures Next(s, step).log == s.log + Added(s, step)
  {
    hide IsTop, HasRoom, WaitCondition, TimedOut;
    assert s.log + [] == s.log;
  }

  lemma AddedFits(s: State, step: Step, f: Event)
    requires NextIsEarliest(s) && Enabled(s, step) && f in Added(s, step)
    ensures Fits(Next(s, step), f)
  {
  }

  lemma AddedFollows(s: State, step: Step, e: Event, f: Event)
    requires Placed(s) && Enabled(s, step) && Fits(s, e) && f in Added(s, step)
    ensures MayFollow(e, f)
  {
    if step.Begin? { assert Places(s, s.worker.task) <= 1; }
    hide Next, IsTop;
  }

  lemma LogKept(s: State, step: Step)
    requires TimeInv(s) && FateInv(s) && LogInv(s) && Enabled(s, step)
    ensures LogInv(Next(s, step))
  {
    var t, added := Next(s, step), Added(s, step);
    LogGrows(s, step);
    StartsKept(s, step);
    hide Next, Added, Fits, MayFollow;
    forall e | e in s.log + added
      ensures Fits(t, e)
    {
      if e in s.log { FitsKept(s, step, e); } else { AddedFits(s, step, e); }
    }
    forall i, j | 0 <= i < j < |t.log|
      ensures MayFollow(t.log[i], t.log[j])
    {
      if j == |s.log| { AddedFollows(s, step, s.log[i], added[0]); }
    }
  }

  lemma StartsKept(s: State, step: Step)
    requires LogInv(s) && Enabled(s, step)
    ensures forall id <- Next(s, step).executed :: HasStarted(Next(s, step).log, id)
    ensures Next(s, step).worker.Operating? ==> HasStarted(Next(s, step).log, Next(s, step).worker.task)
  {
    hide Fits, MayFollow, IsTop, HasRoom, WaitCondition, TimedOut;
    var t := Next(s, step);
    forall id | HasStarted(s.log, id)
      ensures HasStarted(t.log, id)
    {
    }
  }

  // ---- Whole runs ------------------------------------------------------------------------

  ghost predicate Inv(s: State) { TimeInv(s) && FateInv(s) && LogInv(s) }

  /** Holds in every reachable state. */
  lemma {:induction false} AlwaysInv(s: State, steps: seq<Step>)
    requires Inv(s) && IsRun(s, steps)
    ensures Inv(After(s, steps))
    decreases |steps|
  {
    if steps != [] {
      TimeKept(s, steps[0]);
      FateKept(s, steps[0]);
      LogKept(s, steps[0]);
      hide TimeInv, FateInv, LogInv, Next;
      AlwaysInv(Next(s, steps[0]), steps[1..]);
    }
  }
}
