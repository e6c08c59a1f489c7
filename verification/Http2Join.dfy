/** How the HTTP/2 server joins authorization and body of one request.  The authorization callback and
    the stream's events run on two threads and meet in a counter and a failure flag; every step below
    is one atomic access. */
module Http2Join {
  import opened Basics

  /** The counter is an unsigned 64-bit integer. */
  const WRAP: nat := 0x1_0000_0000_0000_0000

  datatype Who = Auth | Body

  /** How far a thread is in the pending callback; `ok` is the result it was called with. */
  datatype Thread =
    | Idle
    | Looking(ok: bool)        // about to find the request among the active ones
    | Marking(ok: bool)        // about to set the failure flag, if not ok
    | Responding               // has set the flag first, about to send the failure
    | Counting(ok: bool)       // about to decrement the counter
    | Deciding(was: nat)       // has decremented it

  /** The announced length, the body so far, every chunk the stream has delivered, and whether it has
      reported the end. */
  datatype Input = Input(capacity: nat, body: seq<Byte>, received: seq<seq<Byte>>, ended: bool)

  /** The flags `authCounted` and `endCounted` say
      whose decrement has happened, and `counted` how many have in all. */
  datatype State = State(
    input: Input,
    active: bool,
    pending: nat,
    failed: bool,
    auth: Thread,
    stream: Thread,
    authStarted: bool,
    authOk: bool,
    authCounted: bool,
    endCounted: bool,
    counted: nat,
    failures: nat,
    handled: seq<seq<Byte>>,
    handlerFailures: nat)

  /** The request has been entered among the active ones, for two callbacks. */
  function Start(capacity: nat): State {
    State(Input(capacity, [], [], false), true, 2, false, Idle, Idle, false, false, false, false, 0, 0, [], 0)
  }

  // ---- The body ----------------------------------------------------------------------------

  predicate Fits(capacity: nat, body: seq<Byte>, chunk: seq<Byte>) {
    |chunk| <= capacity && |body| <= capacity - |chunk|
  }

  function Joined(chunks: seq<seq<Byte>>): seq<Byte> {
    if chunks == [] then [] else Joined(chunks[..|chunks| - 1]) + chunks[|chunks| - 1]
  }

  lemma JoinedAppend(chunks: seq<seq<Byte>>, chunk: seq<Byte>)
    ensures Joined(chunks + [chunk]) == Joined(chunks) + chunk
  {
    assert (chunks + [chunk])[..|chunks|] == chunks;
  }

  // ---- Steps -------------------------------------------------------------------------------

  datatype Step =
    | Authorized(ok: bool)             // the authorization callback is invoked
    | Chunk(data: seq<Byte>)           // the stream delivers data
    | End                              // the stream reports the end of the data, once
    | Close                            // the stream is closed: the request is no longer active
    | Go(who: Who, accepted: bool)     // the thread makes its next access; `accepted` is what the
                                       // handler answers, if it is called

  function ThreadOf(s: State, who: Who): Thread { if who.Auth? then s.auth else s.stream }

  function WithThread(s: State, who: Who, t: Thread): State {
    if who.Auth? then s.(auth := t) else s.(stream := t)
  }

  /** The stream's events come one after another, on one thread. */
  predicate Enabled(s: State, step: Step) {
    match step
    case Authorized(_) => !s.authStarted
    case Chunk(data) => s.stream.Idle? && s.active && !s.input.ended && data != []
    case End => s.stream.Idle? && s.active && !s.input.ended
    case Close => s.stream.Idle? && s.active
    case Go(who, _) => !ThreadOf(s, who).Idle?
  }

  function Decrement(n: nat): nat { if n == 0 then WRAP - 1 else n - 1 }

  /** The failure flag is set by the first to fail, which is then to answer. */
  function Mark(s: State, who: Who, ok: bool): State {
    if !ok && !s.failed then WithThread(s.(failed := true), who, Responding)
    else WithThread(s, who, Counting(ok))
  }

  function CountDown(s: State, who: Who): State {
    var t := s.(pending := Decrement(s.pending), counted := s.counted + 1,
                authCounted := s.authCounted || who.Auth?,
                endCounted := s.endCounted || (who.Body? && s.input.ended));
    WithThread(t, who, Deciding(s.pending))
  }

  /** Whoever brought the counter to zero calls the handler, unless something has failed. */
  function Decide(s: State, who: Who, was: nat, accepted: bool): State {
    if was != 1 || s.failed then WithThread(s, who, Idle)
    else WithThread(s.(handled := s.handled + [s.input.body],
                       handlerFailures := s.handlerFailures + if accepted then 0 else 1), who, Idle)
  }

  function AfterGo(s: State, who: Who, accepted: bool): State {
    match ThreadOf(s, who)
    case Idle => s
    case Looking(ok) => WithThread(s, who, if s.active then Marking(ok) else Idle)
    case Marking(ok) => Mark(s, who, ok)
    case Responding => WithThread(s.(failures := s.failures + 1), who, Counting(false))
    case Counting(_) => CountDown(s, who)
    case Deciding(was) => Decide(s, who, was, accepted)
  }

  function Next(s: State, step: Step): State
    requires Enabled(s, step)
  {
    match step
    case Authorized(ok) => s.(authStarted := true, authOk := ok, auth := Looking(ok))
    case Chunk(data) =>
      var more := s.input.(received := s.input.received + [data]);
      if Fits(s.input.capacity, s.input.body, data) then s.(input := more.(body := s.input.body + data))
      else s.(input := more, stream := Looking(false))
    case End => s.(input := s.input.(ended := true), stream := Looking(|s.input.body| >= s.input.capacity))
    case Close => s.(active := false)
    case Go(who, accepted) => AfterGo(s, who, accepted)
  }

  predicate IsRun(s: State, steps: seq<Step>)
    decreases |steps|
  {
    steps != [] ==> Enabled(s, steps[0]) && IsRun(Next(s, steps[0]), steps[1..])
  }

  function After(s: State, steps: seq<Step>): State
    requires IsRun(s, steps)
    decreases |steps|
  {
    if steps == [] then s else After(Next(s, steps[0]), steps[1..])
  }

  // ---- Invariants --------------------------------------------------------------------------

  function Count(b: bool): nat { if b then 1 else 0 }

  predicate BeforeCount(t: Thread) { t.Looking? || t.Marking? || t.Responding? || t.Counting? }

  /** The body is what was received, or a chunk did not fit and the failure is known or under way. */
  ghost predicate BodyInv(s: State) {
    && |s.input.body| <= s.input.capacity && |s.input.body| <= |Joined(s.input.received)|
    && (s.input.body == Joined(s.input.received) || |Joined(s.input.received)| > s.input.capacity)
    && (|Joined(s.input.received)| > s.input.capacity ==> s.failed || FailureComing(s.stream))
    && (FailureComing(s.stream) ==> WrongLength(s))
    && (s.failed ==> WrongLength(s) || (s.authStarted && !s.authOk))
  }

  /** More than was announced has come, or something else at the end. */
  ghost predicate WrongLength(s: State) {
    |Joined(s.input.received)| > s.input.capacity || (s.input.ended && |Joined(s.input.received)| != s.input.capacity)
  }

  predicate FailureComing(t: Thread) { (t.Looking? || t.Marking?) && !t.ok }

  /** What each thread's place says about the flags. */
  predicate PlaceInv(s: State) {
    && (!s.auth.Idle? ==> s.authStarted)
    && (BeforeCount(s.auth) ==> !s.authCounted)
    && (s.auth.Looking? || s.auth.Marking? || s.auth.Counting? ==> s.auth.ok == s.authOk)
    && (s.auth.Responding? ==> !s.authOk)
    && (Failing(s.auth) || Failing(s.stream) ==> s.failed)
    && (BeforeCount(s.stream) ==> s.active && !s.endCounted)
    && (Succeeding(s.stream) ==> s.input.ended && |s.input.body| == s.input.capacity)
    && (s.endCounted ==> s.input.ended)
    && (s.authCounted ==> s.authStarted)
    && (s.authCounted && !s.failed ==> s.authOk)
    && (s.endCounted && !s.failed ==> |s.input.body| == s.input.capacity)
    && (s.auth.Deciding? ==> s.authCounted)
    && (s.stream.Deciding? && s.input.ended ==> s.endCounted)
    && (s.active && s.authStarted && s.auth.Idle? ==> s.authCounted)
    && (s.active && s.input.ended && s.stream.Idle? ==> s.endCounted)
  }

  predicate Failing(t: Thread) { t.Responding? || (t.Counting? && !t.ok) }

  predicate Succeeding(t: Thread) { (t.Looking? || t.Marking? || t.Counting?) && t.ok }

  predicate SawLast(t: Thread) { t.Deciding? && t.was == 1 }

  /** Without a failure the counter counts the two callbacks, one of which sees it reach zero. */
  predicate CountInv(s: State) {
    && s.pending < WRAP
    && (!s.failed ==>
          && s.counted == Count(s.authCounted) + Count(s.endCounted) == 2 - s.pending
          && |s.handled| + Count(SawLast(s.auth)) + Count(SawLast(s.stream)) == Count(s.authCounted && s.endCounted))
    && (s.failed ==> s.handled == [])
    && s.failures + Count(s.auth.Responding?) + Count(s.stream.Responding?) == Count(s.failed)
    && s.handlerFailures <= |s.handled|
    && (s.handled != [] ==> s.handled == [s.input.body])
  }

  ghost predicate Inv(s: State) { BodyInv(s) && PlaceInv(s) && CountInv(s) }

  /** The body changes with the stream's events only, and a coming failure comes. */
  lemma BodyKept(s: State, step: Step)
    requires Inv(s) && Enabled(s, step)
    ensures BodyInv(Next(s, step))
  {
    hide Joined, CountInv;
    if step.Go? {
      if step.who.Auth? { AuthLeavesBody(s, step.accepted); } else { StreamLeavesBody(s, step.accepted); }
      hide AfterGo, PlaceInv;
    } else if step.Chunk? {
      ChunkKeepsBody(s, step.data);
      hide BodyInv, PlaceInv, AfterGo;
    } else {
      hide AfterGo;
    }
  }

  lemma ChunkKeepsBody(s: State, data: seq<Byte>)
    requires BodyInv(s) && Enabled(s, Chunk(data))
    ensures BodyInv(Next(s, Chunk(data)))
  {
    JoinedAppend(s.input.received, data);
    hide Joined, AfterGo;
  }

  /** What the callbacks leave alone, and why they fail. */
  predicate LeavesBody(s: State, t: State) {
    && t.input == s.input
    && t.authStarted == s.authStarted && t.authOk == s.authOk
    && (s.failed ==> t.failed)
    && (FailureComing(s.stream) ==> t.failed || FailureComing(t.stream))
    && (FailureComing(t.stream) ==> FailureComing(s.stream))
    && (t.failed ==> s.failed || FailureComing(s.stream) || (s.authStarted && !s.authOk))
  }

  lemma AuthLeavesBody(s: State, accepted: bool)
    requires !s.auth.Idle? ==> s.authStarted
    requires s.auth.Marking? ==> s.auth.ok == s.authOk
    ensures LeavesBody(s, AfterGo(s, Auth, accepted))
  {
    if s.auth.Counting? || s.auth.Deciding? {
      CountLeavesBody(s, Auth);
      DecideLeavesBody(s, Auth, accepted);
      hide CountDown, Decide, LeavesBody;
    } else {
      hide CountDown, Decide;
    }
  }

  lemma StreamLeavesBody(s: State, accepted: bool)
    requires s.stream.Looking? ==> s.active
    ensures LeavesBody(s, AfterGo(s, Body, accepted))
  {
    if s.stream.Counting? || s.stream.Deciding? {
      CountLeavesBody(s, Body);
      DecideLeavesBody(s, Body, accepted);
      hide CountDown, Decide, LeavesBody;
    } else {
      hide CountDown, Decide;
    }
  }

  lemma CountLeavesBody(s: State, who: Who)
    requires who.Body? ==> !FailureComing(s.stream)
    ensures LeavesBody(s, CountDown(s, who))
  {
  }

  lemma DecideLeavesBody(s: State, who: Who, accepted: bool)
    requires who.Body? ==> !FailureComing(s.stream)
    ensures ThreadOf(s, who).Deciding? ==> LeavesBody(s, Decide(s, who, ThreadOf(s, who).was, accepted))
  {
  }

  lemma PlaceKept(s: State, step: Step)
    requires Inv(s) && Enabled(s, step)
    ensures PlaceInv(Next(s, step))
  {
    hide Joined, CountInv;
    if step.Go? {
      hide BodyInv;
      GoKeepsPlaces(s, step.who, step.accepted);
      hide AfterGo, PlaceInv;
    } else {
      hide AfterGo;
    }
  }

  lemma GoKeepsPlaces(s: State, who: Who, accepted: bool)
    requires PlaceInv(s)
    ensures PlaceInv(AfterGo(s, who, accepted))
  {
    if who.Auth? { AuthKeepsPlaces(s, accepted); } else { StreamKeepsPlaces(s, accepted); }
    hide AfterGo, PlaceInv;
  }

  lemma AuthKeepsPlaces(s: State, accepted: bool)
    requires PlaceInv(s)
    ensures PlaceInv(AfterGo(s, Auth, accepted))
  {
    if s.auth.Counting? {
      AuthCountDownPlaces(s);
      hide CountDown, PlaceInv;
    } else if s.auth.Deciding? {
      AuthDecidePlaces(s, accepted);
      hide Decide, PlaceInv;
    } else {
      hide CountDown, Decide;
    }
  }

  lemma AuthCountDownPlaces(s: State)
    requires PlaceInv(s) && s.auth.Counting?
    ensures PlaceInv(CountDown(s, Auth))
  {
  }

  lemma AuthDecidePlaces(s: State, accepted: bool)
    requires PlaceInv(s) && s.auth.Deciding?
    ensures PlaceInv(Decide(s, Auth, s.auth.was, accepted))
  {
  }

  lemma StreamKeepsPlaces(s: State, accepted: bool)
    requires PlaceInv(s)
    ensures PlaceInv(AfterGo(s, Body, accepted))
  {
    if s.stream.Counting? {
      StreamCountDownPlaces(s);
      hide CountDown, PlaceInv;
    } else if s.stream.Deciding? {
      StreamDecidePlaces(s, accepted);
      hide Decide, PlaceInv;
    } else {
      hide CountDown, Decide;
    }
  }

  lemma StreamCountDownPlaces(s: State)
    requires PlaceInv(s) && s.stream.Counting?
    ensures PlaceInv(CountDown(s, Body))
  {
  }

  lemma StreamDecidePlaces(s: State, accepted: bool)
    requires PlaceInv(s) && s.stream.Deciding?
    ensures PlaceInv(Decide(s, Body, s.stream.was, accepted))
  {
  }

  lemma CountKept(s: State, step: Step)
    requires Inv(s) && Enabled(s, step)
    ensures CountInv(Next(s, step))
  {
    hide Joined, BodyInv;
    if step.Go? {
      GoKeepsCounts(s, step.who, step.accepted);
      hide AfterGo, CountInv;
    } else {
      hide AfterGo;
    }
  }

  lemma GoKeepsCounts(s: State, who: Who, accepted: bool)
    requires PlaceInv(s) && CountInv(s)
    ensures CountInv(AfterGo(s, who, accepted))
  {
    if who.Auth? { AuthKeepsCounts(s, accepted); } else { StreamKeepsCounts(s, accepted); }
    hide AfterGo, CountInv, PlaceInv;
  }

  lemma AuthKeepsCounts(s: State, accepted: bool)
    requires PlaceInv(s) && CountInv(s)
    ensures CountInv(AfterGo(s, Auth, accepted))
  {
    if s.auth.Counting? {
      AuthCountDownCounts(s);
      hide CountDown, CountInv;
    } else if s.auth.Deciding? {
      AuthDecideCounts(s, accepted);
      hide Decide, CountInv;
    } else {
      hide CountDown, Decide;
    }
  }

  lemma AuthCountDownCounts(s: State)
    requires PlaceInv(s) && CountInv(s) && s.auth.Counting?
    ensures CountInv(CountDown(s, Auth))
  {
  }

  lemma AuthDecideCounts(s: State, accepted: bool)
    requires PlaceInv(s) && CountInv(s) && s.auth.Deciding?
    ensures CountInv(Decide(s, Auth, s.auth.was, accepted))
  {
  }

  lemma StreamKeepsCounts(s: State, accepted: bool)
    requires PlaceInv(s) && CountInv(s)
    ensures CountInv(AfterGo(s, Body, accepted))
  {
    if s.stream.Counting? {
      StreamCountDownCounts(s);
      hide CountDown, CountInv;
    } else if s.stream.Deciding? {
      StreamDecideCounts(s, accepted);
      hide Decide, CountInv;
    } else {
      hide CountDown, Decide;
    }
  }

  lemma StreamCountDownCounts(s: State)
    requires PlaceInv(s) && CountInv(s) && s.stream.Counting?
    ensures CountInv(CountDown(s, Body))
  {
  }

  lemma StreamDecideCounts(s: State, accepted: bool)
    requires PlaceInv(s) && CountInv(s) && s.stream.Deciding?
    ensures CountInv(Decide(s, Body, s.stream.was, accepted))
  {
  }

  lemma {:induction false} AlwaysInv(s: State, steps: seq<Step>)
    requires Inv(s) && IsRun(s, steps)
    ensures Inv(After(s, steps))
    decreases |steps|
  {
    if steps != [] {
      BodyKept(s, steps[0]);
      PlaceKept(s, steps[0]);
      CountKept(s, steps[0]);
      hide BodyInv, PlaceInv, CountInv, Next;
      AlwaysInv(Next(s, steps[0]), steps[1..]);
    }
  }

  // ---- What every interleaving gives ---------------------------------------------------------

  ghost predicate Reachable(s: State) {
    exists capacity, steps :: IsRun(Start(capacity), steps) && After(Start(capacity), steps) == s
  }

  lemma ReachableInv(s: State)
    requires Reachable(s)
    ensures Inv(s)
  {
    var capacity, steps :| IsRun(Start(capacity), steps) && After(Start(capacity), steps) == s;
    assert Inv(Start(capacity));
    AlwaysInv(Start(capacity), steps);
  }

  /** The handler is called at most once, and only for an authorized request whose body is all chunks
      in order and exactly as long as announced; and never both the handler is called and a callback
      has reported failure. */
  lemma HandledOnlyIfWhole(s: State)
    requires Reachable(s)
    ensures |s.handled| <= 1 && s.failures + s.handlerFailures <= 1
    ensures s.handled != [] ==>
              && s.authOk && s.input.ended && s.handled == [Joined(s.input.received)] && |Joined(s.input.received)| == s.input.capacity
              && s.failures == 0 && !s.failed
  {
    ReachableInv(s);
    hide Joined;
  }

  /** Once authorization and the end of the data have both been taken into account, exactly one thing
      has happened: the handler was called with the whole body, if authorization succeeded and the
      chunks add up to the announced length; else one failure was sent. */
  lemma ExactlyOneOutcome(s: State)
    requires Reachable(s) && s.auth.Idle? && s.stream.Idle? && s.authCounted && s.endCounted
    ensures if s.authOk && |Joined(s.input.received)| == s.input.capacity
            then s.handled == [Joined(s.input.received)] && s.failures == 0
            else s.handled == [] && s.failures == 1 && s.handlerFailures == 0
  {
    ReachableInv(s);
    hide Joined;
  }

  /** Both are taken into account unless the stream was closed first. */
  lemma CountedUnlessClosed(s: State)
    requires Reachable(s) && s.active && s.auth.Idle? && s.stream.Idle? && s.authStarted && s.input.ended
    ensures s.authCounted && s.endCounted
  {
    ReachableInv(s);
  }

  /** Whether a thread's next access calls the handler: it has brought the counter to zero and nothing has
      failed.  A handler that does not accept the request is answered with a failure, once. */
  lemma HandlerCallIff(s: State, who: Who, accepted: bool)
    requires Enabled(s, Go(who, accepted))
    ensures var t := Next(s, Go(who, accepted));
            if ThreadOf(s, who) == Deciding(1) && !s.failed
            then t.handled == s.handled + [s.input.body] && t.handlerFailures == s.handlerFailures + Count(!accepted)
            else t.handled == s.handled && t.handlerFailures == s.handlerFailures
  {
    if ThreadOf(s, who).Deciding? {
      hide Mark, CountDown;
    } else {
      hide Decide;
    }
  }

  /** Once the stream is closed, a callback that had not found the request before finds nothing: nothing is
      answered and no handler is called any more. */
  lemma {:induction false} NothingAfterClose(s: State, steps: seq<Step>)
    requires !s.active && s.stream.Idle? && (s.auth.Idle? || s.auth.Looking?) && IsRun(s, steps)
    ensures var t := After(s, steps);
            t.handled == s.handled && t.failures == s.failures && t.handlerFailures == s.handlerFailures && t.failed == s.failed
    decreases |steps|
  {
    if steps != [] {
      ClosedStep(s, steps[0]);
      hide Next, Enabled;
      NothingAfterClose(Next(s, steps[0]), steps[1..]);
    }
  }

  lemma ClosedStep(s: State, step: Step)
    requires !s.active && s.stream.Idle? && (s.auth.Idle? || s.auth.Looking?) && Enabled(s, step)
    ensures var t := Next(s, step);
            && !t.active && t.stream.Idle? && (t.auth.Idle? || t.auth.Looking?)
            && t.handled == s.handled && t.failures == s.failures && t.handlerFailures == s.handlerFailures && t.failed == s.failed
  {
    hide CountDown, Decide, Mark;
  }

  /** So it is from the moment the stream closes before authorization has answered. */
  lemma CloseSilences(s: State, steps: seq<Step>)
    requires Enabled(s, Close) && (s.auth.Idle? || s.auth.Looking?) && IsRun(Next(s, Close), steps)
    ensures var t := After(Next(s, Close), steps);
            t.handled == s.handled && t.failures == s.failures && t.handlerFailures == s.handlerFailures
  {
    NothingAfterClose(Next(s, Close), steps);
  }

  // ---- What happened to the request, told from the run -----------------------------------------------

  /** The chunks a run delivers, in order. */
  function ChunksOf(steps: seq<Step>): seq<seq<Byte>> {
    if steps == [] then [] else (if steps[0].Chunk? then [steps[0].data] else []) + ChunksOf(steps[1..])
  }

  lemma StepTells(s: State, step: Step)
    requires Enabled(s, step)
    ensures var t := Next(s, step);
            && t.input.capacity == s.input.capacity
            && t.input.received == s.input.received + (if step.Chunk? then [step.data] else [])
            && (t.input.ended <==> s.input.ended || step == End)
            && (t.active <==> s.active && step != Close)
            && (t.authStarted <==> s.authStarted || step.Authorized?)
            && t.authOk == if step.Authorized? then step.ok else s.authOk
  {
    if step.Go? {
      GoTells(s, step.who, step.accepted);
      hide AfterGo;
    } else {
      hide AfterGo;
      assert s.input.received + [] == s.input.received;
    }
  }

  /** The callbacks do not touch what the stream and the authorization have told. */
  predicate SameRequest(s: State, t: State) {
    t.input == s.input && t.active == s.active && t.authStarted == s.authStarted && t.authOk == s.authOk
  }

  lemma ThreadTells(s: State, who: Who, t: Thread)
    ensures SameRequest(s, WithThread(s, who, t))
  {
  }

  lemma GoTells(s: State, who: Who, accepted: bool)
    ensures SameRequest(s, AfterGo(s, who, accepted))
  {
    hide WithThread, CountDown, Decide, ThreadOf;
    match ThreadOf(s, who) {
      case Looking(ok) => ThreadTells(s, who, if s.active then Marking(ok) else Idle);
      case Marking(ok) =>
        ThreadTells(s.(failed := true), who, Responding);
        ThreadTells(s, who, Counting(ok));
      case Responding => ThreadTells(s.(failures := s.failures + 1), who, Counting(false));
      case Counting(_) => CountTells(s, who);
      case Deciding(was) => DecideTells(s, who, was, accepted);
      case Idle =>
    }
  }

  lemma CountTells(s: State, who: Who)
    ensures SameRequest(s, CountDown(s, who))
  {
  }

  lemma DecideTells(s: State, who: Who, was: nat, accepted: bool)
    ensures SameRequest(s, Decide(s, who, was, accepted))
  {
  }

  /** Whether authorization has answered, and how, and what the stream has delivered are what the run says. */
  lemma {:induction false} RunTells(s: State, steps: seq<Step>)
    requires IsRun(s, steps) && (s.authOk ==> s.authStarted)
    ensures var t := After(s, steps);
            && t.input.capacity == s.input.capacity && t.input.received == s.input.received + ChunksOf(steps)
            && (t.input.ended <==> s.input.ended || End in steps)
            && (t.active <==> s.active && Close !in steps)
            && (t.authOk <==> s.authOk || Authorized(true) in steps)
            && (t.authStarted <==> s.authStarted || Authorized(true) in steps || Authorized(false) in steps)
            && (t.authOk ==> t.authStarted) && (s.authStarted ==> t.authOk == s.authOk)
    decreases |steps|
  {
    if steps != [] {
      var first := if steps[0].Chunk? then [steps[0].data] else [];
      StepTells(s, steps[0]);
      assert steps[0].Authorized? ==> !s.authStarted;
      assert steps == [steps[0]] + steps[1..];
      hide Next, Enabled;
      RunTells(Next(s, steps[0]), steps[1..]);
      assert s.input.received + (first + ChunksOf(steps[1..])) == (s.input.received + first) + ChunksOf(steps[1..]);
    }
  }

  /** The whole protocol, told from the run alone.  When authorization has answered, the stream has reported
      its end without being closed, and both callbacks are over: the handler was called, once, with all
      chunks in order, if the answer was success and they add up to the announced length; else it was
      not called and one failure was sent. */
  lemma OutcomeOfRun(capacity: nat, steps: seq<Step>)
    requires IsRun(Start(capacity), steps) && Close !in steps && End in steps
    requires Authorized(true) in steps || Authorized(false) in steps
    requires After(Start(capacity), steps).auth.Idle? && After(Start(capacity), steps).stream.Idle?
    ensures var t, body := After(Start(capacity), steps), Joined(ChunksOf(steps));
            if Authorized(true) in steps && |body| == capacity
            then t.handled == [body] && t.failures == 0
            else t.handled == [] && t.failures == 1 && t.handlerFailures == 0
  {
    var t := After(Start(capacity), steps);
    RunTells(Start(capacity), steps);
    assert [] + ChunksOf(steps) == ChunksOf(steps);
    assert Reachable(t);
    hide IsRun, After, Joined, ChunksOf;
    CountedUnlessClosed(t);
    ExactlyOneOutcome(t);
  }
}
