/** The parallel reads of journal blobs: one issuer starts `n` reads, each read completes in a
    callback on some thread, and whoever brings the shared counter to zero continues.  Every access
    to shared state is a step of its own, so a run is any interleaving of them. */
module JournalReads {
  import opened Basics
  import opened JournalSpec
  import opened JournalStream

  type Error = nat

  /** One read: not started; started; its callback lost nothing but still has to store the error it
      won the flag for; its callback is done except for the counter; its callback is over; or the
      store refused to start it. */
  datatype Read =
    | NotIssued
    | Outstanding
    | Recording(error: Error)
    | Settled(ok: bool)
    | Done(ok: bool)
    | Refused

  /** The issuer: about to start read `i`; about to store the error of read `i - 1`; returned. */
  datatype Issuer = Issuing(i: nat) | IssuerRecording(i: nat, error: Error) | Returned

  /** What ends a call: an error handed back by the issuer, an error the context is finished with, or
      the continuation that returns logs. */
  datatype End = ReturnedError(error: Option<Error>) | FinishedError(error: Option<Error>) | Continued

  datatype State = State(
    counter: nat,
    failed: bool,
    error: Option<Error>,
    slots: seq<BytesBuffer>,
    calls: seq<Read>,
    refusals: nat,
    issuer: Issuer,
    ends: seq<End>)

  function Init(n: nat): State {
    State(n, false, None, seq(n, _ => Loaded([])), seq(n, _ => NotIssued), 0, Issuing(0), [])
  }

  datatype Action =
    | Issue
    | IssueRefused(error: Error)
    | IssuerStores
    | IssuerReturns
    | Fill(k: nat)
    | Fail(k: nat, error: Error)
    | Store(k: nat)
    | CountDown(k: nat)

  predicate Enabled(s: State, a: Action) {
    match a
    case Issue => s.issuer.Issuing? && s.issuer.i < |s.calls|
    case IssueRefused(_) => s.issuer.Issuing? && s.issuer.i < |s.calls|
    case IssuerStores => s.issuer.IssuerRecording?
    case IssuerReturns => s.issuer.Issuing? && s.issuer.i == |s.calls|
    case Fill(k) => k < |s.calls| && k < |s.slots| && s.calls[k].Outstanding?
    case Fail(k, _) => k < |s.calls| && s.calls[k].Outstanding?
    case Store(k) => k < |s.calls| && s.calls[k].Recording?
    case CountDown(k) => k < |s.calls| && s.calls[k].Settled? && s.counter > 0
  }

  function Apply(s: State, a: Action, fetched: seq<BytesBuffer>): State
    requires Enabled(s, a) && |fetched| == |s.slots|
  {
    match a
    case Issue =>
      s.(calls := s.calls[s.issuer.i := Outstanding], issuer := Issuing(s.issuer.i + 1))
    case IssueRefused(e) =>
      // Compare-and-swap on the failure flag; the winner stores its error next.
      s.(calls := s.calls[s.issuer.i := Refused], refusals := s.refusals + 1, failed := true,
         issuer := if s.failed then Issuing(s.issuer.i + 1) else IssuerRecording(s.issuer.i + 1, e))
    case IssuerStores =>
      s.(error := Some(s.issuer.error), issuer := Issuing(s.issuer.i))
    case IssuerReturns =>
      if s.refusals == 0 then s.(issuer := Returned)
      else
        // fetch_sub of all refusals at once
        s.(issuer := Returned,
           counter := if s.counter >= s.refusals then s.counter - s.refusals else 0,
           ends := if s.counter == s.refusals then s.ends + [ReturnedError(s.error)] else s.ends)
    case Fill(k) =>
      s.(slots := s.slots[k := fetched[k]], calls := s.calls[k := Settled(true)])
    case Fail(k, e) =>
      s.(failed := true, calls := s.calls[k := if s.failed then Settled(false) else Recording(e)])
    case Store(k) =>
      s.(error := Some(s.calls[k].error), calls := s.calls[k := Settled(false)])
    case CountDown(k) =>
      s.(counter := s.counter - 1,
         calls := s.calls[k := Done(s.calls[k].ok)],
         ends := if s.counter == 1
                 then s.ends + [if s.failed then FinishedError(s.error) else Continued]
                 else s.ends)
  }

  // ---- The invariant ---------------------------------------------------------------------

  /** Whether a read still has to be subtracted from the counter. */
  function Open(r: Read, returned: bool): nat {
    if r.Done? || (r.Refused? && returned) then 0 else 1
  }

  function Opens(rs: seq<Read>, returned: bool): nat {
    if rs == [] then 0 else Open(rs[0], returned) + Opens(rs[1..], returned)
  }

  function Refusals(rs: seq<Read>): nat {
    if rs == [] then 0 else (if rs[0].Refused? then 1 else 0) + Refusals(rs[1..])
  }

  function Issued(s: State): nat { if s.issuer.Returned? then |s.calls| else s.issuer.i }

  predicate FailedRead(r: Read) {
    r.Refused? || r.Recording? || ((r.Settled? || r.Done?) && !r.ok)
  }

  predicate ReadInv(s: State, fetched: seq<BytesBuffer>, k: nat)
    requires k < |s.calls| && k < |s.slots| && k < |fetched|
  {
    var r := s.calls[k];
    && (r.NotIssued? <==> k >= Issued(s))
    && ((r.Settled? || r.Done?) && r.ok ==> s.slots[k] == fetched[k])
    && (FailedRead(r) ==> s.failed)
  }

  predicate Inv(s: State, fetched: seq<BytesBuffer>) {
    && |s.calls| == |s.slots| == |fetched| > 0
    && Issued(s) <= |s.calls|
    && (forall k :: 0 <= k < |s.calls| ==> ReadInv(s, fetched, k))
    && s.counter == Opens(s.calls, s.issuer.Returned?)
    && s.refusals == Refusals(s.calls)
    && (s.failed ==> exists k :: 0 <= k < |s.calls| && FailedRead(s.calls[k]))
    // The flag is set by one actor, which has stored its error or is about to.
    && (s.failed ==> s.error.Some? || s.issuer.IssuerRecording?
                     || exists k :: 0 <= k < |s.calls| && s.calls[k].Recording?)
    && (s.issuer.IssuerRecording? ==> s.failed && exists k :: 0 <= k < |s.calls| && s.calls[k].Refused?)
    && |s.ends| == (if s.counter == 0 then 1 else 0)
    && (s.ends != [] ==> EndInv(s))
  }

  /** The end reported is the one the reads call for. */
  predicate EndInv(s: State)
    requires s.ends != []
  {
    if s.failed then s.error.Some? && (s.ends[0] == FinishedError(s.error) || s.ends[0] == ReturnedError(s.error))
    else s.ends[0] == Continued
  }

  lemma {:induction false} OpensUpdate(rs: seq<Read>, k: nat, r: Read, returned: bool)
    requires k < |rs|
    ensures Opens(rs[k := r], returned) == Opens(rs, returned) - Open(rs[k], returned) + Open(r, returned)
    ensures Refusals(rs[k := r])
            == Refusals(rs) - (if rs[k].Refused? then 1 else 0) + (if r.Refused? then 1 else 0)
  {
    if k == 0 {
      assert rs[0 := r][1..] == rs[1..];
    } else {
      OpensUpdate(rs[1..], k - 1, r, returned);
      assert rs[k := r][1..] == rs[1..][k - 1 := r];
    }
  }

  lemma {:induction false} OpensAtLeast(rs: seq<Read>, k: nat, returned: bool)
    requires k < |rs|
    ensures Open(rs[k], returned) <= Opens(rs, returned)
  {
    if k > 0 { OpensAtLeast(rs[1..], k - 1, returned); }
  }

  /** Returning closes exactly the refused reads. */
  lemma {:induction false} OpensReturned(rs: seq<Read>)
    ensures Opens(rs, false) == Opens(rs, true) + Refusals(rs)
  {
    if rs != [] { OpensReturned(rs[1..]); }
  }

  lemma InitInv(fetched: seq<BytesBuffer>)
    requires fetched != []
    ensures Inv(Init(|fetched|), fetched)
  {
    AllNotIssued(|fetched|);
  }

  lemma {:induction false} AllNotIssued(n: nat)
    ensures Opens(seq(n, _ => NotIssued), false) == n && Refusals(seq(n, _ => NotIssued)) == 0
  {
    if n > 0 {
      AllNotIssued(n - 1);
      assert seq(n, _ => NotIssued)[1..] == seq(n - 1, _ => NotIssued);
    }
  }

  // ---- Every step keeps it ---------------------------------------------------------------

  lemma IssuerStepInv(s: State, a: Action, fetched: seq<BytesBuffer>)
    requires Inv(s, fetched) && Enabled(s, a)
    requires a.Issue? || a.IssueRefused? || a.IssuerStores?
    ensures Inv(Apply(s, a, fetched), fetched)
  {
    hide Opens, Refusals;
    var t := Apply(s, a, fetched);
    if a.IssuerStores? {
      var r :| 0 <= r < |s.calls| && s.calls[r].Refused?;
      OpensAtLeast(s.calls, r, false);
      forall k | 0 <= k < |t.calls| ensures ReadInv(t, fetched, k) {
        assert ReadInv(s, fetched, k);
      }
    } else {
      var i := s.issuer.i;
      assert ReadInv(s, fetched, i);
      OpensUpdate(s.calls, i, t.calls[i], false);
      OpensAtLeast(s.calls, i, false);
      forall k | 0 <= k < |t.calls| ensures ReadInv(t, fetched, k) {
        assert ReadInv(s, fetched, k);
      }
      assert a.IssueRefused? ==> FailedRead(t.calls[i]);
      assert forall k :: 0 <= k < |s.calls| && FailedRead(s.calls[k]) ==> t.calls[k] == s.calls[k];
    }
  }

  lemma ReturnInv(s: State, fetched: seq<BytesBuffer>)
    requires Inv(s, fetched) && Enabled(s, IssuerReturns)
    ensures Inv(Apply(s, IssuerReturns, fetched), fetched)
  {
    hide Opens, Refusals;
    var t := Apply(s, IssuerReturns, fetched);
    OpensReturned(s.calls);
    forall k | 0 <= k < |t.calls| ensures ReadInv(t, fetched, k) {
      assert ReadInv(s, fetched, k);
    }
    if s.refusals > 0 {
      SomeRefused(s.calls);
      var r :| 0 <= r < |s.calls| && s.calls[r].Refused?;
      assert ReadInv(s, fetched, r);
      if t.counter == 0 {
        forall k | 0 <= k < |s.calls| ensures !s.calls[k].Recording? {
          OpensAtLeast(t.calls, k, true);
        }
      }
    }
  }

  lemma {:induction false} SomeRefused(rs: seq<Read>)
    requires Refusals(rs) > 0
    ensures exists k :: 0 <= k < |rs| && rs[k].Refused?
  {
    if !rs[0].Refused? {
      SomeRefused(rs[1..]);
      var k :| 0 <= k < |rs[1..]| && rs[1..][k].Refused?;
      assert rs[k + 1].Refused?;
    }
  }

  lemma CallbackStepInv(s: State, a: Action, fetched: seq<BytesBuffer>)
    requires Inv(s, fetched) && Enabled(s, a) && (a.Fill? || a.Fail? || a.Store?)
    ensures Inv(Apply(s, a, fetched), fetched)
  {
    hide Opens, Refusals;
    var t := Apply(s, a, fetched);
    var returned := s.issuer.Returned?;
    assert ReadInv(s, fetched, a.k);
    OpensUpdate(s.calls, a.k, t.calls[a.k], returned);
    OpensAtLeast(s.calls, a.k, returned);
    forall k | 0 <= k < |t.calls| ensures ReadInv(t, fetched, k) {
      assert ReadInv(s, fetched, k);
    }
    forall k | 0 <= k < |s.calls| && k != a.k ensures t.calls[k] == s.calls[k] {
    }
  }

  lemma CountDownInv(s: State, k: nat, fetched: seq<BytesBuffer>)
    requires Inv(s, fetched) && Enabled(s, CountDown(k))
    ensures Inv(Apply(s, CountDown(k), fetched), fetched)
  {
    hide Opens, Refusals;
    var t := Apply(s, CountDown(k), fetched);
    var returned := s.issuer.Returned?;
    assert ReadInv(s, fetched, k);
    OpensUpdate(s.calls, k, t.calls[k], returned);
    forall j | 0 <= j < |t.calls| ensures ReadInv(t, fetched, j) {
      assert ReadInv(s, fetched, j);
    }
    forall j | 0 <= j < |s.calls| && j != k ensures t.calls[j] == s.calls[j] {
    }
    if s.counter == 1 {
      forall j | 0 <= j < |s.calls| ensures !t.calls[j].Recording? && !(t.calls[j].Refused? && !returned) {
        OpensAtLeast(t.calls, j, returned);
      }
    }
  }

  // ---- Whole runs ------------------------------------------------------------------------

  lemma StepInv(s: State, a: Action, fetched: seq<BytesBuffer>)
    requires Inv(s, fetched) && Enabled(s, a)
    ensures Inv(Apply(s, a, fetched), fetched)
  {
    match a
    case Issue => IssuerStepInv(s, a, fetched);
    case IssueRefused(_) => IssuerStepInv(s, a, fetched);
    case IssuerStores => IssuerStepInv(s, a, fetched);
    case IssuerReturns => ReturnInv(s, fetched);
    case Fill(_) => CallbackStepInv(s, a, fetched);
    case Fail(_, _) => CallbackStepInv(s, a, fetched);
    case Store(_) => CallbackStepInv(s, a, fetched);
    case CountDown(k) => CountDownInv(s, k, fetched);
  }

  /** `run` is a sequence of enabled actions from `s`. */
  predicate IsRun(s: State, run: seq<Action>, fetched: seq<BytesBuffer>)
    requires |s.slots| == |fetched|
    decreases |run|
  {
    run != [] ==> Enabled(s, run[0]) && IsRun(Apply(s, run[0], fetched), run[1..], fetched)
  }

  function After(s: State, run: seq<Action>, fetched: seq<BytesBuffer>): State
    requires |s.slots| == |fetched| && IsRun(s, run, fetched)
    decreases |run|
  {
    if run == [] then s else After(Apply(s, run[0], fetched), run[1..], fetched)
  }

  lemma {:induction false} RunInv(s: State, run: seq<Action>, fetched: seq<BytesBuffer>)
    requires Inv(s, fetched) && IsRun(s, run, fetched)
    ensures Inv(After(s, run, fetched), fetched)
    decreases |run|
  {
    if run != [] {
      StepInv(s, run[0], fetched);
      RunInv(Apply(s, run[0], fetched), run[1..], fetched);
    }
  }

  /** Nothing is left to do: the issuer has returned and every started read is over. */
  predicate Quiescent(s: State) {
    s.issuer.Returned? && forall k :: 0 <= k < |s.calls| ==> s.calls[k].Done? || s.calls[k].Refused?
  }

  /** Some read was refused or failed in its callback. */
  predicate SomeFailure(s: State) {
    exists k :: 0 <= k < |s.calls| && FailedRead(s.calls[k])
  }

  /** In no interleaving do two actors bring the counter to zero. */
  lemma AtMostOneEnd(run: seq<Action>, st: Store, ids: seq<nat>)
    requires ids != [] && forall x :: x in ids ==> x in st.journals
    requires IsRun(Init(|ids|), run, Fetched(st, ids))
    ensures |After(Init(|ids|), run, Fetched(st, ids)).ends| <= 1
  {
    InitInv(Fetched(st, ids));
    RunInv(Init(|ids|), run, Fetched(st, ids));
  }

  // ---- Which error, and who ends how ---------------------------------------------------------

  /** The error an action fails with, if it is a failure. */
  function OwnFailure(a: Action): Option<Error> {
    match a
    case IssueRefused(e) => Some(e)
    case Fail(_, e) => Some(e)
    case _ => None
  }

  /** The error of the first read that failed, at issue or in its callback. */
  function FirstFailure(run: seq<Action>): Option<Error> {
    if run == [] then None else Either(OwnFailure(run[0]), FirstFailure(run[1..]))
  }

  function Either(first: Option<Error>, second: Option<Error>): Option<Error> {
    if first.Some? then first else second
  }

  /** The error recorded, or about to be, is the first. */
  predicate ErrorInv(s: State, first: Option<Error>) {
    && (s.failed <==> first.Some?)
    && (s.error.Some? ==> s.error == first)
    && (s.issuer.IssuerRecording? ==> Some(s.issuer.error) == first)
    && (forall k :: 0 <= k < |s.calls| && s.calls[k].Recording? ==> Some(s.calls[k].error) == first)
  }

  lemma StepError(s: State, a: Action, fetched: seq<BytesBuffer>, first: Option<Error>)
    requires Enabled(s, a) && |fetched| == |s.slots| && ErrorInv(s, first)
    ensures ErrorInv(Apply(s, a, fetched), Either(first, OwnFailure(a)))
  {
  }

  lemma {:induction false} RunError(s: State, run: seq<Action>, fetched: seq<BytesBuffer>, first: Option<Error>)
    requires |s.slots| == |fetched| && IsRun(s, run, fetched) && ErrorInv(s, first)
    ensures ErrorInv(After(s, run, fetched), Either(first, FirstFailure(run)))
    decreases |run|
  {
    if run != [] {
      StepError(s, run[0], fetched, first);
      hide ErrorInv;
      RunError(Apply(s, run[0], fetched), run[1..], fetched, Either(first, OwnFailure(run[0])));
    }
  }

  /** In every run, the error recorded is the one of the first read that failed; and there is a failed
      read if and only if there was such an action. */
  lemma RecordedIsFirst(run: seq<Action>, st: Store, ids: seq<nat>)
    requires ids != [] && forall x :: x in ids ==> x in st.journals
    requires IsRun(Init(|ids|), run, Fetched(st, ids))
    ensures var s := After(Init(|ids|), run, Fetched(st, ids));
            && (s.error.Some? ==> s.error == FirstFailure(run))
            && (SomeFailure(s) <==> FirstFailure(run).Some?)
  {
    hide After, IsRun;
    var fetched := Fetched(st, ids);
    InitInv(fetched);
    RunInv(Init(|ids|), run, fetched);
    RunError(Init(|ids|), run, fetched, None);
    var s := After(Init(|ids|), run, fetched);
    hide Opens, Refusals;
    if SomeFailure(s) {
      var k :| 0 <= k < |s.calls| && FailedRead(s.calls[k]);
      assert ReadInv(s, fetched, k);
    }
  }

  /** Whoever brings the counter to zero ends the call in its own way: the issuer hands the error back, a
      callback finishes the context with it, or continues when nothing has failed. */
  lemma ZeroEndsCall(s: State, a: Action, fetched: seq<BytesBuffer>)
    requires Inv(s, fetched) && Enabled(s, a) && s.counter > 0 && Apply(s, a, fetched).counter == 0
    ensures var t := Apply(s, a, fetched);
            || (a.IssuerReturns? && t.error.Some? && t.ends == [ReturnedError(t.error)])
            || (a.CountDown? && t.ends == [if t.failed then FinishedError(t.error) else Continued])
  {
    StepInv(s, a, fetched);
    hide Opens, Refusals;
    if a.IssuerReturns? && s.refusals > 0 {
      SomeRefused(s.calls);
      var r :| 0 <= r < |s.calls| && s.calls[r].Refused?;
      assert ReadInv(s, fetched, r);
    }
  }

  /** The moment the counter reaches zero, in every interleaving: each read is over, each successful one
      has filled its slot, and the end carries the error already recorded, or, if none failed, is the
      continuation, which finds every slot holding its own journal. */
  lemma EndMoment(run: seq<Action>, st: Store, ids: seq<nat>)
    requires ids != [] && forall x :: x in ids ==> x in st.journals
    requires IsRun(Init(|ids|), run, Fetched(st, ids))
    ensures var s, fetched := After(Init(|ids|), run, Fetched(st, ids)), Fetched(st, ids);
            && |s.calls| == |s.slots| == |ids|
            && (s.counter == 0 <==> s.ends != [])
            && (s.ends != [] ==>
                  && (forall k :: 0 <= k < |ids| ==> s.calls[k] == Refused || s.calls[k] == Done(false)
                                                     || (s.calls[k] == Done(true) && s.slots[k] == fetched[k]))
                  && (SomeFailure(s) <==> FirstFailure(run).Some?)
                  && if SomeFailure(s)
                     then s.error == FirstFailure(run) && s.ends[0] in {ReturnedError(s.error), FinishedError(s.error)}
                     else s.ends == [Continued] && s.slots == fetched)
  {
    RecordedIsFirst(run, st, ids);
    hide After, IsRun, FirstFailure;
    var fetched := Fetched(st, ids);
    InitInv(fetched);
    RunInv(Init(|ids|), run, fetched);
    var s := After(Init(|ids|), run, fetched);
    hide Opens, Refusals;
    if s.ends != [] {
      forall k | 0 <= k < |s.calls|
        ensures ReadInv(s, fetched, k) && (s.calls[k].Done? || s.calls[k].Refused?)
      {
        OpensAtLeast(s.calls, k, s.issuer.Returned?);
      }
    }
  }

  /** When all is over exactly one actor has ended the call: with a recorded error if any read was
      refused or failed, and otherwise by continuing with every slot holding its own journal. */
  lemma ExactlyOneEnd(run: seq<Action>, st: Store, ids: seq<nat>)
    requires ids != [] && forall x :: x in ids ==> x in st.journals
    requires IsRun(Init(|ids|), run, Fetched(st, ids))
    requires Quiescent(After(Init(|ids|), run, Fetched(st, ids)))
    ensures var s := After(Init(|ids|), run, Fetched(st, ids));
            && |s.ends| == 1
            && (SomeFailure(s) ==> s.error.Some? && s.error == FirstFailure(run)
                                   && s.ends[0] in {ReturnedError(s.error), FinishedError(s.error)})
            && (!SomeFailure(s) ==> s.ends[0] == Continued && s.slots == Fetched(st, ids))
  {
    hide After, IsRun;
    var fetched := Fetched(st, ids);
    InitInv(fetched);
    RunInv(Init(|ids|), run, fetched);
    AllClosed(After(Init(|ids|), run, fetched).calls);
    EndMoment(run, st, ids);
  }

  lemma {:induction false} AllClosed(rs: seq<Read>)
    requires forall k :: 0 <= k < |rs| ==> rs[k].Done? || rs[k].Refused?
    ensures Opens(rs, true) == 0
  {
    if rs != [] { AllClosed(rs[1..]); }
  }

  // ---- Every run ends --------------------------------------------------------------------

  function ReadRank(r: Read): nat {
    match r
    case NotIssued => 3
    case Outstanding => 3
    case Recording(_) => 2
    case Settled(_) => 1
    case Done(_) => 0
    case Refused => 0
  }

  function ReadRanks(rs: seq<Read>): nat {
    if rs == [] then 0 else ReadRank(rs[0]) + ReadRanks(rs[1..])
  }

  function Rank(s: State): int {
    ReadRanks(s.calls)
    + match s.issuer
      case Issuing(i) => (|s.calls| - i) * 2 + 1
      case IssuerRecording(i, _) => (|s.calls| - i) * 2 + 2
      case Returned => 0
  }

  lemma {:induction false} RanksUpdate(rs: seq<Read>, k: nat, r: Read)
    requires k < |rs|
    ensures ReadRanks(rs[k := r]) == ReadRanks(rs) - ReadRank(rs[k]) + ReadRank(r)
  {
    if k == 0 {
      assert rs[0 := r][1..] == rs[1..];
    } else {
      RanksUpdate(rs[1..], k - 1, r);
      assert rs[k := r][1..] == rs[1..][k - 1 := r];
    }
  }

  lemma StepLowersRank(s: State, a: Action, fetched: seq<BytesBuffer>)
    requires Inv(s, fetched) && Enabled(s, a)
    ensures Rank(Apply(s, a, fetched)) < Rank(s)
  {
    hide ReadRanks;
    if a.Issue? || a.IssueRefused? {
      assert ReadInv(s, fetched, s.issuer.i);
      RanksUpdate(s.calls, s.issuer.i, Apply(s, a, fetched).calls[s.issuer.i]);
    } else if !a.IssuerStores? && !a.IssuerReturns? {
      RanksUpdate(s.calls, a.k, Apply(s, a, fetched).calls[a.k]);
    }
  }

  /** No run takes more steps than its starting state's rank. */
  lemma {:induction false} RunIsBounded(s: State, run: seq<Action>, fetched: seq<BytesBuffer>)
    requires Inv(s, fetched) && IsRun(s, run, fetched)
    ensures |run| <= Rank(s)
    decreases |run|
  {
    if run != [] {
      StepInv(s, run[0], fetched);
      StepLowersRank(s, run[0], fetched);
      RunIsBounded(Apply(s, run[0], fetched), run[1..], fetched);
    }
  }

  /** A run can always go on until all is over. */
  lemma NeverStuck(s: State, fetched: seq<BytesBuffer>)
    requires Inv(s, fetched) && !Quiescent(s)
    ensures exists a :: Enabled(s, a)
  {
    if !s.issuer.Returned? {
      assert Enabled(s, Issue) || Enabled(s, IssuerStores) || Enabled(s, IssuerReturns);
    } else {
      var k :| 0 <= k < |s.calls| && !(s.calls[k].Done? || s.calls[k].Refused?);
      assert ReadInv(s, fetched, k);
      OpensAtLeast(s.calls, k, true);
      assert Enabled(s, Fill(k)) || Enabled(s, Action.Store(k)) || Enabled(s, CountDown(k));
    }
  }
}
