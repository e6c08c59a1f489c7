/** What a whole recovery returns: the two modes against each other, and against the store. */
module JournalRecovery {
  import opened Basics
  import opened JournalSpec
  import Seqs

  // ---- Which journals --------------------------------------------------------------------

  lemma {:induction false} InRangeAscending(ids: seq<nat>, low: nat, high: nat)
    requires Ascending(ids)
    ensures Ascending(InRange(ids, low, high))
  {
    if ids != [] {
      InRangeAscending(ids[1..], low, high);
      AscendingCons(ids, InRange(ids[1..], low, high));
    }
  }

  lemma AscendingCons(ids: seq<nat>, tail: seq<nat>)
    requires Ascending(ids) && ids != [] && Ascending(tail) && forall x :: x in tail ==> x in ids[1..]
    ensures Ascending([ids[0]] + tail) && [] + tail == tail
  {
    var all := [ids[0]] + tail;
    forall i, j | 0 <= i < j < |all| ensures all[i] < all[j] {
      if i == 0 {
        assert tail[j - 1] in ids[1..];
        var k :| 0 <= k < |ids[1..]| && ids[1..][k] == tail[j - 1];
        assert ids[0] < ids[k + 1];
      }
    }
  }

  lemma {:induction false} InRangeOfRest(ids: seq<nat>, low: nat, high: nat)
    requires Ascending(ids)
    ensures InRange(Rest(ids, After(low)), low, high) == InRange(ids, low, high)
  {
    if ids != [] && ids[0] <= low {
      InRangeOfRest(ids[1..], low, high);
    }
  }

  /** With a positive limit a recovery reads the first journals the store has beyond those the
      checkpoint covers and up to the requested id. */
  lemma PlannedFromWholeStore(st: Store, req: Request)
    requires st.Valid() && req.maxJournals > 0
    ensures PlannedIds(st, req) == Take(InRange(st.journalIds, Covered(st), req.maxJournalId), req.maxJournals)
  {
    InRangeOfRest(st.journalIds, Covered(st), req.maxJournalId);
  }

  /** No duplicate and no gap: planned ids ascend, and a stored id between the covered ones and a
      planned one is itself planned. */
  lemma PlannedAscendingWithoutGap(st: Store, req: Request)
    requires st.Valid() && req.maxJournals > 0
    ensures Ascending(PlannedIds(st, req))
    ensures forall x, y :: x in st.journalIds && y in PlannedIds(st, req) && Covered(st) < x <= y ==> x in PlannedIds(st, req)
  {
    var eligible := InRange(st.journalIds, Covered(st), req.maxJournalId);
    InRangeAscending(st.journalIds, Covered(st), req.maxJournalId);
    PlannedFromWholeStore(st, req);
    forall x, y | x in st.journalIds && y in PlannedIds(st, req) && Covered(st) < x <= y
      ensures x in PlannedIds(st, req)
    {
      assert x in eligible;
      var i :| 0 <= i < |eligible| && eligible[i] == x;
      var j :| 0 <= j < |PlannedIds(st, req)| && PlannedIds(st, req)[j] == y;
      assert eligible[j] == y;
      assert PlannedIds(st, req)[i] == x;
    }
  }

  // ---- From which checkpoint ---------------------------------------------------------------

  /** The checkpoint to start from: the one the `last_checkpoint` blob names or, without that blob, the
      highest listed one. */
  ghost predicate StartsFrom(st: Store, c: nat) {
    && c != INVALID_ID
    && (st.lastCheckpoint == Some(c)
        || (st.lastCheckpoint == None && c in st.checkpointIds && forall x :: x in st.checkpointIds ==> x <= c))
  }

  /** There is none. */
  ghost predicate StartsFromNothing(st: Store) {
    st.lastCheckpoint == None && forall x :: x in st.checkpointIds ==> x == INVALID_ID
  }

  lemma CheckpointFound(st: Store, c: nat)
    requires st.Valid() && (if c == INVALID_ID then StartsFromNothing(st) else StartsFrom(st, c))
    ensures CheckpointInUse(st) == c
    ensures c != INVALID_ID ==> c in st.checkpoints && Covered(st) == st.checkpoints[c].lastProcessed
    ensures c == INVALID_ID ==> Covered(st) == INVALID_ID
  {
    if st.lastCheckpoint.None? { HighestIsLast(st.checkpointIds, c); }
  }

  /** What is read behind `low`, and the last journal covered then. */
  lemma PlannedBehind(st: Store, req: Request, low: nat)
    requires st.Valid() && Covered(st) == low && req.maxJournals > 0
    ensures PlannedIds(st, req) == Take(InRange(st.journalIds, low, req.maxJournalId), req.maxJournals)
    ensures |st.journalIds| <= req.maxJournals ==>
              forall x :: x in PlannedIds(st, req) <==> x in st.journalIds && low < x <= req.maxJournalId
    ensures IsLastCovered(LastPlanned(st, req), PlannedIds(st, req), low)
  {
    PlannedFromWholeStore(st, req);
    InRangeNotLonger(st.journalIds, low, req.maxJournalId);
    PlannedAscendingWithoutGap(st, req);
    hide PlannedIds, Covered;
    var ids := PlannedIds(st, req);
    assert ids != [] ==> ids[|ids| - 1] in ids;
  }

  /** With a checkpoint, the journals read are the first ones behind the last journal that checkpoint has
      processed, up to the requested id; without a limit in the way, all of them.  The result is the
      checkpoint's logs and then theirs, and the last of them is the last journal covered. */
  lemma RecoversFromCheckpoint(st: Store, req: Request, c: nat)
    requires st.Valid() && StartsFrom(st, c) && req.maxJournals > 0
    ensures c in st.checkpoints
    ensures PlannedIds(st, req) == Take(InRange(st.journalIds, st.checkpoints[c].lastProcessed, req.maxJournalId), req.maxJournals)
    ensures |st.journalIds| <= req.maxJournals ==>
              forall x :: x in PlannedIds(st, req) <==> x in st.journalIds && st.checkpoints[c].lastProcessed < x <= req.maxJournalId
    ensures var ids := PlannedIds(st, req);
            && (ids == [] && !req.readCheckpointAlone ==> LoadAllYield(st, req) == [])
            && (ids != [] || req.readCheckpointAlone ==>
                  LoadAllYield(st, req) == Logs(Source(c, st.checkpoints[c].blob)) + AllLogs(JournalSources(st, ids)))
    ensures IsLastCovered(LastPlanned(st, req), PlannedIds(st, req), st.checkpoints[c].lastProcessed)
  {
    CheckpointFound(st, c);
    PlannedBehind(st, req, st.checkpoints[c].lastProcessed);
    var ids, checkpoint := PlannedIds(st, req), Source(c, st.checkpoints[c].blob);
    hide PlannedIds, InRange, Take, AllLogs, Covered, LastPlanned, Logs, IsLastCovered;
    AllLogsConcat([checkpoint], JournalSources(st, ids));
    SingleSource(checkpoint);
  }

  /** Without a checkpoint they are the first ones of the store, and the result is their logs. */
  lemma RecoversWithoutCheckpoint(st: Store, req: Request)
    requires st.Valid() && StartsFromNothing(st) && req.maxJournals > 0
    ensures PlannedIds(st, req) == Take(InRange(st.journalIds, INVALID_ID, req.maxJournalId), req.maxJournals)
    ensures |st.journalIds| <= req.maxJournals ==>
              forall x :: x in PlannedIds(st, req) <==> x in st.journalIds && INVALID_ID < x <= req.maxJournalId
    ensures LoadAllYield(st, req) == AllLogs(JournalSources(st, PlannedIds(st, req)))
    ensures IsLastCovered(LastPlanned(st, req), PlannedIds(st, req), INVALID_ID)
  {
    CheckpointFound(st, INVALID_ID);
    PlannedBehind(st, req, INVALID_ID);
    var js := JournalSources(st, PlannedIds(st, req));
    hide PlannedIds, InRange, Take, Covered, LastPlanned, Logs, IsLastCovered;
    assert [] + js == js;
    assert PlannedIds(st, req) == [] ==> js == [];
  }

  /** The highest of the journals read, or what was covered before when there are none. */
  ghost predicate IsLastCovered(last: nat, ids: seq<nat>, before: nat) {
    if ids == [] then last == before else last in ids && forall x :: x in ids ==> x <= last
  }

  lemma {:induction false} InRangeNotLonger(ids: seq<nat>, low: nat, high: nat)
    ensures |InRange(ids, low, high)| <= |ids|
  {
    if ids != [] { InRangeNotLonger(ids[1..], low, high); }
  }

  /** The limit is kept exactly when it is positive or the first listed id is out of range. */
  lemma LimitKeptIff(listed: seq<nat>, low: nat, req: Request)
    ensures |Selected(listed, low, req)| <= req.maxJournals
            <==> req.maxJournals > 0 || listed == [] || !(low < listed[0] <= req.maxJournalId)
  {
    if req.maxJournals == 0 && listed != [] {
      var first := Take(listed, 1);
      assert first == [listed[0]] && first[1..] == [];
      assert InRange(first[1..], low, req.maxJournalId) == [];
    }
  }

  /** A limit of zero that is not kept: the one journal there is is read. */
  lemma ZeroLimitExample()
    ensures Selected([1], 0, Request(5, 0, false)) == [1]
  {
    assert Take([1], 1) == [1] && [1][1..] == [];
    assert InRange([1][1..], 0, 5) == [];
  }

  // ---- Which logs ------------------------------------------------------------------------

  /** Where the logs of blob `i` start. */
  function StartOf(ss: seq<Source>, i: nat): nat
    requires i <= |ss|
  {
    if i == 0 then 0 else StartOf(ss, i - 1) + |ss[i - 1].blob|
  }

  lemma {:induction false} StartOfTail(ss: seq<Source>, i: nat)
    requires 0 < i <= |ss|
    ensures StartOf(ss, i) == |ss[0].blob| + StartOf(ss[1..], i - 1)
  {
    if i > 1 { StartOfTail(ss, i - 1); }
  }

  /** Every record of every blob is returned once, in order, tagged with its own blob's id. */
  lemma {:induction false} EachRecordOnce(ss: seq<Source>, i: nat, j: nat)
    requires i < |ss| && j < |ss[i].blob|
    ensures |AllLogs(ss)| == StartOf(ss, |ss|)
    ensures StartOf(ss, i) + j < |AllLogs(ss)|
    ensures AllLogs(ss)[StartOf(ss, i) + j] == TaggedLog(ss[i].blob[j].header, ss[i].blob[j].body, ss[i].id)
    decreases |ss|
  {
    CountLogs(ss);
    if i > 0 {
      EachRecordOnce(ss[1..], i - 1, j);
      StartOfTail(ss, i);
    }
  }

  lemma {:induction false} CountLogs(ss: seq<Source>)
    ensures |AllLogs(ss)| == StartOf(ss, |ss|)
  {
    if ss != [] {
      CountLogs(ss[1..]);
      StartOfTail(ss, |ss|);
    }
  }

  // ---- The two modes ---------------------------------------------------------------------

  /** No window holds more journals than configured, and only the last one fewer. */
  lemma {:induction false} WindowsAreFull(js: seq<Source>, n: Pos, i: nat)
    requires i < |Chunks(js, n)|
    ensures 0 < |Chunks(js, n)[i]| <= n
    ensures i < |Chunks(js, n)| - 1 ==> |Chunks(js, n)[i]| == n
    decreases |js|
  {
    if i > 0 { WindowsAreFull(js[|Take(js, n)|..], n, i - 1); }
  }

  /** The first window is a chunk with the checkpoint in front of it, the others are chunks. */
  lemma WindowsAreChunks(checkpoint: seq<Source>, js: seq<Source>, n: Pos)
    requires js != []
    ensures |Windows(checkpoint, js, n)| == |Chunks(js, n)|
    ensures Windows(checkpoint, js, n)[0] == checkpoint + Chunks(js, n)[0]
    ensures Windows(checkpoint, js, n)[1..] == Chunks(js, n)[1..]
  {
  }

  /** Windowed recovery never returns anything else than load-all recovery, and returns all of it
      exactly when no logs follow a window that ends in an empty blob after full batches only. */
  lemma ModesAgreeIff(st: Store, req: Request, perWindow: Pos, batch: Pos)
    requires st.Valid()
    ensures BatchedYield(st, req, perWindow, batch) <= LoadAllYield(st, req)
    ensures BatchedYield(st, req, perWindow, batch) == LoadAllYield(st, req)
            <==> NothingToDo(st, req) || NoLogsAfterStall(PlannedWindows(st, req, perWindow), batch)
  {
    hide NoLogsAfterStall, WindowedYield, AllLogs;
    var js := JournalSources(st, PlannedIds(st, req));
    WindowsFlatten(CheckpointSources(st), js, perWindow);
    WindowedYieldIsPrefix(PlannedWindows(st, req, perWindow), batch);
  }

  lemma {:induction false} ChunksEndNonEmpty(s: seq<Source>, n: Pos, i: nat)
    requires (forall k :: 0 <= k < |s| ==> s[k].blob != []) && i < |Chunks(s, n)|
    ensures !EndsEmpty(Chunks(s, n)[i])
    decreases |s|
  {
    if i > 0 {
      ChunksEndNonEmpty(s[|Take(s, n)|..], n, i - 1);
    }
  }

  /** When every journal holds a log the two modes return the same, for every window and batch size. */
  lemma ModesAgreeOnNonEmptyJournals(st: Store, req: Request, perWindow: Pos, batch: Pos)
    requires st.Valid() && forall x :: x in st.journalIds ==> st.journals[x] != []
    ensures BatchedYield(st, req, perWindow, batch) == LoadAllYield(st, req)
  {
    var js, ws := JournalSources(st, PlannedIds(st, req)), PlannedWindows(st, req, perWindow);
    assert forall k :: 0 <= k < |js| ==> js[k].blob != [];
    assert AllLogs(Seqs.Flatten([])) == [];
    hide PlannedIds, AllLogs, InFullBatches, JournalSources;
    forall i | 0 <= i < |ws| && Stalls(ws[i], batch)
      ensures AllLogs(Seqs.Flatten(ws[i + 1..])) == []
    {
      if js == [] {
        assert ws[i + 1..] == [];
      } else if i > 0 {
        ChunksEndNonEmpty(js[|Take(js, perWindow)|..], perWindow, i - 1);
      }
    }
    ModesAgreeIff(st, req, perWindow, batch);
  }

  /** One empty journal is enough to lose what follows: with one journal per window an empty first
      journal ends the stream, whatever the second one holds. */
  lemma EmptyJournalEndsStreamEarly(st: Store, req: Request, a: nat, b: nat, batch: Pos)
    requires st.Valid() && CheckpointInUse(st) == INVALID_ID && PlannedIds(st, req) == [a, b]
    requires a in st.journals && b in st.journals && st.journals[a] == []
    ensures BatchedYield(st, req, 1, batch) == []
    ensures LoadAllYield(st, req) == Logs(Source(b, st.journals[b]))
  {
    hide PlannedIds, WindowedYield, Windows, AllLogs, JournalSources;
    var empty, second := Source(a, []), Source(b, st.journals[b]);
    EmptyFirstSource(empty, second, batch);
    assert JournalSources(st, [a, b]) == [empty, second];
    assert [] + [empty, second] == [empty, second];
  }

  lemma EmptyFirstSource(empty: Source, second: Source, batch: Pos)
    requires empty.blob == []
    ensures WindowedYield(Windows([], [empty, second], 1), batch) == []
    ensures AllLogs([empty, second]) == Logs(second)
  {
    var ws := Windows([], [empty, second], 1);
    assert ws[0] == [empty] by { assert Take([empty, second], 1) == [empty] && [] + [empty] == [empty]; }
    SingleSource(empty);
    SingleSource(second);
    hide *;
    UnfoldYield(ws, batch);
    EmptyStalls(empty, batch);
    AllLogsConcat([empty], [second]);
    assert [empty] + [second] == [empty, second];
    assert Logs(empty) == [];
  }

  lemma EmptyStalls(empty: Source, batch: Pos)
    requires empty.blob == []
    ensures Stalls([empty], batch) && Logs(empty) == []
  {
    SingleSource(empty);
  }

  lemma SingleSource(s: Source)
    ensures AllLogs([s]) == Logs(s)
  {
    assert [s][1..] == [];
  }

  /** Such a store exists, with a log in its second journal. */
  lemma EmptyJournalExample(log: Record) returns (st: Store, req: Request)
    ensures st.Valid() && CheckpointInUse(st) == INVALID_ID && PlannedIds(st, req) == [1, 2]
    ensures st.journals == map[1 := [], 2 := [log]]
  {
    st, req := Store(None, [], map[], [1, 2], map[1 := [], 2 := [log]]), Request(2, 2, false);
    assert [1, 2][1..] == [2] && [2][1..] == [];
    assert InRange([2], 0, 2) == [2] && InRange([1, 2], 0, 2) == [1, 2];
  }
}
