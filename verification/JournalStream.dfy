/** The journal recovery stream: checkpoint discovery, paged listing, windowed loading and the
    cursor that hands logs back in bounded batches. */
module JournalStream {
  import opened Basics
  import opened JournalSpec
  import JournalListing
  import Seqs

  /** A buffer slot: decoded from when loaded, without bytes once released. */
  datatype BytesBuffer = Loaded(blob: Blob) | Released
  {
    function Size(): nat { if Loaded? then Length(blob) else 0 }
  }

  /** Why a recovery cannot start. */
  datatype Error = InvalidLastCheckpoint | CheckpointNotFound

  datatype Outcome = ReadLogs(logs: seq<TaggedLog>) | EndOfStream | Failure(error: Error)

  /** The error a recovery from this store starts with, if any. */
  function StartError(st: Store): (r: Option<Error>)
    ensures r.None? <==> st.CheckpointReadable()
    ensures r == Some(InvalidLastCheckpoint) <==> st.lastCheckpoint == Some(INVALID_ID)
  {
    if st.lastCheckpoint.None? then None
    else if st.lastCheckpoint.value == INVALID_ID then Some(InvalidLastCheckpoint)
    else if st.lastCheckpoint.value !in st.checkpoints then Some(CheckpointNotFound)
    else None
  }

  function Fetched(st: Store, ids: seq<nat>): (r: seq<BytesBuffer>)
    requires forall x :: x in ids ==> x in st.journals
    ensures |r| == |ids|
    ensures forall i :: 0 <= i < |ids| ==> r[i] == Loaded(st.journals[ids[i]])
  {
    seq(|ids|, i requires 0 <= i < |ids| => Loaded(st.journals[ids[i]]))
  }

  ghost predicate BuffersHold(buffers: seq<BytesBuffer>, ss: seq<Source>) {
    |buffers| == |ss| && forall i :: 0 <= i < |ss| ==> buffers[i] == Loaded(ss[i].blob)
  }

  lemma FetchedHold(st: Store, buffers: seq<BytesBuffer>, ss: seq<Source>, ids: seq<nat>)
    requires BuffersHold(buffers, ss) && forall x :: x in ids ==> x in st.journals
    ensures BuffersHold(buffers + Fetched(st, ids), ss + JournalSources(st, ids))
  {
  }

  class JournalInputStream {
    const store: Store
    const journalPager: Pager
    const checkpointPager: Pager
    const enableBatchRead: bool
    const journalsPerBatch: Pos
    const logsToReturn: Pos

    var journalsLoaded: bool
    var journalIdsLoaded: bool
    var lastCheckpointId: nat
    var lastProcessedJournalId: nat
    var journalIds: seq<nat>
    var journalBuffers: seq<BytesBuffer>
    var currentBufferIndex: nat
    var currentBufferOffset: nat
    var windowStart: nat
    var windowLength: nat

    /** The blobs the loaded buffers were filled from, in buffer order. */
    ghost var sources: seq<Source>
    /** What the windows not loaded yet will return. */
    ghost var future: seq<TaggedLog>
    /** Index of the record at `currentBufferOffset` in the current buffer. */
    ghost var position: nat

    // ---- Abstraction ---------------------------------------------------------------------

    ghost predicate Environment() {
      && store.Listed()
      && LegalPager(store.journalIds, journalPager)
      && LegalPager(store.checkpointIds, checkpointPager)
    }

    ghost predicate Fresh()
      reads this
    {
      && Environment()
      && !journalsLoaded && !journalIdsLoaded
      && lastCheckpointId == INVALID_ID && lastProcessedJournalId == INVALID_ID
      && journalIds == [] && journalBuffers == [] && sources == []
      && currentBufferIndex == currentBufferOffset == windowStart == windowLength == position == 0
    }

    ghost predicate IdsKnown()
      reads this`windowStart, this`windowLength, this`journalIds, this`lastCheckpointId
    {
      && store.Valid()
      && (lastCheckpointId != INVALID_ID ==> lastCheckpointId in store.checkpoints)
      && (forall x :: x in journalIds ==> x in store.journals)
      && windowStart + windowLength <= |journalIds|
    }

    ghost function CheckpointPart(): (r: seq<Source>)
      reads this`windowStart, this`windowLength, this`journalIds, this`lastCheckpointId
      requires IdsKnown()
    {
      if lastCheckpointId == INVALID_ID then []
      else [Source(lastCheckpointId, store.checkpoints[lastCheckpointId].blob)]
    }

    /** The blobs that belong in the current window. */
    ghost function WindowSources(): (r: seq<Source>)
      reads this`windowStart, this`windowLength, this`journalIds, this`lastCheckpointId
      requires IdsKnown()
    {
      (if windowStart == 0 then CheckpointPart() else [])
      + JournalSources(store, journalIds[windowStart..windowStart + windowLength])
    }

    /** The loaded buffers are those of the current window. */
    ghost predicate WindowLoaded()
      reads this`windowStart, this`windowLength, this`journalIds, this`lastCheckpointId, this`sources
    {
      && IdsKnown()
      && (!enableBatchRead ==> windowStart == 0)
      && (sources != [] ==> sources == WindowSources())
    }

    /** Buffers not yet passed hold their blobs and the cursor is at a record boundary. */
    ghost predicate CursorValid()
      reads this`journalBuffers, this`sources, this`currentBufferIndex, this`currentBufferOffset, this`position
    {
      && |journalBuffers| == |sources|
      && currentBufferIndex <= |journalBuffers|
      && (forall i :: currentBufferIndex <= i < |journalBuffers| ==> journalBuffers[i] == Loaded(sources[i].blob))
      && if currentBufferIndex < |journalBuffers| then
           && position <= |sources[currentBufferIndex].blob|
           && currentBufferOffset == Length(sources[currentBufferIndex].blob[..position])
         else
           currentBufferOffset == 0
    }

    /** The logs the loaded buffers still hold. */
    ghost function Pending(): (r: seq<TaggedLog>)
      reads this`journalBuffers, this`sources, this`currentBufferIndex, this`currentBufferOffset, this`position
      requires CursorValid()
    {
      Remaining(sources, currentBufferIndex, position)
    }

    /** What the windows from journal `k` on will return. */
    ghost function Upcoming(k: nat): (r: seq<TaggedLog>)
      reads this`journalIds
      requires k <= |journalIds| && forall x :: x in journalIds ==> x in store.journals
    {
      WindowedYield(Chunks(JournalSources(store, journalIds[k..]), journalsPerBatch), logsToReturn)
    }

    ghost predicate FutureKnown()
      reads this`windowStart, this`windowLength, this`journalIds, this`lastCheckpointId, this`future
    {
      IdsKnown() && future == Upcoming(windowStart + windowLength)
    }

    /** Everything the stream returns from here on, up to its first end-of-stream. */
    ghost function Yield(): (r: seq<TaggedLog>)
      reads this
      requires CursorValid()
    {
      if !enableBatchRead then Pending()
      else if journalBuffers == [] then future
      else FromWindow(Pending(), EndsEmpty(sources), logsToReturn, future)
    }

    /** Between calls a windowed stream has no used-up buffer under its cursor. */
    ghost predicate Valid()
      reads this
    {
      && CursorValid()
      && WindowLoaded()
      && FutureKnown()
      && (if enableBatchRead then
            && journalIdsLoaded
            && (journalBuffers == [] ==>
                  && windowLength == position == 0
                  && (lastCheckpointId != INVALID_ID ==> windowStart > 0 || journalIds == []))
            && (journalBuffers != [] ==>
                  && (windowLength > 0 || journalIds == [])
                  && currentBufferIndex < |journalBuffers|
                  && (position > 0 ==> position < |sources[currentBufferIndex].blob|))
          else
            journalsLoaded)
    }

    // ---- The cursor ----------------------------------------------------------------------

    /** The position in `journalIds` of the journal in buffer `i`; negative for the checkpoint. */
    function JournalIndex(i: nat): int
      reads this`windowStart, this`lastCheckpointId
    {
      if enableBatchRead then
        if lastCheckpointId == INVALID_ID then windowStart + i
        else if windowStart > 0 then windowStart + i
        else i - 1
      else if lastCheckpointId != INVALID_ID then i - 1
      else i
    }

    /** The id the current buffer's logs are tagged with. */
    function GetCurrentBufferJournalId(): nat
      reads this`windowStart, this`journalIds, this`lastCheckpointId, this`currentBufferIndex
      requires JournalIndex(currentBufferIndex) < |journalIds|
    {
      var k := JournalIndex(currentBufferIndex);
      if k < 0 then lastCheckpointId else journalIds[k]
    }

    /** Looking up a buffer's id stays inside `journalIds` and finds the blob it was filled from. */
    ghost predicate TagsValid()
      reads this`windowStart, this`journalIds, this`lastCheckpointId, this`sources
    {
      forall i :: 0 <= i < |sources| ==>
        && JournalIndex(i) < |journalIds|
        && sources[i].id == if JournalIndex(i) < 0 then lastCheckpointId else journalIds[JournalIndex(i)]
    }

    lemma TagsFollowFromWindow()
      requires WindowLoaded()
      ensures TagsValid()
    {
      if sources != [] {
        assert sources == WindowSources();
      }
    }

    /** Decodes the log under the cursor and moves the cursor past it. */
    method DecodeCurrentLog() returns (log: TaggedLog)
      requires CursorValid() && TagsValid()
      requires currentBufferIndex < |sources| && position < |sources[currentBufferIndex].blob|
      modifies this`currentBufferOffset, this`position
      ensures CursorValid() && position > 0
      ensures [log] + Pending() == old(Pending())
    {
      hide Remaining, Length, HeaderAt, BodyAt;
      DecodeStep(sources, currentBufferIndex, position);
      var buffer := journalBuffers[currentBufferIndex].blob;
      var header := HeaderAt(buffer, currentBufferOffset).value;
      var body := BodyAt(buffer, currentBufferOffset + header.1).value;
      log := TaggedLog(header.0, body.0, GetCurrentBufferJournalId());
      currentBufferOffset, position := currentBufferOffset + header.1 + body.1, position + 1;
    }

    /** Takes the next log off the loaded buffers, stepping over used-up and empty ones. */
    method ProcessNextJournalLog() returns (r: Option<TaggedLog>)
      requires CursorValid() && TagsValid()
      modifies this`currentBufferIndex, this`currentBufferOffset, this`position
      ensures CursorValid()
      ensures r.None? ==> old(Pending()) == Pending() == [] && currentBufferIndex == |journalBuffers|
      ensures r.Some? ==>
                && old(Pending()) == [r.value] + Pending()
                && currentBufferIndex < |journalBuffers| && position > 0
      decreases |journalBuffers| - currentBufferIndex
    {
      hide Remaining, Length;
      if currentBufferIndex >= |journalBuffers| {
        CursorBounds(sources, currentBufferIndex);
        return None;
      }
      AtEndOfBlob(sources[currentBufferIndex].blob, position);
      if currentBufferOffset >= journalBuffers[currentBufferIndex].Size() {
        RemainingSkip(sources, currentBufferIndex);
        CursorBounds(sources, currentBufferIndex + 1);
        currentBufferIndex, currentBufferOffset, position := currentBufferIndex + 1, 0, 0;
        r := ProcessNextJournalLog();
        return;
      }
      var log := DecodeCurrentLog();
      r := Some(log);
    }

    // ---- Batches -------------------------------------------------------------------------

    /** Takes up to `logsToReturn` logs off the loaded buffers. */
    method CollectLogs() returns (logs: seq<TaggedLog>, ended: bool)
      requires CursorValid() && TagsValid()
      modifies this`currentBufferIndex, this`currentBufferOffset, this`position
      ensures CursorValid()
      ensures logs + Pending() == old(Pending())
      ensures ended ==> |logs| < logsToReturn && Pending() == [] && currentBufferIndex == |journalBuffers|
      ensures !ended ==> |logs| == logsToReturn && currentBufferIndex < |journalBuffers| && position > 0
    {
      hide Remaining, Length;
      logs, ended := [], false;
      var i := 0;
      while i < logsToReturn
        invariant 0 <= i <= logsToReturn
        invariant |logs| == i
        invariant CursorValid()
        invariant logs + Pending() == old(Pending())
        invariant i > 0 ==> currentBufferIndex < |journalBuffers| && position > 0
      {
        var r := ProcessNextJournalLog();
        if r.None? {
          ended := true;
          return;
        }
        assert logs + ([r.value] + Pending()) == logs + [r.value] + Pending();
        logs := logs + [r.value];
        i := i + 1;
      }
    }

    /** Steps off a buffer whose logs are used up. */
    method StepOffUsedBuffer()
      requires CursorValid()
      modifies this`currentBufferIndex, this`currentBufferOffset, this`position
      ensures CursorValid() && Pending() == old(Pending())
      ensures currentBufferIndex == |sources|
              <==> old(currentBufferIndex == |sources|
                       || (currentBufferIndex == |sources| - 1 && position == |sources[currentBufferIndex].blob|))
      ensures currentBufferIndex < |sources| && position > 0 ==> position < |sources[currentBufferIndex].blob|
    {
      if currentBufferIndex < |journalBuffers| {
        AtEndOfBlob(sources[currentBufferIndex].blob, position);
        if currentBufferOffset >= journalBuffers[currentBufferIndex].Size() {
          RemainingSkip(sources, currentBufferIndex);
          currentBufferIndex, currentBufferOffset, position := currentBufferIndex + 1, 0, 0;
        }
      }
    }

    /** Forgets a window whose buffers are all used up and moves the window past its journals. */
    method DropWindow()
      requires enableBatchRead && journalIdsLoaded && FutureKnown()
      requires windowLength > 0 || journalIds == []
      modifies this`currentBufferIndex, this`currentBufferOffset, this`position, this`journalBuffers, this`sources
      modifies this`windowStart, this`windowLength
      ensures Valid() && Yield() == future && journalBuffers == []
    {
      hide Upcoming, WindowSources, Remaining, Length, InFullBatches;
      windowStart, windowLength := windowStart + windowLength, 0;
      journalBuffers, sources := [], [];
      currentBufferIndex, currentBufferOffset, position := 0, 0, 0;
    }

    /** No buffer behind the cursor holds bytes. */
    ghost predicate PassedReleased()
      reads this`journalBuffers, this`currentBufferIndex
    {
      forall i :: 0 <= i < currentBufferIndex && i < |journalBuffers| ==> journalBuffers[i].Size() == 0
    }

    /** Releases the bytes of every buffer the cursor has passed. */
    method ReleasePassed()
      requires CursorValid() && currentBufferIndex < |journalBuffers|
      modifies this`journalBuffers
      ensures CursorValid() && PassedReleased()
    {
      var i := 0;
      while i < currentBufferIndex
        invariant i <= currentBufferIndex
        invariant CursorValid()
        invariant forall k :: 0 <= k < i ==> journalBuffers[k].Size() == 0
      {
        if journalBuffers[i].Size() != 0 {
          journalBuffers := journalBuffers[i := Released];
        }
        i := i + 1;
      }
    }

    /** Leaves a window ready for the next call. */
    method ReleaseConsumed()
      requires CursorValid() && WindowLoaded() && FutureKnown()
      requires enableBatchRead && journalIdsLoaded && (windowLength > 0 || journalIds == [])
      modifies this`currentBufferIndex, this`currentBufferOffset, this`position, this`journalBuffers, this`sources
      modifies this`windowStart, this`windowLength
      ensures Valid() && PassedReleased()
      ensures Yield() == if old(currentBufferIndex == |sources|
                                || (currentBufferIndex == |sources| - 1 && position == |sources[currentBufferIndex].blob|))
                         then future
                         else old(FromWindow(Pending(), EndsEmpty(sources), logsToReturn, future))
    {
      hide Remaining, Length, IdsKnown, Upcoming, WindowSources, InFullBatches;
      StepOffUsedBuffer();
      if currentBufferIndex >= |journalBuffers| {
        DropWindow();
      } else {
        ReleasePassed();
      }
    }

    /** One batch: returns logs off the front of what the stream will yield, or reports its end
        exactly when nothing more will come. */
    method ReadJournalLogBatch() returns (r: Outcome)
      requires Valid() && (enableBatchRead ==> journalBuffers != [])
      modifies this`currentBufferIndex, this`currentBufferOffset, this`position, this`journalBuffers, this`sources
      modifies this`windowStart, this`windowLength
      ensures !r.Failure?
      ensures Valid() && (enableBatchRead ==> PassedReleased())
      ensures r.ReadLogs? ==> 0 < |r.logs| <= logsToReturn && old(Yield()) == r.logs + Yield()
      ensures r.EndOfStream? ==> old(Yield()) == []
    {
      hide Remaining, Length, IdsKnown, Upcoming, WindowSources, InFullBatches;
      TagsFollowFromWindow();
      ghost var start, startPosition := currentBufferIndex, position;
      var logs, ended := CollectLogs();
      if enableBatchRead {
        BatchYield(sources, start, startPosition, currentBufferIndex, position, logs, logsToReturn, future);
        ReleaseConsumed();
      }
      if ended && logs == [] {
        return EndOfStream;
      }
      return ReadLogs(logs);
    }

    // ---- Loading -------------------------------------------------------------------------

    /** Before a load: at most the checkpoint is in memory, and only ahead of the first window. */
    ghost predicate ReadyToLoad()
      reads this
    {
      && IdsKnown()
      && windowLength == currentBufferIndex == currentBufferOffset == position == 0
      && (!enableBatchRead ==> windowStart == 0)
      && (journalIds != [] || sources != [] ==> sources == if windowStart == 0 then CheckpointPart() else [])
      && BuffersHold(journalBuffers, sources)
    }

    /** Grows the buffers by one slot per id and fills each slot with its journal's bytes. */
    method FetchJournals(ids: seq<nat>)
      requires forall x :: x in ids ==> x in store.journals
      modifies this`journalBuffers
      ensures journalBuffers == old(journalBuffers) + Fetched(store, ids)
    {
      var size := |journalBuffers|;
      journalBuffers := journalBuffers + seq(|ids|, _ => Loaded([]));
      var i := 0;
      while i < |ids|
        invariant i <= |ids| && |journalBuffers| == size + |ids|
        invariant forall k :: 0 <= k < size ==> journalBuffers[k] == old(journalBuffers)[k]
        invariant forall k :: 0 <= k < i ==> journalBuffers[size + k] == Fetched(store, ids)[k]
      {
        journalBuffers := journalBuffers[size + i := Loaded(store.journals[ids[i]])];
        i := i + 1;
      }
    }

    /** Moves the window to the next `total` journals and loads them. */
    method LoadWindow(total: nat)
      requires ReadyToLoad() && 0 < total <= |journalIds| - windowStart
      modifies this`journalBuffers, this`windowStart, this`windowLength, this`sources, this`future
      ensures unchanged(this`windowStart) && windowLength == total
      ensures sources == old(sources) + JournalSources(store, journalIds[windowStart..windowStart + total])
      ensures CursorValid() && WindowLoaded() && FutureKnown()
    {
      hide Upcoming, Length, JournalSources, Fetched, CursorValid, WindowLoaded, FutureKnown;
      var start := windowStart + windowLength;
      var ids := journalIds[start..start + total];
      FetchedHold(store, journalBuffers, sources, ids);
      hide BuffersHold;
      FetchJournals(ids);
      windowStart, windowLength := start, total;
      sources, future := sources + JournalSources(store, ids), Upcoming(start + total);
      JustLoaded();
    }

    /** With the window's blobs in its buffers and the cursor in front of them, the stream is in order. */
    lemma JustLoaded()
      requires IdsKnown() && (!enableBatchRead ==> windowStart == 0)
      requires sources == WindowSources() && BuffersHold(journalBuffers, sources)
      requires currentBufferIndex == currentBufferOffset == position == 0
      requires future == Upcoming(windowStart + windowLength)
      ensures CursorValid() && WindowLoaded() && FutureKnown()
    {
      hide Upcoming, WindowSources, JournalSources;
      CursorBounds(sources, 0);
    }

    /** Loads the next window, or all journals when not windowed; false when none is left. */
    method ReadJournalBlobs() returns (ok: bool)
      requires ReadyToLoad() && (!enableBatchRead ==> journalIds != [])
      modifies this`journalBuffers, this`windowStart, this`windowLength, this`sources, this`future
      ensures unchanged(this`windowStart)
      ensures ok <==> windowStart < |journalIds|
      ensures !ok ==> unchanged(this)
      ensures ok ==>
                && CursorValid() && WindowLoaded() && FutureKnown()
                && windowLength == (if enableBatchRead then |Take(journalIds[windowStart..], journalsPerBatch)| else |journalIds|)
                && sources == old(sources) + JournalSources(store, journalIds[windowStart..windowStart + windowLength])
    {
      hide CursorValid, FutureKnown, JournalSources;
      var total := |journalIds|;
      if enableBatchRead {
        var windowEnd := windowStart + windowLength;
        total := if journalsPerBatch <= |journalIds| - windowEnd then journalsPerBatch else |journalIds| - windowEnd;
        if total == 0 {
          return false;
        }
      }
      LoadWindow(total);
      return true;
    }

    /** What a freshly loaded window yields, told from the journals that were still to be loaded. */
    lemma LoadedYield(ahead: seq<Source>)
      requires CursorValid() && FutureKnown() && currentBufferIndex == position == 0
      requires windowStart < |journalIds| && sources != []
      requires enableBatchRead ==> windowLength == |Take(journalIds[windowStart..], journalsPerBatch)|
      requires !enableBatchRead ==> windowStart == 0 && windowLength == |journalIds|
      requires sources == ahead + JournalSources(store, journalIds[windowStart..windowStart + windowLength])
      ensures Yield() == if enableBatchRead
                         then WindowedYield(Windows(ahead, JournalSources(store, journalIds[windowStart..]), journalsPerBatch), logsToReturn)
                         else AllLogs(ahead + JournalSources(store, journalIds))
    {
      hide JournalSources, AllLogs, WindowedYield, Windows, Chunks, FromWindow, Remaining;
      RemainingAtStart(sources);
      var ids := journalIds[windowStart..];
      if enableBatchRead {
        FirstWindow(store, ahead, ids, journalsPerBatch, logsToReturn);
        assert ids[..windowLength] == journalIds[windowStart..windowStart + windowLength];
        assert ids[windowLength..] == journalIds[windowStart + windowLength..];
      } else {
        assert journalIds[windowStart..windowStart + windowLength] == journalIds;
      }
    }

    lemma LoadedIsValid()
      requires CursorValid() && WindowLoaded() && FutureKnown() && currentBufferIndex == position == 0
      requires windowLength > 0 && sources != [] && if enableBatchRead then journalIdsLoaded else journalsLoaded
      ensures Valid() && journalBuffers != []
    {
      hide WindowSources, Upcoming, Remaining;
    }

    /** What the request is meant to return, from a stream that has not been read. */
    ghost function Planned(req: Request): seq<TaggedLog>
      requires store.Valid()
    {
      if enableBatchRead then BatchedYield(store, req, journalsPerBatch, logsToReturn) else LoadAllYield(store, req)
    }

    /** Finds the checkpoint to start from and the journals to read after it. */
    method Discover(req: Request) returns (error: Option<Error>)
      requires Fresh()
      modifies this`lastCheckpointId, this`lastProcessedJournalId, this`journalIds, this`journalBuffers, this`sources
      ensures error == StartError(store)
      ensures error.None? ==>
                && store.Valid() && ReadyToLoad()
                && sources == CheckpointSources(store) && journalIds == PlannedIds(store, req)
                && lastProcessedJournalId == Covered(store)
    {
      if store.lastCheckpoint.Some? {
        lastCheckpointId := store.lastCheckpoint.value;
        if lastCheckpointId == INVALID_ID {
          return Some(InvalidLastCheckpoint);
        }
        if lastCheckpointId !in store.checkpoints {
          return Some(CheckpointNotFound);
        }
      } else {
        lastCheckpointId := JournalListing.ListCheckpoints(store.checkpointIds, checkpointPager);
        HighestIsLast(store.checkpointIds, lastCheckpointId);
      }
      var start := Start;
      if lastCheckpointId != INVALID_ID {
        var checkpoint := store.checkpoints[lastCheckpointId];
        lastProcessedJournalId := checkpoint.lastProcessed;
        journalBuffers := [Loaded(checkpoint.blob)];
        sources := [Source(lastCheckpointId, checkpoint.blob)];
        start := After(lastProcessedJournalId);
      }
      journalIds := JournalListing.ListJournals(store.journalIds, journalPager, start, lastProcessedJournalId, req);
      assert journalIds == PlannedIds(store, req);
      return None;
    }

    /** Only a checkpoint is in memory and the request does not ask for it. */
    predicate CheckpointWithheld(req: Request)
      reads this`journalIds, this`journalBuffers
    {
      journalIds == [] && |journalBuffers| == 1 && !req.readCheckpointAlone
    }

    /** Loads the first window and returns its first batch. */
    method ReadFirstWindow(req: Request) returns (r: Outcome)
      requires ReadyToLoad() && windowStart == 0 && (enableBatchRead ==> journalIdsLoaded)
      requires sources == CheckpointSources(store) && journalIds == PlannedIds(store, req) != []
      modifies this
      ensures !r.Failure?
      ensures Valid() && unchanged(this`lastProcessedJournalId) && unchanged(this`journalIds)
      ensures r.ReadLogs? ==> 0 < |r.logs| <= logsToReturn && Planned(req) == r.logs + Yield()
      ensures r.EndOfStream? ==> Planned(req) == []
    {
      hide JournalSources, AllLogs, WindowedYield, Windows, Chunks, FromWindow, Remaining, Length, PlannedIds, WindowSources, Upcoming;
      hide CursorValid, WindowLoaded, FutureKnown, Yield;
      var ok := ReadJournalBlobs();
      journalsLoaded := true;
      LoadedYield(CheckpointSources(store));
      LoadedIsValid();
      assert journalIds[0..] == journalIds;
      hide Valid;
      r := ReadJournalLogBatch();
    }

    /** The first call: discovers what to read, and starts reading it. */
    method FirstRead(req: Request) returns (r: Outcome)
      requires Fresh()
      modifies this
      ensures StartError(store).Some? ==> r == Failure(StartError(store).value)
      ensures StartError(store).None? ==>
                && store.Valid() && Valid() && lastProcessedJournalId == LastPlanned(store, req) && !r.Failure?
                && (r.ReadLogs? ==> 0 < |r.logs| <= logsToReturn && !CheckpointWithheld(req) && Planned(req) == r.logs + Yield())
                && (r.EndOfStream? ==> Planned(req) == [])
    {
      hide JournalSources, PlannedIds, WindowSources, Upcoming, Planned, Remaining, Length, FromWindow;
      var error := Discover(req);
      if error.Some? {
        return Failure(error.value);
      }
      if enableBatchRead {
        journalIdsLoaded := true;
      }
      if journalIds != [] {
        lastProcessedJournalId := journalIds[|journalIds| - 1];
        r := ReadFirstWindow(req);
        return;
      }
      journalsLoaded := true;
      future := Upcoming(0);
      LoneCheckpoint(req);
      if journalBuffers == [] {
        return EndOfStream;
      }
      if !req.readCheckpointAlone {
        return EndOfStream;
      }
      r := ReadJournalLogBatch();
    }

    /** Loads the next window and returns its first batch; ends the stream when none is left. */
    method ReadNextWindow() returns (r: Outcome)
      requires Valid() && enableBatchRead && journalBuffers == []
      modifies this
      ensures !r.Failure?
      ensures Valid() && unchanged(this`lastProcessedJournalId) && unchanged(this`journalIds)
      ensures r.ReadLogs? ==> journalIds != []
      ensures r.ReadLogs? ==> 0 < |r.logs| <= logsToReturn && old(Yield()) == r.logs + Yield()
      ensures r.EndOfStream? ==> old(Yield()) == []
    {
      hide JournalSources, AllLogs, WindowedYield, Windows, Chunks, FromWindow, Remaining, Length, WindowSources;
      ghost var ids := journalIds[windowStart..];
      ChunksAreWindows(JournalSources(store, ids), journalsPerBatch);
      if windowStart == |journalIds| {
        NothingAhead(store, journalsPerBatch, logsToReturn);
      }
      assert Yield() == WindowedYield(Windows([], JournalSources(store, ids), journalsPerBatch), logsToReturn);
      hide CursorValid, WindowLoaded, FutureKnown, Yield;
      var ok := ReadJournalBlobs();
      if !ok {
        return EndOfStream;
      }
      LoadedYield([]);
      LoadedIsValid();
      hide Valid;
      r := ReadJournalLogBatch();
    }

    /** Everything calls with this request will return, up to the first end-of-stream. */
    ghost function StreamYield(req: Request): (r: seq<TaggedLog>)
      reads this
      requires (Fresh() && store.Valid()) || Valid()
    {
      if Fresh() then Planned(req) else if enableBatchRead && CheckpointWithheld(req) then [] else Yield()
    }

    /** The first call fails when the checkpoint to start from cannot be read. */
    ghost predicate Fails()
      reads this
    {
      Fresh() && StartError(store).Some?
    }

    /** One read: returns logs off the front of what the stream yields, or reports its end exactly
        when nothing more will come; the first one may find that there is no way to start. */
    method ReadLog(req: Request) returns (r: Outcome)
      requires Fresh() || Valid()
      modifies this
      ensures old(Fails()) ==> r == Failure(StartError(store).value)
      ensures !old(Fails()) ==>
                && Valid() && !r.Failure?
                && lastProcessedJournalId == (if old(Fresh()) then LastPlanned(store, req) else old(lastProcessedJournalId))
                && (r.ReadLogs? ==> 0 < |r.logs| <= logsToReturn && old(StreamYield(req)) == r.logs + StreamYield(req))
                && (r.EndOfStream? ==> old(StreamYield(req)) == [])
    {
      hide Yield, Planned, CursorValid, WindowLoaded, FutureKnown, Environment;
      var loaded := if enableBatchRead then journalIdsLoaded else journalsLoaded;
      if !loaded {
        r := FirstRead(req);
        return;
      }
      if !enableBatchRead {
        r := ReadJournalLogBatch();
        return;
      }
      if journalBuffers != [] && currentBufferIndex < |journalBuffers| {
        if CheckpointWithheld(req) {
          return EndOfStream;
        }
        if journalIds == [] { OnlyCheckpointWithoutJournals(); }
        r := ReadJournalLogBatch();
        return;
      }
      r := ReadNextWindow();
    }

    lemma OnlyCheckpointWithoutJournals()
      requires Valid() && journalIds == [] && journalBuffers != []
      ensures |journalBuffers| == 1
    {
      assert sources == WindowSources();
    }

    lemma LoneCheckpoint(req: Request)
      requires ReadyToLoad() && windowStart == 0 && journalIds == PlannedIds(store, req) == []
      requires sources == CheckpointSources(store) && future == Upcoming(0)
      ensures CursorValid() && WindowLoaded() && FutureKnown()
      ensures Planned(req) == if req.readCheckpointAlone then Yield() else []
      ensures journalBuffers == [] ==> Planned(req) == []
    {
      hide PlannedIds;
      CursorBounds(sources, 0);
      RemainingAtStart(sources);
      assert JournalSources(store, journalIds[0..]) == JournalSources(store, []) == [];
      assert future == [] && sources + [] == sources;
      assert PlannedWindows(store, req, journalsPerBatch) == if sources == [] then [] else [sources];
      assert [sources][1..] == [];
    }
  }

  /** Recovery as its caller drives it: reads until the stream reports its end, or cannot start. */
  method Recover(stream: JournalInputStream, req: Request) returns (error: Option<Error>, logs: seq<TaggedLog>, lastProcessed: nat)
    requires stream.Fresh()
    modifies stream
    ensures error == StartError(stream.store)
    ensures error.None? ==>
              && stream.store.Valid() && lastProcessed == LastPlanned(stream.store, req)
              && logs == if stream.enableBatchRead
                         then BatchedYield(stream.store, req, stream.journalsPerBatch, stream.logsToReturn)
                         else LoadAllYield(stream.store, req)
  {
    logs, lastProcessed := [], INVALID_ID;
    ghost var fails := StartError(stream.store).Some?;
    ghost var all := if fails then [] else stream.StreamYield(req);
    assert !fails ==> all == stream.Planned(req);
    hide JournalInputStream.StreamYield, JournalInputStream.Valid, LastPlanned;
    var r := stream.ReadLog(req);
    if r.Failure? {
      return Some(r.error), [], INVALID_ID;
    }
    hide JournalInputStream.Fresh;
    while r.ReadLogs?
      invariant !r.Failure? && stream.Valid() && stream.lastProcessedJournalId == LastPlanned(stream.store, req)
      invariant all == logs + if r.ReadLogs? then r.logs + stream.StreamYield(req) else []
      decreases r.ReadLogs?, |stream.StreamYield(req)|
    {
      Seqs.Assoc(logs, r.logs, stream.StreamYield(req));
      logs := logs + r.logs;
      StartedIsNotFresh(stream);
      r := stream.ReadLog(req);
    }
    return None, logs, stream.lastProcessedJournalId;
  }

  lemma StartedIsNotFresh(stream: JournalInputStream)
    requires stream.Valid()
    ensures !stream.Fresh()
  {
  }

  /** What is left of a window's yield after a batch that moved the cursor from (i, p) to (j, q). */
  lemma BatchYield(ss: seq<Source>, i: nat, p: nat, j: nat, q: nat, logs: seq<TaggedLog>, batch: Pos, future: seq<TaggedLog>)
    requires i < |ss| && p <= |ss[i].blob| && (p > 0 ==> p < |ss[i].blob|)
    requires j < |ss| ==> q <= |ss[j].blob|
    requires logs + Remaining(ss, j, q) == Remaining(ss, i, p)
    requires j < |ss| ==> |logs| == batch && q > 0
    requires j >= |ss| ==> |logs| < batch
    ensures var before := FromWindow(Remaining(ss, i, p), EndsEmpty(ss), batch, future);
            if logs == [] then before == []
            else if j >= |ss| || (j == |ss| - 1 && q == |ss[j].blob|) then before == logs + future
            else before == logs + FromWindow(Remaining(ss, j, q), EndsEmpty(ss), batch, future)
  {
    if |logs| == batch {
      FromWindowFullBatch(logs, Remaining(ss, j, q), EndsEmpty(ss), batch, future);
    } else if logs == [] && !EndsEmpty(ss) {
      RemainingAtLast(ss, i, p);
    }
  }

  lemma AtEndOfBlob(b: Blob, k: nat)
    requires k <= |b|
    ensures Length(b[..k]) >= Length(b) <==> k == |b|
  {
    if k < |b| {
      LengthOfPrefix(b, k);
    } else {
      assert b[..k] == b;
    }
  }
}
