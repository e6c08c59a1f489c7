/** The values a journal recovery stream works on, the blob store it reads from, and what a
    recovery is meant to return.  Nothing here depends on how the stream pages, windows or
    buffers its work. */
module JournalSpec {
  import opened Basics
  import Seqs

  // ---- Blobs -----------------------------------------------------------------------------

  /** Timestamp, status, component id and log id: the fixed-size prefix of every log. */
  datatype Header = Header(timestamp: nat, status: nat, componentId: nat, logId: nat)

  /** One log as stored: a header and a body whose encoded size is `bodySize` bytes. */
  datatype Record = Record(header: Header, body: seq<nat>, bodySize: Pos)

  type Blob = seq<Record>

  /** Version, timestamp and two 16-byte identifiers, plus a 2-byte status. */
  const HEADER_SIZE: nat := 58

  function RecordSize(r: Record): (n: nat)
    ensures n > HEADER_SIZE
  {
    HEADER_SIZE + r.bodySize
  }

  /** Encoded length in bytes. */
  function Length(b: Blob): (n: nat)
    ensures n == 0 <==> b == []
  {
    if b == [] then 0 else RecordSize(b[0]) + Length(b[1..])
  }

  /** Decoding a header succeeds exactly at a record boundary. */
  function HeaderAt(b: Blob, offset: nat): Option<(Header, nat)> {
    if b == [] then None
    else if offset == 0 then Some((b[0].header, HEADER_SIZE))
    else if offset < RecordSize(b[0]) then None
    else HeaderAt(b[1..], offset - RecordSize(b[0]))
  }

  /** Decoding a body succeeds exactly right after a header. */
  function BodyAt(b: Blob, offset: nat): Option<(seq<nat>, nat)> {
    if b == [] then None
    else if offset == HEADER_SIZE then Some((b[0].body, b[0].bodySize))
    else if offset < RecordSize(b[0]) then None
    else BodyAt(b[1..], offset - RecordSize(b[0]))
  }

  lemma {:induction false} LengthOfPrefix(b: Blob, k: nat)
    requires k < |b|
    ensures Length(b[..k + 1]) == Length(b[..k]) + RecordSize(b[k])
    ensures Length(b[..k]) < Length(b)
    ensures Length(b[..k + 1]) <= Length(b)
  {
    if k == 0 {
      assert b[..1][1..] == [] && b[..0] == [];
    } else {
      LengthOfPrefix(b[1..], k - 1);
      assert b[..k + 1][1..] == b[1..][..k] && b[..k][1..] == b[1..][..k - 1];
    }
  }

  /** At the boundary before record `k` the two decode calls return that record's parts. */
  lemma {:induction false} DecodeAtBoundary(b: Blob, k: nat)
    requires k < |b|
    ensures HeaderAt(b, Length(b[..k])) == Some((b[k].header, HEADER_SIZE))
    ensures BodyAt(b, Length(b[..k]) + HEADER_SIZE) == Some((b[k].body, b[k].bodySize as nat))
    ensures Length(b[..k]) + HEADER_SIZE + b[k].bodySize == Length(b[..k + 1])
  {
    LengthOfPrefix(b, k);
    if k > 0 {
      DecodeAtBoundary(b[1..], k - 1);
      assert b[..k][1..] == b[1..][..k - 1];
    }
  }

  // ---- The store -------------------------------------------------------------------------

  datatype Checkpoint = Checkpoint(blob: Blob, lastProcessed: nat)

  /** `journalIds` and `checkpointIds` are the listings in name order, which is id order. */
  datatype Store = Store(
    lastCheckpoint: Option<nat>,
    checkpointIds: seq<nat>,
    checkpoints: map<nat, Checkpoint>,
    journalIds: seq<nat>,
    journals: map<nat, Blob>)
  {
    /** What is listed is there, in order. */
    ghost predicate Listed() {
      && Ascending(checkpointIds)
      && Ascending(journalIds)
      && (forall x :: x in checkpointIds ==> x in checkpoints && x <= MAX_ID)
      && (forall x :: x in journalIds ==> x in journals && x <= MAX_ID)
    }

    /** The checkpoint the `last_checkpoint` blob names can be read. */
    predicate CheckpointReadable() {
      lastCheckpoint.Some? ==> lastCheckpoint.value != INVALID_ID && lastCheckpoint.value in checkpoints
    }

    ghost predicate Valid() { Listed() && CheckpointReadable() }
  }

  const INVALID_ID: nat := 0
  const MAX_ID: nat := 0xFFFF_FFFF_FFFF_FFFF

  ghost predicate Ascending(s: seq<nat>) {
    forall i, j :: 0 <= i < j < |s| ==> s[i] < s[j]
  }

  /** Where a listing resumes: at the very beginning or strictly after a name. */
  datatype Marker = Start | After(id: nat)

  /** The names a listing from `m` still has to deliver. */
  function Rest(ids: seq<nat>, m: Marker): (r: seq<nat>) {
    if ids == [] || m.Start? || ids[0] > m.id then ids else Rest(ids[1..], m)
  }

  datatype Page = Page(ids: seq<nat>, nextMarker: Option<nat>)

  /** The listing contract: a page is a prefix of what is left; a marker skips nothing and moves
      forward; an empty page without a marker means nothing is left. */
  ghost predicate LegalPage(ids: seq<nat>, m: Marker, p: Page) {
    && p.ids <= Rest(ids, m)
    && (p.nextMarker.None? ==> p.ids == [] ==> Rest(ids, m) == [])
    && (p.nextMarker.Some? ==>
          && p.nextMarker.value <= MAX_ID
          && Rest(ids, After(p.nextMarker.value)) == Rest(ids, m)[|p.ids|..]
          && (m.After? ==> m.id < p.nextMarker.value))
  }

  /** Where the next listing resumes: at the returned marker, else after the last name of a
      non-empty page; nowhere once a page comes back empty and without a marker. */
  function Resume(p: Page): Option<Marker> {
    if p.nextMarker.Some? then Some(After(p.nextMarker.value))
    else if p.ids != [] then Some(After(p.ids[|p.ids| - 1]))
    else None
  }

  function MarkerRank(m: Marker): nat {
    if m.Start? then MAX_ID + 1 else if m.id <= MAX_ID then MAX_ID - m.id else 0
  }

  lemma {:induction false} RestAfter(ids: seq<nat>, k: nat)
    requires k < |ids| && Ascending(ids)
    ensures Rest(ids, After(ids[k])) == ids[k + 1..]
  {
    if k > 0 {
      RestAfter(ids[1..], k - 1);
      assert ids[1..][k..] == ids[k + 1..];
    } else if |ids| > 1 {
      assert ids[1] > ids[0];
    }
  }

  lemma {:induction false} RestIsSuffix(ids: seq<nat>, m: Marker)
    ensures |Rest(ids, m)| <= |ids| && Rest(ids, m) == ids[|ids| - |Rest(ids, m)|..]
  {
    if Rest(ids, m) != ids { RestIsSuffix(ids[1..], m); }
  }

  lemma RestAscending(ids: seq<nat>, m: Marker)
    requires Ascending(ids)
    ensures Ascending(Rest(ids, m))
  {
    RestIsSuffix(ids, m);
  }

  lemma RestAfterPrefix(ids: seq<nat>, m: Marker, n: nat)
    requires Ascending(ids) && 0 < n <= |Rest(ids, m)|
    ensures Rest(ids, After(Rest(ids, m)[n - 1])) == Rest(ids, m)[n..]
  {
    RestIsSuffix(ids, m);
    var skipped := |ids| - |Rest(ids, m)|;
    RestAfter(ids, skipped + n - 1);
    Seqs.DropDrop(ids, skipped, n);
  }

  /** Resuming loses and repeats nothing, and cannot go on for ever. */
  lemma ResumeSound(ids: seq<nat>, m: Marker, p: Page)
    requires Ascending(ids) && LegalPage(ids, m, p)
    ensures Resume(p).None? ==> Rest(ids, m) == p.ids == []
    ensures Resume(p).Some? ==>
              && Rest(ids, m) == p.ids + Rest(ids, Resume(p).value)
              && (|Rest(ids, Resume(p).value)| < |Rest(ids, m)| || MarkerRank(Resume(p).value) < MarkerRank(m))
  {
    hide Rest;
    if p.nextMarker.None? && p.ids != [] {
      RestAfterPrefix(ids, m, |p.ids|);
    }
  }

  /** A blob store's paging behaviour; the answer may differ from call to call. */
  type Pager = (Marker, nat) -> Page

  ghost predicate LegalPager(ids: seq<nat>, pager: Pager) {
    forall m: Marker, n: nat :: LegalPage(ids, m, pager(m, n))
  }

  // ---- Requests and what they select -----------------------------------------------------

  datatype Request = Request(maxJournalId: nat, maxJournals: nat, readCheckpointAlone: bool)

  /** The ids in (low, high], in order. */
  function InRange(ids: seq<nat>, low: nat, high: nat): (r: seq<nat>)
    ensures forall x :: x in r <==> x in ids && low < x <= high
  {
    if ids == [] then []
    else (if low < ids[0] <= high then [ids[0]] else []) + InRange(ids[1..], low, high)
  }

  lemma {:induction false} InRangeConcat(a: seq<nat>, b: seq<nat>, low: nat, high: nat)
    ensures InRange(a + b, low, high) == InRange(a, low, high) + InRange(b, low, high)
  {
    if a == [] {
      assert a + b == b;
    } else {
      InRangeConcat(a[1..], b, low, high);
      assert (a + b)[0] == a[0] && (a + b)[1..] == a[1..] + b;
      Seqs.Assoc(if low < a[0] <= high then [a[0]] else [], InRange(a[1..], low, high), InRange(b, low, high));
    }
  }

  /** In an ascending list nothing from the first too-large id on is in range. */
  lemma {:induction false} InRangeEnds(ids: seq<nat>, low: nat, high: nat)
    requires Ascending(ids) && ids != [] && ids[0] > high
    ensures InRange(ids, low, high) == []
  {
    if |ids| > 1 { InRangeEnds(ids[1..], low, high); }
  }

  /** How looking at the `i`th id moves a scan of `ids` along. */
  lemma ScanStep(ids: seq<nat>, i: nat, low: nat, high: nat)
    requires Ascending(ids) && i < |ids|
    ensures InRange(ids[..i + 1], low, high) == InRange(ids[..i], low, high) + if low < ids[i] <= high then [ids[i]] else []
    ensures InRange(ids[..i + 1], low, high) <= InRange(ids, low, high)
    ensures ids[i] > high ==> InRange(ids, low, high) == InRange(ids[..i], low, high)
  {
    assert ids[..i + 1] == ids[..i] + [ids[i]];
    InRangeConcat(ids[..i], [ids[i]], low, high);
    assert ids == ids[..i + 1] + ids[i + 1..] && ids == ids[..i] + ids[i..];
    InRangeConcat(ids[..i + 1], ids[i + 1..], low, high);
    InRangeConcat(ids[..i], ids[i..], low, high);
    if ids[i] > high { InRangeEnds(ids[i..], low, high); }
  }

  function Take<T>(s: seq<T>, n: nat): (r: seq<T>)
    ensures r <= s && |r| == if n <= |s| then n else |s|
    ensures forall x :: x in r ==> x in s
  {
    if n <= |s| then s[..n] else s
  }

  /** The journals a listing selects.  A limit of zero looks at one name instead of none. */
  function Selected(listed: seq<nat>, low: nat, req: Request): (r: seq<nat>)
    ensures forall x :: x in r ==> x in listed && low < x <= req.maxJournalId
  {
    if req.maxJournals == 0 then InRange(Take(listed, 1), low, req.maxJournalId)
    else Take(InRange(listed, low, req.maxJournalId), req.maxJournals)
  }

  /** A blob together with the id its logs are to be tagged with. */
  datatype Source = Source(id: nat, blob: Blob)

  datatype TaggedLog = TaggedLog(header: Header, body: seq<nat>, journalId: nat)

  function Logs(s: Source): (r: seq<TaggedLog>)
    ensures |r| == |s.blob|
  {
    seq(|s.blob|, i requires 0 <= i < |s.blob| => TaggedLog(s.blob[i].header, s.blob[i].body, s.id))
  }

  function AllLogs(ss: seq<Source>): seq<TaggedLog> {
    if ss == [] then [] else Logs(ss[0]) + AllLogs(ss[1..])
  }

  lemma {:induction false} AllLogsConcat(a: seq<Source>, b: seq<Source>)
    ensures AllLogs(a + b) == AllLogs(a) + AllLogs(b)
  {
    hide Logs;
    if a == [] {
      assert a + b == b;
    } else {
      AllLogsConcat(a[1..], b);
      assert (a + b)[0] == a[0] && (a + b)[1..] == a[1..] + b;
      Seqs.Assoc(Logs(a[0]), AllLogs(a[1..]), AllLogs(b));
    }
  }

  /** The logs left when the next one is record `p` of blob `i`. */
  function Remaining(ss: seq<Source>, i: nat, p: nat): (r: seq<TaggedLog>)
    requires i < |ss| ==> p <= |ss[i].blob|
  {
    if i >= |ss| then [] else Logs(ss[i])[p..] + AllLogs(ss[i + 1..])
  }

  lemma RemainingStep(ss: seq<Source>, i: nat, p: nat)
    requires i < |ss| && p < |ss[i].blob|
    ensures Remaining(ss, i, p)
            == [TaggedLog(ss[i].blob[p].header, ss[i].blob[p].body, ss[i].id)] + Remaining(ss, i, p + 1)
  {
    Seqs.Head(Logs(ss[i]), p);
    Seqs.Assoc([Logs(ss[i])[p]], Logs(ss[i])[p + 1..], AllLogs(ss[i + 1..]));
  }

  /** Past the last blob nothing is left, and every blob starts at offset zero. */
  lemma CursorBounds(ss: seq<Source>, i: nat)
    ensures i >= |ss| ==> forall p: nat :: Remaining(ss, i, p) == []
    ensures i < |ss| ==> Length(ss[i].blob[..0]) == 0
  {
  }

  lemma RemainingAtStart(ss: seq<Source>)
    ensures Remaining(ss, 0, 0) == AllLogs(ss)
  {
  }

  /** The effect of decoding record `p` of blob `i` on the offset and on what is left. */
  lemma DecodeStep(ss: seq<Source>, i: nat, p: nat)
    requires i < |ss| && p < |ss[i].blob|
    ensures var b, offset := ss[i].blob, Length(ss[i].blob[..p]);
            && HeaderAt(b, offset) == Some((b[p].header, HEADER_SIZE))
            && BodyAt(b, offset + HEADER_SIZE) == Some((b[p].body, b[p].bodySize as nat))
            && Length(b[..p + 1]) == offset + HEADER_SIZE + b[p].bodySize
            && Remaining(ss, i, p) == [TaggedLog(b[p].header, b[p].body, ss[i].id)] + Remaining(ss, i, p + 1)
  {
    hide Length, HeaderAt, BodyAt, Remaining;
    DecodeAtBoundary(ss[i].blob, p);
    LengthOfPrefix(ss[i].blob, p);
    RemainingStep(ss, i, p);
  }

  lemma RemainingSkip(ss: seq<Source>, i: nat)
    requires i < |ss|
    ensures Remaining(ss, i, |ss[i].blob|) == Remaining(ss, i + 1, 0) == AllLogs(ss[i + 1..])
  {
    if i + 1 < |ss| {
      assert ss[i + 1..][1..] == ss[i + 2..];
    }
  }

  lemma {:induction false} RemainingAtLast(ss: seq<Source>, i: nat, p: nat)
    requires i < |ss| && p <= |ss[i].blob|
    requires ss[|ss| - 1].blob != [] && Remaining(ss, i, p) == []
    ensures i == |ss| - 1 && p == |ss[i].blob|
  {
    if i < |ss| - 1 {
      LastHasLogs(ss, i + 1);
    }
  }

  lemma {:induction false} LastHasLogs(ss: seq<Source>, i: nat)
    requires i < |ss| && ss[|ss| - 1].blob != []
    ensures AllLogs(ss[i..]) != []
    decreases |ss| - i
  {
    assert ss[i..][1..] == ss[i + 1..];
    if i < |ss| - 1 { LastHasLogs(ss, i + 1); }
  }

  // ---- Windows ---------------------------------------------------------------------------

  /** `s` cut into runs of `n`; only the last may be shorter. */
  function Chunks(s: seq<Source>, n: Pos): (r: seq<seq<Source>>)
    ensures s == [] <==> r == []
    decreases |s|
  {
    if s == [] then [] else [Take(s, n)] + Chunks(s[|Take(s, n)|..], n)
  }

  /** The windows a windowed stream loads one after the other: a checkpoint, when there is one,
      shares the first window. */
  function Windows(checkpoint: seq<Source>, journals: seq<Source>, n: Pos): (r: seq<seq<Source>>) {
    if journals == [] then (if checkpoint == [] then [] else [checkpoint])
    else [checkpoint + Take(journals, n)] + Chunks(journals[|Take(journals, n)|..], n)
  }

  lemma {:induction false} ChunksFlatten(s: seq<Source>, n: Pos)
    ensures Seqs.Flatten(Chunks(s, n)) == s
    decreases |s|
  {
    if s != [] {
      ChunksFlatten(s[|Take(s, n)|..], n);
    }
  }

  lemma WindowsFlatten(checkpoint: seq<Source>, journals: seq<Source>, n: Pos)
    ensures Seqs.Flatten(Windows(checkpoint, journals, n)) == checkpoint + journals
  {
    var ws := Windows(checkpoint, journals, n);
    if journals == [] {
      assert checkpoint != [] ==> ws == [checkpoint] && ws[1..] == [];
    } else {
      var first := Take(journals, n);
      assert ws[0] == checkpoint + first && ws[1..] == Chunks(journals[|first|..], n);
      ChunksFlatten(journals[|first|..], n);
      Seqs.TakeDrop(journals, |first|);
      Seqs.Assoc(checkpoint, first, journals[|first|..]);
    }
  }

  predicate EndsEmpty(w: seq<Source>) { w != [] && w[|w| - 1].blob == [] }

  /** `n` logs come out in full batches only: `n` is a multiple of `batch`. */
  predicate InFullBatches(n: nat, batch: Pos) {
    n == 0 || (n >= batch && InFullBatches(n - batch, batch))
  }

  lemma AtLeastOnce(x: int, b: int)
    requires x >= 1 && b >= 1
    ensures x * b >= b
  {
  }

  lemma EuclidUnique(b: int, q: int, r: int, d: int, m: int)
    requires b >= 1 && 0 <= r < b && 0 <= m < b && q * b + r == d * b + m
    ensures q == d && r == m
  {
    if q > d {
      assert (q - d) * b == q * b - d * b;
      AtLeastOnce(q - d, b);
    }
    if q < d {
      assert (d - q) * b == d * b - q * b;
      AtLeastOnce(d - q, b);
    }
  }

  lemma {:induction false} InFullBatchesIsMultiple(n: nat, batch: Pos)
    ensures InFullBatches(n, batch) <==> n % batch == 0
  {
    if n >= batch {
      InFullBatchesIsMultiple(n - batch, batch);
      var q := (n - batch) / batch;
      assert (q + 1) * batch == q * batch + batch;
      EuclidUnique(batch, q + 1, (n - batch) % batch, n / batch, n % batch);
    }
  }

  /** A window makes the stream report its end once its logs are used up when it ends in an empty
      blob and its logs come out in full batches only: the trailing empty blobs are then met by a
      call that has nothing to return. */
  predicate Stalls(w: seq<Source>, batch: Pos) {
    EndsEmpty(w) && InFullBatches(|AllLogs(w)|, batch)
  }

  /** What follows when a window has `pending` logs left, ends in an empty blob or not, and
      `future` is to come after it. */
  function FromWindow(pending: seq<TaggedLog>, lastEmpty: bool, batch: Pos, future: seq<TaggedLog>): seq<TaggedLog> {
    pending + if lastEmpty && InFullBatches(|pending|, batch) then [] else future
  }

  /** Taking one full batch away does not change whether the rest splits into full batches. */
  lemma FromWindowFullBatch(logs: seq<TaggedLog>, rest: seq<TaggedLog>, lastEmpty: bool, batch: Pos, future: seq<TaggedLog>)
    requires |logs| == batch
    ensures FromWindow(logs + rest, lastEmpty, batch, future) == logs + FromWindow(rest, lastEmpty, batch, future)
  {
    assert |logs + rest| - batch == |rest|;
  }

  /** What a windowed stream returns over all its calls, up to its first end-of-stream. */
  function WindowedYield(ws: seq<seq<Source>>, batch: Pos): (r: seq<TaggedLog>) {
    if ws == [] then []
    else FromWindow(AllLogs(ws[0]), EndsEmpty(ws[0]), batch, WindowedYield(ws[1..], batch))
  }

  /** The first window with `n` journals of `ids`, and what comes after it. */
  lemma FirstWindow(st: Store, checkpoint: seq<Source>, ids: seq<nat>, n: Pos, batch: Pos)
    requires ids != [] && forall x :: x in ids ==> x in st.journals
    ensures var k := |Take(ids, n)|;
            && 0 < k <= |ids|
            && WindowedYield(Windows(checkpoint, JournalSources(st, ids), n), batch)
               == FromWindow(AllLogs(checkpoint + JournalSources(st, ids[..k])),
                             EndsEmpty(checkpoint + JournalSources(st, ids[..k])), batch,
                             WindowedYield(Chunks(JournalSources(st, ids[k..]), n), batch))
  {
    var k, js := |Take(ids, n)|, JournalSources(st, ids);
    var ws := Windows(checkpoint, js, n);
    assert Take(js, n) == js[..k] == JournalSources(st, ids[..k]);
    assert js[k..] == JournalSources(st, ids[k..]);
    assert ws[1..] == Chunks(js[k..], n);
  }

  lemma NothingAhead(st: Store, n: Pos, batch: Pos)
    ensures WindowedYield(Chunks(JournalSources(st, []), n), batch) == []
  {
  }

  lemma ChunksAreWindows(s: seq<Source>, n: Pos)
    ensures Chunks(s, n) == Windows([], s, n)
  {
    if s != [] { assert [] + Take(s, n) == Take(s, n); }
  }

  /** Every stalling window has only empty blobs after it. */
  predicate NoLogsAfterStall(ws: seq<seq<Source>>, batch: Pos) {
    forall i :: 0 <= i < |ws| && Stalls(ws[i], batch) ==> AllLogs(Seqs.Flatten(ws[i + 1..])) == []
  }

  lemma {:induction false} WindowedYieldIsPrefix(ws: seq<seq<Source>>, batch: Pos)
    ensures WindowedYield(ws, batch) <= AllLogs(Seqs.Flatten(ws))
    ensures WindowedYield(ws, batch) == AllLogs(Seqs.Flatten(ws)) <==> NoLogsAfterStall(ws, batch)
  {
    if ws != [] {
      var first, tail := ws[0], ws[1..];
      WindowedYieldIsPrefix(tail, batch);
      AllLogsConcat(first, Seqs.Flatten(tail));
      NoLogsAfterStallHead(ws, batch);
      var rest := AllLogs(Seqs.Flatten(tail));
      hide *;
      if Stalls(first, batch) {
        Seqs.PrependPrefix(AllLogs(first), [], rest);
      } else {
        Seqs.PrependPrefix(AllLogs(first), WindowedYield(tail, batch), rest);
      }
      UnfoldYield(ws, batch);
    }
  }

  lemma UnfoldYield(ws: seq<seq<Source>>, batch: Pos)
    requires ws != []
    ensures Seqs.Flatten(ws) == ws[0] + Seqs.Flatten(ws[1..])
    ensures WindowedYield(ws, batch) == AllLogs(ws[0]) + if Stalls(ws[0], batch) then [] else WindowedYield(ws[1..], batch)
  {
  }

  /** The condition on all windows, told from the first window and the others. */
  lemma NoLogsAfterStallHead(ws: seq<seq<Source>>, batch: Pos)
    requires ws != []
    ensures NoLogsAfterStall(ws, batch)
            <==> if Stalls(ws[0], batch) then AllLogs(Seqs.Flatten(ws[1..])) == [] else NoLogsAfterStall(ws[1..], batch)
  {
    hide Stalls, AllLogs, Seqs.Flatten;
    var tail := ws[1..];
    assert forall i :: 0 <= i < |tail| ==> tail[i] == ws[i + 1] && tail[i + 1..] == ws[i + 2..];
    if Stalls(ws[0], batch) && AllLogs(Seqs.Flatten(tail)) == [] {
      forall i | 0 <= i < |ws| && Stalls(ws[i], batch) ensures AllLogs(Seqs.Flatten(ws[i + 1..])) == [] {
        TailHasNoLogs(tail, i);
        assert ws[i + 1..] == tail[i..];
      }
    }
    if Stalls(ws[0], batch) && NoLogsAfterStall(ws, batch) {
      assert ws[0 + 1..] == tail;
    }
    if !Stalls(ws[0], batch) && NoLogsAfterStall(tail, batch) {
      forall i | 0 <= i < |ws| && Stalls(ws[i], batch) ensures AllLogs(Seqs.Flatten(ws[i + 1..])) == [] {
        assert Stalls(tail[i - 1], batch);
      }
    }
    if !Stalls(ws[0], batch) && NoLogsAfterStall(ws, batch) {
      forall i | 0 <= i < |tail| && Stalls(tail[i], batch) ensures AllLogs(Seqs.Flatten(tail[i + 1..])) == [] {
        assert Stalls(ws[i + 1], batch);
      }
    }
  }

  lemma {:induction false} TailHasNoLogs(ws: seq<seq<Source>>, i: nat)
    requires i <= |ws| && AllLogs(Seqs.Flatten(ws)) == []
    ensures AllLogs(Seqs.Flatten(ws[i..])) == []
  {
    if i == 0 {
      assert ws[0..] == ws;
    } else {
      AllLogsConcat(ws[0], Seqs.Flatten(ws[1..]));
      TailHasNoLogs(ws[1..], i - 1);
      assert ws[1..][i - 1..] == ws[i..];
    }
  }

  // ---- What a recovery returns -----------------------------------------------------------

  /** The checkpoint a recovery starts from: the one `last_checkpoint` names, else the highest
      listed one; `INVALID_ID` when there is none. */
  function CheckpointInUse(st: Store): nat {
    if st.lastCheckpoint.Some? then st.lastCheckpoint.value
    else if st.checkpointIds == [] then INVALID_ID
    else st.checkpointIds[|st.checkpointIds| - 1]
  }

  function CheckpointSources(st: Store): (r: seq<Source>)
    requires st.Valid()
  {
    var c := CheckpointInUse(st);
    if c == INVALID_ID then [] else [Source(c, st.checkpoints[c].blob)]
  }

  function JournalSources(st: Store, ids: seq<nat>): (r: seq<Source>)
    requires forall x :: x in ids ==> x in st.journals
    ensures |r| == |ids|
    ensures forall i :: 0 <= i < |ids| ==> r[i] == Source(ids[i], st.journals[ids[i]])
  {
    seq(|ids|, i requires 0 <= i < |ids| => Source(ids[i], st.journals[ids[i]]))
  }

  /** The last journal the checkpoint in use already covers. */
  function Covered(st: Store): nat
    requires st.Valid()
  {
    var c := CheckpointInUse(st);
    if c == INVALID_ID then INVALID_ID else st.checkpoints[c].lastProcessed
  }

  function PlannedIds(st: Store, req: Request): (r: seq<nat>)
    requires st.Valid()
    ensures forall x :: x in r ==> x in st.journalIds && x in st.journals
  {
    var m := if CheckpointInUse(st) == INVALID_ID then Start else After(Covered(st));
    var listed := Rest(st.journalIds, m);
    RestIsSuffix(st.journalIds, m);
    assert forall x :: x in listed ==> x in st.journalIds;
    Selected(listed, Covered(st), req)
  }

  /** The last journal covered once a recovery is done. */
  function LastPlanned(st: Store, req: Request): nat
    requires st.Valid()
  {
    var ids := PlannedIds(st, req);
    if ids == [] then Covered(st) else ids[|ids| - 1]
  }

  /** A lone checkpoint is only returned when the request asks for it. */
  predicate NothingToDo(st: Store, req: Request)
    requires st.Valid()
  {
    PlannedIds(st, req) == [] && !req.readCheckpointAlone
  }

  /** Load-all recovery: the checkpoint's logs, then each selected journal's logs. */
  function LoadAllYield(st: Store, req: Request): seq<TaggedLog>
    requires st.Valid()
  {
    if NothingToDo(st, req) then []
    else AllLogs(CheckpointSources(st) + JournalSources(st, PlannedIds(st, req)))
  }

  function PlannedWindows(st: Store, req: Request, perWindow: Pos): seq<seq<Source>>
    requires st.Valid()
  {
    Windows(CheckpointSources(st), JournalSources(st, PlannedIds(st, req)), perWindow)
  }

  /** Windowed recovery with `perWindow` journals in memory and `batch` logs per call. */
  function BatchedYield(st: Store, req: Request, perWindow: Pos, batch: Pos): seq<TaggedLog>
    requires st.Valid()
  {
    if NothingToDo(st, req) then [] else WindowedYield(PlannedWindows(st, req, perWindow), batch)
  }

  lemma HighestIsLast(ids: seq<nat>, last: nat)
    requires Ascending(ids) && (last == INVALID_ID || last in ids) && forall x :: x in ids ==> x <= last
    ensures last == if ids == [] then INVALID_ID else ids[|ids| - 1]
  {
    if ids != [] {
      assert ids[|ids| - 1] in ids;
      if last in ids {
        var k :| 0 <= k < |ids| && ids[k] == last;
      }
    }
  }
}
