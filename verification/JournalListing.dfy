/** The paged listings a journal recovery starts with: the highest checkpoint, and the journals
    that come after what the checkpoint covers. */
module JournalListing {
  import opened Basics
  import opened JournalSpec
  import Seqs

  method HighestOnPage(page: seq<nat>, before: nat) returns (last: nat)
    ensures last == before || last in page
    ensures before <= last && forall x :: x in page ==> x <= last
  {
    last := before;
    for i := 0 to |page|
      invariant before <= last && (last == before || last in page)
      invariant forall k :: 0 <= k < i ==> page[k] <= last
    {
      if page[i] > last {
        last := page[i];
      }
    }
  }

  /** The highest checkpoint, however the store pages its listing. */
  method ListCheckpoints(ids: seq<nat>, pager: Pager) returns (last: nat)
    requires Ascending(ids) && LegalPager(ids, pager)
    ensures last == INVALID_ID || last in ids
    ensures forall x :: x in ids ==> x <= last
  {
    last := INVALID_ID;
    var marker, calls, done := Start, 0, false;
    assert Rest(ids, marker) == ids;
    hide Rest, MarkerRank;
    while !done
      invariant last == INVALID_ID || last in ids
      invariant forall x :: x in ids ==> x <= last || (!done && x in Rest(ids, marker))
      decreases !done, |Rest(ids, marker)|, MarkerRank(marker)
    {
      var page := pager(marker, calls);
      assert LegalPage(ids, marker, page);
      ResumeSound(ids, marker, page);
      PageIsListed(ids, marker, page);
      last := HighestOnPage(page.ids, last);
      calls := calls + 1;
      if Resume(page).Some? {
        marker := Resume(page).value;
      } else {
        done := true;
      }
    }
  }

  lemma PageIsListed(ids: seq<nat>, m: Marker, p: Page)
    requires LegalPage(ids, m, p)
    ensures forall x :: x in p.ids ==> x in ids
  {
    RestIsSuffix(ids, m);
  }

  /** The selection once `found` has been selected and `rest` is still to come. */
  function Completion(found: seq<nat>, rest: seq<nat>, low: nat, req: Request): seq<nat> {
    if req.maxJournals == 0 then InRange(Take(rest, 1), low, req.maxJournalId)
    else Take(found + InRange(rest, low, req.maxJournalId), req.maxJournals)
  }

  /** A page that does not stop the listing moves its ids from `rest` to `found`. */
  lemma CompletionStep(found: seq<nat>, page: seq<nat>, rest: seq<nat>, low: nat, req: Request)
    requires req.maxJournals == 0 ==> page == []
    ensures Completion(found, page + rest, low, req)
            == Completion(found + InRange(page, low, req.maxJournalId), rest, low, req)
  {
    InRangeConcat(page, rest, low, req.maxJournalId);
    assert page == [] ==> page + rest == rest;
    Seqs.Assoc(found, InRange(page, low, req.maxJournalId), InRange(rest, low, req.maxJournalId));
  }

  /** Adds the ids of one page that are in range; true once the listing is to stop.  `rest` is
      everything the listing would still deliver, this page first. */
  method ScanPage(found: seq<nat>, page: seq<nat>, low: nat, req: Request, ghost rest: seq<nat>)
    returns (ids: seq<nat>, stop: bool)
    requires page <= rest && Ascending(rest)
    requires if req.maxJournals == 0 then found == [] else |found| < req.maxJournals
    ensures stop ==> ids == Completion(found, rest, low, req)
    ensures !stop ==> ids == found + InRange(page, low, req.maxJournalId)
    ensures !stop ==> if req.maxJournals == 0 then page == [] else |ids| < req.maxJournals
  {
    ids := found;
    for i := 0 to |page|
      invariant ids == found + InRange(rest[..i], low, req.maxJournalId)
      invariant if req.maxJournals == 0 then i == 0 else |ids| < req.maxJournals
    {
      ScanStep(rest, i, low, req.maxJournalId);
      assert i == 0 ==> Take(rest, 1) == rest[..1];
      if page[i] > req.maxJournalId {
        return ids, true;
      }
      if page[i] > low {
        ids := ids + [page[i]];
      }
      if |ids| >= req.maxJournals {
        return ids, true;
      }
    }
    assert rest[..|page|] == page;
    return ids, false;
  }

  /** The journals to read, however the store pages its listing. */
  method ListJournals(all: seq<nat>, pager: Pager, start: Marker, low: nat, req: Request) returns (ids: seq<nat>)
    requires Ascending(all) && LegalPager(all, pager)
    ensures ids == Selected(Rest(all, start), low, req)
  {
    ids := [];
    var marker, calls, done := start, 0, false;
    assert Selected(Rest(all, start), low, req) == Completion([], Rest(all, start), low, req);
    hide Rest, MarkerRank, Selected;
    while !done
      invariant Selected(Rest(all, start), low, req) == if done then ids else Completion(ids, Rest(all, marker), low, req)
      invariant !done ==> if req.maxJournals == 0 then ids == [] else |ids| < req.maxJournals
      decreases !done, |Rest(all, marker)|, MarkerRank(marker)
    {
      var found := ids;
      ghost var rest := Rest(all, marker);
      RestAscending(all, marker);
      var page := pager(marker, calls);
      assert LegalPage(all, marker, page);
      ResumeSound(all, marker, page);
      var stop;
      ids, stop := ScanPage(found, page.ids, low, req, rest);
      calls := calls + 1;
      if !stop && Resume(page).Some? {
        CompletionStep(found, page.ids, Rest(all, Resume(page).value), low, req);
        marker := Resume(page).value;
      } else {
        done := true;
      }
    }
    // Sorting the ids changes nothing: they are ascending already.
  }
}
