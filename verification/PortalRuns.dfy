// Portal cycles over time: what was stored, what is still missing, and why no
// notice newer than the baseline is ever left behind.
module PortalRuns {
  import opened Prelude
  import opened PortalScan

  // What happens to one discovered notice: stored, skipped because its fetch
  // failed with a non-network error, or the cycle aborts at it.
  datatype Fetch = Stored | Skipped | Aborted

  // The archive of recent notices: those stored, those skipped, and whether it
  // failed on the way.
  datatype Archive = Archive(ids: seq<int>, skipped: nat, failed: bool)

  // The polling cursor: known, or missing and then initialized or not.
  datatype Cursor = Known | Initialized | Unavailable

  datatype Report = Report(found: nat, skipped: nat, failed: bool)

  // The stored notices after the loop over `ids`.
  function Process(observed: set<int>, ids: seq<int>, outcome: int -> Fetch): set<int>
    decreases |ids|
  {
    if ids == [] then observed
    else match outcome(ids[0])
      case Stored => Process(observed + {ids[0]}, ids[1..], outcome)
      case Skipped => Process(observed, ids[1..], outcome)
      case Aborted => observed
  }

  function Tally(ids: seq<int>, outcome: int -> Fetch, f: Fetch): nat {
    if ids == [] then 0
    else Tally(ids[..|ids| - 1], outcome, f) + if outcome(ids[|ids| - 1]) == f then 1 else 0
  }

  predicate Aborts(ids: seq<int>, outcome: int -> Fetch) {
    exists i :: 0 <= i < |ids| && outcome(ids[i]).Aborted?
  }

  // The ids a successful scan returns.
  ghost function Found(listing: seq<int>, size: nat, observed: set<int>): (ids: seq<int>)
    requires size > 0
    ensures Ascending(ids)
    ensures Elements(ids) == Listed(listing, size, LastPage(listing, size, observed, 1)) - observed
  {
    var prefix := listing[..Min(Offset(size, LastPage(listing, size, observed, 1)), |listing|)];
    var ids := InsertAll([], Missing(Positive(prefix), observed));
    assert forall y :: y in ids <==> y in prefix && y > 0 && y !in observed;
    ids
  }

  ghost predicate ScanSucceeds(listing: seq<int>, size: nat, maxPages: nat, observed: set<int>, failing: Option<nat>)
    requires size > 0
  {
    var last := LastPage(listing, size, observed, 1);
    last <= maxPages && !(failing.Some? && 1 <= failing.value <= last)
  }

  ghost function AfterCycle(listing: seq<int>, size: nat, maxPages: nat, failing: Option<nat>,
                            observed: set<int>, outcome: int -> Fetch): set<int>
    requires size > 0
  {
    if ScanSucceeds(listing, size, maxPages, observed, failing)
    then Process(observed, Found(listing, size, observed), outcome)
    else observed
  }

  lemma {:induction false} AscendingUnique(a: seq<int>, b: seq<int>)
    requires Ascending(a) && Ascending(b) && Elements(a) == Elements(b)
    ensures a == b
  {
    assert (a != [] ==> a[0] in a) && (b != [] ==> b[0] in b);
    assert forall x :: x in a <==> x in Elements(a);
    assert forall x :: x in b <==> x in Elements(b);
    if a != [] {
      assert a[0] in b && b != [] && b[0] in a;
      assert a[0] == b[0];
      forall x ensures x in Elements(a[1..]) <==> x in Elements(b[1..]) {
        assert x in a[1..] <==> x in a && x != a[0];
        assert x in b[1..] <==> x in b && x != b[0];
      }
      AscendingUnique(a[1..], b[1..]);
    }
  }

  class PortalStore {
    var observed: set<int>

    constructor ()
      ensures observed == {}
    {
      observed := {};
    }

    // One cycle: archive recent history into an empty store, initialize a missing
    // cursor, scan and process, then complete stored notices without a body.
    method RunPortalCycle(listing: seq<int>, size: nat, maxPages: nat, failing: Option<nat>, outcome: int -> Fetch,
                          archive: Archive, cursor: Cursor, backfill: seq<Fetch>)
      returns (report: Report)
      requires 0 < size <= MAX_PAGE_SIZE && maxPages > 0
      modifies this
      ensures var history := if old(observed) == {} then Elements(archive.ids) else old(observed);
        var archived := old(observed) != {} || !archive.failed;
        var ids := Found(listing, size, history);
        && observed == (if archived && cursor.Known?
                        then AfterCycle(listing, size, maxPages, failing, history, outcome) else history)
        && (report.failed <==>
              !archived
              || cursor.Unavailable?
              || (cursor.Known?
                  && (!ScanSucceeds(listing, size, maxPages, history, failing)
                      || Aborts(ids, outcome) || Aborted in backfill)))
        && (!report.failed && cursor.Known? ==>
              && report.found == Tally(ids, outcome, Stored)
              && report.skipped == (if old(observed) == {} then archive.skipped else 0)
                                   + Tally(ids, outcome, Skipped) + multiset(backfill)[Skipped])
    {
      hide Found, LastPage, Listed, Stops, Elements, Ascending, Process, Tally, Aborts;
      report := Report(0, 0, false);
      if observed == {} {
        observed := set x | x in archive.ids;
        assert observed == Elements(archive.ids) by { ElementsAre(archive.ids); }
        report := report.(skipped := archive.skipped);
        if archive.failed { return report.(failed := true); }
      }
      if !cursor.Known? { return report.(failed := cursor.Unavailable?); }
      var scan := UnobservedNoticeIds(listing, size, maxPages, observed, failing);
      if scan.Err? { return report.(failed := true); }
      AscendingUnique(scan.value, Found(listing, size, observed));
      var processed := ProcessNotices(scan.value, outcome);
      report := Report(processed.found, report.skipped + processed.skipped, processed.failed);
      if report.failed { return; }
      for i := 0 to |backfill|
        invariant Aborted !in backfill[..i]
        invariant !report.failed && report.found == processed.found
        invariant report.skipped == (if old(observed) == {} then archive.skipped else 0)
                                    + processed.skipped + multiset(backfill[..i])[Skipped]
      {
        assert backfill[..i + 1] == backfill[..i] + [backfill[i]];
        match backfill[i] {
          case Stored =>
          case Skipped =>
            report := report.(skipped := report.skipped + 1);
          case Aborted =>
            return report.(failed := true);
        }
      }
      assert backfill[..|backfill|] == backfill;
    }

    // The loop over the discovered ids; a failure ends it.
    method ProcessNotices(ids: seq<int>, outcome: int -> Fetch) returns (report: Report)
      modifies this
      ensures observed == Process(old(observed), ids, outcome)
      ensures report.failed <==> Aborts(ids, outcome)
      ensures !report.failed ==>
        report.found == Tally(ids, outcome, Stored) && report.skipped == Tally(ids, outcome, Skipped)
    {
      report := Report(0, 0, false);
      for i := 0 to |ids|
        invariant Process(observed, ids[i..], outcome) == Process(old(observed), ids, outcome)
        invariant forall j :: 0 <= j < i ==> !outcome(ids[j]).Aborted?
        invariant !report.failed
        invariant report.found == Tally(ids[..i], outcome, Stored)
        invariant report.skipped == Tally(ids[..i], outcome, Skipped)
      {
        TallyStep(ids, i, outcome);
        assert ids[i..][0] == ids[i] && ids[i..][1..] == ids[i + 1..];
        match outcome(ids[i]) {
          case Stored =>
            observed := observed + {ids[i]};
            report := report.(found := report.found + 1);
          case Skipped =>
            report := report.(skipped := report.skipped + 1);
          case Aborted =>
            return report.(failed := true);
        }
      }
      assert ids[..|ids|] == ids && ids[|ids|..] == [];
    }
  }

  lemma ElementsAre(ids: seq<int>)
    ensures Elements(ids) == set x | x in ids
  {
  }

  lemma TallyStep(ids: seq<int>, i: nat, outcome: int -> Fetch)
    requires i < |ids|
    ensures forall f ::
      Tally(ids[..i + 1], outcome, f) == Tally(ids[..i], outcome, f) + if outcome(ids[i]) == f then 1 else 0
  {
    assert ids[..i + 1][..i] == ids[..i];
  }

  // ---- Nothing is left behind ---------------------------------------------

  ghost predicate Descending(listing: seq<int>) {
    forall i, j :: 0 <= i < j < |listing| ==> listing[i] > listing[j]
  }

  // Every listed notice newer than the baseline and not stored yet is newer
  // than every stored notice.
  ghost predicate NoGap(listing: seq<int>, observed: set<int>, base: nat) {
    forall u, o :: u in listing && u > base && u !in observed && o in observed ==> o < u
  }

  ghost predicate Complete(listing: seq<int>, size: nat, observed: set<int>, base: nat)
    requires size > 0
  {
    forall u :: u in listing && u > base && u !in observed ==> u in Found(listing, size, observed)
  }

  // How many pages come before that of index k, and where that page starts.
  function PagesBefore(size: nat, k: nat): nat
    requires size > 0
  {
    if k < size then 0 else 1 + PagesBefore(size, k - size)
  }

  function PageStart(size: nat, k: nat): nat
    requires size > 0
  {
    Offset(size, PagesBefore(size, k))
  }

  lemma {:induction false} PageBounds(size: nat, k: nat)
    requires size > 0
    ensures PageStart(size, k) <= k < Offset(size, PagesBefore(size, k) + 1)
  {
    if k >= size { PageBounds(size, k - size); }
  }

  lemma {:induction false} PageExists(length: nat, size: nat, k: nat)
    requires size > 0 && k < length
    ensures PagesBefore(size, k) < PagesFor(length, size)
  {
    if k >= size { PageExists(length - size, size, k - size); }
  }

  lemma {:induction false} OffsetsGrow(size: nat, m: nat, n: nat)
    requires m <= n
    ensures Offset(size, m) <= Offset(size, n)
  {
    if m < n { OffsetsGrow(size, m, n - 1); }
  }

  lemma OnPage(listing: seq<int>, size: nat, n: nat, i: nat)
    requires n >= 1 && Offset(size, n - 1) <= i < Offset(size, n) && i < |listing| && listing[i] > 0
    ensures listing[i] in Positive(Page(listing, size, n))
  {
    hide Offset, Positive;
    assert Page(listing, size, n)[i - Offset(size, n - 1)] == listing[i];
  }

  lemma BeforePage(listing: seq<int>, size: nat, m: nat, n: nat, x: int)
    requires 1 <= m <= n && x in Positive(Page(listing, size, m))
    ensures exists j :: 0 <= j < Offset(size, n) && j < |listing| && listing[j] == x
  {
    hide Positive;
    OffsetsGrow(size, m, n);
    var page := Page(listing, size, m);
    var i :| 0 <= i < |page| && page[i] == x;
    assert listing[Offset(size, m - 1) + i] == x;
  }

  // A stored notice ends the scan on its page at the latest.
  lemma StoredStops(listing: seq<int>, size: nat, observed: set<int>, j: nat)
    requires size > 0 && j < |listing| && listing[j] > 0 && listing[j] in observed
    ensures LastPage(listing, size, observed, 1) <= PagesBefore(size, j) + 1
  {
    hide LastPage, Page, Positive, Pages, Offset, PagesBefore;
    PageBounds(size, j);
    OnPage(listing, size, PagesBefore(size, j) + 1, j);
    assert Stops(listing, size, observed, PagesBefore(size, j) + 1);
  }

  // While no page before that of a positive notice holds a stored one, the scan
  // does not end there.
  lemma NoStopBefore(listing: seq<int>, size: nat, observed: set<int>, m: nat, k: nat)
    requires size > 0 && Descending(listing) && k < |listing| && listing[k] > 0
    requires 1 <= m <= PagesBefore(size, k)
    requires NoneStored(listing, observed, PageStart(size, k))
    ensures !Stops(listing, size, observed, m)
  {
    hide Page, Positive, PagesFor, PagesBefore;
    PageBounds(size, k);
    PageExists(|listing|, size, k);
    OffsetsGrow(size, m, PagesBefore(size, k));
    OnPage(listing, size, m, Offset(size, m - 1));
    forall x | x in Positive(Page(listing, size, m)) ensures x !in observed {
      BeforePage(listing, size, m, PagesBefore(size, k), x);
    }
  }

  // None of the first `end` listed notices is stored.
  ghost predicate NoneStored(listing: seq<int>, observed: set<int>, end: nat) {
    forall j :: 0 <= j < end && j < |listing| ==> listing[j] !in observed
  }

  // A missing positive notice is found by a successful scan exactly when no
  // stored notice is listed on an earlier page.
  lemma {:induction false} FoundIff(listing: seq<int>, size: nat, observed: set<int>, k: nat)
    requires size > 0 && Descending(listing) && k < |listing| && listing[k] > 0 && listing[k] !in observed
    ensures listing[k] in Found(listing, size, observed) <==> NoneStored(listing, observed, PageStart(size, k))
  {
    hide LastPage, Page, Stops, Found, Offset, PagesBefore, NoneStored;
    var last, n := LastPage(listing, size, observed, 1), PagesBefore(size, k);
    PageBounds(size, k);
    if NoneStored(listing, observed, PageStart(size, k)) {
      forall m | 1 <= m <= n ensures !Stops(listing, size, observed, m) {
        NoStopBefore(listing, size, observed, m, k);
      }
      OffsetsGrow(size, n + 1, last);
      Within(listing, size, observed, k);
    } else {
      var j := StoredBefore(listing, observed, PageStart(size, k));
      PageBounds(size, k);
      assert listing[j] > listing[k];
      StoredStops(listing, size, observed, j);
      EarlierPage(size, j, k);
      OffsetsGrow(size, last, n);
      NotWithin(listing, size, observed, k);
    }
  }

  lemma StoredBefore(listing: seq<int>, observed: set<int>, end: nat) returns (j: nat)
    requires !NoneStored(listing, observed, end)
    ensures j < end && j < |listing| && listing[j] in observed
  {
    j :| 0 <= j < end && j < |listing| && listing[j] in observed;
  }

  lemma EarlierPage(size: nat, j: nat, k: nat)
    requires size > 0 && j < PageStart(size, k)
    ensures PagesBefore(size, j) < PagesBefore(size, k)
  {
    hide Offset, PagesBefore;
    PageBounds(size, j);
    if PagesBefore(size, j) >= PagesBefore(size, k) {
      OffsetsGrow(size, PagesBefore(size, k), PagesBefore(size, j));
    }
  }

  lemma Within(listing: seq<int>, size: nat, observed: set<int>, k: nat)
    requires size > 0 && k < |listing| && listing[k] > 0 && listing[k] !in observed
    requires k < Offset(size, LastPage(listing, size, observed, 1))
    ensures listing[k] in Found(listing, size, observed)
  {
    hide LastPage, Offset, Found;
    var end := Min(Offset(size, LastPage(listing, size, observed, 1)), |listing|);
    assert listing[..end][k] == listing[k];
    assert listing[k] in Elements(Found(listing, size, observed));
  }

  lemma NotWithin(listing: seq<int>, size: nat, observed: set<int>, k: nat)
    requires size > 0 && Descending(listing) && k < |listing|
    requires Offset(size, LastPage(listing, size, observed, 1)) <= k
    ensures listing[k] !in Found(listing, size, observed)
  {
    hide LastPage, Offset, Found;
    var end := Min(Offset(size, LastPage(listing, size, observed, 1)), |listing|);
    assert forall i :: 0 <= i < end ==> listing[..end][i] == listing[i] > listing[k];
    assert listing[k] in Found(listing, size, observed) <==> listing[k] in Elements(Found(listing, size, observed));
  }

  // A scan misses nothing above the baseline exactly when no stored notice is
  // listed on a page before that of a missing one.
  lemma {:induction false} CompleteIff(listing: seq<int>, size: nat, observed: set<int>, base: nat)
    requires size > 0 && Descending(listing)
    ensures Complete(listing, size, observed, base) <==>
      forall k :: 0 <= k < |listing| && listing[k] > base && listing[k] !in observed ==>
        NoneStored(listing, observed, PageStart(size, k))
  {
    hide Found, PageStart, NoneStored;
    forall k | 0 <= k < |listing| && listing[k] > base && listing[k] !in observed
      ensures listing[k] in Found(listing, size, observed) <==> NoneStored(listing, observed, PageStart(size, k))
    {
      FoundIff(listing, size, observed, k);
    }
  }

  // Without a gap a successful scan returns every missing notice above the baseline.
  lemma {:induction false} ScanComplete(listing: seq<int>, size: nat, observed: set<int>, base: nat)
    requires size > 0 && Descending(listing) && NoGap(listing, observed, base)
    ensures Complete(listing, size, observed, base)
  {
    hide Found, PageStart, Complete;
    CompleteIff(listing, size, observed, base);
    forall k | 0 <= k < |listing| && listing[k] > base && listing[k] !in observed
      ensures NoneStored(listing, observed, PageStart(size, k))
    {
      PageBounds(size, k);
      assert listing[k] in listing;
    }
  }

  // ---- Runs ---------------------------------------------------------------

  // `known` holds every id listed so far.
  datatype Portal = Portal(listing: seq<int>, known: set<int>, observed: set<int>)

  datatype Round = Round(listing: seq<int>, failing: Option<nat>, outcome: int -> Fetch)

  // Between two cycles the Portal adds notices newer than all it ever listed
  // and may drop some, for good.
  ghost predicate Grows(p: Portal, listing: seq<int>) {
    && Descending(listing)
    && forall u :: u in listing && u !in p.listing ==> forall o :: o in p.known ==> o < u
  }

  ghost predicate NoSkip(outcome: int -> Fetch) {
    forall id :: !outcome(id).Skipped?
  }

  ghost function Play(p: Portal, size: nat, maxPages: nat, r: Round): Portal
    requires size > 0
  {
    Portal(r.listing, p.known + Elements(r.listing),
           AfterCycle(r.listing, size, maxPages, r.failing, p.observed, r.outcome))
  }

  ghost function PlayAll(p: Portal, size: nat, maxPages: nat, rounds: seq<Round>): Portal
    requires size > 0
  {
    if rounds == [] then p
    else Play(PlayAll(p, size, maxPages, rounds[..|rounds| - 1]), size, maxPages, rounds[|rounds| - 1])
  }

  ghost predicate Legal(p: Portal, size: nat, maxPages: nat, rounds: seq<Round>)
    requires size > 0
  {
    rounds == [] || (
      var front, last := rounds[..|rounds| - 1], rounds[|rounds| - 1];
      && Legal(p, size, maxPages, front)
      && Grows(PlayAll(p, size, maxPages, front), last.listing)
      && NoSkip(last.outcome))
  }

  ghost predicate Tight(p: Portal, base: nat) {
    && p.observed <= p.known && Elements(p.listing) <= p.known
    && Descending(p.listing) && NoGap(p.listing, p.observed, base)
  }

  // The first archive stores the newest `count` listed notices.
  ghost function Baseline(listing: seq<int>, count: nat): Portal
    requires count <= |listing|
  {
    Portal(listing, Elements(listing), Elements(listing[..count]))
  }

  ghost function BaseId(listing: seq<int>, count: nat): nat
    requires count <= |listing|
  {
    if count > 0 && listing[count - 1] > 0 then listing[count - 1] else 0
  }

  lemma BaselineTight(listing: seq<int>, count: nat)
    requires Descending(listing) && count <= |listing|
    ensures Tight(Baseline(listing, count), BaseId(listing, count))
  {
  }

  // Processing an ascending list and stopping anywhere leaves only newer ones.
  lemma {:induction false} ProcessAscending(observed: set<int>, ids: seq<int>, outcome: int -> Fetch)
    requires Ascending(ids) && NoSkip(outcome)
    ensures observed <= Process(observed, ids, outcome) <= observed + Elements(ids)
    ensures forall u, o :: (u in ids && u !in Process(observed, ids, outcome)
                            && o in Process(observed, ids, outcome) && o !in observed) ==> o < u
    decreases |ids|
  {
    if ids != [] && outcome(ids[0]).Stored? {
      var next, after := observed + {ids[0]}, Process(observed, ids, outcome);
      assert ids == [ids[0]] + ids[1..];
      ProcessAscending(next, ids[1..], outcome);
      assert after == Process(next, ids[1..], outcome);
      hide Process;
      assert Elements(ids) == {ids[0]} + Elements(ids[1..]);
      forall u, o | u in ids && u !in after && o in after && o !in observed ensures o < u {
        assert u in ids[1..];
        if o != ids[0] { assert o !in next; }
      }
    }
  }

  lemma TightRound(p: Portal, size: nat, maxPages: nat, r: Round, base: nat)
    requires size > 0 && Tight(p, base) && Grows(p, r.listing) && NoSkip(r.outcome)
    ensures NoGap(r.listing, p.observed, base)
    ensures Tight(Play(p, size, maxPages, r), base)
  {
    var q := Play(p, size, maxPages, r);
    assert NoGap(r.listing, p.observed, base);
    if ScanSucceeds(r.listing, size, maxPages, p.observed, r.failing) {
      var ids := Found(r.listing, size, p.observed);
      ScanComplete(r.listing, size, p.observed, base);
      ProcessAscending(p.observed, ids, r.outcome);
      assert Elements(ids) <= Elements(r.listing) by {
        forall x | x in Elements(ids) ensures x in Elements(r.listing) { FoundListed(r.listing, size, p.observed, x); }
      }
    }
  }

  lemma FoundListed(listing: seq<int>, size: nat, observed: set<int>, x: int)
    requires size > 0
    ensures x in Found(listing, size, observed) ==> x in listing && x > 0 && x !in observed
  {
  }

  lemma {:induction false} RunsTight(p: Portal, size: nat, maxPages: nat, rounds: seq<Round>, base: nat)
    requires size > 0 && Tight(p, base) && Legal(p, size, maxPages, rounds)
    ensures Tight(PlayAll(p, size, maxPages, rounds), base)
  {
    if rounds != [] {
      RunsTight(p, size, maxPages, rounds[..|rounds| - 1], base);
      TightRound(PlayAll(p, size, maxPages, rounds[..|rounds| - 1]), size, maxPages, rounds[|rounds| - 1], base);
    }
  }

  // After any cycles, some of them aborted midway, the next successful scan
  // returns, ascending, listed and missing notices only, among them every one
  // newer than the oldest notice of the first archive.
  lemma {:induction false} NoStrandedNotice(listing: seq<int>, count: nat, size: nat, maxPages: nat,
                                            rounds: seq<Round>, next: Round)
    requires size > 0 && Descending(listing) && count <= |listing|
    requires Legal(Baseline(listing, count), size, maxPages, rounds + [next])
    ensures var p := PlayAll(Baseline(listing, count), size, maxPages, rounds);
      var ids := Found(next.listing, size, p.observed);
      && Ascending(ids)
      && (forall x :: x in ids ==> x in next.listing && x > 0 && x !in p.observed)
      && (forall x :: x in next.listing && x > BaseId(listing, count) && x !in p.observed ==> x in ids)
  {
    var start, base := Baseline(listing, count), BaseId(listing, count);
    assert (rounds + [next])[..|rounds|] == rounds;
    BaselineTight(listing, count);
    RunsTight(start, size, maxPages, rounds, base);
    var p := PlayAll(start, size, maxPages, rounds);
    TightRound(p, size, maxPages, next, base);
    ScanComplete(next.listing, size, p.observed, base);
    forall x | x in Found(next.listing, size, p.observed)
      ensures x in next.listing && x > 0 && x !in p.observed
    {
      FoundListed(next.listing, size, p.observed, x);
    }
  }

  lemma {:induction false} CleanProcess(observed: set<int>, ids: seq<int>, outcome: int -> Fetch)
    requires forall i :: 0 <= i < |ids| ==> outcome(ids[i]).Stored?
    ensures Process(observed, ids, outcome) == observed + Elements(ids)
    decreases |ids|
  {
    if ids != [] {
      assert ids == [ids[0]] + ids[1..];
      assert Elements(ids) == {ids[0]} + Elements(ids[1..]);
      CleanProcess(observed + {ids[0]}, ids[1..], outcome);
    }
  }

  // One successful scan whose notices are all stored leaves nothing above the
  // baseline missing, whatever the earlier cycles left undone.
  lemma {:induction false} CleanCycleCatchesUp(p: Portal, size: nat, maxPages: nat, r: Round, base: nat)
    requires size > 0 && Tight(p, base) && Grows(p, r.listing)
    requires ScanSucceeds(r.listing, size, maxPages, p.observed, r.failing)
    requires forall id :: r.outcome(id).Stored?
    ensures forall u :: u in r.listing && u > base ==> u in Play(p, size, maxPages, r).observed
  {
    TightRound(p, size, maxPages, r, base);
    ScanComplete(r.listing, size, p.observed, base);
    CleanProcess(p.observed, Found(r.listing, size, p.observed), r.outcome);
  }

  // ---- A skipped notice can be stranded -----------------------------------

  // Where `u` is listed, `s` is listed on an earlier page.
  ghost predicate Shadowed(listing: seq<int>, size: nat, s: int, u: int)
    requires size > 0
  {
    && Descending(listing)
    && forall k :: 0 <= k < |listing| && listing[k] == u ==>
      exists j :: 0 <= j < PageStart(size, k) && j < |listing| && listing[j] == s
  }

  lemma ShadowedNotFound(listing: seq<int>, size: nat, observed: set<int>, s: int, u: int)
    requires size > 0 && Shadowed(listing, size, s, u) && s in observed
    ensures u !in Found(listing, size, observed)
  {
    hide Found, PageStart;
    FoundListed(listing, size, observed, u);
    if u in listing && u > 0 && u !in observed {
      var k :| 0 <= k < |listing| && listing[k] == u;
      FoundIff(listing, size, observed, k);
    }
  }

  lemma {:induction false} ProcessBetween(observed: set<int>, ids: seq<int>, outcome: int -> Fetch, u: int)
    ensures observed <= Process(observed, ids, outcome)
    ensures u !in ids && u !in observed ==> u !in Process(observed, ids, outcome)
    decreases |ids|
  {
    if ids != [] {
      assert ids == [ids[0]] + ids[1..];
      ProcessBetween(observed + {ids[0]}, ids[1..], outcome, u);
      ProcessBetween(observed, ids[1..], outcome, u);
    }
  }

  // Whatever the cycles do, a missing notice is never returned while some stored
  // one stays listed on an earlier page.
  lemma {:induction false} StrandedWhileShadowed(p: Portal, size: nat, maxPages: nat, rounds: seq<Round>,
                                                 next: Round, s: int, u: int)
    requires size > 0 && s in p.observed && u !in p.observed
    requires forall i :: 0 <= i < |rounds| ==> Shadowed(rounds[i].listing, size, s, u)
    requires Shadowed(next.listing, size, s, u)
    ensures var q := PlayAll(p, size, maxPages, rounds);
      s in q.observed && u !in q.observed && u !in Found(next.listing, size, q.observed)
  {
    hide Found, PageStart, Process, ScanSucceeds, Shadowed;
    var q := PlayAll(p, size, maxPages, rounds);
    if rounds != [] {
      var front, last := rounds[..|rounds| - 1], rounds[|rounds| - 1];
      StrandedWhileShadowed(p, size, maxPages, front, last, s, u);
      var before := PlayAll(p, size, maxPages, front);
      ProcessBetween(before.observed, Found(last.listing, size, before.observed), last.outcome, u);
    }
    ShadowedNotFound(next.listing, size, q.observed, s, u);
  }

  const SKIP_TWO: int -> Fetch := (id: int) => if id == 2 then Skipped else Stored

  lemma FirstScan()
    ensures Found([3, 2, 1], 1, {1}) == [2, 3]
  {
    hide Found;
    var listing, ids := [3, 2, 1], Found([3, 2, 1], 1, {1});
    FoundIff(listing, 1, {1}, 0);
    FoundIff(listing, 1, {1}, 1);
    FoundOnly(listing, ids);
    AscendingUnique(ids, [2, 3]);
  }

  lemma FoundOnly(listing: seq<int>, ids: seq<int>)
    requires listing == [3, 2, 1] && ids == Found(listing, 1, {1}) && 2 in ids && 3 in ids
    ensures Elements(ids) == Elements([2, 3])
  {
    hide Found;
    forall x | x in ids ensures x == 2 || x == 3 {
      FoundListed(listing, 1, {1}, x);
    }
  }

  lemma {:induction false} LastPageBound(listing: seq<int>, size: nat, observed: set<int>)
    requires size > 0 && listing != []
    ensures LastPage(listing, size, observed, 1) <= Pages(listing, size)
  {
    hide LastPage, Page, Positive;
    assert Pages(listing, size) >= 1;
    assert Stops(listing, size, observed, Pages(listing, size));
  }

  lemma FirstCycle()
    ensures AfterCycle([3, 2, 1], 1, 10, None, {1}, SKIP_TWO) == {1, 3}
  {
    hide Found, LastPage, Process;
    LastPageBound([3, 2, 1], 1, {1});
    FirstScan();
    SkipTwo();
  }

  lemma SkipTwo()
    ensures Process({1}, [2, 3], SKIP_TWO) == {1, 3}
  {
  }

  // With one notice a page, 2 is skipped below the newly stored 3. From then on
  // no scan returns it as long as 3 is listed whenever 2 is.
  lemma {:induction false} SkippedIsStranded(maxPages: nat, rounds: seq<Round>, next: Round)
    requires forall r :: r in rounds + [next] ==> Descending(r.listing) && (2 in r.listing ==> 3 in r.listing)
    ensures AfterCycle([3, 2, 1], 1, 10, None, {1}, SKIP_TWO) == {1, 3}
    ensures var q := PlayAll(Portal([3, 2, 1], {1, 2, 3}, {1, 3}), 1, maxPages, rounds);
      2 !in q.observed && 2 !in Found(next.listing, 1, q.observed)
  {
    hide Found, AfterCycle, Shadowed, PlayAll;
    FirstCycle();
    forall r | r in rounds + [next] ensures Shadowed(r.listing, 1, 3, 2) { OneAPage(r.listing); }
    assert next in rounds + [next];
    forall i | 0 <= i < |rounds| ensures Shadowed(rounds[i].listing, 1, 3, 2) {
      assert rounds[i] in rounds + [next];
    }
    StrandedWhileShadowed(Portal([3, 2, 1], {1, 2, 3}, {1, 3}), 1, maxPages, rounds, next, 3, 2);
  }

  lemma OneAPage(listing: seq<int>)
    requires Descending(listing) && (2 in listing ==> 3 in listing)
    ensures Shadowed(listing, 1, 3, 2)
  {
    hide PagesBefore;
    forall k | 0 <= k < |listing| && listing[k] == 2
      ensures exists j :: 0 <= j < PageStart(1, k) && j < |listing| && listing[j] == 3
    {
      PageBounds(1, k);
      assert listing[k] in listing;
      var j :| 0 <= j < |listing| && listing[j] == 3;
      assert j < k;
    }
  }

  // Once 3 is no longer listed, 2 is found again.
  lemma {:induction false} DroppedFindsAgain()
    ensures Grows(Portal([3, 2, 1], {1, 2, 3}, {1, 3}), [2, 1])
    ensures 2 in Found([2, 1], 1, {1, 3})
  {
    hide Found;
    FoundIff([2, 1], 1, {1, 3}, 0);
  }
}
