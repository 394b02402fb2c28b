// Discovery of new Portal notices: the page scan that stops at the first page
// holding an observed notice, and the cycle that stores what it found.
module PortalScan {
  import opened Prelude

  const MAX_PAGE_SIZE: nat := 100

  // ---- Ordered sets of ids, kept as strictly ascending sequences -----------

  ghost predicate Ascending(s: seq<int>) {
    forall i, j :: 0 <= i < j < |s| ==> s[i] < s[j]
  }

  ghost function Elements(s: seq<int>): set<int> {
    set x | x in s
  }

  function Insert(s: seq<int>, x: int): (r: seq<int>)
    requires Ascending(s)
    ensures Ascending(r)
    ensures forall y :: y in r <==> y in s || y == x
  {
    if s == [] then [x]
    else if x < s[0] then [x] + s
    else if x == s[0] then s
    else
      var rest := Insert(s[1..], x);
      assert s == [s[0]] + s[1..];
      FirstStaysFirst(s, x, rest);
      [s[0]] + rest
  }

  lemma {:induction false} FirstStaysFirst(s: seq<int>, x: int, rest: seq<int>)
    requires Ascending(s) && s != [] && s[0] < x
    requires forall y :: y in rest <==> y in s[1..] || y == x
    ensures forall k :: 0 <= k < |rest| ==> s[0] < rest[k]
  {
    forall k | 0 <= k < |rest| ensures s[0] < rest[k] {
      assert rest[k] in rest;
      if rest[k] != x {
        var j :| 0 <= j < |s| - 1 && s[1..][j] == rest[k];
        assert s[j + 1] == rest[k];
      }
    }
  }

  function InsertAll(s: seq<int>, xs: seq<int>): (r: seq<int>)
    requires Ascending(s)
    ensures Ascending(r)
    ensures forall y :: y in r <==> y in s || y in xs
    decreases |xs|
  {
    if xs == [] then s
    else
      assert xs == [xs[0]] + xs[1..];
      InsertAll(Insert(s, xs[0]), xs[1..])
  }

  function Positive(xs: seq<int>): (r: seq<int>)
    ensures forall y :: y in r <==> y in xs && y > 0
  {
    if xs == [] then []
    else
      assert xs == [xs[0]] + xs[1..];
      (if xs[0] > 0 then [xs[0]] else []) + Positive(xs[1..])
  }

  // The store's answer: the ids of `xs` without a stored notice.
  function Missing(xs: seq<int>, observed: set<int>): (r: seq<int>)
    ensures forall y :: y in r <==> y in xs && y !in observed
    ensures |r| <= |xs|
    ensures |r| == |xs| <==> forall y :: y in xs ==> y !in observed
  {
    if xs == [] then []
    else
      var rest := Missing(xs[1..], observed);
      assert xs == [xs[0]] + xs[1..];
      assert forall y :: y in xs <==> y == xs[0] || y in xs[1..];
      if xs[0] in observed then rest else [xs[0]] + rest
  }

  // ---- Pages --------------------------------------------------------------

  function Min(a: int, b: int): int {
    if a < b then a else b
  }

  // Where page n + 1 starts.
  function Offset(size: nat, n: nat): nat {
    if n == 0 then 0 else Offset(size, n - 1) + size
  }

  lemma {:induction false} OffsetIsProduct(size: nat, n: nat)
    ensures Offset(size, n) == n * size
  {
    if n > 0 { OffsetIsProduct(size, n - 1); }
  }

  // Pages are numbered from 1; a page beyond the end is empty.
  function Page(listing: seq<int>, size: nat, n: nat): seq<int>
    requires n >= 1
  {
    listing[Min(Offset(size, n - 1), |listing|)..Min(Offset(size, n), |listing|)]
  }

  // How many pages hold this many entries.
  function PagesFor(length: nat, size: nat): nat
    requires size > 0
  {
    if length == 0 then 0 else if length <= size then 1 else 1 + PagesFor(length - size, size)
  }

  // The last page is the one that holds the last entry.
  lemma {:induction false} PagesAre(length: nat, size: nat)
    requires size > 0 && length > 0
    ensures PagesFor(length, size) >= 1
    ensures Offset(size, PagesFor(length, size) - 1) < length <= Offset(size, PagesFor(length, size))
  {
    if length > size { PagesAre(length - size, size); }
  }

  function Pages(listing: seq<int>, size: nat): nat
    requires size > 0
  {
    PagesFor(|listing|, size)
  }

  // The positive ids on pages 1 to n.
  ghost function Listed(listing: seq<int>, size: nat, n: nat): set<int> {
    set x | x in listing[..Min(Offset(size, n), |listing|)] && x > 0
  }

  // The scan ends at page n: nothing is listed there, it holds an observed
  // notice, or it is the last page.
  ghost predicate Stops(listing: seq<int>, size: nat, observed: set<int>, n: nat)
    requires n >= 1 && size > 0
  {
    var ids := Positive(Page(listing, size, n));
    || ids == []
    || (exists x :: x in ids && x in observed)
    || n >= Pages(listing, size)
  }

  // The first page from n on at which the scan ends.
  ghost function LastPage(listing: seq<int>, size: nat, observed: set<int>, n: nat): (last: nat)
    requires n >= 1 && size > 0
    ensures last >= n && Stops(listing, size, observed, last)
    ensures forall k :: n <= k < last ==> !Stops(listing, size, observed, k)
    decreases Pages(listing, size) - n
  {
    hide Stops;
    if Stops(listing, size, observed, n) then n
    else
      GoesOn(listing, size, observed, n);
      LastPage(listing, size, observed, n + 1)
  }

  lemma {:induction false} GoesOn(listing: seq<int>, size: nat, observed: set<int>, n: nat)
    requires n >= 1 && size > 0 && !Stops(listing, size, observed, n)
    ensures n < Pages(listing, size)
  {
  }

  lemma PageSpan(listing: seq<int>, size: nat, n: nat)
    requires n >= 1 && size > 0
    ensures Listed(listing, size, n) == Listed(listing, size, n - 1) + Elements(Positive(Page(listing, size, n)))
  {
  }

  // ---- The scan -----------------------------------------------------------

  lemma Gathered(discovered: seq<int>, found: seq<int>, ids: seq<int>, observed: set<int>, before: set<int>)
    requires Elements(discovered) == before - observed
    requires forall y :: y in found <==> y in discovered || (y in ids && y !in observed)
    ensures Elements(found) == (before + Elements(ids)) - observed
  {
    forall y ensures y in Elements(found) <==> y in (before + Elements(ids)) - observed {
      assert y in discovered <==> y in Elements(discovered);
    }
  }

  // The missing ids of pages 1 to n, ascending.
  ghost predicate ScannedTo(listing: seq<int>, size: nat, observed: set<int>, n: nat, ids: seq<int>) {
    Ascending(ids) && Elements(ids) == Listed(listing, size, n) - observed
  }

  // One round of the loop: page n adds its missing ids and may end the scan.
  method ScanPage(listing: seq<int>, size: nat, n: nat, observed: set<int>, discovered: seq<int>)
    returns (found: seq<int>, stop: bool)
    requires size > 0 && n >= 1
    requires ScannedTo(listing, size, observed, n - 1, discovered)
    ensures ScannedTo(listing, size, observed, n, found)
    ensures stop <==> Stops(listing, size, observed, n)
  {
    PageSpan(listing, size, n);
    var positive := Positive(Page(listing, size, n));
    var listed := InsertAll([], positive);
    assert forall x :: x in listed <==> x in positive;
    assert positive != [] ==> positive[0] in listed;
    if listed == [] {
      Gathered(discovered, discovered, positive, observed, Listed(listing, size, n - 1));
      return discovered, true;
    }
    assert listed[0] in positive;
    var newIds := Missing(listed, observed);
    found := InsertAll(discovered, newIds);
    Gathered(discovered, found, positive, observed, Listed(listing, size, n - 1));
    stop := |newIds| < |listed| || n >= Pages(listing, size);
  }

  lemma NothingYet(listing: seq<int>, size: nat, observed: set<int>)
    ensures ScannedTo(listing, size, observed, 0, [])
  {
    assert Listed(listing, size, 0) == {};
  }

  lemma StopsAtLast(listing: seq<int>, size: nat, observed: set<int>, n: nat)
    requires size > 0 && 1 <= n <= LastPage(listing, size, observed, 1)
    ensures Stops(listing, size, observed, n) <==> n == LastPage(listing, size, observed, 1)
  {
    hide Stops;
  }

  method ScanPages(listing: seq<int>, size: nat, maxPages: nat, observed: set<int>, failing: Option<nat>)
    returns (r: Result<seq<int>, string>)
    requires size > 0
    ensures var last := LastPage(listing, size, observed, 1);
      && (r.Ok? <==> last <= maxPages && !(failing.Some? && 1 <= failing.value <= last))
      && (r.Ok? ==> ScannedTo(listing, size, observed, last, r.value))
  {
    ghost var last := LastPage(listing, size, observed, 1);
    var discovered: seq<int> := [];
    NothingYet(listing, size, observed);
    hide ScannedTo, Stops, LastPage;
    for n := 1 to maxPages + 1
      invariant n <= last
      invariant failing.Some? && failing.value >= 1 ==> failing.value >= n
      invariant ScannedTo(listing, size, observed, n - 1, discovered)
    {
      if failing == Some(n) {
        return Err("Portal notice-list request failed");
      }
      var stop;
      discovered, stop := ScanPage(listing, size, n, observed, discovered);
      StopsAtLast(listing, size, observed, n);
      if stop {
        return Ok(discovered);
      }
    }
    r := Err("Portal notice scan exceeded the configured page limit");
  }

  // `failing` is the number of a page whose request fails, if there is one.
  method UnobservedNoticeIds(listing: seq<int>, size: nat, maxPages: nat, observed: set<int>, failing: Option<nat>)
    returns (r: Result<seq<int>, string>)
    ensures size == 0 || maxPages == 0 || size > MAX_PAGE_SIZE ==> r.Err?
    ensures 0 < size <= MAX_PAGE_SIZE && maxPages > 0 ==>
      var last := LastPage(listing, size, observed, 1);
      && (r.Ok? <==> last <= maxPages && !(failing.Some? && 1 <= failing.value <= last))
      && (r.Ok? ==> ScannedTo(listing, size, observed, last, r.value))
  {
    if size == 0 || maxPages == 0 {
      return Err("Portal scan parameters are invalid");
    }
    if size > MAX_PAGE_SIZE {
      return Err("Portal page parameters are invalid");
    }
    hide ScannedTo;
    r := ScanPages(listing, size, maxPages, observed, failing);
  }
}
