/**
 * The upcoming-package queries (helpers/packageHelpers.js): the active packages starting
 * within a window, soonest first, one page at a time, for one vendor or for all of them.
 */
module Upcoming {
  import opened Basics
  import opened Seqs
  import opened Packages

  /** A query the store refuses: the page starts before the first result. */
  datatype QueryError = NegativeSkip

  /** Active and starting on or after `today` and on or before `until`. */
  function InWindow(today: int, until: int): Package -> bool {
    (p: Package) => p.status == Active && today <= p.startDate <= until
  }

  function OfVendor(vendorId: string): Package -> bool {
    (p: Package) => p.vendorId == vendorId
  }

  function StartDate(p: Package): int {
    p.startDate
  }

  /** The packages a query selects, before sorting: the vendor filter is optional. */
  function Candidates(packages: seq<Package>, vendorId: Option<string>, today: int, until: int): seq<Package> {
    match vendorId
    case None => Filter(packages, InWindow(today, until))
    case Some(v) => Filter(Filter(packages, InWindow(today, until)), OfVendor(v))
  }

  /** The selected packages, soonest first (`sort({ startDate: 1 })`). */
  function Ordered(packages: seq<Package>, vendorId: Option<string>, today: int, until: int): (r: seq<Package>)
    ensures SortedBy(r, StartDate)
    ensures multiset(r) == multiset(Candidates(packages, vendorId, today, until))
  {
    SortBySpec(Candidates(packages, vendorId, today, until), StartDate);
    SortBy(Candidates(packages, vendorId, today, until), StartDate)
  }

  /**
   * `skip(skip).limit(limit)`: drop the first `skip` results, then keep at most `limit`;
   * a limit of zero keeps everything.
   */
  function Page<T>(s: seq<T>, skip: nat, limit: nat): (r: seq<T>)
    ensures limit > 0 ==> |r| <= limit
    ensures skip >= |s| ==> r == []
    ensures skip < |s| && (limit == 0 || |s| - skip <= limit) ==> r == s[skip..]
    ensures skip < |s| && 0 < limit < |s| - skip ==> r == s[skip..skip + limit]
  {
    var rest := if skip < |s| then s[skip..] else [];
    if limit == 0 || |rest| <= limit then rest else rest[..limit]
  }

  /** The query both helpers run, with `vendorId` absent for the all-vendors variant. */
  function Upcoming(packages: seq<Package>, vendorId: Option<string>, today: int, until: int, page: int, limit: nat)
    : Result<seq<Package>, QueryError>
  {
    var skip := (page - 1) * limit;
    if skip < 0 then Err(NegativeSkip)
    else Ok(Page(Ordered(packages, vendorId, today, until), skip, limit))
  }

  /** A page is a run of consecutive sorted results, so it is itself sorted. */
  lemma PageSorted(s: seq<Package>, skip: nat, limit: nat)
    requires SortedBy(s, StartDate)
    ensures SortedBy(Page(s, skip, limit), StartDate)
  {
    var r := Page(s, skip, limit);
    if r != [] {
      forall i, j | 0 <= i < j < |r| ensures StartDate(r[i]) <= StartDate(r[j]) {
        assert r[i] == s[skip + i] && r[j] == s[skip + j];
      }
    }
  }

  /** Every element of a page is one of the results. */
  lemma PageMembers<T>(s: seq<T>, skip: nat, limit: nat)
    ensures forall i :: 0 <= i < |Page(s, skip, limit)| ==> Page(s, skip, limit)[i] in s
  {
    var r := Page(s, skip, limit);
    forall i | 0 <= i < |r| ensures r[i] in s {
      assert r[i] == s[skip + i];
    }
  }

  /** Every selected package is active, starts within the window and belongs to the vendor asked for. */
  lemma OrderedMembers(packages: seq<Package>, vendorId: Option<string>, today: int, until: int)
    ensures forall i :: 0 <= i < |Ordered(packages, vendorId, today, until)| ==>
      var p := Ordered(packages, vendorId, today, until)[i];
      p in packages && p.status == Active && today <= p.startDate <= until &&
      (vendorId.Some? ==> p.vendorId == vendorId.value)
  {
    var r := Ordered(packages, vendorId, today, until);
    var c := Candidates(packages, vendorId, today, until);
    var w := Filter(packages, InWindow(today, until));
    FilterMembers(packages, InWindow(today, until));
    if vendorId.Some? {
      FilterMembers(w, OfVendor(vendorId.value));
    }
    forall i | 0 <= i < |r|
      ensures r[i] in packages && r[i].status == Active && today <= r[i].startDate <= until
      ensures vendorId.Some? ==> r[i].vendorId == vendorId.value
    {
      assert r[i] in multiset(c);
      assert r[i] in c;
    }
  }

  /**
   * `getUpcomingPackagesOfVendor` / `getAllUpcomingPackages`: the page of active packages
   * starting between `today` and `until`, soonest first; an error when the page number makes
   * the skip negative.
   */
  lemma UpcomingSpec(packages: seq<Package>, vendorId: Option<string>, today: int, until: int, page: int, limit: nat)
    ensures var r := Upcoming(packages, vendorId, today, until, page, limit);
      && (r.Err? <==> (page - 1) * limit < 0)
      && (r.Ok? ==> SortedBy(r.value, StartDate))
      && (r.Ok? && limit > 0 ==> |r.value| <= limit)
      && (r.Ok? ==> forall i :: 0 <= i < |r.value| ==>
            r.value[i] in packages && r.value[i].status == Active && today <= r.value[i].startDate <= until &&
            (vendorId.Some? ==> r.value[i].vendorId == vendorId.value))
  {
    var skip := (page - 1) * limit;
    if skip >= 0 {
      var ordered := Ordered(packages, vendorId, today, until);
      PageSorted(ordered, skip, limit);
      PageMembers(ordered, skip, limit);
      OrderedMembers(packages, vendorId, today, until);
    }
  }

  /**
   * After `deactivate-package`, the package with that id is no longer offered by either
   * upcoming query: every package they select is active.
   */
  lemma DeactivatedNotUpcoming(packages: seq<Package>, id: Id, vendorId: Option<string>, today: int, until: int)
    ensures var ordered := Ordered(WithStatus(packages, id, Inactive), vendorId, today, until);
      forall k :: 0 <= k < |ordered| ==> ordered[k].id != id
  {
    var after := WithStatus(packages, id, Inactive);
    var ordered := Ordered(after, vendorId, today, until);
    OrderedMembers(after, vendorId, today, until);
    forall k | 0 <= k < |ordered| ensures ordered[k].id != id {
      var i :| 0 <= i < |after| && after[i] == ordered[k];
    }
  }

  /** The first page with no limit holds every selected package. */
  lemma FirstPageUnlimited(packages: seq<Package>, vendorId: Option<string>, today: int, until: int)
    ensures Upcoming(packages, vendorId, today, until, 1, 0) == Ok(Ordered(packages, vendorId, today, until))
  {
  }

  /**
   * Pages of one limit tile the results: what follows a page is everything from where
   * the next page starts.
   */
  lemma PagesTile<T>(s: seq<T>, skip: nat, limit: nat)
    requires limit > 0
    ensures Page(s, skip, limit) + Page(s, skip + limit, 0) == Page(s, skip, 0)
  {
    if skip + limit < |s| {
      assert s[skip..skip + limit] + s[skip + limit..] == s[skip..];
    }
  }

  /**
   * The vendor query selects exactly the vendor's packages of the all-vendors query, in the
   * same order.
   */
  lemma {:induction false} VendorIsFilteredAll(packages: seq<Package>, vendorId: string, today: int, until: int)
    ensures Ordered(packages, Some(vendorId), today, until) ==
            Filter(Ordered(packages, None, today, until), OfVendor(vendorId))
  {
    SortByFilter(Filter(packages, InWindow(today, until)), StartDate, OfVendor(vendorId));
  }
}
