/**
 * The package collection and the vendor routes over it (routes/vendor.js): creating a
 * package, the four listings by status, and the activate / deactivate toggles.
 */
module Packages {
  import opened Basics
  import opened Text
  import Seqs

  /** The status values the routes store or query. */
  datatype Status = Pending | Approved | Rejected | Active | Inactive

  /** A stored package (models/packages.js). Dates are integer timestamps. */
  datatype Package = Package(
    id: Id,
    vendorId: string,
    title: string,
    imageUrl: string,
    description: string,
    category: string,
    destination: string,
    days: int,
    startDate: int,
    price: int,
    inclusions: seq<string>,
    transportationMode: string,
    totalSlots: int,
    availableSlots: int,
    status: Status,
    createdAt: int)

  /** The body of a create-package request, with its numbers already converted. */
  datatype PackageForm = PackageForm(
    title: string,
    category: string,
    description: string,
    destination: string,
    pricing: int,
    duration: int,
    transportationMode: string,
    date: int,
    seats: int,
    inclusions: string)

  /** The fields a listing route projects out of each package. */
  datatype Summary = Summary(
    id: Id, title: string, category: string, price: int, destination: string, imageUrl: string)

  datatype CreateReply = PackageAdded | InternalError

  /** A listing answers 200 with the packages or 404 'No packages found'. */
  datatype Listing = Found(packages: seq<Summary>) | NoPackagesFound

  /**
   * The inclusions field: the empty list when it is absent or empty, otherwise the
   * comma-separated items, each trimmed.
   */
  function ParseInclusions(inclusions: string): (r: seq<string>)
    ensures inclusions == "" ==> r == []
    ensures inclusions != "" ==> |r| == |Split(inclusions, ',')| == multiset(inclusions)[','] + 1
    ensures inclusions != "" ==> forall i :: 0 <= i < |r| ==> r[i] == Trim(Split(inclusions, ',')[i])
  {
    if inclusions == "" then []
    else
      CommaListShape(inclusions);
      CommaList(inclusions)
  }

  /** The record `create-package` saves: every seat is free and the package awaits moderation. */
  function NewPackage(id: Id, vendorId: string, form: PackageForm, imageUrl: string, now: int): (p: Package)
    ensures p.id == id && p.vendorId == vendorId && p.title == form.title
    ensures p.totalSlots == p.availableSlots == form.seats
    ensures p.status == Pending
    ensures p.inclusions == ParseInclusions(form.inclusions)
    ensures p.startDate == form.date && p.price == form.pricing && p.days == form.duration
    ensures p.createdAt == now && p.imageUrl == imageUrl
  {
    Package(id, vendorId, form.title, imageUrl, form.description, form.category, form.destination,
            form.duration, form.date, form.pricing, ParseInclusions(form.inclusions),
            form.transportationMode, form.seats, form.seats, Pending, now)
  }

  /** The schema's required string fields are present (the store refuses the save otherwise). */
  predicate RequiredPresent(vendorId: string, form: PackageForm) {
    vendorId != "" && form.title != "" && form.category != "" && form.destination != ""
    && form.transportationMode != ""
  }

  function Summarize(p: Package): Summary {
    Summary(p.id, p.title, p.category, p.price, p.destination, p.imageUrl)
  }

  function OwnedWith(vendorId: string, status: Status): Package -> bool {
    (p: Package) => p.vendorId == vendorId && p.status == status
  }

  function Summaries(packages: seq<Package>): seq<Summary> {
    seq(|packages|, k requires 0 <= k < |packages| => Summarize(packages[k]))
  }

  /** `x` is the summary of one of the packages of `vendorId` with `status`. */
  ghost predicate SummaryOfMatch(packages: seq<Package>, vendorId: string, status: Status, x: Summary) {
    exists i :: 0 <= i < |packages| && packages[i].vendorId == vendorId && packages[i].status == status &&
      x == Summarize(packages[i])
  }

  /**
   * `get-<status>-packages/:vendorId`: the summaries of that vendor's packages with that
   * status, in store order, or 404 when there are none.
   */
  function ListPackages(packages: seq<Package>, vendorId: string, status: Status): (r: Listing)
    ensures r.NoPackagesFound? <==>
      forall i :: 0 <= i < |packages| ==> !(packages[i].vendorId == vendorId && packages[i].status == status)
    ensures r.Found? ==>
      forall k :: 0 <= k < |r.packages| ==> SummaryOfMatch(packages, vendorId, status, r.packages[k])
    ensures r.Found? ==> forall i :: 0 <= i < |packages| ==>
      (packages[i].vendorId == vendorId && packages[i].status == status ==> Summarize(packages[i]) in r.packages)
    ensures r.Found? ==> r.packages == Summaries(Seqs.Filter(packages, OwnedWith(vendorId, status)))
  {
    var matching := Seqs.Filter(packages, OwnedWith(vendorId, status));
    Seqs.FilterEmpty(packages, OwnedWith(vendorId, status));
    ListingSound(packages, vendorId, status);
    ListingComplete(packages, vendorId, status);
    if matching == [] then NoPackagesFound else Found(Summaries(matching))
  }

  lemma ListingSound(packages: seq<Package>, vendorId: string, status: Status)
    ensures var matching := Seqs.Filter(packages, OwnedWith(vendorId, status));
      forall k :: 0 <= k < |Summaries(matching)| ==> SummaryOfMatch(packages, vendorId, status, Summaries(matching)[k])
  {
    var p := OwnedWith(vendorId, status);
    var matching := Seqs.Filter(packages, p);
    Seqs.FilterMembers(packages, p);
    forall k | 0 <= k < |Summaries(matching)|
      ensures SummaryOfMatch(packages, vendorId, status, Summaries(matching)[k])
    {
      assert p(matching[k]) && matching[k] in packages;
      var i :| 0 <= i < |packages| && packages[i] == matching[k];
      assert Summaries(matching)[k] == Summarize(packages[i]);
    }
  }

  lemma ListingComplete(packages: seq<Package>, vendorId: string, status: Status)
    ensures var matching := Seqs.Filter(packages, OwnedWith(vendorId, status));
      forall i :: 0 <= i < |packages| ==>
        (packages[i].vendorId == vendorId && packages[i].status == status ==> Summarize(packages[i]) in Summaries(matching))
  {
    var p := OwnedWith(vendorId, status);
    var matching := Seqs.Filter(packages, p);
    Seqs.FilterMembers(packages, p);
    forall i | 0 <= i < |packages| && p(packages[i]) ensures Summarize(packages[i]) in Summaries(matching) {
      var k :| 0 <= k < |matching| && matching[k] == packages[i];
      assert Summaries(matching)[k] == Summarize(packages[i]);
    }
  }

  /** `packages` with the status of the package whose id is `id` set to `status`; nothing else changes. */
  function WithStatus(packages: seq<Package>, id: Id, status: Status): (r: seq<Package>)
    ensures |r| == |packages|
    ensures forall i :: 0 <= i < |packages| ==>
      r[i] == if packages[i].id == id then packages[i].(status := status) else packages[i]
  {
    if packages == [] then []
    else
      var p := packages[0];
      [if p.id == id then p.(status := status) else p] + WithStatus(packages[1..], id, status)
  }

  /** Setting the same status twice is setting it once. */
  lemma WithStatusIdempotent(packages: seq<Package>, id: Id, status: Status)
    ensures WithStatus(WithStatus(packages, id, status), id, status) == WithStatus(packages, id, status)
  {
  }

  /** Ids are handed out in increasing order, so they are distinct and below `nextId`. */
  ghost predicate IdsBelow(packages: seq<Package>, nextId: Id) {
    && (forall i :: 0 <= i < |packages| ==> packages[i].id < nextId)
    && (forall i, j :: 0 <= i < j < |packages| ==> packages[i].id < packages[j].id)
  }

  /** A status change keeps every id where it was. */
  lemma WithStatusKeepsIds(packages: seq<Package>, id: Id, status: Status, nextId: Id)
    requires IdsBelow(packages, nextId)
    ensures IdsBelow(WithStatus(packages, id, status), nextId)
  {
    var r := WithStatus(packages, id, status);
    assert forall i :: 0 <= i < |r| ==> r[i].id == packages[i].id;
  }

  /** Once a package of a vendor has been given a status, the listing for that status shows it. */
  lemma ChangedIsListed(packages: seq<Package>, i: nat, status: Status)
    requires i < |packages|
    ensures var after := WithStatus(packages, packages[i].id, status);
      var listing := ListPackages(after, packages[i].vendorId, status);
      listing.Found? && Summarize(after[i]) in listing.packages
  {
  }

  /** The package collection. */
  class PackageCollection {
    var packages: seq<Package>
    var nextId: Id

    ghost predicate Valid()
      reads this
    {
      IdsBelow(packages, nextId)
    }

    constructor ()
      ensures Valid() && packages == []
    {
      packages := [];
      nextId := 0;
    }

    /**
     * `create-package/:vendorId`. Without an uploaded image, or when a required field is
     * missing, the request fails and nothing is stored; otherwise one pending package is added.
     */
    method CreatePackage(vendorId: string, form: PackageForm, imageUrl: Option<string>, now: int)
      returns (reply: CreateReply)
      requires Valid()
      modifies this
      ensures Valid()
      ensures reply == InternalError <==> imageUrl.None? || !RequiredPresent(vendorId, form)
      ensures reply == InternalError ==> packages == old(packages) && nextId == old(nextId)
      ensures reply == PackageAdded ==>
        packages == old(packages) + [NewPackage(old(nextId), vendorId, form, imageUrl.value, now)]
    {
      if imageUrl.None? || !RequiredPresent(vendorId, form) {
        return InternalError;
      }
      packages := packages + [NewPackage(nextId, vendorId, form, imageUrl.value, now)];
      nextId := nextId + 1;
      reply := PackageAdded;
    }

    /** Sets the status of package `id`, returning the updated package, or nothing when there is none. */
    method SetStatus(id: Id, status: Status) returns (updated: Option<Package>)
      requires Valid()
      modifies this
      ensures Valid() && nextId == old(nextId)
      ensures packages == WithStatus(old(packages), id, status)
      ensures updated.None? <==> forall i :: 0 <= i < |old(packages)| ==> old(packages)[i].id != id
      ensures updated.Some? ==> updated.value in packages && updated.value.id == id && updated.value.status == status
    {
      var found := Seqs.FirstIndex(packages, (p: Package) => p.id == id);
      WithStatusKeepsIds(packages, id, status, nextId);
      packages := WithStatus(packages, id, status);
      match found {
        case None => updated := None;
        case Some(i) => updated := Some(packages[i]);
      }
    }

    /** `activate-package/:id`: 404 (`None`) for an unknown id. */
    method Activate(id: Id) returns (updated: Option<Package>)
      requires Valid()
      modifies this
      ensures Valid() && nextId == old(nextId)
      ensures packages == WithStatus(old(packages), id, Active)
      ensures updated.None? <==> forall i :: 0 <= i < |old(packages)| ==> old(packages)[i].id != id
      ensures updated.Some? ==> updated.value in packages && updated.value.id == id && updated.value.status == Active
    {
      updated := SetStatus(id, Active);
    }

    /** `deactivate-package/:id`: 404 (`None`) for an unknown id. */
    method Deactivate(id: Id) returns (updated: Option<Package>)
      requires Valid()
      modifies this
      ensures Valid() && nextId == old(nextId)
      ensures packages == WithStatus(old(packages), id, Inactive)
      ensures updated.None? <==> forall i :: 0 <= i < |old(packages)| ==> old(packages)[i].id != id
      ensures updated.Some? ==> updated.value in packages && updated.value.id == id && updated.value.status == Inactive
    {
      updated := SetStatus(id, Inactive);
    }
  }
}
