/** The property-listing handlers: create, paginated read, read by id,
    and the guarded update and delete. */
module Listings {
  import opened Common
  import opened Text
  import opened Paging
  import opened Store

  const PropertyTypes: seq<string> := ["House", "Apartment", "Villa", "Plot"]
  const ListingStatuses: seq<string> := ["Available", "Sold", "Pending"]
  const DefaultStatus: string := "Available"

  /** The query defaults of the listing page: page 1, ten per page. */
  const DefaultPropertyPage: PageQuery := PageQuery(1, 10)

  /** A location; a part the request leaves out is the empty string. */
  datatype Location = Location(address: string, city: string, state: string, pincode: string)

  const NoLocation: Location := Location("", "", "", "")

  /** A stored listing. */
  datatype Listing = Listing(
    title: string,
    description: string,
    price: int,
    propertyType: string,
    location: Location,
    owner: Id,
    status: string)

  /** The fields a create or update request may carry; absent is `None`. */
  datatype ListingBody = ListingBody(
    title: Option<string>,
    description: Option<string>,
    price: Option<int>,
    propertyType: Option<string>,
    location: Option<Location>,
    owner: Option<Id>,
    status: Option<string>)

  /** The schema's validators on a whole listing: the required strings are
      non-empty (the title after its trim setter) and the two enumerated
      fields hold one of their values. */
  predicate SchemaValid(l: Listing) {
    l.title != "" && l.description != ""
    && l.propertyType in PropertyTypes && l.status in ListingStatuses
  }

  /** The same validators run only on the fields an update sets. */
  predicate PatchValid(b: ListingBody) {
    && (b.title.Some? ==> Trim(b.title.value) != "")
    && (b.description.Some? ==> b.description.value != "")
    && (b.propertyType.Some? ==> b.propertyType.value in PropertyTypes)
    && (b.status.Some? ==> b.status.value in ListingStatuses)
  }

  /** The document `addProperty` builds and saves, or the validation error
      the save raises (answered 500). The owner is whatever the body
      names, and a missing or empty status becomes "Available". */
  function NewListing(b: ListingBody): (r: Result<Listing>)
    ensures r.Ok? ==> SchemaValid(r.value)
    ensures r.Ok? ==> b.owner == Some(r.value.owner)
    ensures r.Ok? ==> r.value.status == (if Truthy(b.status) then b.status.value else DefaultStatus)
    ensures r.Ok? ==> b.price == Some(r.value.price) && b.title.Some? && r.value.title == Trim(b.title.value)
    ensures r.Ok? ==> b.description == Some(r.value.description) && b.propertyType == Some(r.value.propertyType)
    ensures r.Ok? ==> r.value.location == (if b.location.Some? then b.location.value else NoLocation)
    ensures r.Err? ==> r.error == ServerError
    ensures b.title.None? || b.description.None? || b.price.None? || b.propertyType.None? || b.owner.None?
      ==> r.Err?
    ensures r.Ok? <==> (
      && b.title.Some? && b.description.Some? && b.price.Some? && b.propertyType.Some? && b.owner.Some?
      && Trim(b.title.value) != "" && b.description.value != ""
      && b.propertyType.value in PropertyTypes
      && (!Truthy(b.status) || b.status.value in ListingStatuses))
  {
    if b.title.None? || b.description.None? || b.price.None? || b.propertyType.None? || b.owner.None? then
      Err(ServerError)
    else
      var l := Listing(
        Trim(b.title.value), b.description.value, b.price.value, b.propertyType.value,
        if b.location.Some? then b.location.value else NoLocation,
        b.owner.value,
        OrElse(b.status, DefaultStatus));
      if SchemaValid(l) then Ok(l) else Err(ServerError)
  }

  /** The listing after an update: each field the body carries replaces
      the stored one (the title trimmed), every other field is kept. */
  function Patched(l: Listing, b: ListingBody): (r: Listing)
    ensures r.title == (if b.title.Some? then Trim(b.title.value) else l.title)
    ensures r.description == (if b.description.Some? then b.description.value else l.description)
    ensures r.price == (if b.price.Some? then b.price.value else l.price)
    ensures r.propertyType == (if b.propertyType.Some? then b.propertyType.value else l.propertyType)
    ensures r.location == (if b.location.Some? then b.location.value else l.location)
    ensures r.owner == (if b.owner.Some? then b.owner.value else l.owner)
    ensures r.status == (if b.status.Some? then b.status.value else l.status)
    ensures b == ListingBody(None, None, None, None, None, None, None) ==> r == l
    ensures PatchValid(b) && SchemaValid(l) ==> SchemaValid(r)
  {
    Listing(
      if b.title.Some? then Trim(b.title.value) else l.title,
      if b.description.Some? then b.description.value else l.description,
      if b.price.Some? then b.price.value else l.price,
      if b.propertyType.Some? then b.propertyType.value else l.propertyType,
      if b.location.Some? then b.location.value else l.location,
      if b.owner.Some? then b.owner.value else l.owner,
      if b.status.Some? then b.status.value else l.status)
  }

  function OwnerOf(l: Listing): Id { l.owner }

  /** The answer of the listing page. */
  datatype PropertyPage = PropertyPage(count: nat, totalCount: nat, page: Pos, pages: nat, data: seq<Doc<Listing>>)

  /** `getAllProperties`: one page of every listing, newest first, with
      the number on the page, the number stored, the page number and the
      page count; `page` and `limit` default to 1 and 10. */
  function AllProperties(rows: map<Id, Listing>, bound: nat, page: Option<Pos>, limit: Option<Pos>)
    : (r: PropertyPage)
    requires Below(rows, bound)
    ensures var q := QueryOf(page, limit, DefaultPropertyPage);
      && r.data == FindPage(rows, bound, (l: Listing) => true, q)
      && r.count == |r.data| <= q.limit
      && r.page == q.page
      && r.pages == PageCount(|rows|, q.limit)
      && (r.count > 0 <==> q.page <= r.pages)
    ensures r.totalCount == |rows|
  {
    var q := QueryOf(page, limit, DefaultPropertyPage);
    var keep := (l: Listing) => true;
    var data := FindPage(rows, bound, keep, q);
    CountIsListingLength(rows, bound, keep);
    assert Matching(rows, keep) == rows.Keys;
    PageNonEmptyIff(Docs(rows, NewestFirst(rows, bound, keep)), q);
    PropertyPage(|data|, |rows|, q.page, PageCount(|rows|, q.limit), data)
  }

  /** `getPropertyById`: the listing, or 404. */
  function PropertyById(rows: map<Id, Listing>, id: Id): Result<Listing> {
    FindById(rows, id)
  }

  /** `addProperty`: saves the listing the body describes (answered 201),
      or answers 500 and stores nothing. */
  method AddProperty(t: Table<Listing>, b: ListingBody) returns (r: Result<Id>)
    requires t.Valid()
    modifies t
    ensures t.Valid()
    ensures NewListing(b).Err? ==> r == Err(ServerError) && t.rows == old(t.rows)
    ensures NewListing(b).Ok? ==>
      r.Ok? && r.value !in old(t.rows) && t.rows == old(t.rows)[r.value := NewListing(b).value]
  {
    var l := NewListing(b);
    if l.Err? {
      return Err(ServerError);
    }
    var id := t.Insert(l.value);
    r := Ok(id);
  }

  /** `updateProperty`: 404, then 403, then a failed validation (500);
      otherwise the fields of the body replace those of that listing
      alone. */
  method UpdateProperty(t: Table<Listing>, caller: Caller, id: Id, b: ListingBody) returns (r: Result<Listing>)
    requires t.Valid()
    modifies t
    ensures t.Valid()
    ensures OwnedAccess(old(t.rows), id, caller, OwnerOf).Some? ==>
      r == Err(OwnedAccess(old(t.rows), id, caller, OwnerOf).value) && t.rows == old(t.rows)
    ensures OwnedAccess(old(t.rows), id, caller, OwnerOf).None? && !PatchValid(b) ==>
      r == Err(ServerError) && t.rows == old(t.rows)
    ensures OwnedAccess(old(t.rows), id, caller, OwnerOf).None? && PatchValid(b) ==>
      r == Ok(Patched(old(t.rows)[id], b)) && t.rows == old(t.rows)[id := r.value]
  {
    var denied := OwnedAccess(t.rows, id, caller, OwnerOf);
    if denied.Some? {
      return Err(denied.value);
    }
    if !PatchValid(b) {
      return Err(ServerError);
    }
    var updated := Patched(t.rows[id], b);
    t.Replace(id, updated);
    r := Ok(updated);
  }

  /** `deleteProperty`: 404, then 403; otherwise exactly that listing is
      removed. */
  method DeleteProperty(t: Table<Listing>, caller: Caller, id: Id) returns (r: Result<()>)
    requires t.Valid()
    modifies t
    ensures t.Valid()
    ensures OwnedAccess(old(t.rows), id, caller, OwnerOf).Some? ==>
      r == Err(OwnedAccess(old(t.rows), id, caller, OwnerOf).value) && t.rows == old(t.rows)
    ensures OwnedAccess(old(t.rows), id, caller, OwnerOf).None? ==>
      r == Ok(()) && t.rows == old(t.rows) - {id}
  {
    var denied := OwnedAccess(t.rows, id, caller, OwnerOf);
    if denied.Some? {
      return Err(denied.value);
    }
    t.Delete(id);
    r := Ok(());
  }
}
