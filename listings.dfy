/** Listing management (backend/src/listings/listings.service.ts): creation
    by a host, the filtered and paginated search, lookup, owner-only update
    and delete, and a host's own listings. */
module Listings {
  import opened Common
  import opened Seqs
  import opened Store
  import CreateListingDto
  import UpdateListingDto

  const ListingNotFound := NotFound("Listing not found")
  const NotOwnUpdate := Forbidden("You can only update your own listings")
  const NotOwnDelete := Forbidden("You can only delete your own listings")
  const DeletedMessage := "Listing deleted successfully"

  /** The query string of `findAll`, numbers already parsed. A string filter
      counts only when non-empty; a numeric filter is None when absent or
      empty; page and limit are None only when absent, since their defaults
      apply to an absent parameter alone. */
  datatype ListingQuery = ListingQuery(
    city: Option<string>, country: Option<string>, accommodationType: Option<string>,
    minPrice: Option<real>, maxPrice: Option<real>, maxGuests: Option<int>,
    page: Option<Positive>, limit: Option<Positive>)

  function PageOf(q: ListingQuery): Positive { q.page.GetOr(1) }

  function LimitOf(q: ListingQuery): Positive { q.limit.GetOr(20) }

  /** Rows before the requested page. */
  function Skip(page: Positive, limit: Positive): nat { (page - 1) * limit }

  /** `Math.ceil(total / limit)`. */
  function TotalPages(total: nat, limit: Positive): nat {
    CeilDivZero(total, limit);
    CeilDiv(total, limit)
  }

  /** Consecutive pages abut: page 1 starts at row 0 and each page starts
      `limit` rows after the one before; page 2 of 10 skips 10 rows. */
  lemma PagesAbut(page: Positive, limit: Positive)
    ensures Skip(1, limit) == 0
    ensures Skip(page + 1, limit) == Skip(page, limit) + limit
    ensures Skip(2, 10) == 10
  {
  }

  /** Multiplying by a positive page size keeps the order. */
  lemma ScaleMonotone(a: int, b: int, c: Positive)
    requires a <= b
    ensures a * c <= b * c
  {
    var d := b - a;
    assert b * c == a * c + d * c;
  }

  /** A page is non-empty exactly when its number is at most totalPages, so
      there are no pages at all for no matches. */
  lemma {:induction false} TotalPagesCoversMatches(total: nat, limit: Positive, page: Positive)
    ensures TotalPages(total, limit) == 0 <==> total == 0
    ensures page <= TotalPages(total, limit) <==> Skip(page, limit) < total
  {
    var n := TotalPages(total, limit);
    CeilDivZero(total, limit);
    assert (n - 1) * limit < total <= n * limit;
    if page <= n {
      ScaleMonotone(page - 1, n - 1, limit);
    } else {
      ScaleMonotone(n, page - 1, limit);
    }
  }

  /** The `where` object of `findAll` with its price sub-object. */
  datatype PriceRange = PriceRange(gte: Option<real>, lte: Option<real>)

  datatype ListingWhere = ListingWhere(
    isActive: bool, city: Option<string>, country: Option<string>,
    accommodationType: Option<string>, maxGuestsGte: Option<int>,
    pricePerNight: Option<PriceRange>)

  /** How the database evaluates such a `where` on a listing. */
  predicate SatisfiesWhere(l: Listing, w: ListingWhere) {
    && l.isActive == w.isActive
    && (w.city.Some? ==> ContainsInsensitive(l.city, w.city.value))
    && (w.country.Some? ==> ContainsInsensitive(l.country, w.country.value))
    && (w.accommodationType.Some? ==> l.accommodationType == w.accommodationType.value)
    && (w.maxGuestsGte.Some? ==> l.maxGuests >= w.maxGuestsGte.value)
    && (w.pricePerNight.Some? ==>
          && (w.pricePerNight.value.gte.Some? ==> l.pricePerNight >= w.pricePerNight.value.gte.value)
          && (w.pricePerNight.value.lte.Some? ==> l.pricePerNight <= w.pricePerNight.value.lte.value))
  }

  /** The search as the query states it: an active listing that meets every
      supplied filter (substring on city and country ignoring case, exact
      type, room for the requested guests, price within the inclusive
      bounds); an absent filter imposes nothing. */
  predicate Matches(l: Listing, q: ListingQuery) {
    && l.isActive
    && (Given(q.city) ==> ContainsInsensitive(l.city, q.city.value))
    && (Given(q.country) ==> ContainsInsensitive(l.country, q.country.value))
    && (Given(q.accommodationType) ==> l.accommodationType == q.accommodationType.value)
    && (q.maxGuests.Some? ==> l.maxGuests >= q.maxGuests.value)
    && (q.minPrice.Some? ==> l.pricePerNight >= q.minPrice.value)
    && (q.maxPrice.Some? ==> l.pricePerNight <= q.maxPrice.value)
  }

  /** Builds the `where` object by conditional assignment; the database then
      selects exactly the listings the query describes. */
  method BuildWhere(q: ListingQuery) returns (w: ListingWhere)
    ensures forall l :: SatisfiesWhere(l, w) <==> Matches(l, q)
  {
    w := ListingWhere(true, None, None, None, None, None);
    if Given(q.city) { w := w.(city := q.city); }
    if Given(q.country) { w := w.(country := q.country); }
    if Given(q.accommodationType) { w := w.(accommodationType := q.accommodationType); }
    if q.maxGuests.Some? { w := w.(maxGuestsGte := q.maxGuests); }
    if q.minPrice.Some? || q.maxPrice.Some? {
      var price := PriceRange(None, None);
      if q.minPrice.Some? { price := price.(gte := q.minPrice); }
      if q.maxPrice.Some? { price := price.(lte := q.maxPrice); }
      w := w.(pricePerNight := Some(price));
    }
  }

  /** Searching by an active listing's own city and country, in any mix of
      ASCII case, finds it. */
  lemma OwnPlaceIsFound(l: Listing, city: string, country: string)
    requires l.isActive
    requires LowerAll(city) == LowerAll(l.city) && LowerAll(country) == LowerAll(l.country)
    ensures Matches(l, ListingQuery(Some(city), Some(country), None, None, None, None, None, None))
  {
    SameUpToCaseContains(l.city, city);
    SameUpToCaseContains(l.country, country);
  }

  /** The listings of a table that match the query. */
  function MatchingListings(listings: map<Id, Listing>, q: ListingQuery): set<Listing> {
    Select(listings.Values, Matches, q)
  }

  /** The sort key of `orderBy: { createdAt }`. */
  function ListingCreatedAt(l: Listing): real { l.createdAt as real }

  /** s lists S exactly once each, newest first. */
  ghost predicate NewestFirst(s: seq<Listing>, S: set<Listing>) {
    Enumerates(s, S) && SortedBy(s, ListingCreatedAt, Desc)
  }

  /** One page of `findAll` holds at most `limit` matching listings, newest
      first, none twice, and as many as remain after the skipped rows. */
  lemma PageContents(ordered: seq<Listing>, S: set<Listing>, skip: nat, limit: Positive)
    requires NewestFirst(ordered, S)
    ensures var data := Window(ordered, skip, limit);
      && |data| <= limit
      && |data| == (if skip >= |S| then 0 else Min(limit, |S| - skip))
      && (forall x | x in data :: x in S)
      && NoDup(data)
      && SortedBy(data, ListingCreatedAt, Desc)
  {
    var data := Window(ordered, skip, limit);
    EnumeratesCard(ordered, S);
    NoDupSub(data, ordered);
    forall x | x in data ensures x in S {
      assert x in multiset(data);
    }
  }

  datatype ListingPage = ListingPage(data: seq<Listing>, total: nat, page: int, totalPages: nat)

  /** `findOne`. */
  function FindOne(listings: map<Id, Listing>, id: Id): (r: Result<Listing, Exception>)
    ensures r.Success? <==> id in listings
    ensures r.Success? ==> r.value == listings[id]
    ensures r.Failure? ==> r.error == ListingNotFound
  {
    if id in listings then Success(listings[id]) else Failure(ListingNotFound)
  }

  /** Prisma's update with the DTO as `data`: each property present in the
      DTO replaces the stored value, everything else is kept. */
  function ApplyUpdate(l: Listing, d: UpdateListingDto.Dto): (r: Listing)
    ensures r.id == l.id && r.hostId == l.hostId && r.createdAt == l.createdAt
    ensures r.address == l.address && r.city == l.city && r.country == l.country
    ensures r.latitude == l.latitude && r.longitude == l.longitude
    ensures r.title == d.title.GetOr(l.title) && r.description == d.description.GetOr(l.description)
    ensures r.accommodationType == d.accommodationType.GetOr(l.accommodationType)
    ensures r.pricePerNight == d.pricePerNight.GetOr(l.pricePerNight)
    ensures r.maxGuests == d.maxGuests.GetOr(l.maxGuests)
    ensures r.amenities == d.amenities.GetOr(l.amenities) && r.images == d.images.GetOr(l.images)
    ensures r.isActive == d.isActive.GetOr(l.isActive)
  {
    l.(title := d.title.GetOr(l.title),
       description := d.description.GetOr(l.description),
       accommodationType := d.accommodationType.GetOr(l.accommodationType),
       pricePerNight := d.pricePerNight.GetOr(l.pricePerNight),
       maxGuests := d.maxGuests.GetOr(l.maxGuests),
       amenities := d.amenities.GetOr(l.amenities),
       images := d.images.GetOr(l.images),
       isActive := d.isActive.GetOr(l.isActive))
  }

  /** An empty update changes nothing, and applying an update twice is the
      same as applying it once. */
  lemma UpdateLaws(l: Listing, d: UpdateListingDto.Dto)
    ensures ApplyUpdate(l, UpdateListingDto.NoChange) == l
    ensures ApplyUpdate(ApplyUpdate(l, d), d) == ApplyUpdate(l, d)
  {
  }

  /** The checks and the new record of `update`: NotFound, then Forbidden
      for anyone but the host. */
  function Updated(listings: map<Id, Listing>, id: Id, userId: Id, d: UpdateListingDto.Dto)
    : (r: Result<Listing, Exception>)
    ensures id !in listings ==> r == Failure(ListingNotFound)
    ensures id in listings && listings[id].hostId != userId ==> r == Failure(NotOwnUpdate)
    ensures id in listings && listings[id].hostId == userId ==> r == Success(ApplyUpdate(listings[id], d))
  {
    if id !in listings then Failure(ListingNotFound)
    else if listings[id].hostId != userId then Failure(NotOwnUpdate)
    else Success(ApplyUpdate(listings[id], d))
  }

  /** The checks and the reply of `remove`: NotFound, then Forbidden for
      anyone but the host, else the success message. */
  function Removal(listings: map<Id, Listing>, id: Id, userId: Id): (r: Result<string, Exception>)
    ensures id !in listings ==> r == Failure(ListingNotFound)
    ensures id in listings && listings[id].hostId != userId ==> r == Failure(NotOwnDelete)
    ensures id in listings && listings[id].hostId == userId ==> r == Success(DeletedMessage)
  {
    if id !in listings then Failure(ListingNotFound)
    else if listings[id].hostId != userId then Failure(NotOwnDelete)
    else Success(DeletedMessage)
  }

  /** The host predicate of `findByHost`: no activity filter. */
  function HostedBy(l: Listing, hostId: Id): bool { l.hostId == hostId }

  class ListingsService {
    const prisma: Database

    constructor (prisma: Database)
      ensures this.prisma == prisma
    {
      this.prisma := prisma;
    }

    /** `create`: stores the DTO's fields under the id the database assigns,
        owned by the calling user, active (the schema default) and stamped
        with the creation time; nothing else changes. */
    method Create(hostId: Id, dto: CreateListingDto.Dto, newId: Id, now: int) returns (l: Listing)
      requires prisma.Valid()
      requires newId !in prisma.listings
      modifies prisma
      ensures prisma.Valid()
      ensures l == Listing(newId, hostId, dto.title, dto.description, dto.accommodationType,
                           dto.pricePerNight, dto.maxGuests, dto.address, dto.city, dto.country,
                           dto.latitude, dto.longitude, dto.amenities, dto.images, true, now)
      ensures prisma.listings == old(prisma.listings)[newId := l]
      ensures prisma.bookings == old(prisma.bookings) && prisma.events == old(prisma.events)
      ensures prisma.eventListings == old(prisma.eventListings)
    {
      l := Listing(newId, hostId, dto.title, dto.description, dto.accommodationType,
                   dto.pricePerNight, dto.maxGuests, dto.address, dto.city, dto.country,
                   dto.latitude, dto.longitude, dto.amenities, dto.images, true, now);
      prisma.listings := prisma.listings[newId := l];
    }

    /** `findAll`: total counts every match; data is the requested window of
        the matches ordered newest first; totalPages is the ceiling of total
        over the page size. */
    method FindAll(q: ListingQuery) returns (r: ListingPage)
      requires prisma.Valid()
      ensures r.page == PageOf(q)
      ensures r.total == |MatchingListings(prisma.listings, q)|
      ensures r.totalPages == TotalPages(r.total, LimitOf(q))
      ensures exists ordered :: NewestFirst(ordered, MatchingListings(prisma.listings, q))
                                && r.data == Window(ordered, Skip(PageOf(q), LimitOf(q)), LimitOf(q))
    {
      var page := PageOf(q);
      var limit := LimitOf(q);
      var skip := Skip(page, limit);
      var where := BuildWhere(q);
      prisma.TablesInjective();
      var rows := Scan(prisma.listings);
      var S := MatchingListings(prisma.listings, q);
      assert Select(prisma.listings.Values, SatisfiesWhere, where) == S;
      var matches := Filter(rows, SatisfiesWhere, where);
      FilterEnumerates(rows, prisma.listings.Values, SatisfiesWhere, where);
      EnumeratesCard(matches, S);
      var ordered := SortBy(matches, ListingCreatedAt, Desc);
      PermutationEnumerates(matches, ordered, S);
      var total := |matches|;
      r := ListingPage(Window(ordered, skip, limit), total, page, TotalPages(total, limit));
      assert NewestFirst(ordered, S) && r.data == Window(ordered, skip, limit);
    }

    /** `update`: the outcome of Updated; on success only that listing
        changes. */
    method Update(id: Id, userId: Id, dto: UpdateListingDto.Dto) returns (r: Result<Listing, Exception>)
      requires prisma.Valid()
      modifies prisma
      ensures prisma.Valid()
      ensures r == Updated(old(prisma.listings), id, userId, dto)
      ensures prisma.listings == if r.Success? then old(prisma.listings)[id := r.value] else old(prisma.listings)
      ensures prisma.bookings == old(prisma.bookings) && prisma.events == old(prisma.events)
      ensures prisma.eventListings == old(prisma.eventListings)
    {
      r := Updated(prisma.listings, id, userId, dto);
      if r.Success? {
        prisma.listings := prisma.listings[id := r.value];
      }
    }

    /** `remove`: the outcome of Removal; on success exactly that listing
        leaves the table. */
    method Remove(id: Id, userId: Id) returns (r: Result<string, Exception>)
      requires prisma.Valid()
      modifies prisma
      ensures prisma.Valid()
      ensures r == Removal(old(prisma.listings), id, userId)
      ensures prisma.listings == if r.Success? then old(prisma.listings) - {id} else old(prisma.listings)
      ensures prisma.bookings == old(prisma.bookings) && prisma.events == old(prisma.events)
      ensures prisma.eventListings == old(prisma.eventListings)
    {
      r := Removal(prisma.listings, id, userId);
      if r.Success? {
        prisma.listings := prisma.listings - {id};
      }
    }

    /** `findByHost`: every listing of the host, inactive ones included,
        exactly once, newest first. */
    method FindByHost(hostId: Id) returns (data: seq<Listing>)
      requires prisma.Valid()
      ensures NewestFirst(data, Select(prisma.listings.Values, HostedBy, hostId))
    {
      prisma.TablesInjective();
      var rows := Scan(prisma.listings);
      var mine := Filter(rows, HostedBy, hostId);
      FilterEnumerates(rows, prisma.listings.Values, HostedBy, hostId);
      data := SortBy(mine, ListingCreatedAt, Desc);
      PermutationEnumerates(mine, data, Select(prisma.listings.Values, HostedBy, hostId));
    }
  }
}
