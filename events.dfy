/** Events and the listings near them (backend/src/events/events.service.ts):
    creation, the filtered list in start-date order, lookup, and the
    listings linked to an event, filtered, cut to a limit and ordered by
    distance to the venue. */
module Events {
  import opened Common
  import opened Seqs
  import opened Store
  import CreateEventDto

  const EventNotFound := NotFound("Event not found")

  /** The query string of `findAll`, dates already parsed to epoch
      milliseconds. isActive is the raw string, None when omitted. */
  datatype EventQuery = EventQuery(
    city: Option<string>, country: Option<string>, eventType: Option<string>,
    startDate: Option<int>, endDate: Option<int>, isActive: Option<string>)

  /** The `isActive` of the `where`: the parameter defaults to the boolean
      true, and only the string "true" compares equal to 'true'. */
  function ActiveWanted(q: EventQuery): bool {
    match q.isActive
    case None => false
    case Some(s) => s == "true"
  }

  /** One element of the `AND` list the date filters push. */
  datatype DateClause = EndDateGte(bound: int) | StartDateLte(bound: int)

  datatype EventWhere = EventWhere(
    isActive: bool, city: Option<string>, country: Option<string>,
    eventType: Option<string>, and: Option<seq<DateClause>>)

  predicate SatisfiesClause(e: Event, c: DateClause) {
    match c
    case EndDateGte(b) => e.endDate >= b
    case StartDateLte(b) => e.startDate <= b
  }

  /** How the database evaluates such a `where` on an event. */
  predicate SatisfiesWhere(e: Event, w: EventWhere) {
    && e.isActive == w.isActive
    && (w.city.Some? ==> ContainsInsensitive(e.city, w.city.value))
    && (w.country.Some? ==> ContainsInsensitive(e.country, w.country.value))
    && (w.eventType.Some? ==> e.eventType == w.eventType.value)
    && (w.and.Some? ==> forall i | 0 <= i < |w.and.value| :: SatisfiesClause(e, w.and.value[i]))
  }

  /** The events the query describes: activity as ActiveWanted says, city
      and country substrings ignoring case, the exact type, and an event
      still running at the start bound and begun by the end bound. */
  predicate Matches(e: Event, q: EventQuery) {
    && e.isActive == ActiveWanted(q)
    && (Given(q.city) ==> ContainsInsensitive(e.city, q.city.value))
    && (Given(q.country) ==> ContainsInsensitive(e.country, q.country.value))
    && (Given(q.eventType) ==> e.eventType == q.eventType.value)
    && (q.startDate.Some? ==> e.endDate >= q.startDate.value)
    && (q.endDate.Some? ==> e.startDate <= q.endDate.value)
  }

  /** Builds the `where` object, pushing one clause per date bound; the
      database then selects exactly the events the query describes. */
  method BuildWhere(q: EventQuery) returns (w: EventWhere)
    ensures forall e :: SatisfiesWhere(e, w) <==> Matches(e, q)
  {
    w := EventWhere(ActiveWanted(q), None, None, None, None);
    if Given(q.city) { w := w.(city := q.city); }
    if Given(q.country) { w := w.(country := q.country); }
    if Given(q.eventType) { w := w.(eventType := q.eventType); }
    if q.startDate.Some? || q.endDate.Some? {
      var clauses: seq<DateClause> := [];
      if q.startDate.Some? { clauses := clauses + [EndDateGte(q.startDate.value)]; }
      if q.endDate.Some? { clauses := clauses + [StartDateLte(q.endDate.value)]; }
      w := w.(and := Some(clauses));
      forall e ensures (forall i | 0 <= i < |clauses| :: SatisfiesClause(e, clauses[i])) <==>
                       (q.startDate.Some? ==> e.endDate >= q.startDate.value)
                       && (q.endDate.Some? ==> e.startDate <= q.endDate.value) {
        if |clauses| == 2 {
          assert SatisfiesClause(e, clauses[0]) == (e.endDate >= q.startDate.value);
          assert SatisfiesClause(e, clauses[1]) == (e.startDate <= q.endDate.value);
        } else {
          assert SatisfiesClause(e, clauses[0]) ==
            if q.startDate.Some? then e.endDate >= q.startDate.value else e.startDate <= q.endDate.value;
        }
      }
    }
  }

  /** Without an isActive parameter the list holds inactive events only, and
      every string but "true" asks for inactive events too. */
  lemma OmittedActiveSelectsInactive(e: Event, q: EventQuery)
    requires Matches(e, q)
    ensures q.isActive != Some("true") ==> !e.isActive
    ensures q.isActive == Some("true") ==> e.isActive
  {
  }

  predicate InInterval(t: int, lo: int, hi: int) { lo <= t <= hi }

  /** With both bounds, an event whose dates are in order matches the date
      filters exactly when it shares an instant with the requested period. */
  lemma DateFilterIsOverlap(e: Event, from: int, to: int)
    requires e.startDate <= e.endDate && from <= to
    ensures (e.endDate >= from && e.startDate <= to) <==>
            exists t :: InInterval(t, from, to) && InInterval(t, e.startDate, e.endDate)
  {
    if e.endDate >= from && e.startDate <= to {
      var t := Max(from, e.startDate);
      assert InInterval(t, from, to) && InInterval(t, e.startDate, e.endDate);
    }
  }

  /** The sort key of `orderBy: { startDate: 'asc' }`. */
  function StartKey(e: Event): real { e.startDate as real }

  /** `findOne`. */
  function FindOne(events: map<Id, Event>, id: Id): (r: Result<Event, Exception>)
    ensures r.Success? <==> id in events
    ensures r.Success? ==> r.value == events[id]
    ensures r.Failure? ==> r.error == EventNotFound
  {
    if id in events then Success(events[id]) else Failure(EventNotFound)
  }

  /** The query string of `getListingsNearEvent`, numbers already parsed.
      A filter is None when absent or empty; limit is None only when absent,
      since its default applies to an absent parameter alone. */
  datatype NearQuery = NearQuery(
    maxDistance: Option<real>, accommodationType: Option<string>,
    maxPrice: Option<real>, limit: Option<Positive>)

  function NearLimit(q: NearQuery): Positive { q.limit.GetOr(20) }

  /** Some join row links the event to the listing. */
  predicate Linked(links: seq<EventListing>, eventId: Id, listingId: Id) {
    exists i | 0 <= i < |links| :: links[i].eventId == eventId && links[i].listingId == listingId
  }

  /** What the listing query filters on. */
  datatype NearScope = NearScope(
    links: seq<EventListing>, eventId: Id,
    accommodationType: Option<string>, maxPrice: Option<real>)

  function ScopeOf(links: seq<EventListing>, eventId: Id, q: NearQuery): NearScope {
    NearScope(links, eventId, q.accommodationType, q.maxPrice)
  }

  /** A listing the query may return: linked to the event, active, of the
      requested type and at most the requested price per night. */
  predicate IsCandidate(l: Listing, s: NearScope) {
    && Linked(s.links, s.eventId, l.id)
    && l.isActive
    && (Given(s.accommodationType) ==> l.accommodationType == s.accommodationType.value)
    && (s.maxPrice.Some? ==> l.pricePerNight <= s.maxPrice.value)
  }

  /** The first join row of the event and the listing, as the nested
      `eventListings` include returns them in storage order. */
  function FirstLink(links: seq<EventListing>, eventId: Id, listingId: Id): (r: Option<EventListing>)
    ensures r.Some? <==> Linked(links, eventId, listingId)
    ensures r.Some? ==> r.value in links && r.value.eventId == eventId && r.value.listingId == listingId
  {
    if links == [] then None
    else if links[0].eventId == eventId && links[0].listingId == listingId then Some(links[0])
    else
      var r := FirstLink(links[1..], eventId, listingId);
      assert Linked(links, eventId, listingId) ==> Linked(links[1..], eventId, listingId) by {
        if Linked(links, eventId, listingId) {
          var i :| 0 <= i < |links| && links[i].eventId == eventId && links[i].listingId == listingId;
          if i > 0 { assert links[1..][i - 1] == links[i]; }
        }
      }
      assert Linked(links[1..], eventId, listingId) ==> Linked(links, eventId, listingId) by {
        if Linked(links[1..], eventId, listingId) {
          var i :| 0 <= i < |links[1..]| && links[1..][i].eventId == eventId && links[1..][i].listingId == listingId;
          assert links[i + 1] == links[1..][i];
        }
      }
      r
  }

  /** `eventListings[0]?.distanceToVenue || null`: the first link's distance,
      with a missing link, a missing distance and a distance of 0 all shown
      as null. */
  function ShownDistance(links: seq<EventListing>, eventId: Id, listingId: Id): (d: Option<real>)
    ensures d.Some? ==> d.value != 0.0 && FirstLink(links, eventId, listingId).Some?
                        && FirstLink(links, eventId, listingId).value.distanceToVenue == d
    ensures d.None? ==> FirstLink(links, eventId, listingId).None?
                        || FirstLink(links, eventId, listingId).value.distanceToVenue in {None, Some(0.0)}
  {
    match FirstLink(links, eventId, listingId)
    case None => None
    case Some(link) =>
      if link.distanceToVenue.Some? && link.distanceToVenue.value != 0.0 then link.distanceToVenue else None
  }

  /** A returned listing with its distance to the venue. */
  datatype NearListing = NearListing(listing: Listing, distanceToVenue: Option<real>)

  function Attach(cands: seq<Listing>, links: seq<EventListing>, eventId: Id): (r: seq<NearListing>)
    ensures |r| == |cands|
    ensures forall i | 0 <= i < |r| :: r[i].listing == cands[i]
    ensures forall i | 0 <= i < |r| :: r[i].distanceToVenue == ShownDistance(links, eventId, cands[i].id)
  {
    seq(|cands|, i requires 0 <= i < |cands| => NearListing(cands[i], ShownDistance(links, eventId, cands[i].id)))
  }

  /** How JavaScript reads a null distance in `<=` and in `|| 0`. */
  function OrZero(d: Option<real>): real { d.GetOr(0.0) }

  /** `!maxDistance || distanceToVenue <= maxDistance`. */
  function WithinDistance(n: NearListing, maxDistance: Option<real>): bool {
    maxDistance.None? || OrZero(n.distanceToVenue) <= maxDistance.value
  }

  /** The comparator's key `(distanceToVenue || 0)`. */
  function DistanceKey(n: NearListing): real { OrZero(n.distanceToVenue) }

  /** The post-processing of the fetched listings: attach distances, drop
      those beyond maxDistance, sort nearest first. */
  function NearPipeline(cands: seq<Listing>, links: seq<EventListing>, eventId: Id, maxDistance: Option<real>)
    : seq<NearListing>
  {
    SortBy(Filter(Attach(cands, links, eventId), WithinDistance, maxDistance), DistanceKey, Asc)
  }

  /** The result is a permutation of the fetched listings within the
      distance, each with its shown distance: it holds exactly those, no more
      of them than were fetched, in ascending order of distance with null
      read as 0. */
  lemma NearPipelineMeans(cands: seq<Listing>, links: seq<EventListing>, eventId: Id, maxDistance: Option<real>)
    ensures var r := NearPipeline(cands, links, eventId, maxDistance);
      && (forall n :: n in r <==>
            n.listing in cands && n.distanceToVenue == ShownDistance(links, eventId, n.listing.id)
            && (maxDistance.None? || OrZero(n.distanceToVenue) <= maxDistance.value))
      && multiset(r) == multiset(Filter(Attach(cands, links, eventId), WithinDistance, maxDistance))
      && |r| <= |cands|
      && SortedBy(r, DistanceKey, Asc)
  {
    var a := Attach(cands, links, eventId);
    var f := Filter(a, WithinDistance, maxDistance);
    var r := SortBy(f, DistanceKey, Asc);
    forall n ensures n in r <==> n in f {
      assert n in r <==> n in multiset(r);
      assert n in f <==> n in multiset(f);
    }
    forall n ensures n in a <==> n.listing in cands && n.distanceToVenue == ShownDistance(links, eventId, n.listing.id) {
      if n.listing in cands && n.distanceToVenue == ShownDistance(links, eventId, n.listing.id) {
        var i :| 0 <= i < |cands| && cands[i] == n.listing;
        assert a[i] == n;
      }
    }
    assert |r| == |multiset(r)| == |multiset(f)| == |f|;
  }

  /** A listing shown without a distance sorts before every listing at a
      positive distance. */
  lemma NullDistanceSortsFirst(cands: seq<Listing>, links: seq<EventListing>, eventId: Id,
                               maxDistance: Option<real>, i: int, j: int)
    requires var r := NearPipeline(cands, links, eventId, maxDistance);
      && 0 <= i < |r| && 0 <= j < |r|
      && r[i].distanceToVenue.None? && r[j].distanceToVenue.Some? && r[j].distanceToVenue.value > 0.0
    ensures i < j
  {
    NearPipelineMeans(cands, links, eventId, maxDistance);
  }

  /** The listings the query of `getListingsNearEvent` selects. */
  function Candidates(listings: map<Id, Listing>, links: seq<EventListing>, eventId: Id, q: NearQuery): set<Listing> {
    Select(listings.Values, IsCandidate, ScopeOf(links, eventId, q))
  }

  /** cands is what a `take: limit` without `orderBy` may return from S:
      distinct members of S, as many as the limit allows. */
  ghost predicate Fetched(cands: seq<Listing>, S: set<Listing>, limit: Positive) {
    && NoDup(cands)
    && (forall l | l in cands :: l in S)
    && |cands| == Min(limit, |S|)
  }

  /** The event part of the reply. */
  datatype EventSummary = EventSummary(id: Id, name: string, venueName: string)

  datatype NearResult = NearResult(event: EventSummary, listings: seq<NearListing>)

  class EventsService {
    const prisma: Database

    constructor (prisma: Database)
      ensures this.prisma == prisma
    {
      this.prisma := prisma;
    }

    /** `create`: stores the DTO's fields under the id the database assigns,
        active (the schema default); nothing else changes. */
    method Create(dto: CreateEventDto.Dto, newId: Id) returns (e: Event)
      requires prisma.Valid()
      requires newId !in prisma.events
      modifies prisma
      ensures prisma.Valid()
      ensures e == Event(newId, dto.name, dto.eventType, dto.startDate, dto.endDate,
                         dto.city, dto.country, dto.venueLatitude, dto.venueLogitude,
                         dto.venueName, Some(dto.description), true)
      ensures prisma.events == old(prisma.events)[newId := e]
      ensures prisma.listings == old(prisma.listings) && prisma.bookings == old(prisma.bookings)
      ensures prisma.eventListings == old(prisma.eventListings)
    {
      e := Event(newId, dto.name, dto.eventType, dto.startDate, dto.endDate,
                 dto.city, dto.country, dto.venueLatitude, dto.venueLogitude,
                 dto.venueName, Some(dto.description), true);
      prisma.events := prisma.events[newId := e];
    }

    /** `findAll`: every event the query describes, exactly once, in
        ascending order of start date. */
    method FindAll(q: EventQuery) returns (data: seq<Event>)
      requires prisma.Valid()
      ensures Enumerates(data, Select(prisma.events.Values, Matches, q))
      ensures SortedBy(data, StartKey, Asc)
    {
      var where := BuildWhere(q);
      prisma.TablesInjective();
      var rows := Scan(prisma.events);
      assert Select(prisma.events.Values, SatisfiesWhere, where) == Select(prisma.events.Values, Matches, q);
      var matches := Filter(rows, SatisfiesWhere, where);
      FilterEnumerates(rows, prisma.events.Values, SatisfiesWhere, where);
      data := SortBy(matches, StartKey, Asc);
      PermutationEnumerates(matches, data, Select(prisma.events.Values, Matches, q));
    }

    /** `getListingsNearEvent`: NotFound for an unknown event; otherwise the
        event's id, name and venue, and the pipeline applied to as many
        distinct candidates as the limit allows, chosen by the database. */
    method GetListingsNearEvent(eventId: Id, q: NearQuery) returns (r: Result<NearResult, Exception>)
      requires prisma.Valid()
      ensures eventId !in prisma.events ==> r == Failure(EventNotFound)
      ensures eventId in prisma.events ==>
        && r.Success?
        && r.value.event == EventSummary(eventId, prisma.events[eventId].name, prisma.events[eventId].venueName)
        && exists cands :: Fetched(cands, Candidates(prisma.listings, prisma.eventListings, eventId, q), NearLimit(q))
                           && r.value.listings == NearPipeline(cands, prisma.eventListings, eventId, q.maxDistance)
    {
      var found := FindOne(prisma.events, eventId);
      if found.Failure? {
        return Failure(found.error);
      }
      var event := found.value;
      var scope := ScopeOf(prisma.eventListings, eventId, q);
      var S := Candidates(prisma.listings, prisma.eventListings, eventId, q);
      prisma.TablesInjective();
      var rows := Scan(prisma.listings);
      var matched := Filter(rows, IsCandidate, scope);
      FilterEnumerates(rows, prisma.listings.Values, IsCandidate, scope);
      EnumeratesCard(matched, S);
      var cands := Window(matched, 0, NearLimit(q));
      NoDupSub(cands, matched);
      forall l | l in cands ensures l in S {
        assert l in multiset(cands);
      }
      assert Fetched(cands, S, NearLimit(q));
      var listings := NearPipeline(cands, prisma.eventListings, eventId, q.maxDistance);
      r := Success(NearResult(EventSummary(event.id, event.name, event.venueName), listings));
    }
  }
}
