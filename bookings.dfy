/** Booking lifecycle (backend/src/bookings/bookings.service.ts): creation
    with ordered checks and price computation, the guest's own bookings,
    access-checked lookup and cancellation. */
module Bookings {
  import opened Common
  import opened Seqs
  import opened Store
  import CreateBookingDto

  /** Milliseconds in a day. */
  const DayMs: Positive := 1000 * 60 * 60 * 24

  const ListingNotFound := NotFound("Listing not found")
  const CheckOutNotAfterCheckIn := BadRequest("Check-out date must be after check-in date")
  const BookingNotFound := NotFound("Booking not found")
  const NoAccess := BadRequest("You do not have access to this booking")
  const NotOwnBooking := BadRequest("You can only cancel your own bookings")
  const AlreadyCancelled := BadRequest("Booking is already cancelled")

  function GuestsExceeded(maxGuests: int): Exception {
    BadRequest("Number of guests exceeds maximum allowed (" + IntToString(maxGuests) + ")")
  }

  /** Nights charged for a stay: started days, so at least one, and the
      least count of whole days covering the stay. */
  function Nights(checkIn: int, checkOut: int): (n: int)
    requires checkIn < checkOut
    ensures n >= 1
    ensures (n - 1) * DayMs < checkOut - checkIn <= n * DayMs
  {
    var n := CeilDiv(checkOut - checkIn, DayMs);
    assert n * DayMs > 0;
    n
  }

  /** A stay of one day and one millisecond is charged two nights. */
  lemma StartedDayCounts()
    ensures Nights(0, DayMs) == 1
    ensures Nights(0, DayMs + 1) == 2
  {
  }

  /** The outcome of `create` for the listings table at the time of the
      call: the listing must exist, then the guest count must fit, then the
      stay must end after it starts; a new booking is pending and priced at
      nights times the nightly rate. Existing bookings play no part. */
  function NewBooking(listings: map<Id, Listing>, guestId: Id, dto: CreateBookingDto.Dto, id: Id, now: int)
    : (r: Result<Booking, Exception>)
    ensures dto.listingId !in listings ==> r == Failure(ListingNotFound)
    ensures dto.listingId in listings && dto.numberOfGuests > listings[dto.listingId].maxGuests ==>
      r == Failure(GuestsExceeded(listings[dto.listingId].maxGuests))
    ensures (dto.listingId in listings && dto.numberOfGuests <= listings[dto.listingId].maxGuests
             && dto.checkIn >= dto.checkOut) ==>
      r == Failure(CheckOutNotAfterCheckIn)
    ensures (dto.listingId in listings && dto.numberOfGuests <= listings[dto.listingId].maxGuests
             && dto.checkIn < dto.checkOut) ==>
      r == Success(Booking(id, dto.listingId, guestId, dto.checkIn, dto.checkOut, dto.numberOfGuests,
                           Nights(dto.checkIn, dto.checkOut) as real * listings[dto.listingId].pricePerNight,
                           Pending, now))
  {
    if dto.listingId !in listings then Failure(ListingNotFound)
    else
      var l := listings[dto.listingId];
      if dto.numberOfGuests > l.maxGuests then Failure(GuestsExceeded(l.maxGuests))
      else if dto.checkIn >= dto.checkOut then Failure(CheckOutNotAfterCheckIn)
      else
        var b := Booking(id, dto.listingId, guestId, dto.checkIn, dto.checkOut, dto.numberOfGuests,
                        Nights(dto.checkIn, dto.checkOut) as real * l.pricePerNight, Pending, now);
        assert b.totalPrice == Nights(dto.checkIn, dto.checkOut) as real * listings[dto.listingId].pricePerNight;
        Success(b)
  }

  /** At the boundaries: a party of exactly maxGuests is accepted, and a stay
      that ends when it starts is refused. */
  lemma CreateBoundaries(listings: map<Id, Listing>, guestId: Id, dto: CreateBookingDto.Dto, id: Id, now: int)
    requires dto.listingId in listings
    ensures dto.numberOfGuests == listings[dto.listingId].maxGuests && dto.checkIn < dto.checkOut ==>
              NewBooking(listings, guestId, dto, id, now).Success?
    ensures dto.numberOfGuests <= listings[dto.listingId].maxGuests && dto.checkIn == dto.checkOut ==>
              NewBooking(listings, guestId, dto, id, now) == Failure(CheckOutNotAfterCheckIn)
  {
  }

  /** A created booking has a non-empty stay, and its price is the nightly
      rate times the number of started days. */
  lemma CreatedBookingPriced(listings: map<Id, Listing>, guestId: Id, dto: CreateBookingDto.Dto, id: Id, now: int)
    requires NewBooking(listings, guestId, dto, id, now).Success?
    ensures var b := NewBooking(listings, guestId, dto, id, now).value;
      && b.checkIn < b.checkOut
      && b.numberOfGuests <= listings[b.listingId].maxGuests
      && exists n: int :: n >= 1 && (n - 1) * DayMs < b.checkOut - b.checkIn <= n * DayMs
                          && b.totalPrice == n as real * listings[b.listingId].pricePerNight
  {
    var b := NewBooking(listings, guestId, dto, id, now).value;
    var n := Nights(b.checkIn, b.checkOut);
    assert b.totalPrice == n as real * listings[b.listingId].pricePerNight;
  }

  /** `findOne`: a missing booking is NotFound; the booking's guest and the
      host of its listing may see it, anyone else gets BadRequest. The access
      test short-circuits on the guest, and for anyone else it reads the host
      of the listing, which throws when that listing row is gone. */
  function FindOne(bookings: map<Id, Booking>, listings: map<Id, Listing>, id: Id, userId: Id)
    : (r: Result<Booking, Exception>)
    ensures id !in bookings ==> r == Failure(BookingNotFound)
    ensures id in bookings ==>
      var b := bookings[id];
      && (b.guestId == userId ==> r == Success(b))
      && (b.guestId != userId && b.listingId in listings ==>
            r == if listings[b.listingId].hostId == userId then Success(b) else Failure(NoAccess))
      && (b.guestId != userId && b.listingId !in listings ==> r == Failure(InternalServerError))
  {
    if id !in bookings then Failure(BookingNotFound)
    else
      var b := bookings[id];
      if b.guestId == userId then Success(b)
      else if b.listingId !in listings then Failure(InternalServerError)
      else if listings[b.listingId].hostId != userId then Failure(NoAccess)
      else Success(b)
  }

  /** The checks and the new record of `cancel`: a missing booking is
      NotFound; only its guest may cancel (the host gets BadRequest); a
      cancelled booking cannot be cancelled again. Otherwise, from any other
      status, the booking becomes cancelled and nothing else about it
      changes. */
  function Cancellation(bookings: map<Id, Booking>, id: Id, userId: Id): (r: Result<Booking, Exception>)
    ensures id !in bookings ==> r == Failure(BookingNotFound)
    ensures id in bookings ==>
      var b := bookings[id];
      && (b.guestId != userId ==> r == Failure(NotOwnBooking))
      && (b.guestId == userId && b.status == Cancelled ==> r == Failure(AlreadyCancelled))
      && (b.guestId == userId && b.status != Cancelled ==> r == Success(b.(status := Cancelled)))
  {
    if id !in bookings then Failure(BookingNotFound)
    else
      var b := bookings[id];
      if b.guestId != userId then Failure(NotOwnBooking)
      else if b.status == Cancelled then Failure(AlreadyCancelled)
      else Success(b.(status := Cancelled))
  }

  /** Cancelling is not idempotent: once a cancel succeeds, the same cancel
      on the updated table is refused. */
  lemma SecondCancelFails(bookings: map<Id, Booking>, id: Id, userId: Id)
    requires Cancellation(bookings, id, userId).Success?
    ensures var b := Cancellation(bookings, id, userId).value;
      Cancellation(bookings[id := b], id, userId) == Failure(AlreadyCancelled)
  {
  }

  /** The guest-of predicate of `findMyBookings`. */
  function GuestIs(b: Booking, userId: Id): bool { b.guestId == userId }

  /** The sort key of `orderBy: { createdAt }`. */
  function BookingCreatedAt(b: Booking): real { b.createdAt as real }

  class BookingsService {
    const prisma: Database

    constructor (prisma: Database)
      ensures this.prisma == prisma
    {
      this.prisma := prisma;
    }

    /** `create`: the checks and record of NewBooking against the current
        listings; on success exactly one booking is added under the id the
        database assigns, on failure nothing changes. */
    method Create(guestId: Id, dto: CreateBookingDto.Dto, newId: Id, now: int) returns (r: Result<Booking, Exception>)
      requires prisma.Valid()
      requires newId !in prisma.bookings
      modifies prisma
      ensures prisma.Valid()
      ensures r == NewBooking(old(prisma.listings), guestId, dto, newId, now)
      ensures prisma.bookings == if r.Success? then old(prisma.bookings)[newId := r.value] else old(prisma.bookings)
      ensures prisma.listings == old(prisma.listings) && prisma.events == old(prisma.events)
      ensures prisma.eventListings == old(prisma.eventListings)
    {
      r := NewBooking(prisma.listings, guestId, dto, newId, now);
      if r.Success? {
        prisma.bookings := prisma.bookings[newId := r.value];
      }
    }

    /** `findMyBookings`: every booking of the user exactly once, newest
        first. */
    method FindMyBookings(userId: Id) returns (data: seq<Booking>)
      requires prisma.Valid()
      ensures Enumerates(data, Select(prisma.bookings.Values, GuestIs, userId))
      ensures SortedBy(data, BookingCreatedAt, Desc)
    {
      prisma.TablesInjective();
      var rows := Scan(prisma.bookings);
      var mine := Filter(rows, GuestIs, userId);
      FilterEnumerates(rows, prisma.bookings.Values, GuestIs, userId);
      data := SortBy(mine, BookingCreatedAt, Desc);
      PermutationEnumerates(mine, data, Select(prisma.bookings.Values, GuestIs, userId));
    }

    /** `cancel`: the outcome of Cancellation; on success only that booking's
        status changes. */
    method Cancel(id: Id, userId: Id) returns (r: Result<Booking, Exception>)
      requires prisma.Valid()
      modifies prisma
      ensures prisma.Valid()
      ensures r == Cancellation(old(prisma.bookings), id, userId)
      ensures prisma.bookings == if r.Success? then old(prisma.bookings)[id := r.value] else old(prisma.bookings)
      ensures prisma.listings == old(prisma.listings) && prisma.events == old(prisma.events)
      ensures prisma.eventListings == old(prisma.eventListings)
    {
      r := Cancellation(prisma.bookings, id, userId);
      if r.Success? {
        prisma.bookings := prisma.bookings[id := r.value];
      }
    }
  }
}
