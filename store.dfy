/** The relational data the services work on, as in-memory tables: a map
    from id to record per table, and the event-listing join table as a
    sequence of rows in storage order. */
module Store {
  import opened Common
  import opened Seqs

  datatype Listing = Listing(
    id: Id, hostId: Id,
    title: string, description: string, accommodationType: string,
    pricePerNight: real, maxGuests: int,
    address: string, city: string, country: string,
    latitude: real, longitude: real,
    amenities: seq<string>, images: seq<string>,
    isActive: bool, createdAt: int)

  datatype BookingStatus = Pending | Confirmed | Cancelled | Completed

  datatype Booking = Booking(
    id: Id, listingId: Id, guestId: Id,
    checkIn: int, checkOut: int, numberOfGuests: int,
    totalPrice: real, status: BookingStatus, createdAt: int)

  datatype Event = Event(
    id: Id, name: string, eventType: string,
    startDate: int, endDate: int,
    city: string, country: string,
    venueLatitude: real, venueLogitude: real, venueName: string,
    description: Option<string>, isActive: bool)

  /** A link between an event and a listing with a precomputed distance. */
  datatype EventListing = EventListing(eventId: Id, listingId: Id, distanceToVenue: Option<real>)

  class Database {
    var listings: map<Id, Listing>
    var bookings: map<Id, Booking>
    var events: map<Id, Event>
    var eventListings: seq<EventListing>

    /** Every record is stored under its own id, and every booking's stay is
        non-empty (the one booking invariant creation establishes). */
    ghost predicate Valid()
      reads this
    {
      && (forall k | k in listings :: listings[k].id == k)
      && (forall k | k in bookings :: bookings[k].id == k && bookings[k].checkIn < bookings[k].checkOut)
      && (forall k | k in events :: events[k].id == k)
    }

    constructor ()
      ensures Valid()
      ensures listings == map[] && bookings == map[] && events == map[] && eventListings == []
    {
      listings, bookings, events, eventListings := map[], map[], map[], [];
    }

    /** Records stored under their own ids are distinct per table, so a scan
        returns each once. */
    lemma TablesInjective()
      requires Valid()
      ensures Injective(listings) && Injective(bookings) && Injective(events)
    {
    }
  }
}
