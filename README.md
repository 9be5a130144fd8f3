# lodgr marketplace backend — a Dafny model

lodgr is a marketplace where hosts offer places to stay (from a couch to an
entire home) near large events such as a World Cup or a Formula 1 race, and
guests book them. This project models the three NestJS services at the core
of its backend, and the request bodies they accept:

- **Listings.** A host creates a listing. Anyone can search the active
  listings by city, country, type, guest capacity and price range; results
  are paged and ordered newest first. Anyone can look up one listing. Only
  the host can update or delete it, and a host can list their own listings.
- **Bookings.** A guest books a listing. The guest count is checked against
  the listing's capacity and the stay must end after it starts. The booking
  starts out pending, priced at the nightly rate times the number of started
  days. A guest sees their own bookings newest first. A booking can be read
  only by its guest or by the listing's host, and only its guest can cancel
  it, once.
- **Events.** Events are created and then listed, filtered by place, type,
  activity and a date window, in start-date order. Each event can be looked
  up on its own. The listings linked to an event can be fetched with filters
  on type, price and distance to the venue, nearest first.
- **Request bodies.** Each one is given as a JSON value and checked by the
  class-validator decorators of its DTO class. The services then read the
  validated values.

The database is a `Store.Database` object holding one map per table (id to
record) and the event–listing join table as a sequence. The service classes
hold a reference to it. Operations that write change only the table they
name, and say so in their contracts. The database reads rows in an order it
chooses: `Seqs.Scan` returns each record exactly once in an unspecified
order, and the contracts say which rows come back (`Enumerates`) and in
what order (`SortedBy`). A query's `where` object is built by a method, step
by step, as the source builds it. That method is proved to select exactly
what a reference predicate over the query (`Matches`) describes.

Values:
- Prices, coordinates and distances are `real`.
- Dates are integers counting epoch milliseconds.
- Query parameters arrive already parsed. For a filter, `None` stands for a
  parameter that is absent or empty, that is, one the code's truthiness test
  skips. For `page` and `limit`, whose defaults apply only to an absent
  parameter, `None` stands for absent alone.
- A failing call returns a `Failure` carrying the HTTP exception it throws,
  with its message.

Behaviours of the code worth knowing:
- Reading a booking one has no access to, and cancelling someone else's
  booking, throw BadRequest (400), not Forbidden.
- Deleting a listing answers `{ message: 'Listing deleted successfully' }`.
- The `isActive` parameter of the event list defaults to the boolean `true`.
  The code then compares it with the string `'true'`, so an omitted
  parameter selects inactive events only (`Events.OmittedActiveSelectsInactive`).
- The event DTO declares `description?` but gives it no `@IsOptional()`, so
  a body without a description is refused (`CreateEventDto.DescriptionRequired`).
- The near-event sort reads a null distance as 0. The `|| null` also turns a
  stored distance of 0 into null (`Events.ShownDistance`,
  `Events.NullDistanceSortsFirst`).

## Model

| member | source | states |
|---|---|---|
| Bookings.Nights | backend/src/bookings/bookings.service.ts:33-35 | for a non-empty stay, the nights charged are at least one and are the least whole number of 24-hour days covering the stay |
| Bookings.StartedDayCounts | backend/src/bookings/bookings.service.ts:33-35 | exactly one day is one night; one day and one millisecond is two nights |
| Bookings.NewBooking | backend/src/bookings/bookings.service.ts:9-47 | the checks in the source's order: missing listing gives NotFound; too many guests gives BadRequest with the listing's maximum in the message; check-out not after check-in gives BadRequest; otherwise a pending booking for the caller priced at nights times the nightly rate |
| Bookings.GuestsExceeded | backend/src/bookings/bookings.service.ts:20-24 | the BadRequest of a party too large, its message naming the listing's maximum as the template literal prints it |
| Bookings.CreateBoundaries | backend/src/bookings/bookings.service.ts:20-31 | a party of exactly maxGuests is accepted; a stay ending when it starts is refused |
| Bookings.CreatedBookingPriced | backend/src/bookings/bookings.service.ts:29-36 | every created booking has check-in before check-out, fits the listing, and costs the nightly rate times the number of started days |
| Bookings.FindOne | backend/src/bookings/bookings.service.ts:91-131 | missing booking gives NotFound; the guest always sees it; anyone else sees it exactly when they host the listing, else BadRequest; when the listing row is gone and the caller is not the guest, a plain error (500) |
| Bookings.Cancellation | backend/src/bookings/bookings.service.ts:133-156 | missing gives NotFound; not the guest gives BadRequest; already cancelled gives BadRequest; otherwise the same booking with status cancelled, from any other status |
| Bookings.SecondCancelFails | backend/src/bookings/bookings.service.ts:146-148 | after a successful cancel, the same cancel on the updated table is refused as already cancelled |
| Bookings.BookingsService.Create | backend/src/bookings/bookings.service.ts:9-61 | the outcome is NewBooking on the listings table at call time; on success exactly the new booking is added under its fresh id; other tables unchanged; the stored-under-own-id and check-in-before-check-out invariant is kept |
| Bookings.BookingsService.FindMyBookings | backend/src/bookings/bookings.service.ts:63-89 | every booking whose guest is the caller, each exactly once and nothing else, newest first |
| Bookings.BookingsService.Cancel | backend/src/bookings/bookings.service.ts:133-156 | the outcome is Cancellation on the table at call time; on success only that booking's record is replaced; nothing else changes |
| Listings.PagesAbut | backend/src/listings/listings.service.ts:40-44 | page 1 skips nothing; each page starts limit rows after the previous one |
| Listings.Skip | backend/src/listings/listings.service.ts:44 | the rows before the requested page: (page - 1) times the page size |
| Listings.TotalPages | backend/src/listings/listings.service.ts:85 | `Math.ceil(total / limit)`: the least page count whose pages hold every match (proved in TotalPagesCoversMatches) |
| Listings.TotalPagesCoversMatches | backend/src/listings/listings.service.ts:85 | totalPages is 0 exactly when there are no matches; a page is within totalPages exactly when it starts before the last match |
| Listings.BuildWhere | backend/src/listings/listings.service.ts:46-58 | the where object built by conditional assignment selects a listing exactly when it is active and meets every given filter: city and country substrings ignoring case, exact type, capacity at least maxGuests, price within inclusive bounds |
| Listings.SatisfiesWhere | backend/src/listings/listings.service.ts:46-58 | how the database evaluates the built where on a listing: exact activity, case-insensitive contains on city and country, exact type, gte on guests, gte/lte on price |
| Listings.Matches | backend/src/listings/listings.service.ts:32-58 | the reference search: active, and every truthy filter met, absent filters imposing nothing (tied to the where by BuildWhere) |
| Listings.OwnPlaceIsFound | backend/src/listings/listings.service.ts:50-51 | searching by an active listing's own city and country, in any mix of ASCII case, finds it |
| Listings.PageContents | backend/src/listings/listings.service.ts:74-76 | a page of the newest-first matches has at most limit listings, all matches, none twice, still newest first, and as many as remain after the skipped rows |
| Listings.FindOne | backend/src/listings/listings.service.ts:89-112 | the stored listing exactly when the id exists, else NotFound |
| Listings.ApplyUpdate | backend/src/listings/listings.service.ts:127-129 | every property present in the update replaces the stored value; absent ones and id, host, address, city, country, coordinates and creation time are kept |
| Listings.UpdateLaws | backend/src/listings/listings.service.ts:127-129 | an empty update changes nothing; applying an update twice equals applying it once |
| Listings.Updated | backend/src/listings/listings.service.ts:114-144 | missing gives NotFound; not the host gives Forbidden; otherwise the updated listing |
| Listings.Removal | backend/src/listings/listings.service.ts:146-164 | missing gives NotFound; not the host gives Forbidden; otherwise the deletion message |
| Listings.ListingsService.Create | backend/src/listings/listings.service.ts:10-30 | the new listing carries the DTO's fields, the caller as host, its fresh id, active and the creation time; exactly it is added; other tables unchanged |
| Listings.ListingsService.FindAll | backend/src/listings/listings.service.ts:32-87 | total is the number of matching listings; page is as requested (default 1); totalPages is ceil(total/limit) (limit default 20); data is the window at (page-1)*limit of length limit over an ordering of all matches, newest first |
| Listings.ListingsService.Update | backend/src/listings/listings.service.ts:114-144 | the outcome is Updated on the table at call time; on success only that listing is replaced; nothing else changes |
| Listings.ListingsService.Remove | backend/src/listings/listings.service.ts:146-164 | the outcome is Removal on the table at call time; on success exactly that listing leaves the table; nothing else changes |
| Listings.ListingsService.FindByHost | backend/src/listings/listings.service.ts:166-173 | every listing of the host, inactive ones included, each exactly once, newest first |
| Events.BuildWhere | backend/src/events/events.service.ts:18-31 | the where object, with one AND clause pushed per date bound, selects an event exactly when its activity equals "isActive is the string true" and it meets every given filter: city and country substrings ignoring case, exact type, ending on or after startDate, starting on or before endDate |
| Events.ActiveWanted | backend/src/events/events.service.ts:18-22 | the where's isActive: true exactly when the parameter is the string "true"; false when omitted, since the boolean default differs from 'true' |
| Events.SatisfiesWhere | backend/src/events/events.service.ts:20-31 | how the database evaluates the built where on an event, each pushed AND clause included |
| Events.Matches | backend/src/events/events.service.ts:17-31 | the reference event filter: activity as ActiveWanted, every truthy filter met, still running at startDate and begun by endDate (tied to the where by BuildWhere) |
| Events.OmittedActiveSelectsInactive | backend/src/events/events.service.ts:18-22 | a listed event is active exactly when isActive was the string "true"; when the parameter is omitted only inactive events are listed |
| Events.DateFilterIsOverlap | backend/src/events/events.service.ts:27-31 | for an event whose dates are in order and an ordered window, the two date clauses hold exactly when the event and the window share an instant |
| Events.FindOne | backend/src/events/events.service.ts:41-51 | the stored event exactly when the id exists, else NotFound |
| Events.Candidates | backend/src/events/events.service.ts:58-68 | the listings the near-event query selects: linked to the event by some join row, active, of the requested type, at most the requested price |
| Events.Fetched | backend/src/events/events.service.ts:70-90 | what `take: limit` without an order may return from the candidates: distinct candidates, min(limit, number of candidates) of them |
| Events.FirstLink | backend/src/events/events.service.ts:82-87 | a join row for the event and listing is found exactly when one exists, and it is such a row |
| Events.ShownDistance | backend/src/events/events.service.ts:95 | a shown distance is the first link's non-zero distance; it is null exactly when there is no link, no distance or a distance of 0 |
| Events.Attach | backend/src/events/events.service.ts:92-97 | each fetched listing, in order, paired with its shown distance |
| Events.NearPipeline | backend/src/events/events.service.ts:92-99 | the post-processing: attach shown distances, keep those within maxDistance, sort ascending by distance with null as 0 (its properties proved in NearPipelineMeans) |
| Events.NearPipelineMeans | backend/src/events/events.service.ts:92-99 | the result is a permutation of the fetched listings, with their shown distances, whose distance (null read as 0) is at most maxDistance when given: it holds exactly those, no more of them than fetched, ascending by distance |
| Events.NullDistanceSortsFirst | backend/src/events/events.service.ts:99 | a listing shown without a distance comes before every listing at a positive distance |
| Events.EventsService.Create | backend/src/events/events.service.ts:9-15 | the new event carries the DTO's fields, its fresh id and is active; exactly it is added; other tables unchanged |
| Events.EventsService.FindAll | backend/src/events/events.service.ts:17-39 | every event the query describes, each exactly once, ascending by start date |
| Events.EventsService.GetListingsNearEvent | backend/src/events/events.service.ts:53-109 | unknown event gives NotFound; otherwise the event's id, name and venue, and the post-processing applied to min(limit, number of candidates) distinct candidates (linked to the event, active, of the type, within the price), limit defaulting to 20 |
| CreateBookingDto.ValidMeans | backend/src/bookings/dto/create-booking.dto.ts:3-17 | a body is accepted exactly when the listing id is a non-empty string, both dates are ISO 8601 strings and the guest count is a number of at least 1 |
| CreateBookingDto.Valid | backend/src/bookings/dto/create-booking.dto.ts:3-17 | the decorators of the booking body, property by property (read out in ValidMeans) |
| CreateBookingDto.GuestCountBoundary | backend/src/bookings/dto/create-booking.dto.ts:14-16 | one guest is accepted; half a guest, a count sent as a string and an empty listing id are refused |
| CreateListingDto.EnumValues | backend/src/listings/dto/create-listing.dto.ts:3-8 | a string is an accommodation type's value exactly when it is couch, shared, private or entire |
| CreateListingDto.ValidMeans | backend/src/listings/dto/create-listing.dto.ts:10-61 | a body is accepted exactly when every property meets its decorators: non-empty strings, an enum type, price at least 0, 1 to 20 guests, latitude and longitude in range, arrays of strings |
| CreateListingDto.Valid | backend/src/listings/dto/create-listing.dto.ts:10-61 | the decorators of the new-listing body, property by property (read out in ValidMeans) |
| CreateListingDto.Boundaries | backend/src/listings/dto/create-listing.dto.ts:19-60 | the numeric bounds are inclusive; an unknown type, a non-string image and an empty title are refused |
| UpdateListingDto.ValidMeans | backend/src/listings/dto/update-listing.dto.ts:3-40 | a present property must meet its decorators; an absent or null one imposes nothing |
| UpdateListingDto.Valid | backend/src/listings/dto/update-listing.dto.ts:3-40 | the decorators of the update body, each behind `@IsOptional()` (read out in ValidMeans) |
| UpdateListingDto.EmptyIsValid | backend/src/listings/dto/update-listing.dto.ts:3-40 | the empty body is a valid update |
| UpdateListingDto.LooserThanCreate | backend/src/listings/dto/update-listing.dto.ts:12-39 | an update accepts any string as type (creation does not) but still bounds price and guests and wants a boolean isActive |
| CreateEventDto.ValidMeans | backend/src/events/dto/create-event.dto.ts:3-42 | a body is accepted exactly when every property meets its decorators; nothing relates startDate and endDate |
| CreateEventDto.Valid | backend/src/events/dto/create-event.dto.ts:3-42 | the decorators of the event body, description with `@IsString()` alone (read out in ValidMeans) |
| CreateEventDto.DescriptionRequired | backend/src/events/dto/create-event.dto.ts:40-41 | a body without a description, or with null, is refused; an empty description is accepted |
| Seqs.Scan | backend/src/listings/listings.service.ts:167-170 | a table read returns every record exactly once |
| Seqs.SortBy | backend/src/listings/listings.service.ts:76 | an orderBy returns a permutation of its input in key order |
| Seqs.Window | backend/src/listings/listings.service.ts:74-75 | skip/take keeps the positions from skip on, at most take of them |
| Seqs.EnumeratesCard | backend/src/listings/listings.service.ts:78 | the count of matching rows equals the length of a duplicate-free listing of them |

## Left out

- Floating point: prices, coordinates and distances are exact reals, so the rounding of `nights * pricePerNight`, of `parseFloat` and of the `/` in `Math.ceil(total / limit)` is not modelled.
- Parsing: the ISO 8601 recogniser of `@IsDateString()` is a parameter, and turning date strings into epoch milliseconds (`new Date(...)`) happens before the services run. Strings that parse to an invalid date, and `parseInt`/`parseFloat` results that are NaN, are not modelled.
- Query numbers: page and limit are positive integers; other values are not modelled. In the source, a page of zero or less or an empty page gives a negative `skip`, and a non-numeric limit gives a NaN `take`; these are the values the database plausibly rejects. Others succeed with odd results. `page=1.5` with the default limit skips 10 rows, one half page, while the reply reports page `parseInt('1.5')` = 1. A fractional limit such as 2.5 takes `parseInt` of it, 2 rows, while totalPages divides by 2.5. A limit of 0 takes no rows and makes totalPages `Infinity`, sent as null in JSON. When (page - 1) × limit is not a whole number, `skip` is fractional. The near-event limit feeds only `take`, so it never produces a negative skip.
- Guest counts are integers; the validator also accepts a fractional count such as 1.5, which is not modelled.
- The Prisma schema is not part of this model. The defaults it supplies are assumed: ids, `createdAt`, `isActive` true for new listings and events. Its relations, unique constraints, cascading deletes and `updatedAt` column are also not modelled. Deleting a listing therefore leaves its bookings and join rows in place.
- Listings.ApplyUpdate: assumes no property of the update body is `null` (the validator lets `null` through, and Prisma would then write null to the column or reject the update) and that properties the DTO does not declare, such as `hostId`, never reach the update; a kept host relies on the latter.
- The `include`/`select` projections that attach host, guest and listing summaries to results are not modelled; records are returned whole.
- Ordering ties: rows with equal sort keys, and the choice of rows for a `take` without `orderBy`, are left to the database. The contracts admit any such order or choice. Join rows of one listing are read in storage order.
- Case-insensitive `contains` is modelled with ASCII lower-casing; the database collation beyond ASCII is not modelled.
- The global validation pipe's options (whitelisting, type transformation) and the controllers, guards and authentication that provide the caller's user id are not part of this model; the caller's id is a parameter.
- Concurrency: each of these is modelled as one atomic step: the two queries in listing search; the listing lookup then the insert in booking creation; the lookup then the write in update, remove and cancel; and the event lookup then the listing query in the near-event search.
- Users, authentication, the frontend and the seed script are not part of this model.
