/** The body of a booking request (backend/src/bookings/dto/create-booking.dto.ts). */
module CreateBookingDto {
  import opened Common
  import opened Validation

  /** The request body as the validation pipe receives it. */
  datatype Body = Body(listingId: Json, checkIn: Json, checkOut: Json, numberOfGuests: Json)

  /** The decorators of the DTO class, property by property. */
  predicate Valid(b: Body, isIsoDate: string -> bool) {
    && IsString(b.listingId) && IsNotEmpty(b.listingId)
    && IsDateString(b.checkIn, isIsoDate)
    && IsDateString(b.checkOut, isIsoDate)
    && IsNumber(b.numberOfGuests) && MinValue(b.numberOfGuests, 1.0)
  }

  /** The validated DTO as the service reads it, with the two dates already
      turned into epoch milliseconds. */
  datatype Dto = Dto(listingId: Id, checkIn: int, checkOut: int, numberOfGuests: int)

  /** A body is accepted exactly when the listing id is a non-empty string,
      both dates are ISO 8601 strings and the guest count is a number of at
      least one. */
  lemma ValidMeans(b: Body, isIsoDate: string -> bool)
    ensures Valid(b, isIsoDate) <==>
      && b.listingId.Str? && b.listingId.s != ""
      && b.checkIn.Str? && isIsoDate(b.checkIn.s)
      && b.checkOut.Str? && isIsoDate(b.checkOut.s)
      && b.numberOfGuests.Num? && b.numberOfGuests.n >= 1.0
  {
  }

  /** A count of one guest is accepted; a fractional count below one, a
      count sent as a string and an empty listing id are refused. */
  lemma GuestCountBoundary(id: string, day: string, isIsoDate: string -> bool)
    requires id != "" && isIsoDate(day)
    ensures Valid(Body(Str(id), Str(day), Str(day), Num(1.0)), isIsoDate)
    ensures !Valid(Body(Str(id), Str(day), Str(day), Num(0.5)), isIsoDate)
    ensures !Valid(Body(Str(id), Str(day), Str(day), Str("2")), isIsoDate)
    ensures !Valid(Body(Str(""), Str(day), Str(day), Num(1.0)), isIsoDate)
  {
  }
}
