/** The body of a new event (backend/src/events/dto/create-event.dto.ts). */
module CreateEventDto {
  import opened Common
  import opened Validation

  /** The request body as the validation pipe receives it. */
  datatype Body = Body(
    name: Json, eventType: Json, startDate: Json, endDate: Json,
    city: Json, country: Json, venueLatitude: Json, venueLogitude: Json,
    venueName: Json, description: Json)

  /** The decorators of the DTO class, property by property. `description`
      carries `@IsString()` and no `@IsOptional()`. */
  predicate Valid(b: Body, isIsoDate: string -> bool) {
    && IsString(b.name) && IsNotEmpty(b.name)
    && IsString(b.eventType) && IsNotEmpty(b.eventType)
    && IsDateString(b.startDate, isIsoDate)
    && IsDateString(b.endDate, isIsoDate)
    && IsString(b.city) && IsNotEmpty(b.city)
    && IsString(b.country) && IsNotEmpty(b.country)
    && IsNumber(b.venueLatitude) && MinValue(b.venueLatitude, -90.0) && MaxValue(b.venueLatitude, 90.0)
    && IsNumber(b.venueLogitude) && MinValue(b.venueLogitude, -180.0) && MaxValue(b.venueLogitude, 180.0)
    && IsString(b.venueName) && IsNotEmpty(b.venueName)
    && IsString(b.description)
  }

  /** The validated DTO as the service reads it, dates in epoch milliseconds. */
  datatype Dto = Dto(
    name: string, eventType: string, startDate: int, endDate: int,
    city: string, country: string, venueLatitude: real, venueLogitude: real,
    venueName: string, description: string)

  /** A body is accepted exactly when each property satisfies its stated
      constraint; nothing relates the two dates. */
  lemma ValidMeans(b: Body, isIsoDate: string -> bool)
    ensures Valid(b, isIsoDate) <==>
      && b.name.Str? && b.name.s != ""
      && b.eventType.Str? && b.eventType.s != ""
      && b.startDate.Str? && isIsoDate(b.startDate.s)
      && b.endDate.Str? && isIsoDate(b.endDate.s)
      && b.city.Str? && b.city.s != ""
      && b.country.Str? && b.country.s != ""
      && b.venueLatitude.Num? && -90.0 <= b.venueLatitude.n <= 90.0
      && b.venueLogitude.Num? && -180.0 <= b.venueLogitude.n <= 180.0
      && b.venueName.Str? && b.venueName.s != ""
      && b.description.Str?
  {
  }

  /** Although the class declares `description?`, a body without it is
      refused, while an empty description is accepted. */
  lemma DescriptionRequired(b: Body, isIsoDate: string -> bool)
    ensures !Valid(b.(description := Undefined), isIsoDate)
    ensures !Valid(b.(description := Null), isIsoDate)
    ensures Valid(b, isIsoDate) ==> Valid(b.(description := Str("")), isIsoDate)
  {
  }
}
