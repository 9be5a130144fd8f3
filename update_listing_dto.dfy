/** The body of a listing update (backend/src/listings/dto/update-listing.dto.ts). */
module UpdateListingDto {
  import opened Common
  import opened Validation
  import CreateListingDto

  /** The request body as the validation pipe receives it. The class declares
      no host, address, city, country or coordinate property. */
  datatype Body = Body(
    title: Json, description: Json, accommodationType: Json,
    pricePerNight: Json, maxGuests: Json,
    amenities: Json, images: Json, isActive: Json)

  /** The decorators of the DTO class: every property is optional. */
  predicate Valid(b: Body) {
    && Optional(b.title, IsString(b.title))
    && Optional(b.description, IsString(b.description))
    && Optional(b.accommodationType, IsString(b.accommodationType))
    && Optional(b.pricePerNight, IsNumber(b.pricePerNight) && MinValue(b.pricePerNight, 0.0))
    && Optional(b.maxGuests, IsNumber(b.maxGuests) && MinValue(b.maxGuests, 1.0) && MaxValue(b.maxGuests, 20.0))
    && Optional(b.amenities, IsArray(b.amenities) && IsStringEach(b.amenities))
    && Optional(b.images, IsArray(b.images) && IsStringEach(b.images))
    && Optional(b.isActive, IsBoolean(b.isActive))
  }

  /** The validated DTO as the service reads it: None for an absent property. */
  datatype Dto = Dto(
    title: Option<string>, description: Option<string>, accommodationType: Option<string>,
    pricePerNight: Option<real>, maxGuests: Option<int>,
    amenities: Option<seq<string>>, images: Option<seq<string>>, isActive: Option<bool>)

  /** An update that sets nothing. */
  const NoChange: Dto := Dto(None, None, None, None, None, None, None, None)

  /** A property that is present must satisfy its constraint; an absent one
      imposes nothing. */
  lemma ValidMeans(b: Body)
    ensures Valid(b) <==>
      && (b.title.Str? || b.title in {Undefined, Null})
      && (b.description.Str? || b.description in {Undefined, Null})
      && (b.accommodationType.Str? || b.accommodationType in {Undefined, Null})
      && ((b.pricePerNight.Num? && b.pricePerNight.n >= 0.0) || b.pricePerNight in {Undefined, Null})
      && ((b.maxGuests.Num? && 1.0 <= b.maxGuests.n <= 20.0) || b.maxGuests in {Undefined, Null})
      && ((b.amenities.Arr? && forall i | 0 <= i < |b.amenities.items| :: b.amenities.items[i].Str?)
          || b.amenities in {Undefined, Null})
      && ((b.images.Arr? && forall i | 0 <= i < |b.images.items| :: b.images.items[i].Str?)
          || b.images in {Undefined, Null})
      && (b.isActive.Bool? || b.isActive in {Undefined, Null})
  {
  }

  /** The empty body is a valid update. */
  lemma EmptyIsValid()
    ensures Valid(Body(Undefined, Undefined, Undefined, Undefined, Undefined, Undefined, Undefined, Undefined))
  {
  }

  /** Unlike creation, an update accepts any string as the accommodation
      type, and still bounds price and guest count. */
  lemma LooserThanCreate()
    ensures Valid(Body(Undefined, Undefined, Str("castle"), Undefined, Undefined, Undefined, Undefined, Undefined))
    ensures !CreateListingDto.Valid(CreateListingDto.Sample.(accommodationType := Str("castle")))
    ensures !Valid(Body(Undefined, Undefined, Undefined, Num(-1.0), Undefined, Undefined, Undefined, Undefined))
    ensures !Valid(Body(Undefined, Undefined, Undefined, Undefined, Num(21.0), Undefined, Undefined, Undefined))
    ensures Valid(Body(Undefined, Undefined, Undefined, Undefined, Num(20.0), Undefined, Undefined, Bool(false)))
    ensures !Valid(Body(Undefined, Undefined, Undefined, Undefined, Undefined, Undefined, Undefined, Str("false")))
  {
  }
}
