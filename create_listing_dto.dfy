/** The body of a new listing (backend/src/listings/dto/create-listing.dto.ts). */
module CreateListingDto {
  import opened Common
  import opened Validation

  /** The kinds of accommodation a listing can be created as. */
  datatype AccommodationType = Couch | Shared | Private | Entire {
    /** The string the enum member stands for. */
    function Value(): string {
      match this
      case Couch => "couch"
      case Shared => "shared"
      case Private => "private"
      case Entire => "entire"
    }
  }

  /** `Object.values(AccommodationType)`. */
  const AccommodationTypeValues: seq<string> := ["couch", "shared", "private", "entire"]

  /** The enum's value list is exactly the values of its members. */
  lemma EnumValues(s: string)
    ensures s in AccommodationTypeValues <==> exists t: AccommodationType :: t.Value() == s
  {
    if s in AccommodationTypeValues {
      var t := if s == "couch" then Couch else if s == "shared" then Shared
               else if s == "private" then Private else Entire;
      assert t.Value() == s;
    }
  }

  /** The request body as the validation pipe receives it. */
  datatype Body = Body(
    title: Json, description: Json, accommodationType: Json,
    pricePerNight: Json, maxGuests: Json,
    address: Json, city: Json, country: Json,
    latitude: Json, longitude: Json,
    amenities: Json, images: Json)

  /** The decorators of the DTO class, property by property. */
  predicate Valid(b: Body) {
    && IsString(b.title) && IsNotEmpty(b.title)
    && IsString(b.description) && IsNotEmpty(b.description)
    && IsEnumValue(b.accommodationType, AccommodationTypeValues) && IsNotEmpty(b.accommodationType)
    && IsNumber(b.pricePerNight) && MinValue(b.pricePerNight, 0.0)
    && IsNumber(b.maxGuests) && MinValue(b.maxGuests, 1.0) && MaxValue(b.maxGuests, 20.0)
    && IsString(b.address) && IsNotEmpty(b.address)
    && IsString(b.city) && IsNotEmpty(b.city)
    && IsString(b.country) && IsNotEmpty(b.country)
    && IsNumber(b.latitude) && MinValue(b.latitude, -90.0) && MaxValue(b.latitude, 90.0)
    && IsNumber(b.longitude) && MinValue(b.longitude, -180.0) && MaxValue(b.longitude, 180.0)
    && IsArray(b.amenities) && IsStringEach(b.amenities)
    && IsArray(b.images) && IsStringEach(b.images)
  }

  /** The validated DTO as the service reads it. */
  datatype Dto = Dto(
    title: string, description: string, accommodationType: string,
    pricePerNight: real, maxGuests: int,
    address: string, city: string, country: string,
    latitude: real, longitude: real,
    amenities: seq<string>, images: seq<string>)

  /** A body is accepted exactly when each property satisfies its stated
      constraint. */
  lemma ValidMeans(b: Body)
    ensures Valid(b) <==>
      && b.title.Str? && b.title.s != ""
      && b.description.Str? && b.description.s != ""
      && b.accommodationType.Str? && (exists t: AccommodationType :: t.Value() == b.accommodationType.s)
      && b.pricePerNight.Num? && b.pricePerNight.n >= 0.0
      && b.maxGuests.Num? && 1.0 <= b.maxGuests.n <= 20.0
      && b.address.Str? && b.address.s != ""
      && b.city.Str? && b.city.s != ""
      && b.country.Str? && b.country.s != ""
      && b.latitude.Num? && -90.0 <= b.latitude.n <= 90.0
      && b.longitude.Num? && -180.0 <= b.longitude.n <= 180.0
      && b.amenities.Arr? && (forall i | 0 <= i < |b.amenities.items| :: b.amenities.items[i].Str?)
      && b.images.Arr? && (forall i | 0 <= i < |b.images.items| :: b.images.items[i].Str?)
  {
    if b.accommodationType.Str? {
      EnumValues(b.accommodationType.s);
    }
  }

  /** A body every check accepts, used to probe single properties. */
  const Sample: Body := Body(
    Str("Loft"), Str("Bright loft"), Str("entire"), Num(80.0), Num(2.0),
    Str("1 Main St"), Str("Lisbon"), Str("Portugal"), Num(38.7), Num(-9.1),
    Arr([Str("wifi")]), Arr([]))

  /** The bounds of the guest count, the coordinates and the price are
      inclusive; the type must be one of the four enum values. */
  lemma Boundaries()
    ensures Valid(Sample)
    ensures Valid(Sample.(maxGuests := Num(20.0))) && !Valid(Sample.(maxGuests := Num(21.0)))
    ensures Valid(Sample.(maxGuests := Num(1.0))) && !Valid(Sample.(maxGuests := Num(0.0)))
    ensures Valid(Sample.(latitude := Num(-90.0))) && !Valid(Sample.(latitude := Num(90.5)))
    ensures Valid(Sample.(longitude := Num(180.0))) && !Valid(Sample.(longitude := Num(-180.5)))
    ensures Valid(Sample.(pricePerNight := Num(0.0))) && !Valid(Sample.(pricePerNight := Num(-1.0)))
    ensures !Valid(Sample.(accommodationType := Str("castle")))
    ensures !Valid(Sample.(images := Arr([Num(1.0)])))
    ensures !Valid(Sample.(title := Str("")))
  {
    assert !IsStringEach(Arr([Num(1.0)])) by {
      assert !Arr([Num(1.0)]).items[0].Str?;
    }
  }
}
