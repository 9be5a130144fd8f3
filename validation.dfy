/** The request-body checks of the class-validator library, as predicates over
    the JSON value a property holds. A missing property reads as Undefined. */
module Validation {

  datatype Json =
    | Undefined
    | Null
    | Bool(b: bool)
    | Num(n: real)
    | Str(s: string)
    | Arr(items: seq<Json>)
    | Obj(fields: map<string, Json>)

  /** `@IsString()`: a string value. */
  predicate IsString(v: Json) { v.Str? }

  /** `@IsNotEmpty()`: anything but the empty string, null and undefined. */
  predicate IsNotEmpty(v: Json) {
    v != Str("") && v != Null && v != Undefined
  }

  /** `@IsNumber()`: a number value (JSON has no NaN or infinity). */
  predicate IsNumber(v: Json) { v.Num? }

  /** `@Min(bound)`: a number at least bound. */
  predicate MinValue(v: Json, bound: real) { v.Num? && v.n >= bound }

  /** `@Max(bound)`: a number at most bound. */
  predicate MaxValue(v: Json, bound: real) { v.Num? && v.n <= bound }

  /** `@IsBoolean()`. */
  predicate IsBoolean(v: Json) { v.Bool? }

  /** `@IsArray()`. */
  predicate IsArray(v: Json) { v.Arr? }

  /** `@IsString({ each: true })`: each element of an array is a string; a
      value that is not an array is checked itself. */
  predicate IsStringEach(v: Json) {
    if v.Arr? then forall i | 0 <= i < |v.items| :: v.items[i].Str? else v.Str?
  }

  /** `@IsEnum(E)` for a string enum: one of the enum's values. */
  predicate IsEnumValue(v: Json, values: seq<string>) {
    v.Str? && v.s in values
  }

  /** `@IsDateString()`: a string the ISO 8601 recogniser accepts. The
      recogniser of the validator library is a parameter of the model. */
  predicate IsDateString(v: Json, isIsoDate: string -> bool) {
    v.Str? && isIsoDate(v.s)
  }

  /** `@IsOptional()`: null or undefined skips every other check of the
      property; otherwise those checks decide. */
  predicate Optional(v: Json, checks: bool) {
    v == Undefined || v == Null || checks
  }
}
