/** Shared vocabulary of the marketplace backend: identifiers, optional and
    failure-carrying results, the HTTP exceptions the services throw, the
    integer arithmetic of ceilings, and the string helpers behind query
    filters. */
module Common {

  /** Database identifiers are opaque strings. */
  type Id = string

  /** A strictly positive integer (page numbers and page sizes). */
  type Positive = n: int | n >= 1 witness 1

  datatype Option<+T> = None | Some(value: T) {
    function GetOr(default: T): T {
      match this
      case Some(v) => v
      case None => default
    }
  }

  datatype Result<+T, +E> = Success(value: T) | Failure(error: E)

  /** The exceptions a service method can end with. The first three are the
      NestJS HTTP exceptions the services throw explicitly; the last stands for
      a plain JavaScript error escaping a service, which the framework turns
      into a 500 response. */
  datatype Exception =
    | NotFound(message: string)
    | BadRequest(message: string)
    | Forbidden(message: string)
    | InternalServerError

  function Min(a: int, b: int): int { if a <= b then a else b }

  function Max(a: int, b: int): int { if a <= b then b else a }

  /** `Math.ceil(n / d)` for an integer n and a positive integer d: the least
      q with n <= q * d. */
  function CeilDiv(n: int, d: Positive): (q: int)
    ensures (q - 1) * d < n <= q * d
  {
    var f := n / d;
    assert n == f * d + n % d;
    if n % d == 0 then f else f + 1
  }

  /** The ceiling is zero exactly for zero, and positive for positive n. */
  lemma CeilDivZero(n: nat, d: Positive)
    ensures CeilDiv(n, d) == 0 <==> n == 0
    ensures n > 0 ==> CeilDiv(n, d) >= 1
  {
  }

  /** A query-string parameter is acted on only when it is truthy: present
      and not the empty string. */
  predicate Given(p: Option<string>) {
    p.Some? && p.value != ""
  }

  /** ASCII lower-casing of one character. */
  function Lower(c: char): char {
    if 'A' <= c <= 'Z' then (c as int + 32) as char else c
  }

  function LowerAll(s: string): (r: string)
    ensures |r| == |s|
    ensures forall i | 0 <= i < |s| :: r[i] == Lower(s[i])
  {
    seq(|s|, i requires 0 <= i < |s| => Lower(s[i]))
  }

  /** needle occurs in hay starting at position i. */
  predicate OccursAt(needle: string, hay: string, i: int) {
    0 <= i <= |hay| - |needle| && hay[i..i + |needle|] == needle
  }

  /** needle occurs as a contiguous block of hay. */
  predicate IsSubstring(needle: string, hay: string) {
    exists i | 0 <= i <= |hay| - |needle| :: OccursAt(needle, hay, i)
  }

  /** The database's case-insensitive `contains` filter, with ASCII
      lower-casing standing for the collation. */
  predicate ContainsInsensitive(hay: string, needle: string) {
    IsSubstring(LowerAll(needle), LowerAll(hay))
  }

  /** A needle that equals the whole string up to ASCII case is found in
      it. */
  lemma SameUpToCaseContains(hay: string, needle: string)
    requires LowerAll(needle) == LowerAll(hay)
    ensures ContainsInsensitive(hay, needle)
  {
    assert OccursAt(LowerAll(needle), LowerAll(hay), 0);
  }

  /** Decimal digits of a natural number. */
  function NatToString(n: nat): (s: string)
    ensures |s| >= 1
    ensures forall i | 0 <= i < |s| :: '0' <= s[i] <= '9'
    decreases n
  {
    var d := ['0' + (n % 10) as char];
    if n < 10 then d else NatToString(n / 10) + d
  }

  /** How a JavaScript template literal prints an integer. */
  function IntToString(n: int): string {
    if n < 0 then "-" + NatToString(-n) else NatToString(n)
  }
}
