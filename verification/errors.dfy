/** Go error values as they flow through the gateway and the user service. */
module Errors {

  /** The package-level sentinel errors declared in user-svc/service.go. */
  datatype SentinelKind = UserNotFound | InvalidArgument | RequiredField

  /**
   * An error value.  A sentinel has an identity of its own (Go compares the
   * address), so `Known(UserNotFound)` and `Msg("user not found")` are
   * different errors that print the same text.
   */
  datatype Error =
    | Msg(text: string)                        // errors.New(text)
    | Wrapped(context: string, cause: Error)   // fmt.Errorf("<context>: %w", cause)
    | Known(kind: SentinelKind)                // one of the sentinel errors
    | ListingUserMissing(listingId: int)       // fmt.Errorf("user not found for listing %d", id)

  /** The text of the not-found errors, which the user service compares against. */
  const NotFoundText := "user not found"

  function SentinelText(k: SentinelKind): string
  {
    match k
    case UserNotFound => NotFoundText
    case InvalidArgument => "invalid argument"
    case RequiredField => "required field missing"
  }

  predicate IsDigit(c: char)
  {
    '0' <= c <= '9'
  }

  function DigitChar(d: nat): (c: char)
    requires d < 10
    ensures IsDigit(c) && c as int - '0' as int == d
  {
    ('0' as int + d) as char
  }

  /** Decimal rendering of a natural number, most significant digit first, with no leading zero. */
  function NatDigits(n: nat): (r: string)
    ensures |r| >= 1 && (r[0] == '0' ==> n == 0)
    ensures forall i :: 0 <= i < |r| ==> IsDigit(r[i])
    decreases n
  {
    if n < 10 then [DigitChar(n)] else NatDigits(n / 10) + [DigitChar(n % 10)]
  }

  /** The `%d` verb of Go's fmt package: an optional minus sign, then the digits of the magnitude. */
  function Decimal(n: int): (r: string)
    ensures |r| >= 1
    ensures r[0] == '-' <==> n < 0
    ensures forall i :: (if n < 0 then 1 else 0) <= i < |r| ==> IsDigit(r[i])
  {
    if n < 0 then "-" + NatDigits(-n) else NatDigits(n)
  }

  /** The value a string of decimal digits denotes; the partner of NatDigits. */
  function DigitsValue(s: string): nat
    requires forall i :: 0 <= i < |s| ==> IsDigit(s[i])
  {
    if s == [] then 0
    else
      assert IsDigit(s[|s| - 1]);
      DigitsValue(s[..|s| - 1]) * 10 + (s[|s| - 1] as int - '0' as int)
  }

  /** Reading back what `%d` printed; the partner of Decimal. */
  function ReadDecimal(s: string): int
    requires |s| >= 1
    requires forall i :: (if s[0] == '-' then 1 else 0) <= i < |s| ==> IsDigit(s[i])
  {
    if s[0] == '-' then -(DigitsValue(s[1..]) as int) else DigitsValue(s)
  }

  lemma {:induction false} NatDigitsRoundTrip(n: nat)
    ensures DigitsValue(NatDigits(n)) == n
    decreases n
  {
    var r := NatDigits(n);
    if n >= 10 {
      NatDigitsRoundTrip(n / 10);
      assert r[..|r| - 1] == NatDigits(n / 10);
    }
  }

  /** A printed listing id reads back as the same id, so the message names the listing unambiguously. */
  lemma DecimalRoundTrip(n: int)
    ensures ReadDecimal(Decimal(n)) == n
  {
    if n < 0 {
      assert Decimal(n)[1..] == NatDigits(-n);
      NatDigitsRoundTrip(-n);
    } else {
      NatDigitsRoundTrip(n);
    }
  }

  /**
   * The string `err.Error()` returns. Only the plain message and the
   * sentinel print as the not-found text: a wrapped error carries a colon,
   * and the listing error is longer.
   */
  function Text(e: Error): (r: string)
    ensures r == NotFoundText ==> e == Msg(NotFoundText) || e == Known(UserNotFound)
  {
    match e
    case Msg(t) => t
    case Wrapped(c, cause) =>
      var r := c + ": " + Text(cause);
      assert r[|c|] == ':';
      assert forall i :: 0 <= i < |NotFoundText| ==> NotFoundText[i] != ':';
      r
    case Known(k) => SentinelText(k)
    case ListingUserMissing(id) => "user not found for listing " + Decimal(id)
  }
}
