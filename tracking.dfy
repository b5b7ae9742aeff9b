/** `generateTrackingNumber` of src/orders/orders.service.ts: "TRK-", the
    clock in milliseconds in upper-case base 36, "-", and up to six upper-case
    base-36 digits of a random fraction. The clock reading and the digits
    `Math.random().toString(36)` prints after "0." are parameters. */
module Tracking {
  import opened Common
  import opened Strings

  const TRACKING_PREFIX := "TRK"

  /** The base-36 digit for `d`, lower case as `toString(36)` writes it. */
  function Digit36(d: nat): char
    requires d < 36
  {
    if d < 10 then ('0' as int + d) as char else ('a' as int + d - 10) as char
  }

  predicate IsBase36Upper(ch: char)
  {
    IsDigit(ch) || IsUpperAscii(ch)
  }

  /** The value of an upper-case base-36 digit. */
  function DigitValue(ch: char): (d: nat)
    requires IsBase36Upper(ch)
    ensures d < 36
  {
    if IsDigit(ch) then ch as int - '0' as int else ch as int - 'A' as int + 10
  }

  /** `n.toString(36)`: the digits of `n` in base 36, most significant first. */
  function Base36(n: nat): (r: string)
    ensures |r| >= 1
    ensures forall i :: 0 <= i < |r| ==> IsBase36Upper(UpperChar(r[i]))
  {
    if n < 36 then [Digit36(n)] else Base36(n / 36) + [Digit36(n % 36)]
  }

  /** The number an upper-case base-36 numeral denotes. */
  function ParseBase36(s: string): nat
    requires forall i :: 0 <= i < |s| ==> IsBase36Upper(s[i])
  {
    if s == [] then 0 else ParseBase36(s[..|s| - 1]) * 36 + DigitValue(s[|s| - 1])
  }

  lemma {:induction false} ToUpperAppend(a: string, ch: char)
    ensures ToUpper(a + [ch]) == ToUpper(a) + [UpperChar(ch)]
  {
    assert |ToUpper(a + [ch])| == |ToUpper(a) + [UpperChar(ch)]|;
    forall i | 0 <= i < |a| + 1
      ensures ToUpper(a + [ch])[i] == (ToUpper(a) + [UpperChar(ch)])[i]
    {
      if i < |a| {
        assert (a + [ch])[i] == a[i];
      }
    }
  }

  /** Upper-casing loses nothing: the numeral still denotes the clock. */
  lemma {:induction false} ParseBase36Upper(n: nat)
    ensures ParseBase36(ToUpper(Base36(n))) == n
  {
    var d := Digit36(n % 36);
    assert DigitValue(UpperChar(d)) == n % 36;
    if n >= 36 {
      ToUpperAppend(Base36(n / 36), d);
      var u := ToUpper(Base36(n / 36) + [d]);
      assert u[..|u| - 1] == ToUpper(Base36(n / 36));
      ParseBase36Upper(n / 36);
    }
  }

  /** The text `Math.random().toString(36)` printed: "0." and the fraction
      digits, or "0" when the draw was exactly 0. */
  function RandomText(fraction: string): string
  {
    if fraction == [] then "0" else "0." + fraction
  }

  /** The random segment: characters 2 to 8 of that text, upper-cased. */
  function RandomPart(fraction: string): (r: string)
    ensures |r| <= 6
    ensures r == [] <==> fraction == []
    ensures |fraction| >= 6 ==> r == ToUpper(fraction[..6])
  {
    var text := RandomText(fraction);
    var picked := Substring(text, 2, 8);
    assert fraction != [] ==> picked == fraction[..if |fraction| < 6 then |fraction| else 6];
    ToUpper(picked)
  }

  function GenerateTrackingNumber(clockMs: nat, fraction: string): string
  {
    TRACKING_PREFIX + "-" + ToUpper(Base36(clockMs)) + "-" + RandomPart(fraction)
  }

  /** The clock a tracking number was generated at, read back from its
      middle segment; None for text not of that shape. */
  function ClockOf(trackingNumber: string): Option<nat>
  {
    var parts := Split(trackingNumber, '-');
    if |parts| == 3 && parts[0] == TRACKING_PREFIX && parts[1] != []
       && forall i :: 0 <= i < |parts[1]| ==> IsBase36Upper(parts[1][i])
    then Some(ParseBase36(parts[1]))
    else None
  }

  /** Every fraction the random source can print is base-36 digits. */
  predicate IsFraction(fraction: string)
  {
    forall i :: 0 <= i < |fraction| ==> IsDigit(fraction[i]) || IsLowerAscii(fraction[i])
  }

  /** A tracking number is "TRK", the clock segment and the random segment
      joined by dashes, and uses only digits and capital letters in both. */
  lemma TrackingNumberShape(clockMs: nat, fraction: string)
    requires IsFraction(fraction)
    ensures var t := ToUpper(Base36(clockMs)); var r := RandomPart(fraction);
      && GenerateTrackingNumber(clockMs, fraction) == Join([TRACKING_PREFIX, t, r], "-")
      && |t| >= 1 && |r| <= 6
      && (forall i :: 0 <= i < |t| ==> IsBase36Upper(t[i]))
      && (forall i :: 0 <= i < |r| ==> IsBase36Upper(r[i]))
  {
    var t := ToUpper(Base36(clockMs));
    var r := RandomPart(fraction);
    assert [TRACKING_PREFIX, t, r][1..] == [t, r];
    assert [t, r][1..] == [r];
    assert Join([t, r], "-") == t + "-" + r;
    assert Join([TRACKING_PREFIX, t, r], "-") == TRACKING_PREFIX + "-" + (t + "-" + r);
    var text := RandomText(fraction);
    var picked := Substring(text, 2, 8);
    forall i | 0 <= i < |r|
      ensures IsBase36Upper(r[i])
    {
      assert picked == fraction[..if |fraction| < 6 then |fraction| else 6];
      assert picked[i] == fraction[i];
    }
  }

  /** The round trip: the clock comes back out of the tracking number. */
  lemma ClockRoundTrip(clockMs: nat, fraction: string)
    requires IsFraction(fraction)
    ensures ClockOf(GenerateTrackingNumber(clockMs, fraction)) == Some(clockMs)
  {
    TrackingNumberShape(clockMs, fraction);
    var t := ToUpper(Base36(clockMs));
    var r := RandomPart(fraction);
    forall i | 0 <= i < |t| ensures t[i] != '-' { }
    forall i | 0 <= i < |r| ensures r[i] != '-' { }
    SplitJoin([TRACKING_PREFIX, t, r], '-');
    ParseBase36Upper(clockMs);
  }

  /** Two orders created at different milliseconds never share a tracking
      number, whatever the random draws were. */
  lemma DistinctClocksDistinctNumbers(c1: nat, f1: string, c2: nat, f2: string)
    requires IsFraction(f1) && IsFraction(f2)
    requires c1 != c2
    ensures GenerateTrackingNumber(c1, f1) != GenerateTrackingNumber(c2, f2)
  {
    ClockRoundTrip(c1, f1);
    ClockRoundTrip(c2, f2);
  }

  /** Within one millisecond only the first six fraction digits tell two
      numbers apart: draws that agree on them collide. */
  lemma SameMillisecondCollision(clockMs: nat, f1: string, f2: string)
    requires |f1| >= 6 && |f2| >= 6 && f1[..6] == f2[..6]
    ensures GenerateTrackingNumber(clockMs, f1) == GenerateTrackingNumber(clockMs, f2)
  {
  }
}
