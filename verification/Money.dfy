/**
 The two conversions from a BTC amount in floating point to satoshis: through an eight-decimal
 string (node adapter, chain processor) and by multiplying and rounding (Kraken adapter).

 A double is modelled as the real it denotes; a correctly rounded operation yields a real within
 relative error 2^-53 of the exact result.
 */
module Money {
  import opened Positional

  const SATS: nat := 100_000_000
  const TWO_53: real := 9007199254740992.0

  function Abs(x: real): real
  {
    if x < 0.0 then -x else x
  }

  /** `v` is a possible result of correctly rounding `exact`. */
  ghost predicate Rounds(v: real, exact: real)
  {
    Abs(v - exact) <= Abs(exact) / TWO_53
  }

  /** Nearest integer, ties to even: the rounding of `round` and of fixed-point formatting. */
  function RoundHalfEven(y: real): int
  {
    var f := y.Floor;
    var rest := y - f as real;
    if rest < 0.5 then f else if rest > 0.5 then f + 1 else if f % 2 == 0 then f else f + 1
  }

  lemma RoundsToNearest(y: real, n: int)
    requires Abs(y - n as real) < 0.5 || (Abs(y - n as real) == 0.5 && n % 2 == 0)
    ensures RoundHalfEven(y) == n
  {
    var f := y.Floor;
    if y >= n as real {
      assert f == n;
    } else {
      assert f == n - 1;
    }
  }

  /////////////////////////////////////////////////////////////////////////////
  // Decimal text
  /////////////////////////////////////////////////////////////////////////////

  function Char(d: nat): char
    requires d < 10
  {
    ('0' as int + d) as char
  }

  function Text(ds: seq<nat>): (s: string)
    requires InBase(ds, 10)
    ensures |s| == |ds| && forall i :: 0 <= i < |s| ==> '0' <= s[i] <= '9'
  {
    seq(|ds|, i requires 0 <= i < |ds| => Char(ds[i]))
  }

  predicate IsNumeral(s: string)
  {
    |s| > 0 && forall i :: 0 <= i < |s| ==> '0' <= s[i] <= '9'
  }

  /** `int(s)` on a string of decimal digits. */
  function ParseNat(s: string): nat
    requires forall i :: 0 <= i < |s| ==> '0' <= s[i] <= '9'
  {
    Value(seq(|s|, i requires 0 <= i < |s| => (s[i] as int - '0' as int) as nat), 10)
  }

  lemma ParseText(ds: seq<nat>)
    requires InBase(ds, 10)
    ensures ParseNat(Text(ds)) == Value(ds, 10)
  {
    var s := Text(ds);
    assert seq(|s|, i requires 0 <= i < |s| => (s[i] as int - '0' as int) as nat) == ds;
  }

  /** Plain decimal, "0" for zero. */
  function Numeral(n: nat): string
  {
    DigitsProper(n, 10);
    if n == 0 then "0" else Text(Digits(n, 10))
  }

  lemma {:induction false} DigitCount(n: nat, k: nat, bound: nat)
    requires k == 0 ==> n == 0
    requires k > 0 ==> n < 10 * bound
    requires bound == Power10(if k == 0 then 0 else k - 1)
    ensures |Digits(n, 10)| <= k
    decreases k
  {
    if k > 0 && n > 0 {
      assert Digits(n, 10) == Digits(n / 10, 10) + [n % 10];
      if k == 1 {
        DigitCount(n / 10, 0, 1);
      } else {
        DigitCount(n / 10, k - 1, Power10(k - 2));
      }
    }
  }

  function Power10(k: nat): nat
  {
    if k == 0 then 1 else 10 * Power10(k - 1)
  }

  lemma EightDigits(n: nat)
    requires n < SATS
    ensures InBase(Digits(n, 10), 10) && |Digits(n, 10)| <= 8
  {
    DigitsProper(n, 10);
    assert Power10(1) == 10 && Power10(2) == 100 && Power10(3) == 1000 && Power10(4) == 10000;
    assert Power10(5) == 100000 && Power10(6) == 1000000 && Power10(7) == 10000000;
    DigitCount(n, 8, 10_000_000);
  }

  /** Eight digits, padded on the left. */
  function Padded8(n: nat): (s: string)
    requires n < SATS
    ensures |s| == 8
  {
    EightDigits(n);
    Text(Zeros(8 - |Digits(n, 10)|) + Digits(n, 10))
  }

  lemma ParseNumeral(n: nat)
    ensures IsNumeral(Numeral(n)) && ParseNat(Numeral(n)) == n
  {
    DigitsProper(n, 10);
    DigitsDenote(n, 10);
    if n == 0 {
      assert Numeral(n) == Text([0]);
      ParseText([0]);
      assert [0][..0] == [];
    } else {
      ParseText(Digits(n, 10));
    }
  }

  lemma ParsePadded8(n: nat)
    requires n < SATS
    ensures IsNumeral(Padded8(n)) && ParseNat(Padded8(n)) == n
  {
    EightDigits(n);
    DigitsDenote(n, 10);
    var k := 8 - |Digits(n, 10)|;
    ParseText(Zeros(k) + Digits(n, 10));
    ValueOfPadded(k, Digits(n, 10), 10);
  }

  /////////////////////////////////////////////////////////////////////////////
  // Formatting and parsing an amount
  /////////////////////////////////////////////////////////////////////////////

  /** sign, whole BTC, point, eight decimals */
  function AmountText(negative: bool, sats: nat): string
  {
    (if negative then "-" else "") + Numeral(sats / SATS) + "." + Padded8(sats % SATS)
  }

  /** `_sats_to_btc_string` */
  function SatsToBtcString(sats: int): string
  {
    AmountText(sats < 0, if sats < 0 then -sats else sats)
  }

  /** `f"{x:.8f}"` */
  function Fixed8(x: real): string
  {
    AmountText(x < 0.0, FixedMagnitude(x))
  }

  function FixedMagnitude(x: real): nat
  {
    RoundHalfEven(Abs(x) * SATS as real)
  }

  /** Position of the first point, or the length. */
  function PointAt(s: string): (k: nat)
    ensures k <= |s| && (k < |s| ==> s[k] == '.') && forall i :: 0 <= i < k ==> s[i] != '.'
  {
    if s == "" then 0 else if s[0] == '.' then 0 else 1 + PointAt(s[1..])
  }

  predicate IsAmount(s: string)
  {
    var k := PointAt(s);
    var integer := s[..k];
    && k < |s|
    && IsNumeral(if integer != "" && integer[0] == '-' then integer[1..] else integer)
    && IsNumeral((s[k + 1..] + "00000000")[..8])
  }

  /** What `_btc_to_sats` does with the text: partition at the point, sign, digits. */
  function ParseAmount(s: string): int
    requires IsAmount(s)
  {
    var k := PointAt(s);
    var integer, fractional := s[..k], (s[k + 1..] + "00000000")[..8];
    var negative := integer != "" && integer[0] == '-';
    var whole := ParseNat(if negative then integer[1..] else integer);
    (if negative then -1 else 1) * (whole * SATS + ParseNat(fractional))
  }

  /** Parsing undoes formatting, for every sign and magnitude. */
  lemma ParseAmountText(negative: bool, sats: nat)
    ensures IsAmount(AmountText(negative, sats))
    ensures ParseAmount(AmountText(negative, sats)) == if negative then -(sats as int) else sats
  {
    var whole, fractional := Numeral(sats / SATS), Padded8(sats % SATS);
    ParseNumeral(sats / SATS);
    ParsePadded8(sats % SATS);
    var integer := (if negative then "-" else "") + whole;
    var s := AmountText(negative, sats);
    assert s == integer + "." + fractional;
    assert forall i :: 0 <= i < |integer| ==> integer[i] != '.';
    assert s[|integer|] == '.';
    assert PointAt(s) == |integer|;
    assert s[..|integer|] == integer;
    assert (s[|integer| + 1..] + "00000000")[..8] == fractional;
    if negative {
      assert integer[1..] == whole;
    } else {
      assert integer == whole;
    }
  }

  /** Whole BTC without a leading zero, a point and eight decimals, with a sign exactly for a negative amount. */
  lemma SatsStringShape(sats: int)
    ensures var s := SatsToBtcString(sats);
            var start := if sats < 0 then 1 else 0;
            && |s| >= start + 10
            && (s[0] == '-' <==> sats < 0)
            && s[|s| - 9] == '.'
            && (forall i :: start <= i < |s| && i != |s| - 9 ==> '0' <= s[i] <= '9')
            && (s[start] == '0' ==> |s| == start + 10)
  {
    var n: nat := if sats < 0 then -sats else sats;
    NumeralShape(n / SATS);
    ParsePadded8(n % SATS);
    var whole, fractional := Numeral(n / SATS), Padded8(n % SATS);
    var sign := if sats < 0 then "-" else "";
    assert SatsToBtcString(sats) == sign + whole + "." + fractional;
  }

  lemma NumeralShape(n: nat)
    ensures IsNumeral(Numeral(n)) && (Numeral(n)[0] == '0' ==> |Numeral(n)| == 1)
  {
    ParseNumeral(n);
    DigitsProper(n, 10);
  }

  /** Formatting satoshis and reading them back is the identity, for every amount. */
  lemma SatsRoundTrip(sats: int)
    ensures IsAmount(SatsToBtcString(sats)) && ParseAmount(SatsToBtcString(sats)) == sats
  {
    ParseAmountText(sats < 0, if sats < 0 then -sats else sats);
  }

  /** `_btc_to_sats` of the node adapter and the chain processor. */
  function BtcToSats(x: real): int
  {
    ParseAmountText(x < 0.0, FixedMagnitude(x));
    ParseAmount(Fixed8(x))
  }

  /** `_btc_to_sats` of the Kraken adapter: `product` is the rounded product of amount and 10^8. */
  function KrakenToSats(product: real): int
  {
    RoundHalfEven(product)
  }

  /** The detour through text computes the nearest integer, ties to even, in absolute value. */
  lemma BtcToSatsRounds(x: real)
    ensures BtcToSats(x) ==
            if x < 0.0 then -RoundHalfEven(Abs(x) * SATS as real) else RoundHalfEven(Abs(x) * SATS as real)
  {
    ParseAmountText(x < 0.0, FixedMagnitude(x));
  }

  /////////////////////////////////////////////////////////////////////////////
  // The rounding bounds
  /////////////////////////////////////////////////////////////////////////////

  function Exact(s: int): real
  {
    s as real / SATS as real
  }

  /** The text path is exact for every rounding error of every amount up to 2^52 satoshis, and no further. */
  lemma TextPathExact(s: int)
    ensures (forall x: real :: Rounds(x, Exact(s)) ==> BtcToSats(x) == s) <==>
              -4503599627370496 <= s <= 4503599627370496
  {
    if -4503599627370496 <= s <= 4503599627370496 {
      forall x: real | Rounds(x, Exact(s)) ensures BtcToSats(x) == s { TextPathReturns(s, x); }
    } else {
      var x := Exact(s) + Exact(s) / TWO_53;
      TextPathMisses(s, x);
    }
  }

  /** The error of the double, in satoshis, and its sign. */
  lemma ScaledError(s: int, x: real)
    requires Rounds(x, Exact(s))
    ensures s < 0 <==> x < 0.0
    ensures Abs(Abs(x) * SATS as real - Abs(s as real)) <= Abs(s as real) / TWO_53
  {
    if s < 0 {
      assert x <= Exact(s) - Exact(s) / TWO_53;
    } else {
      assert x >= Exact(s) - Exact(s) / TWO_53;
    }
  }

  lemma TextPathReturns(s: int, x: real)
    requires -4503599627370496 <= s <= 4503599627370496 && Rounds(x, Exact(s))
    ensures BtcToSats(x) == s
  {
    ScaledError(s, x);
    NearestOfSmallError(Abs(x) * SATS as real, if s < 0 then -s else s);
    BtcToSatsRounds(x);
  }

  lemma NearestOfSmallError(y: real, m: nat)
    requires m <= 4503599627370496 && Abs(y - m as real) <= m as real / TWO_53
    ensures RoundHalfEven(y) == m
  {
    assert m < 4503599627370496 ==> m as real / TWO_53 < 0.5;
    RoundsToNearest(y, m);
  }

  lemma TextPathMisses(s: int, x: real)
    requires (s < -4503599627370496 || s > 4503599627370496) && x == Exact(s) + Exact(s) / TWO_53
    ensures Rounds(x, Exact(s)) && BtcToSats(x) != s
  {
    BtcToSatsRounds(x);
    var m := if s < 0 then -s else s;
    var y := Abs(x) * SATS as real;
    assert y == m as real + m as real / TWO_53;
    assert y > m as real + 0.5;
    assert RoundHalfEven(y) > m;
  }

  /** The product path, with a second rounding error, is exact below 2^51 satoshis, and no further. */
  lemma ProductPathExact(s: int)
    ensures (forall x: real, product: real ::
               Rounds(x, Exact(s)) && Rounds(product, x * SATS as real) ==> KrakenToSats(product) == s)
            <==> -2251799813685248 < s < 2251799813685248
  {
    if -2251799813685248 < s < 2251799813685248 {
      forall x: real, product: real | Rounds(x, Exact(s)) && Rounds(product, x * SATS as real)
        ensures KrakenToSats(product) == s
      {
        ProductPathReturns(s, x, product);
      }
    } else {
      var x := Exact(s) + Exact(s) / TWO_53;
      var y := x * SATS as real;
      var product := y + y / TWO_53;
      ProductPathMisses(s, x, product);
      assert Rounds(x, Exact(s)) && Rounds(product, x * SATS as real);
    }
  }

  lemma ProductPathReturns(s: int, x: real, product: real)
    requires -2251799813685248 < s < 2251799813685248 && Rounds(x, Exact(s)) && Rounds(product, x * SATS as real)
    ensures KrakenToSats(product) == s
  {
    var m := if s < 0 then -s else s;
    var y := x * SATS as real;
    assert Abs(y - s as real) <= m as real / TWO_53;
    assert Abs(y) <= m as real + m as real / TWO_53;
    assert Abs(product - s as real) <= m as real / TWO_53 + (m as real + m as real / TWO_53) / TWO_53;
    assert Abs(product - s as real) < 0.5;
    RoundsToNearest(product, s);
  }

  lemma ProductPathMisses(s: int, x: real, product: real)
    requires s <= -2251799813685248 || s >= 2251799813685248
    requires x == Exact(s) + Exact(s) / TWO_53 && product == x * SATS as real + x * SATS as real / TWO_53
    ensures Rounds(x, Exact(s)) && Rounds(product, x * SATS as real) && KrakenToSats(product) != s
  {
    var y := x * SATS as real;
    assert y == s as real + s as real / TWO_53;
    assert s > 0 ==> product > s as real + 0.5;
    assert s < 0 ==> product < s as real - 0.5;
  }

  /** The supply of 21 million BTC is inside both bounds, so the two conversions agree on every amount. */
  lemma ConversionsAgree(s: int, x: real, product: real)
    requires -2_100_000_000_000_000 <= s <= 2_100_000_000_000_000
    requires Rounds(x, Exact(s)) && Rounds(product, x * SATS as real)
    ensures BtcToSats(x) == s == KrakenToSats(product)
  {
    TextPathReturns(s, x);
    ProductPathReturns(s, x, product);
  }
}
