/** Big-endian positional notation in any base: the arithmetic behind the codecs. */
module Positional {

  type Base = b: nat | b >= 2 witness 2

  function Value(ds: seq<nat>, b: Base): nat
  {
    if ds == [] then 0 else Value(ds[..|ds| - 1], b) * b + ds[|ds| - 1]
  }

  function Digits(n: nat, b: Base): seq<nat>
  {
    if n == 0 then [] else Digits(n / b, b) + [n % b]
  }

  ghost predicate InBase(ds: seq<nat>, b: Base)
  {
    forall i :: 0 <= i < |ds| ==> ds[i] < b
  }

  function Zeros(k: nat): seq<nat>
  {
    seq(k, _ => 0)
  }

  function LeadingZeros(ds: seq<nat>): nat
    ensures LeadingZeros(ds) <= |ds|
  {
    if ds == [] || ds[0] != 0 then 0 else 1 + LeadingZeros(ds[1..])
  }

  lemma NoMultipleBetween(x: int, b: int)
    requires b > 0 && -b < x * b < b
    ensures x == 0
  {
  }

  lemma DivModUnique(q: nat, b: Base, r: nat)
    requires r < b
    ensures (q * b + r) / b == q && (q * b + r) % b == r
  {
    var n := q * b + r;
    assert (q - n / b) * b == n % b - r;
    NoMultipleBetween(q - n / b, b);
  }

  lemma DivMod(n: nat, b: Base) returns (q: nat, r: nat)
    requires n > 0
    ensures q == n / b && r == n % b && n == q * b + r && r < b && q < n
  {
    q, r := n / b, n % b;
  }

  lemma ValueAppend(ds: seq<nat>, d: nat, b: Base)
    ensures Value(ds + [d], b) == Value(ds, b) * b + d
  {
    assert (ds + [d])[..|ds|] == ds;
  }

  /** The digits of a number denote it. */
  lemma {:induction false} DigitsDenote(n: nat, b: Base)
    ensures Value(Digits(n, b), b) == n
    decreases n
  {
    if n > 0 {
      var q, r := DivMod(n, b);
      DigitsDenote(q, b);
      ValueAppend(Digits(q, b), r, b);
    }
  }

  /** They are in range and do not start with zero. */
  lemma {:induction false} DigitsProper(n: nat, b: Base)
    ensures InBase(Digits(n, b), b)
    ensures n > 0 <==> Digits(n, b) != []
    ensures n > 0 ==> Digits(n, b)[0] != 0
    decreases n
  {
    if n > 0 {
      var q, r := DivMod(n, b);
      DigitsProper(q, b);
      assert Digits(n, b) == Digits(q, b) + [r];
      if q == 0 { assert n == r; }
    }
  }

  lemma {:induction false} LeadingZerosLast(ds: seq<nat>)
    requires ds != []
    ensures var init := ds[..|ds| - 1];
            LeadingZeros(ds) == if LeadingZeros(init) == |init| && ds[|ds| - 1] == 0 then |ds| else LeadingZeros(init)
  {
    if |ds| > 1 && ds[0] == 0 {
      assert ds[1..][..|ds| - 2] == ds[..|ds| - 1][1..];
      LeadingZerosLast(ds[1..]);
    }
  }

  /** A digit string is its leading zeros followed by the digits of its value. */
  lemma {:induction false} Canonical(ds: seq<nat>, b: Base)
    requires InBase(ds, b)
    ensures ds == Zeros(LeadingZeros(ds)) + Digits(Value(ds, b), b)
    ensures Value(ds, b) == 0 <==> LeadingZeros(ds) == |ds|
  {
    if ds != [] {
      var init, d := ds[..|ds| - 1], ds[|ds| - 1];
      Canonical(init, b);
      LeadingZerosLast(ds);
      DivModUnique(Value(init, b), b, d);
      if Value(ds, b) == 0 {
        assert Value(init, b) == 0 && d == 0;
      } else {
        assert Digits(Value(ds, b), b) == Digits(Value(init, b), b) + [d];
      }
    }
  }

  lemma {:induction false} LeadingZerosOfPadded(k: nat, ds: seq<nat>)
    requires ds == [] || ds[0] != 0
    ensures LeadingZeros(Zeros(k) + ds) == k
  {
    var padded := Zeros(k) + ds;
    if k > 0 {
      assert padded[1..] == Zeros(k - 1) + ds;
      LeadingZerosOfPadded(k - 1, ds);
    }
  }

  lemma {:induction false} ValueOfPadded(k: nat, ds: seq<nat>, b: Base)
    ensures Value(Zeros(k) + ds, b) == Value(ds, b)
  {
    if ds != [] {
      assert (Zeros(k) + ds)[..k + |ds| - 1] == Zeros(k) + ds[..|ds| - 1];
      ValueOfPadded(k, ds[..|ds| - 1], b);
    } else if k > 0 {
      assert Zeros(k)[..k - 1] == Zeros(k - 1);
      assert Zeros(k) + [] == Zeros(k) && Zeros(k - 1) + [] == Zeros(k - 1);
      ValueOfPadded(k - 1, [], b);
    }
  }

  /** Recoding from one base to another and back, leading zeros carried over one for one. */
  function Recoded(ds: seq<nat>, from: Base, to: Base): seq<nat>
  {
    Zeros(LeadingZeros(ds)) + Digits(Value(ds, from), to)
  }

  /** Changing base and changing back is the identity, for every digit string and every two bases. */
  lemma RecodedInverse(ds: seq<nat>, from: Base, to: Base)
    requires InBase(ds, from)
    ensures InBase(Recoded(ds, from, to), to)
    ensures Recoded(Recoded(ds, from, to), to, from) == ds
  {
    var n, k := Value(ds, from), LeadingZeros(ds);
    DigitsDenote(n, to);
    DigitsProper(n, to);
    LeadingZerosOfPadded(k, Digits(n, to));
    ValueOfPadded(k, Digits(n, to), to);
    Canonical(ds, from);
  }
}
