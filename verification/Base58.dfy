/** The Base58 codec and the recoding of extended-key versions built on it. */
module Base58 {
  import opened Common
  import opened Positional

  type Byte = x: nat | x < 256

  /////////////////////////////////////////////////////////////////////////////
  // Alphabet
  /////////////////////////////////////////////////////////////////////////////

  function CharOf(i: nat): char
    requires i < 58
  {
    if i < 9 then ('1' as int + i) as char
    else if i < 17 then ('A' as int + i - 9) as char
    else if i < 22 then ('J' as int + i - 17) as char
    else if i < 33 then ('P' as int + i - 22) as char
    else if i < 44 then ('a' as int + i - 33) as char
    else ('m' as int + i - 44) as char
  }

  /** The lookup table; None where it has no key. */
  function Lookup(c: char): (r: Option<nat>)
    ensures r.Some? ==> r.value < 58 && CharOf(r.value) == c
    ensures r.None? ==> forall i: nat :: i < 58 ==> CharOf(i) != c
  {
    if '1' <= c <= '9' then Some(c as int - '1' as int)
    else if 'A' <= c <= 'H' then Some(c as int - 'A' as int + 9)
    else if 'J' <= c <= 'N' then Some(c as int - 'J' as int + 17)
    else if 'P' <= c <= 'Z' then Some(c as int - 'P' as int + 22)
    else if 'a' <= c <= 'k' then Some(c as int - 'a' as int + 33)
    else if 'm' <= c <= 'z' then Some(c as int - 'm' as int + 44)
    else None
  }

  lemma LookupInverts(i: nat)
    requires i < 58
    ensures Lookup(CharOf(i)) == Some(i)
  {
  }

  /** The ranges above spell the alphabet. */
  lemma AlphabetSpelled()
    ensures [CharOf(0), CharOf(1), CharOf(2), CharOf(3), CharOf(4), CharOf(5), CharOf(6), CharOf(7), CharOf(8),
            CharOf(9), CharOf(10), CharOf(11), CharOf(12), CharOf(13), CharOf(14), CharOf(15), CharOf(16),
            CharOf(17), CharOf(18), CharOf(19), CharOf(20), CharOf(21), CharOf(22), CharOf(23), CharOf(24),
            CharOf(25), CharOf(26), CharOf(27), CharOf(28), CharOf(29), CharOf(30), CharOf(31), CharOf(32),
            CharOf(33), CharOf(34), CharOf(35), CharOf(36), CharOf(37), CharOf(38), CharOf(39), CharOf(40),
            CharOf(41), CharOf(42), CharOf(43), CharOf(44), CharOf(45), CharOf(46), CharOf(47), CharOf(48),
            CharOf(49), CharOf(50), CharOf(51), CharOf(52), CharOf(53), CharOf(54), CharOf(55), CharOf(56),
            CharOf(57)] ==
            "123456789ABCDEFGHJKLMNPQRSTUVWXYZabcdefghijkmnopqrstuvwxyz"
  {
  }

  ghost predicate OverAlphabet(s: string)
  {
    forall i :: 0 <= i < |s| ==> Lookup(s[i]).Some?
  }

  function DigitsOf(s: string): (ds: seq<nat>)
    requires OverAlphabet(s)
    ensures |ds| == |s| && forall i :: 0 <= i < |s| ==> ds[i] < 58 && CharOf(ds[i]) == s[i]
  {
    seq(|s|, i requires 0 <= i < |s| => Lookup(s[i]).value)
  }

  function Spell(ds: seq<nat>): (s: string)
    requires InBase(ds, 58)
    ensures |s| == |ds|
  {
    seq(|ds|, i requires 0 <= i < |ds| => CharOf(ds[i]))
  }

  lemma SpellInverts(ds: seq<nat>)
    requires InBase(ds, 58)
    ensures OverAlphabet(Spell(ds)) && DigitsOf(Spell(ds)) == ds
  {
    forall i | 0 <= i < |ds| ensures Lookup(Spell(ds)[i]) == Some(ds[i]) { LookupInverts(ds[i]); }
  }

  lemma DigitsOfInverts(s: string)
    requires OverAlphabet(s)
    ensures Spell(DigitsOf(s)) == s
  {
  }

  lemma SpellPadded(k: nat, ds: seq<nat>, s: string)
    requires InBase(ds, 58) && s == seq(k, _ => '1') + Spell(ds)
    ensures InBase(Zeros(k) + ds, 58) && Spell(Zeros(k) + ds) == s
  {
    assert CharOf(0) == '1';
  }

  /////////////////////////////////////////////////////////////////////////////
  // Big-endian bytes
  /////////////////////////////////////////////////////////////////////////////

  function BitLength(n: nat): nat
  {
    if n == 0 then 0 else 1 + BitLength(n / 2)
  }

  /** The low `len` base-256 digits, most significant first. */
  function ToBytes(n: nat, len: nat): seq<Byte>
  {
    if len == 0 then [] else ToBytes(n / 256, len - 1) + [n % 256]
  }

  lemma {:induction false} BitLengthSmall(n: nat, k: nat)
    requires k == 1 ==> n < 2
    requires k == 2 ==> n < 4
    requires k == 3 ==> n < 8
    requires k == 4 ==> n < 16
    requires k == 5 ==> n < 32
    requires k == 6 ==> n < 64
    requires k == 7 ==> n < 128
    requires k == 8 ==> n < 256
    requires 1 <= k <= 8
    ensures BitLength(n) <= k
  {
    if n > 0 && k > 1 { BitLengthSmall(n / 2, k - 1); }
  }

  /** A byte more of the number is eight bits more. */
  lemma BitLengthByte(n: nat)
    ensures n >= 256 ==> BitLength(n) == 8 + BitLength(n / 256)
    ensures 0 < n < 256 ==> 1 <= BitLength(n) <= 8
  {
    if n >= 256 {
      var n1, n2, n3, n4 := n / 2, n / 4, n / 8, n / 16;
      var n5, n6, n7, n8 := n / 32, n / 64, n / 128, n / 256;
      assert n1 / 2 == n2 && n2 / 2 == n3 && n3 / 2 == n4 && n4 / 2 == n5 && n5 / 2 == n6 && n6 / 2 == n7
             && n7 / 2 == n8;
      assert BitLength(n) == 1 + BitLength(n1) && BitLength(n1) == 1 + BitLength(n2);
      assert BitLength(n2) == 1 + BitLength(n3) && BitLength(n3) == 1 + BitLength(n4);
      assert BitLength(n4) == 1 + BitLength(n5) && BitLength(n5) == 1 + BitLength(n6);
      assert BitLength(n6) == 1 + BitLength(n7) && BitLength(n7) == 1 + BitLength(n8);
    } else if n > 0 {
      BitLengthSmall(n, 8);
    }
  }

  /** The byte count taken from the bit length is just enough: no overflow and no leading zero byte. */
  lemma {:induction false} ToBytesIsDigits(n: nat)
    ensures ToBytes(n, (BitLength(n) + 7) / 8) == Digits(n, 256)
    decreases n
  {
    if n > 0 {
      BitLengthByte(n);
      ToBytesIsDigits(n / 256);
      if n < 256 {
        assert Digits(n / 256, 256) == [] && ToBytes(n / 256, 0) == [];
      }
    }
  }

  /////////////////////////////////////////////////////////////////////////////
  // The codec
  /////////////////////////////////////////////////////////////////////////////

  /** Leading ones stand for leading zero bytes, the rest is a number in base 58. */
  function Decode(s: string): seq<Byte>
    requires OverAlphabet(s)
  {
    RecodedInverse(DigitsOf(s), 58, 256);
    Recoded(DigitsOf(s), 58, 256)
  }

  function Encode(data: seq<Byte>): string
  {
    DigitsProper(Value(data, 256), 58);
    Spell(Recoded(data, 256, 58))
  }

  /** Every byte string survives encoding and decoding. */
  lemma DecodeEncode(data: seq<Byte>)
    ensures OverAlphabet(Encode(data)) && Decode(Encode(data)) == data
  {
    RecodedInverse(data, 256, 58);
    SpellInverts(Recoded(data, 256, 58));
  }

  /** Every string over the alphabet survives decoding and encoding. */
  lemma EncodeDecode(s: string)
    requires OverAlphabet(s)
    ensures Encode(Decode(s)) == s
  {
    RecodedInverse(DigitsOf(s), 58, 256);
    DigitsOfInverts(s);
  }

  /** Text and bytes denote the same number, and each leading one is a leading zero byte. */
  lemma DecodeDenotes(s: string)
    requires OverAlphabet(s)
    ensures Value(Decode(s), 256) == Value(DigitsOf(s), 58)
    ensures LeadingZeros(Decode(s)) == LeadingZeros(DigitsOf(s))
    ensures forall i :: 0 <= i < |s| ==> (DigitsOf(s)[i] == 0 <==> s[i] == '1')
  {
    var n, k := Value(DigitsOf(s), 58), LeadingZeros(DigitsOf(s));
    DigitsDenote(n, 256);
    DigitsProper(n, 256);
    ValueOfPadded(k, Digits(n, 256), 256);
    LeadingZerosOfPadded(k, Digits(n, 256));
  }

  /** `_b58decode`: None stands for the KeyError on a character outside the alphabet. */
  method B58Decode(s: string) returns (r: Option<seq<Byte>>)
    ensures r.Some? <==> OverAlphabet(s)
    ensures r.Some? ==> r.value == Decode(s)
  {
    var n := 0;
    for i := 0 to |s|
      invariant OverAlphabet(s[..i])
      invariant n == Value(DigitsOf(s[..i]), 58)
    {
      var digit := Lookup(s[i]);
      if digit.None? {
        return None;
      }
      n := n * 58 + digit.value;
      assert s[..i + 1][..i] == s[..i];
      assert DigitsOf(s[..i + 1])[..i] == DigitsOf(s[..i]);
    }
    assert s[..|s|] == s;
    var lead := LeadingOnes(s);
    if n == 0 {
      return Some(Zeros(lead));
    }
    ToBytesIsDigits(n);
    return Some(Zeros(lead) + ToBytes(n, (BitLength(n) + 7) / 8));
  }

  method LeadingOnes(s: string) returns (lead: nat)
    requires OverAlphabet(s)
    ensures lead == LeadingZeros(DigitsOf(s))
  {
    lead := 0;
    while lead < |s| && s[lead] == '1'
      invariant lead <= |s|
      invariant LeadingZeros(DigitsOf(s)) == lead + LeadingZeros(DigitsOf(s)[lead..])
    {
      assert DigitsOf(s)[lead] == 0;
      assert DigitsOf(s)[lead..][1..] == DigitsOf(s)[lead + 1..];
      lead := lead + 1;
    }
  }

  /** Repeated division by 58, each digit prepended. */
  method SpellNumber(total: nat) returns (s: string)
    ensures InBase(Digits(total, 58), 58) && s == Spell(Digits(total, 58))
  {
    var n := total;
    s := "";
    DigitsProper(total, 58);
    while n > 0
      invariant InBase(Digits(n, 58), 58)
      invariant Spell(Digits(n, 58)) + s == Spell(Digits(total, 58))
    {
      var rem := n % 58;
      s := [CharOf(rem)] + s;
      DigitsProper(n / 58, 58);
      assert Spell(Digits(n, 58)) == Spell(Digits(n / 58, 58)) + [CharOf(rem)];
      n := n / 58;
    }
  }

  method LeadingNulls(data: seq<Byte>) returns (lead: nat)
    ensures lead == LeadingZeros(data)
  {
    lead := 0;
    while lead < |data| && data[lead] == 0
      invariant lead <= |data|
      invariant LeadingZeros(data) == lead + LeadingZeros(data[lead..])
    {
      assert data[lead..][1..] == data[lead + 1..];
      lead := lead + 1;
    }
  }

  /** `_b58encode`. */
  method B58Encode(data: seq<Byte>) returns (s: string)
    ensures s == Encode(data)
  {
    var digits := SpellNumber(Value(data, 256));
    var lead := LeadingNulls(data);
    s := seq(lead, _ => '1') + digits;
    SpellPadded(lead, Digits(Value(data, 256), 58), s);
  }

  /////////////////////////////////////////////////////////////////////////////
  // Extended-key versions
  /////////////////////////////////////////////////////////////////////////////

  /** The digest, kept abstract: any function to 32 bytes. */
  type Digest = seq<Byte> -> seq<Byte>

  ghost predicate IsDigest(sha256: Digest)
  {
    forall x: seq<Byte> :: |sha256(x)| == 32
  }

  function Checksum(sha256: Digest, payload: seq<Byte>): (c: seq<Byte>)
    requires IsDigest(sha256)
    ensures |c| == 4
  {
    sha256(sha256(payload))[..4]
  }

  datatype RecodeResult = Key(text: string) | BadCharacter | TooShort(length: nat)

  /** Replaces the first four bytes, keeps bytes 4 to 77, recomputes the checksum. */
  ghost function Recode(sha256: Digest, key: string, version: seq<Byte>): RecodeResult
    requires IsDigest(sha256)
  {
    if !OverAlphabet(key) then BadCharacter
    else
      var decoded: seq<Byte> := Decode(key);
      if |decoded| < 78 then TooShort(|decoded|)
      else
        var payload := version + decoded[4..78];
        Key(Encode(payload + Checksum(sha256, payload)))
  }

  method RecodeExtendedKeyVersion(sha256: Digest, key: string, version: seq<Byte>) returns (r: RecodeResult)
    requires IsDigest(sha256)
    ensures r == Recode(sha256, key, version)
    ensures r == BadCharacter <==> exists i :: 0 <= i < |key| && Lookup(key[i]).None?
    ensures r.TooShort? <==> OverAlphabet(key) && |Decode(key)| < 78
    ensures r.TooShort? ==> r.length == |Decode(key)|
  {
    var decoded := B58Decode(key);
    if decoded.None? {
      return BadCharacter;
    }
    if |decoded.value| < 78 {
      return TooShort(|decoded.value|);
    }
    var payload := version + decoded.value[4..78];
    var text := B58Encode(payload + Checksum(sha256, payload));
    return Key(text);
  }

  /** The text decodes to a version, 74 bytes of key material and their checksum. */
  ghost predicate IsKey(sha256: Digest, text: string, version: seq<Byte>, material: seq<Byte>)
    requires IsDigest(sha256)
  {
    OverAlphabet(text) && Decode(text) == version + material + Checksum(sha256, version + material)
  }

  /** A recoded key carries the new version, the unchanged material and the right checksum. */
  lemma RecodeYieldsKey(sha256: Digest, key: string, version: seq<Byte>)
    requires IsDigest(sha256) && |version| == 4
    ensures Recode(sha256, key, version).Key? <==> OverAlphabet(key) && |Decode(key)| >= 78
    ensures Recode(sha256, key, version).Key? ==>
              var text := Recode(sha256, key, version).text;
              IsKey(sha256, text, version, Decode(key)[4..78])
    ensures Recode(sha256, key, version).Key? ==>
              OverAlphabet(Recode(sha256, key, version).text) &&
              var bytes: seq<Byte> := Decode(Recode(sha256, key, version).text);
              && |bytes| == 82
              && bytes[..4] == version
              && bytes[4..78] == Decode(key)[4..78]
              && bytes[78..] == sha256(sha256(bytes[..78]))[..4]
  {
    if OverAlphabet(key) && |Decode(key)| >= 78 {
      var payload: seq<Byte> := version + Decode(key)[4..78];
      DecodeEncode(payload + Checksum(sha256, payload));
      assert (payload + Checksum(sha256, payload))[..78] == payload;
    }
  }

  /** Only the last version counts. */
  lemma RecodeTwice(sha256: Digest, key: string, v1: seq<Byte>, v2: seq<Byte>)
    requires IsDigest(sha256) && |v1| == 4 && |v2| == 4
    requires Recode(sha256, key, v1).Key?
    ensures Recode(sha256, Recode(sha256, key, v1).text, v2) == Recode(sha256, key, v2)
  {
    var text := Recode(sha256, key, v1).text;
    RecodeYieldsKey(sha256, key, v1);
    assert Decode(text)[4..78] == Decode(key)[4..78];
  }

  /** Recoding returns its input exactly on the valid keys that already have the version. */
  lemma RecodeFixpoint(sha256: Digest, key: string, version: seq<Byte>)
    requires IsDigest(sha256) && |version| == 4
    ensures Recode(sha256, key, version) == Key(key) <==>
            OverAlphabet(key) && exists material: seq<Byte> :: |material| == 74 && IsKey(sha256, key, version, material)
  {
    if Recode(sha256, key, version) == Key(key) {
      RecodeYieldsKey(sha256, key, version);
      var material: seq<Byte> := Decode(key)[4..78];
      assert |material| == 74 && IsKey(sha256, key, version, material);
    }
    if OverAlphabet(key) && exists material: seq<Byte> :: |material| == 74 && IsKey(sha256, key, version, material) {
      var material: seq<Byte> :| |material| == 74 && IsKey(sha256, key, version, material);
      assert Decode(key)[4..78] == material;
      EncodeDecode(key);
    }
  }
}
