/** Support references: a kind letter and 22 base-62 digits standing for the 128 bits of a UUID. */
module DiagnosticReference {
  import opened Prelude

  type Digits = seq<nat>

  // ---- positional numbers --------------------------------------------------------------------

  function Pow(base: nat, exponent: nat): nat {
    if exponent == 0 then 1 else base * Pow(base, exponent - 1)
  }

  lemma MulKeepsOrder(a: int, b: int, c: nat)
    requires a <= b
    ensures a * c <= b * c && c * a <= c * b
  {
  }

  /** A quotient and a remainder below base are determined by the number they make. */
  lemma SameQuotient(p: nat, x: nat, q: nat, y: nat, base: nat)
    requires x < base && y < base && p * base + x == q * base + y
    ensures p == q && x == y
  {
    assert (p + 1) * base == p * base + base && (q + 1) * base == q * base + base;
    if p < q {
      MulKeepsOrder(p + 1, q, base);
    } else if q < p {
      MulKeepsOrder(q + 1, p, base);
    }
  }

  lemma Divides(value: nat, base: nat)
    requires base >= 2
    ensures value / base >= 0 && value == (value / base) * base + value % base && value % base < base
    ensures value >= base ==> value / base < value
  {
    var q := value / base;
    assert value == base * q + value % base;
    MulKeepsOrder(2, base, q);
  }

  lemma QuotientBelow(value: nat, base: nat, bound: nat)
    requires base >= 2
    ensures value / base < bound <==> value < base * bound
  {
    Divides(value, base);
    var q := value / base;
    if q < bound {
      MulKeepsOrder(q + 1, bound, base);
      assert (q + 1) * base == q * base + base;
    } else {
      MulKeepsOrder(bound, q, base);
    }
  }

  /** The number that digits, most significant first, stand for. */
  function Value(digits: Digits, base: nat): nat {
    if digits == [] then 0 else Value(digits[..|digits| - 1], base) * base + digits[|digits| - 1]
  }

  predicate DigitsOf(digits: Digits, base: nat) {
    forall i | 0 <= i < |digits| :: digits[i] < base
  }

  /** The digits of value without leading zeros, as toString(base) writes them. */
  function Shortest(value: nat, base: nat): (digits: Digits)
    requires base >= 2
    ensures DigitsOf(digits, base) && |digits| >= 1
    decreases value
  {
    if value < base then [value]
    else
      Divides(value, base);
      Shortest(value / base, base) + [value % base]
  }

  function Zeros(count: nat): (digits: Digits)
    ensures |digits| == count && forall i | 0 <= i < count :: digits[i] == 0
  {
    seq(count, _ => 0)
  }

  /** padStart(width, "0"), which never truncates. */
  function Pad(digits: Digits, width: nat): (padded: Digits)
    ensures |padded| == if |digits| < width then width else |digits|
  {
    if |digits| < width then Zeros(width - |digits|) + digits else digits
  }

  lemma PowPositive(base: nat, exponent: nat)
    requires base >= 1
    ensures Pow(base, exponent) >= 1
  {
  }

  lemma {:induction false} PowGrows(base: nat, low: nat, high: nat)
    requires base >= 1 && low <= high
    ensures Pow(base, low) <= Pow(base, high)
    decreases high
  {
    if low < high {
      PowGrows(base, low, high - 1);
      PowPositive(base, high - 1);
    }
  }

  lemma {:induction false} PowAdds(base: nat, m: nat, n: nat)
    ensures Pow(base, m + n) == Pow(base, m) * Pow(base, n)
  {
    if m > 0 {
      PowAdds(base, m - 1, n);
      assert Pow(base, m + n) == base * (Pow(base, m - 1) * Pow(base, n));
    }
  }

  lemma Regroup(v: int, p: int, x: int, base: int)
    ensures (v * p + x) * base == v * (base * p) + x * base
  {
    assert (v * p) * base == v * (base * p);
  }

  lemma {:induction false} ValueAppends(left: Digits, right: Digits, base: nat)
    ensures Value(left + right, base) == Value(left, base) * Pow(base, |right|) + Value(right, base)
    decreases |right|
  {
    if right == [] {
      assert left + right == left;
    } else {
      var init, last := right[..|right| - 1], right[|right| - 1];
      ValueAppends(left, init, base);
      assert (left + right)[..|left + right| - 1] == left + init;
      var v, p := Value(left, base), Pow(base, |init|);
      Regroup(v, p, Value(init, base), base);
    }
  }

  lemma {:induction false} ValueBelow(digits: Digits, base: nat)
    requires DigitsOf(digits, base) && base >= 1
    ensures Value(digits, base) < Pow(base, |digits|)
  {
    if digits != [] {
      var init := digits[..|digits| - 1];
      var v, p := Value(init, base), Pow(base, |init|);
      ValueBelow(init, base);
      MulKeepsOrder(v + 1, p, base);
      assert (v + 1) * base == v * base + base;
      assert Value(digits, base) == v * base + digits[|digits| - 1];
      assert Pow(base, |digits|) == base * p;
    }
  }

  lemma {:induction false} ZerosAddNothing(digits: Digits, base: nat, count: nat)
    ensures Value(Zeros(count) + digits, base) == Value(digits, base)
    decreases count
  {
    if count == 0 {
      assert Zeros(0) + digits == digits;
    } else {
      assert Zeros(count) + digits == Zeros(count - 1) + ([0] + digits);
      ZerosAddNothing([0] + digits, base, count - 1);
      ValueAppends([0], digits, base);
      assert Value([0], base) == Value([], base) * base + 0;
    }
  }

  lemma {:induction false} ValueOfShortest(value: nat, base: nat)
    requires base >= 2
    ensures Value(Shortest(value, base), base) == value
    decreases value
  {
    if value < base {
      assert Shortest(value, base)[..0] == [];
    } else {
      Divides(value, base);
      ValueOfShortest(value / base, base);
      assert (Shortest(value / base, base) + [value % base])[..|Shortest(value / base, base)|]
             == Shortest(value / base, base);
    }
  }

  /** No leading zero: width digits are enough exactly for the values below base^width. */
  lemma {:induction false} ShortestFits(value: nat, base: nat, width: nat)
    requires base >= 2 && width >= 1
    ensures |Shortest(value, base)| <= width <==> value < Pow(base, width)
    decreases value
  {
    assert Pow(base, 1) == base * Pow(base, 0) == base;
    if value < base {
      PowGrows(base, 1, width);
    } else {
      Divides(value, base);
      if width > 1 {
        ShortestFits(value / base, base, width - 1);
        QuotientBelow(value, base, Pow(base, width - 1));
        assert Pow(base, width) == base * Pow(base, width - 1);
      }
    }
  }

  /** Fixed-width digits are determined by their value. */
  lemma {:induction false} SameValueSameDigits(a: Digits, b: Digits, base: nat)
    requires DigitsOf(a, base) && DigitsOf(b, base) && |a| == |b| && Value(a, base) == Value(b, base)
    ensures a == b
  {
    if a != [] {
      var x, y := a[..|a| - 1], b[..|b| - 1];
      assert Value(a, base) == Value(x, base) * base + a[|a| - 1];
      assert Value(b, base) == Value(y, base) * base + b[|b| - 1];
      SameQuotient(Value(x, base), a[|a| - 1], Value(y, base), b[|b| - 1], base);
      SameValueSameDigits(x, y, base);
      assert a == x + [a[|a| - 1]] && b == y + [b[|b| - 1]];
    }
  }

  lemma ValueOfPadded(value: nat, base: nat, width: nat)
    requires base >= 2
    ensures Value(Pad(Shortest(value, base), width), base) == value
    ensures DigitsOf(Pad(Shortest(value, base), width), base)
  {
    ValueOfShortest(value, base);
    if |Shortest(value, base)| < width {
      ZerosAddNothing(Shortest(value, base), base, width - |Shortest(value, base)|);
    }
  }

  /** Padding the shortest form and reading digits of that width are inverse to each other. */
  lemma PaddedShortest(digits: Digits, base: nat)
    requires base >= 2 && |digits| >= 1 && DigitsOf(digits, base)
    ensures Pad(Shortest(Value(digits, base), base), |digits|) == digits
  {
    hide Value, Pow;
    var value, width := Value(digits, base), |digits|;
    ValueBelow(digits, base);
    ShortestFits(value, base, width);
    ValueOfPadded(value, base, width);
    SameValueSameDigits(Pad(Shortest(value, base), width), digits, base);
  }

  /** 22 base-62 digits hold every 128-bit number, and 21 do not. */
  lemma WidthIsExact()
    ensures Pow(62, 21) < Pow(16, 32) < Pow(62, 22)
    ensures Pow(16, 32) == 0x1_0000_0000_0000_0000_0000_0000_0000_0000
  {
    assert Pow(16, 4) == 65536;
    PowAdds(16, 4, 4);
    PowAdds(16, 8, 8);
    PowAdds(16, 16, 16);
    assert Pow(62, 5) == 916132832;
    PowAdds(62, 5, 5);
    PowAdds(62, 10, 10);
    PowAdds(62, 1, 20);
    PowAdds(62, 1, 21);
    assert Pow(62, 1) == 62;
  }

  // ---- characters ----------------------------------------------------------------------------

  /** The alphabet: 0-9, then A-Z, then a-z. */
  function Letter62(digit: nat): (c: char)
    requires digit < 62
    ensures Index62(c) == digit
  {
    if digit < 10 then '0' + digit as char
    else if digit < 36 then 'A' + (digit - 10) as char
    else 'a' + (digit - 36) as char
  }

  /** ALPHABET.indexOf. */
  function Index62(c: char): (digit: int)
    ensures digit < 62
  {
    if '0' <= c <= '9' then c as int - '0' as int
    else if 'A' <= c <= 'Z' then c as int - 'A' as int + 10
    else if 'a' <= c <= 'z' then c as int - 'a' as int + 36
    else -1
  }

  predicate IsHex(c: char) {
    '0' <= c <= '9' || 'a' <= c <= 'f'
  }

  function HexIndex(c: char): (digit: nat)
    requires IsHex(c)
    ensures digit < 16
  {
    if c <= '9' then c as int - '0' as int else c as int - 'a' as int + 10
  }

  function HexLetter(digit: nat): (c: char)
    requires digit < 16
    ensures IsHex(c) && HexIndex(c) == digit
  {
    if digit < 10 then '0' + digit as char else 'a' + (digit - 10) as char
  }

  function Lower(c: char): char {
    if 'A' <= c <= 'Z' then c + 32 as char else c
  }

  /** replaceAll("-", "").toLowerCase(). */
  function Bare(uuid: string): string {
    if uuid == "" then ""
    else if uuid[0] == '-' then Bare(uuid[1..])
    else [Lower(uuid[0])] + Bare(uuid[1..])
  }

  predicate IsUuidHex(hex: string) {
    |hex| == 32 && forall i | 0 <= i < |hex| :: IsHex(hex[i])
  }

  function HexDigits(hex: string): (digits: Digits)
    requires forall i | 0 <= i < |hex| :: IsHex(hex[i])
    ensures DigitsOf(digits, 16) && |digits| == |hex|
  {
    seq(|hex|, i requires 0 <= i < |hex| => HexIndex(hex[i]))
  }

  function HexText(digits: Digits): (hex: string)
    requires DigitsOf(digits, 16)
    ensures |hex| == |digits| && forall i | 0 <= i < |hex| :: IsHex(hex[i])
  {
    seq(|digits|, i requires 0 <= i < |digits| => HexLetter(digits[i]))
  }

  function Text62(digits: Digits): (text: string)
    requires DigitsOf(digits, 62)
    ensures |text| == |digits| && forall i | 0 <= i < |text| :: Index62(text[i]) == digits[i]
  {
    seq(|digits|, i requires 0 <= i < |digits| => Letter62(digits[i]))
  }

  predicate IsText62(text: string) {
    forall i | 0 <= i < |text| :: Index62(text[i]) >= 0
  }

  function Digits62(text: string): (digits: Digits)
    requires IsText62(text)
    ensures DigitsOf(digits, 62) && |digits| == |text|
  {
    seq(|text|, i requires 0 <= i < |text| => Index62(text[i]))
  }

  /** The lower-case form of section 4 of RFC 9562. */
  function Hyphenated(hex: string): string
    requires |hex| == 32
  {
    hex[..8] + "-" + hex[8..12] + "-" + hex[12..16] + "-" + hex[16..20] + "-" + hex[20..]
  }

  // ---- the two codecs ------------------------------------------------------------------------

  predicate IsKind(kind: char) {
    kind == 'C' || kind == 'I' || kind == 'P' || kind == 'E'
  }

  datatype Reference = Reference(kind: char, uuid: string)

  function Encode(kind: char, uuid: string): Result<string, string> {
    var hex := Bare(uuid);
    if !IsUuidHex(hex) then Err("INVALID_DIAGNOSTIC_REFERENCE_UUID")
    else Ok([kind] + Text62(Pad(Shortest(Value(HexDigits(hex), 16), 62), 22))) // ValueOfPadded
  }

  function Decode(reference: string): Result<Reference, string> {
    if |reference| != 23 || !IsKind(reference[0]) || !IsText62(reference[1..]) then Err("INVALID_DIAGNOSTIC_REFERENCE")
    else
      var hex := Pad(Shortest(Value(Digits62(reference[1..]), 62), 16), 32);
      if |hex| != 32 then Err("INVALID_DIAGNOSTIC_REFERENCE") else Ok(Reference(reference[0], Hyphenated(HexText(hex))))
  }

  /** diagnosticReferenceId. */
  method DiagnosticReferenceId(kind: char, uuid: string) returns (r: Result<string, string>)
    ensures r == Encode(kind, uuid)
  {
    var hex := Bare(uuid);
    if !IsUuidHex(hex) { return Err("INVALID_DIAGNOSTIC_REFERENCE_UUID"); }
    ghost var all := Value(HexDigits(hex), 16);
    var value := Value(HexDigits(hex), 16);
    var encoded: Digits := [];
    var again := true;
    while again
      invariant DigitsOf(encoded, 62)
      invariant again ==> Shortest(value, 62) + encoded == Shortest(all, 62)
      invariant !again ==> encoded == Shortest(all, 62)
      decreases again, value
    {
      encoded := [value % 62] + encoded;
      assert value >= 62 ==> Shortest(value / 62, 62) + encoded == Shortest(value, 62) + encoded[1..];
      value := value / 62;
      again := value > 0;
    }
    return Ok([kind] + Text62(Pad(encoded, 22)));
  }

  /** diagnosticReferenceUuid. */
  method DiagnosticReferenceUuid(reference: string) returns (r: Result<Reference, string>)
    ensures r == Decode(reference)
  {
    if reference == "" || !IsKind(reference[0]) || |reference| != 23 { return Err("INVALID_DIAGNOSTIC_REFERENCE"); }
    var text := reference[1..];
    var value: nat := 0;
    for n := 0 to |text|
      invariant IsText62(text[..n]) && value == Value(Digits62(text[..n]), 62)
    {
      var digit := Index62(text[n]);
      if digit < 0 { return Err("INVALID_DIAGNOSTIC_REFERENCE"); }
      assert Digits62(text[..n + 1])[..n] == Digits62(text[..n]);
      value := value * 62 + digit;
    }
    assert text[..|text|] == text;
    var hex := Pad(Shortest(value, 16), 32);
    if |hex| != 32 { return Err("INVALID_DIAGNOSTIC_REFERENCE"); }
    return Ok(Reference(reference[0], Hyphenated(HexText(hex))));
  }

  // ---- main results --------------------------------------------------------------------------

  lemma HexTextOfDigits(hex: string)
    requires IsUuidHex(hex)
    ensures HexText(HexDigits(hex)) == hex
  {
  }

  lemma {:induction false} BareKeeps(left: string, right: string)
    requires forall i | 0 <= i < |left| :: IsHex(left[i])
    ensures Bare(left + right) == left + Bare(right)
  {
    if left == "" {
      assert left + right == right;
    } else {
      BareKeeps(left[1..], right);
      assert (left + right)[1..] == left[1..] + right;
    }
  }

  lemma BareHyphenated(hex: string)
    requires IsUuidHex(hex)
    ensures Bare(Hyphenated(hex)) == hex
  {
    hide Bare;
    var a, b, c, d, e := hex[..8], hex[8..12], hex[12..16], hex[16..20], hex[20..];
    var de := d + "-" + e;
    var cde := c + "-" + de;
    var bcde := b + "-" + cde;
    BareHex(e);
    DropHyphen(d, e);
    DropHyphen(c, de);
    DropHyphen(b, cde);
    DropHyphen(a, bcde);
    assert Hyphenated(hex) == a + "-" + bcde;
    assert hex == a + (b + (c + (d + e)));
  }

  lemma BareHex(hex: string)
    requires forall i | 0 <= i < |hex| :: IsHex(hex[i])
    ensures Bare(hex) == hex
  {
    BareKeeps(hex, "");
    assert hex + "" == hex;
  }

  lemma DropHyphen(left: string, right: string)
    requires forall i | 0 <= i < |left| :: IsHex(left[i])
    ensures Bare(left + "-" + right) == left + Bare(right)
  {
    assert left + "-" + right == left + ("-" + right);
    BareKeeps(left, "-" + right);
    assert ("-" + right)[1..] == right;
  }

  /** Which references are accepted: 23 characters of a known kind whose digits stand for 128 bits. */
  lemma AcceptedReferences(reference: string)
    ensures Decode(reference).Ok? <==>
              |reference| == 23 && reference[0] in {'C', 'I', 'P', 'E'} && IsText62(reference[1..])
              && Value(Digits62(reference[1..]), 62) < Pow(16, 32)
    ensures Decode(reference).Ok? ==> Decode(reference).value.kind == reference[0]
    ensures Decode(reference).Err? ==> Decode(reference).error == "INVALID_DIAGNOSTIC_REFERENCE"
  {
    if |reference| == 23 && IsText62(reference[1..]) {
      ShortestFits(Value(Digits62(reference[1..]), 62), 16, 32);
    }
  }

  /** Every UUID becomes exactly 23 characters, and decoding gives back its kind and canonical text. */
  lemma UuidRoundTrip(kind: char, uuid: string)
    requires IsKind(kind) && IsUuidHex(Bare(uuid))
    ensures Encode(kind, uuid).Ok? && |Encode(kind, uuid).value| == 23
    ensures Decode(Encode(kind, uuid).value) == Ok(Reference(kind, Hyphenated(Bare(uuid))))
  {
    var hex := Bare(uuid);
    var value := Value(HexDigits(hex), 16);
    ValueBelow(HexDigits(hex), 16);
    WidthIsExact();
    ShortestFits(value, 62, 22);
    ValueOfPadded(value, 62, 22);
    var digits := Pad(Shortest(value, 62), 22);
    var reference := Encode(kind, uuid).value;
    assert reference[1..] == Text62(digits);
    assert Digits62(reference[1..]) == digits;
    PaddedShortest(HexDigits(hex), 16);
    HexTextOfDigits(hex);
  }

  /** Every accepted reference is the encoding of what it decodes to, so the two codecs are inverse
      bijections between accepted references and canonical UUIDs. */
  lemma ReferenceRoundTrip(reference: string)
    requires Decode(reference).Ok?
    ensures var decoded := Decode(reference).value;
            Encode(decoded.kind, decoded.uuid) == Ok(reference) && decoded.uuid == Hyphenated(Bare(decoded.uuid))
  {
    var digits := Digits62(reference[1..]);
    var value := Value(digits, 62);
    AcceptedReferences(reference);
    ValueOfPadded(value, 16, 32);
    var hexDigits := Pad(Shortest(value, 16), 32);
    var hex := HexText(hexDigits);
    assert HexDigits(hex) == hexDigits;
    BareHyphenated(hex);
    PaddedShortest(digits, 62);
    assert Text62(digits) == reference[1..] by { TextOfDigits(reference[1..]); }
    assert [reference[0]] + reference[1..] == reference;
  }

  lemma TextOfDigits(text: string)
    requires IsText62(text)
    ensures Text62(Digits62(text)) == text
  {
  }

  // ---- what a reference spells ---------------------------------------------------------------

  const DIGITS := "0123456789"
  const UPPER := "ABCDEFGHIJKLMNOPQRSTUVWXYZ"
  const LOWER := "abcdefghijklmnopqrstuvwxyz"
  const ALPHABET := DIGITS + UPPER + LOWER
  const HEX_ALPHABET := DIGITS + "abcdef"

  /** The text writes the digits in the alphabet. */
  ghost predicate Spells(text: string, alphabet: string, digits: Digits) {
    |digits| == |text| && forall i | 0 <= i < |text| :: digits[i] < |alphabet| && text[i] == alphabet[digits[i]]
  }

  /** Each digit weighted by its position, the first one most. */
  function Weighted(digits: Digits, base: nat): nat {
    if digits == [] then 0 else digits[0] * Pow(base, |digits| - 1) + Weighted(digits[1..], base)
  }

  lemma Unfolded(digits: Digits, base: nat)
    requires digits != []
    ensures Value(digits, base) == Value(digits[..|digits| - 1], base) * base + digits[|digits| - 1]
    ensures Weighted(digits, base) == digits[0] * Pow(base, |digits| - 1) + Weighted(digits[1..], base)
  {
  }

  lemma Regrouped(digit: nat, power: nat, rest: nat, base: nat, last: nat)
    ensures (digit * power + rest) * base + last == digit * (base * power) + (rest * base + last)
  {
    calc {
      (digit * power + rest) * base;
    ==
      digit * power * base + rest * base;
    == { assert digit * power * base == digit * (base * power); }
      digit * (base * power) + rest * base;
    }
  }

  lemma {:induction false} ValueIsWeighted(digits: Digits, base: nat)
    ensures Value(digits, base) == Weighted(digits, base)
  {
    if |digits| > 1 {
      var init, tail, last := digits[..|digits| - 1], digits[1..], digits[|digits| - 1];
      assert init[1..] == tail[..|tail| - 1] && tail[|tail| - 1] == last && init[0] == digits[0];
      ValueIsWeighted(init, base);
      ValueIsWeighted(tail, base);
      ValueIsWeighted(init[1..], base);
      Unfolded(digits, base);
      Unfolded(init, base);
      Unfolded(tail, base);
      assert Pow(base, |init|) == base * Pow(base, |init| - 1);
      hide Value, Weighted, Pow;
      Regrouped(digits[0], Pow(base, |init| - 1), Weighted(init[1..], base), base, last);
    } else if |digits| == 1 {
      assert digits[..0] == [] && digits[1..] == [];
    }
  }

  lemma DigitsInOrder(k: nat)
    requires k < 10
    ensures |DIGITS| == 10 && DIGITS[k] == '0' + k as char
  {
    var d := DIGITS;
    assert d[0] == '0' && d[1] == '1' && d[2] == '2' && d[3] == '3' && d[4] == '4' && d[5] == '5';
    assert d[6] == '6' && d[7] == '7' && d[8] == '8' && d[9] == '9';
  }

  lemma UpperInOrder(k: nat)
    requires k < 26
    ensures |UPPER| == 26 && UPPER[k] == 'A' + k as char
  {
    var u := UPPER;
    assert u[0] == 'A' && u[1] == 'B' && u[2] == 'C' && u[3] == 'D' && u[4] == 'E' && u[5] == 'F';
    assert u[6] == 'G' && u[7] == 'H' && u[8] == 'I' && u[9] == 'J' && u[10] == 'K' && u[11] == 'L';
    assert u[12] == 'M' && u[13] == 'N' && u[14] == 'O' && u[15] == 'P' && u[16] == 'Q' && u[17] == 'R';
    assert u[18] == 'S' && u[19] == 'T' && u[20] == 'U' && u[21] == 'V' && u[22] == 'W' && u[23] == 'X';
    assert u[24] == 'Y' && u[25] == 'Z';
  }

  lemma LowerInOrder(k: nat)
    requires k < 26
    ensures |LOWER| == 26 && LOWER[k] == 'a' + k as char
  {
    var l := LOWER;
    assert l[0] == 'a' && l[1] == 'b' && l[2] == 'c' && l[3] == 'd' && l[4] == 'e' && l[5] == 'f';
    assert l[6] == 'g' && l[7] == 'h' && l[8] == 'i' && l[9] == 'j' && l[10] == 'k' && l[11] == 'l';
    assert l[12] == 'm' && l[13] == 'n' && l[14] == 'o' && l[15] == 'p' && l[16] == 'q' && l[17] == 'r';
    assert l[18] == 's' && l[19] == 't' && l[20] == 'u' && l[21] == 'v' && l[22] == 'w' && l[23] == 'x';
    assert l[24] == 'y' && l[25] == 'z';
  }

  lemma HexInOrder(k: nat)
    requires k < 6
    ensures |"abcdef"| == 6 && "abcdef"[k] == 'a' + k as char
  {
    var l := "abcdef";
    assert l[0] == 'a' && l[1] == 'b' && l[2] == 'c' && l[3] == 'd' && l[4] == 'e' && l[5] == 'f';
  }

  lemma AlphabetLetters(digit: nat)
    ensures |ALPHABET| == 62 && |HEX_ALPHABET| == 16
    ensures digit < 62 ==> Letter62(digit) == ALPHABET[digit]
    ensures digit < 16 ==> HexLetter(digit) == HEX_ALPHABET[digit]
  {
    DigitsInOrder(if digit < 10 then digit else 0);
    UpperInOrder(if 10 <= digit < 36 then digit - 10 else 0);
    LowerInOrder(if 36 <= digit < 62 then digit - 36 else 0);
    HexInOrder(if 10 <= digit < 16 then digit - 10 else 0);
  }

  lemma HexCharacter(c: char)
    requires IsHex(c)
    ensures HexLetter(HexIndex(c)) == c
  {
  }

  /** A reference is its kind and the 22 base-62 digits, first one most significant, of the number whose
      hexadecimal digits are the UUID's. */
  lemma ReferenceSpellsTheNumber(kind: char, uuid: string) returns (digits: Digits, hex: Digits)
    requires Encode(kind, uuid).Ok?
    ensures var reference := Encode(kind, uuid).value;
            && |reference| == 23 && reference[0] == kind
            && Spells(reference[1..], ALPHABET, digits) && Spells(Bare(uuid), HEX_ALPHABET, hex)
            && Weighted(digits, 62) == Weighted(hex, 16)
  {
    var reference, bare := Encode(kind, uuid).value, Bare(uuid);
    hex := HexDigits(bare);
    var value := Value(hex, 16);
    digits := Pad(Shortest(value, 62), 22);
    ValueBelow(hex, 16);
    WidthIsExact();
    ShortestFits(value, 62, 22);
    ValueOfPadded(value, 62, 22);
    ValueIsWeighted(digits, 62);
    ValueIsWeighted(hex, 16);
    assert reference[1..] == Text62(digits);
    AlphabetLetters(0);
    forall i | 0 <= i < 22 ensures Text62(digits)[i] == ALPHABET[digits[i]] { AlphabetLetters(digits[i]); }
    forall i | 0 <= i < |bare| ensures bare[i] == HEX_ALPHABET[hex[i]] {
      HexCharacter(bare[i]);
      AlphabetLetters(hex[i]);
    }
  }

  /** Which characters are digits of a reference. */
  lemma ReferenceCharacters(text: string)
    ensures IsText62(text) <==> forall i | 0 <= i < |text| :: text[i] in ALPHABET
  {
    forall i | 0 <= i < |text| ensures Index62(text[i]) >= 0 <==> text[i] in ALPHABET {
      ReferenceCharacter(text[i]);
    }
  }

  lemma ReferenceCharacter(c: char)
    ensures Index62(c) >= 0 <==> c in ALPHABET
  {
    if Index62(c) >= 0 {
      AlphabetLetters(Index62(c));
    } else if c in ALPHABET {
      AlphabetLetters(0);
      var k: nat :| k < |ALPHABET| && ALPHABET[k] == c;
      AlphabetLetters(k);
    }
  }

  /** What is read of a UUID: character by character, hyphens dropped and capital letters made small. Whatever is
      no hexadecimal number of 32 digits then is refused. */
  lemma UuidExactly(left: string, right: string, c: char, k: nat, kind: char)
    requires k < 26
    ensures Bare(left + right) == Bare(left) + Bare(right) && Bare("-") == ""
    ensures Bare([UPPER[k]]) == [LOWER[k]]
    ensures c != '-' && c !in UPPER ==> Bare([c]) == [c]
    ensures Encode(kind, left).Ok? <==> |Bare(left)| == 32 && forall i | 0 <= i < 32 :: Bare(left)[i] in HEX_ALPHABET
    ensures Encode(kind, left).Err? ==> Encode(kind, left).error == "INVALID_DIAGNOSTIC_REFERENCE_UUID"
  {
    BareJoins(left, right);
    CapitalsAre(c, k);
    var bare := Bare(left);
    forall i | 0 <= i < |bare| ensures IsHex(bare[i]) <==> bare[i] in HEX_ALPHABET { HexCharacters(bare[i]); }
  }

  lemma {:induction false} BareJoins(left: string, right: string)
    ensures Bare(left + right) == Bare(left) + Bare(right)
  {
    if left == "" {
      assert left + right == right;
    } else {
      BareJoins(left[1..], right);
      assert (left + right)[1..] == left[1..] + right;
    }
  }

  lemma CapitalsAre(c: char, k: nat)
    requires k < 26
    ensures |UPPER| == |LOWER| == 26 && UPPER[k] != '-' && Lower(UPPER[k]) == LOWER[k]
    ensures c in UPPER <==> 'A' <= c <= 'Z'
  {
    UpperInOrder(k);
    LowerInOrder(k);
    if 'A' <= c <= 'Z' { UpperInOrder((c - 'A') as nat); }
    if n: nat :| n < |UPPER| && UPPER[n] == c { UpperInOrder(n); }
  }

  lemma HexCharacters(c: char)
    ensures IsHex(c) <==> c in HEX_ALPHABET
  {
    AlphabetLetters(0);
    if IsHex(c) {
      HexCharacter(c);
      AlphabetLetters(HexIndex(c));
    } else if n: nat :| n < |HEX_ALPHABET| && HEX_ALPHABET[n] == c {
      AlphabetLetters(n);
    }
  }
}
