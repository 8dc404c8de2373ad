/** UUIDs as text, and the 128-bit numbers they print. */
module UuidText {
  predicate IsHex(c: char) {
    '0' <= c <= '9' || 'a' <= c <= 'f'
  }

  /** The form `str(uuid.UUID(s))` prints: lowercase, with dashes after 8, 12, 16 and 20 digits. */
  predicate CanonicalUuid(s: string) {
    |s| == 36 && forall i :: 0 <= i < 36 ==> if i == 8 || i == 13 || i == 18 || i == 23 then s[i] == '-' else IsHex(s[i])
  }

  predicate CanonicalUuid4(s: string) {
    CanonicalUuid(s) && s[14] == '4' && (s[19] == '8' || s[19] == '9' || s[19] == 'a' || s[19] == 'b')
  }

  // ---- The numbers behind the text -------------------------------------------------------

  /** A 128-bit number by its hexadecimal digits, most significant first. */
  predicate IsNumber128(digits: seq<nat>) {
    |digits| == 32 && AllHex(digits)
  }

  predicate AllHex(digits: seq<nat>) {
    forall i :: 0 <= i < |digits| ==> digits[i] < 16
  }

  function HexDigit(d: nat): char
    requires d < 16
  {
    "0123456789abcdef"[d]
  }

  function Hex(digits: seq<nat>): (text: string)
    requires AllHex(digits)
    ensures |text| == |digits| && forall i :: 0 <= i < |digits| ==> text[i] == HexDigit(digits[i])
  {
    seq(|digits|, i requires 0 <= i < |digits| => HexDigit(digits[i]))
  }

  function Printed(digits: seq<nat>): string
    requires IsNumber128(digits)
  {
    Hex(digits[..8]) + "-" + Hex(digits[8..12]) + "-" + Hex(digits[12..16]) + "-" + Hex(digits[16..20]) + "-" + Hex(digits[20..])
  }

  function HexValue(c: char): (d: nat)
    requires IsHex(c)
    ensures d < 16 && HexDigit(d) == c
  {
    if c <= '9' then (c - '0') as nat else (c - 'a') as nat + 10
  }

  function Values(text: string): (digits: seq<nat>)
    requires forall i :: 0 <= i < |text| ==> IsHex(text[i])
    ensures |digits| == |text| && AllHex(digits) && Hex(digits) == text
  {
    seq(|text|, i requires 0 <= i < |text| => HexValue(text[i]))
  }

  lemma PrintedIsCanonical(digits: seq<nat>)
    requires IsNumber128(digits)
    ensures CanonicalUuid(Printed(digits)) && Printed(digits)[14] == HexDigit(digits[12]) && Printed(digits)[19] == HexDigit(digits[16])
  {}

  lemma Groups(a: seq<nat>, b: seq<nat>, c: seq<nat>, d: seq<nat>, e: seq<nat>)
    requires |a| == 8 && |b| == |c| == |d| == 4
    ensures var all := a + b + c + d + e;
            all[..8] == a && all[8..12] == b && all[12..16] == c && all[16..20] == d && all[20..] == e
  {}

  lemma CanonicalIsPrinted(s: string) returns (digits: seq<nat>)
    requires CanonicalUuid(s)
    ensures IsNumber128(digits) && s == Printed(digits)
  {
    var a, b, c, d, e := Values(s[..8]), Values(s[9..13]), Values(s[14..18]), Values(s[19..23]), Values(s[24..]);
    digits := a + b + c + d + e;
    Groups(a, b, c, d, e);
    assert s == s[..8] + "-" + s[9..13] + "-" + s[14..18] + "-" + s[19..23] + "-" + s[24..];
  }

  /** Accepted targets are exactly the printed UUIDs of version 4 and the variant of RFC 9562. */
  lemma CanonicalUuid4Iff(s: string)
    ensures CanonicalUuid(s) <==> exists digits :: IsNumber128(digits) && s == Printed(digits)
    ensures CanonicalUuid4(s) <==> exists digits :: IsNumber128(digits) && s == Printed(digits) && digits[12] == 4 && digits[16] / 4 == 2
  {
    if CanonicalUuid(s) {
      var digits := CanonicalIsPrinted(s);
      PrintedIsCanonical(digits);
    }
    forall digits | IsNumber128(digits) && s == Printed(digits)
      ensures CanonicalUuid(s) && s[14] == HexDigit(digits[12]) && s[19] == HexDigit(digits[16])
    {
      PrintedIsCanonical(digits);
    }
  }
}
