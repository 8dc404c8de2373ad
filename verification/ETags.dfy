/**
 Versions as strong entity tags (section 8.8.3 of RFC 9110): the printer of the API and of the
 client, and the parsers of `If-Match` (section 13.1.1 of RFC 9110).
 */
module ETags {
  import opened Wrappers
  import opened Decimal

  const U64_MAX: nat := 0xFFFF_FFFF_FFFF_FFFF
  const I64_MAX: nat := 0x7FFF_FFFF_FFFF_FFFF

  datatype Error = InvalidIfMatch

  /** `format!("\"{version}\"")`. */
  function Print(version: nat): string {
    "\"" + Digits(version) + "\""
  }

  /** The text between two double quotes, if the string starts and ends with one (two of them). */
  function Unquoted(raw: string): Option<string> {
    if |raw| >= 1 && raw[0] == '"' then
      var rest := raw[1..];
      if |rest| >= 1 && rest[|rest| - 1] == '"' then Some(rest[..|rest| - 1]) else None
    else None
  }

  function ParseStrongIntegerEtag(raw: string, allowZero: bool): Result<nat, Error> {
    if "W/" <= raw || raw == "*" then Failure(InvalidIfMatch)
    else
      match Unquoted(raw)
      case None => Failure(InvalidIfMatch)
      case Some(text) =>
        var positive := |text| >= 1 && '1' <= text[0] <= '9' && AllDigits(text[1..]);
        if !(positive || (allowZero && text == "0")) then Failure(InvalidIfMatch)
        else
          assert AllDigits(text) by {
            if positive {
              assert forall i :: 1 <= i < |text| ==> text[i] == text[1..][i - 1];
            }
          }
          if Value(text) > U64_MAX then Failure(InvalidIfMatch) else Success(Value(text))
  }

  /** A diary version: zero is refused twice over. */
  function ParseIfMatch(raw: string): Result<nat, Error> {
    var parsed := ParseStrongIntegerEtag(raw, false);
    if parsed.Success? && parsed.value == 0 then Failure(InvalidIfMatch) else parsed
  }

  /** A notification version must fit the database's signed column. */
  function ParseNotificationIfMatch(raw: string): Result<nat, Error> {
    var parsed := ParseStrongIntegerEtag(raw, true);
    if parsed.Success? && parsed.value > I64_MAX then Failure(InvalidIfMatch) else parsed
  }

  /** The parser accepts exactly the printed form of each version it allows, and reads it back. */
  lemma ParsesExactlyThePrinted(raw: string, allowZero: bool, version: nat)
    ensures ParseStrongIntegerEtag(raw, allowZero) == Success(version) <==>
      raw == Print(version) && version <= U64_MAX && (version > 0 || allowZero)
  {
    ValueOfDigits(version);
    var text := Digits(version);
    if raw == Print(version) {
      assert raw[1..] == text + "\"";
      assert Unquoted(raw) == Some(text);
      assert raw[0] != "W/"[0];
      assert AllDigits(text[1..]);
    }
    var parsed := ParseStrongIntegerEtag(raw, allowZero);
    if parsed == Success(version) {
      var inner := Unquoted(raw).value;
      assert raw == "\"" + inner + "\"";
      if inner != "0" {
        assert forall i :: 1 <= i < |inner| ==> inner[i] == inner[1..][i - 1];
      }
      DigitsOfValue(inner);
    }
  }

  lemma IfMatchRoundTrip(raw: string, version: nat)
    ensures ParseIfMatch(raw) == Success(version) <==> raw == Print(version) && 0 < version <= U64_MAX
    ensures ParseNotificationIfMatch(raw) == Success(version) <==> raw == Print(version) && version <= I64_MAX
  {
    ParsesExactlyThePrinted(raw, false, version);
    ParsesExactlyThePrinted(raw, true, version);
  }
}
