/** Names of glibc symbol versions, and the order the release gate compares them by. */
module GlibcVersions {
  import opened Wrappers
  import opened Decimal

  type Version = seq<nat>

  const PREFIX: string := "GLIBC_"
  const BASELINE: Version := [2, 28]

  /** Position of the first dot, or the length when there is none. */
  function FirstDot(s: string): (i: nat)
    ensures i <= |s| && (i < |s| ==> s[i] == '.')
    ensures forall j :: 0 <= j < i ==> s[j] != '.'
  {
    if s == "" || s[0] == '.' then 0 else 1 + FirstDot(s[1..])
  }

  /** Numbers separated by single dots. */
  function Dotted(s: string): Option<Version>
    decreases |s|
  {
    var i := FirstDot(s);
    if i == 0 || !AllDigits(s[..i]) then None
    else if i == |s| then Some([Value(s)])
    else
      match Dotted(s[i + 1..])
      case None => None
      case Some(rest) => Some([Value(s[..i])] + rest)
  }

  /** The version of a name that matches `GLIBC_\d+(?:\.\d+)+` completely. */
  function Parse(name: string): Option<Version> {
    if !(PREFIX <= name) then None
    else
      match Dotted(name[|PREFIX|..])
      case None => None
      case Some(v) => if |v| >= 2 then Some(v) else None
  }

  function Joined(v: Version): string
    requires v != []
  {
    if |v| == 1 then Digits(v[0]) else Digits(v[0]) + "." + Joined(v[1..])
  }

  function Name(v: Version): string
    requires |v| >= 2
  {
    PREFIX + Joined(v)
  }

  lemma FirstDotIs(s: string, i: nat)
    requires i <= |s| && (i < |s| ==> s[i] == '.') && forall j :: 0 <= j < i ==> s[j] != '.'
    ensures FirstDot(s) == i
  {
  }

  lemma DottedHead(head: string, rest: string)
    requires head != "" && AllDigits(head)
    ensures Dotted(head) == Some([Value(head)])
    ensures Dotted(head + "." + rest) == if Dotted(rest).Some? then Some([Value(head)] + Dotted(rest).value) else None
  {
    FirstDotIs(head, |head|);
    assert head[..|head|] == head;
    var s := head + "." + rest;
    FirstDotIs(s, |head|);
    assert s[..|head|] == head && s[|head| + 1..] == rest;
  }

  lemma {:induction false} DottedJoined(v: Version)
    requires v != []
    ensures Dotted(Joined(v)) == Some(v)
    decreases |v|
  {
    ValueOfDigits(v[0]);
    if |v| == 1 {
      DottedHead(Digits(v[0]), "");
      assert v == [v[0]];
    } else {
      DottedHead(Digits(v[0]), Joined(v[1..]));
      DottedJoined(v[1..]);
      assert v == [v[0]] + v[1..];
    }
  }

  /** Every version's own name is recognised as that version. */
  lemma NameRoundTrip(v: Version)
    requires |v| >= 2
    ensures Parse(Name(v)) == Some(v)
  {
    assert Name(v)[|PREFIX|..] == Joined(v);
    DottedJoined(v);
  }

  /** Non-empty runs of digits, leading zeros included, and the numbers they stand for. */
  predicate Numerals(parts: seq<string>, v: Version) {
    |parts| == |v| && forall i :: 0 <= i < |parts| ==> parts[i] != "" && AllDigits(parts[i]) && Value(parts[i]) == v[i]
  }

  function WithDots(parts: seq<string>): string
    requires parts != []
  {
    if |parts| == 1 then parts[0] else parts[0] + "." + WithDots(parts[1..])
  }

  lemma {:induction false} DottedNumerals(parts: seq<string>, v: Version)
    requires parts != [] && Numerals(parts, v)
    ensures Dotted(WithDots(parts)) == Some(v)
    decreases |parts|
  {
    if |parts| == 1 {
      DottedHead(parts[0], "");
      assert v == [v[0]];
    } else {
      DottedHead(parts[0], WithDots(parts[1..]));
      DottedNumerals(parts[1..], v[1..]);
      assert v == [v[0]] + v[1..];
    }
  }

  lemma {:induction false} NumeralsOf(s: string) returns (parts: seq<string>)
    requires Dotted(s).Some?
    ensures parts != [] && Numerals(parts, Dotted(s).value) && s == WithDots(parts)
    decreases |s|
  {
    var i := FirstDot(s);
    if i == |s| {
      assert s[..i] == s;
      parts := [s];
    } else {
      var rest := NumeralsOf(s[i + 1..]);
      parts := [s[..i]] + rest;
      assert parts[1..] == rest && s == s[..i] + "." + s[i + 1..];
    }
  }

  /** A name is read as a version exactly when it is the prefix and two or more numerals with single dots
      between them. */
  lemma ParseIff(name: string, v: Version)
    ensures Parse(name) == Some(v) <==>
            |v| >= 2 && exists parts :: |parts| == |v| && Numerals(parts, v) && name == PREFIX + WithDots(parts)
  {
    if Parse(name) == Some(v) {
      var parts := NumeralsOf(name[|PREFIX|..]);
      assert name == PREFIX + WithDots(parts);
    }
    forall parts | |parts| == |v| >= 2 && Numerals(parts, v) && name == PREFIX + WithDots(parts) ensures Parse(name) == Some(v) {
      assert name[|PREFIX|..] == WithDots(parts);
      DottedNumerals(parts, v);
    }
  }

  // ---- Order -----------------------------------------------------------------------------

  /** The order of tuples: the first difference decides, and a proper prefix comes first. */
  predicate AtMost(a: Version, b: Version)
    decreases |a|
  {
    a == [] || (b != [] && (a[0] < b[0] || (a[0] == b[0] && AtMost(a[1..], b[1..]))))
  }

  predicate Below(a: Version, b: Version, k: nat) {
    k < |a| && k < |b| && a[..k] == b[..k] && a[k] < b[k]
  }

  /** In numbers: `a` is a beginning of `b`, or smaller at the first difference. */
  lemma {:induction false} AtMostIff(a: Version, b: Version)
    ensures AtMost(a, b) <==> a <= b || exists k :: Below(a, b, k)
    decreases |a|
  {
    if a != [] && b != [] {
      AtMostIff(a[1..], b[1..]);
      if a[0] == b[0] {
        assert a == [a[0]] + a[1..] && b == [b[0]] + b[1..];
        forall k: nat | Below(a[1..], b[1..], k) ensures Below(a, b, k + 1) {
          assert a[..k + 1] == [a[0]] + a[1..][..k] && b[..k + 1] == [b[0]] + b[1..][..k];
        }
        forall k: nat | Below(a, b, k) ensures k > 0 && Below(a[1..], b[1..], k - 1) {
          assert a[1..][..k - 1] == a[..k][1..] && b[1..][..k - 1] == b[..k][1..];
        }
      } else if a[0] < b[0] {
        assert Below(a, b, 0);
      } else {
        forall k: nat ensures !Below(a, b, k) {
          if 0 < k <= |a| && k <= |b| {
            assert a[..k][0] == a[0] && b[..k][0] == b[0];
          }
        }
      }
    }
  }

  /** Old enough: 1.x, 2.x with x below 28 and anything behind it, or exactly 2.28. */
  predicate OldEnough(v: Version)
    requires |v| >= 2
  {
    v[0] < 2 || (v[0] == 2 && v[1] < 28) || v == [2, 28]
  }

  lemma BaselineIff(v: Version)
    requires |v| >= 2
    ensures AtMost(v, BASELINE) <==> OldEnough(v)
  {
    AtMostIff(v, BASELINE);
    assert Below(v, BASELINE, 0) <==> v[0] < 2;
    assert v[..1] == [v[0]] && BASELINE[..1] == [2];
    assert Below(v, BASELINE, 1) <==> v[0] == 2 && v[1] < 28;
    assert v <= BASELINE <==> v == [2, 28];
  }

  lemma {:induction false} AtMostIsTotal(a: Version, b: Version)
    ensures AtMost(a, b) || AtMost(b, a)
    ensures AtMost(a, b) && AtMost(b, a) ==> a == b
    decreases |a|
  {
    if a != [] && b != [] {
      AtMostIsTotal(a[1..], b[1..]);
      assert a == [a[0]] + a[1..] && b == [b[0]] + b[1..];
    }
  }

  lemma {:induction false} AtMostIsTransitive(a: Version, b: Version, c: Version)
    requires AtMost(a, b) && AtMost(b, c)
    ensures AtMost(a, c)
    decreases |a|
  {
    if a != [] && a[0] == b[0] == c[0] {
      AtMostIsTransitive(a[1..], b[1..], c[1..]);
    }
  }

  /** `max`: the loop keeps the largest version seen so far. */
  method Max(versions: set<Version>) returns (largest: Version)
    requires versions != {}
    ensures largest in versions
    ensures forall v :: v in versions ==> AtMost(v, largest)
  {
    largest :| largest in versions;
    var rest := versions - {largest};
    AtMostIsTotal(largest, largest);
    while rest != {}
      invariant rest <= versions && largest in versions
      invariant forall v :: v in versions - rest ==> AtMost(v, largest)
    {
      var next :| next in rest;
      rest := rest - {next};
      AtMostIsTotal(next, largest);
      AtMostIsTotal(next, next);
      if !AtMost(next, largest) {
        forall v | v in versions - rest ensures AtMost(v, next) {
          if v != next {
            AtMostIsTransitive(v, largest, next);
          }
        }
        largest := next;
      }
    }
  }
}
