/** The checked CSV mapping from legacy account ids to canonical account UUIDs. */
module IdentityMapping {
  import opened Wrappers
  import opened UuidText

  datatype Kind = Carbon | Silicon

  type Substitution = map<string, string>

  datatype Mapping = Mapping(targets: Substitution, kinds: map<string, Kind>)

  datatype Error = BadHeader | BadLine(line: nat) | EmptyOrChained

  const HEADER := ["old_uuid", "new_uuid", "kind"]

  /** The characters for which Python's `isspace` holds. */
  predicate IsSpace(c: char) {
    var n := c as int;
    9 <= n <= 13 || 28 <= n <= 32 || n == 0x85 || n == 0xA0 || n == 0x1680 || 0x2000 <= n <= 0x200A
    || n == 0x2028 || n == 0x2029 || n == 0x202F || n == 0x205F || n == 0x3000
  }

  predicate ValidSource(id: string) {
    id != "" && forall i :: 0 <= i < |id| ==> !IsSpace(id[i]) && id[i] != ':' && id[i] != ',' && id[i] != '/'
  }

  function KindNamed(name: string): Option<Kind> {
    if name == "carbon" then Some(Carbon) else if name == "silicon" then Some(Silicon) else None
  }

  function Source(row: seq<string>): string {
    if |row| == 3 then row[0] else ""
  }

  function Target(row: seq<string>): string {
    if |row| == 3 then row[1] else ""
  }

  function KindOf(row: seq<string>): Option<Kind> {
    if |row| == 3 then KindNamed(row[2]) else None
  }

  /** One line that can stand in a mapping by itself. */
  predicate ValidRow(row: seq<string>) {
    |row| == 3 && ValidSource(Source(row)) && CanonicalUuid4(Target(row)) && KindOf(row).Some? && Source(row) != Target(row)
  }

  /** The codes of the characters for which Python's `isspace` holds. */
  const SPACES := {9, 10, 11, 12, 13, 28, 29, 30, 31, 32, 133, 160, 5760, 8192, 8193, 8194, 8195, 8196, 8197, 8198, 8199, 8200, 8201, 8202,
                   8232, 8233, 8239, 8287, 12288}

  lemma SourceIff(id: string)
    ensures ValidSource(id) <==>
            |id| > 0 && forall c :: c in id ==> c as int !in SPACES && c != ':' && c != ',' && c != '/'
  {
    forall c: char ensures IsSpace(c) <==> c as int in SPACES {}
    assert forall i :: 0 <= i < |id| ==> id[i] in id;
  }

  /** Exactly which lines can be used by themselves: three cells; an id without spaces, colons, commas and
      slashes; a printed UUID of version 4, another id than that; and one of the two kinds. */
  lemma UsableLineIff(row: seq<string>)
    ensures ValidRow(row) <==>
            && |row| == 3
            && |row[0]| > 0 && (forall c :: c in row[0] ==> c as int !in SPACES && c != ':' && c != ',' && c != '/')
            && (exists digits :: IsNumber128(digits) && row[1] == Printed(digits) && digits[12] == 4 && digits[16] / 4 == 2)
            && (row[2] == "carbon" || row[2] == "silicon") && row[0] != row[1]
  {
    if |row| == 3 {
      SourceIff(row[0]);
      CanonicalUuid4Iff(row[1]);
    }
  }

  function Sources(rows: seq<seq<string>>): set<string> {
    set row | row in rows :: Source(row)
  }

  function Targets(rows: seq<seq<string>>): set<string> {
    set row | row in rows :: Target(row)
  }

  /** Every line can be used, and no source or target is named on two lines. */
  ghost predicate ValidLines(rows: seq<seq<string>>) {
    && (forall i :: 0 <= i < |rows| ==> ValidRow(rows[i]))
    && forall i, j :: 0 <= i < j < |rows| ==> Source(rows[i]) != Source(rows[j]) && Target(rows[i]) != Target(rows[j])
  }

  ghost predicate Acceptable(rows: seq<seq<string>>) {
    ValidLines(rows) && rows != [] && Sources(rows) !! Targets(rows)
  }

  predicate SaysRow(m: Mapping, row: seq<string>) {
    && Source(row) in m.targets && m.targets[Source(row)] == Target(row)
    && Source(row) in m.kinds && Some(m.kinds[Source(row)]) == KindOf(row)
  }

  /** The mapping says what the lines say, and nothing else. */
  ghost predicate Lists(m: Mapping, rows: seq<seq<string>>) {
    && m.targets.Keys == m.kinds.Keys == Sources(rows)
    && forall row :: row in rows ==> SaysRow(m, row)
  }

  // ---- What every other step relies on ---------------------------------------------------

  ghost predicate Injective(m: Substitution) {
    forall a, b :: a in m && b in m && m[a] == m[b] ==> a == b
  }

  /** No target is itself a source, so a second pass finds nothing to replace. */
  ghost predicate Unchained(m: Substitution) {
    forall a, b :: a in m && b in m ==> m[a] != b
  }

  ghost predicate IsMapping(m: Mapping) {
    && m.targets.Keys == m.kinds.Keys && m.targets.Keys != {}
    && Injective(m.targets) && Unchained(m.targets)
    && forall id :: id in m.targets ==> ValidSource(id) && CanonicalUuid4(m.targets[id])
  }

  lemma AcceptedIsMapping(m: Mapping, rows: seq<seq<string>>)
    requires Acceptable(rows) && Lists(m, rows)
    ensures IsMapping(m)
  {
    forall a, b | a in m.targets && b in m.targets && m.targets[a] == m.targets[b] ensures a == b {
      var i :| 0 <= i < |rows| && Source(rows[i]) == a;
      var j :| 0 <= j < |rows| && Source(rows[j]) == b;
      assert SaysRow(m, rows[i]) && SaysRow(m, rows[j]);
    }
    forall a | a in m.targets ensures m.targets[a] in Targets(rows) {
      var row :| row in rows && Source(row) == a;
      assert SaysRow(m, row);
    }
    assert Source(rows[0]) in m.targets.Keys;
  }

  /** A line is added to a mapping exactly when it repeats nothing and can stand by itself. */
  lemma LineExtends(rows: seq<seq<string>>, row: seq<string>)
    requires ValidLines(rows)
    ensures ValidLines(rows + [row]) <==> ValidRow(row) && Source(row) !in Sources(rows) && Target(row) !in Targets(rows)
  {
    var longer := rows + [row];
    assert longer[|rows|] == row && forall i :: 0 <= i < |rows| ==> longer[i] == rows[i];
    if ValidLines(longer) {
      forall other | other in rows ensures Source(other) != Source(row) && Target(other) != Target(row) {
        var i :| 0 <= i < |rows| && rows[i] == other;
        assert longer[i] == other;
      }
    } else if ValidRow(row) {
      assert exists i :: 0 <= i < |rows| && (Source(rows[i]) == Source(row) || Target(rows[i]) == Target(row));
    }
  }

  lemma SetsWith(rows: seq<seq<string>>, row: seq<string>)
    ensures Sources(rows + [row]) == Sources(rows) + {Source(row)}
    ensures Targets(rows + [row]) == Targets(rows) + {Target(row)}
  {
    assert forall other :: other in rows + [row] <==> other in rows || other == row;
  }

  function With(m: Mapping, row: seq<string>): Mapping
    requires KindOf(row).Some?
  {
    Mapping(m.targets[Source(row) := Target(row)], m.kinds[Source(row) := KindOf(row).value])
  }

  lemma StillSays(m: Mapping, row: seq<string>, other: seq<string>)
    requires KindOf(row).Some? && SaysRow(m, other) && Source(other) != Source(row)
    ensures SaysRow(With(m, row), other)
  {}

  lemma KeysWith(m: Mapping, row: seq<string>)
    requires KindOf(row).Some?
    ensures With(m, row).targets.Keys == m.targets.Keys + {Source(row)} && With(m, row).kinds.Keys == m.kinds.Keys + {Source(row)}
  {}

  lemma ListedWith(m: Mapping, rows: seq<seq<string>>, row: seq<string>)
    requires Lists(m, rows) && ValidRow(row) && Source(row) !in Sources(rows)
    ensures Lists(With(m, row), rows + [row])
  {
    SetsWith(rows, row);
    KeysWith(m, row);
    forall other | other in rows + [row] ensures SaysRow(With(m, row), other) {
      if other in rows {
        assert Source(other) in Sources(rows);
        StillSays(m, row, other);
      }
    }
  }

  /** What an accepted file says in one line is what the mapping holds, in the words of the file. */
  lemma ListedRow(m: Mapping, rows: seq<seq<string>>, row: seq<string>)
    requires Acceptable(rows) && Lists(m, rows) && row in rows
    ensures |row| == 3 && row[0] in m.targets && m.targets[row[0]] == row[1] != row[0] && row[0] in m.kinds
    ensures m.kinds[row[0]] == Carbon <==> row[2] == "carbon"
    ensures m.kinds[row[0]] == Silicon <==> row[2] == "silicon"
  {
    var i :| 0 <= i < |rows| && rows[i] == row;
    assert ValidRow(rows[i]) && SaysRow(m, row);
  }

  ghost predicate ReadSoFar(m: Mapping, targets: set<string>, rows: seq<seq<string>>) {
    ValidLines(rows) && Lists(m, rows) && targets == Targets(rows)
  }

  lemma ReadOneMore(m: Mapping, targets: set<string>, rows: seq<seq<string>>, row: seq<string>)
    requires ReadSoFar(m, targets, rows)
    requires ValidRow(row) && Source(row) !in m.targets && Target(row) !in targets
    ensures ReadSoFar(With(m, row), targets + {Target(row)}, rows + [row])
  {
    LineExtends(rows, row);
    SetsWith(rows, row);
    ListedWith(m, rows, row);
  }

  lemma WholeFile(m: Mapping, targets: set<string>, rows: seq<seq<string>>)
    requires ReadSoFar(m, targets, rows)
    ensures Acceptable(rows) <==> m.targets.Keys != {} && m.targets.Keys !! targets
    ensures Acceptable(rows) ==> IsMapping(m)
  {
    assert rows != [] ==> Source(rows[0]) in Sources(rows);
    if Acceptable(rows) {
      AcceptedIsMapping(m, rows);
    }
  }

  /** The line, counted with the header as line 1, that ends the longest usable beginning of the file. */
  ghost predicate FirstBadLine(rows: seq<seq<string>>, line: nat) {
    2 <= line < |rows| + 2 && ValidLines(rows[..line - 2]) && !ValidLines(rows[..line - 1])
  }

  lemma BadAt(rows: seq<seq<string>>, i: nat)
    requires i < |rows| && ValidLines(rows[..i]) && !ValidLines(rows[..i + 1])
    ensures FirstBadLine(rows, i + 2) && !ValidLines(rows)
  {
    var shorter := rows[..i + 1];
    assert ValidLines(rows) ==> forall k :: 0 <= k < |shorter| ==> shorter[k] == rows[k];
  }

  /** Reads the mapping line by line and refuses the file at the first line that cannot be used. */
  method ReadMapping(header: seq<string>, rows: seq<seq<string>>) returns (r: Result<Mapping, Error>)
    ensures r.Success? <==> header == HEADER && Acceptable(rows)
    ensures r.Success? ==> Lists(r.value, rows) && IsMapping(r.value)
    ensures r == Failure(BadHeader) <==> header != HEADER
    ensures r.Failure? && r.error.BadLine? ==> FirstBadLine(rows, r.error.line)
    ensures r == Failure(EmptyOrChained) <==> header == HEADER && ValidLines(rows) && !Acceptable(rows)
  {
    if header != HEADER {
      return Failure(BadHeader);
    }
    var mapping, targets: set<string> := Mapping(map[], map[]), {};
    for i := 0 to |rows|
      invariant ReadSoFar(mapping, targets, rows[..i])
    {
      var row := rows[i];
      assert rows[..i + 1] == rows[..i] + [row];
      if !ValidRow(row) || Source(row) in mapping.targets || Target(row) in targets {
        LineExtends(rows[..i], row);
        BadAt(rows, i);
        return Failure(BadLine(i + 2));
      }
      ReadOneMore(mapping, targets, rows[..i], row);
      mapping, targets := With(mapping, row), targets + {Target(row)};
    }
    assert rows[..|rows|] == rows;
    WholeFile(mapping, targets, rows);
    if mapping.targets.Keys == {} || !(mapping.targets.Keys !! targets) {
      return Failure(EmptyOrChained);
    }
    return Success(mapping);
  }
}
