/** The release gate: which glibc versions an executable requires, and whether they are old enough. */
module AbiGate {
  import opened Wrappers
  import opened Bytes
  import opened ElfFormat
  import opened GlibcVersions

  /** A name is refused when it claims to be a glibc version but cannot be read as one. */
  predicate Recognised(name: string) {
    PREFIX <= name ==> Parse(name).Some?
  }

  predicate NamesRecognised(names: seq<string>) {
    forall name :: name in names ==> Recognised(name)
  }

  predicate AllRecognised(needs: seq<Need>) {
    forall need :: need in needs ==> NamesRecognised(need.names)
  }

  function VersionsNamed(names: seq<string>): set<Version> {
    set name | name in names && Parse(name).Some? :: Parse(name).value
  }

  function VersionsOf(needs: seq<Need>): set<Version> {
    set need, v | need in needs && v in VersionsNamed(need.names) :: v
  }

  // ---- What the gate reads, as functions of the file -------------------------------------

  function LayoutOf(data: seq<Byte>): Option<Layout> {
    if |data| < 6 || data[..4] != [0x7F, 0x45, 0x4C, 0x46] || data[5] != 1 then None
    else if data[4] == 2 then Some(ELF64)
    else if data[4] == 1 then Some(ELF32)
    else None
  }

  /** The rows of the section table, if every one of them is inside the file. */
  function ReadTable(row: nat -> Option<Section>, count: nat): Option<seq<Section>> {
    if count == 0 then Some([])
    else
      match (ReadTable(row, count - 1), row(count - 1))
      case (Some(before), Some(last)) => Some(before + [last])
      case _ => None
  }

  function Rows(layout: Layout, data: seq<Byte>, at: nat): nat -> Option<Section> {
    (index: nat) => SectionAt(layout, data, at + index * layout.SectionSize())
  }

  function SectionsOf(data: seq<Byte>): Option<seq<Section>> {
    match LayoutOf(data)
    case None => None
    case Some(layout) =>
      if !Fits(data, layout.offsetAt, layout.word) || !Fits(data, layout.sizesAt, 4) then None
      else
        var count := Field(data, layout.sizesAt + 2, 2);
        if Field(data, layout.sizesAt, 2) != layout.SectionSize() || count == 0 then None
        else ReadTable(Rows(layout, data, Field(data, layout.offsetAt, layout.word)), count)
  }

  function Requirements(sections: seq<Section>): seq<Section> {
    if sections == [] then []
    else
      var last := sections[|sections| - 1];
      Requirements(sections[..|sections| - 1]) + if last.kind == VERNEED then [last] else []
  }

  function Contents(data: seq<Byte>, section: Section): Option<seq<Byte>> {
    if section.offset + section.size > |data| then None
    else Some(data[section.offset..section.offset + section.size])
  }

  /** The only version-requirement section with its records, when the file has exactly one. */
  function RecordsIn(data: seq<Byte>): Option<(Records, nat)> {
    match SectionsOf(data)
    case None => None
    case Some(sections) =>
      var found := Requirements(sections);
      if |found| != 1 || found[0].link >= |sections| || sections[found[0].link].kind != STRTAB then None
      else
        match (Contents(data, sections[found[0].link]), Contents(data, found[0]))
        case (Some(strings), Some(versions)) => Some((RecordsOf(versions, strings), found[0].info))
        case _ => None
  }

  /** A name is refused exactly if it begins like a glibc version and is not one. */
  lemma RecognisedIff(name: string)
    ensures !Recognised(name) <==>
            && |name| >= 6 && name[..6] == "GLIBC_"
            && forall v: Version, parts :: !(2 <= |v| == |parts| && Numerals(parts, v) && name == "GLIBC_" + WithDots(parts))
  {
    assert PREFIX <= name <==> |name| >= 6 && name[..6] == "GLIBC_";
    forall v ensures Parse(name) == Some(v) <==>
                     |v| >= 2 && exists parts :: |parts| == |v| && Numerals(parts, v) && name == PREFIX + WithDots(parts)
    {
      ParseIff(name, v);
    }
    if Parse(name).Some? {
      var v := Parse(name).value;
      var parts :| |parts| == |v| && Numerals(parts, v) && name == PREFIX + WithDots(parts);
    }
  }

  /** The file's version requirements are exactly `needs`. */
  ghost predicate Holds(data: seq<Byte>, needs: seq<Need>) {
    && RecordsIn(data).Some?
    && NeedChain(RecordsIn(data).value.0, 0, needs)
    && |needs| == RecordsIn(data).value.1
  }

  /** What the gate answers for a chain of records. */
  function Answer(needs: Option<seq<Need>>, info: nat): Option<set<Version>> {
    if needs.Some? && AllRecognised(needs.value) && |needs.value| == info && VersionsOf(needs.value) != {}
    then Some(VersionsOf(needs.value))
    else None
  }

  function Required(data: seq<Byte>): Option<set<Version>> {
    match RecordsIn(data)
    case None => None
    case Some((records, info)) => Answer(ReadNeeds(records, 0), info)
  }

  /** The gate reports versions exactly when the file holds a well-formed chain of recognised
      names, and then it reports exactly the glibc versions named in it. */
  lemma RequiredIsWhatTheFileHolds(data: seq<Byte>, versions: set<Version>)
    ensures Required(data) == Some(versions) <==>
      exists needs :: Holds(data, needs) && AllRecognised(needs) && versions == VersionsOf(needs) && versions != {}
  {
    if RecordsIn(data).Some? {
      var (records, info) := RecordsIn(data).value;
      if Required(data) == Some(versions) {
        var needs := ReadNeeds(records, 0).value;
        ReadNeedsIsTheChain(records, 0, needs);
        assert Holds(data, needs);
      }
      forall needs | Holds(data, needs) ensures ReadNeeds(records, 0) == Some(needs) {
        ReadNeedsIsTheChain(records, 0, needs);
      }
    }
  }

  // ---- The program -----------------------------------------------------------------------

  /** The inner loop: the version names of one record. */
  method ReadAuxiliaries(r: Records, start: nat, count: nat, found: set<Version>) returns (result: Option<set<Version>>)
    requires count > 0
    ensures var names := ReadNames(r, start, count);
      result == if names.Some? && NamesRecognised(names.value)
                then Some(found + VersionsNamed(names.value)) else None
  {
    var position: nat, versions := start, found;
    ghost var done: seq<string> := [];
    BehindNothing(ReadNames(r, start, count));
    for index := 0 to count
      invariant |done| == index && NamesRecognised(done)
      invariant versions == found + VersionsNamed(done)
      invariant ReadNames(r, start, count) ==
        if index < count then Behind(done, ReadNames(r, position, count - index)) else Some(done)
    {
      if position + RECORD > r.size {
        return None;
      }
      var aux := r.aux(position);
      var requirement := r.text(aux.name);
      if requirement.None? {
        return None;
      }
      ghost var rest := ReadNames(r, position, count - index);
      if PREFIX <= requirement.value {
        var version := Parse(requirement.value);
        if version.None? {
          RefusedName(done, rest, requirement.value);
          return None;
        }
        versions := versions + {version.value};
      }
      ExtendVersionsNamed(done, requirement.value);
      done := done + [requirement.value];
      if index + 1 < count {
        if aux.following < RECORD {
          return None;
        }
        position := position + aux.following;
        assert rest == Behind([requirement.value], ReadNames(r, position, count - index - 1));
        BehindTwice(done[..index], requirement.value, ReadNames(r, position, count - index - 1));
        assert done[..index] + [requirement.value] == done;
      } else if aux.following != 0 {
        return None;
      }
    }
    return Some(versions);
  }

  lemma ExtendVersionsNamed(names: seq<string>, name: string)
    ensures VersionsNamed(names + [name]) == VersionsNamed(names) + if Parse(name).Some? then {Parse(name).value} else {}
    ensures NamesRecognised(names + [name]) <==> NamesRecognised(names) && Recognised(name)
  {
    assert forall n :: n in names + [name] <==> n in names || n == name;
  }

  lemma RefusedName(done: seq<string>, rest: Option<seq<string>>, name: string)
    requires rest.Some? ==> rest.value != [] && rest.value[0] == name
    requires !Recognised(name)
    ensures Behind(done, rest).Some? ==> !NamesRecognised(Behind(done, rest).value)
  {
    if rest.Some? {
      assert (done + rest.value)[|done|] == name && name in done + rest.value;
    }
  }

  lemma ExtendVersionsOf(needs: seq<Need>, need: Need)
    ensures VersionsOf(needs + [need]) == VersionsOf(needs) + VersionsNamed(need.names)
    ensures AllRecognised(needs + [need]) <==> AllRecognised(needs) && NamesRecognised(need.names)
  {
    assert need in needs + [need];
    assert forall n :: n in needs + [need] <==> n in needs || n == need;
  }

  /** One requirement record: its own fields, and the versions named behind it. */
  method ReadRecord(r: Records, offset: nat, found: set<Version>) returns (result: Option<set<Version>>)
    ensures var need := NeedAt(r, offset);
      result == if need.Some? && NamesRecognised(need.value.names)
                then Some(found + VersionsNamed(need.value.names)) else None
  {
    if offset + RECORD > r.size {
      return None;
    }
    var need := r.need(offset);
    if need.version != 1 || need.count == 0 || need.auxiliary < RECORD || r.text(need.library).None? {
      return None;
    }
    result := ReadAuxiliaries(r, offset + need.auxiliary, need.count, found);
  }

  /** The outer loop: all requirement records. */
  method ReadRequirements(r: Records, info: nat) returns (result: Option<set<Version>>)
    ensures result == Answer(ReadNeeds(r, 0), info)
  {
    var offset: nat, records, found := 0, 0, {};
    ghost var done: seq<Need> := [];
    BehindNothing(ReadNeeds(r, 0));
    while true
      invariant records == |done| && AllRecognised(done) && found == VersionsOf(done)
      invariant ReadNeeds(r, 0) == Behind(done, ReadNeeds(r, offset))
      decreases r.size - offset
    {
      var more := ReadRecord(r, offset, found);
      if more.None? {
        RefusedRecord(r, offset, done);
        return None;
      }
      ghost var first := NeedAt(r, offset).value;
      var following := r.need(offset).following;
      ExtendVersionsOf(done, first);
      found, records := more.value, records + 1;
      if following == 0 {
        assert ReadNeeds(r, 0) == Some(done + [first]);
        break;
      }
      if following < RECORD {
        return None;
      }
      offset := offset + following;
      BehindTwice(done, first, ReadNeeds(r, offset));
      done := done + [first];
    }
    if records != info || found == {} {
      return None;
    }
    return Some(found);
  }

  /** A record that cannot be read, or names an unrecognised version, spoils the whole answer. */
  lemma RefusedRecord(r: Records, offset: nat, done: seq<Need>)
    requires NeedAt(r, offset).None? || !NamesRecognised(NeedAt(r, offset).value.names)
    ensures var all := Behind(done, ReadNeeds(r, offset)); all.None? || !AllRecognised(all.value)
  {
    var all := Behind(done, ReadNeeds(r, offset));
    if all.Some? {
      assert all.value[|done|] == ReadNeeds(r, offset).value[0];
      assert all.value[|done|] in all.value;
    }
  }

  method RequiredGlibcVersions(data: seq<Byte>) returns (result: Option<set<Version>>)
    ensures result == Required(data)
  {
    var layout := LayoutOf(data);
    if layout.None? || !Fits(data, layout.value.offsetAt, layout.value.word) || !Fits(data, layout.value.sizesAt, 4) {
      return None;
    }
    var entrySize, count := Field(data, layout.value.sizesAt, 2), Field(data, layout.value.sizesAt + 2, 2);
    var tableOffset := Field(data, layout.value.offsetAt, layout.value.word);
    if entrySize != layout.value.SectionSize() || count == 0 {
      return None;
    }
    var sections := ReadSections(Rows(layout.value, data, tableOffset), count);
    if sections.None? {
      return None;
    }
    var requirements := Requirements(sections.value);
    if |requirements| != 1 {
      return None;
    }
    var section := requirements[0];
    if section.link >= |sections.value| || sections.value[section.link].kind != STRTAB {
      return None;
    }
    var strings := Contents(data, sections.value[section.link]);
    var versions := Contents(data, section);
    if strings.None? || versions.None? {
      return None;
    }
    result := ReadRequirements(RecordsOf(versions.value, strings.value), section.info);
  }

  method ReadSections(row: nat -> Option<Section>, count: nat) returns (sections: Option<seq<Section>>)
    ensures sections == ReadTable(row, count)
  {
    var read := [];
    for index := 0 to count
      invariant ReadTable(row, index) == Some(read)
    {
      var section := row(index);
      if section.None? {
        TableNeedsEveryRow(row, index + 1, count);
        return None;
      }
      read := read + [section.value];
    }
    return Some(read);
  }

  lemma {:induction false} TableNeedsEveryRow(row: nat -> Option<Section>, few: nat, count: nat)
    requires few <= count && ReadTable(row, few).None?
    ensures ReadTable(row, count).None?
    decreases count
  {
    if few < count {
      TableNeedsEveryRow(row, few, count - 1);
    }
  }

  lemma RequiredHaveTwoParts(data: seq<Byte>)
    ensures Required(data).Some? ==> forall v :: v in Required(data).value ==> |v| >= 2
  {}

  lemma BaselineForAll(versions: set<Version>)
    requires forall v :: v in versions ==> |v| >= 2
    ensures (forall v :: v in versions ==> AtMost(v, BASELINE)) <==> forall v :: v in versions ==> OldEnough(v)
  {
    forall v | v in versions ensures AtMost(v, BASELINE) <==> OldEnough(v) {
      BaselineIff(v);
    }
  }

  /** The gate lets a file pass exactly when every version it requires is at most 2.28, and then
      names the largest of them. */
  method VerifyGlibcRequirements(data: seq<Byte>) returns (accepted: Option<Version>)
    ensures accepted.Some? <==> Required(data).Some? && forall v :: v in Required(data).value ==> AtMost(v, BASELINE)
    ensures accepted.Some? ==> accepted.value in Required(data).value
    ensures accepted.Some? ==> forall v :: v in Required(data).value ==> AtMost(v, accepted.value)
    ensures Required(data).Some? ==> forall v :: v in Required(data).value ==> |v| >= 2
    ensures accepted.Some? <==> Required(data).Some? && forall v :: v in Required(data).value ==> OldEnough(v)
  {
    RequiredHaveTwoParts(data);
    var versions := RequiredGlibcVersions(data);
    if versions.None? {
      return None;
    }
    BaselineForAll(versions.value);
    var required := Max(versions.value);
    if !AtMost(required, BASELINE) {
      return None;
    }
    forall v | v in versions.value ensures AtMost(v, BASELINE) {
      AtMostIsTransitive(v, required, BASELINE);
    }
    return Some(required);
  }
}
