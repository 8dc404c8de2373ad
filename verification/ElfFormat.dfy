/**
 The parts of an ELF file the release gate reads: the section table, a string table and the
 chain of version requirements ("Version Requirements" in the "Symbol Versioning" chapter of
 the Linux Standard Base Core Specification). `None` stands for the script's ValueError.
 */
module ElfFormat {
  import opened Wrappers
  import opened Bytes

  const STRTAB: nat := 3
  const VERNEED: nat := 0x6FFF_FFFE

  /** One ELF class: the width of its addresses, and where the header keeps the section table. */
  datatype Layout = Layout(word: nat, offsetAt: nat, sizesAt: nat)
  {
    function SectionSize(): nat { 16 + 6 * word }
  }

  const ELF64 := Layout(8, 40, 58)
  const ELF32 := Layout(4, 32, 46)

  predicate Fits(data: seq<Byte>, offset: nat, size: nat) {
    offset + size <= |data|
  }

  function Field(data: seq<Byte>, offset: nat, width: nat): nat
    requires Fits(data, offset, width)
  {
    FromLittleEndian(data[offset..offset + width])
  }

  // ---- Strings ---------------------------------------------------------------------------

  function FindZero(data: seq<Byte>, offset: nat): Option<nat>
    decreases |data| - offset
  {
    if offset >= |data| then None else if data[offset] == 0 then Some(offset) else FindZero(data, offset + 1)
  }

  predicate IsAscii(bytes: seq<Byte>) {
    forall i :: 0 <= i < |bytes| ==> bytes[i] < 128
  }

  function Text(bytes: seq<Byte>): string
    requires IsAscii(bytes)
  {
    seq(|bytes|, i requires 0 <= i < |bytes| => bytes[i] as char)
  }

  /** The string that starts at `offset` and runs to the next NUL. */
  function StringAt(data: seq<Byte>, offset: nat): Option<string> {
    match FindZero(data, offset)
    case None => None
    case Some(end) => if offset <= end <= |data| && IsAscii(data[offset..end]) then Some(Text(data[offset..end])) else None
  }

  lemma {:induction false} FindZeroIff(data: seq<Byte>, offset: nat, end: nat)
    ensures FindZero(data, offset) == Some(end) <==>
            offset <= end < |data| && data[end] == 0 && forall i :: offset <= i < end ==> data[i] != 0
    decreases |data| - offset
  {
    if offset < |data| && data[offset] != 0 {
      FindZeroIff(data, offset + 1, end);
    }
  }

  /** The characters of the text stand from `offset` on, none of them zero and all of seven bits, with a zero
      behind them. */
  predicate TextStands(data: seq<Byte>, offset: nat, text: string) {
    && offset + |text| < |data| && data[offset + |text|] == 0
    && forall i :: 0 <= i < |text| ==> data[offset + i] == text[i] as int && 1 <= text[i] as int <= 127
  }

  lemma ReadTextStands(data: seq<Byte>, offset: nat, text: string)
    requires StringAt(data, offset) == Some(text)
    ensures TextStands(data, offset, text)
  {
    var found := FindZero(data, offset).value;
    FindZeroIff(data, offset, found);
    var part := data[offset..found];
    assert text == Text(part) && |text| == found - offset;
    forall i | 0 <= i < |text| ensures data[offset + i] == text[i] as int && 1 <= text[i] as int <= 127 {
      assert part[i] == data[offset + i] && text[i] == part[i] as char;
    }
  }

  lemma StandingTextIsRead(data: seq<Byte>, offset: nat, text: string)
    requires TextStands(data, offset, text)
    ensures StringAt(data, offset) == Some(text)
  {
    FindZeroIff(data, offset, offset + |text|);
    var part := data[offset..offset + |text|];
    assert forall i :: 0 <= i < |part| ==> part[i] == data[offset + i] == text[i] as int;
    assert Text(part) == text;
  }

  /** A text is read exactly where it stands. */
  lemma StringAtIff(data: seq<Byte>, offset: nat, text: string)
    ensures StringAt(data, offset) == Some(text) <==> TextStands(data, offset, text)
  {
    if StringAt(data, offset) == Some(text) {
      ReadTextStands(data, offset, text);
    }
    if TextStands(data, offset, text) {
      StandingTextIsRead(data, offset, text);
    }
  }

  // ---- Records ---------------------------------------------------------------------------

  datatype Section = Section(kind: nat, offset: nat, size: nat, link: nat, info: nat)

  function SectionAt(layout: Layout, data: seq<Byte>, at: nat): Option<Section> {
    if !Fits(data, at, layout.SectionSize()) then None
    else
      var w := layout.word;
      Some(Section(
        Field(data, at + 4, 4), Field(data, at + 8 + 2 * w, w), Field(data, at + 8 + 3 * w, w),
        Field(data, at + 8 + 4 * w, 4), Field(data, at + 12 + 4 * w, 4)))
  }

  datatype Verneed = Verneed(version: nat, count: nat, library: nat, auxiliary: nat, following: nat)

  datatype Vernaux = Vernaux(name: nat, following: nat)

  const RECORD: nat := 16

  function VerneedAt(data: seq<Byte>, at: nat): Verneed
    requires Fits(data, at, RECORD)
  {
    Verneed(Field(data, at, 2), Field(data, at + 2, 2), Field(data, at + 4, 4), Field(data, at + 8, 4), Field(data, at + 12, 4))
  }

  function VernauxAt(data: seq<Byte>, at: nat): Vernaux
    requires Fits(data, at, RECORD)
  {
    Vernaux(Field(data, at + 8, 4), Field(data, at + 12, 4))
  }

  /** A version section and its string table as the chain walk sees them: records below `size`, and strings. */
  datatype Records = Records(size: nat, need: nat -> Verneed, aux: nat -> Vernaux, text: nat -> Option<string>)

  function RecordsOf(versions: seq<Byte>, strings: seq<Byte>): Records {
    Records(
      |versions|,
      (at: nat) => if Fits(versions, at, RECORD) then VerneedAt(versions, at) else Verneed(0, 0, 0, 0, 0),
      (at: nat) => if Fits(versions, at, RECORD) then VernauxAt(versions, at) else Vernaux(0, 0),
      (at: nat) => StringAt(strings, at))
  }

  // ---- The requirement chain -------------------------------------------------------------

  /** One needed library and the names of the versions needed of it. */
  datatype Need = Need(library: string, names: seq<string>)

  /** From `at` on the section is a chain of exactly these version names, at any spacing. */
  ghost predicate AuxChain(r: Records, at: nat, names: seq<string>)
    decreases |names|
  {
    && names != [] && at + RECORD <= r.size
    && r.text(r.aux(at).name) == Some(names[0])
    && if |names| == 1 then r.aux(at).following == 0
       else r.aux(at).following >= RECORD && AuxChain(r, at + r.aux(at).following, names[1..])
  }

  /** From `at` on the section is a chain of exactly these requirement records, at any spacing. */
  ghost predicate NeedChain(r: Records, at: nat, needs: seq<Need>)
    decreases |needs|
  {
    && needs != [] && at + RECORD <= r.size
    && var need := r.need(at);
    && need.version == 1 && need.count == |needs[0].names| && need.auxiliary >= RECORD
    && r.text(need.library) == Some(needs[0].library)
    && AuxChain(r, at + need.auxiliary, needs[0].names)
    && if |needs| == 1 then need.following == 0
       else need.following >= RECORD && NeedChain(r, at + need.following, needs[1..])
  }

  /** Reads `count` chained version names. */
  function ReadNames(r: Records, at: nat, count: nat): Option<seq<string>>
    requires count > 0
    decreases count
  {
    if at + RECORD > r.size then None
    else
      var aux := r.aux(at);
      match r.text(aux.name)
      case None => None
      case Some(name) =>
        if count == 1 then (if aux.following == 0 then Some([name]) else None)
        else if aux.following < RECORD then None
        else
          match ReadNames(r, at + aux.following, count - 1)
          case None => None
          case Some(rest) => Some([name] + rest)
  }

  /** Reads one requirement record with its version names. */
  function NeedAt(r: Records, at: nat): Option<Need> {
    if at + RECORD > r.size then None
    else
      var need := r.need(at);
      if need.version != 1 || need.count == 0 || need.auxiliary < RECORD || r.text(need.library).None? then None
      else
        match ReadNames(r, at + need.auxiliary, need.count)
        case None => None
        case Some(names) => Some(Need(r.text(need.library).value, names))
  }

  /** Reads requirement records until one has no follower; every hop moves at least a record on. */
  function ReadNeeds(r: Records, at: nat): Option<seq<Need>>
    decreases r.size - at
  {
    match NeedAt(r, at)
    case None => None
    case Some(first) =>
      var following := r.need(at).following;
      if following == 0 then Some([first])
      else if following < RECORD then None
      else
        match ReadNeeds(r, at + following)
        case None => None
        case Some(rest) => Some([first] + rest)
  }

  lemma {:induction false} ReadNamesIsTheChain(r: Records, at: nat, count: nat, names: seq<string>)
    requires count > 0
    ensures ReadNames(r, at, count) == Some(names) <==> |names| == count && AuxChain(r, at, names)
    decreases count
  {
    if at + RECORD <= r.size && names != [] {
      assert names == [names[0]] + names[1..];
      assert |names| == 1 ==> names == [names[0]];
      if count > 1 && r.aux(at).following >= RECORD {
        var next := at + r.aux(at).following;
        ReadNamesIsTheChain(r, next, count - 1, names[1..]);
        if ReadNames(r, at, count) == Some(names) {
          assert names[1..] == ReadNames(r, next, count - 1).value;
        }
      }
    }
  }

  lemma {:induction false} ChainIsRead(r: Records, at: nat, needs: seq<Need>)
    requires NeedChain(r, at, needs)
    ensures ReadNeeds(r, at) == Some(needs)
    decreases |needs|
  {
    var need := r.need(at);
    ReadNamesIsTheChain(r, at + need.auxiliary, need.count, needs[0].names);
    var first := Need(r.text(need.library).value, needs[0].names);
    if |needs| > 1 {
      ChainIsRead(r, at + need.following, needs[1..]);
      assert needs == [first] + needs[1..];
    } else {
      assert needs == [first];
    }
  }

  lemma {:induction false} ReadIsChain(r: Records, at: nat)
    requires ReadNeeds(r, at).Some?
    ensures NeedChain(r, at, ReadNeeds(r, at).value)
    decreases r.size - at
  {
    var need := r.need(at);
    var needs := ReadNeeds(r, at).value;
    ReadNamesIsTheChain(r, at + need.auxiliary, need.count, needs[0].names);
    if need.following != 0 {
      ReadIsChain(r, at + need.following);
      assert needs[1..] == ReadNeeds(r, at + need.following).value;
    }
  }

  /** The reader finds exactly the chain the section holds, and nothing when it holds none. */
  lemma ReadNeedsIsTheChain(r: Records, at: nat, needs: seq<Need>)
    ensures ReadNeeds(r, at) == Some(needs) <==> NeedChain(r, at, needs)
  {
    if NeedChain(r, at, needs) {
      ChainIsRead(r, at, needs);
    }
    if ReadNeeds(r, at).Some? {
      ReadIsChain(r, at);
    }
  }
}
