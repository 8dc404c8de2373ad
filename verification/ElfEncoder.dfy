/**
 A writer of ELF files with version requirements, laid out as linkers do: records one after
 the other, each followed by its auxiliaries, in a file with a string table and one
 requirement section. Reading back what it writes gives back what was written.
 */
module ElfEncoder {
  import opened Wrappers
  import opened Bytes
  import opened ElfFormat
  import opened GlibcVersions
  import opened AbiGate

  const U16: nat := 0x1_0000
  const U32: nat := 0x1_0000_0000

  // ---- Fields ----------------------------------------------------------------------------

  /** `part` stands in `data` at `at`. */
  predicate Stands(data: seq<Byte>, at: nat, part: seq<Byte>) {
    Fits(data, at, |part|) && data[at..at + |part|] == part
  }

  /** Two parts that stand together stand one behind the other. */
  lemma Split(data: seq<Byte>, at: nat, a: seq<Byte>, b: seq<Byte>)
    requires Stands(data, at, a + b)
    ensures Stands(data, at, a) && Stands(data, at + |a|, b)
  {
    var whole := data[at..at + |a + b|];
    assert whole[..|a|] == a && whole[|a|..] == b;
    assert data[at..at + |a|] == whole[..|a|];
    assert data[at + |a|..at + |a| + |b|] == whole[|a|..];
  }

  lemma FieldStands(data: seq<Byte>, at: nat, v: nat, width: nat)
    requires Stands(data, at, LittleEndian(v, width)) && v < Pow256(width)
    ensures Field(data, at, width) == v
  {
    LittleEndianRoundTrip(v, width);
  }

  lemma Widths()
    ensures Pow256(2) == U16 && Pow256(4) == U32 && Pow256(8) == U32 * U32
  {
    assert Pow256(4) == 256 * (256 * (256 * 256));
    assert Pow256(6) == 256 * (256 * Pow256(4));
  }

  // ---- Strings ---------------------------------------------------------------------------

  /** What a NUL-terminated ASCII table can hold. */
  predicate Writable(text: string) {
    forall i :: 0 <= i < |text| ==> 0 < text[i] as int < 128
  }

  function TextBytes(text: string): seq<Byte>
    requires Writable(text)
  {
    seq(|text|, i requires 0 <= i < |text| => text[i] as int)
  }

  /** Each string behind its terminator, in order. */
  function Terminated(texts: seq<string>): seq<Byte>
    requires forall text :: text in texts ==> Writable(text)
  {
    if texts == [] then [] else TextBytes(texts[0]) + [0] + Terminated(texts[1..])
  }

  /** The strings stand one after the other from `at` on. */
  ghost predicate TextsAt(text: nat -> Option<string>, at: nat, texts: seq<string>)
    decreases |texts|
  {
    texts == [] || (text(at) == Some(texts[0]) && TextsAt(text, at + |texts[0]| + 1, texts[1..]))
  }

  lemma {:induction false} FindZeroAt(data: seq<Byte>, offset: nat, end: nat)
    requires offset <= end < |data| && data[end] == 0 && forall i :: offset <= i < end ==> data[i] != 0
    ensures FindZero(data, offset) == Some(end)
    decreases end - offset
  {
    if offset < end {
      FindZeroAt(data, offset + 1, end);
    }
  }

  lemma StringStands(data: seq<Byte>, at: nat, text: string)
    requires Writable(text) && Stands(data, at, TextBytes(text) + [0])
    ensures StringAt(data, at) == Some(text)
  {
    var part := TextBytes(text) + [0];
    assert forall i :: 0 <= i < |part| ==> data[at + i] == data[at..at + |part|][i] == part[i];
    assert forall i :: at <= i < at + |text| ==> data[i] == part[i - at] == text[i - at] as int;
    assert data[at + |text|] == part[|text|] == 0;
    FindZeroAt(data, at, at + |text|);
    assert data[at..at + |text|] == TextBytes(text);
    assert Text(TextBytes(text)) == text;
  }

  lemma {:induction false} TextsStand(data: seq<Byte>, at: nat, texts: seq<string>)
    requires (forall text :: text in texts ==> Writable(text)) && Stands(data, at, Terminated(texts))
    ensures TextsAt((i: nat) => StringAt(data, i), at, texts)
    decreases |texts|
  {
    if texts != [] {
      var first, rest := TextBytes(texts[0]) + [0], Terminated(texts[1..]);
      Split(data, at, first, rest);
      StringStands(data, at, texts[0]);
      TextsStand(data, at + |first|, texts[1..]);
    }
  }

  function Texts(need: Need): seq<string> {
    [need.library] + need.names
  }

  function AllTexts(needs: seq<Need>): seq<string> {
    if needs == [] then [] else Texts(needs[0]) + AllTexts(needs[1..])
  }

  /** How many bytes strings take, terminators included. */
  function Space(texts: seq<string>): nat {
    if texts == [] then 0 else |texts[0]| + 1 + Space(texts[1..])
  }

  lemma {:induction false} TextsSplit(text: nat -> Option<string>, at: nat, a: seq<string>, b: seq<string>)
    requires TextsAt(text, at, a + b)
    ensures TextsAt(text, at, a) && TextsAt(text, at + Space(a), b)
    decreases |a|
  {
    if a == [] {
      assert a + b == b;
    } else {
      assert (a + b)[1..] == a[1..] + b;
      TextsSplit(text, at + |a[0]| + 1, a[1..], b);
    }
  }

  lemma {:induction false} TerminatedSpace(texts: seq<string>)
    requires forall text :: text in texts ==> Writable(text)
    ensures |Terminated(texts)| == Space(texts)
    decreases |texts|
  {
    if texts != [] {
      TerminatedSpace(texts[1..]);
    }
  }

  // ---- Records ---------------------------------------------------------------------------

  function VernauxBytes(name: nat, following: nat): (bytes: seq<Byte>)
    ensures |bytes| == RECORD
  {
    LittleEndian(0, 4) + LittleEndian(0, 2) + LittleEndian(0, 2) + LittleEndian(name, 4) + LittleEndian(following, 4)
  }

  function VerneedBytes(count: nat, library: nat, auxiliary: nat, following: nat): (bytes: seq<Byte>)
    ensures |bytes| == RECORD
  {
    LittleEndian(1, 2) + LittleEndian(count, 2) + LittleEndian(library, 4) + LittleEndian(auxiliary, 4) + LittleEndian(following, 4)
  }

  lemma VernauxStands(data: seq<Byte>, at: nat, name: nat, following: nat)
    requires Stands(data, at, VernauxBytes(name, following)) && name < U32 && following < U32
    ensures VernauxAt(data, at) == Vernaux(name, following)
  {
    Widths();
    var head := LittleEndian(0, 4) + LittleEndian(0, 2) + LittleEndian(0, 2);
    Split(data, at, head + LittleEndian(name, 4), LittleEndian(following, 4));
    Split(data, at, head, LittleEndian(name, 4));
    FieldStands(data, at + 8, name, 4);
    FieldStands(data, at + 12, following, 4);
  }

  lemma VerneedStands(data: seq<Byte>, at: nat, count: nat, library: nat, auxiliary: nat, following: nat)
    requires Stands(data, at, VerneedBytes(count, library, auxiliary, following))
    requires count < U16 && library < U32 && auxiliary < U32 && following < U32
    ensures VerneedAt(data, at) == Verneed(1, count, library, auxiliary, following)
  {
    Widths();
    var v, c, l := LittleEndian(1, 2), LittleEndian(count, 2), LittleEndian(library, 4);
    var a, f := LittleEndian(auxiliary, 4), LittleEndian(following, 4);
    Split(data, at, v + c + l + a, f);
    Split(data, at, v + c + l, a);
    Split(data, at, v + c, l);
    Split(data, at, v, c);
    FieldStands(data, at, 1, 2);
    FieldStands(data, at + 2, count, 2);
    FieldStands(data, at + 4, library, 4);
    FieldStands(data, at + 8, auxiliary, 4);
    FieldStands(data, at + 12, following, 4);
  }

  /** The auxiliaries of one record; `text` is where their names start in the string table. */
  function NamesBytes(names: seq<string>, text: nat): seq<Byte> {
    if names == [] then []
    else
      VernauxBytes(text, if |names| == 1 then 0 else RECORD) + NamesBytes(names[1..], text + |names[0]| + 1)
  }

  function Following(needs: seq<Need>): nat
    requires needs != []
  {
    if |needs| == 1 then 0 else RECORD + RECORD * |needs[0].names|
  }

  function NeedsBytes(needs: seq<Need>, text: nat): seq<Byte> {
    if needs == [] then []
    else
      VerneedBytes(|needs[0].names|, text, RECORD, Following(needs))
      + NamesBytes(needs[0].names, text + |needs[0].library| + 1)
      + NeedsBytes(needs[1..], text + Space(Texts(needs[0])))
  }

  lemma {:induction false} NamesSize(names: seq<string>, text: nat)
    ensures |NamesBytes(names, text)| == RECORD * |names|
    decreases |names|
  {
    if names != [] {
      NamesSize(names[1..], text + |names[0]| + 1);
    }
  }

  /** `r` reads in `versions` what the record writers wrote there. */
  ghost predicate Faithful(r: Records, versions: seq<Byte>) {
    && r.size == |versions|
    && (forall at: nat, name: nat, following: nat ::
          Stands(versions, at, VernauxBytes(name, following)) && name < U32 && following < U32 ==>
            r.aux(at) == Vernaux(name, following))
    && (forall at: nat, count: nat, library: nat, auxiliary: nat, following: nat ::
          Stands(versions, at, VerneedBytes(count, library, auxiliary, following))
          && count < U16 && library < U32 && auxiliary < U32 && following < U32 ==>
            r.need(at) == Verneed(1, count, library, auxiliary, following))
  }

  lemma RecordsAreFaithful(versions: seq<Byte>, strings: seq<Byte>)
    ensures Faithful(RecordsOf(versions, strings), versions)
  {
    forall at: nat, name: nat, following: nat
      | Stands(versions, at, VernauxBytes(name, following)) && name < U32 && following < U32
      ensures VernauxAt(versions, at) == Vernaux(name, following)
    {
      VernauxStands(versions, at, name, following);
    }
    forall at: nat, count: nat, library: nat, auxiliary: nat, following: nat
      | Stands(versions, at, VerneedBytes(count, library, auxiliary, following))
        && count < U16 && library < U32 && auxiliary < U32 && following < U32
      ensures VerneedAt(versions, at) == Verneed(1, count, library, auxiliary, following)
    {
      VerneedStands(versions, at, count, library, auxiliary, following);
    }
  }

  /** Consecutive parts stand where the parts before them end. */
  lemma PartsStand(data: seq<Byte>, at: nat, a: seq<Byte>, b: seq<Byte>, c: seq<Byte>)
    requires Stands(data, at, a + b + c)
    ensures Stands(data, at, a) && Stands(data, at + |a|, b) && Stands(data, at + |a| + |b|, c)
  {
    Split(data, at, a + b, c);
    Split(data, at, a, b);
  }

  /** Auxiliaries follow each other from `at` on, their names each other in the string table. */
  ghost predicate NamesLaid(r: Records, at: nat, names: seq<string>, text: nat)
    decreases |names|
  {
    names == [] ||
    (&& at + RECORD <= r.size && r.aux(at) == Vernaux(text, if |names| == 1 then 0 else RECORD)
     && NamesLaid(r, at + RECORD, names[1..], text + |names[0]| + 1))
  }

  ghost predicate NeedsLaid(r: Records, at: nat, needs: seq<Need>, text: nat)
    decreases |needs|
  {
    needs == [] ||
    (&& at + RECORD <= r.size && r.need(at) == Verneed(1, |needs[0].names|, text, RECORD, Following(needs))
     && NamesLaid(r, at + RECORD, needs[0].names, text + |needs[0].library| + 1)
     && NeedsLaid(r, at + RECORD + RECORD * |needs[0].names|, needs[1..], text + Space(Texts(needs[0]))))
  }

  lemma {:induction false} NamesStand(r: Records, versions: seq<Byte>, at: nat, names: seq<string>, text: nat)
    requires Faithful(r, versions) && Stands(versions, at, NamesBytes(names, text)) && text + Space(names) < U32
    ensures NamesLaid(r, at, names, text)
    decreases |names|
  {
    if names != [] {
      PartsStand(
        versions, at, [], VernauxBytes(text, if |names| == 1 then 0 else RECORD), NamesBytes(names[1..], text + |names[0]| + 1));
      NamesStand(r, versions, at + RECORD, names[1..], text + |names[0]| + 1);
    }
  }

  lemma {:induction false} NamesAreChained(r: Records, at: nat, names: seq<string>, text: nat)
    requires names != [] && NamesLaid(r, at, names, text) && TextsAt(r.text, text, names)
    ensures AuxChain(r, at, names)
    decreases |names|
  {
    if |names| > 1 {
      NamesAreChained(r, at + RECORD, names[1..], text + |names[0]| + 1);
    }
  }

  /** What one requirement section can hold. */
  predicate WellFormed(needs: seq<Need>) {
    && needs != []
    && (forall need :: need in needs ==> 0 < |need.names| < U16)
    && (forall text :: text in AllTexts(needs) ==> Writable(text))
  }

  /** The first record, its names and the records behind it stand one after the other. */
  lemma NeedParts(versions: seq<Byte>, at: nat, needs: seq<Need>, text: nat)
    requires needs != [] && Stands(versions, at, NeedsBytes(needs, text))
    ensures Stands(versions, at, VerneedBytes(|needs[0].names|, text, RECORD, Following(needs)))
    ensures Stands(versions, at + RECORD, NamesBytes(needs[0].names, text + |needs[0].library| + 1))
    ensures Stands(versions, at + RECORD + RECORD * |needs[0].names|, NeedsBytes(needs[1..], text + Space(Texts(needs[0]))))
  {
    NamesSize(needs[0].names, text + |needs[0].library| + 1);
    PartsStand(
      versions, at, VerneedBytes(|needs[0].names|, text, RECORD, Following(needs)),
      NamesBytes(needs[0].names, text + |needs[0].library| + 1), NeedsBytes(needs[1..], text + Space(Texts(needs[0]))));
  }

  /** So do the strings of the first record and of the others. */
  lemma NeedTexts(text: nat -> Option<string>, at: nat, needs: seq<Need>)
    requires needs != [] && TextsAt(text, at, AllTexts(needs))
    ensures text(at) == Some(needs[0].library)
    ensures TextsAt(text, at + |needs[0].library| + 1, needs[0].names)
    ensures TextsAt(text, at + Space(Texts(needs[0])), AllTexts(needs[1..]))
    ensures Space(AllTexts(needs)) == Space(Texts(needs[0])) + Space(AllTexts(needs[1..]))
    ensures Space(Texts(needs[0])) == |needs[0].library| + 1 + Space(needs[0].names)
  {
    TextsSplit(text, at, Texts(needs[0]), AllTexts(needs[1..]));
    SpaceOfConcat(Texts(needs[0]), AllTexts(needs[1..]));
    assert Texts(needs[0])[1..] == needs[0].names;
  }

  /** The first record and its names are where the writer puts them. */
  ghost predicate FirstLaid(r: Records, at: nat, needs: seq<Need>, text: nat)
    requires needs != []
  {
    && at + RECORD <= r.size && r.need(at) == Verneed(1, |needs[0].names|, text, RECORD, Following(needs))
    && NamesLaid(r, at + RECORD, needs[0].names, text + |needs[0].library| + 1)
  }

  /** `holds` carries over from each record to the records behind it. */
  ghost predicate Carries(r: Records, holds: (nat, seq<Need>, nat) -> bool) {
    forall at: nat, needs: seq<Need>, text: nat ::
      holds(at, needs, text) && needs != [] && 0 < |needs[0].names| < U16 && text + Space(AllTexts(needs)) < U32 ==>
        && FirstLaid(r, at, needs, text)
        && holds(at + RECORD + RECORD * |needs[0].names|, needs[1..], text + Space(Texts(needs[0])))
  }

  lemma NeedsCarry(r: Records, versions: seq<Byte>)
    requires Faithful(r, versions)
    ensures Carries(r, (at: nat, needs: seq<Need>, text: nat) => Stands(versions, at, NeedsBytes(needs, text)))
  {
    forall at: nat, needs: seq<Need>, text: nat
      | Stands(versions, at, NeedsBytes(needs, text)) && needs != [] && 0 < |needs[0].names| < U16
        && text + Space(AllTexts(needs)) < U32
      ensures FirstLaid(r, at, needs, text)
      ensures Stands(versions, at + RECORD + RECORD * |needs[0].names|, NeedsBytes(needs[1..], text + Space(Texts(needs[0]))))
    {
      FirstNeedStands(r, versions, at, needs, text);
      NeedParts(versions, at, needs, text);
    }
  }

  lemma FirstNeedStands(r: Records, versions: seq<Byte>, at: nat, needs: seq<Need>, text: nat)
    requires Faithful(r, versions) && needs != [] && 0 < |needs[0].names| < U16
    requires Stands(versions, at, NeedsBytes(needs, text)) && text + Space(AllTexts(needs)) < U32
    ensures FirstLaid(r, at, needs, text)
  {
    assert text + |needs[0].library| + 1 + Space(needs[0].names) < U32 by {
      SpaceOfConcat(Texts(needs[0]), AllTexts(needs[1..]));
      assert Texts(needs[0])[1..] == needs[0].names;
    }
    NeedParts(versions, at, needs, text);
    NamesStand(r, versions, at + RECORD, needs[0].names, text + |needs[0].library| + 1);
  }

  lemma {:induction false} NeedsStand(r: Records, holds: (nat, seq<Need>, nat) -> bool, at: nat, needs: seq<Need>, text: nat)
    requires Carries(r, holds) && holds(at, needs, text)
    requires (forall need :: need in needs ==> 0 < |need.names| < U16) && text + Space(AllTexts(needs)) < U32
    ensures NeedsLaid(r, at, needs, text)
    decreases |needs|
  {
    if needs != [] {
      assert FirstLaid(r, at, needs, text);
      SpaceOfConcat(Texts(needs[0]), AllTexts(needs[1..]));
      NeedsStand(r, holds, at + RECORD + RECORD * |needs[0].names|, needs[1..], text + Space(Texts(needs[0])));
    }
  }

  lemma {:induction false} NeedsAreChained(r: Records, at: nat, needs: seq<Need>, text: nat)
    requires needs != [] && (forall need :: need in needs ==> need.names != [])
    requires NeedsLaid(r, at, needs, text) && TextsAt(r.text, text, AllTexts(needs))
    ensures NeedChain(r, at, needs)
    decreases |needs|
  {
    NeedTexts(r.text, text, needs);
    NamesAreChained(r, at + RECORD, needs[0].names, text + |needs[0].library| + 1);
    if |needs| > 1 {
      NeedsAreChained(r, at + RECORD + RECORD * |needs[0].names|, needs[1..], text + Space(Texts(needs[0])));
    }
  }

  lemma {:induction false} SpaceOfConcat(a: seq<string>, b: seq<string>)
    ensures Space(a + b) == Space(a) + Space(b)
    decreases |a|
  {
    if a == [] {
      assert a + b == b;
    } else {
      assert (a + b)[1..] == a[1..] + b;
      SpaceOfConcat(a[1..], b);
    }
  }

  // ---- The file --------------------------------------------------------------------------

  predicate Known(layout: Layout) {
    layout == ELF64 || layout == ELF32
  }

  function Zeros(n: nat): seq<Byte> {
    seq(n, _ => 0)
  }

  function SectionBytes(layout: Layout, section: Section): (bytes: seq<Byte>)
    ensures |bytes| == layout.SectionSize()
  {
    var w := layout.word;
    LittleEndian(0, 4) + LittleEndian(section.kind, 4) + Zeros(2 * w) + LittleEndian(section.offset, w)
    + LittleEndian(section.size, w) + LittleEndian(section.link, 4) + LittleEndian(section.info, 4) + Zeros(2 * w)
  }

  /** Eight consecutive parts; the second and the fourth to the seventh are the ones read. */
  lemma EightStand(data: seq<Byte>, at: nat, a: seq<Byte>, b: seq<Byte>, c: seq<Byte>, d: seq<Byte>, e: seq<Byte>,
                   f: seq<Byte>, g: seq<Byte>, h: seq<Byte>)
    requires Stands(data, at, a + b + c + d + e + f + g + h)
    ensures Stands(data, at + |a|, b)
    ensures Stands(data, at + |a + b + c|, d) && Stands(data, at + |a + b + c + d|, e)
    ensures Stands(data, at + |a + b + c + d + e|, f) && Stands(data, at + |a + b + c + d + e + f|, g)
  {
    Split(data, at, a + b + c + d + e + f + g, h);
    Split(data, at, a + b + c + d + e + f, g);
    Split(data, at, a + b + c + d + e, f);
    Split(data, at, a + b + c + d, e);
    Split(data, at, a + b + c, d);
    Split(data, at, a + b, c);
    Split(data, at, a, b);
  }

  /** The numbers a section header of this class can hold. */
  predicate Storable(layout: Layout, section: Section) {
    && section.kind < U32 && section.link < U32 && section.info < U32
    && section.offset < Pow256(layout.word) && section.size < Pow256(layout.word)
  }

  lemma SectionStands(layout: Layout, data: seq<Byte>, at: nat, section: Section)
    requires Known(layout) && Stands(data, at, SectionBytes(layout, section)) && Storable(layout, section)
    ensures SectionAt(layout, data, at) == Some(section)
  {
    Widths();
    var w := layout.word;
    EightStand(
      data, at, LittleEndian(0, 4), LittleEndian(section.kind, 4), Zeros(2 * w), LittleEndian(section.offset, w),
      LittleEndian(section.size, w), LittleEndian(section.link, 4), LittleEndian(section.info, 4), Zeros(2 * w));
    FieldStands(data, at + 4, section.kind, 4);
    FieldStands(data, at + 8 + 2 * w, section.offset, w);
    FieldStands(data, at + 8 + 3 * w, section.size, w);
    FieldStands(data, at + 8 + 4 * w, section.link, 4);
    FieldStands(data, at + 12 + 4 * w, section.info, 4);
  }

  function Identification(layout: Layout): seq<Byte> {
    [0x7F, 0x45, 0x4C, 0x46, if layout == ELF64 then 2 else 1, 1]
  }

  function HeaderSize(layout: Layout): nat {
    layout.sizesAt + 6
  }

  function HeaderBytes(layout: Layout, tableAt: nat): (bytes: seq<Byte>)
    requires Known(layout)
    ensures |bytes| == HeaderSize(layout)
  {
    [] + Identification(layout) + Zeros(layout.offsetAt - 6) + LittleEndian(tableAt, layout.word)
    + Zeros(layout.sizesAt - layout.offsetAt - layout.word) + LittleEndian(layout.SectionSize(), 2) + LittleEndian(3, 2)
    + Zeros(2)
  }

  /** The header names the class, and a table of three rows at `tableAt`. */
  ghost predicate HeaderRead(layout: Layout, data: seq<Byte>, tableAt: nat) {
    && LayoutOf(data) == Some(layout)
    && Fits(data, layout.offsetAt, layout.word) && Field(data, layout.offsetAt, layout.word) == tableAt
    && Fits(data, layout.sizesAt, 4) && Field(data, layout.sizesAt, 2) == layout.SectionSize()
    && Field(data, layout.sizesAt + 2, 2) == 3
  }

  lemma HeaderParts(layout: Layout, data: seq<Byte>, tableAt: nat)
    requires Known(layout) && Stands(data, 0, HeaderBytes(layout, tableAt))
    ensures Stands(data, 0, Identification(layout)) && Stands(data, layout.offsetAt, LittleEndian(tableAt, layout.word))
    ensures Stands(data, layout.sizesAt, LittleEndian(layout.SectionSize(), 2)) && Stands(data, layout.sizesAt + 2, LittleEndian(3, 2))
  {
    EightStand(
      data, 0, [], Identification(layout), Zeros(layout.offsetAt - 6), LittleEndian(tableAt, layout.word),
      Zeros(layout.sizesAt - layout.offsetAt - layout.word), LittleEndian(layout.SectionSize(), 2), LittleEndian(3, 2), Zeros(2));
  }

  lemma HeaderStands(layout: Layout, data: seq<Byte>, tableAt: nat)
    requires Known(layout) && tableAt < Pow256(layout.word) && Stands(data, 0, HeaderBytes(layout, tableAt))
    ensures HeaderRead(layout, data, tableAt)
  {
    HeaderParts(layout, data, tableAt);
    Widths();
    IdentificationStands(layout, data);
    FieldStands(data, layout.offsetAt, tableAt, layout.word);
    FieldStands(data, layout.sizesAt, layout.SectionSize(), 2);
    FieldStands(data, layout.sizesAt + 2, 3, 2);
  }

  lemma IdentificationStands(layout: Layout, data: seq<Byte>)
    requires Known(layout) && Stands(data, 0, Identification(layout))
    ensures LayoutOf(data) == Some(layout)
  {
    assert forall i :: 0 <= i < 6 ==> data[i] == data[0..6][i];
    assert data[..4] == [0x7F, 0x45, 0x4C, 0x46];
  }

  function StringTable(needs: seq<Need>): seq<Byte>
    requires WellFormed(needs)
  {
    [0] + Terminated(AllTexts(needs))
  }

  /** A header, a string table, a requirement section, and the table of sections. */
  function Assemble(header: seq<Byte>, row: Section -> seq<Byte>, strings: seq<Byte>, versions: seq<Byte>, info: nat): seq<Byte> {
    header + strings + versions + row(Section(0, 0, 0, 0, 0)) + row(StringSection(|header|, strings))
    + row(VersionSection(|header| + |strings|, versions, info))
  }

  function StringSection(at: nat, strings: seq<Byte>): Section {
    Section(STRTAB, at, |strings|, 0, 0)
  }

  function VersionSection(at: nat, versions: seq<Byte>, info: nat): Section {
    Section(VERNEED, at, |versions|, 1, info)
  }

  function WriteElf(layout: Layout, strings: seq<Byte>, versions: seq<Byte>, info: nat): seq<Byte>
    requires Known(layout)
  {
    var header := HeaderBytes(layout, HeaderSize(layout) + |strings| + |versions|);
    Assemble(header, RowBytes(layout), strings, versions, info)
  }

  function RowBytes(layout: Layout): Section -> seq<Byte>
    requires Known(layout)
  {
    (section: Section) => SectionBytes(layout, section)
  }

  function EncodeElf(layout: Layout, needs: seq<Need>): seq<Byte>
    requires Known(layout) && WellFormed(needs)
  {
    WriteElf(layout, StringTable(needs), NeedsBytes(needs, 1), |needs|)
  }

  lemma TableOfThree(row: nat -> Option<Section>, a: Section, b: Section, c: Section)
    requires row(0) == Some(a) && row(1) == Some(b) && row(2) == Some(c)
    ensures ReadTable(row, 3) == Some([a, b, c])
  {
    assert [] + [a] == [a] && [a] + [b] == [a, b] && [a, b] + [c] == [a, b, c];
    assert ReadTable(row, 1) == Some([a]);
    assert ReadTable(row, 2) == Some([a, b]);
  }

  lemma OneRequirement(a: Section, b: Section, c: Section)
    requires a.kind != VERNEED && b.kind != VERNEED && c.kind == VERNEED
    ensures Requirements([a, b, c]) == [c]
  {
    assert [a, b, c][..2] == [a, b] && [a, b][..1] == [a] && [a][..0] == [];
    assert Requirements([a]) == [];
    assert Requirements([a, b]) == [];
  }

  lemma TableStands(layout: Layout, data: seq<Byte>, at: nat, a: Section, b: Section, c: Section)
    requires HeaderRead(layout, data, at)
    requires SectionAt(layout, data, at) == Some(a) && SectionAt(layout, data, at + layout.SectionSize()) == Some(b)
    requires SectionAt(layout, data, at + 2 * layout.SectionSize()) == Some(c)
    ensures SectionsOf(data) == Some([a, b, c])
  {
    TableOfThree(Rows(layout, data, at), a, b, c);
  }

  /** Three rows, the last of them the requirement section and the second its string table. */
  lemma BodiesStand(data: seq<Byte>, a: Section, b: Section, c: Section, strings: seq<Byte>, versions: seq<Byte>)
    requires SectionsOf(data) == Some([a, b, c]) && a.kind == 0 && b.kind == STRTAB && c.kind == VERNEED && c.link == 1
    requires b.size == |strings| && Stands(data, b.offset, strings) && c.size == |versions| && Stands(data, c.offset, versions)
    ensures RecordsIn(data) == Some((RecordsOf(versions, strings), c.info))
  {
    OneRequirement(a, b, c);
    assert [a, b, c][1] == b;
  }

  lemma WrittenTable(layout: Layout, data: seq<Byte>, at: nat, a: Section, b: Section, c: Section)
    requires Known(layout) && at < Pow256(layout.word) && Stands(data, 0, HeaderBytes(layout, at))
    requires Storable(layout, a) && Storable(layout, b) && Storable(layout, c)
    requires Stands(data, at, RowBytes(layout)(a)) && Stands(data, at + layout.SectionSize(), RowBytes(layout)(b))
    requires Stands(data, at + 2 * layout.SectionSize(), RowBytes(layout)(c))
    ensures SectionsOf(data) == Some([a, b, c])
  {
    HeaderStands(layout, data, at);
    SectionStands(layout, data, at, a);
    SectionStands(layout, data, at + layout.SectionSize(), b);
    SectionStands(layout, data, at + 2 * layout.SectionSize(), c);
    TableStands(layout, data, at, a, b, c);
  }

  lemma AssembledParts(
    header: seq<Byte>, row: Section -> seq<Byte>, size: nat, strings: seq<Byte>, versions: seq<Byte>, info: nat)
    requires forall section :: |row(section)| == size
    ensures var data := Assemble(header, row, strings, versions, info);
            var versionsAt := |header| + |strings|;
            var tableAt := versionsAt + |versions|;
      && Stands(data, 0, header) && Stands(data, |header|, strings) && Stands(data, versionsAt, versions)
      && Stands(data, tableAt, row(Section(0, 0, 0, 0, 0)))
      && Stands(data, tableAt + size, row(StringSection(|header|, strings)))
      && Stands(data, tableAt + 2 * size, row(VersionSection(versionsAt, versions, info)))
      && |data| == tableAt + 3 * size
  {
    var versionsAt := |header| + |strings|;
    SixStand(
      Assemble(header, row, strings, versions, info), header, strings, versions, row(Section(0, 0, 0, 0, 0)),
      row(StringSection(|header|, strings)), row(VersionSection(versionsAt, versions, info)));
  }

  lemma WrittenSections(layout: Layout, strings: seq<Byte>, versions: seq<Byte>, info: nat)
    requires Known(layout) && |WriteElf(layout, strings, versions, info)| < Pow256(layout.word) && info < U32
    ensures var data, stringsAt := WriteElf(layout, strings, versions, info), HeaderSize(layout);
            var versionsAt := stringsAt + |strings|;
      && SectionsOf(data) == Some([Section(0, 0, 0, 0, 0), StringSection(stringsAt, strings), VersionSection(versionsAt, versions, info)])
      && Stands(data, stringsAt, strings) && Stands(data, versionsAt, versions)
  {
    var stringsAt := HeaderSize(layout);
    var versionsAt := stringsAt + |strings|;
    AssembledParts(
      HeaderBytes(layout, versionsAt + |versions|), RowBytes(layout), layout.SectionSize(), strings, versions, info);
    WrittenTable(
      layout, WriteElf(layout, strings, versions, info), versionsAt + |versions|,
      Section(0, 0, 0, 0, 0), StringSection(stringsAt, strings), VersionSection(versionsAt, versions, info));
  }

  /** A written file is read as the two bodies it was written from. */
  lemma WrittenStands(layout: Layout, strings: seq<Byte>, versions: seq<Byte>, info: nat)
    requires Known(layout) && |WriteElf(layout, strings, versions, info)| < Pow256(layout.word) && info < U32
    ensures RecordsIn(WriteElf(layout, strings, versions, info)) == Some((RecordsOf(versions, strings), info))
  {
    WrittenSections(layout, strings, versions, info);
    BodiesStand(
      WriteElf(layout, strings, versions, info), Section(0, 0, 0, 0, 0), StringSection(HeaderSize(layout), strings),
      VersionSection(HeaderSize(layout) + |strings|, versions, info), strings, versions);
  }

  lemma SixStand(data: seq<Byte>, a: seq<Byte>, b: seq<Byte>, c: seq<Byte>, d: seq<Byte>, e: seq<Byte>, f: seq<Byte>)
    requires data == a + b + c + d + e + f
    ensures Stands(data, 0, a) && Stands(data, |a|, b) && Stands(data, |a| + |b|, c) && Stands(data, |a| + |b| + |c|, d)
    ensures Stands(data, |a| + |b| + |c| + |d|, e) && Stands(data, |a| + |b| + |c| + |d| + |e|, f)
  {
    Split(data, 0, a + b + c + d + e, f);
    Split(data, 0, a + b + c + d, e);
    Split(data, 0, a + b + c, d);
    Split(data, 0, a + b, c);
    Split(data, 0, a, b);
  }

  lemma TableHoldsTexts(needs: seq<Need>)
    requires WellFormed(needs)
    ensures TextsAt((i: nat) => StringAt(StringTable(needs), i), 1, AllTexts(needs))
    ensures |StringTable(needs)| == 1 + Space(AllTexts(needs))
  {
    var strings, texts := StringTable(needs), AllTexts(needs);
    Split(strings, 0, [0], Terminated(texts));
    TextsStand(strings, 1, texts);
    TerminatedSpace(texts);
  }

  lemma EncodedChain(needs: seq<Need>, r: Records)
    requires WellFormed(needs) && |StringTable(needs)| < U32
    requires r == RecordsOf(NeedsBytes(needs, 1), StringTable(needs))
    ensures NeedChain(r, 0, needs)
  {
    var strings, versions := StringTable(needs), NeedsBytes(needs, 1);
    TableHoldsTexts(needs);
    SameTexts((i: nat) => StringAt(strings, i), r.text, 1, AllTexts(needs));
    RecordsAreFaithful(versions, strings);
    NeedsCarry(r, versions);
    assert Stands(versions, 0, versions);
    NeedsStand(r, (at: nat, needs: seq<Need>, text: nat) => Stands(versions, at, NeedsBytes(needs, text)), 0, needs, 1);
    NeedsAreChained(r, 0, needs, 1);
  }

  /** Whatever requirements a file is written with, in either ELF class, are the ones it holds. */
  lemma EncodedFileHolds(layout: Layout, needs: seq<Need>)
    requires Known(layout) && WellFormed(needs) && |needs| < U32
    requires |EncodeElf(layout, needs)| < Pow256(layout.word) && |StringTable(needs)| < U32
    ensures Holds(EncodeElf(layout, needs), needs)
  {
    WrittenStands(layout, StringTable(needs), NeedsBytes(needs, 1), |needs|);
    EncodedChain(needs, RecordsOf(NeedsBytes(needs, 1), StringTable(needs)));
  }

  lemma {:induction false} SameTexts(f: nat -> Option<string>, g: nat -> Option<string>, at: nat, texts: seq<string>)
    requires (forall i: nat :: f(i) == g(i)) && TextsAt(f, at, texts)
    ensures TextsAt(g, at, texts)
    decreases |texts|
  {
    if texts != [] {
      SameTexts(f, g, at + |texts[0]| + 1, texts[1..]);
    }
  }

  /** The gate reports exactly the glibc versions a file was written to require, and refuses the
      file when a name only looks like a glibc version or no glibc version is named. */
  lemma GateReadsWhatWasWritten(layout: Layout, needs: seq<Need>)
    requires Known(layout) && WellFormed(needs) && |needs| < U32
    requires |EncodeElf(layout, needs)| < Pow256(layout.word) && |StringTable(needs)| < U32
    ensures Required(EncodeElf(layout, needs)) ==
      if AllRecognised(needs) && VersionsOf(needs) != {} then Some(VersionsOf(needs)) else None
  {
    EncodedFileHolds(layout, needs);
    ReadNeedsIsTheChain(RecordsIn(EncodeElf(layout, needs)).value.0, 0, needs);
  }

  function Names(versions: seq<Version>): seq<string>
    requires forall v :: v in versions ==> |v| >= 2
  {
    seq(|versions|, i requires 0 <= i < |versions| => Name(versions[i]))
  }

  lemma NamedVersions(versions: seq<Version>)
    requires forall v :: v in versions ==> |v| >= 2
    ensures VersionsNamed(Names(versions)) == (set v | v in versions) && NamesRecognised(Names(versions))
  {
    var names := Names(versions);
    forall i | 0 <= i < |versions| ensures Parse(names[i]) == Some(versions[i]) {
      NameRoundTrip(versions[i]);
    }
    assert forall v :: v in versions ==> exists i :: 0 <= i < |versions| && versions[i] == v && names[i] in names;
  }

  lemma OneNeed(need: Need)
    ensures VersionsOf([need]) == VersionsNamed(need.names)
    ensures AllRecognised([need]) <==> NamesRecognised(need.names)
  {
    assert need in [need];
  }

  lemma OneLibrary(needs: seq<Need>, versions: seq<Version>)
    requires versions != [] && forall v :: v in versions ==> |v| >= 2
    requires |needs| == 1 && needs[0].names == Names(versions)
    ensures AllRecognised(needs) && VersionsOf(needs) == (set v | v in versions) && VersionsOf(needs) != {}
  {
    NamedVersions(versions);
    assert needs == [needs[0]];
    OneNeed(needs[0]);
    assert versions[0] in VersionsOf(needs);
  }

  /** A file written to require these versions of one library is read as requiring exactly them. */
  lemma VersionsAreReadBack(layout: Layout, needs: seq<Need>, versions: seq<Version>)
    requires versions != [] && forall v :: v in versions ==> |v| >= 2
    requires |needs| == 1 && needs[0].names == Names(versions)
    requires Known(layout) && WellFormed(needs)
    requires |EncodeElf(layout, needs)| < Pow256(layout.word) && |StringTable(needs)| < U32
    ensures Required(EncodeElf(layout, needs)) == Some(set v | v in versions)
  {
    OneLibrary(needs, versions);
    GateReadsWhatWasWritten(layout, needs);
  }
}
