/** Which files have version requirements the release gate reads, said about their bytes and sections. */
module ElfSections {
  import opened Wrappers
  import opened Bytes
  import opened ElfFormat
  import opened AbiGate

  /** The file says it is ELF, little-endian, of the class with this layout. */
  predicate HasLayout(data: seq<Byte>, layout: Layout) {
    && |data| >= 6 && data[0] == 0x7F && data[1] == 'E' as int && data[2] == 'L' as int && data[3] == 'F' as int && data[5] == 1
    && ((data[4] == 1 && layout == Layout(4, 32, 46)) || (data[4] == 2 && layout == Layout(8, 40, 58)))
  }

  /** Its section table is not empty, has rows of the class's size, and is exactly these sections. */
  ghost predicate HasTable(data: seq<Byte>, layout: Layout, sections: seq<Section>) {
    && Fits(data, layout.offsetAt, layout.word) && Fits(data, layout.sizesAt, 4) && |sections| > 0
    && Field(data, layout.sizesAt, 2) == (if layout.word == 8 then 64 else 40) && Field(data, layout.sizesAt + 2, 2) == |sections|
    && forall i: nat :: i < |sections| ==> RowStands(data, layout, Field(data, layout.offsetAt, layout.word), i, sections[i])
  }

  predicate RowStands(data: seq<Byte>, layout: Layout, table: nat, i: nat, section: Section) {
    SectionAt(layout, data, table + i * layout.SectionSize()) == Some(section)
  }

  /** Section `k`, and no other, holds version requirements; its link is a string table, and both lie in the file. */
  predicate IsRequirement(data: seq<Byte>, sections: seq<Section>, k: nat) {
    && k < |sections| && sections[k].kind == 0x6FFF_FFFE
    && (forall j :: 0 <= j < |sections| && j != k ==> sections[j].kind != 0x6FFF_FFFE)
    && sections[k].link < |sections| && sections[sections[k].link].kind == 3
    && sections[k].offset + sections[k].size <= |data|
    && sections[sections[k].link].offset + sections[sections[k].link].size <= |data|
  }

  /** The contents of that section and of its string table, and how many records it is said to have. */
  ghost predicate Reads(data: seq<Byte>, sections: seq<Section>, k: nat, r: Records, info: nat) {
    IsRequirement(data, sections, k) && info == sections[k].info
    && var texts := sections[sections[k].link];
       r == RecordsOf(data[sections[k].offset..sections[k].offset + sections[k].size], data[texts.offset..texts.offset + texts.size])
  }

  lemma {:induction false} TableIff(row: nat -> Option<Section>, sections: seq<Section>, count: nat)
    ensures ReadTable(row, count) == Some(sections) <==>
            |sections| == count && forall i :: 0 <= i < count ==> row(i) == Some(sections[i])
    decreases count
  {
    if count > 0 {
      var n := count - 1;
      if |sections| == count {
        TableIff(row, sections[..n], n);
        assert sections == sections[..n] + [sections[n]];
      }
      if ReadTable(row, n).Some? {
        TableIff(row, ReadTable(row, n).value, n);
      }
    }
  }

  lemma {:induction false} NoRequirements(sections: seq<Section>)
    ensures Requirements(sections) == [] <==> forall j :: 0 <= j < |sections| ==> sections[j].kind != VERNEED
    decreases |sections|
  {
    if sections != [] {
      var front := sections[..|sections| - 1];
      NoRequirements(front);
      assert forall j :: 0 <= j < |front| ==> front[j] == sections[j];
    }
  }

  predicate OnlyOne(sections: seq<Section>, k: nat) {
    k < |sections| && sections[k].kind == VERNEED && forall j :: 0 <= j < |sections| && j != k ==> sections[j].kind != VERNEED
  }

  lemma {:induction false} OnlyRequirement(sections: seq<Section>, k: nat)
    requires OnlyOne(sections, k)
    ensures Requirements(sections) == [sections[k]]
    decreases |sections|
  {
    var front := sections[..|sections| - 1];
    assert forall j :: 0 <= j < |front| ==> front[j] == sections[j];
    if k == |front| {
      NoRequirements(front);
    } else {
      OnlyRequirement(front, k);
    }
  }

  lemma {:induction false} TheRequirement(sections: seq<Section>) returns (k: nat)
    requires |Requirements(sections)| == 1
    ensures OnlyOne(sections, k) && Requirements(sections) == [sections[k]]
    decreases |sections|
  {
    var n := |sections| - 1;
    var front := sections[..n];
    assert forall j :: 0 <= j < n ==> front[j] == sections[j];
    if sections[n].kind == VERNEED {
      NoRequirements(front);
      k := n;
    } else {
      k := TheRequirement(front);
    }
  }

  lemma LayoutIff(data: seq<Byte>, layout: Layout)
    ensures LayoutOf(data) == Some(layout) <==> HasLayout(data, layout)
  {
    if |data| >= 4 {
      assert data[..4] == [data[0], data[1], data[2], data[3]];
    }
  }

  lemma RowsAre(data: seq<Byte>, layout: Layout, table: nat, sections: seq<Section>)
    ensures (forall i: nat :: i < |sections| ==> RowStands(data, layout, table, i, sections[i]))
       <==> forall i: nat :: i < |sections| ==> Rows(layout, data, table)(i) == Some(sections[i])
  {
    assert forall i: nat :: i < |sections| ==>
      (RowStands(data, layout, table, i, sections[i]) <==> Rows(layout, data, table)(i) == Some(sections[i]));
  }

  lemma SectionsIn(data: seq<Byte>, layout: Layout, sections: seq<Section>)
    requires LayoutOf(data) == Some(layout)
    ensures SectionsOf(data) == Some(sections) <==> HasTable(data, layout, sections)
  {
    assert layout.SectionSize() == if layout.word == 8 then 64 else 40;
    if Fits(data, layout.offsetAt, layout.word) && Fits(data, layout.sizesAt, 4) {
      var table := Field(data, layout.offsetAt, layout.word);
      RowsAre(data, layout, table, sections);
      TableIff(Rows(layout, data, table), sections, Field(data, layout.sizesAt + 2, 2));
    }
  }

  lemma RecordsAreRead(data: seq<Byte>, sections: seq<Section>, k: nat, r: Records, info: nat)
    requires SectionsOf(data) == Some(sections) && Reads(data, sections, k, r, info)
    ensures RecordsIn(data) == Some((r, info))
  {
    OnlyRequirement(sections, k);
  }

  lemma RecordsAreThere(data: seq<Byte>, r: Records, info: nat) returns (sections: seq<Section>, k: nat)
    requires RecordsIn(data) == Some((r, info))
    ensures SectionsOf(data) == Some(sections) && Reads(data, sections, k, r, info)
  {
    sections := SectionsOf(data).value;
    k := TheRequirement(sections);
  }

  /** Exactly which files the gate reads on, and what it reads: little-endian ELF of either class with a
      section table and one requirement section in it that links to a string table. */
  lemma RecordsInIff(data: seq<Byte>, r: Records, info: nat)
    ensures RecordsIn(data) == Some((r, info)) <==>
            exists layout, sections, k: nat ::
              HasLayout(data, layout) && HasTable(data, layout, sections) && Reads(data, sections, k, r, info)
  {
    if RecordsIn(data) == Some((r, info)) {
      var sections, k := RecordsAreThere(data, r, info);
      LayoutIff(data, LayoutOf(data).value);
      SectionsIn(data, LayoutOf(data).value, sections);
    }
    forall layout, sections, k: nat
      | HasLayout(data, layout) && HasTable(data, layout, sections) && Reads(data, sections, k, r, info)
      ensures RecordsIn(data) == Some((r, info))
    {
      LayoutIff(data, layout);
      SectionsIn(data, layout, sections);
      RecordsAreRead(data, sections, k, r, info);
    }
  }
}
