/** The backfill as it runs: checks first, then table by table, and a rollback unless it applies. */
module IdentityDatabase {
  import opened Wrappers
  import opened IdentityMapping
  import opened IdentityJson
  import opened IdentityMigration

  datatype Report = Report(mappingRows: nat, changed: map<string, nat>, changedDocuments: map<string, nat>)

  // ---- Row counts ------------------------------------------------------------------------

  function Where<T>(rows: seq<T>, p: T -> bool): set<nat> {
    set i: nat | i < |rows| && p(rows[i])
  }

  lemma WhereGrows<T>(rows: seq<T>, n: nat, p: T -> bool)
    requires n < |rows|
    ensures |Where(rows[..n + 1], p)| == |Where(rows[..n], p)| + if p(rows[n]) then 1 else 0
  {
    var before, after := Where(rows[..n], p), Where(rows[..n + 1], p);
    if p(rows[n]) {
      assert after == before + {n};
    } else {
      assert after == before;
    }
  }

  predicate Touched(cell: Option<string>, m: Substitution) {
    cell.Some? && cell.value in m
  }

  predicate Differs(d: Option<Json>, m: Substitution) {
    d.Some? && Rewrite(d.value, m) != d.value
  }

  /** Counts the accounts the mapping leaves out. */
  method CountUncovered(accounts: seq<Account>, m: Substitution, allowUnlinked: bool) returns (missing: nat)
    ensures missing == |Uncovered(accounts, m, allowUnlinked)|
    ensures missing == 0 <==> Uncovered(accounts, m, allowUnlinked) == {}
  {
    missing := 0;
    ghost var p := (a: Account) => !IsCovered(a, m, allowUnlinked);
    for i := 0 to |accounts|
      invariant missing == |Where(accounts[..i], p)|
    {
      WhereGrows(accounts, i, p);
      if !IsCovered(accounts[i], m, allowUnlinked) {
        missing := missing + 1;
      }
    }
    assert accounts[..|accounts|] == accounts;
    assert Where(accounts, p) == Uncovered(accounts, m, allowUnlinked);
  }

  method UpdateColumn(cells: seq<Option<string>>, m: Substitution) returns (updated: seq<Option<string>>, count: nat)
    ensures updated == Each(cells, cell => MovedCell(cell, m))
    ensures count == |Where(cells, cell => Touched(cell, m))|
  {
    updated, count := [], 0;
    ghost var p := cell => Touched(cell, m);
    for i := 0 to |cells|
      invariant |updated| == i && forall j :: 0 <= j < i ==> updated[j] == MovedCell(cells[j], m)
      invariant count == |Where(cells[..i], p)|
    {
      WhereGrows(cells, i, p);
      if cells[i].Some? && cells[i].value in m {
        updated, count := updated + [Some(m[cells[i].value])], count + 1;
      } else {
        updated := updated + [cells[i]];
      }
    }
    assert cells[..|cells|] == cells;
  }

  method UpdateDocuments(documents: seq<Option<Json>>, m: Substitution) returns (updated: seq<Option<Json>>, count: nat)
    ensures updated == Each(documents, d => MovedDocument(d, m))
    ensures count == |Where(documents, d => Differs(d, m))|
  {
    updated, count := [], 0;
    ghost var p := d => Differs(d, m);
    for i := 0 to |documents|
      invariant |updated| == i && forall j :: 0 <= j < i ==> updated[j] == MovedDocument(documents[j], m)
      invariant count == |Where(documents[..i], p)|
    {
      WhereGrows(documents, i, p);
      var document := documents[i];
      if document.Some? {
        var rewritten := Rewrite(document.value, m);
        if rewritten != document.value {
          document, count := Some(rewritten), count + 1;
        }
      }
      updated := updated + [document];
    }
    assert documents[..|documents|] == documents;
  }

  /** Counts per listed column, for the columns in which anything changed. */
  ghost predicate Counts<T>(changed: map<string, nat>, columns: map<string, seq<T>>, listed: seq<string>, p: T -> bool) {
    && (forall c :: c in changed ==> c in columns && c in listed)
    && forall c :: c in columns && c in listed ==>
                     var n := |Where(columns[c], p)|;
                     if n > 0 then c in changed && changed[c] == n else c !in changed
  }

  /** Updating the next listed column is the same as listing one more, also when it is listed twice. */
  lemma AfterOneMore<T(!new)>(columns: map<string, seq<T>>, listed: seq<string>, i: nat, f: T -> T)
    requires i < |listed| && listed[i] in columns && forall x :: f(f(x)) == f(x)
    ensures var now, c := AfterEach(columns, listed[..i], f), listed[i];
            AfterEach(columns, listed[..i + 1], f) == now[c := Each(now[c], f)]
  {
    assert listed[..i + 1] == listed[..i] + [listed[i]];
    assert Each(Each(columns[listed[i]], f), f) == Each(columns[listed[i]], f);
  }

  lemma CountOneMore<T(!new)>(
      changed: map<string, nat>, columns: map<string, seq<T>>, listed: seq<string>, i: nat, f: T -> T, p: T -> bool)
    requires i < |listed| && listed[i] in columns && forall x :: !p(f(x))
    requires Counts(changed, columns, listed[..i], p)
    ensures var n := |Where(AfterEach(columns, listed[..i], f)[listed[i]], p)|;
            Counts(if n > 0 then changed[listed[i] := n] else changed, columns, listed[..i + 1], p)
  {
    var c := listed[i];
    assert listed[..i + 1] == listed[..i] + [c];
    if c in listed[..i] {
      assert Where(Each(columns[c], f), p) == {};
    }
  }

  ghost function RecordedFor(ledger: map<string, Entry>, m: Mapping, ids: set<string>): map<string, Entry>
    requires ids <= m.targets.Keys == m.kinds.Keys
  {
    (map id | id in ids :: Entry(m.targets[id], m.kinds[id])) + ledger
  }

  lemma RecordOneMore(before: map<string, Entry>, m: Mapping, left: set<string>, id: string)
    requires id in left && left <= m.targets.Keys == m.kinds.Keys
    ensures var now := RecordedFor(before, m, m.targets.Keys - left);
            RecordedFor(before, m, m.targets.Keys - (left - {id})) ==
            if id in now then now else now[id := Entry(m.targets[id], m.kinds[id])]
  {
    assert m.targets.Keys - (left - {id}) == m.targets.Keys - left + {id};
  }

  class Database {
    var accounts: seq<Account>
    var columns: map<string, seq<Option<string>>>
    var documents: map<string, seq<Option<Json>>>
    var ledger: map<string, Entry>

    function Value(): Tables
      reads this
    {
      Tables(accounts, columns, documents, ledger)
    }

    method CheckLedger(m: Mapping) returns (agrees: bool)
      requires IsMapping(m)
      ensures agrees <==> AgreesWithLedger(Value(), m)
    {
      var left := m.targets.Keys;
      while left != {}
        invariant left <= m.targets.Keys
        invariant forall id :: id in m.targets && id !in left && id in ledger ==> ledger[id] == Entry(m.targets[id], m.kinds[id])
      {
        var id :| id in left;
        if id in ledger && ledger[id] != Entry(m.targets[id], m.kinds[id]) {
          return false;
        }
        left := left - {id};
      }
      return true;
    }

    method CheckTargets(m: Mapping) returns (unclaimed: bool)
      ensures unclaimed <==> TargetsAreUnclaimed(Value(), m)
    {
      var left := ledger.Keys;
      while left != {}
        invariant left <= ledger.Keys
        invariant forall id :: id in ledger && id !in left && ledger[id].target in m.targets.Values ==> id in m.targets
      {
        var id :| id in left;
        if ledger[id].target in m.targets.Values && id !in m.targets {
          return false;
        }
        left := left - {id};
      }
      return true;
    }

    /** The kind of the account with this id; ids are unique in the table. */
    method FindAccount(uuid: string) returns (found: Option<Account>)
      ensures found.None? <==> !HasAccount(accounts, uuid)
      ensures found.Some? ==> found.value in accounts && found.value.uuid == uuid
    {
      for i := 0 to |accounts|
        invariant forall j :: 0 <= j < i ==> accounts[j].uuid != uuid
      {
        if accounts[i].uuid == uuid {
          return Some(accounts[i]);
        }
      }
      return None;
    }

    method CheckAccount(m: Mapping, id: string, allowUnknown: bool) returns (error: Option<MigrationError>)
      requires IsMapping(m) && id in m.targets && DistinctAccounts(accounts)
      ensures error.None? <==> KindsAgree(Value(), m, id, id, allowUnknown) && TargetIsFree(Value(), m, id, allowUnknown)
      ensures error == Some(KindContradicts) <==> !KindsAgree(Value(), m, id, id, allowUnknown)
      ensures error.Some? ==> error.value in {KindContradicts, TargetExists}
    {
      var source := FindAccount(id);
      if source.Some? && !KindMatches(source.value.kind, m.kinds[id], allowUnknown) {
        return Some(KindContradicts);
      }
      var target := FindAccount(m.targets[id]);
      if target.Some? && (source.Some? || id !in ledger || !KindMatches(target.value.kind, m.kinds[id], allowUnknown)) {
        return Some(TargetExists);
      }
      return None;
    }

    method CheckAccounts(m: Mapping, allowUnknown: bool) returns (error: Option<MigrationError>)
      requires IsMapping(m) && DistinctAccounts(accounts)
      ensures error.None? <==> forall id :: id in m.targets ==>
                                              KindsAgree(Value(), m, id, id, allowUnknown) && TargetIsFree(Value(), m, id, allowUnknown)
      ensures error.Some? ==> error.value in {KindContradicts, TargetExists}
      ensures error == Some(KindContradicts) ==> exists id :: id in m.targets && !KindsAgree(Value(), m, id, id, allowUnknown)
      ensures error == Some(TargetExists) ==> exists id :: id in m.targets && !TargetIsFree(Value(), m, id, allowUnknown)
    {
      var left := m.targets.Keys;
      while left != {}
        invariant left <= m.targets.Keys
        invariant forall id :: id in m.targets && id !in left ==>
                                 KindsAgree(Value(), m, id, id, allowUnknown) && TargetIsFree(Value(), m, id, allowUnknown)
      {
        var id :| id in left;
        error := CheckAccount(m, id, allowUnknown);
        if error.Some? {
          return;
        }
        left := left - {id};
      }
      return None;
    }

    method Check(m: Mapping, manifest: Manifest) returns (error: Option<MigrationError>)
      requires IsMapping(m) && DistinctAccounts(accounts)
      ensures if error.None? then Accepts(Value(), m, manifest) else Refuses(Value(), m, manifest, error.value)
    {
      var agrees := CheckLedger(m);
      if !agrees {
        return Some(ConflictsWithLedger);
      }
      var unclaimed := CheckTargets(m);
      if !unclaimed {
        return Some(TargetOfAnotherSource);
      }
      var missing := CountUncovered(accounts, m.targets, manifest.allowUnlinkedPlaceholders);
      if missing > 0 {
        return Some(Omits(missing));
      }
      error := CheckAccounts(m, manifest.allowUnknownKind);
    }

    method UpdateColumns(listed: seq<string>, m: Mapping) returns (changed: map<string, nat>)
      requires IsMapping(m) && forall c :: c in listed ==> c in columns
      modifies this`columns
      ensures columns == AfterEach(old(columns), listed, cell => MovedCell(cell, m.targets))
      ensures Counts(changed, old(columns), listed, cell => Touched(cell, m.targets))
    {
      changed := map[];
      ghost var before := columns;
      ghost var f, p := (cell: Option<string>) => MovedCell(cell, m.targets), (cell: Option<string>) => Touched(cell, m.targets);
      for i := 0 to |listed|
        invariant columns == AfterEach(before, listed[..i], f) && Counts(changed, before, listed[..i], p)
      {
        var c := listed[i];
        AfterOneMore(before, listed, i, f);
        CountOneMore(changed, before, listed, i, f, p);
        var updated, count := UpdateColumn(columns[c], m.targets);
        columns := columns[c := updated];
        if count > 0 {
          changed := changed[c := count];
        }
      }
      assert listed[..|listed|] == listed;
    }

    method RewriteDocuments(listed: seq<string>, m: Mapping) returns (changed: map<string, nat>)
      requires IsMapping(m) && forall c :: c in listed ==> c in documents
      modifies this`documents
      ensures documents == AfterEach(old(documents), listed, d => MovedDocument(d, m.targets))
      ensures Counts(changed, old(documents), listed, d => Differs(d, m.targets))
    {
      changed := map[];
      ghost var before := documents;
      ghost var f, p := (d: Option<Json>) => MovedDocument(d, m.targets), (d: Option<Json>) => Differs(d, m.targets);
      forall d ensures f(f(d)) == f(d) && !p(f(d)) {
        DocumentIsSettled(m, d);
      }
      for i := 0 to |listed|
        invariant documents == AfterEach(before, listed[..i], f) && Counts(changed, before, listed[..i], p)
      {
        var c := listed[i];
        AfterOneMore(before, listed, i, f);
        CountOneMore(changed, before, listed, i, f, p);
        var updated, count := UpdateDocuments(documents[c], m.targets);
        documents := documents[c := updated];
        if count > 0 {
          changed := changed[c := count];
        }
      }
      assert listed[..|listed|] == listed;
    }

    method InsertUnlessRecorded(id: string, entry: Entry)
      modifies this`ledger
      ensures ledger == if id in old(ledger) then old(ledger) else old(ledger)[id := entry]
    {
      if id !in ledger {
        ledger := ledger[id := entry];
      }
    }

    /** Rows already in the ledger stay as they are. */
    method Record(m: Mapping)
      requires m.targets.Keys == m.kinds.Keys
      modifies this`ledger
      ensures ledger == Recorded(old(ledger), m)
    {
      var left := m.targets.Keys;
      ghost var before := ledger;
      while left != {}
        invariant left <= m.targets.Keys && ledger == RecordedFor(before, m, m.targets.Keys - left)
      {
        var id :| id in left;
        RecordOneMore(before, m, left, id);
        InsertUnlessRecorded(id, Entry(m.targets[id], m.kinds[id]));
        left := left - {id};
      }
    }

    /** One transaction: a refused or dry run leaves every table as it was. */
    method Migrate(m: Mapping, manifest: Manifest, apply: bool) returns (r: Result<Report, MigrationError>)
      requires IsMapping(m) && DistinctAccounts(accounts)
      requires (forall c :: c in manifest.columns ==> c in columns) && forall c :: c in manifest.documents ==> c in documents
      modifies this
      ensures if r.Success? then Accepts(old(Value()), m, manifest) else Refuses(old(Value()), m, manifest, r.error)
      ensures Value() == if r.Success? && apply then Migrated(old(Value()), m, manifest) else old(Value())
      ensures r.Success? ==>
                && r.value.mappingRows == |m.targets|
                && Counts(r.value.changed, old(columns), manifest.columns, cell => Touched(cell, m.targets))
                && Counts(r.value.changedDocuments, old(documents), manifest.documents, d => Differs(d, m.targets))
    {
      var error := Check(m, manifest);
      if error.Some? {
        return Failure(error.value);
      }
      var before := Value();
      accounts := Each(accounts, (a: Account) => Moved(a, m.targets));
      var changed := UpdateColumns(manifest.columns, m);
      var changedDocuments := RewriteDocuments(manifest.documents, m);
      Record(m);
      if !apply {
        accounts, columns, documents, ledger := before.accounts, before.columns, before.documents, before.ledger;
      }
      return Success(Report(|m.targets|, changed, changedDocuments));
    }
  }
}
