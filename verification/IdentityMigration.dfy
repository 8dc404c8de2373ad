/** One run of the backfill over the tables its manifest lists, and what a history of runs keeps. */
module IdentityMigration {
  import opened Wrappers
  import opened UuidText
  import opened IdentityMapping
  import opened IdentityJson

  datatype Account = Account(uuid: string, kind: Option<Kind>, status: string)

  datatype Entry = Entry(target: string, kind: Kind)

  /** The account rows, the other listed scalar and JSON columns row by row, and the persisted mapping. */
  datatype Tables = Tables(
    accounts: seq<Account>,
    columns: map<string, seq<Option<string>>>,
    documents: map<string, seq<Option<Json>>>,
    ledger: map<string, Entry>)

  datatype Manifest = Manifest(
    columns: seq<string>, documents: seq<string>, allowUnlinkedPlaceholders: bool, allowUnknownKind: bool)

  datatype MigrationError =
    | ConflictsWithLedger
    | TargetOfAnotherSource
    | Omits(accounts: nat)
    | KindContradicts
    | TargetExists

  // ---- The checks ------------------------------------------------------------------------

  function Split(text: string): seq<string>
    decreases |text|
  {
    var k := FirstColon(text);
    if k == |text| then [text] else [text[..k]] + Split(text[k + 1..])
  }

  /** The private id an unlinked IAM principal keeps: it is no account of the mapping. */
  predicate IsPlaceholder(id: string) {
    var parts := Split(id);
    |parts| == 3 && parts[0] == "iam" && CanonicalUuid(parts[1]) && CanonicalUuid(parts[2])
  }

  lemma SplitHead(head: string, tail: string)
    requires ':' !in head
    ensures Split(head + ":" + tail) == [head] + Split(tail)
  {
    var text := head + ":" + tail;
    assert text[|head|] == ':' && forall i :: 0 <= i < |head| ==> text[i] == head[i];
    assert FirstColon(text) == |head| && text[..|head|] == head && text[|head| + 1..] == tail;
  }

  lemma SplitWhole(text: string)
    requires ':' !in text
    ensures Split(text) == [text]
  {
    assert FirstColon(text) == |text|;
  }

  lemma {:induction false} SplitRebuilds(text: string)
    ensures |Split(text)| >= 1 && forall part :: part in Split(text) ==> ':' !in part
    ensures |Split(text)| == 1 ==> text == Split(text)[0]
    ensures |Split(text)| > 1 ==> exists tail :: text == Split(text)[0] + ":" + tail && Split(text)[1..] == Split(tail)
    decreases |text|
  {
    var k := FirstColon(text);
    if k < |text| {
      SplitRebuilds(text[k + 1..]);
      assert text == text[..k] + ":" + text[k + 1..];
    }
  }

  /** A placeholder is `iam:`, a canonical organization id, `:`, and a canonical principal id. */
  lemma PlaceholderIff(id: string)
    ensures IsPlaceholder(id) <==>
            exists org, principal :: CanonicalUuid(org) && CanonicalUuid(principal) && id == "iam" + ":" + (org + ":" + principal)
  {
    if IsPlaceholder(id) {
      SplitRebuilds(id);
      var rest :| id == Split(id)[0] + ":" + rest && Split(id)[1..] == Split(rest);
      SplitRebuilds(rest);
      var last :| rest == Split(rest)[0] + ":" + last && Split(rest)[1..] == Split(last);
      SplitRebuilds(last);
      assert Split(rest)[0] == Split(id)[1] && Split(last)[0] == Split(id)[2];
    }
    if org, principal :| CanonicalUuid(org) && CanonicalUuid(principal) && id == "iam" + ":" + (org + ":" + principal) {
      SplitHead("iam", org + ":" + principal);
      SplitHead(org, principal);
      SplitWhole(principal);
    }
  }

  predicate IsCovered(account: Account, m: Substitution, allowUnlinked: bool) {
    || account.uuid in m || CanonicalUuid(account.uuid)
    || (allowUnlinked && account.status == "unlinked" && IsPlaceholder(account.uuid))
  }

  predicate KindMatches(actual: Option<Kind>, kind: Kind, allowUnknown: bool) {
    actual == Some(kind) || (allowUnknown && actual.None?)
  }

  function Uncovered(accounts: seq<Account>, m: Substitution, allowUnlinked: bool): set<nat> {
    set i: nat | i < |accounts| && !IsCovered(accounts[i], m, allowUnlinked)
  }

  ghost predicate AgreesWithLedger(t: Tables, m: Mapping)
    requires IsMapping(m)
  {
    forall id :: id in m.targets && id in t.ledger ==> t.ledger[id] == Entry(m.targets[id], m.kinds[id])
  }

  ghost predicate TargetsAreUnclaimed(t: Tables, m: Mapping) {
    forall id :: id in t.ledger && t.ledger[id].target in m.targets.Values ==> id in m.targets
  }

  predicate HasAccount(accounts: seq<Account>, uuid: string) {
    exists i :: 0 <= i < |accounts| && accounts[i].uuid == uuid
  }

  ghost predicate KindsAgree(t: Tables, m: Mapping, id: string, uuid: string, allowUnknown: bool)
    requires id in m.kinds
  {
    forall i :: 0 <= i < |t.accounts| && t.accounts[i].uuid == uuid ==> KindMatches(t.accounts[i].kind, m.kinds[id], allowUnknown)
  }

  /** Moving `id` to its target cannot join two accounts: the target is free, or an earlier run put it there. */
  ghost predicate TargetIsFree(t: Tables, m: Mapping, id: string, allowUnknown: bool)
    requires IsMapping(m) && id in m.targets
  {
    HasAccount(t.accounts, m.targets[id]) ==>
      !HasAccount(t.accounts, id) && id in t.ledger && KindsAgree(t, m, id, m.targets[id], allowUnknown)
  }

  ghost predicate Accepts(t: Tables, m: Mapping, manifest: Manifest)
    requires IsMapping(m)
  {
    && AgreesWithLedger(t, m)
    && TargetsAreUnclaimed(t, m)
    && Uncovered(t.accounts, m.targets, manifest.allowUnlinkedPlaceholders) == {}
    && forall id :: id in m.targets ==>
                      KindsAgree(t, m, id, id, manifest.allowUnknownKind) && TargetIsFree(t, m, id, manifest.allowUnknownKind)
  }

  /** The first check that fails names the refusal; which of several offending accounts is met first is open. */
  ghost predicate Refuses(t: Tables, m: Mapping, manifest: Manifest, error: MigrationError)
    requires IsMapping(m)
  {
    var uncovered := Uncovered(t.accounts, m.targets, manifest.allowUnlinkedPlaceholders);
    match error
    case ConflictsWithLedger => !AgreesWithLedger(t, m)
    case TargetOfAnotherSource => AgreesWithLedger(t, m) && !TargetsAreUnclaimed(t, m)
    case Omits(n) => AgreesWithLedger(t, m) && TargetsAreUnclaimed(t, m) && uncovered != {} && n == |uncovered|
    case KindContradicts =>
      && AgreesWithLedger(t, m) && TargetsAreUnclaimed(t, m) && uncovered == {}
      && exists id :: id in m.targets && !KindsAgree(t, m, id, id, manifest.allowUnknownKind)
    case TargetExists =>
      && AgreesWithLedger(t, m) && TargetsAreUnclaimed(t, m) && uncovered == {}
      && exists id :: id in m.targets && !TargetIsFree(t, m, id, manifest.allowUnknownKind)
  }

  /** An account and the line that moves it agree on its kind: carbon with carbon, silicon with silicon, and
      an unknown kind only where that is allowed. */
  lemma KindsAgreeIff(t: Tables, m: Mapping, rows: seq<seq<string>>, row: seq<string>, allowUnknown: bool)
    requires Acceptable(rows) && Lists(m, rows) && row in rows
    ensures |row| == 3 && row[0] in m.kinds
    ensures KindsAgree(t, m, row[0], row[0], allowUnknown) <==>
            forall i :: 0 <= i < |t.accounts| && t.accounts[i].uuid == row[0] ==> MeetsKind(t.accounts[i].kind, row[2], allowUnknown)
  {
    ListedRow(m, rows, row);
    MeetsKindIff(m.kinds[row[0]], row[2], allowUnknown);
  }

  /** In the words of the file. */
  predicate MeetsKind(kind: Option<Kind>, word: string, allowUnknown: bool) {
    (kind == Some(Carbon) && word == "carbon") || (kind == Some(Silicon) && word == "silicon") || (kind == None && allowUnknown)
  }

  lemma MeetsKindIff(kind: Kind, word: string, allowUnknown: bool)
    requires kind == Carbon <==> word == "carbon"
    requires kind == Silicon <==> word == "silicon"
    ensures forall actual :: KindMatches(actual, kind, allowUnknown) <==> MeetsKind(actual, word, allowUnknown)
  {}

  // ---- The change ------------------------------------------------------------------------

  function Moved(account: Account, m: Substitution): Account {
    account.(uuid := Substitute(account.uuid, m))
  }

  function MovedCell(cell: Option<string>, m: Substitution): Option<string> {
    if cell.Some? then Some(Substitute(cell.value, m)) else None
  }

  function MovedDocument(document: Option<Json>, m: Substitution): Option<Json> {
    if document.Some? then Some(Rewrite(document.value, m)) else None
  }

  function Each<T>(rows: seq<T>, f: T -> T): (r: seq<T>)
    ensures |r| == |rows| && forall i :: 0 <= i < |rows| ==> r[i] == f(rows[i])
  {
    seq(|rows|, i requires 0 <= i < |rows| => f(rows[i]))
  }

  /** The listed columns with every row changed; the others as they were. */
  function AfterEach<T>(columns: map<string, seq<T>>, listed: seq<string>, f: T -> T): map<string, seq<T>> {
    map c | c in columns :: if c in listed then Each(columns[c], f) else columns[c]
  }

  function Recorded(ledger: map<string, Entry>, m: Mapping): map<string, Entry>
    requires m.targets.Keys == m.kinds.Keys
  {
    (map id | id in m.targets :: Entry(m.targets[id], m.kinds[id])) + ledger
  }

  /** Every listed column and document with all ids replaced at once, and the mapping recorded. */
  function Migrated(t: Tables, m: Mapping, manifest: Manifest): Tables
    requires m.targets.Keys == m.kinds.Keys
  {
    Tables(
      Each(t.accounts, (a: Account) => Moved(a, m.targets)),
      AfterEach(t.columns, manifest.columns, cell => MovedCell(cell, m.targets)),
      AfterEach(t.documents, manifest.documents, d => MovedDocument(d, m.targets)),
      Recorded(t.ledger, m))
  }

  /** Cell by cell: what the change writes, and everything it leaves alone. */
  lemma MigratedIs(t: Tables, m: Mapping, manifest: Manifest)
    requires m.targets.Keys == m.kinds.Keys
    ensures var after := Migrated(t, m, manifest);
            && |after.accounts| == |t.accounts|
            && (forall i :: 0 <= i < |t.accounts| ==>
                  var was, became := t.accounts[i], after.accounts[i];
                  && became.kind == was.kind && became.status == was.status
                  && became.uuid == if was.uuid in m.targets then m.targets[was.uuid] else was.uuid)
            && after.columns.Keys == t.columns.Keys && after.documents.Keys == t.documents.Keys
            && (forall c :: c in t.columns && c !in manifest.columns ==> after.columns[c] == t.columns[c])
            && (forall c :: c in t.documents && c !in manifest.documents ==> after.documents[c] == t.documents[c])
            && (forall c :: c in t.columns && c in manifest.columns ==> |after.columns[c]| == |t.columns[c]|)
            && (forall c :: c in t.documents && c in manifest.documents ==> |after.documents[c]| == |t.documents[c]|)
    ensures forall c, i :: c in t.columns && c in manifest.columns && 0 <= i < |t.columns[c]| ==>
              var was, became := t.columns[c][i], Migrated(t, m, manifest).columns[c][i];
              became == if was.Some? && was.value in m.targets then Some(m.targets[was.value]) else was
    ensures forall c, i :: c in t.documents && c in manifest.documents && 0 <= i < |t.documents[c]| ==>
              var was, became := t.documents[c][i], Migrated(t, m, manifest).documents[c][i];
              (was.None? ==> became.None?) && (was.Some? ==> became == Some(Rewrite(was.value, m.targets)))
    ensures var ledger := Migrated(t, m, manifest).ledger;
            && ledger.Keys == t.ledger.Keys + m.targets.Keys
            && forall id :: id in ledger ==>
                 ledger[id] == if id in t.ledger then t.ledger[id] else Entry(m.targets[id], m.kinds[id])
  {}

  // ---- What one accepted run guarantees --------------------------------------------------

  ghost predicate DistinctAccounts(accounts: seq<Account>) {
    forall i, j :: 0 <= i < |accounts| && 0 <= j < |accounts| && accounts[i].uuid == accounts[j].uuid ==> i == j
  }

  ghost predicate OneSourcePerTarget(ledger: map<string, Entry>) {
    forall a, b :: a in ledger && b in ledger && ledger[a].target == ledger[b].target ==> a == b
  }

  /** A file is refused for omissions exactly when some account would be left without a canonical UUID, other
      than an unlinked placeholder where those are allowed. */
  lemma NothingOmittedIff(t: Tables, m: Mapping, manifest: Manifest)
    requires IsMapping(m)
    ensures Uncovered(t.accounts, m.targets, manifest.allowUnlinkedPlaceholders) == {} <==>
            forall i :: 0 <= i < |t.accounts| ==>
              || CanonicalUuid(Migrated(t, m, manifest).accounts[i].uuid)
              || (&& manifest.allowUnlinkedPlaceholders && t.accounts[i].status == "unlinked"
                  && exists org, principal :: CanonicalUuid(org) && CanonicalUuid(principal)
                                              && t.accounts[i].uuid == "iam" + ":" + (org + ":" + principal))
  {
    var uncovered := Uncovered(t.accounts, m.targets, manifest.allowUnlinkedPlaceholders);
    forall i: nat | i < |t.accounts|
      ensures IsCovered(t.accounts[i], m.targets, manifest.allowUnlinkedPlaceholders) <==>
              || CanonicalUuid(Migrated(t, m, manifest).accounts[i].uuid)
              || (&& manifest.allowUnlinkedPlaceholders && t.accounts[i].status == "unlinked"
                  && exists org, principal :: CanonicalUuid(org) && CanonicalUuid(principal)
                                              && t.accounts[i].uuid == "iam" + ":" + (org + ":" + principal))
    {
      PlaceholderIff(t.accounts[i].uuid);
    }
    assert forall i: nat :: i < |t.accounts| ==>
             (i in uncovered <==> !IsCovered(t.accounts[i], m.targets, manifest.allowUnlinkedPlaceholders));
  }

  /** Two different accounts never get the same id. */
  lemma NoMerge(t: Tables, m: Mapping, manifest: Manifest, a: string, b: string)
    requires IsMapping(m) && Accepts(t, m, manifest)
    requires HasAccount(t.accounts, a) && HasAccount(t.accounts, b)
    ensures Substitute(a, m.targets) == Substitute(b, m.targets) <==> a == b
  {
    if a in m.targets {
      assert TargetIsFree(t, m, a, manifest.allowUnknownKind);
    }
    if b in m.targets {
      assert TargetIsFree(t, m, b, manifest.allowUnknownKind);
    }
  }

  lemma AccountsStayDistinct(t: Tables, m: Mapping, manifest: Manifest)
    requires IsMapping(m) && Accepts(t, m, manifest) && DistinctAccounts(t.accounts)
    ensures DistinctAccounts(Migrated(t, m, manifest).accounts)
  {
    var after := Migrated(t, m, manifest).accounts;
    forall i, j | 0 <= i < |after| && 0 <= j < |after| && after[i].uuid == after[j].uuid ensures i == j {
      NoMerge(t, m, manifest, t.accounts[i].uuid, t.accounts[j].uuid);
    }
  }

  /** Every cell of the column is empty or the id of an account. */
  ghost predicate HoldsAccounts(t: Tables, column: string) {
    column in t.columns
    && forall i: nat :: i < |t.columns[column]| && t.columns[column][i].Some? ==> HasAccount(t.accounts, t.columns[column][i].value)
  }

  predicate SameCell(t: Tables, from: string, i: nat, to: string, j: nat) {
    && from in t.columns && i < |t.columns[from]| && to in t.columns && j < |t.columns[to]|
    && t.columns[from][i] == t.columns[to][j]
  }

  /** One id is a source and the other its target. */
  predicate Moves(m: Substitution, a: string, b: string) {
    (a in m && m[a] == b) || (b in m && m[b] == a)
  }

  /** Two ids become equal only if they were, or if one was moved onto the other. */
  lemma EqualAfterIff(m: Substitution, a: string, b: string)
    requires Injective(m) && Unchained(m)
    ensures Substitute(a, m) == Substitute(b, m) <==> a == b || Moves(m, a, b)
  {}

  /** No reference between two listed columns, whatever they hold, loses the row it names. */
  lemma ListedReferencesNeverDangle(t: Tables, m: Mapping, manifest: Manifest, from: string, i: nat, to: string, j: nat)
    requires IsMapping(m) && from in manifest.columns && to in manifest.columns
    requires SameCell(t, from, i, to, j)
    ensures SameCell(Migrated(t, m, manifest), from, i, to, j)
  {}

  /** Two listed cells are equal afterwards exactly when they were before, or when one held a source and
      the other its target. */
  lemma CellsAgreeIff(t: Tables, m: Mapping, manifest: Manifest, from: string, i: nat, to: string, j: nat)
    requires IsMapping(m) && from in manifest.columns && to in manifest.columns
    requires from in t.columns && i < |t.columns[from]| && to in t.columns && j < |t.columns[to]|
    ensures SameCell(Migrated(t, m, manifest), from, i, to, j) <==>
            var a, b := t.columns[from][i], t.columns[to][j];
            a == b || (a.Some? && b.Some? && Moves(m.targets, a.value, b.value))
  {
    var a, b := t.columns[from][i], t.columns[to][j];
    if a.Some? && b.Some? {
      EqualAfterIff(m.targets, a.value, b.value);
    }
  }

  /** Between listed columns of accounts, a reference names exactly the rows it named before. */
  lemma ReferencesAreKept(t: Tables, m: Mapping, manifest: Manifest, from: string, i: nat, to: string, j: nat)
    requires IsMapping(m) && Accepts(t, m, manifest)
    requires from in manifest.columns && to in manifest.columns && HoldsAccounts(t, from) && HoldsAccounts(t, to)
    ensures SameCell(Migrated(t, m, manifest), from, i, to, j) <==> SameCell(t, from, i, to, j)
  {
    if from in t.columns && i < |t.columns[from]| && to in t.columns && j < |t.columns[to]| {
      var a, b := t.columns[from][i], t.columns[to][j];
      if a.Some? && b.Some? {
        NoMerge(t, m, manifest, a.value, b.value);
      }
    }
  }

  /** Row `i` of a composite foreign key, a key and an account, names row `j` of what it references. */
  predicate Refers(t: Tables, fromKey: string, from: string, i: nat, toKey: string, to: string, j: nat) {
    SameCell(t, fromKey, i, toKey, j) && SameCell(t, from, i, to, j) && t.columns[from][i].Some?
  }

  /** A composite foreign key names exactly the rows it named before, so it neither moves nor dangles. The
      key columns hold ids of other things and are not listed. */
  lemma CompositeReferencesAreKept(
      t: Tables, m: Mapping, manifest: Manifest, fromKey: string, from: string, i: nat, toKey: string, to: string, j: nat)
    requires IsMapping(m) && Accepts(t, m, manifest)
    requires from in manifest.columns && to in manifest.columns && HoldsAccounts(t, from) && HoldsAccounts(t, to)
    requires fromKey !in manifest.columns && toKey !in manifest.columns
    ensures Refers(Migrated(t, m, manifest), fromKey, from, i, toKey, to, j) <==> Refers(t, fromKey, from, i, toKey, to, j)
  {
    ReferencesAreKept(t, m, manifest, from, i, to, j);
  }

  /** A listed foreign key to the accounts themselves names exactly the account rows it named before, and
      still holds nothing but accounts. */
  lemma AccountReferencesAreKept(t: Tables, m: Mapping, manifest: Manifest, column: string)
    requires IsMapping(m) && Accepts(t, m, manifest)
    requires column in manifest.columns && HoldsAccounts(t, column)
    ensures var after := Migrated(t, m, manifest);
            && HoldsAccounts(after, column)
            && forall i: nat, j: nat :: i < |t.columns[column]| && j < |t.accounts| ==>
                                          (after.columns[column][i] == Some(after.accounts[j].uuid) <==>
                                           t.columns[column][i] == Some(t.accounts[j].uuid))
  {
    var after := Migrated(t, m, manifest);
    var before, cells := t.columns[column], after.columns[column];
    forall i: nat | i < |cells| && cells[i].Some? ensures HasAccount(after.accounts, cells[i].value) {
      var j :| 0 <= j < |t.accounts| && t.accounts[j].uuid == before[i].value;
      assert after.accounts[j].uuid == cells[i].value;
    }
    forall i: nat, j: nat | i < |before| && j < |t.accounts|
      ensures cells[i] == Some(after.accounts[j].uuid) <==> before[i] == Some(t.accounts[j].uuid)
    {
      if before[i].Some? {
        assert HasAccount(t.accounts, t.accounts[j].uuid);
        NoMerge(t, m, manifest, before[i].value, t.accounts[j].uuid);
      }
    }
  }

  /** No source is left in any listed place, so the run's last check cannot fail. */
  lemma NothingRemains(t: Tables, m: Mapping, manifest: Manifest, id: string)
    requires IsMapping(m) && id in m.targets
    ensures var after := Migrated(t, m, manifest);
            && !HasAccount(after.accounts, id)
            && (forall c :: c in t.columns && c in manifest.columns ==> Some(id) !in after.columns[c])
            && forall c, d :: c in t.documents && c in manifest.documents && Some(d) in after.documents[c] ==> FreeOf(d, {id})
  {
    var after := Migrated(t, m, manifest);
    forall c, d | c in t.documents && c in manifest.documents && Some(d) in after.documents[c] ensures FreeOf(d, {id}) {
      var i :| 0 <= i < |t.documents[c]| && after.documents[c][i] == Some(d);
      RewriteIsComplete(t.documents[c][i].value, m.targets);
    }
  }

  lemma TargetsAreCovered(account: Account, m: Mapping, allowUnlinked: bool)
    requires IsMapping(m) && IsCovered(account, m.targets, allowUnlinked)
    ensures IsCovered(Moved(account, m.targets), m.targets, allowUnlinked)
  {}

  lemma AccountsAreSettled(m: Mapping, accounts: seq<Account>)
    requires IsMapping(m)
    ensures var f := (a: Account) => Moved(a, m.targets); Each(Each(accounts, f), f) == Each(accounts, f)
  {}

  lemma ColumnsAreSettled<T(!new)>(columns: map<string, seq<T>>, listed: seq<string>, f: T -> T)
    requires forall x :: f(f(x)) == f(x)
    ensures AfterEach(AfterEach(columns, listed, f), listed, f) == AfterEach(columns, listed, f)
  {
    forall c | c in columns && c in listed ensures Each(Each(columns[c], f), f) == Each(columns[c], f) {}
  }

  lemma DocumentIsSettled(m: Mapping, d: Option<Json>)
    requires IsMapping(m)
    ensures MovedDocument(MovedDocument(d, m.targets), m.targets) == MovedDocument(d, m.targets)
  {
    if d.Some? {
      RewriteIsIdempotent(d.value, m.targets);
    }
  }

  /** The same file changes nothing the second time. */
  lemma SecondRunChangesNothing(t: Tables, m: Mapping, manifest: Manifest)
    requires IsMapping(m) && AgreesWithLedger(t, m)
    ensures Migrated(Migrated(t, m, manifest), m, manifest) == Migrated(t, m, manifest)
  {
    AccountsAreSettled(m, t.accounts);
    ColumnsAreSettled(t.columns, manifest.columns, cell => MovedCell(cell, m.targets));
    forall d ensures MovedDocument(MovedDocument(d, m.targets), m.targets) == MovedDocument(d, m.targets) {
      DocumentIsSettled(m, d);
    }
    ColumnsAreSettled(t.documents, manifest.documents, d => MovedDocument(d, m.targets));
    assert Recorded(Recorded(t.ledger, m), m) == Recorded(t.ledger, m);
  }

  lemma KindsAgreeAfter(t: Tables, m: Mapping, manifest: Manifest, id: string)
    requires IsMapping(m) && Accepts(t, m, manifest) && id in m.targets
    ensures KindsAgree(Migrated(t, m, manifest), m, id, m.targets[id], manifest.allowUnknownKind)
  {
    var after := Migrated(t, m, manifest);
    forall i | 0 <= i < |after.accounts| && after.accounts[i].uuid == m.targets[id]
      ensures KindMatches(after.accounts[i].kind, m.kinds[id], manifest.allowUnknownKind)
    {
      var before := t.accounts[i];
      assert KindsAgree(t, m, id, id, manifest.allowUnknownKind) && TargetIsFree(t, m, id, manifest.allowUnknownKind);
      assert before.uuid in m.targets ==> before.uuid == id;
      assert before.uuid !in m.targets ==> before.uuid == m.targets[id];
    }
  }

  /** An accepted and applied file is accepted again. */
  lemma SecondRunIsAccepted(t: Tables, m: Mapping, manifest: Manifest)
    requires IsMapping(m) && Accepts(t, m, manifest)
    ensures Accepts(Migrated(t, m, manifest), m, manifest)
  {
    var after := Migrated(t, m, manifest);
    forall i: nat | i < |after.accounts| ensures IsCovered(after.accounts[i], m.targets, manifest.allowUnlinkedPlaceholders) {
      assert i !in Uncovered(t.accounts, m.targets, manifest.allowUnlinkedPlaceholders);
      TargetsAreCovered(t.accounts[i], m, manifest.allowUnlinkedPlaceholders);
    }
    forall id | id in m.targets
      ensures KindsAgree(after, m, id, id, manifest.allowUnknownKind) && TargetIsFree(after, m, id, manifest.allowUnknownKind)
    {
      NothingRemains(t, m, manifest, id);
      assert forall i :: 0 <= i < |after.accounts| ==> after.accounts[i].uuid != id;
      KindsAgreeAfter(t, m, manifest, id);
    }
  }

  // ---- Histories -------------------------------------------------------------------------

  /** The ledger keeps what it held and records the mapping as it was given. */
  lemma LedgerGrows(t: Tables, m: Mapping)
    requires IsMapping(m) && AgreesWithLedger(t, m)
    ensures forall id :: id in t.ledger ==> id in Recorded(t.ledger, m) && Recorded(t.ledger, m)[id] == t.ledger[id]
    ensures forall id :: id in m.targets ==>
                           id in Recorded(t.ledger, m) && Recorded(t.ledger, m)[id] == Entry(m.targets[id], m.kinds[id])
  {}

  /** No target gets a second source. */
  lemma LedgerAfter(t: Tables, m: Mapping)
    requires IsMapping(m) && AgreesWithLedger(t, m) && TargetsAreUnclaimed(t, m) && OneSourcePerTarget(t.ledger)
    ensures OneSourcePerTarget(Recorded(t.ledger, m))
  {
    LedgerGrows(t, m);
    var after := Recorded(t.ledger, m);
    forall a, b | a in after && b in after && after[a].target == after[b].target ensures a == b {
      assert a in m.targets ==> after[a].target in m.targets.Values;
      assert b in m.targets ==> after[b].target in m.targets.Values;
    }
  }

  /** One run: the tables as it finds them, apart from the ledger, and what it is asked to do. */
  datatype Run = Run(found: Tables, mapping: Mapping, manifest: Manifest, apply: bool)

  ghost predicate Commits(run: Run, ledger: map<string, Entry>) {
    run.apply && IsMapping(run.mapping) && Accepts(run.found.(ledger := ledger), run.mapping, run.manifest)
  }

  ghost function LedgerAfterRuns(runs: seq<Run>): map<string, Entry>
    decreases |runs|
  {
    if runs == [] then map[]
    else
      var before := LedgerAfterRuns(runs[..|runs| - 1]);
      var run := runs[|runs| - 1];
      if Commits(run, before) then Recorded(before, run.mapping) else before
  }

  /**
   * Over every sequence of runs, whatever happens to the other tables between them, the ledger has
   * one target per source and one source per target.
   */
  lemma {:induction false} LedgerStaysInjective(runs: seq<Run>)
    ensures OneSourcePerTarget(LedgerAfterRuns(runs))
    decreases |runs|
  {
    if runs != [] {
      var run, before := runs[|runs| - 1], LedgerAfterRuns(runs[..|runs| - 1]);
      LedgerStaysInjective(runs[..|runs| - 1]);
      if Commits(run, before) {
        LedgerAfter(run.found.(ledger := before), run.mapping);
      }
    }
  }

  /** What a committed run recorded, no later run changes or drops. */
  lemma {:induction false} CommittedMappingsStay(runs: seq<Run>, i: nat, id: string)
    requires i < |runs| && Commits(runs[i], LedgerAfterRuns(runs[..i])) && id in runs[i].mapping.targets
    ensures id in runs[i].mapping.kinds && id in LedgerAfterRuns(runs)
    ensures LedgerAfterRuns(runs)[id] == Entry(runs[i].mapping.targets[id], runs[i].mapping.kinds[id])
    decreases |runs|
  {
    var n := |runs| - 1;
    var run, before := runs[n], LedgerAfterRuns(runs[..n]);
    if i < n {
      assert runs[..n][i] == runs[i] && runs[..n][..i] == runs[..i];
      CommittedMappingsStay(runs[..n], i, id);
    }
    if Commits(run, before) {
      LedgerGrows(run.found.(ledger := before), run.mapping);
    }
  }

  /** Two sources a history of runs has moved never share an id, whichever runs moved them. */
  lemma NoMergeAcrossRuns(runs: seq<Run>, i: nat, j: nat, a: string, b: string)
    requires i < |runs| && Commits(runs[i], LedgerAfterRuns(runs[..i])) && a in runs[i].mapping.targets
    requires j < |runs| && Commits(runs[j], LedgerAfterRuns(runs[..j])) && b in runs[j].mapping.targets
    ensures runs[i].mapping.targets[a] == runs[j].mapping.targets[b] <==> a == b
  {
    LedgerStaysInjective(runs);
    CommittedMappingsStay(runs, i, a);
    CommittedMappingsStay(runs, j, b);
  }
}
