/** Finding the accounts a request names by public id or uuid. */
module AccountLookup {
  import opened Wrappers
  import UuidText

  datatype ActorType = Carbon | Silicon

  datatype Actor = Actor(uuid: string, id: string, kind: ActorType)

  /** How an account can be asked for; ids without regard to case. */
  datatype LookupKey = ByUuid(uuid: string) | ById(id: string)

  /** Silicon Accounts as one request meets it: `None` for an id that is unknown, deleted, still pending
      or cannot be looked up now. */
  type Directory = LookupKey -> Option<Actor>

  function Lower(c: char): char {
    if 'A' <= c <= 'Z' then (c as int + 32) as char else c
  }

  function LowerAll(text: string): string {
    seq(|text|, i requires 0 <= i < |text| => Lower(text[i]))
  }

  predicate IsAlphanumeric(c: char) {
    'a' <= c <= 'z' || 'A' <= c <= 'Z' || '0' <= c <= '9'
  }

  /** Text that cannot name an account has no key. */
  function KeyOf(id: string): Option<LookupKey> {
    if "c:" <= LowerAll(id) || "si:" <= LowerAll(id) then Some(ById(LowerAll(id)))
    else if 3 <= |id| <= 12 && forall i :: 0 <= i < |id| ==> IsAlphanumeric(id[i]) then Some(ByUuid(id))
    else if UuidText.CanonicalUuid(id) then Some(ByUuid(id))
    else None
  }

  /** One account per distinct key, in order of first appearance; any id that fails fails the whole list. */
  function Found(ids: seq<string>, kind: ActorType, directory: Directory, seen: set<LookupKey>): Option<seq<Actor>>
    decreases |ids|
  {
    if ids == [] then Some([])
    else
      match KeyOf(ids[0])
      case None => None
      case Some(key) =>
        if key in seen then Found(ids[1..], kind, directory, seen)
        else if directory(key).None? || directory(key).value.kind != kind then None
        else
          match Found(ids[1..], kind, directory, seen + {key})
          case None => None
          case Some(rest) => Some([directory(key).value] + rest)
  }

  method ResolveAccounts(ids: seq<string>, kind: ActorType, directory: Directory) returns (accounts: Option<seq<Actor>>)
    ensures accounts == Found(ids, kind, directory, {})
  {
    var seen: set<LookupKey>, found: seq<Actor> := {}, [];
    assert ids[0..] == ids;
    BehindNothing(Found(ids, kind, directory, {}));
    for i := 0 to |ids|
      invariant Found(ids, kind, directory, {}) == Behind(found, Found(ids[i..], kind, directory, seen))
    {
      assert ids[i..][1..] == ids[i + 1..];
      var key := KeyOf(ids[i]);
      if key.None? {
        return None;
      }
      if key.value !in seen {
        var account := directory(key.value);
        if account.None? || account.value.kind != kind {
          return None;
        }
        BehindTwice(found, account.value, Found(ids[i + 1..], kind, directory, seen + {key.value}));
        seen, found := seen + {key.value}, found + [account.value];
      }
    }
    assert found + [] == found;
    return Some(found);
  }

  /** Every id of a list that is found can name an account, and every account found has the kind asked for. */
  lemma {:induction false} FoundAccounts(ids: seq<string>, kind: ActorType, directory: Directory, seen: set<LookupKey>)
    requires Found(ids, kind, directory, seen).Some?
    ensures forall id :: id in ids ==> KeyOf(id).Some?
    ensures forall account :: account in Found(ids, kind, directory, seen).value ==> account.kind == kind
    decreases |ids|
  {
    if ids != [] {
      var key := KeyOf(ids[0]).value;
      FoundAccounts(ids[1..], kind, directory, if key in seen then seen else seen + {key});
      assert ids == [ids[0]] + ids[1..];
    }
  }

  predicate Usable(id: string, kind: ActorType, directory: Directory) {
    KeyOf(id).Some? && directory(KeyOf(id).value).Some? && directory(KeyOf(id).value).value.kind == kind
  }

  /** A list is found exactly when every id of it is usable by itself, and the accounts found are those the
      ids name, each id's and no others. */
  lemma {:induction false} FoundIff(ids: seq<string>, kind: ActorType, directory: Directory, seen: set<LookupKey>)
    requires forall key :: key in seen ==> directory(key).Some? && directory(key).value.kind == kind
    ensures Found(ids, kind, directory, seen).Some? <==> forall id :: id in ids ==> Usable(id, kind, directory)
    ensures Found(ids, kind, directory, seen).Some? ==>
              var found := Found(ids, kind, directory, seen).value;
              && (forall id :: id in ids ==> KeyOf(id).value in seen || directory(KeyOf(id).value).value in found)
              && forall account :: account in found ==> exists id :: id in ids && directory(KeyOf(id).value) == Some(account)
    decreases |ids|
  {
    if ids != [] {
      assert ids == [ids[0]] + ids[1..] && ids[0] in ids;
      if Usable(ids[0], kind, directory) {
        var key := KeyOf(ids[0]).value;
        FoundIff(ids[1..], kind, directory, if key in seen then seen else seen + {key});
      }
    }
  }

  predicate AsciiLetterOrDigit(c: char) {
    48 <= c as int <= 57 || 65 <= c as int <= 90 || 97 <= c as int <= 122
  }

  /** What can name an account: an id with the prefix of its kind, without regard to case, and otherwise a
      uuid, exactly as it is written, of 3 to 12 letters and digits or in canonical form. */
  lemma KeyOfIff(id: string, name: string)
    ensures KeyOf(id) == Some(ById(name)) <==> ("c:" <= LowerAll(id) || "si:" <= LowerAll(id)) && name == LowerAll(id)
    ensures KeyOf(id) == Some(ByUuid(name)) <==>
            && name == id && !("c:" <= LowerAll(id)) && !("si:" <= LowerAll(id))
            && (UuidText.CanonicalUuid(id) || (3 <= |id| <= 12 && forall i :: 0 <= i < |id| ==> AsciiLetterOrDigit(id[i])))
  {}

  /** Two ids that differ only in case name the same account if they carry a prefix. */
  lemma CaseDoesNotMatter(a: string, b: string)
    requires |a| == |b| && forall i :: 0 <= i < |a| ==> a[i] == b[i] || a[i] as int == b[i] as int + 32
    requires forall i :: 0 <= i < |a| && a[i] != b[i] ==> 65 <= b[i] as int <= 90
    ensures LowerAll(a) == LowerAll(b)
    ensures KeyOf(a).Some? && KeyOf(a).value.ById? ==> KeyOf(b) == KeyOf(a)
  {}

  // ---- The caller needs no lookup --------------------------------------------------------

  predicate IsCaller(caller: Actor, kind: ActorType, id: string) {
    caller.kind == kind && (id == caller.uuid || (caller.id != "" && LowerAll(id) == LowerAll(caller.id)))
  }

  function Others(caller: Actor, kind: ActorType, ids: seq<string>): seq<string> {
    if ids == [] then []
    else (if IsCaller(caller, kind, ids[0]) then [] else [ids[0]]) + Others(caller, kind, ids[1..])
  }

  predicate NamesCaller(caller: Actor, kind: ActorType, ids: seq<string>) {
    exists i :: 0 <= i < |ids| && IsCaller(caller, kind, ids[i])
  }

  lemma {:induction false} OthersAre(caller: Actor, kind: ActorType, ids: seq<string>, id: string)
    ensures id in Others(caller, kind, ids) <==> id in ids && !IsCaller(caller, kind, id)
  {
    if ids != [] {
      OthersAre(caller, kind, ids[1..], id);
      assert ids == [ids[0]] + ids[1..];
    }
  }

  /** The accounts behind the ids of one kind, the caller first if it is named. */
  function Resolved(caller: Actor, kind: ActorType, ids: seq<string>, directory: Directory): Option<seq<Actor>> {
    Behind(if NamesCaller(caller, kind, ids) then [caller] else [], Found(Others(caller, kind, ids), kind, directory, {}))
  }

  /** A list of one kind resolves exactly when every id in it is the caller's own or usable, and then to the
      caller, if named, and the accounts of the others. */
  lemma ResolvedIff(caller: Actor, kind: ActorType, ids: seq<string>, directory: Directory)
    ensures Resolved(caller, kind, ids, directory).Some? <==>
            forall id :: id in ids ==> IsCaller(caller, kind, id) || Usable(id, kind, directory)
    ensures Resolved(caller, kind, ids, directory).Some? ==>
              var members := Resolved(caller, kind, ids, directory).value;
              && (forall id :: id in ids ==>
                    if IsCaller(caller, kind, id) then caller in members else directory(KeyOf(id).value).value in members)
              && forall m :: m in members ==>
                    exists id :: id in ids && if IsCaller(caller, kind, id) then m == caller else directory(KeyOf(id).value) == Some(m)
  {
    var others := Others(caller, kind, ids);
    FoundIff(others, kind, directory, {});
    forall id ensures id in others <==> id in ids && !IsCaller(caller, kind, id) {
      OthersAre(caller, kind, ids, id);
    }
    assert NamesCaller(caller, kind, ids) <==> exists id :: id in ids && IsCaller(caller, kind, id);
  }

  /** A list that names nobody but the caller, by uuid or by public id in any case, resolves without a lookup. */
  lemma CallerNeedsNoLookup(caller: Actor, ids: seq<string>, directory: Directory)
    requires ids != []
    requires forall id :: id in ids ==> id == caller.uuid || (id != "" && LowerAll(id) == LowerAll(caller.id))
    ensures Resolved(caller, caller.kind, ids, directory) == Some([caller])
  {
    forall id ensures (id in ids ==> IsCaller(caller, caller.kind, id)) && id !in Others(caller, caller.kind, ids) {
      assert |LowerAll(id)| == |id| && |LowerAll(caller.id)| == |caller.id|;
      OthersAre(caller, caller.kind, ids, id);
    }
    assert Others(caller, caller.kind, ids) == [] by {
      if Others(caller, caller.kind, ids) != [] {
        assert Others(caller, caller.kind, ids)[0] in Others(caller, caller.kind, ids);
      }
    }
    assert IsCaller(caller, caller.kind, ids[0]) && [caller] + [] == [caller];
  }

  /** An empty id names nobody, whoever asks, and spoils the list. */
  lemma EmptyIdIsRefused(caller: Actor, kind: ActorType, ids: seq<string>, directory: Directory)
    requires "" in ids && caller.uuid != ""
    ensures Resolved(caller, kind, ids, directory) == None
  {
    ResolvedIff(caller, kind, ids, directory);
    assert !IsCaller(caller, kind, "") && !Usable("", kind, directory);
  }

  method ResolveMembers(caller: Actor, kind: ActorType, ids: seq<string>, directory: Directory)
    returns (members: Option<seq<Actor>>)
    ensures members == Resolved(caller, kind, ids, directory)
    ensures members.Some? ==> forall m :: m in members.value ==> m.kind == kind
  {
    var found := ResolveAccounts(Others(caller, kind, ids), kind, directory);
    if found.None? {
      return None;
    }
    FoundAccounts(Others(caller, kind, ids), kind, directory, {});
    if NamesCaller(caller, kind, ids) {
      return Some([caller] + found.value);
    }
    BehindNothing(found);
    return found;
  }

  /** The ids a new project lists for one kind; its creator is added unless already listed. */
  function WithCreator(creator: Actor, kind: ActorType, ids: seq<string>): seq<string> {
    if creator.kind == kind && creator.id !in ids then ids + [creator.id] else ids
  }

  /** Whatever a new project lists, and also when its creator has no public id: if the list resolves at
      all, the creator is in it. */
  lemma CreatorIsResolved(creator: Actor, ids: seq<string>, directory: Directory)
    requires Resolved(creator, creator.kind, WithCreator(creator, creator.kind, ids), directory).Some?
    ensures creator in Resolved(creator, creator.kind, WithCreator(creator, creator.kind, ids), directory).value
  {
    var listed := WithCreator(creator, creator.kind, ids);
    assert creator.id in listed;
    var i :| 0 <= i < |listed| && listed[i] == creator.id;
    assert KeyOf("").None?;
    FoundAccounts(Others(creator, creator.kind, listed), creator.kind, directory, {});
    OthersAre(creator, creator.kind, listed, listed[i]);
    assert IsCaller(creator, creator.kind, listed[i]);
  }
}
