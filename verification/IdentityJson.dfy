/** Rewriting the account ids inside an approved JSON document, and undoing it. */
module IdentityJson {
  import opened Wrappers
  import opened IdentityMapping

  datatype Json =
    | Null
    | Bool(truth: bool)
    | Number(digits: string)
    | Str(text: string)
    | List(items: seq<Json>)
    | Object(fields: seq<Field>)

  datatype Field = Field(key: string, value: Json)

  const IDENTITY_KEYS := {
    "uuid", "account_uuid", "custodian_uuid", "actor_account", "owner_account", "assigned_by_account",
    "assigned_to_account", "participant_account", "silicon_account", "allowed_account", "created_by_account",
    "updated_by_account", "added_by_account", "removed_by_account", "deleted_by_account"
  }

  function Lookup(fields: seq<Field>, key: string): Option<Json> {
    if fields == [] then None else if fields[0].key == key then Some(fields[0].value) else Lookup(fields[1..], key)
  }

  function OrElse(a: Option<Json>, b: Option<Json>): Option<Json> {
    if a.Some? then a else b
  }

  /** The object says it describes an account, so its `id` is an account id. */
  predicate Typed(fields: seq<Field>) {
    OrElse(Lookup(fields, "type"), Lookup(fields, "kind")) in {Some(Str("carbon")), Some(Str("silicon"))}
  }

  function FirstColon(text: string): (k: nat)
    ensures k <= |text| && forall i :: 0 <= i < k ==> text[i] != ':'
    ensures k < |text| ==> text[k] == ':'
  {
    if text == "" || text[0] == ':' then 0 else 1 + FirstColon(text[1..])
  }

  function Substitute(id: string, m: Substitution): string {
    if id in m then m[id] else id
  }

  /** What a place in a document may name: nothing, an account, or an account after an app's name. */
  datatype Role = Plain | Identity | Membership

  function RoleOf(key: string, typed: bool): Role {
    if key in IDENTITY_KEYS || (typed && key == "id") then Identity
    else if key == "membership_id" then Membership
    else Plain
  }

  function Rewrite(v: Json, m: Substitution): Json
    decreases v, 0
  {
    match v
    case List(items) => List(seq(|items|, i requires 0 <= i < |items| => Rewrite(items[i], m)))
    case Object(fields) =>
      var typed := Typed(fields);
      Object(seq(|fields|, i requires 0 <= i < |fields| =>
        Field(fields[i].key, RewriteMember(fields[i].value, RoleOf(fields[i].key, typed), m))))
    case _ => v
  }

  function RewriteMember(item: Json, role: Role, m: Substitution): Json
    decreases item, 1
  {
    if item.Str? && role.Identity? then
      Str(Substitute(item.text, m))
    else if role.Membership? && item.Str? && ':' in item.text then
      var k := FirstColon(item.text);
      var app, id := item.text[..k], item.text[k + 1..];
      if id in m then Str(app + ":" + m[id]) else item
    else
      Rewrite(item, m)
  }

  // ---- What happens to the members of an object ------------------------------------------

  predicate FirstMember(fields: seq<Field>, key: string, i: nat) {
    i < |fields| && fields[i].key == key && forall j :: 0 <= j < i ==> fields[j].key != key
  }

  /** `type`, or `kind` where there is no `type`, is the text carbon or silicon. */
  ghost predicate SaysAccount(fields: seq<Field>) {
    exists i: nat ::
      && (FirstMember(fields, "type", i) || (FirstMember(fields, "kind", i) && forall j :: 0 <= j < |fields| ==> fields[j].key != "type"))
      && (fields[i].value == Str("carbon") || fields[i].value == Str("silicon"))
  }

  lemma {:induction false} FirstIsFound(fields: seq<Field>, key: string, i: nat)
    requires FirstMember(fields, key, i)
    ensures Lookup(fields, key) == Some(fields[i].value)
    decreases i
  {
    if i > 0 {
      FirstIsFound(fields[1..], key, i - 1);
    }
  }

  lemma {:induction false} FoundIsFirst(fields: seq<Field>, key: string) returns (i: nat)
    requires exists j :: 0 <= j < |fields| && fields[j].key == key
    ensures FirstMember(fields, key, i) && Lookup(fields, key) == Some(fields[i].value)
    decreases |fields|
  {
    if fields[0].key == key {
      return 0;
    }
    assert exists j :: 0 <= j < |fields[1..]| && fields[1..][j].key == key by {
      var j :| 0 <= j < |fields| && fields[j].key == key;
      assert fields[1..][j - 1].key == key;
    }
    var rest := FoundIsFirst(fields[1..], key);
    i := rest + 1;
  }

  lemma {:induction false} NotFound(fields: seq<Field>, key: string)
    requires forall j :: 0 <= j < |fields| ==> fields[j].key != key
    ensures Lookup(fields, key).None?
  {
    if fields != [] {
      NotFound(fields[1..], key);
    }
  }

  lemma TypedIff(fields: seq<Field>)
    ensures Typed(fields) <==> SaysAccount(fields)
  {
    forall i: nat, key | FirstMember(fields, key, i) ensures Lookup(fields, key) == Some(fields[i].value) {
      FirstIsFound(fields, key, i);
    }
    if exists j :: 0 <= j < |fields| && fields[j].key == "type" {
      var i := FoundIsFirst(fields, "type");
    } else {
      NotFound(fields, "type");
      if exists j :: 0 <= j < |fields| && fields[j].key == "kind" {
        var i := FoundIsFirst(fields, "kind");
      } else {
        NotFound(fields, "kind");
      }
    }
  }

  lemma FirstColonIs(app: string, id: string)
    requires ':' !in app
    ensures FirstColon(app + ":" + id) == |app|
  {
    var text := app + ":" + id;
    assert text[|app|] == ':' && forall i :: 0 <= i < |app| ==> text[i] == app[i];
  }

  lemma MemberAt(fields: seq<Field>, m: Substitution, i: nat)
    requires i < |fields|
    ensures Rewrite(Object(fields), m).Object? && |Rewrite(Object(fields), m).fields| == |fields|
    ensures Rewrite(Object(fields), m).fields[i]
         == Field(fields[i].key, RewriteMember(fields[i].value, RoleOf(fields[i].key, Typed(fields)), m))
  {}

  /** What becomes of a member that is no text: the same as by itself, whatever its key. */
  lemma OtherMembersAreRewritten(fields: seq<Field>, m: Substitution, i: nat)
    requires i < |fields| && !fields[i].value.Str?
    ensures Rewrite(Object(fields), m).Object? && |Rewrite(Object(fields), m).fields| == |fields|
    ensures Rewrite(Object(fields), m).fields[i] == Field(fields[i].key, Rewrite(fields[i].value, m))
  {
    MemberAt(fields, m, i);
  }

  /** What becomes of a text member: under an identity key, or as the `id` of what says it is an account, the
      id is replaced, and so is the part of a membership behind its first colon; every other text stays. */
  lemma TextMembersAreRewritten(fields: seq<Field>, m: Substitution, i: nat)
    requires i < |fields| && fields[i].value.Str?
    ensures Rewrite(Object(fields), m).Object? && |Rewrite(Object(fields), m).fields| == |fields|
    ensures var key, text, after := fields[i].key, fields[i].value.text, Rewrite(Object(fields), m).fields[i];
            && after.key == key && after.value.Str?
            && (key in IDENTITY_KEYS || (key == "id" && SaysAccount(fields)) ==>
                  after.value.text == if text in m then m[text] else text)
            && (key !in IDENTITY_KEYS && key != "membership_id" && !(key == "id" && SaysAccount(fields)) ==> after.value.text == text)
            && (key == "membership_id" && ':' !in text ==> after.value.text == text)
  {
    TypedIff(fields);
    MemberAt(fields, m, i);
    assert Rewrite(fields[i].value, m) == fields[i].value;
  }

  lemma MembershipIsRewritten(fields: seq<Field>, m: Substitution, i: nat, app: string, id: string)
    requires i < |fields| && fields[i] == Field("membership_id", Str(app + ":" + id)) && ':' !in app
    ensures Rewrite(Object(fields), m).Object? && |Rewrite(Object(fields), m).fields| == |fields|
    ensures Rewrite(Object(fields), m).fields[i] == Field("membership_id", Str(app + ":" + if id in m then m[id] else id))
  {
    MemberAt(fields, m, i);
    FirstColonIs(app, id);
    var text := app + ":" + id;
    assert text[..|app|] == app && text[|app| + 1..] == id && text[|app|] == ':';
  }

  /** Everything else: lists item by item, and values outside objects not at all. */
  lemma ItemsAreRewritten(v: Json, m: Substitution)
    ensures v.List? ==> Rewrite(v, m).List? && |Rewrite(v, m).items| == |v.items|
    ensures v.List? ==> forall i :: 0 <= i < |v.items| ==> Rewrite(v, m).items[i] == Rewrite(v.items[i], m)
    ensures !v.List? && !v.Object? ==> Rewrite(v, m) == v
  {}

  // ---- Places in a document --------------------------------------------------------------

  datatype Place = Place(value: Json, role: Role)

  datatype Step = Item(i: nat) | Member(i: nat)

  function Child(v: Json, step: Step): Option<Place> {
    if v.List? && step.Item? && step.i < |v.items| then
      Some(Place(v.items[step.i], Plain))
    else if v.Object? && step.Member? && step.i < |v.fields| then
      Some(Place(v.fields[step.i].value, RoleOf(v.fields[step.i].key, Typed(v.fields))))
    else
      None
  }

  function Locate(place: Place, path: seq<Step>): Option<Place>
    decreases |path|
  {
    if path == [] then Some(place)
    else
      match Child(place.value, path[0])
      case None => None
      case Some(child) => Locate(child, path[1..])
  }

  /** The account id this place names, if it names one. */
  function Named(place: Place): (id: Option<string>)
    ensures id.Some? ==> place.value.Str? && |id.value| <= |place.value.text|
    ensures id.Some? ==> place.value.text[|place.value.text| - |id.value|..] == id.value
  {
    if !place.value.Str? || place.role.Plain? then None
    else if place.role.Identity? then Some(place.value.text)
    else if FirstColon(place.value.text) < |place.value.text| then Some(place.value.text[FirstColon(place.value.text) + 1..])
    else None
  }

  /** The same place with another id in its text; what comes before the id stays. */
  function WithId(place: Place, id: string): Place
    requires Named(place).Some?
  {
    place.(value := Str(place.value.text[..|place.value.text| - |Named(place).value|] + id))
  }

  /** The document, read with the role its place gives it, names no id of `ids` anywhere. */
  ghost predicate FreeFrom(place: Place, ids: set<string>) {
    forall path :: Locate(place, path).Some? ==> var id := Named(Locate(place, path).value); id.Some? ==> id.value !in ids
  }

  ghost predicate FreeOf(v: Json, ids: set<string>) {
    FreeFrom(Place(v, Plain), ids)
  }

  /** Two values agree in everything but what is inside them. */
  predicate SameHead(a: Json, b: Json) {
    if a.List? && b.List? then |a.items| == |b.items|
    else if a.Object? && b.Object? then
      |a.fields| == |b.fields| && forall i :: 0 <= i < |a.fields| ==> a.fields[i].key == b.fields[i].key
    else a == b
  }

  /** The text of a place with the id it names replaced, independent of how the rewriter gets there. */
  function Renamed(place: Place, m: Substitution): Place {
    if place.value.Str? then
      match Named(place)
      case Some(id) => if id in m then WithId(place, m[id]) else place
      case None => place
    else
      place.(value := Rewrite(place.value, m))
  }

  // ---- The rewriter acts place by place --------------------------------------------------

  lemma MemberIsRenamed(item: Json, role: Role, m: Substitution)
    ensures Place(RewriteMember(item, role, m), role) == Renamed(Place(item, role), m)
  {
    if item.Str? && role.Membership? {
      var k := FirstColon(item.text);
      assert ':' in item.text <==> k < |item.text|;
      if k < |item.text| {
        assert item.text[..k] + ":" == item.text[..k + 1];
      }
    } else if item.Str? {
      assert item.text[..0] + Substitute(item.text, m) == Substitute(item.text, m);
    }
  }

  lemma {:induction false} LookupAfter(before: seq<Field>, after: seq<Field>, key: string, m: Substitution)
    requires |before| == |after| && forall i :: 0 <= i < |before| ==> after[i].key == before[i].key
    requires forall i :: 0 <= i < |before| && before[i].key == key ==> after[i].value == Rewrite(before[i].value, m)
    ensures Lookup(before, key).None? ==> Lookup(after, key).None?
    ensures Lookup(before, key).Some? ==> Lookup(after, key) == Some(Rewrite(Lookup(before, key).value, m))
  {
    if before != [] && before[0].key != key {
      LookupAfter(before[1..], after[1..], key, m);
    }
  }

  lemma ShortKeysArePlain(key: string, typed: bool)
    requires |key| == 4 && key[0] != 'u'
    ensures RoleOf(key, typed) == Plain
  {}

  /** Rewriting keeps the test that gives an `id` its meaning. */
  lemma TypedIsKept(fields: seq<Field>, m: Substitution)
    ensures Typed(Rewrite(Object(fields), m).fields) == Typed(fields)
  {
    var after := Rewrite(Object(fields), m).fields;
    forall i | 0 <= i < |fields| && (fields[i].key == "type" || fields[i].key == "kind")
      ensures after[i].value == Rewrite(fields[i].value, m)
    {
      ShortKeysArePlain(fields[i].key, Typed(fields));
      MemberIsRenamed(fields[i].value, Plain, m);
      RootIsRenamed(fields[i].value, m);
    }
    LookupAfter(fields, after, "type", m);
    LookupAfter(fields, after, "kind", m);
  }

  lemma ChildAfter(place: Place, step: Step, m: Substitution)
    ensures Child(place.value, step).None? ==> Child(Renamed(place, m).value, step).None?
    ensures Child(place.value, step).Some? ==>
              Child(Renamed(place, m).value, step) == Some(Renamed(Child(place.value, step).value, m))
  {
    if place.value.List? {
      if step.Item? && step.i < |place.value.items| {
        RootIsRenamed(place.value.items[step.i], m);
      }
    } else if place.value.Object? {
      TypedIsKept(place.value.fields, m);
      if step.Member? && step.i < |place.value.fields| {
        var field := place.value.fields[step.i];
        MemberIsRenamed(field.value, RoleOf(field.key, Typed(place.value.fields)), m);
      }
    }
  }

  /** Every place of the result is the renamed place of the original, in the same role. */
  lemma {:induction false} LocateAfter(place: Place, path: seq<Step>, m: Substitution)
    ensures Locate(place, path).None? ==> Locate(Renamed(place, m), path).None?
    ensures Locate(place, path).Some? ==> Locate(Renamed(place, m), path) == Some(Renamed(Locate(place, path).value, m))
    decreases |path|
  {
    if path != [] {
      ChildAfter(place, path[0], m);
      var child := Child(place.value, path[0]);
      if child.Some? {
        LocateAfter(child.value, path[1..], m);
      }
    }
  }

  lemma RootIsRenamed(v: Json, m: Substitution)
    ensures Renamed(Place(v, Plain), m) == Place(Rewrite(v, m), Plain)
  {}

  /**
   * The rewriter against the places of a document: the same places exist afterwards in the same
   * roles, keys and list lengths are kept, every named account is replaced, and nothing else is.
   */
  lemma RewritesEveryPlace(v: Json, m: Substitution, path: seq<Step>)
    ensures Locate(Place(v, Plain), path).None? <==> Locate(Place(Rewrite(v, m), Plain), path).None?
    ensures Locate(Place(v, Plain), path).Some? ==>
              var before, after := Locate(Place(v, Plain), path).value, Locate(Place(Rewrite(v, m), Plain), path).value;
              && after.role == before.role
              && (if Named(before).Some? then
                    var id := Substitute(Named(before).value, m);
                    after == WithId(before, id) && Named(after) == Some(id)
                  else
                    SameHead(before.value, after.value))
  {
    RootIsRenamed(v, m);
    LocateAfter(Place(v, Plain), path, m);
    if Locate(Place(v, Plain), path).Some? {
      NameAfter(Locate(Place(v, Plain), path).value, m);
      if Named(Locate(Place(v, Plain), path).value).None? {
        HeadAfter(Locate(Place(v, Plain), path).value, m);
      }
    }
  }

  lemma NamedAfterApp(app: string, id: string)
    requires ':' !in app
    ensures Named(Place(Str(app + ":" + id), Membership)) == Some(id)
  {
    var text := app + ":" + id;
    assert text[|app|] == ':' && forall i :: 0 <= i < |app| ==> text[i] == app[i];
    assert FirstColon(text) == |app|;
    assert text[|app| + 1..] == id;
  }

  lemma NamedWith(place: Place, id: string)
    requires Named(place).Some?
    ensures Named(WithId(place, id)) == Some(id)
  {
    var text := place.value.text;
    var prefix := text[..|text| - |Named(place).value|];
    if place.role.Membership? {
      var app := text[..FirstColon(text)];
      assert prefix == app + ":";
      NamedAfterApp(app, id);
    } else {
      assert prefix + id == id;
    }
  }

  lemma SameWith(place: Place)
    requires Named(place).Some?
    ensures WithId(place, Named(place).value) == place
  {
    var text := place.value.text;
    assert text[..|text| - |Named(place).value|] + text[|text| - |Named(place).value|..] == text;
  }

  /** Renaming a place changes the id it names and nothing else about it. */
  lemma NameAfter(place: Place, m: Substitution)
    ensures Named(place).None? ==> Named(Renamed(place, m)).None?
    ensures Named(place).Some? ==> var id := Substitute(Named(place).value, m);
                                   Renamed(place, m) == WithId(place, id) && Named(Renamed(place, m)) == Some(id)
  {
    if Named(place).Some? {
      SameWith(place);
      NamedWith(place, Substitute(Named(place).value, m));
    }
  }

  lemma HeadAfter(place: Place, m: Substitution)
    requires Named(place).Some? ==> Named(place).value !in m
    ensures SameHead(place.value, Renamed(place, m).value)
  {}

  // ---- Completeness, idempotence, undo ---------------------------------------------------

  /** No identity position of the result holds a source. */
  lemma RewriteIsComplete(v: Json, m: Substitution)
    requires Unchained(m)
    ensures FreeOf(Rewrite(v, m), m.Keys)
  {
    RootIsRenamed(v, m);
    var before, after := Place(v, Plain), Place(Rewrite(v, m), Plain);
    forall path | Locate(after, path).Some? ensures var id := Named(Locate(after, path).value); id.Some? ==> id.value !in m {
      LocateAfter(before, path, m);
      NameAfter(Locate(before, path).value, m);
    }
  }

  /** Documents that agree at every place are the same document. */
  lemma {:induction false} SameEverywhere(a: Place, b: Place)
    requires a.role == b.role
    requires forall path :: Locate(a, path).Some? ==>
                              Locate(b, path).Some? && SameHead(Locate(a, path).value.value, Locate(b, path).value.value)
    ensures a == b
    decreases a.value
  {
    assert Locate(a, []) == Some(a) && Locate(b, []) == Some(b);
    if a.value.List? {
      forall i: nat | i < |a.value.items| ensures a.value.items[i] == b.value.items[i] {
        SameBelow(a, b, Item(i));
        SameEverywhere(Child(a.value, Item(i)).value, Child(b.value, Item(i)).value);
      }
    } else if a.value.Object? {
      forall i: nat | i < |a.value.fields| ensures a.value.fields[i] == b.value.fields[i] {
        SameBelow(a, b, Member(i));
        var x, y := a.value.fields[i].value, b.value.fields[i].value;
        SameEverywhere(Place(x, Plain), Place(y, Plain));
      }
    }
  }

  lemma SameBelow(a: Place, b: Place, step: Step)
    requires forall path :: Locate(a, path).Some? ==>
                              Locate(b, path).Some? && SameHead(Locate(a, path).value.value, Locate(b, path).value.value)
    requires Child(a.value, step).Some? && Child(b.value, step).Some?
    ensures forall path :: Locate(Place(Child(a.value, step).value.value, Plain), path).Some? ==>
                             && Locate(Place(Child(b.value, step).value.value, Plain), path).Some?
                             && SameHead(Locate(Place(Child(a.value, step).value.value, Plain), path).value.value,
                                         Locate(Place(Child(b.value, step).value.value, Plain), path).value.value)
  {
    var x, y := Child(a.value, step).value, Child(b.value, step).value;
    forall path | Locate(Place(x.value, Plain), path).Some?
      ensures Locate(Place(y.value, Plain), path).Some?
      ensures SameHead(Locate(Place(x.value, Plain), path).value.value, Locate(Place(y.value, Plain), path).value.value)
    {
      assert ([step] + path)[1..] == path;
      assert Locate(a, [step] + path) == Locate(x, path);
      assert Locate(b, [step] + path) == Locate(y, path);
    }
  }

  /** A document stays as it is exactly when it names none of the sources. */
  lemma UnchangedIffFree(v: Json, m: Substitution)
    requires Unchained(m)
    ensures Rewrite(v, m) == v <==> FreeOf(v, m.Keys)
  {
    RootIsRenamed(v, m);
    var place := Place(v, Plain);
    if FreeOf(v, m.Keys) {
      forall path | Locate(place, path).Some?
        ensures Locate(Renamed(place, m), path).Some?
        ensures SameHead(Locate(place, path).value.value, Locate(Renamed(place, m), path).value.value)
      {
        LocateAfter(place, path, m);
        HeadAfter(Locate(place, path).value, m);
      }
      SameEverywhere(place, Renamed(place, m));
    }
    if Rewrite(v, m) == v {
      RewriteIsComplete(v, m);
    }
  }

  lemma RewriteIsIdempotent(v: Json, m: Substitution)
    requires Unchained(m)
    ensures Rewrite(Rewrite(v, m), m) == Rewrite(v, m)
  {
    RewriteIsComplete(v, m);
    UnchangedIffFree(Rewrite(v, m), m);
  }

  function Inverse(m: Substitution): (r: Substitution)
    requires Injective(m)
    ensures r.Keys == m.Values && forall a :: a in m ==> r[m[a]] == a
  {
    map b | b in m.Values :: SourceOf(m, b)
  }

  function SourceOf(m: Substitution, target: string): (a: string)
    requires Injective(m) && target in m.Values
    ensures a in m && m[a] == target
  {
    var a :| a in m && m[a] == target;
    a
  }

  lemma WithAgain(place: Place, first: string, second: string)
    requires Named(place).Some?
    ensures Named(WithId(place, first)).Some? && WithId(WithId(place, first), second) == WithId(place, second)
  {
    NamedWith(place, first);
    var text := place.value.text;
    var prefix := text[..|text| - |Named(place).value|];
    assert (prefix + first)[..|prefix + first| - |first|] == prefix;
  }

  lemma RestoredWhere(place: Place, m: Substitution)
    requires Injective(m) && Unchained(m)
    requires place.value.Str?
    ensures Renamed(Renamed(place, m), Inverse(m)) == place <==> Named(place).None? || Named(place).value !in m.Values
  {
    var inverse, once := Inverse(m), Renamed(place, m);
    NameAfter(place, m);
    NameAfter(once, inverse);
    if Named(place).Some? {
      var id := Named(place).value;
      var twice := Substitute(Substitute(id, m), inverse);
      assert Renamed(once, inverse) == WithId(place, twice) by {
        WithAgain(place, Substitute(id, m), twice);
      }
      SameWith(place);
      NamedWith(place, twice);
    }
  }

  /** Rewriting back with the inverse mapping restores a document exactly when it named no target before. */
  lemma UndoRestores(v: Json, m: Substitution)
    requires Injective(m) && Unchained(m)
    ensures Rewrite(Rewrite(v, m), Inverse(m)) == v <==> FreeOf(v, m.Values)
  {
    var inverse := Inverse(m);
    var place := Place(v, Plain);
    var twice := Renamed(Renamed(place, m), inverse);
    RootIsRenamed(v, m);
    RootIsRenamed(Rewrite(v, m), inverse);
    forall path | Locate(place, path).Some?
      ensures var there := Locate(place, path).value; Locate(twice, path) == Some(Renamed(Renamed(there, m), inverse))
    {
      LocateAfter(place, path, m);
      LocateAfter(Renamed(place, m), path, inverse);
    }
    if FreeOf(v, m.Values) {
      forall path | Locate(place, path).Some?
        ensures Locate(twice, path).Some? && SameHead(Locate(place, path).value.value, Locate(twice, path).value.value)
      {
        var there := Locate(place, path).value;
        if there.value.Str? {
          RestoredWhere(there, m);
        } else {
          HeadAfter(there, m);
          HeadAfter(Renamed(there, m), inverse);
        }
      }
      SameEverywhere(place, twice);
    }
    if Rewrite(Rewrite(v, m), inverse) == v {
      forall path | Locate(place, path).Some?
        ensures var id := Named(Locate(place, path).value); id.Some? ==> id.value !in m.Values
      {
        if Locate(place, path).value.value.Str? {
          RestoredWhere(Locate(place, path).value, m);
        }
      }
    }
  }
}
