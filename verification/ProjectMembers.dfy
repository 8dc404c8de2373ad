/** The member list of a project: unique members, and how a stored list is replaced. */
module ProjectMembers {
  import opened AccountLookup

  function Uuids(members: seq<Actor>): set<string> {
    set member | member in members :: member.uuid
  }

  ghost predicate Distinct(members: seq<Actor>) {
    forall i, j :: 0 <= i < j < |members| ==> members[i].uuid != members[j].uuid
  }

  lemma UuidsWith(members: seq<Actor>, member: Actor)
    ensures Uuids(members + [member]) == Uuids(members) + {member.uuid}
  {
    assert forall m :: m in members + [member] <==> m in members || m == member;
  }

  lemma DistinctWith(members: seq<Actor>, member: Actor)
    requires Distinct(members)
    ensures Distinct(members + [member]) <==> member.uuid !in Uuids(members)
  {
    var longer := members + [member];
    if member.uuid in Uuids(members) {
      var i :| 0 <= i < |members| && members[i].uuid == member.uuid;
      assert longer[i].uuid == longer[|members|].uuid;
    } else {
      forall i | 0 <= i < |members| ensures longer[i].uuid != member.uuid {
        assert members[i] in members;
      }
    }
  }

  /** Two ids may name one account; such a list is refused. */
  method EnsureUniqueMembers(members: seq<Actor>) returns (unique: bool)
    ensures unique <==> Distinct(members)
  {
    var seen: set<string> := {};
    for i := 0 to |members|
      invariant seen == Uuids(members[..i]) && Distinct(members[..i])
    {
      assert members[..i + 1] == members[..i] + [members[i]];
      DistinctWith(members[..i], members[i]);
      UuidsWith(members[..i], members[i]);
      if members[i].uuid in seen {
        return false;
      }
      seen := seen + {members[i].uuid};
    }
    assert members[..|members|] == members;
    return true;
  }

  // ---- Replacing the stored list ---------------------------------------------------------

  /** The members that stay, in their old order. */
  function Retained(members: seq<Actor>, uuids: set<string>): seq<Actor> {
    if members == [] then []
    else
      var rest := Retained(members[..|members| - 1], uuids);
      var last := members[|members| - 1];
      if last.uuid in uuids then rest + [last] else rest
  }

  function Added(members: seq<Actor>, member: Actor): seq<Actor> {
    if member.uuid in Uuids(members) then members else members + [member]
  }

  function WithMissing(members: seq<Actor>, listed: seq<Actor>): seq<Actor> {
    if listed == [] then members else Added(WithMissing(members, listed[..|listed| - 1]), listed[|listed| - 1])
  }

  function Replaced(members: seq<Actor>, listed: seq<Actor>): seq<Actor> {
    WithMissing(Retained(members, Uuids(listed)), listed)
  }

  lemma {:induction false} RetainedMembers(members: seq<Actor>, uuids: set<string>)
    requires Distinct(members)
    ensures Distinct(Retained(members, uuids))
    ensures forall m :: m in Retained(members, uuids) <==> m in members && m.uuid in uuids
    decreases |members|
  {
    if members != [] {
      var front, last := members[..|members| - 1], members[|members| - 1];
      assert members == front + [last];
      RetainedMembers(front, uuids);
      DistinctWith(front, last);
      DistinctWith(Retained(front, uuids), last);
    }
  }

  lemma {:induction false} WithMissingMembers(members: seq<Actor>, listed: seq<Actor>)
    requires Distinct(members)
    ensures Distinct(WithMissing(members, listed))
    ensures Uuids(WithMissing(members, listed)) == Uuids(members) + Uuids(listed)
    ensures members <= WithMissing(members, listed)
    decreases |listed|
  {
    if listed != [] {
      var front, last := listed[..|listed| - 1], listed[|listed| - 1];
      assert listed == front + [last];
      WithMissingMembers(members, front);
      var before := WithMissing(members, front);
      DistinctWith(before, last);
      UuidsWith(before, last);
      UuidsWith(front, last);
    }
  }

  /** A replaced list holds exactly the accounts listed, once each; those that stay keep their place in line. */
  lemma ReplacedIsTheList(members: seq<Actor>, listed: seq<Actor>)
    requires Distinct(members)
    ensures Distinct(Replaced(members, listed))
    ensures Uuids(Replaced(members, listed)) == Uuids(listed)
    ensures Retained(members, Uuids(listed)) <= Replaced(members, listed)
  {
    RetainedMembers(members, Uuids(listed));
    WithMissingMembers(Retained(members, Uuids(listed)), listed);
    assert Uuids(Retained(members, Uuids(listed))) <= Uuids(listed);
  }

  /** What is added was listed and is nobody who was a member before. */
  lemma {:induction false} WithMissingAddsListed(members: seq<Actor>, listed: seq<Actor>)
    ensures forall m :: m in WithMissing(members, listed) ==> m in members || (m in listed && m.uuid !in Uuids(members))
    ensures members <= WithMissing(members, listed)
    decreases |listed|
  {
    if listed != [] {
      var front, last := listed[..|listed| - 1], listed[|listed| - 1];
      assert listed == front + [last];
      WithMissingAddsListed(members, front);
    }
  }

  function OfKind(members: seq<Actor>, kind: ActorType): seq<Actor> {
    if members == [] then []
    else (if members[0].kind == kind then [members[0]] else []) + OfKind(members[1..], kind)
  }

  lemma {:induction false} OfKindMembers(members: seq<Actor>, kind: ActorType)
    ensures forall m :: m in OfKind(members, kind) <==> m in members && m.kind == kind
  {
    if members != [] {
      OfKindMembers(members[1..], kind);
      assert members == [members[0]] + members[1..];
    }
  }

  /** Replacing a list by the members of one kind and anyone of the other kind leaves the first kind as it was. */
  lemma ReplacedKeepsKind(members: seq<Actor>, listed: seq<Actor>, kind: ActorType)
    requires Distinct(members)
    requires forall m :: m in listed && m.kind == kind <==> m in members && m.kind == kind
    ensures forall m: Actor :: m.kind == kind ==> (m in Replaced(members, listed) <==> m in members)
  {
    var kept := Retained(members, Uuids(listed));
    RetainedMembers(members, Uuids(listed));
    WithMissingAddsListed(kept, listed);
    forall m | m in members && m.kind == kind ensures m in Replaced(members, listed) {
      assert m in listed && m in kept;
    }
    forall m | m in Replaced(members, listed) && m.kind == kind ensures m in members {
      if m !in kept {
        assert m in listed && m in members && m.uuid in Uuids(listed);
      }
    }
  }
}
