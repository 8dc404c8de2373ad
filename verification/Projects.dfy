/** One project row with its members and entries, and what each operation makes of it. */
module Projects {
  import opened Wrappers
  import opened AccountLookup
  import opened ProjectMembers

  datatype Status = Completed | Blocked | Canceled | InProgress | YetToStart

  datatype EntryType = Blocker | Update | Completion

  datatype Error = NotFound | Denied | AlreadyCompleted | UnknownMember | ListedTwice | OwnerMissing

  datatype Project = Project(status: Status, owner: string, members: seq<Actor>, entries: seq<EntryType>, deleted: bool)

  /** A validated patch: its status is never `Completed`; member lists are already resolved to accounts. */
  datatype Patch = Patch(status: Option<Status>, silicons: Option<seq<Actor>>, carbons: Option<seq<Actor>>)

  /** What the caller may do, as the store's access functions answer it. */
  datatype Access = Writable | Readable | Invisible

  predicate ValidPatch(patch: Patch) {
    patch.status != Some(Completed)
  }

  /** The list of one kind as it is resolved for a new project. */
  function Members(creator: Actor, kind: ActorType, ids: seq<string>, directory: Directory): Option<seq<Actor>> {
    Resolved(creator, kind, WithCreator(creator, kind, ids), directory)
  }

  /** A new project as the service makes it from the ids a request lists. */
  ghost function NewProject(creator: Actor, silicons: seq<string>, carbons: seq<string>, directory: Directory)
    : Result<Project, Error>
  {
    match (Members(creator, Silicon, silicons, directory), Members(creator, Carbon, carbons, directory))
    case (Some(some), Some(others)) =>
      if !Distinct(some + others) then Failure(ListedTwice)
      else Success(Project(YetToStart, creator.uuid, WithMissing([], some + others), [], false))
    case _ => Failure(UnknownMember)
  }

  /** A project as it is created. */
  ghost predicate Created(project: Project) {
    && project.status.YetToStart? && project.entries == [] && !project.deleted
    && Distinct(project.members) && project.owner in Uuids(project.members)
  }

  /** Every project that is created has distinct members and its creator, as owner, among them. */
  lemma NewProjectIsConsistent(creator: Actor, silicons: seq<string>, carbons: seq<string>, directory: Directory)
    requires NewProject(creator, silicons, carbons, directory).Success?
    ensures Created(NewProject(creator, silicons, carbons, directory).value)
  {
    var some, others := Members(creator, Silicon, silicons, directory).value, Members(creator, Carbon, carbons, directory).value;
    CreatorIsResolved(creator, if creator.kind.Silicon? then silicons else carbons, directory);
    assert creator in some + others;
    WithMissingMembers([], some + others);
  }

  /** An id that a list of this kind may hold: the creator's own, or one that is found by itself. */
  predicate Known(creator: Actor, kind: ActorType, id: string, directory: Directory) {
    IsCaller(creator, kind, id) || Usable(id, kind, directory)
  }

  function AccountOf(creator: Actor, kind: ActorType, id: string, directory: Directory): string
    requires Known(creator, kind, id, directory)
  {
    if IsCaller(creator, kind, id) then creator.uuid else directory(KeyOf(id).value).value.uuid
  }

  /** The accounts behind the known ids of a list. */
  function AccountsOf(creator: Actor, kind: ActorType, ids: seq<string>, directory: Directory): set<string> {
    set id | id in ids && Known(creator, kind, id, directory) :: AccountOf(creator, kind, id, directory)
  }

  predicate AllKnown(creator: Actor, kind: ActorType, ids: seq<string>, directory: Directory) {
    forall id :: id in ids ==> Known(creator, kind, id, directory)
  }

  lemma MembersIff(creator: Actor, kind: ActorType, ids: seq<string>, directory: Directory)
    requires creator.uuid != ""
    ensures Members(creator, kind, ids, directory).Some? <==>
            AllKnown(creator, kind, ids, directory) && (creator.kind == kind ==> creator.id != "")
    ensures Members(creator, kind, ids, directory).Some? ==>
              Uuids(Members(creator, kind, ids, directory).value)
              == AccountsOf(creator, kind, ids, directory) + if creator.kind == kind then {creator.uuid} else {}
  {
    var listed := WithCreator(creator, kind, ids);
    ResolvedIff(creator, kind, listed, directory);
    assert forall id :: id in listed <==> id in ids || (creator.kind == kind && id == creator.id);
    assert creator.kind == kind ==> (IsCaller(creator, kind, creator.id) <==> creator.id != "");
    assert KeyOf("").None?;
  }

  lemma UuidsTogether(a: seq<Actor>, b: seq<Actor>)
    ensures Uuids(a + b) == Uuids(a) + Uuids(b)
  {
    assert forall m :: m in a + b <==> m in a || m in b;
  }

  /** Exactly when a project is created: the creator has a public id, every listed id is known, and no
      account is named twice. */
  lemma NewProjectIff(creator: Actor, silicons: seq<string>, carbons: seq<string>, directory: Directory)
    requires creator.uuid != ""
    ensures var r := NewProject(creator, silicons, carbons, directory);
            && (r == Failure(UnknownMember) <==>
                  creator.id == "" || !AllKnown(creator, Silicon, silicons, directory) || !AllKnown(creator, Carbon, carbons, directory))
            && (r != Failure(UnknownMember) ==>
                  var some, others := Members(creator, Silicon, silicons, directory), Members(creator, Carbon, carbons, directory);
                  && some.Some? && others.Some?
                  && (r.Success? <==> forall i, j :: 0 <= i < j < |some.value + others.value| ==>
                                        (some.value + others.value)[i].uuid != (some.value + others.value)[j].uuid)
                  && (r.Failure? ==> r.error == ListedTwice))
  {
    MembersIff(creator, Silicon, silicons, directory);
    MembersIff(creator, Carbon, carbons, directory);
  }

  /** Its members are the creator and the accounts listed, whatever ids named them. */
  lemma NewProjectMembers(creator: Actor, silicons: seq<string>, carbons: seq<string>, directory: Directory)
    requires creator.uuid != "" && NewProject(creator, silicons, carbons, directory).Success?
    ensures Uuids(NewProject(creator, silicons, carbons, directory).value.members)
         == {creator.uuid} + AccountsOf(creator, Silicon, silicons, directory) + AccountsOf(creator, Carbon, carbons, directory)
    ensures NewProject(creator, silicons, carbons, directory).value.owner == creator.uuid
  {
    MembersIff(creator, Silicon, silicons, directory);
    MembersIff(creator, Carbon, carbons, directory);
    var some, others := Members(creator, Silicon, silicons, directory).value, Members(creator, Carbon, carbons, directory).value;
    UuidsTogether(some, others);
    WithMissingMembers([], some + others);
    assert Uuids([]) == {};
    CreatorIsOneOfBoth(
      creator.uuid, creator.kind.Silicon?,
      AccountsOf(creator, Silicon, silicons, directory), AccountsOf(creator, Carbon, carbons, directory));
  }

  lemma CreatorIsOneOfBoth(creator: string, first: bool, some: set<string>, others: set<string>)
    ensures {} + ((some + if first then {creator} else {}) + (others + if first then {} else {creator})) == {creator} + some + others
  {}

  /** The full member list a patch asks for; a kind it does not name is taken from the snapshot. */
  function Listed(snapshot: Project, patch: Patch): seq<Actor> {
    (match patch.silicons case Some(listed) => listed case None => OfKind(snapshot.members, Silicon))
    + (match patch.carbons case Some(listed) => listed case None => OfKind(snapshot.members, Carbon))
  }

  /** What a patch decides from the snapshot it read without a lock. */
  ghost function Planned(snapshot: Project, patch: Patch): Result<Option<seq<Actor>>, Error> {
    if snapshot.status.Completed? && patch.status.Some? then Failure(AlreadyCompleted)
    else if patch.silicons.None? && patch.carbons.None? then Success(None)
    else if !Distinct(Listed(snapshot, patch)) then Failure(ListedTwice)
    else if snapshot.owner !in Uuids(Listed(snapshot, patch)) then Failure(OwnerMissing)
    else Success(Some(Listed(snapshot, patch)))
  }

  function Authorized(project: Project, access: Access): Option<Error> {
    if project.deleted || access.Invisible? then Some(NotFound)
    else if access.Readable? then Some(Denied)
    else None
  }

  /** The patch applied to the locked row, which is checked again. */
  function Patched(project: Project, access: Access, patch: Patch, plan: Option<seq<Actor>>): Result<Project, Error> {
    match Authorized(project, access)
    case Some(error) => Failure(error)
    case None =>
      if project.status.Completed? && patch.status.Some? then Failure(AlreadyCompleted)
      else if plan.Some? && project.owner !in Uuids(plan.value) then Failure(OwnerMissing)
      else
        Success(project.(
          status := if patch.status.Some? then patch.status.value else project.status,
          members := if plan.Some? then Replaced(project.members, plan.value) else project.members))
  }

  function Entered(project: Project, access: Access, entry: EntryType): Result<Project, Error> {
    match Authorized(project, access)
    case Some(error) => Failure(error)
    case None =>
      if entry.Completion? && (project.status.Completed? || Completion in project.entries) then Failure(AlreadyCompleted)
      else
        Success(project.(
          entries := project.entries + [entry],
          status := if entry.Completion? then Completed else project.status))
  }

  /** Assigning a task shares the project with the assignee. */
  function Shared(project: Project, access: Access, assignee: Actor): Result<Project, Error> {
    match Authorized(project, access)
    case Some(error) => Failure(error)
    case None => Success(project.(members := Added(project.members, assignee)))
  }

  /** The first other member whose account is active takes a project over. */
  function Successor(members: seq<Actor>, leaving: string, active: set<string>): Option<string> {
    if members == [] then None
    else if members[0].uuid != leaving && members[0].uuid in active then Some(members[0].uuid)
    else Successor(members[1..], leaving, active)
  }

  /** An account is deleted: what it owned passes on or is deleted, and its memberships of live projects end. */
  function Left(project: Project, leaving: string, active: set<string>): Project {
    if project.deleted then project
    else if project.owner != leaving then
      project.(members := Retained(project.members, Uuids(project.members) - {leaving}))
    else
      match Successor(project.members, leaving, active)
      case None => project.(deleted := true)
      case Some(successor) =>
        project.(owner := successor, members := Retained(project.members, Uuids(project.members) - {leaving}))
  }

  /** A patch that names one kind of members, with nothing in between, leaves the other kind as it was. */
  lemma UnnamedKindIsKept(project: Project, access: Access, patch: Patch, kind: ActorType)
    requires Distinct(project.members) && Planned(project, patch).Success?
    requires Patched(project, access, patch, Planned(project, patch).value).Success?
    requires if kind.Silicon? then patch.silicons.None? && patch.carbons.Some? else patch.carbons.None? && patch.silicons.Some?
    requires patch.silicons.Some? ==> forall m :: m in patch.silicons.value ==> m.kind.Silicon?
    requires patch.carbons.Some? ==> forall m :: m in patch.carbons.value ==> m.kind.Carbon?
    ensures var after := Patched(project, access, patch, Planned(project, patch).value).value;
            forall m: Actor :: m.kind == kind ==> (m in after.members <==> m in project.members)
  {
    OfKindMembers(project.members, kind);
    ReplacedKeepsKind(project.members, Listed(project, patch), kind);
  }

  /** Who gets through: nobody to a deleted project, and nobody but who may write. A project that cannot be
      seen looks deleted, one that can only be read is denied. */
  lemma OnlyWritersGetThrough(project: Project, access: Access, patch: Patch, plan: Option<seq<Actor>>, entry: EntryType, assignee: Actor)
    ensures project.deleted || access != Writable ==>
              Patched(project, access, patch, plan).Failure? && Entered(project, access, entry).Failure?
              && Shared(project, access, assignee).Failure?
    ensures project.deleted || access == Invisible <==> Patched(project, access, patch, plan) == Failure(NotFound)
    ensures project.deleted || access == Invisible <==> Entered(project, access, entry) == Failure(NotFound)
    ensures project.deleted || access == Invisible <==> Shared(project, access, assignee) == Failure(NotFound)
    ensures !project.deleted && access == Readable <==> Patched(project, access, patch, plan) == Failure(Denied)
    ensures !project.deleted && access == Readable <==> Entered(project, access, entry) == Failure(Denied)
    ensures !project.deleted && access == Readable <==> Shared(project, access, assignee) == Failure(Denied)
  {}

  /** The accounts a patch leaves as members: of a kind it names, the listed ones; of the other, those there are. */
  function Wanted(project: Project, patch: Patch): set<string> {
    (if patch.silicons.Some? then Uuids(patch.silicons.value) else set m | m in project.members && m.kind.Silicon? :: m.uuid)
    + if patch.carbons.Some? then Uuids(patch.carbons.value) else set m | m in project.members && m.kind.Carbon? :: m.uuid
  }

  lemma ListedIsWanted(project: Project, patch: Patch)
    requires Distinct(project.members)
    ensures Uuids(Listed(project, patch)) == Wanted(project, patch)
  {
    OfKindMembers(project.members, Silicon);
    OfKindMembers(project.members, Carbon);
  }

  /** A patch's plan is refused exactly if it names a status for a completed project, or members with an
      account twice or without the owner. */
  lemma PlannedIff(project: Project, patch: Patch)
    requires Distinct(project.members)
    ensures var names := patch.silicons.Some? || patch.carbons.Some?;
            && (Planned(project, patch).Success? <==>
                  && !(project.status == Completed && patch.status.Some?)
                  && (names ==> Distinct(Listed(project, patch)) && project.owner in Wanted(project, patch)))
            && (Planned(project, patch).Success? && names ==>
                  Planned(project, patch).value.Some? && Uuids(Planned(project, patch).value.value) == Wanted(project, patch))
            && (Planned(project, patch).Success? && !names ==> Planned(project, patch).value.None?)
  {
    ListedIsWanted(project, patch);
  }

  /** A patch with nothing in between, from the request to the row: a planned one is let through, its status
      takes effect, its members are those it wants, and nothing else changes. */
  lemma PatchTakesEffect(project: Project, patch: Patch)
    requires Distinct(project.members) && project.owner in Uuids(project.members) && !project.deleted
    requires Planned(project, patch).Success?
    ensures var names, r := patch.silicons.Some? || patch.carbons.Some?, Patched(project, Writable, patch, Planned(project, patch).value);
            && r.Success?
            && r.value.status == (if patch.status.Some? then patch.status.value else project.status)
            && (names ==> Uuids(r.value.members) == Wanted(project, patch) && Distinct(r.value.members))
            && (!names ==> r.value.members == project.members)
            && r.value.owner == project.owner && r.value.entries == project.entries && !r.value.deleted
  {
    PlannedIff(project, patch);
    if patch.silicons.Some? || patch.carbons.Some? {
      ReplacedIsTheList(project.members, Planned(project, patch).value.value);
    }
  }

  /** What an entry does: it is refused only to a second completion, it is the last entry then, and a
      completion, and nothing else, completes the project. */
  lemma EntryTakesEffect(project: Project, entry: EntryType)
    requires !project.deleted
    ensures var r := Entered(project, Writable, entry);
            && (r.Failure? <==> entry == Completion && (project.status == Completed || Completion in project.entries))
            && (r.Failure? ==> r.error == AlreadyCompleted)
            && (r.Success? ==>
                  && |r.value.entries| == |project.entries| + 1 && r.value.entries[..|project.entries|] == project.entries
                  && r.value.entries[|project.entries|] == entry
                  && (r.value.status == Completed <==> entry == Completion || project.status == Completed)
                  && (entry != Completion ==> r.value.status == project.status)
                  && r.value.members == project.members && r.value.owner == project.owner && !r.value.deleted)
  {}

  /** Assigning a task makes the assignee a member and changes nothing else. */
  lemma AssigneeIsAMember(project: Project, assignee: Actor)
    requires !project.deleted
    ensures var r := Shared(project, Writable, assignee);
            && r.Success? && Uuids(r.value.members) == Uuids(project.members) + {assignee.uuid}
            && project.members <= r.value.members && r.value == project.(members := r.value.members)
  {
    UuidsWith(project.members, assignee);
  }

  /** After an account is deleted it is neither the owner nor a member of a project that lives on; others stay.
      The project goes to another active member, and is deleted exactly when it was the account's and there is
      none. */
  lemma DeletedAccountIsGone(project: Project, leaving: string, active: set<string>)
    requires Distinct(project.members) && !project.deleted
    ensures var after := Left(project, leaving, active);
            && (after.deleted <==> project.owner == leaving && Uuids(project.members) * active <= {leaving})
            && (!after.deleted ==>
                  && Uuids(after.members) == Uuids(project.members) - {leaving} && after.owner != leaving
                  && (project.owner != leaving ==> after.owner == project.owner)
                  && (project.owner == leaving ==> after.owner in Uuids(project.members) * active))
            && after.status == project.status && after.entries == project.entries
  {
    RetainedMembers(project.members, Uuids(project.members) - {leaving});
    SuccessorIsAMember(project.members, leaving, active);
  }

  lemma {:induction false} SuccessorIsAMember(members: seq<Actor>, leaving: string, active: set<string>)
    ensures var successor := Successor(members, leaving, active);
            if successor.Some? then successor.value in (Uuids(members) - {leaving}) * active
            else Uuids(members) * active <= {leaving}
  {
    if members != [] {
      SuccessorIsAMember(members[1..], leaving, active);
      assert members == [members[0]] + members[1..];
    }
  }

  /** The unlocked half of a patch, in the order the service checks it. */
  method Plan(snapshot: Project, patch: Patch) returns (r: Result<Option<seq<Actor>>, Error>)
    ensures r == Planned(snapshot, patch)
  {
    if snapshot.status.Completed? && patch.status.Some? {
      return Failure(AlreadyCompleted);
    }
    if patch.silicons.None? && patch.carbons.None? {
      return Success(None);
    }
    var members := Listed(snapshot, patch);
    var unique := EnsureUniqueMembers(members);
    if !unique {
      return Failure(ListedTwice);
    }
    for i := 0 to |members|
      invariant forall j :: 0 <= j < i ==> members[j].uuid != snapshot.owner
    {
      if members[i].uuid == snapshot.owner {
        return Success(Some(members));
      }
    }
    return Failure(OwnerMissing);
  }

  class ProjectRow {
    var status: Status
    var owner: string
    var members: seq<Actor>
    var entries: seq<EntryType>
    var deleted: bool

    function Value(): Project
      reads this
    {
      Project(status, owner, members, entries, deleted)
    }

    method AddMember(member: Actor)
      modifies this`members
      ensures members == Added(old(members), member)
    {
      if member.uuid !in Uuids(members) {
        members := members + [member];
      }
    }

    method InsertMissingMembers(listed: seq<Actor>)
      modifies this`members
      ensures members == WithMissing(old(members), listed)
    {
      for i := 0 to |listed|
        invariant members == WithMissing(old(members), listed[..i])
      {
        assert listed[..i + 1][..i] == listed[..i];
        AddMember(listed[i]);
      }
      assert listed[..|listed|] == listed;
    }

    method EndMemberships(kept: set<string>)
      modifies this`members
      ensures members == Retained(old(members), kept)
    {
      var rows := members;
      members := [];
      for i := 0 to |rows|
        invariant members == Retained(rows[..i], kept)
      {
        assert rows[..i + 1][..i] == rows[..i];
        if rows[i].uuid in kept {
          members := members + [rows[i]];
        }
      }
      assert rows[..|rows|] == rows;
    }

    /** The locked half of a patch; a refusal writes nothing. */
    method ApplyPatch(access: Access, patch: Patch, plan: Option<seq<Actor>>) returns (error: Option<Error>)
      modifies this`status, this`members
      ensures match Patched(old(Value()), access, patch, plan)
              case Failure(refusal) => error == Some(refusal) && Value() == old(Value())
              case Success(after) => error == None && Value() == after
    {
      error := Authorized(Value(), access);
      if error.Some? {
        return;
      }
      if status.Completed? && patch.status.Some? {
        return Some(AlreadyCompleted);
      }
      if plan.Some? && owner !in Uuids(plan.value) {
        return Some(OwnerMissing);
      }
      if patch.status.Some? {
        status := patch.status.value;
      }
      if plan.Some? {
        EndMemberships(Uuids(plan.value));
        InsertMissingMembers(plan.value);
      }
      return None;
    }

    method CreateEntry(access: Access, entry: EntryType) returns (error: Option<Error>)
      modifies this`status, this`entries
      ensures match Entered(old(Value()), access, entry)
              case Failure(refusal) => error == Some(refusal) && Value() == old(Value())
              case Success(after) => error == None && Value() == after
    {
      error := Authorized(Value(), access);
      if error.Some? {
        return;
      }
      if entry.Completion? && (status.Completed? || Completion in entries) {
        return Some(AlreadyCompleted);
      }
      entries := entries + [entry];
      if entry.Completion? {
        status := Completed;
      }
      return None;
    }
  }
}
