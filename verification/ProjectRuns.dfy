/** Patches that read first and lock later, completions, assignments and account deletions in any order. */
module ProjectRuns {
  import opened Wrappers
  import opened AccountLookup
  import opened ProjectMembers
  import opened Projects

  datatype Pending = Pending(patch: Patch, plan: Option<seq<Actor>>)

  datatype State = State(project: Project, pending: map<nat, Pending>)

  datatype Event =
    | ReadSnapshot(p: nat, patch: Patch)
    | CommitPatch(p: nat, access: Access)
    | DropPatch(p: nat)
    | Enter(entry: EntryType, access: Access)
    | Assign(assignee: Actor, access: Access)
    | DeleteAccount(leaving: string, active: set<string>)

  ghost predicate Enabled(s: State, e: Event) {
    match e
    case ReadSnapshot(p, patch) => p !in s.pending && ValidPatch(patch) && !s.project.deleted
    case CommitPatch(p, _) => p in s.pending
    case DropPatch(p) => p in s.pending
    case _ => true
  }

  function Stored(project: Project, r: Result<Project, Error>): Project {
    if r.Success? then r.value else project
  }

  ghost function Next(s: State, e: Event): State
    requires Enabled(s, e)
  {
    match e
    case ReadSnapshot(p, patch) =>
      var plan := Planned(s.project, patch);
      if plan.Success? then s.(pending := s.pending[p := Pending(patch, plan.value)]) else s
    case CommitPatch(p, access) =>
      State(Stored(s.project, Patched(s.project, access, s.pending[p].patch, s.pending[p].plan)), s.pending - {p})
    case DropPatch(p) => s.(pending := s.pending - {p})
    case Enter(entry, access) => s.(project := Stored(s.project, Entered(s.project, access, entry)))
    case Assign(assignee, access) => s.(project := Stored(s.project, Shared(s.project, access, assignee)))
    case DeleteAccount(leaving, active) => s.(project := Left(s.project, leaving, active))
  }

  ghost predicate Legal(s: State, events: seq<Event>)
    decreases |events|
  {
    events == [] || (Enabled(s, events[0]) && Legal(Next(s, events[0]), events[1..]))
  }

  ghost function Exec(s: State, events: seq<Event>): State
    requires Legal(s, events)
    decreases |events|
  {
    if events == [] then s else Exec(Next(s, events[0]), events[1..])
  }

  ghost predicate Reachable(s: State) {
    exists s0: State, events :: Created(s0.project) && s0.pending == map[] && Legal(s0, events) && Exec(s0, events) == s
  }

  // ---- The invariant ---------------------------------------------------------------------

  ghost predicate OneCompletion(entries: seq<EntryType>) {
    forall i, j :: 0 <= i < j < |entries| ==> !(entries[i].Completion? && entries[j].Completion?)
  }

  ghost predicate ProjectInv(project: Project) {
    && (project.status.Completed? <==> Completion in project.entries)
    && OneCompletion(project.entries)
    && Distinct(project.members)
    && project.owner in Uuids(project.members)
  }

  ghost predicate Inv(s: State) {
    ProjectInv(s.project) && forall p :: p in s.pending ==> ValidPatch(s.pending[p].patch)
  }

  lemma PatchKeeps(project: Project, access: Access, patch: Patch, plan: Option<seq<Actor>>)
    requires ProjectInv(project) && ValidPatch(patch)
    ensures ProjectInv(Stored(project, Patched(project, access, patch, plan)))
  {
    if plan.Some? {
      ReplacedIsTheList(project.members, plan.value);
    }
  }

  lemma EntryKeeps(project: Project, access: Access, entry: EntryType)
    requires ProjectInv(project)
    ensures ProjectInv(Stored(project, Entered(project, access, entry)))
  {}

  lemma SharedKeeps(project: Project, access: Access, assignee: Actor)
    requires ProjectInv(project)
    ensures ProjectInv(Stored(project, Shared(project, access, assignee)))
  {
    DistinctWith(project.members, assignee);
    UuidsWith(project.members, assignee);
  }

  lemma LeftKeeps(project: Project, leaving: string, active: set<string>)
    requires ProjectInv(project)
    ensures ProjectInv(Left(project, leaving, active))
  {
    RetainedMembers(project.members, Uuids(project.members) - {leaving});
    SuccessorIsAMember(project.members, leaving, active);
    var after := Left(project, leaving, active);
    if !project.deleted && !after.deleted {
      var owner :| owner in project.members && owner.uuid == after.owner;
      assert owner in after.members;
    }
  }

  lemma StepKeeps(s: State, e: Event)
    requires Inv(s) && Enabled(s, e)
    ensures Inv(Next(s, e))
  {
    match e
    case CommitPatch(p, access) => PatchKeeps(s.project, access, s.pending[p].patch, s.pending[p].plan);
    case Enter(entry, access) => EntryKeeps(s.project, access, entry);
    case Assign(assignee, access) => SharedKeeps(s.project, access, assignee);
    case DeleteAccount(leaving, active) => LeftKeeps(s.project, leaving, active);
    case ReadSnapshot(_, _) =>
    case DropPatch(_) =>
  }

  lemma {:induction false} RunKeeps(s: State, events: seq<Event>)
    requires Inv(s) && Legal(s, events)
    ensures Inv(Exec(s, events))
    decreases |events|
  {
    if events != [] {
      StepKeeps(s, events[0]);
      RunKeeps(Next(s, events[0]), events[1..]);
    }
  }

  // ---- The guarantees --------------------------------------------------------------------

  /** In every reachable state: the status is `Completed` exactly when a completion entry exists, there
      is at most one, no account is a member twice, and the owner is a member. */
  lemma ProjectsStayConsistent(s: State)
    requires Reachable(s)
    ensures ProjectInv(s.project)
  {
    var s0: State, events :| Created(s0.project) && s0.pending == map[] && Legal(s0, events) && Exec(s0, events) == s;
    RunKeeps(s0, events);
  }

  lemma CompletedStep(s: State, e: Event)
    requires Inv(s) && Enabled(s, e) && s.project.status.Completed?
    ensures Next(s, e).project.status.Completed?
    ensures Next(s, e).project.entries == s.project.entries
            || exists entry: EntryType :: !entry.Completion? && Next(s, e).project.entries == s.project.entries + [entry]
  {}

  /** No patch, however old its snapshot, and nothing else brings a completed project back or completes it again. */
  lemma {:induction false} CompletedIsAbsorbing(s: State, events: seq<Event>)
    requires Reachable(s) && s.project.status.Completed? && Legal(s, events)
    ensures Exec(s, events).project.status.Completed?
    ensures forall i :: |s.project.entries| <= i < |Exec(s, events).project.entries| ==> !Exec(s, events).project.entries[i].Completion?
    ensures s.project.entries <= Exec(s, events).project.entries
  {
    var s0: State, before :| Created(s0.project) && s0.pending == map[] && Legal(s0, before) && Exec(s0, before) == s;
    RunKeeps(s0, before);
    CompletedRun(s, events);
  }

  lemma {:induction false} CompletedRun(s: State, events: seq<Event>)
    requires Inv(s) && s.project.status.Completed? && Legal(s, events)
    ensures Exec(s, events).project.status.Completed?
    ensures forall i :: |s.project.entries| <= i < |Exec(s, events).project.entries| ==> !Exec(s, events).project.entries[i].Completion?
    ensures s.project.entries <= Exec(s, events).project.entries
    decreases |events|
  {
    if events != [] {
      StepKeeps(s, events[0]);
      CompletedStep(s, events[0]);
      CompletedRun(Next(s, events[0]), events[1..]);
    }
  }

  /** A patch that commits leaves exactly the accounts it planned, or the members alone if it named none. */
  lemma CommittedPatchIsExact(s: State, p: nat, access: Access)
    requires Reachable(s) && p in s.pending
    requires Patched(s.project, access, s.pending[p].patch, s.pending[p].plan).Success?
    ensures var after, plan := Next(s, CommitPatch(p, access)).project, s.pending[p].plan;
            && (plan.None? ==> after.members == s.project.members)
            && (plan.Some? ==> Uuids(after.members) == Uuids(plan.value))
            && after.owner == s.project.owner && after.entries == s.project.entries
  {
    ProjectsStayConsistent(s);
    if s.pending[p].plan.Some? {
      ReplacedIsTheList(s.project.members, s.pending[p].plan.value);
    }
  }
}
