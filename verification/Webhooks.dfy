/** Deliveries of account events, deduplicated by event id: one after the other, and overlapping. */
module Webhooks {
  import opened Wrappers
  import opened AccountEvents

  datatype Delivery = Delivery(id: string, event: AccountEvent, occurredAt: Option<int>, hash: string)

  datatype State = State(directory: Directory, recorded: map<string, string>)

  /** One attempt: when it runs, by the service's and the database's clock, and whether it is rolled back. */
  datatype Attempt = Attempt(delivery: Delivery, now: int, clock: int, fails: bool)

  datatype Outcome = Applied | Duplicate | RolledBack

  function EffectOf(d: Directory, a: Attempt): Directory {
    Effect(d, a.delivery.event, OrElse(a.delivery.occurredAt, a.now), a.clock)
  }

  /** Effect and record become visible together or not at all. */
  function Committed(s: State, a: Attempt): State {
    State(EffectOf(s.directory, a), s.recorded[a.delivery.id := a.delivery.hash])
  }

  function Delivered(s: State, a: Attempt): (State, Outcome) {
    if a.fails then (s, RolledBack)
    else if a.delivery.id in s.recorded then (s, Duplicate)
    else (Committed(s, a), Applied)
  }

  class WebhookStore {
    var directory: Directory
    var recorded: map<string, string>

    function Value(): State
      reads this
    {
      State(directory, recorded)
    }

    /** One delivery that no other delivery overlaps. */
    method ApplyWebhook(a: Attempt) returns (outcome: Outcome)
      modifies this
      ensures (Value(), outcome) == Delivered(old(Value()), a)
    {
      var before := Value();
      if a.delivery.id in recorded {
        return if a.fails then RolledBack else Duplicate;
      }
      var at := OrElse(a.delivery.occurredAt, a.now);
      if Identities(a.delivery.event) !! directory.retired {
        directory := Apply(directory, a.delivery.event, at, a.clock);
      }
      if a.delivery.id !in recorded {
        recorded := recorded[a.delivery.id := a.delivery.hash];
      }
      if a.fails {
        directory, recorded := before.directory, before.recorded;
        return RolledBack;
      }
      return Applied;
    }
  }

  // ---- One after the other ---------------------------------------------------------------

  function DeliveredAll(s: State, attempts: seq<Attempt>): State
    decreases |attempts|
  {
    if attempts == [] then s
    else Delivered(DeliveredAll(s, attempts[..|attempts| - 1]), attempts[|attempts| - 1]).0
  }

  /** The first success of an id nobody had recorded before. */
  predicate IsFirst(known: set<string>, attempts: seq<Attempt>, i: nat)
    requires i < |attempts|
  {
    && !attempts[i].fails && attempts[i].delivery.id !in known
    && forall j :: 0 <= j < i && attempts[j].delivery.id == attempts[i].delivery.id ==> attempts[j].fails
  }

  function Firsts(known: set<string>, attempts: seq<Attempt>): seq<Attempt>
    decreases |attempts|
  {
    if attempts == [] then []
    else
      var n := |attempts| - 1;
      Firsts(known, attempts[..n]) + if IsFirst(known, attempts, n) then [attempts[n]] else []
  }

  /** What the attempts that count do when they run alone, with no deduplication at all. */
  function AppliedAll(s: State, attempts: seq<Attempt>): State
    decreases |attempts|
  {
    if attempts == [] then s else Committed(AppliedAll(s, attempts[..|attempts| - 1]), attempts[|attempts| - 1])
  }

  function Succeeded(attempts: seq<Attempt>): set<string> {
    set a | a in attempts && !a.fails :: a.delivery.id
  }

  /** An id is recorded exactly when its effect is committed. */
  lemma {:induction false} RecordedIffSucceeded(s: State, attempts: seq<Attempt>)
    ensures DeliveredAll(s, attempts).recorded.Keys == s.recorded.Keys + Succeeded(attempts)
    decreases |attempts|
  {
    if attempts != [] {
      var n := |attempts| - 1;
      RecordedIffSucceeded(s, attempts[..n]);
      assert attempts == attempts[..n] + [attempts[n]];
      assert Succeeded(attempts) == Succeeded(attempts[..n]) + if attempts[n].fails then {} else {attempts[n].delivery.id};
    }
  }

  lemma FirstIffUnknown(known: set<string>, attempts: seq<Attempt>)
    requires attempts != []
    ensures var n := |attempts| - 1;
            IsFirst(known, attempts, n) <==>
            !attempts[n].fails && attempts[n].delivery.id !in known + Succeeded(attempts[..n])
  {
    var n := |attempts| - 1;
    assert forall j :: 0 <= j < n ==> attempts[..n][j] == attempts[j];
    forall j | 0 <= j < n && !attempts[j].fails ensures attempts[j].delivery.id in Succeeded(attempts[..n]) {
      assert attempts[..n][j] in attempts[..n];
    }
  }

  lemma FrontOfMore(firsts: seq<Attempt>, last: Attempt)
    ensures (firsts + [last])[..|firsts|] == firsts && firsts + [] == firsts
  {}

  lemma AppliedWith(s: State, firsts: seq<Attempt>, last: Attempt)
    ensures AppliedAll(s, firsts + [last]) == Committed(AppliedAll(s, firsts), last)
  {
    FrontOfMore(firsts, last);
  }

  /** Repeats, repeats with another body and failed attempts leave no trace: the state is that of the
      first successes alone, in their order. */
  lemma {:induction false} OnlyFirstsCount(s: State, attempts: seq<Attempt>)
    ensures DeliveredAll(s, attempts) == AppliedAll(s, Firsts(s.recorded.Keys, attempts))
    decreases |attempts|
  {
    if attempts != [] {
      var front, last := attempts[..|attempts| - 1], attempts[|attempts| - 1];
      var firsts := Firsts(s.recorded.Keys, front);
      OnlyFirstsCount(s, front);
      RecordedIffSucceeded(s, front);
      FirstIffUnknown(s.recorded.Keys, attempts);
      AppliedWith(s, firsts, last);
      FrontOfMore(firsts, last);
      assert DeliveredAll(s, attempts) == Delivered(AppliedAll(s, firsts), last).0;
    }
  }

  /** No id counts twice. */
  lemma {:induction false} FirstsAreDistinct(known: set<string>, attempts: seq<Attempt>)
    ensures forall a :: a in Firsts(known, attempts) ==> a in attempts && !a.fails && a.delivery.id !in known
    ensures forall i, j :: 0 <= i < j < |Firsts(known, attempts)| ==>
                             Firsts(known, attempts)[i].delivery.id != Firsts(known, attempts)[j].delivery.id
    decreases |attempts|
  {
    if attempts != [] {
      var n := |attempts| - 1;
      FirstsAreDistinct(known, attempts[..n]);
      var firsts := Firsts(known, attempts[..n]);
      forall i | 0 <= i < |firsts| && IsFirst(known, attempts, n) ensures firsts[i].delivery.id != attempts[n].delivery.id {
        assert firsts[i] in attempts[..n];
        var j :| 0 <= j < n && attempts[j] == firsts[i];
      }
    }
  }

  function Effecting(): (Directory, Attempt) -> Directory {
    (d: Directory, a: Attempt) => EffectOf(d, a)
  }

  lemma {:induction false} AppliedAllFolds(s: State, attempts: seq<Attempt>)
    ensures AppliedAll(s, attempts).directory == Fold(Effecting(), s.directory, attempts)
    decreases |attempts|
  {
    if attempts != [] {
      AppliedAllFolds(s, attempts[..|attempts| - 1]);
    }
  }

  /** Over any sequence of deliveries no cutoff, version or time goes back and no deleted account revives. */
  lemma {:induction false} DeliveriesMoveForward(s: State, attempts: seq<Attempt>)
    ensures OnlyForward(s.directory, DeliveredAll(s, attempts).directory, true)
    decreases |attempts|
  {
    if attempts == [] {
      EventMovesForward(s.directory, Ping, 0, 0);
    } else {
      var front, last := attempts[..|attempts| - 1], attempts[|attempts| - 1];
      var before := DeliveredAll(s, front).directory;
      DeliveriesMoveForward(s, front);
      EventMovesForward(before, Ping, 0, 0);
      EventMovesForward(before, last.delivery.event, OrElse(last.delivery.occurredAt, last.now), last.clock);
      ForwardTwice(s.directory, before, DeliveredAll(s, attempts).directory, true);
    }
  }

  lemma {:induction false} FirstIsKept(known: set<string>, attempts: seq<Attempt>, k: nat)
    requires k < |attempts| && IsFirst(known, attempts, k)
    ensures attempts[k] in Firsts(known, attempts)
    decreases |attempts|
  {
    var n := |attempts| - 1;
    if k < n {
      assert attempts[..n][k] == attempts[k];
      FirstIsKept(known, attempts[..n], k);
    }
  }

  predicate Updates(a: Attempt, uuid: string) {
    a.delivery.event.Updated? && a.delivery.event.uuid == uuid
  }

  function TimeOf(a: Attempt): int {
    if a.delivery.occurredAt.Some? then a.delivery.occurredAt.value else a.now
  }

  /** An earlier version, from a time no later. */
  predicate Older(a: Attempt, b: Attempt) {
    && a.delivery.event.Updated? && b.delivery.event.Updated?
    && a.delivery.event.version < b.delivery.event.version && TimeOf(a) <= TimeOf(b)
  }

  /** What may be delivered beside the newest update: older ones, and events that do not concern updates. */
  predicate Beside(a: Attempt, n: Attempt, uuid: string, known: bool) {
    (Updates(a, uuid) && Older(a, n)) || Independent(a.delivery.event, uuid, known)
  }

  lemma OlderDeliveryIsIrrelevant(e: Directory, a: Attempt, n: Attempt, uuid: string)
    requires Updates(a, uuid) && Updates(n, uuid) && (a == n || Older(a, n)) && Identities(n.delivery.event) !! e.retired
    requires uuid in e.accounts ==> IsFull(n.delivery.event.profile, e.accounts[uuid])
    ensures EffectOf(EffectOf(e, a), n) == EffectOf(e, n) == EffectOf(EffectOf(e, n), a)
  {
    var older, newer := a.delivery.event, n.delivery.event;
    if a != n && Identities(older) !! e.retired {
      OlderUpdateIsIrrelevant(e, uuid, older.profile, older.version, TimeOf(a), newer.profile, newer.version, TimeOf(n));
    }
  }

  /** What the deliveries leave of the directory for the newest update to count. */
  predicate Ready(e: Directory, d: Directory, n: Attempt, uuid: string)
    requires n.delivery.event.Updated?
  {
    && e.retired == d.retired && (uuid in e.accounts <==> uuid in d.accounts)
    && (uuid in e.accounts ==> IsFull(n.delivery.event.profile, e.accounts[uuid]))
  }

  lemma StaysReady(e: Directory, d: Directory, a: Attempt, n: Attempt, uuid: string)
    requires n.delivery.event.Updated? && Ready(e, d, n, uuid)
    requires Updates(a, uuid) || Independent(a.delivery.event, uuid, uuid in d.accounts)
    ensures Ready(EffectOf(e, a), d, n, uuid)
  {
    if !Updates(a, uuid) {
      IndependentKeepsKind(e, a.delivery.event, TimeOf(a), a.clock, uuid);
    }
  }

  /** Deliveries of any events, in any order, with repeats and failures, of which those that update one
      account are older than the newest, full one: the result is what the other deliveries alone make of
      the directory and then the newest update. */
  lemma NewestDeliveryWins(s: State, attempts: seq<Attempt>, k: nat, uuid: string)
    requires k < |attempts| && IsFirst(s.recorded.Keys, attempts, k) && Updates(attempts[k], uuid)
    requires Identities(attempts[k].delivery.event) !! s.directory.retired
    requires uuid in s.directory.accounts ==> IsFull(attempts[k].delivery.event.profile, s.directory.accounts[uuid])
    requires forall a :: a in attempts ==>
               a.delivery.id == attempts[k].delivery.id || Beside(a, attempts[k], uuid, uuid in s.directory.accounts)
    ensures var others := Without(Firsts(s.recorded.Keys, attempts), (a: Attempt) => Updates(a, uuid));
            DeliveredAll(s, attempts).directory == EffectOf(AppliedAll(s, others).directory, attempts[k])
    ensures (forall a :: a in attempts ==> Updates(a, uuid)) ==>
              DeliveredAll(s, attempts).directory == EffectOf(s.directory, attempts[k])
  {
    var n, firsts := attempts[k], Firsts(s.recorded.Keys, attempts);
    var mine := (a: Attempt) => Updates(a, uuid);
    OnlyFirstsCount(s, attempts);
    AppliedAllFolds(s, firsts);
    AppliedAllFolds(s, Without(firsts, mine));
    FirstsAreDistinct(s.recorded.Keys, attempts);
    FirstIsKept(s.recorded.Keys, attempts, k);
    OthersAreBeside(firsts, n, uuid, uuid in s.directory.accounts);
    NewestOfFirsts(s.directory, firsts, n, uuid);
    if forall a :: a in attempts ==> Updates(a, uuid) {
      WithoutAll(firsts, mine);
    }
  }

  lemma NewestOfFirsts(d: Directory, firsts: seq<Attempt>, n: Attempt, uuid: string)
    requires n in firsts && Updates(n, uuid) && Identities(n.delivery.event) !! d.retired
    requires uuid in d.accounts ==> IsFull(n.delivery.event.profile, d.accounts[uuid])
    requires forall a :: a in firsts && a != n ==> Beside(a, n, uuid, uuid in d.accounts)
    ensures var others := Without(firsts, (a: Attempt) => Updates(a, uuid));
            Fold(Effecting(), d, firsts) == EffectOf(Fold(Effecting(), d, others), n)
  {
    var good, mine := (e: Directory) => Ready(e, d, n, uuid), (a: Attempt) => Updates(a, uuid);
    forall e, a | good(e) && a in firsts ensures good(Effecting()(e, a)) {
      StaysReady(e, d, a, n, uuid);
    }
    forall e, a | good(e) && a in firsts && mine(a)
      ensures Effecting()(Effecting()(e, a), n) == Effecting()(e, n) == Effecting()(Effecting()(e, n), a)
    {
      OlderDeliveryIsIrrelevant(e, a, n, uuid);
    }
    forall e, a | good(e) && a in firsts && !mine(a)
      ensures Effecting()(Effecting()(e, a), n) == Effecting()(Effecting()(e, n), a)
    {
      var update := n.delivery.event;
      StaysReady(e, d, a, n, uuid);
      IndependentCommutes(e, a.delivery.event, TimeOf(a), a.clock, uuid, update.profile, update.version, TimeOf(n));
    }
    NewestWins(Effecting(), good, mine, d, firsts, n);
  }

  lemma OthersAreBeside(firsts: seq<Attempt>, n: Attempt, uuid: string, known: bool)
    requires n in firsts && forall i, j :: 0 <= i < j < |firsts| ==> firsts[i].delivery.id != firsts[j].delivery.id
    requires forall a :: a in firsts ==> a.delivery.id == n.delivery.id || Beside(a, n, uuid, known)
    ensures forall a :: a in firsts && a != n ==> Beside(a, n, uuid, known)
  {
    forall a | a in firsts && a != n ensures a.delivery.id != n.delivery.id {
      var i :| 0 <= i < |firsts| && firsts[i] == a;
      var j :| 0 <= j < |firsts| && firsts[j] == n;
    }
  }

  // ---- Overlapping -----------------------------------------------------------------------

  /** A delivery between its duplicate check and its commit. `seen` is how many had been applied at the check. */
  datatype Pending = Pending(delivery: Delivery, seen: nat)

  /** An applied delivery, with `seen` from its check. */
  datatype Entry = Entry(id: string, seen: nat)

  datatype Store = Store(state: State, pending: map<nat, Pending>, log: seq<Entry>)

  /** `Check` reads the record without a lock; `Commit` inserts it unless another commit did, and does
      not look whether it did. `Recheck` is a sign-in that gives access back. */
  datatype Event =
    | Check(p: nat, delivery: Delivery)
    | Commit(p: nat, now: int, clock: int)
    | Drop(p: nat)
    | Recheck(uuid: string, cutoff: int)

  predicate Enabled(s: Store, e: Event) {
    match e
    case Check(p, _) => p !in s.pending
    case Commit(p, _, _) => p in s.pending
    case Drop(p) => p in s.pending
    case Recheck(_, _) => true
  }

  function Next(s: Store, e: Event): Store
    requires Enabled(s, e)
  {
    match e
    case Check(p, delivery) =>
      if delivery.id in s.state.recorded then s else s.(pending := s.pending[p := Pending(delivery, |s.log|)])
    case Commit(p, now, clock) =>
      var Pending(delivery, seen) := s.pending[p];
      Store(
        State(
          EffectOf(s.state.directory, Attempt(delivery, now, clock, false)),
          if delivery.id in s.state.recorded then s.state.recorded else s.state.recorded[delivery.id := delivery.hash]),
        s.pending - {p},
        s.log + [Entry(delivery.id, seen)])
    case Drop(p) => s.(pending := s.pending - {p})
    case Recheck(uuid, cutoff) => s.(state := s.state.(directory := Restore(s.state.directory, uuid, cutoff)))
  }

  predicate Legal(s: Store, events: seq<Event>)
    decreases |events|
  {
    events == [] || (Enabled(s, events[0]) && Legal(Next(s, events[0]), events[1..]))
  }

  function Exec(s: Store, events: seq<Event>): Store
    requires Legal(s, events)
    decreases |events|
  {
    if events == [] then s else Exec(Next(s, events[0]), events[1..])
  }

  predicate Initial(s: Store) {
    s.pending == map[] && s.log == []
  }

  ghost predicate Reachable(s: Store) {
    exists s0, events :: Initial(s0) && Legal(s0, events) && Exec(s0, events) == s
  }

  /** Applied ids are recorded, and a delivery is only on its way if none of its id was applied before its check. */
  ghost predicate Inv(s: Store) {
    && (forall i :: 0 <= i < |s.log| ==> s.log[i].id in s.state.recorded && s.log[i].seen <= i)
    && (forall p :: p in s.pending ==>
                      && s.pending[p].seen <= |s.log|
                      && forall i :: 0 <= i < s.pending[p].seen ==> s.log[i].id != s.pending[p].delivery.id)
    && forall i, j :: 0 <= i < |s.log| && 0 <= j < s.log[i].seen ==> s.log[j].id != s.log[i].id
  }

  lemma {:induction false} RunKeeps(s: Store, events: seq<Event>)
    requires Inv(s) && Legal(s, events)
    ensures Inv(Exec(s, events))
    decreases |events|
  {
    if events != [] {
      RunKeeps(Next(s, events[0]), events[1..]);
    }
  }

  /** In every overlapping run, too, everything but removed access moves forward only, and removed access
      does unless a sign-in lifts it. */
  lemma {:induction false} RunsMoveForward(s: Store, events: seq<Event>, access: bool)
    requires Legal(s, events) && (access ==> forall e :: e in events ==> !e.Recheck?)
    ensures OnlyForward(s.state.directory, Exec(s, events).state.directory, access)
    decreases |events|
  {
    EventMovesForward(s.state.directory, Ping, 0, 0);
    if events != [] {
      var e, next := events[0], Next(s, events[0]);
      if e.Commit? {
        var d := s.pending[e.p].delivery;
        EventMovesForward(s.state.directory, d.event, OrElse(d.occurredAt, e.now), e.clock);
      } else if e.Recheck? {
        RestoreIsForward(s.state.directory, e.uuid, e.cutoff);
      }
      RunsMoveForward(next, events[1..], access);
      ForwardTwice(s.state.directory, next.state.directory, Exec(s, events).state.directory, access);
    }
  }

  /** An id is applied a second time only by a delivery that checked before the first was committed. */
  lemma AppliedTwiceOnlyIfOverlapping(s: Store, i: nat, j: nat)
    requires Reachable(s) && i < j < |s.log| && s.log[i].id == s.log[j].id
    ensures s.log[j].seen <= i
  {
    var s0, events :| Initial(s0) && Legal(s0, events) && Exec(s0, events) == s;
    RunKeeps(s0, events);
  }

  /** A sender that waits for the answer before it sends the same id again. */
  predicate WaitsForAnswer(s: Store, e: Event) {
    e.Check? ==> forall p :: p in s.pending ==> s.pending[p].delivery.id != e.delivery.id
  }

  predicate Serial(s: Store, events: seq<Event>)
    requires Legal(s, events)
    decreases |events|
  {
    events == [] || (WaitsForAnswer(s, events[0]) && Serial(Next(s, events[0]), events[1..]))
  }

  ghost predicate OnceInv(s: Store) {
    && (forall i :: 0 <= i < |s.log| ==> s.log[i].id in s.state.recorded)
    && (forall i, j :: 0 <= i < j < |s.log| ==> s.log[i].id != s.log[j].id)
    && (forall p, i :: p in s.pending && 0 <= i < |s.log| ==> s.log[i].id != s.pending[p].delivery.id)
    && forall p, q :: p in s.pending && q in s.pending && p != q ==> s.pending[p].delivery.id != s.pending[q].delivery.id
  }

  lemma {:induction false} SerialRun(s: Store, events: seq<Event>)
    requires OnceInv(s) && Legal(s, events) && Serial(s, events)
    ensures OnceInv(Exec(s, events))
    decreases |events|
  {
    if events != [] {
      SerialRun(Next(s, events[0]), events[1..]);
    }
  }

  /** Such a sender gets every id applied at most once, whatever fails and however ids are mixed. */
  lemma SerialDeliveriesApplyOnce(s0: Store, events: seq<Event>, i: nat, j: nat)
    requires Initial(s0) && Legal(s0, events) && Serial(s0, events) && i < j < |Exec(s0, events).log|
    ensures Exec(s0, events).log[i].id != Exec(s0, events).log[j].id
  {
    SerialRun(s0, events);
  }

  predicate DistinctIds(log: seq<Entry>) {
    forall i, j :: 0 <= i < j < |log| ==> log[i].id != log[j].id
  }

  /** From any store in which nothing overlapped yet: however a sender goes on that waits for its answers,
      no id is applied twice, if and only if it also waited before this delivery. */
  lemma OnceIffWaited(s: Store, p: nat, d: Delivery)
    requires OnceInv(s) && p !in s.pending && d.id !in s.state.recorded
    ensures (forall events :: Legal(Next(s, Check(p, d)), events) && Serial(Next(s, Check(p, d)), events) ==>
                                DistinctIds(Exec(Next(s, Check(p, d)), events).log))
            <==> WaitsForAnswer(s, Check(p, d))
  {
    var checked := Next(s, Check(p, d));
    if WaitsForAnswer(s, Check(p, d)) {
      forall events | Legal(checked, events) && Serial(checked, events) ensures DistinctIds(Exec(checked, events).log) {
        SerialRun(checked, events);
      }
    } else {
      var q :| q in s.pending && s.pending[q].delivery.id == d.id;
      var both := [Commit(p, 0, 0), Commit(q, 0, 0)];
      TwoCommits(checked, p, q);
      var log := Exec(checked, both).log;
      assert log[|s.log|].id == log[|s.log| + 1].id;
    }
  }

  /** Two deliveries of one id that have both passed the check are both applied. */
  lemma TwoCommits(s: Store, p: nat, q: nat)
    requires p != q && p in s.pending && q in s.pending && s.pending[p].delivery.id == s.pending[q].delivery.id
    ensures var both := [Commit(p, 0, 0), Commit(q, 0, 0)];
            && Legal(s, both) && Serial(s, both)
            && Exec(s, both).log == s.log + [Entry(s.pending[p].delivery.id, s.pending[p].seen),
                                             Entry(s.pending[q].delivery.id, s.pending[q].seen)]
  {
    var both := [Commit(p, 0, 0), Commit(q, 0, 0)];
    var once := Next(s, both[0]);
    assert both[1..] == [both[1]] && both[1..][1..] == [];
    assert Legal(once, both[1..]) && Serial(once, both[1..]);
    assert Exec(s, both) == Exec(once, both[1..]) == Next(once, both[1]);
  }

  /** A run of four steps in which a delivery is applied twice: both copies check, then both commit. */
  lemma OverlapAppliesTwice(s: Store, d: Delivery)
    requires Initial(s) && d.id !in s.state.recorded
    ensures var run := [Check(0, d), Check(1, d), Commit(0, 0, 0), Commit(1, 0, 0)];
            && Legal(s, run) && Exec(s, run).log == [Entry(d.id, 0), Entry(d.id, 0)]
  {
    var run := [Check(0, d), Check(1, d), Commit(0, 0, 0), Commit(1, 0, 0)];
    var one := Next(s, run[0]);
    var two := Next(one, run[1]);
    assert run[1..][1..] == [Commit(0, 0, 0), Commit(1, 0, 0)];
    TwoCommits(two, 0, 1);
    assert Legal(one, run[1..]);
    assert Exec(s, run) == Exec(one, run[1..]) == Exec(two, run[1..][1..]);
  }

  lemma Step(s: Store, e: Event, rest: seq<Event>)
    requires Enabled(s, e) && Legal(Next(s, e), rest)
    ensures Legal(s, [e] + rest) && Exec(s, [e] + rest) == Exec(Next(s, e), rest)
  {
    assert ([e] + rest)[1..] == rest;
  }

  function OverlapAround(d: Delivery, uuid: string, at: int): seq<Event> {
    [Check(0, d), Check(1, d), Commit(0, 0, 0), Recheck(uuid, at)]
  }

  lemma OverlapAroundRuns(s: Store, d: Delivery, uuid: string, at: int, last: seq<Event>) returns (four: Store)
    requires Initial(s) && d.id !in s.state.recorded
    requires last == [] || last == [Commit(1, 0, 0)]
    ensures four.state.directory == Restore(EffectOf(s.state.directory, Attempt(d, 0, 0, false)), uuid, at)
    ensures Legal(four, last) && Legal(s, OverlapAround(d, uuid, at) + last)
    ensures Exec(s, OverlapAround(d, uuid, at) + last) == Exec(four, last)
    ensures 1 in four.pending && four.pending[1].delivery == d
  {
    var one := Next(s, Check(0, d));
    var two := Next(one, Check(1, d));
    var three := Next(two, Commit(0, 0, 0));
    four := Next(three, Recheck(uuid, at));
    assert last == [] || last[1..] == [];
    Step(three, Recheck(uuid, at), last);
    Step(two, Commit(0, 0, 0), [Recheck(uuid, at)] + last);
    Step(one, Check(1, d), [Commit(0, 0, 0)] + ([Recheck(uuid, at)] + last));
    Step(s, Check(0, d), [Check(1, d)] + ([Commit(0, 0, 0)] + ([Recheck(uuid, at)] + last)));
    assert OverlapAround(d, uuid, at) + last
        == [Check(0, d)] + ([Check(1, d)] + ([Commit(0, 0, 0)] + ([Recheck(uuid, at)] + last)));
  }

  lemma BlockedAroundRestore(d: Directory, delivery: Delivery, uuid: string, at: int)
    requires delivery.event == AccessRemoved(uuid) && delivery.occurredAt == Some(at)
    requires uuid !in d.retired && uuid !in d.lifecycles
    ensures var a := Attempt(delivery, 0, 0, false);
            var restored := Restore(EffectOf(d, a), uuid, at);
            && LifecycleOf(restored, uuid).accessRemovedAt == None
            && LifecycleOf(EffectOf(restored, a), uuid).accessRemovedAt == Some(at)
  {}

  /** A run in which overlapping does harm: access that came back in between is removed again. */
  lemma OverlapCanBlockAgain(s: Store, d: Delivery, uuid: string, at: int)
    requires Initial(s) && d.id !in s.state.recorded && d.event == AccessRemoved(uuid) && d.occurredAt == Some(at)
    requires uuid !in s.state.directory.retired && uuid !in s.state.directory.lifecycles
    ensures var restored := OverlapAround(d, uuid, at);
            && Legal(s, restored) && LifecycleOf(Exec(s, restored).state.directory, uuid).accessRemovedAt == None
            && Legal(s, restored + [Commit(1, 0, 0)])
            && LifecycleOf(Exec(s, restored + [Commit(1, 0, 0)]).state.directory, uuid).accessRemovedAt == Some(at)
  {
    BlockedAroundRestore(s.state.directory, d, uuid, at);
    var four := OverlapAroundRuns(s, d, uuid, at, []);
    assert OverlapAround(d, uuid, at) + [] == OverlapAround(d, uuid, at);
    var again := OverlapAroundRuns(s, d, uuid, at, [Commit(1, 0, 0)]);
    assert Exec(again, [Commit(1, 0, 0)]) == Exec(Next(again, Commit(1, 0, 0)), []);
  }
}
