/** What each account event does to the stored accounts and their sign-in cutoffs. */
module AccountEvents {
  import opened Wrappers

  datatype Account = Account(
    silicon: bool, publicId: string, displayName: string, custodian: Option<string>, deleted: bool,
    revokedBefore: Option<int>, version: int, refreshedAt: int)

  datatype Lifecycle = Lifecycle(revokedBefore: Option<int>, accessRemovedAt: Option<int>, deletedAt: Option<int>)

  /** `retired` holds the sources of the UUID backfill's ledger. */
  datatype Directory = Directory(accounts: map<string, Account>, lifecycles: map<string, Lifecycle>, retired: set<string>)

  datatype Profile = Profile(uuid: Option<string>, id: Option<string>, displayName: Option<string>, custodian: Option<string>)

  datatype AccountEvent =
    | IdChanged(uuid: string, newId: string)
    | Updated(uuid: string, profile: Profile, version: int)
    | Deleted(uuid: string)
    | SignedOut(uuid: string, reason: Option<string>)
    | AccessRemoved(uuid: string)
    | CustodianChanged(silicon: string, to: Option<(string, string)>)
    | Ping
    | Unknown

  const EPOCH: int := 0

  function Max(a: int, b: int): int {
    if a < b then b else a
  }

  /** SQL's `greatest`, which skips an absent value. */
  function Later(a: Option<int>, b: int): Option<int> {
    if a.Some? then Some(Max(a.value, b)) else Some(b)
  }

  function OrElse<T>(a: Option<T>, b: T): T {
    if a.Some? then a.value else b
  }

  function ChangeId(d: Directory, uuid: string, newId: string, at: int): Directory {
    if uuid in d.accounts && !d.accounts[uuid].deleted && d.accounts[uuid].refreshedAt < at then
      d.(accounts := d.accounts[uuid := d.accounts[uuid].(publicId := newId, refreshedAt := at)])
    else d
  }

  function UpdateProfile(d: Directory, uuid: string, p: Profile, version: int, at: int): Directory {
    if uuid in d.accounts && !d.accounts[uuid].deleted && d.accounts[uuid].version < version then
      var was := d.accounts[uuid];
      var current := was.refreshedAt <= at;
      d.(accounts := d.accounts[uuid := was.(
        publicId := if current then OrElse(p.id, was.publicId) else was.publicId,
        displayName := OrElse(p.displayName, was.displayName),
        custodian := if current && was.silicon && p.custodian.Some? then p.custodian else was.custodian,
        version := version,
        refreshedAt := Max(was.refreshedAt, at))])
    else d
  }

  function Remember(d: Directory, uuid: string, id: string): Directory {
    if id != "" && uuid !in d.accounts then
      d.(accounts := d.accounts[uuid := Account(false, id, "", None, false, None, 0, EPOCH)])
    else d
  }

  function ChangeCustodian(d: Directory, silicon: string, custodian: string, id: string, at: int): Directory {
    var known := Remember(d, custodian, id);
    if silicon in known.accounts && known.accounts[silicon].silicon && !known.accounts[silicon].deleted
       && known.accounts[silicon].refreshedAt < at
    then
      known.(accounts := known.accounts[silicon := known.accounts[silicon].(
        custodian := Some(custodian), refreshedAt := Max(known.accounts[silicon].refreshedAt, at))])
    else known
  }

  function LifecycleOf(d: Directory, uuid: string): Lifecycle {
    if uuid in d.lifecycles then d.lifecycles[uuid] else Lifecycle(None, None, None)
  }

  function RevokeBefore(d: Directory, uuid: string, at: int): Directory {
    var l := LifecycleOf(d, uuid);
    d.(
      lifecycles := d.lifecycles[uuid := l.(revokedBefore := Later(l.revokedBefore, at))],
      accounts :=
        if uuid in d.accounts then
          d.accounts[uuid := d.accounts[uuid].(revokedBefore := Later(d.accounts[uuid].revokedBefore, at))]
        else d.accounts)
  }

  function BlockAccess(d: Directory, uuid: string, at: int, deleted: bool): Directory {
    var revoked := RevokeBefore(d, uuid, at);
    var l := LifecycleOf(revoked, uuid);
    revoked.(lifecycles := revoked.lifecycles[uuid := l.(
      accessRemovedAt := Later(l.accessRemovedAt, at),
      deletedAt := if deleted then Later(l.deletedAt, at) else l.deletedAt)])
  }

  /** The account's own row, whose custodian a trigger clears; what else a deletion removes is not part of this model. */
  function Forget(d: Directory, uuid: string, at: int, clock: int): Directory {
    if uuid in d.accounts then
      var was := d.accounts[uuid];
      d.(accounts := d.accounts[uuid := was.(
        deleted := true, publicId := "", displayName := "", custodian := None, revokedBefore := Later(was.revokedBefore, at),
        refreshedAt := Max(was.refreshedAt, clock))])
    else d
  }

  function Apply(d: Directory, e: AccountEvent, at: int, clock: int): Directory {
    match e
    case IdChanged(uuid, newId) => ChangeId(d, uuid, newId, at)
    case Updated(uuid, profile, version) => UpdateProfile(d, uuid, profile, version, at)
    case CustodianChanged(silicon, Some((custodian, id))) => ChangeCustodian(d, silicon, custodian, id, at)
    case CustodianChanged(_, None) => d
    case SignedOut(uuid, reason) => if reason == Some("app_revoked") then d else RevokeBefore(d, uuid, at)
    case AccessRemoved(uuid) => BlockAccess(d, uuid, at, false)
    case Deleted(uuid) => Forget(BlockAccess(d, uuid, at, true), uuid, at, clock)
    case Ping => d
    case Unknown => d
  }

  /** Access comes back on a later sign-in, unless the removal is newer than the one seen or the account is deleted. */
  function Restore(d: Directory, uuid: string, cutoff: int): Directory {
    if uuid in d.lifecycles && d.lifecycles[uuid].accessRemovedAt == Some(cutoff) && d.lifecycles[uuid].deletedAt.None? then
      d.(lifecycles := d.lifecycles[uuid := d.lifecycles[uuid].(accessRemovedAt := None)])
    else d
  }

  function Identities(e: AccountEvent): set<string> {
    match e
    case IdChanged(uuid, _) => {uuid}
    case Updated(uuid, profile, _) =>
      {uuid}
      + (if profile.uuid.Some? then {profile.uuid.value} else {})
      + (if profile.custodian.Some? then {profile.custodian.value} else {})
    case Deleted(uuid) => {uuid}
    case SignedOut(uuid, _) => {uuid}
    case AccessRemoved(uuid) => {uuid}
    case CustodianChanged(silicon, to) => {silicon} + (if to.Some? then {to.value.0} else {})
    case Ping => {}
    case Unknown => {}
  }

  /** One verified event; events that name a retired identity change nothing. */
  function Effect(d: Directory, e: AccountEvent, at: int, clock: int): Directory {
    if Identities(e) !! d.retired then Apply(d, e, at, clock) else d
  }

  // ---- What the effects keep -------------------------------------------------------------

  predicate NotBefore(a: Option<int>, b: Option<int>) {
    a.Some? ==> b.Some? && a.value <= b.value
  }

  predicate AccountForward(a: Account, b: Account) {
    && a.version <= b.version && a.refreshedAt <= b.refreshedAt && NotBefore(a.revokedBefore, b.revokedBefore)
    && (a.deleted ==> b.deleted && (a.publicId == "" ==> b.publicId == ""))
  }

  predicate LifecycleForward(a: Lifecycle, b: Lifecycle, access: bool) {
    && NotBefore(a.revokedBefore, b.revokedBefore) && NotBefore(a.deletedAt, b.deletedAt)
    && (access ==> NotBefore(a.accessRemovedAt, b.accessRemovedAt))
  }

  /** No cutoff, version or time went back, and no deleted account came to life; `access` says whether
      removed access counts as a cutoff, which only a later sign-in lifts. */
  ghost predicate OnlyForward(before: Directory, after: Directory, access: bool) {
    && after.retired == before.retired
    && (forall u :: u in before.accounts ==> u in after.accounts && AccountForward(before.accounts[u], after.accounts[u]))
    && forall u :: u in before.lifecycles ==>
                     u in after.lifecycles && LifecycleForward(before.lifecycles[u], after.lifecycles[u], access)
  }

  lemma ForwardTwice(a: Directory, b: Directory, c: Directory, access: bool)
    requires OnlyForward(a, b, access) && OnlyForward(b, c, access)
    ensures OnlyForward(a, c, access)
  {}

  lemma RevokeIsForward(d: Directory, uuid: string, at: int)
    ensures OnlyForward(d, RevokeBefore(d, uuid, at), true)
  {}

  lemma BlockIsForward(d: Directory, uuid: string, at: int, deleted: bool)
    ensures OnlyForward(d, BlockAccess(d, uuid, at, deleted), true)
  {
    RevokeIsForward(d, uuid, at);
    assert OnlyForward(RevokeBefore(d, uuid, at), BlockAccess(d, uuid, at, deleted), true);
    ForwardTwice(d, RevokeBefore(d, uuid, at), BlockAccess(d, uuid, at, deleted), true);
  }

  lemma ProfileIsForward(d: Directory, uuid: string, p: Profile, version: int, at: int)
    ensures OnlyForward(d, UpdateProfile(d, uuid, p, version, at), true)
  {}

  lemma CustodianIsForward(d: Directory, silicon: string, custodian: string, id: string, at: int)
    ensures OnlyForward(d, ChangeCustodian(d, silicon, custodian, id, at), true)
  {}

  lemma ForgetIsForward(d: Directory, uuid: string, at: int, clock: int)
    ensures OnlyForward(d, Forget(d, uuid, at, clock), true)
  {}

  lemma DeletionIsForward(d: Directory, uuid: string, at: int, clock: int)
    ensures OnlyForward(d, Forget(BlockAccess(d, uuid, at, true), uuid, at, clock), true)
  {
    var blocked := BlockAccess(d, uuid, at, true);
    BlockIsForward(d, uuid, at, true);
    ForgetIsForward(blocked, uuid, at, clock);
    ForwardTwice(d, blocked, Forget(blocked, uuid, at, clock), true);
  }

  /** One event. Sequences and overlapping runs of deliveries rest on it. */
  lemma EventMovesForward(d: Directory, e: AccountEvent, at: int, clock: int)
    ensures OnlyForward(d, Effect(d, e, at, clock), true)
  {
    match e
    case IdChanged(uuid, newId) => assert OnlyForward(d, ChangeId(d, uuid, newId, at), true);
    case Updated(uuid, profile, version) => ProfileIsForward(d, uuid, profile, version, at);
    case CustodianChanged(silicon, Some((custodian, id))) => CustodianIsForward(d, silicon, custodian, id, at);
    case SignedOut(uuid, _) => RevokeIsForward(d, uuid, at);
    case AccessRemoved(uuid) => BlockIsForward(d, uuid, at, false);
    case Deleted(uuid) => DeletionIsForward(d, uuid, at, clock);
    case _ =>
  }

  lemma RestoreIsForward(d: Directory, uuid: string, cutoff: int)
    ensures OnlyForward(d, Restore(d, uuid, cutoff), false)
  {}

  // ---- The same event again --------------------------------------------------------------

  lemma BlockAgain(d: Directory, uuid: string, at: int, deleted: bool)
    ensures BlockAccess(BlockAccess(d, uuid, at, deleted), uuid, at, deleted) == BlockAccess(d, uuid, at, deleted)
  {
    var once := BlockAccess(d, uuid, at, deleted);
    assert RevokeBefore(once, uuid, at) == once;
  }

  lemma RevokedAlready(d: Directory, uuid: string, at: int)
    requires uuid in d.lifecycles && NotBefore(Some(at), d.lifecycles[uuid].revokedBefore)
    requires uuid in d.accounts ==> NotBefore(Some(at), d.accounts[uuid].revokedBefore)
    ensures RevokeBefore(d, uuid, at) == d
  {}

  /** Forgetting the account's row leaves nothing for the same block to do. */
  lemma BlockedAgain(d: Directory, uuid: string, at: int, clock: int)
    ensures var forgotten := Forget(BlockAccess(d, uuid, at, true), uuid, at, clock);
            BlockAccess(forgotten, uuid, at, true) == forgotten
  {
    RevokedAlready(Forget(BlockAccess(d, uuid, at, true), uuid, at, clock), uuid, at);
  }

  /** The same event with the same time, again at once, changes nothing; a deletion at most moves the
      account's refresh time to the later clock. */
  lemma AgainAtOnce(d: Directory, e: AccountEvent, at: int, first: int, second: int)
    ensures var once := Effect(d, e, at, first);
            Effect(once, e, at, second) ==
            if e.Deleted? && e.uuid !in d.retired && e.uuid in once.accounts then
              once.(accounts := once.accounts[e.uuid := once.accounts[e.uuid].(
                refreshedAt := Max(once.accounts[e.uuid].refreshedAt, second))])
            else once
  {
    if Identities(e) !! d.retired {
      match e
      case Deleted(uuid) => BlockedAgain(d, uuid, at, first);
      case AccessRemoved(uuid) => BlockAgain(d, uuid, at, false);
      case SignedOut(uuid, _) => RevocationsCommute(d, uuid, at, at);
      case _ =>
    }
  }

  // ---- Events that arrive out of order ---------------------------------------------------

  function Fold<D, U>(step: (D, U) -> D, d: D, us: seq<U>): D
    decreases |us|
  {
    if us == [] then d else step(Fold(step, d, us[..|us| - 1]), us[|us| - 1])
  }

  function Without<U>(us: seq<U>, mine: U -> bool): seq<U>
    decreases |us|
  {
    if us == [] then []
    else Without(us[..|us| - 1], mine) + if mine(us[|us| - 1]) then [] else [us[|us| - 1]]
  }

  lemma {:induction false} WithoutAll<U(!new)>(us: seq<U>, mine: U -> bool)
    requires forall u :: u in us ==> mine(u)
    ensures Without(us, mine) == []
    decreases |us|
  {
    if us != [] {
      WithoutAll(us[..|us| - 1], mine);
    }
  }

  lemma FoldMore<D, U>(step: (D, U) -> D, d: D, us: seq<U>, u: U)
    ensures Fold(step, d, us + [u]) == step(Fold(step, d, us), u) && Fold(step, d, us + []) == Fold(step, d, us)
  {
    assert (us + [u])[..|us|] == us && us + [] == us;
  }

  /** Among the steps `mine`, `n` makes up for everything before and after it; all other steps can change
      places with it. */
  ghost predicate Prevails<D(!new), U(!new)>(step: (D, U) -> D, good: D -> bool, mine: U -> bool, us: seq<U>, n: U) {
    && mine(n)
    && (forall e, u :: good(e) && u in us ==> good(step(e, u)))
    && (forall e, u :: good(e) && u in us && mine(u) ==> step(step(e, u), n) == step(e, n) == step(step(e, n), u))
    && forall e, u :: good(e) && u in us && !mine(u) ==> step(step(e, u), n) == step(step(e, n), u)
  }

  lemma {:induction false} Absorbed<D(!new), U(!new)>(
      step: (D, U) -> D, good: D -> bool, mine: U -> bool, d: D, us: seq<U>, n: U)
    requires good(d) && Prevails(step, good, mine, us, n)
    ensures good(Fold(step, d, us)) && good(Fold(step, d, Without(us, mine)))
    ensures step(Fold(step, d, us), n) == step(Fold(step, d, Without(us, mine)), n)
    decreases |us|
  {
    if us != [] {
      var front, last := us[..|us| - 1], us[|us| - 1];
      assert us == front + [last] && last in us;
      Absorbed(step, good, mine, d, front, n);
      FoldMore(step, d, Without(front, mine), last);
    }
  }

  /** Any sequence of steps with `n` in it amounts to the other steps alone and then `n`. */
  lemma {:induction false} NewestWins<D(!new), U(!new)>(
      step: (D, U) -> D, good: D -> bool, mine: U -> bool, d: D, us: seq<U>, n: U)
    requires n in us && good(d) && Prevails(step, good, mine, us, n)
    ensures Fold(step, d, us) == step(Fold(step, d, Without(us, mine)), n)
    decreases |us|
  {
    var front, last := us[..|us| - 1], us[|us| - 1];
    assert us == front + [last] && last in us;
    Absorbed(step, good, mine, d, front, n);
    FoldMore(step, d, Without(front, mine), last);
    if last != n {
      NewestWins(step, good, mine, d, front, n);
    }
  }

  lemma NewestOfAll<D(!new), U(!new)>(step: (D, U) -> D, good: D -> bool, d: D, us: seq<U>, n: U)
    requires n in us && good(d) && Prevails(step, good, u => true, us, n)
    ensures Fold(step, d, us) == step(d, n)
  {
    NewestWins(step, good, u => true, d, us, n);
    WithoutAll(us, u => true);
  }

  /** The update says everything a profile can say about this account. */
  predicate IsFull(p: Profile, account: Account) {
    p.id.Some? && p.displayName.Some? && (account.silicon ==> p.custodian.Some?)
  }

  /** Once a newer full update is applied, an older one makes no difference, whether it came before or after. */
  lemma OlderUpdateIsIrrelevant(
      d: Directory, uuid: string, older: Profile, v: int, at: int, newer: Profile, w: int, bt: int)
    requires uuid in d.accounts ==> IsFull(newer, d.accounts[uuid])
    requires v < w && at <= bt
    ensures UpdateProfile(UpdateProfile(d, uuid, older, v, at), uuid, newer, w, bt) == UpdateProfile(d, uuid, newer, w, bt)
    ensures UpdateProfile(UpdateProfile(d, uuid, newer, w, bt), uuid, older, v, at) == UpdateProfile(d, uuid, newer, w, bt)
  {
    if uuid in d.accounts && !d.accounts[uuid].deleted {
      var last := UpdateProfile(UpdateProfile(d, uuid, older, v, at), uuid, newer, w, bt);
      assert last.accounts[uuid] == UpdateProfile(d, uuid, newer, w, bt).accounts[uuid];
      assert last.accounts == UpdateProfile(d, uuid, newer, w, bt).accounts;
    }
  }

  // ---- Events that change places with an update ------------------------------------------

  /** The event neither reads nor writes what an update of the account does; `known` is whether the account
      is stored. Its own sign-outs and removals of access are of that kind, too. */
  predicate Independent(e: AccountEvent, uuid: string, known: bool) {
    match e
    case IdChanged(u, _) => u != uuid
    case Updated(u, _, _) => u != uuid
    case Deleted(u) => u != uuid
    case CustodianChanged(silicon, to) => silicon != uuid && (known || to.None? || to.value.0 != uuid)
    case _ => true
  }

  lemma WriteCommutes(accounts: map<string, Account>, u: string, a: Account, v: string, b: Account)
    requires u != v
    ensures accounts[u := a][v := b] == accounts[v := b][u := a]
  {}

  lemma IdCommutes(d: Directory, u: string, newId: string, at: int, uuid: string, p: Profile, version: int, bt: int)
    requires u != uuid
    ensures ChangeId(UpdateProfile(d, uuid, p, version, bt), u, newId, at)
         == UpdateProfile(ChangeId(d, u, newId, at), uuid, p, version, bt)
  {
    if u in d.accounts && uuid in d.accounts {
      WriteCommutes(
        d.accounts, u, d.accounts[u].(publicId := newId, refreshedAt := at),
        uuid, UpdateProfile(d, uuid, p, version, bt).accounts[uuid]);
    }
  }

  lemma UpdateCommutes(
      d: Directory, u: string, q: Profile, w: int, at: int, uuid: string, p: Profile, version: int, bt: int)
    requires u != uuid
    ensures UpdateProfile(UpdateProfile(d, uuid, p, version, bt), u, q, w, at)
         == UpdateProfile(UpdateProfile(d, u, q, w, at), uuid, p, version, bt)
  {
    if u in d.accounts && uuid in d.accounts {
      WriteCommutes(
        d.accounts, u, UpdateProfile(d, u, q, w, at).accounts[u], uuid, UpdateProfile(d, uuid, p, version, bt).accounts[uuid]);
    }
  }

  lemma RememberCommutes(d: Directory, u: string, id: string, uuid: string, p: Profile, version: int, bt: int)
    requires uuid in d.accounts || u != uuid
    ensures Remember(UpdateProfile(d, uuid, p, version, bt), u, id) == UpdateProfile(Remember(d, u, id), uuid, p, version, bt)
  {
    if uuid in d.accounts && u != uuid {
      WriteCommutes(
        d.accounts, u, Account(false, id, "", None, false, None, 0, EPOCH),
        uuid, UpdateProfile(d, uuid, p, version, bt).accounts[uuid]);
    }
  }

  lemma CustodianCommutes(
      d: Directory, u: string, custodian: string, id: string, at: int, uuid: string, p: Profile, version: int, bt: int)
    requires u != uuid && (uuid in d.accounts || custodian != uuid)
    ensures ChangeCustodian(UpdateProfile(d, uuid, p, version, bt), u, custodian, id, at)
         == UpdateProfile(ChangeCustodian(d, u, custodian, id, at), uuid, p, version, bt)
  {
    var known := Remember(d, custodian, id);
    RememberCommutes(d, custodian, id, uuid, p, version, bt);
    if u in known.accounts && uuid in known.accounts {
      WriteCommutes(
        known.accounts, u, ChangeCustodian(d, u, custodian, id, at).accounts[u],
        uuid, UpdateProfile(known, uuid, p, version, bt).accounts[uuid]);
    }
  }

  lemma RevokeCommutes(d: Directory, u: string, at: int, uuid: string, p: Profile, version: int, bt: int)
    ensures RevokeBefore(UpdateProfile(d, uuid, p, version, bt), u, at)
         == UpdateProfile(RevokeBefore(d, u, at), uuid, p, version, bt)
  {
    if u == uuid {
      assert RevokeBefore(UpdateProfile(d, uuid, p, version, bt), uuid, at).accounts
          == UpdateProfile(RevokeBefore(d, uuid, at), uuid, p, version, bt).accounts;
    } else if u in d.accounts && uuid in d.accounts {
      WriteCommutes(
        d.accounts, u, RevokeBefore(d, u, at).accounts[u], uuid, UpdateProfile(d, uuid, p, version, bt).accounts[uuid]);
    }
  }

  lemma BlockCommutes(d: Directory, u: string, at: int, deleted: bool, uuid: string, p: Profile, version: int, bt: int)
    ensures BlockAccess(UpdateProfile(d, uuid, p, version, bt), u, at, deleted)
         == UpdateProfile(BlockAccess(d, u, at, deleted), uuid, p, version, bt)
  {
    RevokeCommutes(d, u, at, uuid, p, version, bt);
  }

  lemma ForgetCommutes(d: Directory, u: string, at: int, clock: int, uuid: string, p: Profile, version: int, bt: int)
    requires u != uuid
    ensures Forget(UpdateProfile(d, uuid, p, version, bt), u, at, clock)
         == UpdateProfile(Forget(d, u, at, clock), uuid, p, version, bt)
  {
    if u in d.accounts && uuid in d.accounts {
      WriteCommutes(
        d.accounts, u, Forget(d, u, at, clock).accounts[u], uuid, UpdateProfile(d, uuid, p, version, bt).accounts[uuid]);
    }
  }

  lemma IndependentCommutes(
      d: Directory, e: AccountEvent, at: int, clock: int, uuid: string, p: Profile, version: int, bt: int)
    requires Independent(e, uuid, uuid in d.accounts)
    ensures Effect(UpdateProfile(d, uuid, p, version, bt), e, at, clock)
         == UpdateProfile(Effect(d, e, at, clock), uuid, p, version, bt)
  {
    match e
    case IdChanged(u, newId) => IdCommutes(d, u, newId, at, uuid, p, version, bt);
    case Updated(u, q, w) => UpdateCommutes(d, u, q, w, at, uuid, p, version, bt);
    case CustodianChanged(u, Some((custodian, id))) => CustodianCommutes(d, u, custodian, id, at, uuid, p, version, bt);
    case SignedOut(u, _) => RevokeCommutes(d, u, at, uuid, p, version, bt);
    case AccessRemoved(u) => BlockCommutes(d, u, at, false, uuid, p, version, bt);
    case Deleted(u) =>
      BlockCommutes(d, u, at, true, uuid, p, version, bt);
      ForgetCommutes(BlockAccess(d, u, at, true), u, at, clock, uuid, p, version, bt);
    case _ =>
  }

  /** Whether the account is stored and what kind it is stay as they are. */
  lemma IndependentKeepsKind(d: Directory, e: AccountEvent, at: int, clock: int, uuid: string)
    requires Independent(e, uuid, uuid in d.accounts)
    ensures var after := Effect(d, e, at, clock);
            && after.retired == d.retired && (uuid in after.accounts <==> uuid in d.accounts)
            && (uuid in d.accounts ==> after.accounts[uuid].silicon == d.accounts[uuid].silicon)
  {
    match e
    case CustodianChanged(u, Some((custodian, id))) => assert uuid in Remember(d, custodian, id).accounts <==> uuid in d.accounts;
    case _ =>
  }

  datatype Update = Update(profile: Profile, version: int, at: int)

  function Updating(uuid: string): (Directory, Update) -> Directory {
    (d: Directory, u: Update) => UpdateProfile(d, uuid, u.profile, u.version, u.at)
  }

  /** Updates of one account, in any order and any number of times, amount to the newest, if that is full
      and the times do not decrease with the versions. */
  lemma NewestUpdateWins(d: Directory, uuid: string, updates: seq<Update>, n: Update)
    requires n in updates && forall u :: u in updates ==> u == n || (u.version < n.version && u.at <= n.at)
    requires uuid in d.accounts ==> IsFull(n.profile, d.accounts[uuid])
    ensures Fold(Updating(uuid), d, updates) == UpdateProfile(d, uuid, n.profile, n.version, n.at)
  {
    var good := (e: Directory) => uuid in e.accounts ==> IsFull(n.profile, e.accounts[uuid]);
    forall e, u | good(e) && u in updates
      ensures good(Updating(uuid)(e, u)) && Updating(uuid)(Updating(uuid)(e, u), n) == Updating(uuid)(e, n)
      ensures Updating(uuid)(Updating(uuid)(e, n), u) == Updating(uuid)(e, n)
    {
      if u != n {
        OlderUpdateIsIrrelevant(e, uuid, u.profile, u.version, u.at, n.profile, n.version, n.at);
      }
    }
    NewestOfAll(Updating(uuid), good, d, updates, n);
  }

  /** The latest of two changes of an id wins in either order. */
  lemma OlderIdChangeIsIrrelevant(d: Directory, uuid: string, older: string, at: int, newer: string, bt: int)
    requires at < bt
    ensures ChangeId(ChangeId(d, uuid, older, at), uuid, newer, bt) == ChangeId(d, uuid, newer, bt)
    ensures ChangeId(ChangeId(d, uuid, newer, bt), uuid, older, at) == ChangeId(d, uuid, newer, bt)
  {
    if uuid in d.accounts && !d.accounts[uuid].deleted {
      assert ChangeId(ChangeId(d, uuid, older, at), uuid, newer, bt).accounts == ChangeId(d, uuid, newer, bt).accounts;
    }
  }

  /** Changes of one account's id, in any order, amount to the latest. */
  lemma LatestIdWins(d: Directory, uuid: string, changes: seq<(string, int)>, n: (string, int))
    requires n in changes && forall c :: c in changes ==> c == n || c.1 < n.1
    ensures Fold((e: Directory, c: (string, int)) => ChangeId(e, uuid, c.0, c.1), d, changes) == ChangeId(d, uuid, n.0, n.1)
  {
    var step := (e: Directory, c: (string, int)) => ChangeId(e, uuid, c.0, c.1);
    forall e, c | c in changes ensures step(step(e, c), n) == step(e, n) && step(step(e, n), c) == step(e, n) {
      if c != n {
        OlderIdChangeIsIrrelevant(e, uuid, c.0, c.1, n.0, n.1);
      }
    }
    NewestOfAll(step, (e: Directory) => true, d, changes, n);
  }

  /** Revocations of one account amount to the latest of them, in either order. */
  lemma RevocationsCommute(d: Directory, uuid: string, at: int, bt: int)
    ensures RevokeBefore(RevokeBefore(d, uuid, at), uuid, bt) == RevokeBefore(d, uuid, Max(at, bt))
  {
    var twice, once := RevokeBefore(RevokeBefore(d, uuid, at), uuid, bt), RevokeBefore(d, uuid, Max(at, bt));
    assert twice.lifecycles[uuid] == once.lifecycles[uuid];
    assert twice.lifecycles == once.lifecycles && twice.accounts == once.accounts;
  }

  /** And so do any number of them in any order. */
  lemma LatestRevocationWins(d: Directory, uuid: string, times: seq<int>, n: int)
    requires n in times && forall t :: t in times ==> t <= n
    ensures Fold((e: Directory, t: int) => RevokeBefore(e, uuid, t), d, times) == RevokeBefore(d, uuid, n)
  {
    var step := (e: Directory, t: int) => RevokeBefore(e, uuid, t);
    forall e, t | t in times ensures step(step(e, t), n) == step(e, n) && step(step(e, n), t) == step(e, n) {
      RevocationsCommute(e, uuid, t, n);
      RevocationsCommute(e, uuid, n, t);
    }
    NewestOfAll(step, (e: Directory) => true, d, times, n);
  }
}
