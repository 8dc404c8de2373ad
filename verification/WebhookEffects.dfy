/** What deliveries write to the stored rows, event by event and over any sequence. */
module WebhookEffects {
  import opened Wrappers
  import opened AccountEvents
  import opened Webhooks

  // ---- What one delivery does to the rows -------------------------------------------------

  /** The account ids that stand anywhere in the event. */
  predicate Names(e: AccountEvent, id: string) {
    match e
    case IdChanged(uuid, _) => id == uuid
    case Updated(uuid, profile, _) => id == uuid || Some(id) == profile.uuid || Some(id) == profile.custodian
    case Deleted(uuid) => id == uuid
    case SignedOut(uuid, _) => id == uuid
    case AccessRemoved(uuid) => id == uuid
    case CustodianChanged(silicon, to) => id == silicon || (to.Some? && id == to.value.0)
    case Ping => false
    case Unknown => false
  }

  ghost predicate NamesRetired(s: State, e: AccountEvent) {
    exists id :: id in s.directory.retired && Names(e, id)
  }

  /** The first success of an event that names no retired identity. */
  ghost predicate Takes(s: State, a: Attempt) {
    !a.fails && a.delivery.id !in s.recorded && !NamesRetired(s, a.delivery.event)
  }

  lemma RetiredIff(s: State, e: AccountEvent)
    ensures NamesRetired(s, e) <==> !(Identities(e) !! s.directory.retired)
  {
    assert forall id :: Names(e, id) <==> id in Identities(e);
  }

  /** The later of two times, and never none. */
  predicate IsLater(after: Option<int>, before: Option<int>, at: int) {
    after.Some? && (before.Some? && before.value >= at ==> after == before) && (before.None? || before.value < at ==> after == Some(at))
  }

  /** Nothing but the rows of `uuid` is different. */
  predicate OnlyRowsOf(before: Directory, after: Directory, uuid: string) {
    && after.retired == before.retired
    && after.accounts.Keys - {uuid} == before.accounts.Keys - {uuid}
    && after.lifecycles.Keys - {uuid} == before.lifecycles.Keys - {uuid}
    && (forall u :: u in before.accounts && u != uuid ==> u in after.accounts && after.accounts[u] == before.accounts[u])
    && forall u :: u in before.lifecycles && u != uuid ==> u in after.lifecycles && after.lifecycles[u] == before.lifecycles[u]
  }

  /** The events that end every earlier sign-in of the account. One revoked sign-in does not. */
  predicate EndsSignIns(e: AccountEvent, uuid: string) {
    match e
    case SignedOut(u, reason) => u == uuid && reason != Some("app_revoked")
    case AccessRemoved(u) => u == uuid
    case Deleted(u) => u == uuid
    case _ => false
  }

  /** A sign-out, removed access or deletion sets the cutoff of the account's sign-ins to its time, unless a
      later one stands, with or without a stored account; removal and deletion set their own times, too. */
  lemma SignInsEnd(s: State, a: Attempt, uuid: string)
    requires Takes(s, a) && EndsSignIns(a.delivery.event, uuid)
    ensures var before, after, at := s.directory, Delivered(s, a).0.directory, TimeOf(a);
            && OnlyRowsOf(before, after, uuid) && uuid in after.lifecycles
            && var was, became := LifecycleOf(before, uuid), after.lifecycles[uuid];
               && IsLater(became.revokedBefore, was.revokedBefore, at)
               && (if a.delivery.event.SignedOut? then became.accessRemovedAt == was.accessRemovedAt
                   else IsLater(became.accessRemovedAt, was.accessRemovedAt, at))
               && (if a.delivery.event.Deleted? then IsLater(became.deletedAt, was.deletedAt, at)
                   else became.deletedAt == was.deletedAt)
  {
    RetiredIff(s, a.delivery.event);
    var d := s.directory;
    match a.delivery.event
    case Deleted(_) => assert OnlyRowsOf(d, BlockAccess(d, uuid, TimeOf(a), true), uuid);
    case _ =>
  }

  /** In the stored account a sign-out or removal changes the cutoff alone; a deletion also clears what names
      the account and its custodian, and keeps its kind and version. */
  lemma AccountSignInsEnd(s: State, a: Attempt, uuid: string)
    requires Takes(s, a) && EndsSignIns(a.delivery.event, uuid)
    ensures var before, after, at := s.directory.accounts, Delivered(s, a).0.directory.accounts, TimeOf(a);
            && after.Keys == before.Keys
            && (uuid in before ==>
                  var was, became := before[uuid], after[uuid];
                  && IsLater(became.revokedBefore, was.revokedBefore, at)
                  && (!a.delivery.event.Deleted? ==> became == was.(revokedBefore := became.revokedBefore))
                  && (a.delivery.event.Deleted? ==>
                        became.deleted && became.publicId == "" && became.displayName == "" && became.custodian == None
                        && became.silicon == was.silicon && became.version == was.version
                        && became.refreshedAt == if was.refreshedAt < a.clock then a.clock else was.refreshedAt))
  {
    RetiredIff(s, a.delivery.event);
  }

  /** A single revoked sign-in, a ping, an unknown event, and anything that names a retired identity change
      nothing; the event is recorded all the same. */
  lemma NothingChanges(s: State, a: Attempt)
    requires !a.fails && a.delivery.id !in s.recorded
    requires || NamesRetired(s, a.delivery.event) || a.delivery.event.Ping? || a.delivery.event.Unknown?
             || (a.delivery.event.SignedOut? && a.delivery.event.reason == Some("app_revoked"))
             || (a.delivery.event.CustodianChanged? && a.delivery.event.to.None?)
    ensures Delivered(s, a).0 == s.(recorded := s.recorded[a.delivery.id := a.delivery.hash])
  {
    RetiredIff(s, a.delivery.event);
  }

  /** A change of the id is written to a stored account that is not deleted and not newer, and only the id
      and the time of the account change. */
  lemma IdIsWritten(s: State, a: Attempt)
    requires Takes(s, a) && a.delivery.event.IdChanged?
    ensures var e, before, after, at :=
              a.delivery.event, s.directory, Delivered(s, a).0.directory, TimeOf(a);
            if e.uuid in before.accounts && !before.accounts[e.uuid].deleted && before.accounts[e.uuid].refreshedAt < at then
              && OnlyRowsOf(before, after, e.uuid) && after.lifecycles == before.lifecycles && e.uuid in after.accounts
              && after.accounts[e.uuid].publicId == e.newId && after.accounts[e.uuid].refreshedAt == at
              && after.accounts[e.uuid].(publicId := before.accounts[e.uuid].publicId, refreshedAt := before.accounts[e.uuid].refreshedAt)
                 == before.accounts[e.uuid]
            else after == before
  {
    RetiredIff(s, a.delivery.event);
  }

  /** A newer version of a profile writes the name it carries in any case; the id and, for a Silicon, the
      custodian, unless the account was refreshed after the update's time. What it does not carry stays. */
  lemma ProfileIsWritten(s: State, a: Attempt)
    requires Takes(s, a) && a.delivery.event.Updated?
    ensures var e, before, after, at :=
              a.delivery.event, s.directory, Delivered(s, a).0.directory, TimeOf(a);
            if e.uuid in before.accounts && !before.accounts[e.uuid].deleted && before.accounts[e.uuid].version < e.version then
              && OnlyRowsOf(before, after, e.uuid) && after.lifecycles == before.lifecycles && e.uuid in after.accounts
              && var was, became, p := before.accounts[e.uuid], after.accounts[e.uuid], e.profile;
                 && became.version == e.version && became.refreshedAt == (if was.refreshedAt < at then at else was.refreshedAt)
                 && (p.displayName.Some? ==> became.displayName == p.displayName.value)
                 && (p.displayName.None? ==> became.displayName == was.displayName)
                 && (p.id.Some? && was.refreshedAt <= at ==> became.publicId == p.id.value)
                 && (p.id.None? || was.refreshedAt > at ==> became.publicId == was.publicId)
                 && (p.custodian.Some? && was.silicon && was.refreshedAt <= at ==> became.custodian == p.custodian)
                 && (p.custodian.None? || !was.silicon || was.refreshedAt > at ==> became.custodian == was.custodian)
                 && became.silicon == was.silicon && became.deleted == was.deleted && became.revokedBefore == was.revokedBefore
            else after == before
  {
    RetiredIff(s, a.delivery.event);
  }

  /** A new custodian is written to a stored Silicon that is not deleted and not newer. An unknown custodian
      with an id becomes known as a Carbon that was never refreshed. */
  lemma CustodianIsWritten(s: State, a: Attempt, custodian: string, id: string)
    requires Takes(s, a) && a.delivery.event.CustodianChanged? && a.delivery.event.to == Some((custodian, id))
    ensures var u, before, after, at :=
              a.delivery.event.silicon, s.directory.accounts, Delivered(s, a).0.directory.accounts, TimeOf(a);
            && Delivered(s, a).0.directory.lifecycles == s.directory.lifecycles
            && after.Keys == before.Keys + (if id == "" then {} else {custodian})
            && (custodian !in before && id != "" ==>
                  var known := after[custodian];
                  known.publicId == id && !known.silicon && !known.deleted && known.version == 0 && known.refreshedAt == EPOCH
                  && known.custodian == None && known.revokedBefore == None)
            && (forall v :: v in before && v != u ==> after[v] == before[v])
            && (u in before ==>
                  if before[u].silicon && !before[u].deleted && before[u].refreshedAt < at then
                    after[u].custodian == Some(custodian) && after[u].refreshedAt == at
                    && after[u].(custodian := before[u].custodian, refreshedAt := before[u].refreshedAt) == before[u]
                  else after[u] == before[u])
  {
    RetiredIff(s, a.delivery.event);
  }

  // ---- Over any sequence of deliveries ---------------------------------------------------

  /** A time of the account's lifecycle that events of one kind set. */
  datatype Cutoff = SignInsBefore | AccessRemovedAt | DeletedAt

  function TimeIn(l: Lifecycle, cutoff: Cutoff): Option<int> {
    match cutoff
    case SignInsBefore => l.revokedBefore
    case AccessRemovedAt => l.accessRemovedAt
    case DeletedAt => l.deletedAt
  }

  predicate Sets(e: AccountEvent, uuid: string, cutoff: Cutoff) {
    EndsSignIns(e, uuid) && (cutoff.AccessRemovedAt? ==> !e.SignedOut?) && (cutoff.DeletedAt? ==> e.Deleted?)
  }

  /** The first success of an event that sets the cutoff, unless it names a retired identity. */
  ghost predicate Counts(s: State, attempts: seq<Attempt>, i: nat, uuid: string, cutoff: Cutoff) {
    && i < |attempts| && IsFirst(s.recorded.Keys, attempts, i)
    && !NamesRetired(s, attempts[i].delivery.event) && Sets(attempts[i].delivery.event, uuid, cutoff)
  }

  /** A delivery that does not end the account's sign-ins leaves its lifecycle alone. */
  lemma LifecycleStays(s: State, a: Attempt, uuid: string)
    requires !EndsSignIns(a.delivery.event, uuid) || !Takes(s, a)
    ensures LifecycleOf(Delivered(s, a).0.directory, uuid) == LifecycleOf(s.directory, uuid)
  {
    RetiredIff(s, a.delivery.event);
  }

  lemma CutoffStep(s: State, a: Attempt, uuid: string, cutoff: Cutoff)
    ensures var was, became := TimeIn(LifecycleOf(s.directory, uuid), cutoff),
                               TimeIn(LifecycleOf(Delivered(s, a).0.directory, uuid), cutoff);
            if Takes(s, a) && Sets(a.delivery.event, uuid, cutoff) then IsLater(became, was, TimeOf(a))
            else became == was
  {
    if EndsSignIns(a.delivery.event, uuid) && Takes(s, a) {
      SignInsEnd(s, a, uuid);
    } else {
      LifecycleStays(s, a, uuid);
    }
  }

  lemma {:induction false} RetiredStays(s: State, attempts: seq<Attempt>)
    ensures DeliveredAll(s, attempts).directory.retired == s.directory.retired
    decreases |attempts|
  {
    DeliveriesMoveForward(s, attempts);
  }

  /** The last attempt takes effect exactly if it counts. */
  lemma LastCounts(s: State, attempts: seq<Attempt>, uuid: string, cutoff: Cutoff)
    requires attempts != []
    ensures var n := |attempts| - 1;
            Takes(DeliveredAll(s, attempts[..n]), attempts[n]) && Sets(attempts[n].delivery.event, uuid, cutoff)
            <==> Counts(s, attempts, n, uuid, cutoff)
  {
    var n := |attempts| - 1;
    RecordedIffSucceeded(s, attempts[..n]);
    RetiredStays(s, attempts[..n]);
    FirstIffUnknown(s.recorded.Keys, attempts);
  }

  lemma EarlierCount(s: State, attempts: seq<Attempt>, i: nat, uuid: string, cutoff: Cutoff)
    requires i + 1 < |attempts|
    ensures Counts(s, attempts[..|attempts| - 1], i, uuid, cutoff) <==> Counts(s, attempts, i, uuid, cutoff)
  {
    var front := attempts[..|attempts| - 1];
    assert forall j :: 0 <= j <= i ==> front[j] == attempts[j];
  }

  /** After any deliveries in any order, with repeats and failures, each cutoff is the latest of what it was
      and the times of the events that set it: no such event is lost, and nothing else moves it. */
  lemma {:induction false} CutoffIsTheLatest(s: State, attempts: seq<Attempt>, uuid: string, cutoff: Cutoff)
    ensures var was, became := TimeIn(LifecycleOf(s.directory, uuid), cutoff),
                               TimeIn(LifecycleOf(DeliveredAll(s, attempts).directory, uuid), cutoff);
            && NotBefore(was, became)
            && (forall i: nat :: Counts(s, attempts, i, uuid, cutoff) ==> NotBefore(Some(TimeOf(attempts[i])), became))
            && (became != was ==> exists i: nat :: Counts(s, attempts, i, uuid, cutoff) && became == Some(TimeOf(attempts[i])))
    decreases |attempts|
  {
    if attempts != [] {
      var n := |attempts| - 1;
      CutoffIsTheLatest(s, attempts[..n], uuid, cutoff);
      CutoffStep(DeliveredAll(s, attempts[..n]), attempts[n], uuid, cutoff);
      LastCounts(s, attempts, uuid, cutoff);
      forall i: nat | i < n ensures Counts(s, attempts[..n], i, uuid, cutoff) <==> Counts(s, attempts, i, uuid, cutoff) {
        EarlierCount(s, attempts, i, uuid, cutoff);
      }
    }
  }

  /** Access comes back exactly when the removal is still the one that was seen and the account lives on. */
  lemma RestoreIff(d: Directory, uuid: string, seen: int)
    ensures var was, became := LifecycleOf(d, uuid), LifecycleOf(Restore(d, uuid, seen), uuid);
            && became.revokedBefore == was.revokedBefore && became.deletedAt == was.deletedAt
            && became.accessRemovedAt == (if was.accessRemovedAt == Some(seen) && was.deletedAt.None? then None else was.accessRemovedAt)
    ensures Restore(d, uuid, seen).accounts == d.accounts
  {}
}
