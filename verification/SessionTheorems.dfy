/** The guarantees of the session file, for every reachable state of every interleaving. */
module SessionTheorems {
  import opened Wrappers
  import opened SavedSession
  import opened SessionProtocol
  import opened SessionSteps
  import opened SessionSafety

  lemma {:induction false} RunInv(s: State, events: seq<Event>)
    requires Inv(s) && Legal(true, s, events)
    ensures Inv(Exec(true, s, events))
    decreases |events|
  {
    if events != [] {
      StepInv(s, events[0]);
      RunInv(Next(true, s, events[0]), events[1..]);
    }
  }

  lemma ReachableInv(s: State)
    requires Reachable(true, s)
    ensures Inv(s)
  {
    var s0, events :| Initial(s0) && Legal(true, s0, events) && Exec(true, s0, events) == s;
    InitialInv(s0);
    RunInv(s0, events);
  }

  /** A token is presented again, or presented after the server used it up, only by a command
      that read under the lock that an earlier refresh got no answer. */
  lemma PresentedAgainOnlyAfterMarker(s: State)
    requires Reachable(true, s)
    ensures RepeatsAreMarked(s.log)
    ensures forall i :: 0 <= i < |s.log| && s.log[i].alreadyConsumed ==> s.log[i].markerSeen
  {
    ReachableInv(s);
    forall i | 0 <= i < |s.log| && s.log[i].alreadyConsumed ensures s.log[i].markerSeen {
      assert EntryInv(s, s.log[i]);
    }
  }

  /** A refresh is sent only by a command that found the margin gone, or was refused with the very access
      token it found saved under the lock. */
  lemma RefreshedOnlyWhenNeeded(s: State, i: nat)
    requires Reachable(true, s) && i < |s.log|
    ensures s.log[i].needed || s.log[i].rejected == Some(s.log[i].access)
  {
    ReachableInv(s);
    assert EntryInv(s, s.log[i]);
  }

  /** Commands refused with the same access token: at most one of them sends a refresh without
      knowing of a lost one, as long as the saved token is not about to expire. */
  lemma OneRefreshPerRejectedToken(s: State, i: nat, j: nat)
    requires Reachable(true, s) && i < j < |s.log|
    requires s.log[i].rejected.Some? && s.log[i].rejected == s.log[j].rejected
    requires !s.log[i].needed && !s.log[j].needed
    ensures s.log[j].markerSeen
  {
    ReachableInv(s);
    assert EntryInv(s, s.log[i]) && EntryInv(s, s.log[j]);
  }

  /** Every session a command gets was written to the file first, is not over, belongs to the
      account asked for, and does not carry the access token that was refused. */
  lemma ReturnedSessionsWereSaved(s: State, p: nat)
    requires Reachable(true, s) && Of(s, p).Returned?
    ensures Of(s, p).session in s.saved && !Of(s, p).session.ended
    ensures SameAccount(Of(s, p).session, Of(s, p).call)
    ensures Of(s, p).call.rejected != Some(Of(s, p).session.access)
  {
    ReachableInv(s);
    assert ProcInv(s, p, Of(s, p));
  }

  lemma OnlyThreeStepsReturn(carries: bool, s: State, e: Event, p: nat)
    requires Enabled(carries, s, e) && !e.ReadUnlocked? && !e.Inspect? && !e.Receive?
    ensures Of(Next(carries, s, e), p).Returned? ==> Of(s, p).Returned?
  {
    if ByServer(e) {
      SessionSteps.ServerStep(carries, s, e);
    } else {
      OwnStep(carries, s, e);
    }
  }

  /** A command gets exactly what the file holds at that moment, whoever wrote it; unless it just
      renewed it itself, that session has more than the margin left. */
  lemma ReturnedIsTheFile(carries: bool, s: State, e: Event, p: nat)
    requires Enabled(carries, s, e) && !Of(s, p).Returned? && Of(Next(carries, s, e), p).Returned?
    ensures Next(carries, s, e).file == Saved(Of(Next(carries, s, e), p).session)
    ensures e.Receive? || (e.ReadUnlocked? && !NeedsRefresh(s.file.session, e.now)) || (e.Inspect? && !NeedsRefresh(s.file.session, e.now))
  {
    if e.ReadUnlocked? {
    } else if e.Inspect? {
      InspectedReturns(s, e.p, p, Of(s, e.p).job.call, e.now);
    } else if e.Receive? {
      var proc := Of(s, e.p);
      ReceivedReturns(s, e.p, p, proc.attempt, proc.startedAt, s.flights[proc.flight], e.now, e.ok);
    } else {
      OnlyThreeStepsReturn(carries, s, e, p);
    }
  }

  lemma InspectedReturns(s: State, actor: nat, p: nat, call: Call, now: int)
    requires !Of(s, p).Returned? && Of(Inspected(s, actor, call, now), p).Returned?
    ensures Inspected(s, actor, call, now).file == s.file == Saved(Of(Inspected(s, actor, call, now), p).session)
    ensures !NeedsRefresh(s.file.session, now)
  {
  }

  lemma ReceivedReturns(s: State, actor: nat, p: nat, a: Attempt, startedAt: int, reply: Flight, now: int, ok: bool)
    requires !reply.Travelling? && !Of(s, p).Returned? && Of(Received(s, actor, a, startedAt, reply, now, ok), p).Returned?
    ensures var t := Received(s, actor, a, startedAt, reply, now, ok); t.file == Saved(Of(t, p).session)
  {
    SessionSteps.ReceiveStep(s, actor, a, startedAt, reply, now, ok);
    assert actor == p;
  }

  /** At most one command is between reading the file under the lock and leaving it. */
  lemma LockIsExclusive(s: State, p: nat, q: nat)
    requires Reachable(true, s) && HoldsLock(Of(s, p)) && HoldsLock(Of(s, q))
    ensures p == q
  {
    ReachableInv(s);
    assert s.lock == Some(p) && s.lock == Some(q);
  }

  // ---- The server ------------------------------------------------------------------------

  /** Answered tokens are used up. */
  ghost predicate AnsweredInv(s: State) {
    && |s.log| == |s.flights|
    && (forall i :: 0 <= i < |s.flights| && s.flights[i].Accepted? ==> s.log[i].token in s.consumed)
    && forall i, j :: 0 <= i < j < |s.flights| && s.flights[i].Accepted? && s.flights[j].Accepted? ==> s.log[i].token != s.log[j].token
  }

  /** Everything the server answers by. */
  ghost predicate SameServer(s: State, t: State) {
    t.log == s.log && t.flights == s.flights && t.consumed == s.consumed
  }

  lemma ServerUnchangedByStart(carries: bool, s: State, e: Event)
    requires Enabled(carries, s, e) && (e.BeginFresh? || e.BeginInstall? || e.BeginSignOut? || e.BeginRemember? || e.Lock? || e.ReadUnlocked?)
    ensures SameServer(s, Next(carries, s, e))
  {}

  lemma ServerUnchangedByWrite(carries: bool, s: State, e: Event)
    requires Enabled(carries, s, e) && (e.SaveExpired? || e.SaveMarker? || e.Install? || e.FinishSignOut?)
    ensures SameServer(s, Next(carries, s, e))
  {}

  lemma ServerUnchangedByEnd(carries: bool, s: State, e: Event)
    requires Enabled(carries, s, e) && (e.Release? || e.NoReply? || e.GiveUp? || e.Crash?)
    ensures SameServer(s, Next(carries, s, e))
  {}

  lemma ServerUnchangedByReading(s: State, p: nat, call: Call, now: int)
    ensures SameServer(s, Inspected(s, p, call, now))
  {}

  lemma ServerUnchangedByReply(s: State, p: nat, a: Attempt, startedAt: int, reply: Flight, now: int, ok: bool)
    requires !reply.Travelling?
    ensures SameServer(s, Received(s, p, a, startedAt, reply, now, ok))
  {}

  lemma ServerUnchanged(carries: bool, s: State, e: Event)
    requires Enabled(carries, s, e) && !e.Present? && !ByServer(e)
    ensures SameServer(s, Next(carries, s, e))
  {
    if e.Receive? {
      var proc := Of(s, e.p);
      ServerUnchangedByReply(s, e.p, proc.attempt, proc.startedAt, s.flights[proc.flight], e.now, e.ok);
    } else if e.SignOut? {
      assert SameServer(s, SignedOut(s, e.p, e.ok));
    } else if e.Remember? {
      assert SameServer(s, Remembered(s, e.p, Of(s, e.p).job.uuid, Of(s, e.p).job.details, e.ok));
    } else if e.Inspect? {
      ServerUnchangedByReading(s, e.p, Of(s, e.p).job.call, e.now);
    } else if e.SaveExpired? || e.SaveMarker? || e.Install? || e.FinishSignOut? {
      ServerUnchangedByWrite(carries, s, e);
    } else if e.Release? || e.NoReply? || e.GiveUp? || e.Crash? {
      ServerUnchangedByEnd(carries, s, e);
    } else {
      ServerUnchangedByStart(carries, s, e);
    }
  }

  lemma AnsweredStep(carries: bool, s: State, e: Event)
    requires AnsweredInv(s) && Enabled(carries, s, e)
    ensures AnsweredInv(Next(carries, s, e)) && s.consumed <= Next(carries, s, e).consumed
  {
    if !e.Present? && !ByServer(e) {
      ServerUnchanged(carries, s, e);
    }
  }

  lemma {:induction false} AnsweredRun(carries: bool, s: State, events: seq<Event>)
    requires AnsweredInv(s) && Legal(carries, s, events)
    ensures AnsweredInv(Exec(carries, s, events)) && s.consumed <= Exec(carries, s, events).consumed
    decreases |events|
  {
    if events != [] {
      AnsweredStep(carries, s, events[0]);
      AnsweredRun(carries, Next(carries, s, events[0]), events[1..]);
    }
  }

  /** The server answers every refresh token at most once, and never one that is used up: whichever of two
      presentations it answers, the other is refused or lost. */
  lemma OneAnswerPerToken(carries: bool, s: State, i: nat, j: nat)
    requires Reachable(carries, s) && i < |s.flights| && j < |s.flights|
    ensures |s.log| == |s.flights|
    ensures s.flights[i].Accepted? ==> s.log[i].token in s.consumed
    ensures s.flights[i].Accepted? && s.flights[j].Accepted? && s.log[i].token == s.log[j].token ==> i == j
  {
    var s0, events :| Initial(s0) && Legal(carries, s0, events) && Exec(carries, s0, events) == s;
    AnsweredRun(carries, s0, events);
  }

  // ---- Runs without faults --------------------------------------------------------------

  ghost predicate Unmarked(file: Loaded) {
    file.Saved? ==> file.session.refreshStartedAt.None?
  }

  ghost predicate QuietProc(proc: Proc) {
    match proc
    case Marking(a) => a.session.refreshStartedAt.None?
    case Ready(a, _) => a.session.refreshStartedAt.None?
    case Sent(a, _, _) => a.session.refreshStartedAt.None?
    case _ => true
  }

  /** Without a crash, a failed write or a lost answer, the marker is only there while its refresh runs. */
  ghost predicate Quiet(s: State) {
    s.faults == 0 ==>
      && QuietFile(s)
      && (forall p: nat :: QuietProc(Of(s, p)))
      && (forall i :: 0 <= i < |s.log| ==> !s.log[i].markerSeen)
  }

  ghost predicate QuietFile(s: State) {
    Unmarked(s.file) || (s.lock.Some? && (Of(s, s.lock.value).Ready? || Of(s, s.lock.value).Sent?))
  }

  ghost predicate QuietBefore(s: State, p: nat) {
    && QuietFile(s) && ProcInv(s, p, Of(s, p)) && QuietProc(Of(s, p))
    && (HoldsLock(Of(s, p)) <==> s.lock == Some(p))
  }

  /** What a faultless step of `p` does to the file, to itself and to the log. */
  ghost predicate QuietNext(s: State, p: nat, t: State) {
    && s.faults == 0 && QuietFile(t) && QuietProc(Of(t, p))
    && (forall q: nat :: q != p ==> Of(t, q) == Of(s, q))
    && (t.log == s.log || (|t.log| == |s.log| + 1 && t.log[..|s.log|] == s.log && !t.log[|s.log|].markerSeen))
  }

  lemma QuietInspected(s: State, p: nat, call: Call, now: int)
    requires QuietBefore(s, p) && Of(s, p).Holding? && s.faults == 0
    ensures QuietNext(s, p, Inspected(s, p, call, now))
  {
  }

  lemma QuietBeginning(s: State, e: Event)
    requires Enabled(true, s, e) && (e.BeginFresh? || e.BeginInstall? || e.BeginSignOut? || e.BeginRemember? || e.Lock?)
    requires QuietBefore(s, e.p) && Next(true, s, e).faults == 0
    ensures QuietNext(s, e.p, Next(true, s, e))
  {
  }

  lemma QuietReading(s: State, e: Event)
    requires Enabled(true, s, e) && e.ReadUnlocked?
    requires QuietBefore(s, e.p) && Next(true, s, e).faults == 0
    ensures QuietNext(s, e.p, Next(true, s, e))
  {
  }

  lemma QuietSignedOut(s: State, p: nat, ok: bool)
    requires QuietBefore(s, p) && Of(s, p).Holding? && SignedOut(s, p, ok).faults == 0
    ensures QuietNext(s, p, SignedOut(s, p, ok))
  {
  }

  lemma QuietRemembered(s: State, p: nat, uuid: nat, details: nat, ok: bool)
    requires QuietBefore(s, p) && Of(s, p).Holding? && Remembered(s, p, uuid, details, ok).faults == 0
    ensures QuietNext(s, p, Remembered(s, p, uuid, details, ok))
  {
  }

  lemma QuietExpiring(s: State, e: Event)
    requires Enabled(true, s, e) && e.SaveExpired?
    requires QuietBefore(s, e.p) && Next(true, s, e).faults == 0
    ensures QuietNext(s, e.p, Next(true, s, e))
  {
  }

  lemma QuietMarking(s: State, e: Event)
    requires Enabled(true, s, e) && (e.SaveMarker? || e.NoReply?)
    requires QuietBefore(s, e.p) && Next(true, s, e).faults == 0
    ensures QuietNext(s, e.p, Next(true, s, e))
  {
  }

  lemma QuietPresenting(s: State, e: Event)
    requires Enabled(true, s, e) && e.Present?
    requires QuietBefore(s, e.p) && Next(true, s, e).faults == 0
    ensures QuietNext(s, e.p, Next(true, s, e))
  {
  }

  lemma QuietReceiving(s: State, p: nat, a: Attempt, startedAt: int, reply: Flight, now: int, ok: bool)
    requires QuietBefore(s, p) && HoldsLock(Of(s, p)) && !reply.Travelling?
    requires Received(s, p, a, startedAt, reply, now, ok).faults == 0
    ensures QuietNext(s, p, Received(s, p, a, startedAt, reply, now, ok))
  {
    var t := Received(s, p, a, startedAt, reply, now, ok);
    SessionSteps.ReceiveStep(s, p, a, startedAt, reply, now, ok);
    ReceivedFile(s, p, a, startedAt, reply, now, ok);
    QuietLeft(s, p, t);
  }

  lemma ReceivedFile(s: State, p: nat, a: Attempt, startedAt: int, reply: Flight, now: int, ok: bool)
    requires !reply.Travelling? && s.lock == Some(p)
    ensures var t := Received(s, p, a, startedAt, reply, now, ok);
            && t.log == s.log && t.lock.None? && (t.faults == 0 ==> Unmarked(t.file) && s.faults == 0)
            && (Of(t, p).Finished? || (Of(t, p).Returned? && t.file == Saved(Of(t, p).session)))
  {
    if reply.Refused? || reply.answer.account.uuid != a.session.account.uuid {
    } else {
    }
  }

  /** A holder that leaves an unmarked file behind and adds nothing to the log. */
  lemma QuietLeft(s: State, p: nat, t: State)
    requires QuietBefore(s, p) && Own(s, t, p) && t.log == s.log && t.lock.None? && t.faults == 0 && Unmarked(t.file)
    requires AtRest(Of(t, p))
    ensures QuietNext(s, p, t)
  {
  }

  lemma QuietInstalling(s: State, e: Event)
    requires Enabled(true, s, e) && (e.Install? || e.Release?)
    requires QuietBefore(s, e.p) && Next(true, s, e).faults == 0
    ensures QuietNext(s, e.p, Next(true, s, e))
  {
  }

  lemma QuietRemoving(s: State, e: Event)
    requires Enabled(true, s, e) && e.FinishSignOut?
    requires QuietBefore(s, e.p) && Next(true, s, e).faults == 0
    ensures QuietNext(s, e.p, Next(true, s, e))
  {
  }

  lemma QuietLeaving(s: State, e: Event)
    requires Enabled(true, s, e) && (e.GiveUp? || e.Crash?)
    requires QuietBefore(s, e.p) && Next(true, s, e).faults == 0
    ensures QuietNext(s, e.p, Next(true, s, e))
  {
  }

  lemma QuietActor(s: State, e: Event)
    requires Enabled(true, s, e) && !e.ServerAccepts? && !e.ServerRefuses?
    requires QuietBefore(s, e.p) && Next(true, s, e).faults == 0
    ensures QuietNext(s, e.p, Next(true, s, e))
  {
    if e.Inspect? {
      QuietInspected(s, e.p, Of(s, e.p).job.call, e.now);
    } else if e.SaveExpired? {
      QuietExpiring(s, e);
    } else if e.Remember? {
      QuietRemembered(s, e.p, Of(s, e.p).job.uuid, Of(s, e.p).job.details, e.ok);
    } else if e.SaveMarker? || e.NoReply? {
      QuietMarking(s, e);
    } else if e.Present? {
      QuietPresenting(s, e);
    } else if e.Receive? {
      var proc := Of(s, e.p);
      QuietReceiving(s, e.p, proc.attempt, proc.startedAt, s.flights[proc.flight], e.now, e.ok);
    } else if e.Install? || e.Release? {
      QuietInstalling(s, e);
    } else if e.ReadUnlocked? {
      QuietReading(s, e);
    } else if e.SignOut? {
      QuietSignedOut(s, e.p, e.ok);
    } else if e.FinishSignOut? {
      QuietRemoving(s, e);
    } else if e.GiveUp? || e.Crash? {
      QuietLeaving(s, e);
    } else {
      QuietBeginning(s, e);
    }
  }

  lemma QuietAll(s: State, p: nat, t: State)
    requires Quiet(s) && QuietNext(s, p, t)
    ensures Quiet(t)
  {
    forall q: nat ensures QuietProc(Of(t, q)) {
      assert QuietProc(Of(s, q));
    }
    forall i | 0 <= i < |t.log| ensures !t.log[i].markerSeen {
      assert i < |s.log| ==> t.log[i] == t.log[..|s.log|][i];
    }
  }

  lemma FaultsStay(s: State, e: Event)
    requires Enabled(true, s, e)
    ensures s.faults <= Next(true, s, e).faults
  {
    if ByServer(e) {
      SessionSteps.ServerStep(true, s, e);
    } else {
      OwnStep(true, s, e);
    }
  }

  lemma QuietServer(s: State, e: Event)
    requires Quiet(s) && Enabled(true, s, e) && (e.ServerAccepts? || e.ServerRefuses?)
    ensures Quiet(Next(true, s, e))
  {
    assert forall p: nat :: Of(Next(true, s, e), p) == Of(s, p);
  }

  lemma QuietStep(s: State, e: Event)
    requires Inv(s) && Quiet(s) && Enabled(true, s, e)
    ensures Quiet(Next(true, s, e))
  {
    if e.ServerAccepts? || e.ServerRefuses? {
      QuietServer(s, e);
    } else if Next(true, s, e).faults == 0 {
      assert QuietBefore(s, e.p) by {
        FaultsStay(s, e);
        assert ProcInv(s, e.p, Of(s, e.p));
        assert HoldsLock(Of(s, e.p)) <==> s.lock == Some(e.p);
        assert QuietProc(Of(s, e.p));
      }
      QuietActor(s, e);
      QuietAll(s, e.p, Next(true, s, e));
    }
  }

  lemma {:induction false} QuietRun(s: State, events: seq<Event>)
    requires Inv(s) && Quiet(s) && Legal(true, s, events)
    ensures Inv(Exec(true, s, events)) && Quiet(Exec(true, s, events))
    decreases |events|
  {
    if events != [] {
      StepInv(s, events[0]);
      QuietStep(s, events[0]);
      QuietRun(Next(true, s, events[0]), events[1..]);
    }
  }

  /** With no crash, failed save or lost answer, no refresh token is ever presented twice. */
  lemma FaultlessRunsNeverRepeat(s0: State, events: seq<Event>, i: nat, j: nat)
    requires Initial(s0) && Unmarked(s0.file) && Legal(true, s0, events)
    requires var s := Exec(true, s0, events); s.faults == 0 && i < j < |s.log|
    ensures var log := Exec(true, s0, events).log; log[i].token != log[j].token && !log[j].alreadyConsumed
  {
    InitialInv(s0);
    QuietRun(s0, events);
    assert EntryInv(Exec(true, s0, events), Exec(true, s0, events).log[j]);
  }

  lemma {:induction false} ExtendRun(carries: bool, s: State, events: seq<Event>, e: Event)
    requires Legal(carries, s, events) && Enabled(carries, Exec(carries, s, events), e)
    ensures Legal(carries, s, events + [e])
    ensures Exec(carries, s, events + [e]) == Next(carries, Exec(carries, s, events), e)
    decreases |events|
  {
    if events == [] {
      assert (events + [e])[1..] == [];
    } else {
      assert (events + [e])[1..] == events[1..] + [e];
      ExtendRun(carries, Next(carries, s, events[0]), events[1..], e);
    }
  }
}
