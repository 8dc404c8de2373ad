/**
 What every interleaving keeps. The invariant follows one idea: a refresh token the file
 holds without a started refresh has never been presented, because the marker is written
 before the token is sent and taken away only together with the token.
 */
module SessionSafety {
  import opened Wrappers
  import opened SavedSession
  import opened SessionProtocol

  ghost predicate LockInv(s: State) {
    forall p: nat :: HoldsLock(Of(s, p)) <==> s.lock == Some(p)
  }

  ghost predicate CallInv(s: State, call: Call) {
    call.rejected.Some? ==> call.rejected.value in s.grants
  }

  /** The attempt still describes the file, apart from the marker it wrote itself. */
  ghost predicate AttemptInv(s: State, a: Attempt) {
    && CallInv(s, a.call)
    && !a.session.ended && a.session.refresh == Some(a.token)
    && (a.needed || a.call.rejected == Some(a.session.access))
  }

  ghost predicate JobInv(s: State, p: nat, job: Job) {
    match job
    case Refreshing(call) => CallInv(s, call)
    case Installing(session) =>
      && !session.ended && session.refreshStartedAt.None?
      && session.access in s.grants && s.grants[session.access] == session.refresh
      && (session.refresh.Some? ==> session.refresh.value in s.custody && s.custody[session.refresh.value] == AtProcess(p))
    case _ => true
  }

  /** What an accepted answer for its account promises the command that waits for it. */
  ghost predicate AnswerInv(s: State, a: Attempt, flight: nat) {
    flight < |s.flights| && (AcceptedFor(s.flights[flight], a.session.account.uuid) ==>
      var answer := s.flights[flight].answer;
      && answer.refresh.Some? && answer.access in s.grants && s.grants[answer.access] == answer.refresh
      && answer.refresh.value in s.custody && s.custody[answer.refresh.value] == InAnswer(flight)
      && (a.call.rejected.Some? ==> a.call.rejected.value != answer.access))
  }

  predicate AcceptedFor(flight: Flight, uuid: nat) {
    flight.Accepted? && flight.answer.account.uuid == uuid
  }

  ghost predicate UsableInv(s: State, call: Call, session: Session) {
    && session in s.saved && !session.ended && SameAccount(session, call)
    && (call.rejected.Some? ==> call.rejected.value != session.access)
  }

  ghost predicate ProcInv(s: State, p: nat, proc: Proc) {
    match proc
    case Reading(call) => CallInv(s, call)
    case Waiting(job) => JobInv(s, p, job)
    case Holding(job) => JobInv(s, p, job)
    case Expiring(over) => s.file == Saved(over)
    case Marking(a) => AttemptInv(s, a) && s.file == Saved(a.session) && SameAccount(a.session, a.call)
    case Ready(a, at) =>
      && AttemptInv(s, a) && s.file == Saved(Marked(a.session, at)) && SameAccount(a.session, a.call)
      && (a.session.refreshStartedAt.None? ==> a.token in s.custody && s.custody[a.token].InFile?)
    case Sent(a, at, flight) =>
      && AttemptInv(s, a) && s.file == Saved(Marked(a.session, at)) && SameAccount(a.session, a.call)
      && AnswerInv(s, a, flight) && flight < |s.log| && s.log[flight].token == a.token
    case Returned(call, session) => UsableInv(s, call, session)
    case _ => true
  }

  ghost predicate EntryInv(s: State, e: Presentation) {
    && e.token in s.custody && s.custody[e.token].Spent?
    && e.access in s.grants && s.grants[e.access] == Some(e.token)
    && (e.alreadyConsumed ==> e.markerSeen)
    && (e.needed || e.rejected == Some(e.access))
  }

  ghost predicate LogInv(s: State) {
    && |s.log| == |s.flights|
    && (forall i :: 0 <= i < |s.log| ==> EntryInv(s, s.log[i]))
    && RepeatsAreMarked(s.log)
  }

  /** A token is presented a second time only by a command that read the marker of a started refresh. */
  ghost predicate RepeatsAreMarked(log: seq<Presentation>) {
    forall i, j :: 0 <= i < j < |log| && log[i].token == log[j].token ==> log[j].markerSeen
  }

  ghost predicate Inv(s: State) {
    && LockInv(s) && FileInv(s) && ConsumedInv(s) && LogInv(s)
    && forall p: nat :: ProcInv(s, p, Of(s, p))
  }

  lemma InitialInv(s: State)
    requires Initial(s)
    ensures Inv(s)
  {
  }

  // ---- One step ------------------------------------------------------------------------

  /** What a step of `p` leaves alone: issued pairs, used tokens and what other processes own. */
  ghost predicate Frame(s: State, t: State, p: nat) {
    && (forall a :: a in s.grants ==> a in t.grants && t.grants[a] == s.grants[a])
    && (forall x :: x in s.custody ==>
          && x in t.custody
          && (s.custody[x].Spent? || (s.custody[x].AtProcess? && s.custody[x].pid != p) ==> t.custody[x] == s.custody[x]))
    && s.saved <= t.saved && s.log <= t.log
    && (s.lock == Some(p) || (t.file == s.file && t.flights == s.flights &&
          forall x :: x in s.custody && s.custody[x].InAnswer? ==> t.custody[x] == s.custody[x]))
    && (s.lock == Some(p) ||
          forall x :: x in s.custody && s.custody[x].InFile? ==> t.custody[x] == s.custody[x])
  }

  /** `p` becomes `proc`, taking or giving back the lock accordingly. */
  ghost predicate Moves(s: State, t: State, p: nat, proc: Proc) {
    && t.procs == s.procs[p := proc]
    && if HoldsLock(proc) then t.lock == Some(p) && (s.lock == Some(p) || s.lock.None?)
       else t.lock == if s.lock == Some(p) then None else s.lock
  }

  lemma MoveLock(s: State, t: State, p: nat, proc: Proc)
    requires LockInv(s) && Moves(s, t, p, proc)
    ensures LockInv(t)
  {
    forall q: nat ensures HoldsLock(Of(t, q)) <==> t.lock == Some(q) {
      assert HoldsLock(Of(s, q)) <==> s.lock == Some(q);
      assert HoldsLock(Of(s, p)) <==> s.lock == Some(p);
    }
  }

  lemma OthersKeep(s: State, t: State, p: nat, q: nat)
    requires Inv(s) && Frame(s, t, p) && p != q
    ensures ProcInv(t, q, Of(s, q))
  {
    assert ProcInv(s, q, Of(s, q));
    assert HoldsLock(Of(s, q)) <==> s.lock == Some(q);
  }

  lemma ActorStep(s: State, t: State, p: nat, proc: Proc)
    requires Inv(s) && Frame(s, t, p) && Moves(s, t, p, proc)
    requires FileInv(t) && ConsumedInv(t) && LogInv(t) && ProcInv(t, p, proc)
    ensures Inv(t)
  {
    MoveLock(s, t, p, proc);
    forall q: nat ensures ProcInv(t, q, Of(t, q)) {
      if q != p {
        OthersKeep(s, t, p, q);
      }
    }
  }

  lemma SameLog(s: State, t: State, p: nat)
    requires LogInv(s) && Frame(s, t, p) && t.log == s.log && |t.flights| == |s.flights|
    ensures LogInv(t)
  {
    forall i | 0 <= i < |t.log| ensures EntryInv(t, t.log[i]) {
      assert EntryInv(s, s.log[i]);
    }
  }

  /** Steps that change nothing shared. */
  lemma PrivateStep(s: State, t: State, p: nat, proc: Proc)
    requires Inv(s) && Moves(s, t, p, proc)
    requires t == s.(procs := t.procs, lock := t.lock, faults := t.faults)
    requires ProcInv(t, p, proc)
    ensures Inv(t)
  {
    SameLog(s, t, p);
    ActorStep(s, t, p, proc);
  }

  lemma BeginningStep(s: State, e: Event)
    requires Inv(s) && Enabled(true, s, e)
    requires e.BeginFresh? || e.BeginSignOut? || e.BeginRemember? || e.Lock?
    ensures Inv(Next(true, s, e))
  {
    var t := Next(true, s, e);
    assert ProcInv(s, e.p, Of(s, e.p));
    assert HoldsLock(Of(s, e.p)) <==> s.lock == Some(e.p);
    PrivateStep(s, t, e.p, Of(t, e.p));
  }

  lemma ReadingStep(s: State, e: Event)
    requires Inv(s) && Enabled(true, s, e) && e.ReadUnlocked?
    ensures Inv(Next(true, s, e))
  {
    var t := Next(true, s, e);
    assert ProcInv(s, e.p, Of(s, e.p));
    assert HoldsLock(Of(s, e.p)) <==> s.lock == Some(e.p);
    PrivateStep(s, t, e.p, Of(t, e.p));
  }

  lemma LeavingStep(s: State, e: Event)
    requires Inv(s) && Enabled(true, s, e) && (e.GiveUp? || e.Crash? || e.Release? || e.NoReply?)
    ensures Inv(Next(true, s, e))
  {
    var t := Next(true, s, e);
    assert HoldsLock(Of(s, e.p)) <==> s.lock == Some(e.p);
    PrivateStep(s, t, e.p, Of(t, e.p));
  }

  lemma BeginInstallStep(s: State, e: Event)
    requires Inv(s) && Enabled(true, s, e) && e.BeginInstall?
    ensures Inv(Next(true, s, e))
  {
    var t := Next(true, s, e);
    assert HoldsLock(Of(s, e.p)) <==> s.lock == Some(e.p);
    SameLog(s, t, e.p);
    ActorStep(s, t, e.p, Of(t, e.p));
  }

  lemma InspectStep(s: State, e: Event)
    requires Inv(s) && Enabled(true, s, e) && e.Inspect?
    ensures Inv(Next(true, s, e))
  {
    var t := Next(true, s, e);
    assert ProcInv(s, e.p, Of(s, e.p));
    assert HoldsLock(Of(s, e.p)) <==> s.lock == Some(e.p);
    PrivateStep(s, t, e.p, Of(t, e.p));
  }

  lemma SaveStep(s: State, e: Event)
    requires Inv(s) && Enabled(true, s, e) && e.SaveExpired?
    ensures Inv(Next(true, s, e))
  {
    var t := Next(true, s, e);
    assert ProcInv(s, e.p, Of(s, e.p));
    assert HoldsLock(Of(s, e.p)) <==> s.lock == Some(e.p);
    SameLog(s, t, e.p);
    ActorStep(s, t, e.p, Of(t, e.p));
  }

  lemma MarkStep(s: State, e: Event)
    requires Inv(s) && Enabled(true, s, e) && e.SaveMarker?
    ensures Inv(Next(true, s, e))
  {
    var t := Next(true, s, e);
    assert ProcInv(s, e.p, Of(s, e.p));
    assert HoldsLock(Of(s, e.p)) <==> s.lock == Some(e.p);
    SameLog(s, t, e.p);
    ActorStep(s, t, e.p, Of(t, e.p));
  }

  lemma SignOutKeepsLog(s: State, p: nat, ok: bool)
    requires Inv(s) && Of(s, p).Holding? && Of(s, p).job.Leaving?
    ensures var t := SignedOut(s, p, ok); Frame(s, t, p) && FileInv(t) && ConsumedInv(t) && LogInv(t)
  {
    assert HoldsLock(Of(s, p)) <==> s.lock == Some(p);
    SameLog(s, SignedOut(s, p, ok), p);
  }

  lemma SignOutStep(s: State, p: nat, ok: bool)
    requires Inv(s) && Of(s, p).Holding? && Of(s, p).job.Leaving?
    ensures Inv(SignedOut(s, p, ok))
  {
    var t := SignedOut(s, p, ok);
    assert HoldsLock(Of(s, p)) <==> s.lock == Some(p);
    SignOutKeepsLog(s, p, ok);
    ActorStep(s, t, p, Of(t, p));
  }

  lemma FinishSignOutStep(s: State, e: Event)
    requires Inv(s) && Enabled(true, s, e) && e.FinishSignOut?
    ensures Inv(Next(true, s, e))
  {
    var t := Next(true, s, e);
    assert ProcInv(s, e.p, Of(s, e.p));
    assert HoldsLock(Of(s, e.p)) <==> s.lock == Some(e.p);
    SameLog(s, t, e.p);
    ActorStep(s, t, e.p, Of(t, e.p));
  }

  lemma RememberStep(s: State, e: Event)
    requires Inv(s) && Enabled(true, s, e) && e.Remember?
    ensures Inv(Next(true, s, e))
  {
    var t := Next(true, s, e);
    assert ProcInv(s, e.p, Of(s, e.p));
    assert HoldsLock(Of(s, e.p)) <==> s.lock == Some(e.p);
    SameLog(s, t, e.p);
    ActorStep(s, t, e.p, Of(t, e.p));
  }

  lemma InstallStep(s: State, e: Event)
    requires Inv(s) && Enabled(true, s, e) && e.Install?
    ensures Inv(Next(true, s, e))
  {
    var t := Next(true, s, e);
    assert ProcInv(s, e.p, Of(s, e.p));
    assert HoldsLock(Of(s, e.p)) <==> s.lock == Some(e.p);
    SameLog(s, t, e.p);
    ActorStep(s, t, e.p, Of(t, e.p));
  }

  lemma ReceiveKeepsLog(s: State, p: nat, now: int, ok: bool)
    requires Inv(s) && Of(s, p).Sent? && Of(s, p).flight < |s.flights| && !s.flights[Of(s, p).flight].Travelling?
    ensures var proc := Of(s, p);
            var t := Received(s, p, proc.attempt, proc.startedAt, s.flights[proc.flight], now, ok);
            Frame(s, t, p) && FileInv(t) && ConsumedInv(t) && LogInv(t)
  {
    var proc := Of(s, p);
    assert ProcInv(s, p, proc);
    assert HoldsLock(proc) <==> s.lock == Some(p);
    SameLog(s, Received(s, p, proc.attempt, proc.startedAt, s.flights[proc.flight], now, ok), p);
  }

  lemma ReceiveMoves(s: State, p: nat, now: int, ok: bool)
    requires Of(s, p).Sent? && s.lock == Some(p) && Of(s, p).flight < |s.flights| && !s.flights[Of(s, p).flight].Travelling?
    requires ProcInv(s, p, Of(s, p))
    ensures var proc := Of(s, p);
            var t := Received(s, p, proc.attempt, proc.startedAt, s.flights[proc.flight], now, ok);
            Moves(s, t, p, Of(t, p)) && ProcInv(t, p, Of(t, p))
  {}

  lemma ReceiveStep(s: State, p: nat, now: int, ok: bool)
    requires Inv(s) && Of(s, p).Sent? && Of(s, p).flight < |s.flights| && !s.flights[Of(s, p).flight].Travelling?
    ensures var proc := Of(s, p);
            Inv(Received(s, p, proc.attempt, proc.startedAt, s.flights[proc.flight], now, ok))
  {
    var proc := Of(s, p);
    var t := Received(s, p, proc.attempt, proc.startedAt, s.flights[proc.flight], now, ok);
    assert ProcInv(s, p, proc);
    assert HoldsLock(proc) <==> s.lock == Some(p);
    ReceiveKeepsLog(s, p, now, ok);
    ReceiveMoves(s, p, now, ok);
    ActorStep(s, t, p, Of(t, p));
  }

  lemma PresentStep(s: State, e: Event)
    requires Inv(s) && Enabled(true, s, e) && e.Present?
    ensures Inv(Next(true, s, e))
  {
    var t := Next(true, s, e);
    var a := Of(s, e.p).attempt;
    assert ProcInv(s, e.p, Of(s, e.p));
    assert HoldsLock(Of(s, e.p)) <==> s.lock == Some(e.p);
    forall i | 0 <= i < |s.log| ensures EntryInv(t, t.log[i]) && (t.log[i].token == a.token ==> t.log[|s.log|].markerSeen) {
      assert EntryInv(s, s.log[i]);
      assert t.log[i] == s.log[i];
    }
    ActorStep(s, t, e.p, Of(t, e.p));
  }

  lemma ServerStep(s: State, e: Event)
    requires Inv(s) && Enabled(true, s, e) && (e.ServerAccepts? || e.ServerRefuses?)
    ensures Inv(Next(true, s, e))
  {
    var t := Next(true, s, e);
    forall i | 0 <= i < |t.log| ensures EntryInv(t, t.log[i]) {
      assert EntryInv(s, s.log[i]);
    }
    forall p: nat ensures ProcInv(t, p, Of(t, p)) && (HoldsLock(Of(t, p)) <==> t.lock == Some(p)) {
      assert ProcInv(s, p, Of(s, p));
      assert HoldsLock(Of(s, p)) <==> s.lock == Some(p);
    }
  }

  lemma StepInv(s: State, e: Event)
    requires Inv(s) && Enabled(true, s, e)
    ensures Inv(Next(true, s, e))
  {
    match e
    case BeginInstall(_, _, _) => BeginInstallStep(s, e);
    case Inspect(_, _) => InspectStep(s, e);
    case SaveExpired(_, _) => SaveStep(s, e);
    case SaveMarker(_, _, _) => MarkStep(s, e);
    case SignOut(p, ok) => SignOutStep(s, p, ok);
    case FinishSignOut(_, _) => FinishSignOutStep(s, e);
    case Remember(_, _) => RememberStep(s, e);
    case Install(_, _) => InstallStep(s, e);
    case Receive(p, now, ok) => ReceiveStep(s, p, now, ok);
    case Present(_) => PresentStep(s, e);
    case ServerAccepts(_, _) => ServerStep(s, e);
    case ServerRefuses(_) => ServerStep(s, e);
    case ReadUnlocked(_, _) => ReadingStep(s, e);
    case GiveUp(_) => LeavingStep(s, e);
    case Crash(_) => LeavingStep(s, e);
    case Release(_) => LeavingStep(s, e);
    case NoReply(_) => LeavingStep(s, e);
    case _ => BeginningStep(s, e);
  }
}
