/** Commands refused with one access token: who does not refresh gets what the one that did saved. */
module SessionSharing {
  import opened Wrappers
  import opened SavedSession
  import opened SessionProtocol
  import opened SessionSteps
  import opened SessionSafety
  import opened SessionTheorems

  /** The session carries the tokens of a refresh answer. */
  ghost predicate Answered(flights: seq<Flight>, session: Session) {
    exists i :: 0 <= i < |flights| && flights[i].Accepted?
                && session.access == flights[i].answer.access && session.refresh == flights[i].answer.refresh
  }

  predicate SameTokens(a: Session, b: Session) {
    a.access == b.access && a.refresh == b.refresh
  }

  predicate Installs(proc: Proc) {
    (proc.Waiting? && proc.job.Installing?) || (proc.Holding? && proc.job.Installing?)
  }

  /** No sign-in is under way, and every session the file ever held has the first one's access token or an answer's tokens. */
  ghost predicate Origins(s: State, first: nat) {
    && (forall p: nat :: !Installs(Of(s, p)))
    && forall session :: session in s.saved ==> session.access == first || Answered(s.flights, session)
  }

  /** What one step may add to the sessions the file held. */
  ghost predicate AddsCopies(s: State, t: State) {
    && (forall i :: 0 <= i < |s.flights| && s.flights[i].Accepted? ==> i < |t.flights| && t.flights[i] == s.flights[i])
    && forall x :: x in t.saved ==> x in s.saved || Answered(s.flights, x) || exists y :: y in s.saved && SameTokens(x, y)
  }

  lemma SavesNothing(carries: bool, s: State, e: Event)
    requires Enabled(carries, s, e) && !e.SaveExpired? && !e.SaveMarker? && !e.Receive? && !e.Install? && !e.Remember? && !e.SignOut?
    ensures Next(carries, s, e).saved == s.saved
  {}

  lemma FlightsStay(carries: bool, s: State, e: Event)
    requires Enabled(carries, s, e) && !e.Receive? && !e.SignOut? && !e.Remember?
    ensures forall i :: 0 <= i < |s.flights| && s.flights[i].Accepted? ==>
                          i < |Next(carries, s, e).flights| && Next(carries, s, e).flights[i] == s.flights[i]
  {}

  lemma CopyOfFile(s: State, x: Session)
    requires Inv(s) && s.file.Saved? && SameTokens(x, s.file.session)
    ensures exists y :: y in s.saved && SameTokens(x, y)
  {
    assert s.file.session in s.saved;
  }

  lemma SavingAdds(s: State, e: Event)
    requires Inv(s) && Enabled(true, s, e) && (e.SaveExpired? || e.SaveMarker?)
    ensures AddsCopies(s, Next(true, s, e))
  {
    assert ProcInv(s, e.p, Of(s, e.p));
    FlightsStay(true, s, e);
    CopyOfFile(s, if e.SaveExpired? then Ended(Of(s, e.p).over) else Marked(Of(s, e.p).attempt.session, e.now));
  }

  lemma RememberingAdds(s: State, p: nat, uuid: nat, details: nat, ok: bool)
    requires Inv(s)
    ensures AddsCopies(s, Remembered(s, p, uuid, details, ok))
  {
    if s.file.Saved? {
      CopyOfFile(s, s.file.session.(account := Account(uuid, details)));
    }
  }

  lemma SigningOutAdds(s: State, p: nat, ok: bool)
    ensures AddsCopies(s, SignedOut(s, p, ok))
  {
    assert SignedOut(s, p, ok).saved == s.saved && SignedOut(s, p, ok).flights == s.flights;
  }

  lemma SavingNothingAdds(s: State, t: State)
    requires t.saved == s.saved
    requires forall i :: 0 <= i < |s.flights| && s.flights[i].Accepted? ==> i < |t.flights| && t.flights[i] == s.flights[i]
    ensures AddsCopies(s, t)
  {}

  lemma ReceivingAdds(s: State, p: nat, now: int, ok: bool)
    requires Inv(s) && Of(s, p).Sent? && Of(s, p).flight < |s.flights| && !s.flights[Of(s, p).flight].Travelling?
    ensures var proc := Of(s, p);
            AddsCopies(s, Received(s, p, proc.attempt, proc.startedAt, s.flights[proc.flight], now, ok))
  {
    var proc := Of(s, p);
    assert ProcInv(s, p, proc);
    CopyOfFile(s, Ended(Marked(proc.attempt.session, proc.startedAt)));
    if AcceptedFor(s.flights[proc.flight], proc.attempt.session.account.uuid) {
      var answer := s.flights[proc.flight].answer;
      assert Answered(s.flights, Applied(Marked(proc.attempt.session, proc.startedAt), answer, proc.startedAt, now));
    }
  }

  lemma StepAdds(s: State, e: Event)
    requires Inv(s) && Enabled(true, s, e) && !e.BeginInstall? && forall p: nat :: !Installs(Of(s, p))
    ensures AddsCopies(s, Next(true, s, e))
  {
    if e.SaveExpired? || e.SaveMarker? {
      SavingAdds(s, e);
    } else if e.Receive? {
      ReceivingAdds(s, e.p, e.now, e.ok);
    } else if e.Remember? {
      RememberingAdds(s, e.p, Of(s, e.p).job.uuid, Of(s, e.p).job.details, e.ok);
    } else if e.SignOut? {
      SigningOutAdds(s, e.p, e.ok);
    } else {
      assert e.Install? ==> Installs(Of(s, e.p));
      OthersAdd(s, e);
    }
  }

  lemma OthersAdd(s: State, e: Event)
    requires Enabled(true, s, e) && !e.SaveExpired? && !e.SaveMarker? && !e.Receive? && !e.Install? && !e.Remember? && !e.SignOut?
    ensures AddsCopies(s, Next(true, s, e))
  {
    SavesNothing(true, s, e);
    FlightsStay(true, s, e);
    SavingNothingAdds(s, Next(true, s, e));
  }

  lemma StepInstallsNothing(s: State, e: Event)
    requires Enabled(true, s, e) && !ByServer(e) && !e.BeginInstall? && !Installs(Of(s, e.p))
    ensures !Installs(Of(Next(true, s, e), e.p))
  {}

  lemma OriginsStep(s: State, e: Event, first: nat)
    requires Inv(s) && Origins(s, first) && Enabled(true, s, e) && !e.BeginInstall?
    ensures Origins(Next(true, s, e), first)
  {
    var t := Next(true, s, e);
    StepAdds(s, e);
    if ByServer(e) {
      SessionSteps.ServerStep(true, s, e);
    } else {
      OwnStep(true, s, e);
      StepInstallsNothing(s, e);
    }
    forall p: nat ensures !Installs(Of(t, p)) {
      assert !Installs(Of(s, p));
    }
    OriginsKept(s, t, first);
  }

  lemma OriginsKept(s: State, t: State, first: nat)
    requires Origins(s, first) && AddsCopies(s, t)
    ensures forall session :: session in t.saved ==> session.access == first || Answered(t.flights, session)
  {
    forall session | session in t.saved && session.access != first ensures Answered(t.flights, session) {
      assert Answered(s.flights, session) by {
        assert forall y :: y in s.saved && SameTokens(session, y) ==> Answered(s.flights, y);
      }
      var i :| 0 <= i < |s.flights| && s.flights[i].Accepted?
               && session.access == s.flights[i].answer.access && session.refresh == s.flights[i].answer.refresh;
      assert t.flights[i] == s.flights[i];
    }
  }

  lemma {:induction false} OriginsRun(s: State, events: seq<Event>, first: nat)
    requires Inv(s) && Origins(s, first) && Legal(true, s, events) && forall e :: e in events ==> !e.BeginInstall?
    ensures Origins(Exec(true, s, events), first)
    decreases |events|
  {
    if events != [] {
      StepInv(s, events[0]);
      OriginsStep(s, events[0], first);
      OriginsRun(Next(true, s, events[0]), events[1..], first);
    }
  }

  lemma SecondSawTheMarker(s: State, i: nat, j: nat)
    requires Inv(s) && i < j < |s.log| && s.log[i].rejected.Some? && s.log[i].rejected == s.log[j].rejected
    requires !s.log[i].needed && !s.log[j].needed
    ensures s.log[j].markerSeen
  {
    assert EntryInv(s, s.log[i]) && EntryInv(s, s.log[j]);
  }

  /** Any number of commands refused with the access token the file held, without faults or new sign-ins,
      while the margin is left: exactly one refresh is sent, and every command that gets a session gets
      the tokens that refresh was answered with. */
  lemma LosersGetTheWinnersSession(s0: State, events: seq<Event>, p: nat)
    requires Initial(s0) && s0.file.Saved? && s0.saved == {s0.file.session} && Unmarked(s0.file)
    requires Legal(true, s0, events) && forall e :: e in events ==> !e.BeginInstall?
    requires var s, refused := Exec(true, s0, events), s0.file.session.access;
             && s.faults == 0
             && (forall i :: 0 <= i < |s.log| ==> s.log[i].rejected == Some(refused) && !s.log[i].needed)
             && Of(s, p).Returned? && Of(s, p).call.rejected == Some(refused)
    ensures var s, session := Exec(true, s0, events), Of(Exec(true, s0, events), p).session;
            && |s.log| == |s.flights| == 1 && s.flights[0].Accepted?
            && session.access == s.flights[0].answer.access && session.refresh == s.flights[0].answer.refresh
  {
    var s, refused := Exec(true, s0, events), s0.file.session.access;
    InitialInv(s0);
    RunInv(s0, events);
    QuietRun(s0, events);
    OriginsRun(s0, events, refused);
    assert ProcInv(s, p, Of(s, p));
    if |s.log| > 1 {
      SecondSawTheMarker(s, 0, 1);
    }
  }
}
