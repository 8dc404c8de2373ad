/** Refresh answers that carry no new refresh token: which of them let a token be presented twice. */
module SessionAnswers {
  import opened Wrappers
  import opened SavedSession
  import opened SessionProtocol
  import opened SessionSafety
  import SessionTheorems

  // ---- One answer ------------------------------------------------------------------------

  /** `p` waits for the answer, and will take it as its account's. */
  predicate WaitsFor(s: State, p: nat, i: nat, answer: SignIn) {
    Of(s, p).Sent? && Of(s, p).flight == i && answer.account.uuid == Of(s, p).attempt.session.account.uuid
  }

  /** The server's answer carries a new refresh token, unless no command waits for it as its account's. */
  ghost predicate Carries(s: State, e: Event) {
    e.ServerAccepts? ==> e.answer.refresh.Some? || forall p: nat :: !WaitsFor(s, p, e.i, e.answer)
  }

  ghost predicate AllCarry(s: State, events: seq<Event>)
    requires Legal(false, s, events)
    decreases |events|
  {
    events == [] || (Carries(s, events[0]) && AllCarry(Next(false, s, events[0]), events[1..]))
  }

  lemma AnswerKeeps(s: State, e: Event)
    requires Inv(s) && Enabled(false, s, e) && e.ServerAccepts? && Carries(s, e)
    ensures Inv(Next(false, s, e))
  {
    var t := Next(false, s, e);
    forall i | 0 <= i < |t.log| ensures EntryInv(t, t.log[i]) {
      assert EntryInv(s, s.log[i]);
    }
    forall p: nat ensures ProcInv(t, p, Of(t, p)) && (HoldsLock(Of(t, p)) <==> t.lock == Some(p)) {
      assert ProcInv(s, p, Of(s, p)) && (WaitsFor(s, p, e.i, e.answer) ==> e.answer.refresh.Some?);
      assert HoldsLock(Of(s, p)) <==> s.lock == Some(p);
    }
  }

  lemma CarryingStep(s: State, e: Event)
    requires Inv(s) && Enabled(false, s, e) && Carries(s, e)
    ensures Inv(Next(false, s, e))
  {
    if e.ServerAccepts? {
      AnswerKeeps(s, e);
    } else {
      StepInv(s, e);
      assert Next(false, s, e) == Next(true, s, e);
    }
  }

  lemma {:induction false} CarryingRun(s: State, events: seq<Event>)
    requires Inv(s) && Legal(false, s, events) && AllCarry(s, events)
    ensures Inv(Exec(false, s, events))
    decreases |events|
  {
    if events != [] {
      CarryingStep(s, events[0]);
      CarryingRun(Next(false, s, events[0]), events[1..]);
    }
  }

  // ---- Steps of one command --------------------------------------------------------------

  /** `reached` follows every step that is not an accepting answer. */
  ghost predicate Closed(reached: State -> bool) {
    forall s, e :: reached(s) && Enabled(false, s, e) && !e.ServerAccepts? ==> reached(Next(false, s, e))
  }

  /** A command refused with the saved session's access token, at a time before the sign-in's end. */
  predicate Refreshes(session: Session, call: Call, now: int) {
    && !session.ended && session.refresh.Some? && call == Call(Some(session.access), None)
    && (session.refreshExpiresAt.Some? ==> now < session.refreshExpiresAt.value)
  }

  lemma Judged(reached: State -> bool, s: State, p: nat, call: Call, session: Session, now: int) returns (t: State)
    requires Closed(reached) && reached(s) && AtRest(Of(s, p)) && s.lock.None? && s.file == Saved(session)
    requires Refreshes(session, call, now) && session.access in s.grants
    ensures reached(t) && t == s.(lock := Some(p), procs := t.procs)
    ensures Of(t, p) == Marking(Attempt(call, session, session.refresh.value, NeedsRefresh(session, now)))
  {
    assert Enabled(false, s, BeginFresh(p, call));
    t := Next(false, s, BeginFresh(p, call));
    assert Enabled(false, t, ReadUnlocked(p, now));
    t := Next(false, t, ReadUnlocked(p, now));
    assert Enabled(false, t, Lock(p));
    t := Next(false, t, Lock(p));
    assert Enabled(false, t, Inspect(p, now));
    t := Next(false, t, Inspect(p, now));
  }

  /** A command goes from rest to a presented token. */
  lemma Refreshed(reached: State -> bool, s: State, p: nat, call: Call, session: Session, now: int) returns (t: State)
    requires Closed(reached) && reached(s) && AtRest(Of(s, p)) && s.lock.None? && s.file == Saved(session)
    requires Refreshes(session, call, now) && session.access in s.grants
    ensures reached(t)
    ensures t.log == s.log + [Presentation(session.refresh.value, session.access, call.rejected, NeedsRefresh(session, now),
                                           session.refreshStartedAt.Some?, session.refresh.value in s.consumed)]
    ensures Of(t, p) == Sent(Attempt(call, session, session.refresh.value, NeedsRefresh(session, now)), now, |s.flights|)
    ensures t.flights == s.flights + [Travelling]
    ensures t.consumed == s.consumed && t.grants == s.grants
  {
    t := Judged(reached, s, p, call, session, now);
    assert Enabled(false, t, SaveMarker(p, now, true));
    t := Next(false, t, SaveMarker(p, now, true));
    assert Enabled(false, t, Present(p));
    t := Next(false, t, Present(p));
  }

  /** A command saves an answer without a refresh token, and with it the old token. */
  lemma Kept(reached: State -> bool, s: State, p: nat, a: Attempt, at: int, answer: SignIn) returns (t: State)
    requires Closed(reached) && reached(s) && Of(s, p).Sent? && Of(s, p).attempt == a && Of(s, p).startedAt == at
    requires s.lock == Some(p) && Of(s, p).flight < |s.flights| && s.flights[Of(s, p).flight] == Accepted(answer)
    requires answer.refresh.None? && answer.account.uuid == a.session.account.uuid
    ensures reached(t) && AtRest(Of(t, p)) && t.lock.None?
    ensures t.file == Saved(Applied(Marked(a.session, at), answer, at, 0))
    ensures t.log == s.log && t.grants == s.grants
  {
    assert Enabled(false, s, Receive(p, 0, true));
    t := Next(false, s, Receive(p, 0, true));
  }

  function BeforeEnd(end: Option<int>): int {
    if end.Some? then end.value - 1 else 0
  }

  /** After an answer without a refresh token that is waited for, the same command can present the old
      token again without having seen a marker. */
  lemma TokenAgain(reached: State -> bool, s: State, e: Event, p: nat) returns (t: State)
    requires Inv(s) && Enabled(false, s, e) && e.ServerAccepts? && WaitsFor(s, p, e.i, e.answer) && e.answer.refresh.None?
    requires Closed(reached) && reached(Next(false, s, e))
    ensures reached(t) && !RepeatsAreMarked(t.log)
  {
    var a, at := Of(s, p).attempt, Of(s, p).startedAt;
    assert ProcInv(s, p, Of(s, p));
    assert HoldsLock(Of(s, p)) <==> s.lock == Some(p);
    t := Kept(reached, Next(false, s, e), p, a, at, e.answer);
    var session := t.file.session;
    t := Refreshed(reached, t, p, Call(Some(session.access), None), session, BeforeEnd(session.refreshExpiresAt));
    assert t.log[|s.log|].token == t.log[e.i].token && !t.log[|s.log|].markerSeen;
  }

  // ---- The exact conditions --------------------------------------------------------------

  /** Reached while every answer somebody waited for carried a refresh token. */
  ghost predicate ReachedCarrying(s: State) {
    exists s0, events :: Initial(s0) && Legal(false, s0, events) && AllCarry(s0, events) && Exec(false, s0, events) == s
  }

  lemma ReachedCarryingInv(s: State)
    requires ReachedCarrying(s)
    ensures Inv(s)
  {
    var s0, events :| Initial(s0) && Legal(false, s0, events) && AllCarry(s0, events) && Exec(false, s0, events) == s;
    InitialInv(s0);
    CarryingRun(s0, events);
  }

  lemma {:induction false} ExtendCarrying(s: State, events: seq<Event>, e: Event)
    requires Legal(false, s, events) && AllCarry(s, events)
    requires Enabled(false, Exec(false, s, events), e) && Carries(Exec(false, s, events), e)
    ensures Legal(false, s, events + [e]) && AllCarry(s, events + [e])
    decreases |events|
  {
    if events == [] {
      assert (events + [e])[1..] == [];
    } else {
      assert (events + [e])[1..] == events[1..] + [e];
      ExtendCarrying(Next(false, s, events[0]), events[1..], e);
    }
  }

  ghost predicate Continuation(t: State, u: State) {
    exists events :: Legal(false, t, events) && AllCarry(t, events) && Exec(false, t, events) == u
  }

  lemma ContinuationsAreClosed(t: State)
    ensures Closed(u => Continuation(t, u)) && Continuation(t, t)
  {
    assert Legal(false, t, []) && AllCarry(t, []) && Exec(false, t, []) == t;
    forall u, e | Continuation(t, u) && Enabled(false, u, e) && !e.ServerAccepts? ensures Continuation(t, Next(false, u, e)) {
      var events :| Legal(false, t, events) && AllCarry(t, events) && Exec(false, t, events) == u;
      ExtendCarrying(t, events, e);
      SessionTheorems.ExtendRun(false, t, events, e);
    }
  }

  /** Answer by answer: however things go on with answers that carry tokens, no token is presented again
      without a marker seen, if and only if this answer, too, carries one or nobody waits for it. */
  lemma SafeIffAnswerCarries(s: State, e: Event)
    requires ReachedCarrying(s) && Enabled(false, s, e)
    ensures (forall u :: Continuation(Next(false, s, e), u) ==> RepeatsAreMarked(u.log)) <==> Carries(s, e)
  {
    var t := Next(false, s, e);
    ReachedCarryingInv(s);
    if Carries(s, e) {
      CarryingStep(s, e);
      forall u | Continuation(t, u) ensures RepeatsAreMarked(u.log) {
        var events :| Legal(false, t, events) && AllCarry(t, events) && Exec(false, t, events) == u;
        CarryingRun(t, events);
      }
    } else {
      var p: nat :| WaitsFor(s, p, e.i, e.answer);
      ContinuationsAreClosed(t);
      var u := TokenAgain(u => Continuation(t, u), s, e, p);
    }
  }

  lemma ReachableNext(carries: bool, s: State, e: Event)
    requires Reachable(carries, s) && Enabled(carries, s, e)
    ensures Reachable(carries, Next(carries, s, e))
  {
    var s0, events :| Initial(s0) && Legal(carries, s0, events) && Exec(carries, s0, events) == s;
    SessionTheorems.ExtendRun(carries, s0, events, e);
  }

  lemma ReachableIsClosed()
    ensures Closed(s => Reachable(false, s)) && Closed(s => Reachable(false, s) && Inv(s))
  {
    forall s, e | Reachable(false, s) && Enabled(false, s, e) ensures Reachable(false, Next(false, s, e)) {
      ReachableNext(false, s, e);
    }
    forall s, e | Inv(s) && Enabled(false, s, e) && !e.ServerAccepts? ensures Inv(Next(false, s, e)) {
      CarryingStep(s, e);
    }
  }

  /** Two refreshes in a row by one command; the first answer carried no refresh token. */
  lemma RepeatWithoutNewToken() returns (s: State)
    ensures Reachable(false, s) && !RepeatsAreMarked(s.log)
  {
    var ada := Account(7, 0);
    var first := Session(0, Some(0), 0, None, None, ada, None, None, false);
    s := State(Saved(first), None, map[], [], {}, map[0 := Some(0)], map[0 := InFile], [], {first}, 0);
    assert Legal(false, s, []) && Exec(false, s, []) == s;
    InitialInv(s);
    ReachableIsClosed();
    s := Refreshed(s => Reachable(false, s) && Inv(s), s, 0, Call(Some(0), None), first, 0);
    var e := ServerAccepts(0, SignIn(1, None, 0, None, None, ada));
    ReachableNext(false, s, e);
    s := TokenAgain(s => Reachable(false, s), s, e, 0);
  }

  /** Over all runs of one server: the guarantee holds exactly if its answers always carry a new token. */
  lemma SafeIffAnswersCarryTokens(carries: bool)
    ensures (forall s :: Reachable(carries, s) ==> RepeatsAreMarked(s.log)) <==> carries
  {
    if carries {
      forall s | Reachable(carries, s) ensures RepeatsAreMarked(s.log) {
        SessionTheorems.PresentedAgainOnlyAfterMarker(s);
      }
    } else {
      var s := RepeatWithoutNewToken();
    }
  }
}
