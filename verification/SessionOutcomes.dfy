/** What each step leaves for the commands after it: when they find a session, and when the sign-in is over. */
module SessionOutcomes {
  import opened Wrappers
  import opened SavedSession
  import opened SessionProtocol
  import opened SessionSafety

  /** `p` waits for a refresh, and the server's answer for its account has arrived. */
  ghost predicate Answered(s: State, p: nat, answer: SignIn) {
    && Inv(s) && Of(s, p).Sent? && Of(s, p).flight < |s.flights| && s.flights[Of(s, p).flight] == Accepted(answer)
    && answer.account.uuid == Of(s, p).attempt.session.account.uuid
  }

  function Newer<T>(answered: Option<T>, kept: Option<T>): Option<T> {
    if answered.Some? then answered else kept
  }

  /** The renewed session, field by field: everything the answer says, and what it leaves out as it was. */
  lemma RenewedSession(s: State, p: nat, answer: SignIn, now: int)
    requires Answered(s, p, answer)
    ensures var old_, at, t := Of(s, p).attempt.session, Of(s, p).startedAt, Next(true, s, Receive(p, now, true));
            && t.file.Saved? && Of(t, p) == Returned(Of(s, p).attempt.call, t.file.session)
            && t.file.session.access == answer.access && t.file.session.account == answer.account
            && t.file.session.refresh == Newer(answer.refresh, old_.refresh)
            && t.file.session.refreshExpiresAt == Newer(answer.endsAt, old_.refreshExpiresAt)
            && t.file.session.scope == Newer(answer.scope, old_.scope)
            && t.file.session.refreshedAt == Some(now) && t.file.session.refreshStartedAt == None && !t.file.session.ended
            && t.file.session.expiresAt <= I64_MAX
            && (I64_MIN <= at && at + answer.lifetime <= I64_MAX && answer.lifetime <= I64_MAX ==>
                  t.file.session.expiresAt == at + answer.lifetime)
  {
    assert ProcInv(s, p, Of(s, p));
  }

  /** The renewed sign-in ends when the answer says, or when it did before if the answer does not say: a
      later command that cannot use the session as it is ends it from that moment on, and exchanges its
      refresh token until then. */
  lemma RenewedSignInEnds(s: State, p: nat, answer: SignIn, now: int, call: Call, later: int)
    requires Answered(s, p, answer) && I64_MIN <= later
    requires var file := Next(true, s, Receive(p, now, true)).file;
             file.Saved? && Live(file, call) && Stale(file.session, call, later)
    ensures var verdict := Judge(Next(true, s, Receive(p, now, true)).file, call, later);
            && (verdict.Expire? || verdict.Exchange?)
            && (answer.endsAt.Some? ==> (verdict.Expire? <==> answer.endsAt.value <= later))
            && (answer.endsAt.None? ==> (verdict.Expire? <==> EndedBy(Of(s, p).attempt.session, later)))
            && (verdict.Exchange? && answer.refresh.Some? ==> verdict.token == answer.refresh.value)
  {
    assert ProcInv(s, p, Of(s, p));
    RenewedSession(s, p, answer, now);
    var session := Next(true, s, Receive(p, now, true)).file.session;
    JudgeIff(Saved(session), call, later, session.refresh.value);
  }

  /** A refused refresh, an answer for another account and a sign-in past its end are the end: every later
      command is refused. When the write fails the file stays as it was, marker included. */
  lemma EndedForEveryCommand(s: State, e: Event, call: Call, later: int)
    requires Inv(s) && Enabled(true, s, e) && (e.SaveExpired? || e.Receive?)
    requires e.Receive? ==> !AcceptedFor(s.flights[Of(s, e.p).flight], Of(s, e.p).attempt.session.account.uuid)
    ensures e.ok ==> Judge(Next(true, s, e).file, call, later) == Refuse(SessionEnded)
    ensures !e.ok ==> Next(true, s, e).file == s.file
  {
    assert ProcInv(s, e.p, Of(s, e.p));
  }

  /** The session a finished sign-in saves holds what the sign-in brought, unmarked and unended. */
  lemma InstalledSession(s: State, p: nat, signIn: SignIn, startedAt: int)
    requires I64_MIN <= startedAt && Enabled(true, s, BeginInstall(p, signIn, startedAt))
    ensures var waiting := Next(true, s, BeginInstall(p, signIn, startedAt));
            && Of(waiting, p).Waiting? && Of(waiting, p).job.Installing?
            && var session := Of(waiting, p).job.new_;
               && session.access == signIn.access && session.refresh == signIn.refresh && session.account == signIn.account
               && session.refreshExpiresAt == signIn.endsAt && session.scope == signIn.scope
               && session.refreshStartedAt == None && session.refreshedAt == None && !session.ended
               && (startedAt + signIn.lifetime <= I64_MAX && signIn.lifetime <= I64_MAX ==>
                     session.expiresAt == startedAt + signIn.lifetime)
  {}

  /** The new session is in the file before the old one's tokens are revoked, or the file stays as it was. */
  lemma InstalledFile(s: State, p: nat, ok: bool)
    requires Enabled(true, s, Install(p, ok))
    ensures var t := Next(true, s, Install(p, ok));
            if ok then t.file == Saved(Of(s, p).job.new_) && Of(t, p).Revoking? else t.file == s.file && Of(t, p).Finished?
  {}

  /** Reported details are stored only for the account that is still signed in, and nothing else changes. */
  lemma RememberedDetails(s: State, p: nat, ok: bool)
    requires Of(s, p).Holding? && Of(s, p).job.Remembering?
    ensures var uuid, details, after := Of(s, p).job.uuid, Of(s, p).job.details, Next(true, s, Remember(p, ok)).file;
            if ok && s.file.Saved? && !s.file.session.ended && s.file.session.account.uuid == uuid then
              after.Saved? && after.session.account == Account(uuid, details)
              && after.session.(account := s.file.session.account) == s.file.session
            else after == s.file
  {}

  /** Signing out removes every kind of file; a live session stays until its revocation was tried. */
  lemma SignedOutFile(s: State, p: nat, ok: bool)
    requires Of(s, p).Holding? && Of(s, p).job.Leaving?
    ensures var t := Next(true, s, SignOut(p, ok));
            if s.file.Saved? && !s.file.session.ended then
              t.file == s.file && Of(t, p).SigningOut?
              && Next(true, t, FinishSignOut(p, true)).file == Missing && Next(true, t, FinishSignOut(p, false)).file == s.file
            else t.file == (if ok then Missing else s.file) && Of(t, p).Finished?
  {}
}
