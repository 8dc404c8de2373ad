/** The session a gateway builds from a token answer, and what it takes over from the one before. */
module GatewaySession {
  import opened Wrappers

  const MAX_SAFE: int := 9_007_199_254_740_991
  const REPLAY_WINDOW: int := 600_000
  const WEEK: int := 7 * 86_400_000

  /** The kind is open: anything but the two known kinds is refused. */
  datatype Actor = Actor(kind: string, publicId: string, rest: string)

  /** A token answer whose fields have the expected types; `None` stands for a field of another type. */
  datatype Tokens = Tokens(access: Option<string>, refresh: Option<string>, actor: Option<Actor>, org: Option<string>, expiresIn: Option<int>)

  datatype Session = Session(
    selectionOnly: bool, contextId: string, access: string, refresh: string, expires: int, deadline: int,
    actor: Actor, org: string, environmentKey: Option<string>, environmentName: Option<string>, loginState: Option<string>)

  datatype Error = InvalidAnswer | ContextChanged

  predicate IsSafe(n: int) {
    -MAX_SAFE <= n <= MAX_SAFE
  }

  predicate ValidOrg(org: string) {
    && 3 <= |org| <= 50
    && forall c :: c in org ==> 'a' <= c <= 'z' || '0' <= c <= '9' || c == '_' || c == '-'
  }

  predicate ValidTokens(t: Tokens, startedAt: int) {
    && t.access.Some? && t.access.value != "" && t.refresh.Some? && t.refresh.value != ""
    && t.actor.Some? && t.actor.value.kind in {"carbon", "silicon"} && t.actor.value.publicId != ""
    && t.org.Some? && ValidOrg(t.org.value)
    && t.expiresIn.Some? && IsSafe(t.expiresIn.value) && t.expiresIn.value > 0
    && IsSafe(startedAt + t.expiresIn.value * 1000)
  }

  predicate SameContext(s: Session, actor: Actor, org: string) {
    s.actor.kind == actor.kind && s.actor.publicId == actor.publicId && s.org == org
  }

  /** `now` and `newId` are the clock and the random id at the call. */
  function FromTokens(
    t: Tokens, startedAt: int, environmentKey: Option<string>, previous: Option<Session>, now: int, newId: string)
    : Result<Session, Error>
  {
    if !ValidTokens(t, startedAt) then Failure(InvalidAnswer)
    else if previous.Some? && !previous.value.selectionOnly && !SameContext(previous.value, t.actor.value, t.org.value) then
      Failure(ContextChanged)
    else
      var life := t.expiresIn.value * 1000 - REPLAY_WINDOW;
      var continued := previous.Some? && !previous.value.selectionOnly;
      Success(Session(
        false,
        if continued && previous.value.contextId != "" then previous.value.contextId else newId,
        t.access.value, t.refresh.value,
        startedAt + if life < 0 then 0 else life,
        if continued then previous.value.deadline else now + WEEK,
        t.actor.value, t.org.value, environmentKey,
        if previous.Some? then previous.value.environmentName else None,
        if previous.Some? then previous.value.loginState else None))
  }

  /** By ASCII code: a to z, 0 to 9, dash or underscore. */
  predicate InOrgName(c: char) {
    97 <= c as int <= 122 || 48 <= c as int <= 57 || c as int == 45 || c as int == 95
  }

  /** Everything is there: tokens, an account of a known kind, an organization's name of 3 to 50 lowercase
      letters, digits, dashes and underscores, and a lifetime that JavaScript can add exactly. */
  predicate WellFormed(t: Tokens, startedAt: int) {
    && t.access.Some? && |t.access.value| > 0 && t.refresh.Some? && |t.refresh.value| > 0
    && t.actor.Some? && |t.actor.value.publicId| > 0 && (t.actor.value.kind == "carbon" || t.actor.value.kind == "silicon")
    && t.org.Some? && 3 <= |t.org.value| <= 50
    && (forall i :: 0 <= i < |t.org.value| ==> InOrgName(t.org.value[i]))
    && t.expiresIn.Some? && 0 < t.expiresIn.value <= 9_007_199_254_740_991
    && -9_007_199_254_740_991 <= startedAt + 1000 * t.expiresIn.value <= 9_007_199_254_740_991
  }

  lemma OrgIff(org: string)
    ensures ValidOrg(org) <==> 3 <= |org| <= 50 && forall i :: 0 <= i < |org| ==> InOrgName(org[i])
  {
    assert forall c :: InOrgName(c) <==> 'a' <= c <= 'z' || '0' <= c <= '9' || c == '_' || c == '-';
    assert forall i :: 0 <= i < |org| ==> org[i] in org;
  }

  /** Exactly which answers make a session: well-formed ones and, after a sign-in, those for the same kind,
      account and organization. */
  lemma AcceptedIff(
      t: Tokens, startedAt: int, environmentKey: Option<string>, previous: Option<Session>, now: int, newId: string)
    ensures FromTokens(t, startedAt, environmentKey, previous, now, newId).Success? <==>
            && WellFormed(t, startedAt)
            && (previous.None? || previous.value.selectionOnly
                || (t.actor.Some? && t.org.Some? && t.actor.value.kind == previous.value.actor.kind
                    && t.actor.value.publicId == previous.value.actor.publicId && t.org.value == previous.value.org))
  {
    if t.org.Some? {
      OrgIff(t.org.value);
    }
  }

  /** What an accepted answer leaves in the session, token by token: it ends ten minutes before the answer's
      own end, but not before the request. A first sign-in, and one after a mere choice of environment,
      lasts seven days and gets a new context. */
  lemma SessionIsTheAnswers(
      t: Tokens, startedAt: int, environmentKey: Option<string>, previous: Option<Session>, now: int, newId: string)
    requires FromTokens(t, startedAt, environmentKey, previous, now, newId).Success?
    ensures var s := FromTokens(t, startedAt, environmentKey, previous, now, newId).value;
            && Some(s.access) == t.access && Some(s.refresh) == t.refresh && Some(s.actor) == t.actor && Some(s.org) == t.org
            && (t.expiresIn.value >= 600 ==> s.expires == startedAt + 1000 * (t.expiresIn.value - 600))
            && (t.expiresIn.value < 600 ==> s.expires == startedAt)
            && s.environmentKey == environmentKey && !s.selectionOnly
            && (previous.Some? ==> s.environmentName == previous.value.environmentName && s.loginState == previous.value.loginState)
            && (previous.None? ==> s.environmentName == None && s.loginState == None)
            && (previous.None? || previous.value.selectionOnly ==> s.deadline == now + 604_800_000 && s.contextId == newId)
  {}

  /** A session the gateway can refresh: a sign-in, not a mere choice of environment. */
  predicate Refreshable(s: Session) {
    !s.selectionOnly && s.contextId != ""
  }

  /** `after` is the same sign-in as `before` with other tokens. */
  predicate Continues(before: Session, after: Session) {
    && Refreshable(after) && after.contextId == before.contextId && SameContext(before, after.actor, after.org)
    && after.deadline == before.deadline && after.loginState == before.loginState
    && after.environmentKey == before.environmentKey && after.environmentName == before.environmentName
  }

  /** A refresh keeps context, account, organization, deadline, login state and environment. */
  lemma RefreshContinues(t: Tokens, startedAt: int, s: Session, now: int, newId: string)
    requires Refreshable(s)
    ensures var r := FromTokens(t, startedAt, s.environmentKey, Some(s), now, newId); r.Success? ==> Continues(s, r.value)
  {}

  /** Sessions of one sign-in agree with each other, however often each was refreshed. */
  lemma ContinuationsAgree(origin: Session, a: Session, b: Session)
    requires Continues(origin, a) && Continues(origin, b)
    ensures Continues(a, b) && Continues(b, a)
  {}

  /** The service may replay an answer for the whole replay window after it was issued. The session then
      ends before its token exactly when the token outlives the window, or was still good at the start. */
  lemma ReplayedTokensAreNotExtended(
      t: Tokens, issuedAt: int, startedAt: int, environmentKey: Option<string>, previous: Option<Session>,
      now: int, newId: string)
    requires issuedAt <= startedAt <= issuedAt + REPLAY_WINDOW
    requires FromTokens(t, startedAt, environmentKey, previous, now, newId).Success?
    ensures var session, end := FromTokens(t, startedAt, environmentKey, previous, now, newId).value,
                                issuedAt + t.expiresIn.value * 1000;
            session.expires <= end <==> t.expiresIn.value * 1000 >= REPLAY_WINDOW || startedAt <= end
  {}
}
