/**
 The saved sign-in of one CLI profile: what its file can hold, how a token answer is applied
 to it, and what a command decides from it. Tokens, account uuids and the account's display
 details are opaque numbers; times are Unix seconds in the program's 64-bit range.
 */
module SavedSession {
  import opened Wrappers

  const REFRESH_MARGIN: int := 60
  const I64_MAX: int := 0x7FFF_FFFF_FFFF_FFFF
  const I64_MIN: int := -0x8000_0000_0000_0000

  datatype Account = Account(uuid: nat, details: nat)

  /** A finished sign-in or refresh, as Silicon Accounts answers it. */
  datatype SignIn = SignIn(
    access: nat, refresh: Option<nat>, lifetime: nat, endsAt: Option<int>, scope: Option<nat>, account: Account)

  datatype Session = Session(
    access: nat,
    refresh: Option<nat>,
    expiresAt: int,
    refreshExpiresAt: Option<int>,
    scope: Option<nat>,
    account: Account,
    refreshedAt: Option<int>,
    refreshStartedAt: Option<int>,
    ended: bool)

  /** What the session file holds. */
  datatype Loaded = Missing | Saved(session: Session) | Legacy | Unreadable

  datatype Error =
    | NotSignedIn | LegacySession | UnreadableSession | SessionEnded | ProfileChanged
    | NotRefreshable | SaveFailed | NoAnswer

  function SaturatingAdd(a: int, b: int): int {
    if a + b > I64_MAX then I64_MAX else if a + b < I64_MIN then I64_MIN else a + b
  }

  predicate NeedsRefresh(s: Session, now: int) {
    s.expiresAt <= SaturatingAdd(now, REFRESH_MARGIN)
  }

  /** The session after a token answer that was asked for at `startedAt` arrives at `now`. */
  function Applied(s: Session, answer: SignIn, startedAt: int, now: int): Session {
    Session(
      answer.access,
      if answer.refresh.Some? then answer.refresh else s.refresh,
      SaturatingAdd(startedAt, if answer.lifetime <= I64_MAX then answer.lifetime else 0),
      if answer.endsAt.Some? then answer.endsAt else s.refreshExpiresAt,
      if answer.scope.Some? then answer.scope else s.scope,
      answer.account,
      Some(now),
      None,
      s.ended)
  }

  /** Overflow only ever shortens a session: it never looks valid for longer than its answer said. */
  lemma ExpiryIsNeverLate(s: Session, answer: SignIn, startedAt: int, now: int)
    requires I64_MIN <= startedAt <= I64_MAX
    ensures var after := Applied(s, answer, startedAt, now);
            && after.expiresAt <= startedAt + answer.lifetime
            && (startedAt + answer.lifetime <= I64_MAX && answer.lifetime <= I64_MAX ==> after.expiresAt == startedAt + answer.lifetime)
            && (answer.lifetime > I64_MAX ==> startedAt <= now < I64_MAX - REFRESH_MARGIN ==> NeedsRefresh(after, now))
  {}

  /** The session a finished sign-in starts. */
  function Started(answer: SignIn, startedAt: int): Session {
    Applied(Session(0, None, 0, None, None, answer.account, None, None, false), answer, startedAt, 0).(refreshedAt := None)
  }

  function Marked(s: Session, startedAt: int): Session {
    s.(refreshStartedAt := Some(startedAt))
  }

  function Ended(s: Session): Session {
    s.(refreshStartedAt := None, ended := true)
  }

  /** What a command may use: a saved session that has not ended. */
  function Require(file: Loaded): Result<Session, Error> {
    match file
    case Saved(s) => if s.ended then Failure(SessionEnded) else Success(s)
    case Missing => Failure(NotSignedIn)
    case Legacy => Failure(LegacySession)
    case Unreadable => Failure(UnreadableSession)
  }

  /** A request for a usable session: the access token the API refused, and the account it must still be. */
  datatype Call = Call(rejected: Option<nat>, expectUuid: Option<nat>)

  predicate SameAccount(s: Session, call: Call) {
    call.expectUuid.Some? ==> call.expectUuid.value == s.account.uuid
  }

  datatype Verdict =
    | Refuse(error: Error)   // nothing usable is saved
    | Keep(kept: Session)    // the saved session can be used as it is
    | Expire(over: Session)  // the sign-in reached its end
    | Exchange(current: Session, token: nat)

  /** What a command holding the lock decides from the file it reads at `now`. */
  function Judge(file: Loaded, call: Call, now: int): Verdict {
    match Require(file)
    case Failure(e) => Refuse(e)
    case Success(s) =>
      if !SameAccount(s, call) then Refuse(ProfileChanged)
      else
        var replaced := call.rejected.Some? && call.rejected.value != s.access;
        if !NeedsRefresh(s, now) && (call.rejected.None? || replaced) then Keep(s)
        else if s.refresh.None? then Refuse(NotRefreshable)
        else if s.refreshExpiresAt.Some? && s.refreshExpiresAt.value <= now then Expire(s)
        else Exchange(s, s.refresh.value)
  }

  // ---- The same in numbers ---------------------------------------------------------------

  /** The margin is a minute, wherever the clock stands. */
  lemma NeedsRefreshIff(s: Session, now: int)
    requires s.expiresAt <= I64_MAX && I64_MIN <= now
    ensures NeedsRefresh(s, now) <==> s.expiresAt - now <= 60
  {}

  predicate Live(file: Loaded, call: Call) {
    file.Saved? && !file.session.ended && (call.expectUuid.None? || call.expectUuid == Some(file.session.account.uuid))
  }

  /** The session can no longer be used as it is: a minute or less is left, or its very token was refused. */
  predicate Stale(s: Session, call: Call, now: int) {
    s.expiresAt - now <= 60 || call.rejected == Some(s.access)
  }

  predicate EndedBy(s: Session, now: int) {
    s.refreshExpiresAt.Some? && s.refreshExpiresAt.value <= now
  }

  /** Exactly when each verdict is given, whatever the order of the tests. */
  lemma JudgeIff(file: Loaded, call: Call, now: int, token: nat)
    requires I64_MIN <= now && (file.Saved? ==> file.session.expiresAt <= I64_MAX)
    ensures !Live(file, call) ==> Judge(file, call, now).Refuse?
    ensures Live(file, call) ==>
              var s, verdict := file.session, Judge(file, call, now);
              && (verdict == Keep(s) <==> !Stale(s, call, now))
              && (verdict == Refuse(NotRefreshable) <==> Stale(s, call, now) && s.refresh.None?)
              && (verdict == Expire(s) <==> Stale(s, call, now) && s.refresh.Some? && EndedBy(s, now))
              && (verdict == Exchange(s, token) <==> Stale(s, call, now) && s.refresh == Some(token) && !EndedBy(s, now))
  {}

  /** The record `apply` rewrites field by field. */
  class StoredSession {
    var access: nat
    var refresh: Option<nat>
    var expiresAt: int
    var refreshExpiresAt: Option<int>
    var scope: Option<nat>
    var account: Account
    var refreshedAt: Option<int>
    var refreshStartedAt: Option<int>
    var ended: bool

    function Value(): Session
      reads this
    {
      Session(access, refresh, expiresAt, refreshExpiresAt, scope, account, refreshedAt, refreshStartedAt, ended)
    }

    constructor (s: Session)
      ensures Value() == s
    {
      access, refresh, expiresAt, refreshExpiresAt := s.access, s.refresh, s.expiresAt, s.refreshExpiresAt;
      scope, account, refreshedAt := s.scope, s.account, s.refreshedAt;
      refreshStartedAt, ended := s.refreshStartedAt, s.ended;
    }

    method Apply(answer: SignIn, startedAt: int, now: int)
      modifies this
      ensures Value() == Applied(old(Value()), answer, startedAt, now)
    {
      access := answer.access;
      if answer.refresh.Some? {
        refresh := answer.refresh;
      }
      expiresAt := SaturatingAdd(startedAt, if answer.lifetime <= I64_MAX then answer.lifetime else 0);
      refreshExpiresAt := if answer.endsAt.Some? then answer.endsAt else refreshExpiresAt;
      if answer.scope.Some? {
        scope := answer.scope;
      }
      account := answer.account;
      refreshedAt := Some(now);
      refreshStartedAt := None;
    }

    method Mark(startedAt: int)
      modifies this
      ensures Value() == Marked(old(Value()), startedAt)
    {
      refreshStartedAt := Some(startedAt);
    }

    method End()
      modifies this
      ensures Value() == Ended(old(Value()))
    {
      refreshStartedAt := None;
      ended := true;
    }
  }
}
