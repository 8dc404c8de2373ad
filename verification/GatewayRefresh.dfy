/**
 * The gateway's shared refreshes: one exchange per refresh token, its result kept for two minutes. Calls
 * that join an exchange get the session built from that of the call that started it.
 */
module GatewayRefresh {
  import opened Wrappers
  import opened GatewaySession

  const KEPT: nat := 120_000
  const TIMEOUT: nat := 20_000
  const CAPACITY: nat := 1000

  /** Refresh tokens; the map's keys are keyed hashes of them, taken to be distinct for distinct tokens. */
  type Token = string

  datatype Entry = Entry(until: int, exchange: nat)

  datatype Progress = Pending | Fulfilled(result: Session, answer: Tokens) | Rejected | Cleaned

  /** An exchange, with the session of the call that started it; `answer` is what it was settled with. */
  datatype Exchange = Exchange(starter: Session, startedAt: int, progress: Progress) {
    function Token(): Token {
      starter.refresh
    }
  }

  /** A call that got an exchange to wait for, with its own session. */
  datatype Call = Call(session: Session, at: int, exchange: nat) {
    function Token(): Token {
      session.refresh
    }
  }

  datatype State = State(now: int, refreshes: map<Token, Entry>, exchanges: seq<Exchange>, calls: seq<Call>)

  /** What is kept of the map when a call comes in. */
  function Unexpired(refreshes: map<Token, Entry>, now: int): map<Token, Entry> {
    map token | token in refreshes && !(refreshes[token].until < now) :: refreshes[token]
  }

  datatype Answer = Joined(exchange: nat) | Started(exchange: nat) | Full

  /** What a call does to the map. */
  function Asked(refreshes: map<Token, Entry>, token: Token, now: int, started: nat): (map<Token, Entry>, Answer) {
    var kept := Unexpired(refreshes, now);
    if token in kept then (kept, Joined(kept[token].exchange))
    else if |kept| > CAPACITY then (kept, Full)
    else (kept[token := Entry(now + KEPT, started)], Started(started))
  }

  /** The part of a call that runs before it first waits. */
  function Called(s: State, session: Session): State {
    var (refreshes, answer) := Asked(s.refreshes, session.refresh, s.now, |s.exchanges|);
    match answer
    case Full => s.(refreshes := refreshes)
    case Joined(x) => s.(refreshes := refreshes, calls := s.calls + [Call(session, s.now, x)])
    case Started(x) =>
      s.(
        refreshes := refreshes,
        exchanges := s.exchanges + [Exchange(session, s.now, Pending)],
        calls := s.calls + [Call(session, s.now, x)])
  }

  /** After a failure the caller that started the exchange removes its entry, if it still is its own. */
  function CleanedUp(refreshes: map<Token, Entry>, token: Token, x: nat): map<Token, Entry> {
    if token in refreshes && refreshes[token].exchange == x then refreshes - {token} else refreshes
  }

  class Refreshes {
    var refreshes: map<Token, Entry>
    var started: nat

    /** The purge goes entry by entry over the map it deletes from. */
    method Purge(now: int)
      modifies this`refreshes
      ensures refreshes == Unexpired(old(refreshes), now)
    {
      var before := refreshes;
      var left := before.Keys;
      while left != {}
        invariant left <= before.Keys
        invariant refreshes == map token | token in before && (token in left || !(before[token].until < now)) :: before[token]
      {
        var token :| token in left;
        if before[token].until < now {
          refreshes := refreshes - {token};
        }
        left := left - {token};
      }
    }

    method Refresh(token: Token, now: int) returns (answer: Answer)
      modifies this
      ensures (refreshes, answer) == Asked(old(refreshes), token, now, old(started))
      ensures started == if answer.Started? then old(started) + 1 else old(started)
    {
      Purge(now);
      if token in refreshes {
        return Joined(refreshes[token].exchange);
      }
      if |refreshes| > CAPACITY {
        return Full;
      }
      refreshes := refreshes[token := Entry(now + KEPT, started)];
      started := started + 1;
      return Started(started - 1);
    }

    method CleanUp(token: Token, x: nat)
      modifies this`refreshes
      ensures refreshes == CleanedUp(old(refreshes), token, x)
    {
      if token in refreshes && refreshes[token].exchange == x {
        refreshes := refreshes - {token};
      }
    }
  }

  // ---- Runs ------------------------------------------------------------------------------

  /** `Settle` with the service's answer, or none when the exchange fails; `newId` is a random id. */
  datatype Event =
    | Refresh(session: Session)
    | Settle(x: nat, answer: Option<Tokens>, newId: string)
    | CleanUp(x: nat)
    | Pass(milliseconds: nat)

  /** An exchange is given up after its time limit, so time does not pass it while the exchange is pending. */
  ghost predicate Enabled(s: State, e: Event) {
    match e
    case Refresh(session) => Refreshable(session)
    case Settle(x, _, _) => x < |s.exchanges| && s.exchanges[x].progress.Pending?
    case CleanUp(x) => x < |s.exchanges| && s.exchanges[x].progress.Rejected?
    case Pass(d) =>
      forall x :: 0 <= x < |s.exchanges| && s.exchanges[x].progress.Pending? ==> s.now + d <= s.exchanges[x].startedAt + TIMEOUT
  }

  /** What an exchange comes to: a session built from the starter's, or a failure. */
  function Settled(x: Exchange, answer: Option<Tokens>, now: int, newId: string): Progress {
    if answer.None? then Rejected
    else
      match FromTokens(answer.value, x.startedAt, x.starter.environmentKey, Some(x.starter), now, newId)
      case Success(result) => Fulfilled(result, answer.value)
      case Failure(_) => Rejected
  }

  function Moved(s: State, x: nat, progress: Progress): State
    requires x < |s.exchanges|
  {
    s.(exchanges := s.exchanges[x := s.exchanges[x].(progress := progress)])
  }

  ghost function Next(s: State, e: Event): State
    requires Enabled(s, e)
  {
    match e
    case Refresh(session) => Called(s, session)
    case Settle(x, answer, newId) => Moved(s, x, Settled(s.exchanges[x], answer, s.now, newId))
    case CleanUp(x) => Moved(s, x, Cleaned).(refreshes := CleanedUp(s.refreshes, s.exchanges[x].Token(), x))
    case Pass(d) => s.(now := s.now + d)
  }

  ghost predicate Legal(s: State, events: seq<Event>)
    decreases |events|
  {
    events == [] || (Enabled(s, events[0]) && Legal(Next(s, events[0]), events[1..]))
  }

  ghost function Exec(s: State, events: seq<Event>): State
    requires Legal(s, events)
    decreases |events|
  {
    if events == [] then s else Exec(Next(s, events[0]), events[1..])
  }

  predicate Initial(s: State) {
    s.refreshes == map[] && s.exchanges == [] && s.calls == []
  }

  ghost predicate Reachable(s: State) {
    exists s0, events :: Initial(s0) && Legal(s0, events) && Exec(s0, events) == s
  }

  // ---- The invariant ---------------------------------------------------------------------

  predicate Failed(x: Exchange) {
    x.progress.Rejected? || x.progress.Cleaned?
  }

  /** Every entry is the entry of an exchange of its token. */
  ghost predicate EntriesInv(s: State) {
    forall token :: token in s.refreshes ==>
                      var entry := s.refreshes[token];
                      && entry.exchange < |s.exchanges|
                      && s.exchanges[entry.exchange].Token() == token
                      && s.exchanges[entry.exchange].startedAt + KEPT == entry.until
                      && !s.exchanges[entry.exchange].progress.Cleaned?
  }

  /** An exchange that did not fail is what its token's entry points to, until its two minutes are over. */
  ghost predicate KeptInv(s: State) {
    forall x :: 0 <= x < |s.exchanges| && !Failed(s.exchanges[x]) && s.now <= s.exchanges[x].startedAt + KEPT ==>
                  s.exchanges[x].Token() in s.refreshes && s.refreshes[s.exchanges[x].Token()].exchange == x
  }

  ghost predicate TimesInv(s: State) {
    && (forall x :: 0 <= x < |s.exchanges| ==> s.exchanges[x].startedAt <= s.now)
    && forall x :: 0 <= x < |s.exchanges| && s.exchanges[x].progress.Pending? ==> s.now <= s.exchanges[x].startedAt + TIMEOUT
  }

  predicate CallInv(s: State, call: Call) {
    call.exchange < |s.exchanges| && s.exchanges[call.exchange].Token() == call.Token()
    && s.exchanges[call.exchange].startedAt <= call.at <= s.exchanges[call.exchange].startedAt + KEPT
  }

  ghost predicate CallsInv(s: State) {
    forall i :: 0 <= i < |s.calls| ==> CallInv(s, s.calls[i])
  }

  /** An entry points to the latest exchange of its token, and later calls wait for later exchanges. */
  ghost predicate LatestInv(s: State) {
    && (forall token, x :: token in s.refreshes && 0 <= x < |s.exchanges| && s.exchanges[x].Token() == token ==>
                             x <= s.refreshes[token].exchange)
    && forall i, j :: 0 <= i < j < |s.calls| && s.calls[i].Token() == s.calls[j].Token() ==> s.calls[i].exchange <= s.calls[j].exchange
  }

  /** A token is exchanged again only after a failure or two minutes later. */
  ghost predicate SpacedInv(s: State) {
    forall x, y :: 0 <= x < y < |s.exchanges| && s.exchanges[x].Token() == s.exchanges[y].Token() && !Failed(s.exchanges[x]) ==>
                     s.exchanges[x].startedAt + KEPT < s.exchanges[y].startedAt
  }

  /** The session has the answer's tokens, and ends ten minutes before the access token, counted from the
      start of the exchange and no earlier than that. */
  predicate Carries(session: Session, answer: Tokens, startedAt: int) {
    && answer.access == Some(session.access) && answer.refresh == Some(session.refresh)
    && answer.actor == Some(session.actor) && answer.org == Some(session.org)
    && answer.expiresIn.Some?
    && session.expires == if answer.expiresIn.value <= 600 then startedAt else startedAt + 1000 * (answer.expiresIn.value - 600)
  }

  /** Results continue the session of the call that started their exchange, with the answer's tokens. */
  ghost predicate ResultsInv(s: State) {
    forall x :: 0 <= x < |s.exchanges| ==>
                  && Refreshable(s.exchanges[x].starter)
                  && (s.exchanges[x].progress.Fulfilled? ==>
                        && Continues(s.exchanges[x].starter, s.exchanges[x].progress.result)
                        && Carries(s.exchanges[x].progress.result, s.exchanges[x].progress.answer, s.exchanges[x].startedAt))
  }

  ghost predicate Inv(s: State) {
    && EntriesInv(s) && KeptInv(s) && TimesInv(s) && CallsInv(s) && LatestInv(s) && SpacedInv(s) && ResultsInv(s)
    && |s.refreshes| <= CAPACITY + 1
  }

  lemma FewerEntries(a: map<Token, Entry>, b: map<Token, Entry>)
    requires a.Keys <= b.Keys
    ensures |a| <= |b|
  {
    assert b.Keys == a.Keys + (b.Keys - a.Keys);
    assert |a| == |a.Keys| && |b| == |b.Keys|;
  }

  function Swept(s: State): State {
    s.(refreshes := Unexpired(s.refreshes, s.now))
  }

  /** One more call waits for the exchange its token's entry points to. */
  function Shared(s: State, session: Session): State
    requires session.refresh in s.refreshes
  {
    s.(calls := s.calls + [Call(session, s.now, s.refreshes[session.refresh].exchange)])
  }

  /** A call starts an exchange. */
  function Begun(s: State, session: Session): State {
    var x := |s.exchanges|;
    State(
      s.now, s.refreshes[session.refresh := Entry(s.now + KEPT, x)], s.exchanges + [Exchange(session, s.now, Pending)],
      s.calls + [Call(session, s.now, x)])
  }

  function SharedOrBegun(s: State, session: Session): State {
    if session.refresh in s.refreshes then Shared(s, session)
    else if |s.refreshes| > CAPACITY then s
    else Begun(s, session)
  }

  lemma CalledIs(s: State, session: Session)
    ensures Called(s, session) == SharedOrBegun(Swept(s), session)
  {}

  lemma PurgeKeeps(s: State)
    requires Inv(s)
    ensures Inv(Swept(s))
  {
    FewerEntries(Swept(s).refreshes, s.refreshes);
    FewerEntriesKeepCalls(s, Swept(s).refreshes);
  }

  lemma JoinKeepsCalls(s: State, session: Session)
    requires EntriesInv(s) && TimesInv(s) && CallsInv(s) && LatestInv(s)
    requires session.refresh in s.refreshes && s.now <= s.refreshes[session.refresh].until
    ensures CallsInv(Shared(s, session)) && LatestInv(Shared(s, session))
  {
    var after := Shared(s, session);
    forall i | 0 <= i < |after.calls| ensures CallInv(after, after.calls[i]) {
      assert i < |s.calls| ==> CallInv(s, s.calls[i]);
    }
    forall i | 0 <= i < |s.calls| && s.calls[i].Token() == session.refresh
      ensures s.calls[i].exchange <= s.refreshes[session.refresh].exchange
    {
      assert CallInv(s, s.calls[i]);
    }
  }

  lemma BeginKeepsEntries(s: State, session: Session)
    requires EntriesInv(s) && KeptInv(s) && session.refresh !in s.refreshes
    ensures EntriesInv(Begun(s, session)) && KeptInv(Begun(s, session))
  {}

  lemma BeginKeepsTimes(s: State, session: Session)
    requires KeptInv(s) && TimesInv(s) && SpacedInv(s) && session.refresh !in s.refreshes
    ensures TimesInv(Begun(s, session)) && SpacedInv(Begun(s, session))
  {}

  lemma BeginAddsOne(s: State, session: Session)
    requires session.refresh !in s.refreshes
    ensures |Begun(s, session).refreshes| == |s.refreshes| + 1
  {
    assert Begun(s, session).refreshes.Keys == s.refreshes.Keys + {session.refresh};
    assert |Begun(s, session).refreshes| == |Begun(s, session).refreshes.Keys|;
  }

  lemma BeginKeepsCalls(s: State, session: Session)
    requires CallsInv(s) && LatestInv(s) && session.refresh !in s.refreshes
    ensures CallsInv(Begun(s, session)) && LatestInv(Begun(s, session))
  {
    var after := Begun(s, session);
    forall i | 0 <= i < |after.calls| ensures CallInv(after, after.calls[i]) {
      assert i < |s.calls| ==> CallInv(s, s.calls[i]);
    }
    forall i | 0 <= i < |s.calls| ensures s.calls[i].exchange <= |s.exchanges| {
      assert CallInv(s, s.calls[i]);
    }
  }

  lemma BeginKeeps(s: State, session: Session)
    requires Inv(s) && Refreshable(session) && session.refresh !in s.refreshes && |s.refreshes| <= CAPACITY
    ensures Inv(Begun(s, session))
  {
    BeginKeepsEntries(s, session);
    BeginKeepsTimes(s, session);
    BeginAddsOne(s, session);
    BeginKeepsCalls(s, session);
    assert ResultsInv(Begun(s, session));
  }

  lemma JoinKeeps(s: State, session: Session)
    requires Inv(s) && session.refresh in s.refreshes && s.now <= s.refreshes[session.refresh].until
    ensures Inv(Shared(s, session))
  {
    JoinKeepsCalls(s, session);
  }

  lemma SharedOrBegunKeeps(s: State, session: Session)
    requires Inv(s) && Refreshable(session) && forall token :: token in s.refreshes ==> s.now <= s.refreshes[token].until
    ensures Inv(SharedOrBegun(s, session))
  {
    if session.refresh in s.refreshes {
      JoinKeeps(s, session);
    } else if |s.refreshes| <= CAPACITY {
      BeginKeeps(s, session);
    }
  }

  lemma CallKeeps(s: State, session: Session)
    requires Inv(s) && Refreshable(session)
    ensures Inv(Called(s, session))
  {
    PurgeKeeps(s);
    SharedOrBegunKeeps(Swept(s), session);
    CalledIs(s, session);
  }

  lemma ProgressKeepsCalls(s: State, x: nat, progress: Progress)
    requires CallsInv(s) && LatestInv(s) && x < |s.exchanges|
    ensures CallsInv(Moved(s, x, progress)) && LatestInv(Moved(s, x, progress))
  {
    var after := Moved(s, x, progress);
    assert forall i :: 0 <= i < |s.calls| ==> CallInv(s, s.calls[i]) && CallInv(after, s.calls[i]);
  }

  lemma ProgressKeepsTimes(s: State, x: nat, progress: Progress)
    requires TimesInv(s) && SpacedInv(s) && x < |s.exchanges| && !progress.Pending?
    requires s.exchanges[x].progress.Pending? || progress.Cleaned?
    ensures TimesInv(Moved(s, x, progress)) && SpacedInv(Moved(s, x, progress))
  {}

  lemma SettleKeepsEntries(s: State, x: nat, progress: Progress)
    requires EntriesInv(s) && KeptInv(s) && x < |s.exchanges| && s.exchanges[x].progress.Pending?
    requires progress.Fulfilled? || progress.Rejected?
    ensures EntriesInv(Moved(s, x, progress)) && KeptInv(Moved(s, x, progress))
  {}

  lemma AnswerIsCarried(x: Exchange, answer: Tokens, now: int, newId: string)
    ensures var progress := Settled(x, Some(answer), now, newId);
            progress.Fulfilled? ==> progress.answer == answer && Carries(progress.result, answer, x.startedAt)
  {
    var r := FromTokens(answer, x.startedAt, x.starter.environmentKey, Some(x.starter), now, newId);
    if r.Success? {
      SessionIsTheAnswers(answer, x.startedAt, x.starter.environmentKey, Some(x.starter), now, newId);
    }
  }

  lemma SettleKeeps(s: State, x: nat, answer: Option<Tokens>, newId: string)
    requires Inv(s) && x < |s.exchanges| && s.exchanges[x].progress.Pending?
    ensures Inv(Moved(s, x, Settled(s.exchanges[x], answer, s.now, newId)))
  {
    var progress := Settled(s.exchanges[x], answer, s.now, newId);
    ProgressKeepsCalls(s, x, progress);
    ProgressKeepsTimes(s, x, progress);
    SettleKeepsEntries(s, x, progress);
    if answer.Some? {
      RefreshContinues(answer.value, s.exchanges[x].startedAt, s.exchanges[x].starter, s.now, newId);
      AnswerIsCarried(s.exchanges[x], answer.value, s.now, newId);
    }
    assert ResultsInv(Moved(s, x, progress));
  }

  lemma FewerEntriesKeepCalls(s: State, refreshes: map<Token, Entry>)
    requires CallsInv(s) && LatestInv(s)
    requires forall token :: token in refreshes ==> token in s.refreshes && refreshes[token] == s.refreshes[token]
    ensures CallsInv(s.(refreshes := refreshes)) && LatestInv(s.(refreshes := refreshes))
  {
    var after := s.(refreshes := refreshes);
    assert forall i :: 0 <= i < |s.calls| ==> CallInv(s, s.calls[i]) && CallInv(after, s.calls[i]);
  }

  lemma CleanUpKeepsEntries(s: State, x: nat)
    requires EntriesInv(s) && KeptInv(s) && x < |s.exchanges| && s.exchanges[x].progress.Rejected?
    ensures EntriesInv(Next(s, CleanUp(x))) && KeptInv(Next(s, CleanUp(x)))
  {}

  lemma CleanUpKeepsCalls(s: State, x: nat)
    requires CallsInv(s) && LatestInv(s) && x < |s.exchanges| && s.exchanges[x].progress.Rejected?
    ensures CallsInv(Next(s, CleanUp(x))) && LatestInv(Next(s, CleanUp(x)))
  {
    ProgressKeepsCalls(s, x, Cleaned);
    FewerEntriesKeepCalls(Moved(s, x, Cleaned), CleanedUp(s.refreshes, s.exchanges[x].Token(), x));
  }

  lemma CleanUpKeepsTimes(s: State, x: nat)
    requires TimesInv(s) && SpacedInv(s) && x < |s.exchanges| && s.exchanges[x].progress.Rejected?
    ensures TimesInv(Next(s, CleanUp(x))) && SpacedInv(Next(s, CleanUp(x)))
  {
    ProgressKeepsTimes(s, x, Cleaned);
  }

  lemma CleanUpKeeps(s: State, x: nat)
    requires Inv(s) && x < |s.exchanges| && s.exchanges[x].progress.Rejected?
    ensures Inv(Next(s, CleanUp(x)))
  {
    FewerEntries(Next(s, CleanUp(x)).refreshes, s.refreshes);
    CleanUpKeepsCalls(s, x);
    CleanUpKeepsTimes(s, x);
    CleanUpKeepsEntries(s, x);
    assert ResultsInv(Next(s, CleanUp(x)));
  }

  lemma PassKeeps(s: State, d: nat)
    requires Inv(s) && Enabled(s, Pass(d))
    ensures Inv(s.(now := s.now + d))
  {
    assert forall i :: 0 <= i < |s.calls| ==> CallInv(s, s.calls[i]) && CallInv(s.(now := s.now + d), s.calls[i]);
  }

  lemma {:induction false} RunKeeps(s: State, events: seq<Event>)
    requires Inv(s) && Legal(s, events)
    ensures Inv(Exec(s, events))
    decreases |events|
  {
    if events != [] {
      match events[0] {
        case Refresh(session) => CallKeeps(s, session);
        case Settle(x, answer, newId) => SettleKeeps(s, x, answer, newId);
        case CleanUp(x) => CleanUpKeeps(s, x);
        case Pass(d) => PassKeeps(s, d);
      }
      RunKeeps(Next(s, events[0]), events[1..]);
    }
  }

  lemma ReachableInv(s: State)
    requires Reachable(s)
    ensures Inv(s)
  {
    var s0, events :| Initial(s0) && Legal(s0, events) && Exec(s0, events) == s;
    RunKeeps(s0, events);
  }

  // ---- The guarantees --------------------------------------------------------------------

  /** A refresh token is never in two exchanges at once. */
  lemma OneExchangeInFlight(s: State, x: nat, y: nat)
    requires Reachable(s) && x < |s.exchanges| && y < |s.exchanges| && s.exchanges[x].Token() == s.exchanges[y].Token()
    requires s.exchanges[x].progress.Pending? && s.exchanges[y].progress.Pending?
    ensures x == y
  {
    ReachableInv(s);
  }

  /** A token is exchanged again only when the exchange before failed or began more than two minutes ago. */
  lemma ExchangedAgainOnlyAfter(s: State, x: nat, y: nat)
    requires Reachable(s) && x < y < |s.exchanges| && s.exchanges[x].Token() == s.exchanges[y].Token()
    ensures Failed(s.exchanges[x]) || s.exchanges[x].startedAt + KEPT < s.exchanges[y].startedAt
  {
    ReachableInv(s);
  }

  /** Every call for a token that comes within two minutes of the start of an exchange that did not
      fail, and after a call that waits for it, waits for it too. */
  lemma CallsShareTheExchange(s: State, i: nat, j: nat)
    requires Reachable(s) && i < j < |s.calls| && s.calls[i].Token() == s.calls[j].Token()
    requires s.calls[i].exchange < |s.exchanges| && !Failed(s.exchanges[s.calls[i].exchange])
    requires s.calls[j].at <= s.exchanges[s.calls[i].exchange].startedAt + KEPT
    ensures s.calls[j].exchange == s.calls[i].exchange
  {
    ReachableInv(s);
    assert CallInv(s, s.calls[i]) && CallInv(s, s.calls[j]);
  }

  /** The map never holds more than 1001 entries. */
  lemma MapStaysSmall(s: State)
    requires Reachable(s)
    ensures |s.refreshes| <= 1001
  {
    ReachableInv(s);
  }

  /** A failure takes away its own entry only, and no exchange that is still good loses its entry. */
  lemma FailureRemovesItsOwn(s: State, x: nat, token: Token)
    requires Reachable(s) && x < |s.exchanges| && s.exchanges[x].progress.Rejected? && token in s.refreshes
    ensures token !in Next(s, CleanUp(x)).refreshes <==> s.refreshes[token].exchange == x
    ensures token in Next(s, CleanUp(x)).refreshes ==> Next(s, CleanUp(x)).refreshes[token] == s.refreshes[token]
  {
    ReachableInv(s);
  }

  // ---- The sessions calls receive --------------------------------------------------------

  predicate Receives(s: State, i: nat, result: Session) {
    && i < |s.calls| && s.calls[i].exchange < |s.exchanges|
    && s.exchanges[s.calls[i].exchange].progress.Fulfilled? && s.exchanges[s.calls[i].exchange].progress.result == result
  }

  /** Every call receives exactly the tokens its exchange was answered with, whoever started it. The next
      refresh with what it received joins or starts an exchange of the answered refresh token. */
  lemma ReceivedTokens(s: State, i: nat, result: Session)
    requires Reachable(s) && Receives(s, i, result)
    ensures var x := s.exchanges[s.calls[i].exchange];
            && Carries(result, x.progress.answer, x.startedAt) && Refreshable(result)
            && x.starter.refresh == s.calls[i].session.refresh
    ensures var later := Next(s, Refresh(result));
            && |later.calls| <= |s.calls| + 1
            && (|later.calls| == |s.calls| + 1 ==>
                  var call := later.calls[|s.calls|];
                  call.exchange < |later.exchanges|
                  && Some(later.exchanges[call.exchange].Token()) == s.exchanges[s.calls[i].exchange].progress.answer.refresh)
  {
    ReachableInv(s);
    assert CallInv(s, s.calls[i]);
    CallKeeps(s, result);
    var later := Next(s, Refresh(result));
    if |later.calls| == |s.calls| + 1 {
      assert CallInv(later, later.calls[|s.calls|]);
    }
  }

  /** Exactly when an exchange makes a session: the answer arrives, is well-formed, and is for the same kind,
      account and organization as the session that asked. */
  lemma FulfilledIff(s: State, x: nat, answer: Option<Tokens>, newId: string)
    requires Reachable(s) && Enabled(s, Settle(x, answer, newId))
    ensures Next(s, Settle(x, answer, newId)).exchanges[x].progress.Fulfilled? <==>
            var starter := s.exchanges[x].starter;
            && answer.Some? && WellFormed(answer.value, s.exchanges[x].startedAt)
            && answer.value.actor.value.kind == starter.actor.kind
            && answer.value.actor.value.publicId == starter.actor.publicId && answer.value.org.value == starter.org
  {
    ReachableInv(s);
    var starter := s.exchanges[x].starter;
    if answer.Some? {
      AcceptedIff(answer.value, s.exchanges[x].startedAt, starter.environmentKey, Some(starter), s.now, newId);
    }
  }

  /** What a call finds: an entry of its token that is not over shares its exchange; without one the call
      starts an exchange with its own session, unless more than a thousand other entries are not over. */
  lemma CallIsServedIff(s: State, session: Session)
    requires Reachable(s) && Refreshable(session)
    ensures var later, entry := Next(s, Refresh(session)), session.refresh in s.refreshes && s.now <= s.refreshes[session.refresh].until;
            var live := set token | token in s.refreshes && s.now <= s.refreshes[token].until;
            && (entry ==> later.exchanges == s.exchanges
                          && later.calls == s.calls + [Call(session, s.now, s.refreshes[session.refresh].exchange)])
            && (!entry && |live| <= 1000 ==>
                  later.exchanges == s.exchanges + [Exchange(session, s.now, Pending)]
                  && later.calls == s.calls + [Call(session, s.now, |s.exchanges|)]
                  && session.refresh in later.refreshes && later.refreshes[session.refresh].until == s.now + 120_000)
            && (!entry && |live| > 1000 ==> later.exchanges == s.exchanges && later.calls == s.calls)
  {
    var live := set token | token in s.refreshes && s.now <= s.refreshes[token].until;
    assert Unexpired(s.refreshes, s.now).Keys == live;
    assert |Unexpired(s.refreshes, s.now)| == |live|;
  }

  /** What a call receives is its own sign-in with new tokens, context, account, organization, deadline,
      login state and environment included, exactly when its session agrees in them with that of the
      call that started the exchange. */
  lemma ReceivedContinuesIff(s: State, i: nat, result: Session)
    requires Reachable(s) && Receives(s, i, result)
    ensures Continues(s.calls[i].session, result) <==>
            Continues(s.calls[i].session, s.exchanges[s.calls[i].exchange].starter)
  {
    ReachableInv(s);
  }

  /** The call that starts an exchange always receives its own sign-in. */
  lemma StarterContinues(s: State, i: nat, result: Session)
    requires Reachable(s) && Receives(s, i, result) && s.calls[i].session == s.exchanges[s.calls[i].exchange].starter
    ensures Continues(s.calls[i].session, result)
  {
    ReachableInv(s);
  }

  /** Sessions that go back to one sign-in can share exchanges: whichever of them starts one, what the call
      receives goes back to the same sign-in and continues the caller's own session. */
  lemma ReceivedGoesBack(s: State, i: nat, origin: Session, result: Session)
    requires Reachable(s) && Receives(s, i, result)
    requires Continues(origin, s.calls[i].session) && Continues(origin, s.exchanges[s.calls[i].exchange].starter)
    ensures Continues(origin, result) && Continues(s.calls[i].session, result)
  {
    ContinuationsAgree(origin, s.calls[i].session, s.exchanges[s.calls[i].exchange].starter);
    ReceivedContinuesIff(s, i, result);
  }

  /** `after` is what a call with `before` received from an exchange; its session and the one that started
      the exchange go back to one sign-in. */
  ghost predicate ReceivedFrom(s: State, i: nat, origin: Session, before: Session, after: Session) {
    && Reachable(s) && Receives(s, i, after) && s.calls[i].session == before
    && Continues(origin, before) && Continues(origin, s.exchanges[s.calls[i].exchange].starter)
  }

  ghost predicate Refreshed(before: Session, after: Session) {
    exists s, i: nat, origin :: ReceivedFrom(s, i, origin, before, after)
  }

  /** Along any chain of refreshes, started or joined, a sign-in keeps its context, account, organization,
      deadline, login state and environment. */
  lemma {:induction false} RefreshesKeepTheContext(chain: seq<Session>, k: nat)
    requires k < |chain| && Refreshable(chain[0])
    requires forall n :: 1 <= n < |chain| ==> Refreshed(chain[n - 1], chain[n])
    ensures Continues(chain[0], chain[k])
    decreases k
  {
    if k > 0 {
      RefreshesKeepTheContext(chain, k - 1);
      assert Refreshed(chain[k - 1], chain[k]);
      var s, i: nat, origin :| ReceivedFrom(s, i, origin, chain[k - 1], chain[k]);
      ReceivedGoesBack(s, i, origin, chain[k]);
    }
  }

  /** Two sessions with one refresh token and different deadlines, as a sign-in answered twice leaves them:
      a call with the second that joins the first's exchange receives the first's deadline. */
  lemma JoiningCanChangeTheDeadline(first: Session, second: Session, tokens: Tokens, now: int, newId: string)
    requires Refreshable(first) && second == first.(deadline := second.deadline) && first.deadline != second.deadline
    requires FromTokens(tokens, now, first.environmentKey, Some(first), now, newId).Success?
    ensures var s0, run := State(now, map[], [], []), [Refresh(first), Refresh(second), Settle(0, Some(tokens), newId)];
            && Legal(s0, run) && Exec(s0, run).calls == [Call(first, now, 0), Call(second, now, 0)]
            && exists result :: Receives(Exec(s0, run), 1, result) && result.deadline == first.deadline
                                && !Continues(second, result)
  {
    var s0, run := State(now, map[], [], []), [Refresh(first), Refresh(second), Settle(0, Some(tokens), newId)];
    var one := Called(s0, first);
    CalledIs(s0, first);
    assert Swept(s0).refreshes == map[];
    assert one == Begun(Swept(s0), first);
    var two := Called(one, second);
    CalledIs(one, second);
    assert Swept(one).refreshes == one.refreshes;
    assert two == Shared(Swept(one), second);
    var three := Next(two, run[2]);
    assert run[1..][1..] == [run[2]] && [run[2]][1..] == [];
    assert Legal(three, []) && Exec(three, []) == three;
    assert Legal(two, [run[2]]) && Exec(two, [run[2]]) == three;
    assert Legal(one, run[1..]) && Exec(one, run[1..]) == three;
    assert Exec(s0, run) == three;
    RefreshContinues(tokens, now, first, now, newId);
    assert Receives(three, 1, three.exchanges[0].progress.result);
  }
}
