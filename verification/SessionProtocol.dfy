/**
 Any number of commands sharing one session file, its exclusive lock and the token endpoint
 of Silicon Accounts, as a step relation. Every file access, every message and every crash is
 its own step, so a run of these steps is an interleaving of the commands.

 Three fields are history that no command reads: `log` (every presentation of a refresh
 token), `saved` (every session that was ever in the file) and `faults` (crashes, failed
 writes and lost answers). `grants` and `custody` record which refresh token was issued with
 which access token, and where a refresh token currently is.
 */
module SessionProtocol {
  import opened Wrappers
  import opened SavedSession

  datatype Job =
    | Refreshing(call: Call)
    | Installing(new_: Session)                     // `commit login` replacing the session
    | Leaving                                       // `commit logout`
    | Remembering(uuid: nat, details: nat)          // storing reported account details

  /** A refresh decided from `session`, read under the lock; `needed` is its own margin test. */
  datatype Attempt = Attempt(call: Call, session: Session, token: nat, needed: bool)

  datatype Proc =
    | Idle
    | Reading(call: Call)
    | Waiting(job: Job)
    | Holding(job: Job)
    | Expiring(over: Session)
    | Marking(attempt: Attempt)
    | Ready(attempt: Attempt, startedAt: int)
    | Sent(attempt: Attempt, startedAt: int, flight: nat)
    | Revoking
    | SigningOut
    | Returned(call: Call, session: Session)
    | Finished

  datatype Flight = Travelling | Accepted(answer: SignIn) | Refused

  datatype Presentation = Presentation(
    token: nat, access: nat, rejected: Option<nat>, needed: bool, markerSeen: bool, alreadyConsumed: bool)

  datatype Custodian = AtProcess(pid: nat) | InAnswer(flight: nat) | InFile | Spent

  datatype State = State(
    file: Loaded,
    lock: Option<nat>,
    procs: map<nat, Proc>,
    flights: seq<Flight>,
    consumed: set<nat>,
    grants: map<nat, Option<nat>>,
    custody: map<nat, Custodian>,
    log: seq<Presentation>,
    saved: set<Session>,
    faults: nat)

  function Of(s: State, p: nat): Proc {
    if p in s.procs then s.procs[p] else Idle
  }

  datatype Event =
    | BeginFresh(p: nat, call: Call)
    | BeginInstall(p: nat, signIn: SignIn, startedAt: int)
    | BeginSignOut(p: nat)
    | BeginRemember(p: nat, uuid: nat, details: nat)
    | ReadUnlocked(p: nat, now: int)
    | Lock(p: nat)
    | Inspect(p: nat, now: int)
    | SaveExpired(p: nat, ok: bool)
    | SaveMarker(p: nat, now: int, ok: bool)
    | Present(p: nat)
    | ServerAccepts(i: nat, answer: SignIn)
    | ServerRefuses(i: nat)
    | Receive(p: nat, now: int, ok: bool)
    | NoReply(p: nat)
    | Install(p: nat, ok: bool)
    | Release(p: nat)
    | SignOut(p: nat, ok: bool)
    | FinishSignOut(p: nat, removed: bool)
    | Remember(p: nat, ok: bool)
    | GiveUp(p: nat)
    | Crash(p: nat)

  predicate AtRest(proc: Proc) {
    proc.Idle? || proc.Returned? || proc.Finished?
  }

  predicate HoldsLock(proc: Proc) {
    proc.Holding? || proc.Expiring? || proc.Marking? || proc.Ready? || proc.Sent? || proc.Revoking? || proc.SigningOut?
  }

  /** Tokens the server has not issued yet. */
  predicate Unissued(s: State, answer: SignIn) {
    answer.access !in s.grants && (answer.refresh.Some? ==> answer.refresh.value !in s.custody)
  }

  /** `carries`: every successful refresh answer carries a new refresh token. */
  predicate Enabled(carries: bool, s: State, e: Event) {
    match e
    case BeginFresh(p, call) => AtRest(Of(s, p)) && (call.rejected.Some? ==> call.rejected.value in s.grants)
    case BeginInstall(p, signIn, _) => AtRest(Of(s, p)) && Unissued(s, signIn)
    case BeginSignOut(p) => AtRest(Of(s, p))
    case BeginRemember(p, _, _) => AtRest(Of(s, p))
    case ReadUnlocked(p, _) => Of(s, p).Reading?
    case Lock(p) => Of(s, p).Waiting? && s.lock.None?
    case Inspect(p, _) => Of(s, p).Holding? && Of(s, p).job.Refreshing?
    case SaveExpired(p, _) => Of(s, p).Expiring?
    case SaveMarker(p, _, _) => Of(s, p).Marking?
    case Present(p) => Of(s, p).Ready?
    case ServerAccepts(i, answer) =>
      && i < |s.flights| && i < |s.log| && s.flights[i].Travelling?
      && s.log[i].token !in s.consumed
      && Unissued(s, answer)
      && (carries ==> answer.refresh.Some?)
    case ServerRefuses(i) => i < |s.flights| && s.flights[i].Travelling?
    case Receive(p, _, _) => Of(s, p).Sent? && Of(s, p).flight < |s.flights| && !s.flights[Of(s, p).flight].Travelling?
    case NoReply(p) => Of(s, p).Ready? || Of(s, p).Sent?
    case Install(p, _) => Of(s, p).Holding? && Of(s, p).job.Installing?
    case Release(p) => Of(s, p).Revoking?
    case SignOut(p, _) => Of(s, p).Holding? && Of(s, p).job.Leaving?
    case FinishSignOut(p, _) => Of(s, p).SigningOut?
    case Remember(p, _) => Of(s, p).Holding? && Of(s, p).job.Remembering?
    case GiveUp(p) => Of(s, p).Reading? || Of(s, p).Waiting? || Of(s, p).Holding?
    case Crash(p) => !AtRest(Of(s, p))
  }

  function Become(s: State, p: nat, proc: Proc): State {
    s.(procs := s.procs[p := proc])
  }

  /** The process stops holding the lock (if it held it) and becomes `proc`. */
  function Leave(s: State, p: nat, proc: Proc): State {
    Become(if s.lock == Some(p) then s.(lock := None) else s, p, proc)
  }

  /** An atomic write of the session file, which leaves the file as it was when it fails. */
  function Write(s: State, session: Session, ok: bool): State {
    if ok then s.(file := Saved(session), saved := s.saved + {session}) else s.(faults := s.faults + 1)
  }

  function Remove(s: State, ok: bool): State {
    if ok then s.(file := Missing) else s.(faults := s.faults + 1)
  }

  function Place(s: State, token: Option<nat>, at: Custodian): State {
    if token.Some? then s.(custody := s.custody[token.value := at]) else s
  }

  function Issue(s: State, answer: SignIn, at: Custodian): State {
    Place(s.(grants := s.grants[answer.access := answer.refresh]), answer.refresh, at)
  }

  function Inspected(s: State, p: nat, call: Call, now: int): State {
    match Judge(s.file, call, now)
    case Refuse(_) => Leave(s, p, Finished)
    case Keep(kept) => Leave(s, p, Returned(call, kept))
    case Expire(over) => Become(s, p, Expiring(over))
    case Exchange(current, token) => Become(s, p, Marking(Attempt(call, current, token, NeedsRefresh(current, now))))
  }

  function Received(s: State, p: nat, a: Attempt, startedAt: int, reply: Flight, now: int, ok: bool): State
    requires !reply.Travelling?
  {
    var marked := Marked(a.session, startedAt);
    if reply.Refused? || reply.answer.account.uuid != a.session.account.uuid then
      Leave(Write(s, Ended(marked), ok), p, Finished)
    else
      var renewed := Applied(marked, reply.answer, startedAt, now);
      if ok then Leave(Place(Write(s, renewed, true), reply.answer.refresh, InFile), p, Returned(a.call, renewed))
      else Leave(Write(s, renewed, false), p, Finished)
  }

  function SignedOut(s: State, p: nat, ok: bool): State {
    match s.file
    case Missing => Leave(s, p, Finished)
    case Saved(stored) => if stored.ended then Leave(Remove(s, ok), p, Finished) else Become(s, p, SigningOut)
    case _ => Leave(Remove(s, ok), p, Finished)
  }

  function Remembered(s: State, p: nat, uuid: nat, details: nat, ok: bool): State {
    if s.file.Saved? && s.file.session.account.uuid == uuid && !s.file.session.ended then
      Leave(Write(s, s.file.session.(account := Account(uuid, details)), ok), p, Finished)
    else
      Leave(s, p, Finished)
  }

  function Next(carries: bool, s: State, e: Event): State
    requires Enabled(carries, s, e)
  {
    match e
    case BeginFresh(p, call) => Become(s, p, Reading(call))
    case BeginInstall(p, signIn, startedAt) =>
      Become(Issue(s, signIn, AtProcess(p)), p, Waiting(Installing(Started(signIn, startedAt))))
    case BeginSignOut(p) => Become(s, p, Waiting(Leaving))
    case BeginRemember(p, uuid, details) => Become(s, p, Waiting(Remembering(uuid, details)))
    case ReadUnlocked(p, now) =>
      var call := Of(s, p).call;
      (match Require(s.file)
       case Failure(_) => Become(s, p, Finished)
       case Success(session) =>
         if !SameAccount(session, call) then Become(s, p, Finished)
         else if call.rejected.None? && !NeedsRefresh(session, now) then Become(s, p, Returned(call, session))
         else Become(s, p, Waiting(Refreshing(call))))
    case Lock(p) => Become(s.(lock := Some(p)), p, Holding(Of(s, p).job))
    case Inspect(p, now) => Inspected(s, p, Of(s, p).job.call, now)
    case SaveExpired(p, ok) => Leave(Write(s, Ended(Of(s, p).over), ok), p, Finished)
    case SaveMarker(p, now, ok) =>
      var a := Of(s, p).attempt;
      if ok then Become(Write(s, Marked(a.session, now), true), p, Ready(a, now))
      else Leave(Write(s, Marked(a.session, now), false), p, Finished)
    case Present(p) =>
      var a := Of(s, p).attempt;
      var entry := Presentation(
        a.token, a.session.access, a.call.rejected, a.needed, a.session.refreshStartedAt.Some?, a.token in s.consumed);
      Become(
        Place(s.(log := s.log + [entry], flights := s.flights + [Travelling]), Some(a.token), Spent),
        p, Sent(a, Of(s, p).startedAt, |s.flights|))
    case ServerAccepts(i, answer) =>
      Issue(s, answer, InAnswer(i)).(flights := s.flights[i := Accepted(answer)], consumed := s.consumed + {s.log[i].token})
    case ServerRefuses(i) => s.(flights := s.flights[i := Refused])
    case Receive(p, now, ok) => Received(s, p, Of(s, p).attempt, Of(s, p).startedAt, s.flights[Of(s, p).flight], now, ok)
    case NoReply(p) => Leave(s.(faults := s.faults + 1), p, Finished)
    case Install(p, ok) =>
      var session := Of(s, p).job.new_;
      if ok then Become(Place(Write(s, session, true), session.refresh, InFile), p, Revoking)
      else Leave(Write(s, session, false), p, Finished)
    case Release(p) => Leave(s, p, Finished)
    case SignOut(p, ok) => SignedOut(s, p, ok)
    case FinishSignOut(p, removed) => Leave(if removed then s.(file := Missing) else s, p, Finished)
    case Remember(p, ok) => Remembered(s, p, Of(s, p).job.uuid, Of(s, p).job.details, ok)
    case GiveUp(p) => Leave(s, p, Finished)
    case Crash(p) => Leave(s.(faults := s.faults + 1), p, Finished)
  }

  predicate Legal(carries: bool, s: State, events: seq<Event>)
    decreases |events|
  {
    events == [] ||
    (Enabled(carries, s, events[0]) && Legal(carries, Next(carries, s, events[0]), events[1..]))
  }

  function Exec(carries: bool, s: State, events: seq<Event>): State
    requires Legal(carries, s, events)
    decreases |events|
  {
    if events == [] then s else Exec(carries, Next(carries, s, events[0]), events[1..])
  }

  /** A saved session belongs to one token answer; unless a refresh of it was started, its token is unused. */
  ghost predicate FileInv(s: State) {
    s.file.Saved? ==>
      var session := s.file.session;
      && session in s.saved
      && session.access in s.grants && s.grants[session.access] == session.refresh
      && (session.refresh.Some? ==>
            var token := session.refresh.value;
            && token in s.custody && (s.custody[token].InFile? || s.custody[token].Spent?)
            && (!session.ended && session.refreshStartedAt.None? ==> s.custody[token].InFile?))
  }

  ghost predicate ConsumedInv(s: State) {
    forall t :: t in s.consumed ==> t in s.custody && s.custody[t].Spent?
  }

  /** Any file and any past of the server, before any of the commands started. */
  ghost predicate Initial(s: State) {
    && s.lock.None? && s.procs == map[] && s.flights == [] && s.log == [] && s.faults == 0
    && FileInv(s) && ConsumedInv(s)
  }

  ghost predicate Reachable(carries: bool, s: State) {
    exists s0, events :: Initial(s0) && Legal(carries, s0, events) && Exec(carries, s0, events) == s
  }
}
