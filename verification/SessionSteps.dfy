/** What every step of a command leaves alone, whatever state it is taken in. */
module SessionSteps {
  import opened SessionProtocol

  /** A step of `p` changes no other command and undoes no fault. */
  ghost predicate Own(s: State, t: State, p: nat) {
    t.procs == s.procs[p := Of(t, p)] && s.faults <= t.faults
  }

  predicate ByServer(e: Event) {
    e.ServerAccepts? || e.ServerRefuses?
  }

  predicate MayReturn(e: Event) {
    e.ReadUnlocked? || e.Inspect? || e.Receive?
  }

  lemma BeginStep(carries: bool, s: State, e: Event)
    requires Enabled(carries, s, e) && (e.BeginFresh? || e.BeginInstall? || e.BeginSignOut? || e.BeginRemember? || e.Lock?)
    ensures Own(s, Next(carries, s, e), e.p) && !Of(Next(carries, s, e), e.p).Returned?
  {}

  lemma ReadStep(carries: bool, s: State, e: Event)
    requires Enabled(carries, s, e) && (e.ReadUnlocked? || e.Inspect?)
    ensures Own(s, Next(carries, s, e), e.p)
  {}

  lemma WriteStep(carries: bool, s: State, e: Event)
    requires Enabled(carries, s, e) && (e.SaveExpired? || e.SaveMarker? || e.Present? || e.NoReply?)
    ensures Own(s, Next(carries, s, e), e.p) && !Of(Next(carries, s, e), e.p).Returned?
  {}

  lemma ReceiveStep(s: State, p: nat, a: Attempt, startedAt: int, reply: Flight, now: int, ok: bool)
    requires !reply.Travelling?
    ensures Own(s, Received(s, p, a, startedAt, reply, now, ok), p)
  {}

  lemma InstallStep(carries: bool, s: State, e: Event)
    requires Enabled(carries, s, e) && (e.Install? || e.Release? || e.FinishSignOut?)
    ensures Own(s, Next(carries, s, e), e.p) && !Of(Next(carries, s, e), e.p).Returned?
  {}

  lemma SignOutStep(s: State, p: nat, ok: bool)
    ensures Own(s, SignedOut(s, p, ok), p) && !Of(SignedOut(s, p, ok), p).Returned?
  {}

  lemma RememberStep(s: State, p: nat, uuid: nat, details: nat, ok: bool)
    ensures var t := Remembered(s, p, uuid, details, ok); Own(s, t, p) && !Of(t, p).Returned?
  {}

  lemma LeaveStep(carries: bool, s: State, e: Event)
    requires Enabled(carries, s, e) && (e.GiveUp? || e.Crash?)
    ensures Own(s, Next(carries, s, e), e.p) && !Of(Next(carries, s, e), e.p).Returned?
  {}

  lemma OwnStep(carries: bool, s: State, e: Event)
    requires Enabled(carries, s, e) && !ByServer(e)
    ensures Own(s, Next(carries, s, e), e.p)
    ensures Of(Next(carries, s, e), e.p).Returned? ==> MayReturn(e)
  {
    match e
    case ReadUnlocked(_, _) => ReadStep(carries, s, e);
    case Inspect(_, _) => ReadStep(carries, s, e);
    case SaveExpired(_, _) => WriteStep(carries, s, e);
    case SaveMarker(_, _, _) => WriteStep(carries, s, e);
    case Present(_) => WriteStep(carries, s, e);
    case NoReply(_) => WriteStep(carries, s, e);
    case Receive(p, now, ok) => ReceiveStep(s, p, Of(s, p).attempt, Of(s, p).startedAt, s.flights[Of(s, p).flight], now, ok);
    case Install(_, _) => InstallStep(carries, s, e);
    case Release(_) => InstallStep(carries, s, e);
    case FinishSignOut(_, _) => InstallStep(carries, s, e);
    case SignOut(p, ok) => SignOutStep(s, p, ok);
    case Remember(p, ok) => RememberStep(s, p, Of(s, p).job.uuid, Of(s, p).job.details, ok);
    case GiveUp(_) => LeaveStep(carries, s, e);
    case Crash(_) => LeaveStep(carries, s, e);
    case _ => BeginStep(carries, s, e);
  }

  lemma ServerStep(carries: bool, s: State, e: Event)
    requires Enabled(carries, s, e) && ByServer(e)
    ensures Next(carries, s, e).procs == s.procs && Next(carries, s, e).faults == s.faults
    ensures Next(carries, s, e).file == s.file && Next(carries, s, e).lock == s.lock
  {}
}
