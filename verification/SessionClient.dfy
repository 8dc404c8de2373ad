/**
 `fresh` as the program runs it: it reads the file, waits for the lock, reads again, marks, exchanges and
 saves. Other commands act while it waits for the lock, and they and the server while its token is on
 its way; whatever they do, what it does to the file and what it returns is a run of the session protocol.
 */
module SessionClient {
  import opened Wrappers
  import opened SavedSession
  import opened SessionProtocol
  import opened SessionSteps
  import opened SessionSafety
  import SessionTheorems

  /** What one call meets: its clock readings, the file under the lock, the fate of its writes, and the
      state of its request when it stops waiting for an answer. */
  datatype Surroundings = Surroundings(
    readAt: int, met: Loaded, lockedAt: int, startedAt: int, savedAt: int, markerSaved: bool, resultSaved: bool, reply: Flight)

  // ---- What others may do meanwhile ------------------------------------------------------

  predicate ByOthers(events: seq<Event>, p: nat) {
    forall e :: e in events ==> ByServer(e) || e.p != p
  }

  ghost predicate Goes(s: State, run: seq<Event>, t: State) {
    Legal(true, s, run) && Exec(true, s, run) == t
  }

  lemma OthersStep(s: State, p: nat, e: Event)
    requires Enabled(true, s, e) && ByOthers([e], p)
    ensures Of(Next(true, s, e), p) == Of(s, p)
  {
    assert e in [e];
    if ByServer(e) {
      SessionSteps.ServerStep(true, s, e);
    } else {
      OwnStep(true, s, e);
    }
  }

  /** Nobody else writes the file or takes the lock while `p` holds it. */
  lemma HeldStep(s: State, p: nat, e: Event)
    requires Inv(s) && s.lock == Some(p) && Enabled(true, s, e) && ByOthers([e], p)
    ensures Next(true, s, e).file == s.file && Next(true, s, e).lock == Some(p)
  {
    assert e in [e];
    if !ByServer(e) {
      assert HoldsLock(Of(s, e.p)) <==> s.lock == Some(e.p);
    }
  }

  lemma {:induction false} OthersRun(s: State, p: nat, events: seq<Event>)
    requires Inv(s) && Legal(true, s, events) && ByOthers(events, p)
    ensures Inv(Exec(true, s, events)) && Of(Exec(true, s, events), p) == Of(s, p)
    ensures s.lock == Some(p) ==> Exec(true, s, events).file == s.file && Exec(true, s, events).lock == Some(p)
    decreases |events|
  {
    if events != [] {
      StepInv(s, events[0]);
      OthersStep(s, p, events[0]);
      if s.lock == Some(p) {
        HeldStep(s, p, events[0]);
      }
      OthersRun(Next(true, s, events[0]), p, events[1..]);
    }
  }

  // ---- Runs of the call itself -----------------------------------------------------------

  /** One more step of the run from `s` to `t`. */
  lemma Extend(s: State, run: seq<Event>, t: State, e: Event) returns (u: State, longer: seq<Event>)
    requires Goes(s, run, t) && Enabled(true, t, e)
    ensures longer == run + [e] && u == Next(true, t, e) && Goes(s, longer, u)
    ensures Inv(t) ==> Inv(u)
  {
    SessionTheorems.ExtendRun(true, s, run, e);
    u, longer := Next(true, t, e), run + [e];
    if Inv(t) {
      StepInv(t, e);
    }
  }

  lemma {:induction false} JoinRuns(s: State, run: seq<Event>, t: State, rest: seq<Event>, u: State)
    requires Goes(s, run, t) && Goes(t, rest, u)
    ensures Goes(s, run + rest, u)
    decreases |run|
  {
    if run == [] {
      assert run + rest == rest;
    } else {
      assert (run + rest)[1..] == run[1..] + rest;
      JoinRuns(Next(true, s, run[0]), run[1..], t, rest, u);
    }
  }

  lemma Alone(s: State, e: Event) returns (t: State, run: seq<Event>)
    requires Enabled(true, s, e)
    ensures run == [e] && t == Next(true, s, e) && Goes(s, run, t)
    ensures Inv(s) ==> Inv(t)
  {
    run, t := [e], Next(true, s, e);
    assert run[1..] == [] && Exec(true, t, []) == t;
    if Inv(s) {
      StepInv(s, e);
    }
  }

  /** The call is over: the file as given, the lock not held by it, and what it returned. */
  ghost predicate Over(t: State, p: nat, call: Call, file: Loaded, r: Result<Session, Error>) {
    t.file == file && t.lock != Some(p) && Of(t, p) == if r.Success? then Returned(call, r.value) else Finished
  }

  /** The first read sends the call to wait for the lock. */
  predicate MustWait(file: Loaded, call: Call, now: int) {
    && Require(file).Success? && SameAccount(Require(file).value, call)
    && (call.rejected.Some? || NeedsRefresh(Require(file).value, now))
  }

  lemma EndsAtFirstRead(s: State, p: nat, call: Call, now: int, r: Result<Session, Error>) returns (t: State, run: seq<Event>)
    requires Inv(s) && Of(s, p) == Reading(call) && !MustWait(s.file, call, now)
    requires r.Success? <==> Require(s.file).Success? && SameAccount(Require(s.file).value, call)
    requires r.Success? ==> r == Require(s.file)
    ensures Goes(s, run, t) && Over(t, p, call, s.file, r)
  {
    assert HoldsLock(Of(s, p)) <==> s.lock == Some(p);
    t, run := Alone(s, ReadUnlocked(p, now));
  }

  /** While the call waits, others act until the lock is free and the file is what the call then meets. */
  ghost predicate LetsIn(s: State, p: nat, world: Surroundings, before: seq<Event>)
    requires Of(s, p).Reading?
  {
    var waiting := Next(true, s, ReadUnlocked(p, world.readAt));
    && Legal(true, waiting, before) && ByOthers(before, p)
    && Exec(true, waiting, before).lock.None? && Exec(true, waiting, before).file == world.met
  }

  /** The state in which the call has got the lock. */
  ghost function Locked(s: State, p: nat, now: int, before: seq<Event>): State
    requires Of(s, p).Reading? && Legal(true, Next(true, s, ReadUnlocked(p, now)), before)
  {
    var free := Exec(true, Next(true, s, ReadUnlocked(p, now)), before);
    if Enabled(true, free, Lock(p)) then Next(true, free, Lock(p)) else free
  }

  /** The call waits, others act, and it gets the lock. */
  lemma GetsTheLock(s: State, p: nat, call: Call, world: Surroundings, before: seq<Event>) returns (run: seq<Event>)
    requires Inv(s) && Of(s, p) == Reading(call) && MustWait(s.file, call, world.readAt) && LetsIn(s, p, world, before)
    ensures var t := Locked(s, p, world.readAt, before);
            && Goes(s, run, t) && Inv(t)
            && t.file == world.met && t.lock == Some(p) && Of(t, p) == Holding(Refreshing(call))
  {
    var waiting, first := Alone(s, ReadUnlocked(p, world.readAt));
    OthersRun(waiting, p, before);
    var free := Exec(true, waiting, before);
    JoinRuns(s, first, waiting, before, free);
    var t;
    t, run := Extend(s, first + before, free, Lock(p));
  }

  lemma EndsAtSecondRead(s: State, p: nat, call: Call, now: int) returns (t: State, run: seq<Event>)
    requires Inv(s) && Of(s, p) == Holding(Refreshing(call)) && s.lock == Some(p)
    requires Judge(s.file, call, now).Refuse? || Judge(s.file, call, now).Keep?
    ensures Goes(s, run, t)
    ensures forall e :: Judge(s.file, call, now) == Refuse(e) ==> Over(t, p, call, s.file, Failure(e))
    ensures forall kept :: Judge(s.file, call, now) == Keep(kept) ==> Over(t, p, call, s.file, Success(kept))
  {
    t, run := Alone(s, Inspect(p, now));
  }

  lemma EndsExpired(s: State, p: nat, call: Call, now: int, over: Session, ok: bool, e: Error) returns (t: State, run: seq<Event>)
    requires Inv(s) && Of(s, p) == Holding(Refreshing(call)) && s.lock == Some(p)
    requires Judge(s.file, call, now) == Expire(over)
    ensures Goes(s, run, t) && Over(t, p, call, if ok then Saved(Ended(over)) else s.file, Failure(e))
  {
    t, run := Alone(s, Inspect(p, now));
    t, run := Extend(s, run, t, SaveExpired(p, ok));
  }

  lemma GoesToExchange(s: State, p: nat, call: Call, now: int, a: Attempt) returns (t: State, run: seq<Event>)
    requires Inv(s) && Of(s, p) == Holding(Refreshing(call)) && s.lock == Some(p)
    requires Judge(s.file, call, now) == Exchange(a.session, a.token)
    requires a.call == call && a.needed == NeedsRefresh(a.session, now)
    ensures Goes(s, run, t) && Inv(t) && t == Next(true, s, Inspect(p, now))
    ensures t.file == s.file && t.lock == Some(p) && Of(t, p) == Marking(a)
  {
    t, run := Alone(s, Inspect(p, now));
  }

  lemma EndsUnmarked(s: State, p: nat, a: Attempt, startedAt: int, e: Error) returns (t: State, run: seq<Event>)
    requires Inv(s) && Of(s, p) == Marking(a) && s.lock == Some(p)
    ensures Goes(s, run, t) && Over(t, p, a.call, s.file, Failure(e))
  {
    t, run := Alone(s, SaveMarker(p, startedAt, false));
  }

  /** The marker is saved and the token sent. */
  ghost function Presented(s: State, p: nat, startedAt: int): State
    requires Of(s, p).Marking?
  {
    var marked := Next(true, s, SaveMarker(p, startedAt, true));
    Next(true, marked, Present(p))
  }

  lemma Presenting(s: State, p: nat, a: Attempt, startedAt: int) returns (run: seq<Event>)
    requires Inv(s) && Of(s, p) == Marking(a) && s.lock == Some(p)
    ensures Goes(s, run, Presented(s, p, startedAt)) && Inv(Presented(s, p, startedAt))
    ensures var t := Presented(s, p, startedAt);
            && t.file == Saved(Marked(a.session, startedAt)) && t.lock == Some(p)
            && Of(t, p) == Sent(a, startedAt, |s.flights|)
  {
    var t;
    t, run := Alone(s, SaveMarker(p, startedAt, true));
    t, run := Extend(s, run, t, Present(p));
  }

  /** Unless the call stops before, others and the server act while its token is on its way, until its
      request is where it gives up waiting or reads the reply. */
  ghost predicate LetsReply(s: State, p: nat, call: Call, world: Surroundings, during: seq<Event>) {
    var judged := Judge(s.file, call, world.lockedAt);
    judged.Exchange? && world.markerSaved && Enabled(true, s, Inspect(p, world.lockedAt)) ==>
      var marking := Next(true, s, Inspect(p, world.lockedAt));
      && Of(marking, p).Marking?
      && ReplyArrives(marking, p, world, during)
  }

  ghost predicate ReplyArrives(s: State, p: nat, world: Surroundings, during: seq<Event>)
    requires Of(s, p).Marking?
  {
    var sent := Presented(s, p, world.startedAt);
    && Legal(true, sent, during) && ByOthers(during, p)
    && |s.flights| < |Exec(true, sent, during).flights|
    && Exec(true, sent, during).flights[|s.flights|] == world.reply
  }

  /** Others and the server act while the token is on its way. */
  lemma Meanwhile(s: State, p: nat, a: Attempt, startedAt: int, during: seq<Event>) returns (t: State, run: seq<Event>)
    requires Inv(s) && Of(s, p) == Marking(a) && s.lock == Some(p)
    requires Legal(true, Presented(s, p, startedAt), during) && ByOthers(during, p)
    ensures Goes(s, run, t) && Inv(t) && t == Exec(true, Presented(s, p, startedAt), during)
    ensures t.file == Saved(Marked(a.session, startedAt)) && t.lock == Some(p)
    ensures Of(t, p) == Sent(a, startedAt, |s.flights|) && |s.flights| < |t.flights|
  {
    var first := Presenting(s, p, a, startedAt);
    OthersRun(Presented(s, p, startedAt), p, during);
    t := Exec(true, Presented(s, p, startedAt), during);
    JoinRuns(s, first, Presented(s, p, startedAt), during, t);
    run := first + during;
    assert ProcInv(t, p, Of(t, p));
  }

  lemma EndsUnanswered(s: State, p: nat, a: Attempt, startedAt: int, flight: nat, e: Error)
    returns (t: State, run: seq<Event>)
    requires Inv(s) && Of(s, p) == Sent(a, startedAt, flight) && s.lock == Some(p)
    ensures Goes(s, run, t) && Over(t, p, a.call, s.file, Failure(e))
  {
    t, run := Alone(s, NoReply(p));
  }

  lemma EndsRefused(s: State, p: nat, a: Attempt, startedAt: int, flight: nat, savedAt: int, ok: bool, e: Error)
    returns (t: State, run: seq<Event>)
    requires Inv(s) && Of(s, p) == Sent(a, startedAt, flight) && s.lock == Some(p)
    requires flight < |s.flights| && !s.flights[flight].Travelling?
    requires s.flights[flight].Refused? || s.flights[flight].answer.account.uuid != a.session.account.uuid
    ensures Goes(s, run, t)
    ensures Over(t, p, a.call, if ok then Saved(Ended(Marked(a.session, startedAt))) else s.file, Failure(e))
  {
    t, run := Alone(s, Receive(p, savedAt, ok));
  }

  lemma EndsRenewed(s: State, p: nat, a: Attempt, startedAt: int, flight: nat, savedAt: int, ok: bool, e: Error)
    returns (t: State, run: seq<Event>)
    requires Inv(s) && Of(s, p) == Sent(a, startedAt, flight) && s.lock == Some(p)
    requires flight < |s.flights| && s.flights[flight].Accepted?
    requires s.flights[flight].answer.account.uuid == a.session.account.uuid
    ensures Goes(s, run, t)
    ensures var renewed := Applied(Marked(a.session, startedAt), s.flights[flight].answer, startedAt, savedAt);
            Over(t, p, a.call, if ok then Saved(renewed) else s.file, if ok then Success(renewed) else Failure(e))
  {
    t, run := Alone(s, Receive(p, savedAt, ok));
  }

  class Profile {
    var file: Loaded

    method Save(session: StoredSession, ok: bool) returns (r: Result<Session, Error>)
      modifies this
      ensures r == if ok then Success(session.Value()) else Failure(SaveFailed)
      ensures file == if ok then Saved(session.Value()) else old(file)
    {
      if ok {
        file := Saved(session.Value());
        return Success(session.Value());
      }
      return Failure(SaveFailed);
    }

    method EndSession(session: StoredSession, ok: bool) returns (e: Error)
      modifies this, session
      ensures session.Value() == Ended(old(session.Value()))
      ensures file == if ok then Saved(session.Value()) else old(file)
      ensures e == if ok then SessionEnded else SaveFailed
    {
      session.End();
      var saved := Save(session, ok);
      return if saved.Failure? then saved.error else SessionEnded;
    }

    /** Blocks until the lock is free; others may have written the file by then. */
    method AwaitLock(met: Loaded)
      modifies this
      ensures file == met
    {
      file := met;
    }

    /** The session after the reply arrived; nothing is written when there is none. */
    method Settle(session: StoredSession, world: Surroundings) returns (r: Result<Session, Error>)
      modifies this, session
      ensures world.reply.Travelling? ==> r == Failure(NoAnswer) && file == old(file)
      ensures !world.reply.Travelling? && (world.reply.Refused? || world.reply.answer.account.uuid != old(session.account.uuid)) ==>
                r.Failure? && file == if world.resultSaved then Saved(Ended(old(session.Value()))) else old(file)
      ensures world.reply.Accepted? && world.reply.answer.account.uuid == old(session.account.uuid) ==>
                var renewed := Applied(old(session.Value()), world.reply.answer, world.startedAt, world.savedAt);
                && r == (if world.resultSaved then Success(renewed) else Failure(SaveFailed))
                && file == if world.resultSaved then Saved(renewed) else old(file)
    {
      match world.reply
      case Travelling => r := Failure(NoAnswer);
      case Refused =>
        var e := EndSession(session, world.resultSaved);
        r := Failure(e);
      case Accepted(answer) =>
        if answer.account.uuid != session.account.uuid {
          var e := EndSession(session, world.resultSaved);
          r := Failure(e);
        } else {
          session.Apply(answer, world.startedAt, world.savedAt);
          r := Save(session, world.resultSaved);
        }
    }

    /** The part of `fresh` that holds the lock and was decided to exchange the refresh token. */
    method Exchanged(a: Attempt, world: Surroundings, ghost p: nat, ghost s: State, ghost during: seq<Event>)
      returns (r: Result<Session, Error>, ghost t: State, ghost run: seq<Event>)
      requires Inv(s) && s.file == file && s.lock == Some(p) && Of(s, p) == Marking(a)
      requires world.markerSaved ==> ReplyArrives(s, p, world, during)
      modifies this
      ensures Goes(s, run, t) && Over(t, p, a.call, file, r)
    {
      var session := new StoredSession(a.session);
      session.Mark(world.startedAt);
      var marked := Save(session, world.markerSaved);
      if marked.Failure? {
        t, run := EndsUnmarked(s, p, a, world.startedAt, marked.error);
        return Failure(marked.error), t, run;
      }
      r := Settle(session, world);
      ghost var sent, first := Meanwhile(s, p, a, world.startedAt, during);
      ghost var rest;
      t, rest := SettledRun(sent, p, a, world, |s.flights|, r);
      JoinRuns(s, first, sent, rest, t);
      run := first + rest;
    }

    /** The part of `fresh` from the second read on. */
    method FreshLocked(call: Call, world: Surroundings, ghost p: nat, ghost s: State, ghost during: seq<Event>)
      returns (r: Result<Session, Error>, ghost t: State, ghost run: seq<Event>)
      requires Inv(s) && s.file == file && s.lock == Some(p) && Of(s, p) == Holding(Refreshing(call))
      requires LetsReply(s, p, call, world, during)
      modifies this
      ensures Goes(s, run, t) && Over(t, p, call, file, r)
    {
      match Judge(file, call, world.lockedAt) {
        case Refuse(e) =>
          r := Failure(e);
          t, run := EndsAtSecondRead(s, p, call, world.lockedAt);
        case Keep(kept) =>
          r := Success(kept);
          t, run := EndsAtSecondRead(s, p, call, world.lockedAt);
        case Expire(over) =>
          var session := new StoredSession(over);
          var e := EndSession(session, world.resultSaved);
          r := Failure(e);
          t, run := EndsExpired(s, p, call, world.lockedAt, over, world.resultSaved, e);
        case Exchange(current, token) =>
          var a := Attempt(call, current, token, NeedsRefresh(current, world.lockedAt));
          ghost var marking, first := GoesToExchange(s, p, call, world.lockedAt, a);
          ghost var rest;
          r, t, rest := Exchanged(a, world, p, marking, during);
          JoinRuns(s, first, marking, rest, t);
          run := first + rest;
      }
    }

    /** `fresh`: `before` is what others do while it waits for the lock, `during` what they and the server
        do while its token is on its way. */
    method Fresh(call: Call, world: Surroundings, ghost p: nat, ghost s: State, ghost before: seq<Event>, ghost during: seq<Event>)
      returns (r: Result<Session, Error>, ghost t: State, ghost run: seq<Event>)
      requires Inv(s) && s.file == file && Of(s, p) == Reading(call)
      requires MustWait(s.file, call, world.readAt) ==>
                 LetsIn(s, p, world, before) && LetsReply(Locked(s, p, world.readAt, before), p, call, world, during)
      modifies this
      ensures Goes(s, run, t) && Over(t, p, call, file, r)
    {
      var first := Require(file);
      if first.Failure? {
        t, run := EndsAtFirstRead(s, p, call, world.readAt, Failure(first.error));
        return Failure(first.error), t, run;
      }
      if !SameAccount(first.value, call) {
        t, run := EndsAtFirstRead(s, p, call, world.readAt, Failure(ProfileChanged));
        return Failure(ProfileChanged), t, run;
      }
      if call.rejected.None? && !NeedsRefresh(first.value, world.readAt) {
        t, run := EndsAtFirstRead(s, p, call, world.readAt, first);
        return Success(first.value), t, run;
      }
      AwaitLock(world.met);
      ghost var way := GetsTheLock(s, p, call, world, before);
      // Read again under the lock.
      ghost var rest;
      r, t, rest := FreshLocked(call, world, p, Locked(s, p, world.readAt, before), during);
      JoinRuns(s, way, Locked(s, p, world.readAt, before), rest, t);
      run := way + rest;
    }
  }

  lemma SettledRun(s: State, p: nat, a: Attempt, world: Surroundings, flight: nat, r: Result<Session, Error>)
    returns (t: State, run: seq<Event>)
    requires Inv(s) && Of(s, p) == Sent(a, world.startedAt, flight) && s.lock == Some(p)
    requires flight < |s.flights| && s.flights[flight] == world.reply
    requires world.reply.Travelling? ==> r == Failure(NoAnswer)
    requires world.reply.Refused? || (world.reply.Accepted? && world.reply.answer.account.uuid != a.session.account.uuid) ==> r.Failure?
    requires world.reply.Accepted? && world.reply.answer.account.uuid == a.session.account.uuid ==>
               var renewed := Applied(Marked(a.session, world.startedAt), world.reply.answer, world.startedAt, world.savedAt);
               r == if world.resultSaved then Success(renewed) else Failure(SaveFailed)
    ensures Goes(s, run, t) && Over(t, p, a.call, Left(s.file, a, world), r)
  {
    match world.reply
    case Travelling => t, run := EndsUnanswered(s, p, a, world.startedAt, flight, NoAnswer);
    case Refused => t, run := EndsRefused(s, p, a, world.startedAt, flight, world.savedAt, world.resultSaved, r.error);
    case Accepted(answer) =>
      if answer.account.uuid != a.session.account.uuid {
        t, run := EndsRefused(s, p, a, world.startedAt, flight, world.savedAt, world.resultSaved, r.error);
      } else {
        t, run := EndsRenewed(s, p, a, world.startedAt, flight, world.savedAt, world.resultSaved, SaveFailed);
      }
  }

  /** The file a reply leaves behind. */
  function Left(file: Loaded, a: Attempt, world: Surroundings): Loaded {
    if world.reply.Travelling? || !world.resultSaved then file
    else if world.reply.Refused? || world.reply.answer.account.uuid != a.session.account.uuid then
      Saved(Ended(Marked(a.session, world.startedAt)))
    else
      Saved(Applied(Marked(a.session, world.startedAt), world.reply.answer, world.startedAt, world.savedAt))
  }
}
