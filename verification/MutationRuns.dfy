/**
 * Any number of copies of idempotent mutations, each probing for a stored answer, preparing, and then
 * writing in a second transaction that checks again, with failures at any point.
 */
module MutationRuns {
  import opened Wrappers
  import opened MutationReplay

  /** Transactions carry the time they began at; a process in `Holding` has the scope's lock. */
  datatype Phase =
    | Fresh
    | Probing(at: int)
    | Prepared
    | Writing(at: int)
    | Holding(at: int)
    | Over

  datatype Process = Process(scope: Scope, fingerprint: Fingerprint, phase: Phase)

  /** A committed mutation: begun at `at`, visible at `doneAt`. */
  datatype Mutation = Mutation(scope: Scope, fingerprint: Fingerprint, response: Response, at: int, doneAt: int)

  /** A success answer to a request, and the mutation it reports. */
  datatype Reply = Reply(scope: Scope, fingerprint: Fingerprint, response: Response, commit: nat)

  datatype State = State(now: int, procs: seq<Process>, records: Records, log: seq<Mutation>, replies: seq<Reply>)

  datatype Event =
    | Arrive(scope: Scope, fingerprint: Fingerprint)
    | Begin(p: nat)
    | Probe(p: nat, readable: bool)
    | Acquire(p: nat, readable: bool)
    | Commit(p: nat, response: Response)
    | Abort(p: nat)
    | Purge(scope: Scope, at: int)
    | Pass(seconds: nat)

  /** No process has the scope's lock. Retention maintenance (`Purge`) needs none. */
  predicate Free(s: State, scope: Scope) {
    forall q :: 0 <= q < |s.procs| && s.procs[q].phase.Holding? ==> s.procs[q].scope != scope
  }

  predicate Enabled(ttl: int, s: State, e: Event) {
    match e
    case Arrive(_, _) => true
    case Pass(_) => true
    case Purge(_, at) => at <= s.now
    case Begin(p) => p < |s.procs| && (s.procs[p].phase.Fresh? || s.procs[p].phase.Prepared?)
    case Probe(p, _) => p < |s.procs| && s.procs[p].phase.Probing? && Free(s, s.procs[p].scope)
    case Acquire(p, _) => p < |s.procs| && s.procs[p].phase.Writing? && Free(s, s.procs[p].scope)
    case Commit(p, _) => p < |s.procs| && s.procs[p].phase.Holding? && ttl >= 1
    case Abort(p) => p < |s.procs|
  }

  function Become(s: State, p: nat, phase: Phase): State
    requires p < |s.procs|
  {
    s.(procs := s.procs[p := s.procs[p].(phase := phase)])
  }

  function Answer(s: State, reply: Reply): State {
    s.(replies := s.replies + [reply])
  }

  /** A read that finds nothing goes on to `next`; one that finds the answer replays it; others are refused. */
  function Looked(s: State, p: nat, at: int, readable: bool, next: Phase): State
    requires p < |s.procs|
  {
    match Found(s.records, s.procs[p].scope, s.procs[p].fingerprint, at, readable)
    case Failure(_) => Become(s, p, Over)
    case Success(None) => Become(s, p, next)
    case Success(Some(record)) =>
      Answer(Become(s, p, Over), Reply(s.procs[p].scope, s.procs[p].fingerprint, record.response, record.commit))
  }

  function Committed(ttl: int, s: State, p: nat, response: Response): State
    requires p < |s.procs| && s.procs[p].phase.Holding?
  {
    var Process(scope, fingerprint, Holding(at)) := s.procs[p];
    Answer(
      Become(s, p, Over).(
        records := Saved(Swept(s.records, scope, at), scope, Record(fingerprint, response, at + ttl, |s.log|)),
        log := s.log + [Mutation(scope, fingerprint, response, at, s.now)]),
      Reply(scope, fingerprint, response, |s.log|))
  }

  function Next(ttl: int, s: State, e: Event): State
    requires Enabled(ttl, s, e)
  {
    match e
    case Arrive(scope, fingerprint) => s.(procs := s.procs + [Process(scope, fingerprint, Fresh)])
    case Pass(seconds) => s.(now := s.now + seconds)
    case Purge(scope, at) => s.(records := Swept(s.records, scope, at))
    case Begin(p) => Become(s, p, if s.procs[p].phase.Fresh? then Probing(s.now) else Writing(s.now))
    case Probe(p, readable) =>
      var at := s.procs[p].phase.at;
      var r := Found(s.records, s.procs[p].scope, s.procs[p].fingerprint, at, readable);
      var looked := Looked(s, p, at, readable, Prepared);
      if r.Success? then looked.(records := Swept(s.records, s.procs[p].scope, at)) else looked
    case Acquire(p, readable) =>
      var at := s.procs[p].phase.at;
      Looked(s, p, at, readable, Holding(at))
    case Commit(p, response) => Committed(ttl, s, p, response)
    case Abort(p) => Become(s, p, Over)
  }

  predicate Legal(ttl: int, s: State, events: seq<Event>)
    decreases |events|
  {
    events == [] || (Enabled(ttl, s, events[0]) && Legal(ttl, Next(ttl, s, events[0]), events[1..]))
  }

  function Exec(ttl: int, s: State, events: seq<Event>): State
    requires Legal(ttl, s, events)
    decreases |events|
  {
    if events == [] then s else Exec(ttl, Next(ttl, s, events[0]), events[1..])
  }

  predicate Initial(s: State) {
    s.procs == [] && s.records == map[] && s.log == [] && s.replies == []
  }

  ghost predicate Reachable(ttl: int, s: State) {
    exists s0, events :: Initial(s0) && Legal(ttl, s0, events) && Exec(ttl, s0, events) == s
  }

  // ---- The invariant ---------------------------------------------------------------------

  predicate Expired(ttl: int, m: Mutation, now: int) {
    m.at + ttl <= now
  }

  /** Clocks of open transactions are not ahead; one process at a time holds a scope, past its record's end. */
  ghost predicate ProcsInv(s: State) {
    && (forall p :: 0 <= p < |s.procs| ==>
                      var phase := s.procs[p].phase; phase.Probing? || phase.Writing? || phase.Holding? ==> phase.at <= s.now)
    && (forall p, q :: 0 <= p < q < |s.procs| && s.procs[p].phase.Holding? && s.procs[q].phase.Holding? ==>
                         s.procs[p].scope != s.procs[q].scope)
    && forall p :: 0 <= p < |s.procs| && s.procs[p].phase.Holding? && s.procs[p].scope in s.records ==>
                     s.records[s.procs[p].scope].expiresAt <= s.procs[p].phase.at
  }

  predicate RecordOf(ttl: int, log: seq<Mutation>, scope: Scope, r: Record) {
    && r.commit < |log|
    && log[r.commit].scope == scope && log[r.commit].fingerprint == r.fingerprint && log[r.commit].response == r.response
    && log[r.commit].at + ttl == r.expiresAt
  }

  ghost predicate RecordsInv(ttl: int, s: State) {
    forall scope :: scope in s.records ==> RecordOf(ttl, s.log, scope, s.records[scope])
  }

  /** A mutation that has not expired is the one its scope's record holds. */
  ghost predicate LiveInv(ttl: int, s: State) {
    forall i :: 0 <= i < |s.log| ==>
                  || Expired(ttl, s.log[i], s.now)
                  || (s.log[i].scope in s.records && s.records[s.log[i].scope].commit == i)
  }

  /** No mutation of a scope becomes visible while an earlier one of the scope has not expired. */
  ghost predicate Spaced(ttl: int, log: seq<Mutation>) {
    forall i, j :: 0 <= i < j < |log| && log[i].scope == log[j].scope ==> Expired(ttl, log[i], log[j].doneAt)
  }

  ghost predicate TimesInv(s: State) {
    forall i :: 0 <= i < |s.log| ==> s.log[i].at <= s.log[i].doneAt <= s.now
  }

  predicate Reports(log: seq<Mutation>, r: Reply) {
    && r.commit < |log| && log[r.commit].scope == r.scope
    && log[r.commit].fingerprint == r.fingerprint && log[r.commit].response == r.response
  }

  ghost predicate RepliesInv(s: State) {
    forall i :: 0 <= i < |s.replies| ==> Reports(s.log, s.replies[i])
  }

  ghost predicate Inv(ttl: int, s: State) {
    ProcsInv(s) && RecordsInv(ttl, s) && LiveInv(ttl, s) && Spaced(ttl, s.log) && TimesInv(s) && RepliesInv(s)
  }

  lemma BecomeKeeps(ttl: int, s: State, p: nat, phase: Phase)
    requires Inv(ttl, s) && p < |s.procs|
    requires phase in {Over, Prepared, Probing(s.now), Writing(s.now)}
    ensures Inv(ttl, Become(s, p, phase))
  {}

  lemma LookedKeeps(ttl: int, s: State, p: nat, readable: bool, next: Phase)
    requires Inv(ttl, s) && p < |s.procs|
    requires s.procs[p].phase.Probing? || s.procs[p].phase.Writing?
    requires next == Prepared || (next == Holding(s.procs[p].phase.at) && Free(s, s.procs[p].scope))
    ensures Inv(ttl, Looked(s, p, s.procs[p].phase.at, readable, next))
  {
    var after := Looked(s, p, s.procs[p].phase.at, readable, next);
    assert after.log == s.log && after.records == s.records && after.now == s.now;
    if |after.replies| > |s.replies| {
      assert RecordOf(ttl, s.log, s.procs[p].scope, s.records[s.procs[p].scope]);
    }
  }

  /** Removing an expired record hides no live mutation. */
  lemma SweepKeeps(ttl: int, s: State, scope: Scope, at: int)
    requires Inv(ttl, s) && at <= s.now
    ensures Inv(ttl, s.(records := Swept(s.records, scope, at)))
  {
    var after := s.(records := Swept(s.records, scope, at));
    if scope in s.records {
      assert RecordOf(ttl, s.log, scope, s.records[scope]);
    }
  }

  lemma AllExpiredForHolder(ttl: int, s: State, p: nat, i: nat)
    requires Inv(ttl, s) && p < |s.procs| && s.procs[p].phase.Holding?
    requires i < |s.log| && s.log[i].scope == s.procs[p].scope
    ensures Expired(ttl, s.log[i], s.now)
  {
    var scope := s.procs[p].scope;
    if scope in s.records && s.records[scope].commit == i {
      assert RecordOf(ttl, s.log, scope, s.records[scope]);
    }
  }

  lemma CommitKeepsLog(ttl: int, s: State, p: nat, response: Response)
    requires Inv(ttl, s) && p < |s.procs| && s.procs[p].phase.Holding?
    ensures var after := Committed(ttl, s, p, response);
            LiveInv(ttl, after) && Spaced(ttl, after.log) && TimesInv(after) && RepliesInv(after)
  {
    var after := Committed(ttl, s, p, response);
    forall i: nat | i < |s.log| && s.log[i].scope == s.procs[p].scope ensures Expired(ttl, s.log[i], s.now) {
      AllExpiredForHolder(ttl, s, p, i);
    }
    forall i | 0 <= i < |after.replies| ensures Reports(after.log, after.replies[i]) {
      assert i < |s.replies| ==> Reports(s.log, s.replies[i]);
    }
  }

  lemma CommitKeeps(ttl: int, s: State, p: nat, response: Response)
    requires Inv(ttl, s) && p < |s.procs| && s.procs[p].phase.Holding?
    ensures Inv(ttl, Committed(ttl, s, p, response))
  {
    var after := Committed(ttl, s, p, response);
    CommitKeepsLog(ttl, s, p, response);
    forall other | other in after.records ensures RecordOf(ttl, after.log, other, after.records[other]) {
      assert other != s.procs[p].scope ==> RecordOf(ttl, s.log, other, s.records[other]);
    }
  }

  lemma StepKeeps(ttl: int, s: State, e: Event)
    requires Inv(ttl, s) && Enabled(ttl, s, e)
    ensures Inv(ttl, Next(ttl, s, e))
  {
    match e
    case Probe(p, readable) =>
      var at := s.procs[p].phase.at;
      LookedKeeps(ttl, s, p, readable, Prepared);
      SweepKeeps(ttl, Looked(s, p, at, readable, Prepared), s.procs[p].scope, at);
    case Acquire(p, readable) => LookedKeeps(ttl, s, p, readable, Holding(s.procs[p].phase.at));
    case Commit(p, response) => CommitKeeps(ttl, s, p, response);
    case Begin(p) => BecomeKeeps(ttl, s, p, if s.procs[p].phase.Fresh? then Probing(s.now) else Writing(s.now));
    case Abort(p) => BecomeKeeps(ttl, s, p, Over);
    case Purge(scope, at) => SweepKeeps(ttl, s, scope, at);
    case Pass(_) =>
    case Arrive(_, _) =>
  }

  lemma {:induction false} RunKeeps(ttl: int, s: State, events: seq<Event>)
    requires Inv(ttl, s) && Legal(ttl, s, events)
    ensures Inv(ttl, Exec(ttl, s, events))
    decreases |events|
  {
    if events != [] {
      StepKeeps(ttl, s, events[0]);
      RunKeeps(ttl, Next(ttl, s, events[0]), events[1..]);
    }
  }

  lemma ReachableInv(ttl: int, s: State)
    requires Reachable(ttl, s)
    ensures Inv(ttl, s)
  {
    var s0, events :| Initial(s0) && Legal(ttl, s0, events) && Exec(ttl, s0, events) == s;
    RunKeeps(ttl, s0, events);
  }

  // ---- The guarantees --------------------------------------------------------------------

  /** Whatever is retried, raced or aborted, a scope gets its next mutation, with the same or another
      fingerprint, only once the answer of the one before has expired. */
  lemma OneMutationPerLiveRecord(ttl: int, s: State, i: nat, j: nat)
    requires Reachable(ttl, s) && i < j < |s.log| && s.log[i].scope == s.log[j].scope
    ensures s.log[i].at + ttl <= s.log[j].doneAt
  {
    ReachableInv(ttl, s);
  }

  /** Every success answer is the answer of one committed mutation of the same scope and fingerprint. */
  lemma RepliesReportMutations(ttl: int, s: State, i: nat)
    requires Reachable(ttl, s) && i < |s.replies|
    ensures Reports(s.log, s.replies[i])
  {
    ReachableInv(ttl, s);
  }

  /** Two success answers in one scope agree in status, body and fingerprint, or the mutation behind
      one of them expired before the other's was made. */
  lemma RepliesAgree(ttl: int, s: State, i: nat, j: nat)
    requires Reachable(ttl, s) && i < |s.replies| && j < |s.replies|
    requires s.replies[i].commit <= s.replies[j].commit && s.replies[i].scope == s.replies[j].scope
    ensures var first, second := s.replies[i], s.replies[j];
            && first.commit < |s.log| && second.commit < |s.log|
            && (|| (first.response == second.response && first.fingerprint == second.fingerprint)
                || s.log[first.commit].at + ttl <= s.log[second.commit].doneAt)
  {
    RepliesReportMutations(ttl, s, i);
    RepliesReportMutations(ttl, s, j);
    if s.replies[i].commit < s.replies[j].commit {
      OneMutationPerLiveRecord(ttl, s, s.replies[i].commit, s.replies[j].commit);
    }
  }

  /** While a mutation has not expired, every look in its scope finds it: the same request gets its
      answer, another one is told that the key is taken, and nobody goes on to mutate. */
  lemma LiveMutationIsFound(ttl: int, s: State, i: nat, p: nat, readable: bool)
    requires Reachable(ttl, s) && i < |s.log| && s.now < s.log[i].at + ttl
    requires p < |s.procs| && (s.procs[p].phase.Probing? || s.procs[p].phase.Writing?)
    requires s.procs[p].scope == s.log[i].scope
    ensures var r := Found(s.records, s.procs[p].scope, s.procs[p].fingerprint, s.procs[p].phase.at, readable);
            && (r == Failure(KeyReused) <==> s.procs[p].fingerprint != s.log[i].fingerprint)
            && (r == Failure(NotFound) <==> s.procs[p].fingerprint == s.log[i].fingerprint && !readable)
            && (r.Success? ==> r.value.Some? && r.value.value.commit == i && r.value.value.response == s.log[i].response)
  {
    ReachableInv(ttl, s);
    assert RecordOf(ttl, s.log, s.log[i].scope, s.records[s.log[i].scope]);
  }

  /** Once every mutation of its scope has expired, a request is new again: its look finds nothing, and it
      goes on, with the same or another fingerprint, whether or not a record is still stored. */
  lemma ExpiredMutationsAreForgotten(ttl: int, s: State, p: nat, readable: bool)
    requires Reachable(ttl, s) && p < |s.procs| && (s.procs[p].phase.Probing? || s.procs[p].phase.Writing?)
    requires Free(s, s.procs[p].scope)
    requires forall i :: 0 <= i < |s.log| && s.log[i].scope == s.procs[p].scope ==> s.log[i].at + ttl <= s.procs[p].phase.at
    ensures var e := if s.procs[p].phase.Probing? then Probe(p, readable) else Acquire(p, readable);
            var t := Next(ttl, s, e);
            t.procs[p].phase == (if e.Probe? then Prepared else Holding(s.procs[p].phase.at)) && t.replies == s.replies
  {
    ReachableInv(ttl, s);
    if s.procs[p].scope in s.records {
      assert RecordOf(ttl, s.log, s.procs[p].scope, s.records[s.procs[p].scope]);
    }
  }

  /** What a commit leaves for its sender and for everyone after it. */
  lemma CommitIsAnswered(ttl: int, s: State, p: nat, response: Response)
    requires Enabled(ttl, s, Commit(p, response))
    ensures var t, scope, fingerprint, n := Next(ttl, s, Commit(p, response)), s.procs[p].scope, s.procs[p].fingerprint, |s.log|;
            && |t.log| == n + 1 && t.log[..n] == s.log
            && t.log[n] == Mutation(scope, fingerprint, response, s.procs[p].phase.at, s.now)
            && |t.replies| == |s.replies| + 1 && t.replies[|s.replies|] == Reply(scope, fingerprint, response, n)
            && scope in t.records && t.records[scope].response == response && t.records[scope].fingerprint == fingerprint
            && t.records[scope].expiresAt == s.procs[p].phase.at + ttl
            && forall other :: other in s.records && other != scope ==> other in t.records && t.records[other] == s.records[other]
  {}

  // ---- Transactions that began before a record's end --------------------------------------

  /** A stored record belongs to the last mutation of its scope. */
  ghost predicate LastInv(s: State) {
    forall scope, j :: scope in s.records && s.records[scope].commit < j < |s.log| ==> s.log[j].scope != scope
  }

  lemma LastStep(ttl: int, s: State, e: Event)
    requires LastInv(s) && Enabled(ttl, s, e)
    ensures LastInv(Next(ttl, s, e))
  {
    if e.Commit? {
      assert Next(ttl, s, e).log[..|s.log|] == s.log;
    }
  }

  lemma {:induction false} LastRun(ttl: int, s: State, events: seq<Event>)
    requires LastInv(s) && Legal(ttl, s, events)
    ensures LastInv(Exec(ttl, s, events))
    decreases |events|
  {
    if events != [] {
      LastStep(ttl, s, events[0]);
      LastRun(ttl, Next(ttl, s, events[0]), events[1..]);
    }
  }

  /** A transaction that began before the scope's last mutation expired goes on to mutate if and only if
      the record of that mutation has been swept meanwhile. */
  lemma LateMutationIffSwept(ttl: int, s: State, p: nat, readable: bool, i: nat)
    requires Reachable(ttl, s) && Enabled(ttl, s, Acquire(p, readable))
    requires i < |s.log| && s.log[i].scope == s.procs[p].scope
    requires forall j :: i < j < |s.log| ==> s.log[j].scope != s.procs[p].scope
    requires s.procs[p].phase.at < s.log[i].at + ttl
    ensures Next(ttl, s, Acquire(p, readable)).procs[p].phase.Holding? <==> s.procs[p].scope !in s.records
  {
    var s0, events :| Initial(s0) && Legal(ttl, s0, events) && Exec(ttl, s0, events) == s;
    ReachableInv(ttl, s);
    LastRun(ttl, s0, events);
    if s.procs[p].scope in s.records {
      assert RecordOf(ttl, s.log, s.procs[p].scope, s.records[s.procs[p].scope]);
    }
  }

  lemma {:induction false} ExtendRun(ttl: int, s: State, events: seq<Event>, e: Event)
    requires Legal(ttl, s, events) && Enabled(ttl, Exec(ttl, s, events), e)
    ensures Legal(ttl, s, events + [e]) && Exec(ttl, s, events + [e]) == Next(ttl, Exec(ttl, s, events), e)
    decreases |events|
  {
    if events == [] {
      assert (events + [e])[1..] == [];
    } else {
      assert (events + [e])[1..] == events[1..] + [e];
      ExtendRun(ttl, Next(ttl, s, events[0]), events[1..], e);
    }
  }

  lemma Then(ttl: int, s: State, e: Event) returns (t: State)
    requires Reachable(ttl, s) && Enabled(ttl, s, e)
    ensures t == Next(ttl, s, e) && Reachable(ttl, t)
  {
    var s0, events :| Initial(s0) && Legal(ttl, s0, events) && Exec(ttl, s0, events) == s;
    ExtendRun(ttl, s0, events, e);
    t := Next(ttl, s, e);
  }

  /** A request arrives and looks for a stored answer that is not there. */
  lemma Arrived(ttl: int, s: State, scope: Scope, fingerprint: Fingerprint) returns (t: State)
    requires Reachable(ttl, s) && Free(s, scope)
    requires scope in s.records ==> s.records[scope].expiresAt <= s.now
    ensures Reachable(ttl, t) && t.now == s.now && t.log == s.log
    ensures t.procs == s.procs + [Process(scope, fingerprint, Prepared)] && t.records == s.records - {scope}
  {
    var p := |s.procs|;
    t := Then(ttl, s, Arrive(scope, fingerprint));
    t := Then(ttl, t, Begin(p));
    t := Then(ttl, t, Probe(p, true));
  }

  /** One copy is answered and its record expires; a third request's probe sweeps the record. */
  lemma FirstCopyExpires(ttl: int, s: State, scope: Scope, fingerprint: Fingerprint, response: Response) returns (t: State)
    requires ttl >= 1 && Reachable(ttl, s) && s.records == map[] && s.log == []
    requires s.procs == [Process(scope, fingerprint, Prepared), Process(scope, fingerprint, Writing(s.now))]
    ensures Reachable(ttl, t) && t.records == map[]
    ensures t.log == [Mutation(scope, fingerprint, response, s.now, s.now)]
    ensures |t.procs| == 3 && t.procs[1] == s.procs[1] && Free(t, scope)
  {
    t := FirstCopyCommits(ttl, s, scope, fingerprint, response);
    t := Then(ttl, t, Pass(ttl));
    t := Arrived(ttl, t, scope, fingerprint);
  }

  lemma FirstCopyCommits(ttl: int, s: State, scope: Scope, fingerprint: Fingerprint, response: Response) returns (t: State)
    requires ttl >= 1 && Reachable(ttl, s) && s.records == map[] && s.log == []
    requires s.procs == [Process(scope, fingerprint, Prepared), Process(scope, fingerprint, Writing(s.now))]
    ensures Reachable(ttl, t) && t.now == s.now && t.log == [Mutation(scope, fingerprint, response, s.now, s.now)]
    ensures t.records == map[scope := Record(fingerprint, response, s.now + ttl, 0)]
    ensures t.procs == [Process(scope, fingerprint, Over), s.procs[1]]
  {
    t := Then(ttl, s, Begin(0));
    t := Then(ttl, t, Acquire(0, true));
    t := Then(ttl, t, Commit(0, response));
  }

  /** For every retention there is a run in which the second of two copies, begun before the first
      one's record expired, mutates again. */
  lemma SweepAllowsALateMutation(ttl: int, scope: Scope, fingerprint: Fingerprint, response: Response) returns (s: State)
    requires ttl >= 1
    ensures Reachable(ttl, s) && |s.log| == 2 && s.log[0].scope == s.log[1].scope == scope
    ensures s.log[0].fingerprint == s.log[1].fingerprint == fingerprint && s.log[1].at < s.log[0].at + ttl
  {
    s := State(0, [], map[], [], []);
    assert Legal(ttl, s, []) && Exec(ttl, s, []) == s;
    s := Arrived(ttl, s, scope, fingerprint);
    s := Arrived(ttl, s, scope, fingerprint);
    s := Then(ttl, s, Begin(1));
    s := FirstCopyExpires(ttl, s, scope, fingerprint, response);
    s := Then(ttl, s, Acquire(1, true));
    s := Then(ttl, s, Commit(1, response));
  }
}
