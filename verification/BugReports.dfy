/** Bug reports of one account: stored under its lock, replayed by key, ten in any hour. */
module BugReports {
  import opened Wrappers

  const HOUR: nat := 3_600_000_000
  const LIMIT: nat := 10

  /** A row of the mail queue, stamped by the clock when it is inserted; only reports have a key. */
  datatype Job = Job(isReport: bool, key: Option<string>, hash: string, at: int)

  datatype Error = KeyReused | HourlyLimit | RolledBack

  function Find(jobs: seq<Job>, key: string): (found: Option<nat>)
    ensures found.Some? ==> found.value < |jobs| && jobs[found.value].key == Some(key)
    ensures found.None? ==> forall i :: 0 <= i < |jobs| ==> jobs[i].key != Some(key)
  {
    if jobs == [] then None
    else if jobs[0].key == Some(key) then Some(0)
    else
      match Find(jobs[1..], key)
      case None => None
      case Some(i) => Some(i + 1)
  }

  /** The reports after `since`. */
  function Recent(jobs: seq<Job>, since: int): set<nat> {
    set i: nat | i < |jobs| && jobs[i].isReport && jobs[i].at > since
  }

  /** The reports of the hour that ends at `t`. */
  function Window(jobs: seq<Job>, t: int): set<nat> {
    set i: nat | i < |jobs| && jobs[i].isReport && t - HOUR < jobs[i].at <= t
  }

  /** The queue and the answer after one report, counted at `checkedAt` and inserted at `insertedAt`. */
  function Reported(jobs: seq<Job>, key: string, hash: string, checkedAt: int, insertedAt: int)
    : (seq<Job>, Result<nat, Error>)
  {
    match Find(jobs, key)
    case Some(i) => (jobs, if jobs[i].hash == hash then Success(i) else Failure(KeyReused))
    case None =>
      if |Recent(jobs, checkedAt - HOUR)| >= LIMIT then (jobs, Failure(HourlyLimit))
      else (jobs + [Job(true, Some(key), hash, insertedAt)], Success(|jobs|))
  }

  lemma RecentGrows(jobs: seq<Job>, n: nat, since: int)
    requires n < |jobs|
    ensures |Recent(jobs[..n + 1], since)| ==
            |Recent(jobs[..n], since)| + if jobs[n].isReport && jobs[n].at > since then 1 else 0
  {
    var before, after := Recent(jobs[..n], since), Recent(jobs[..n + 1], since);
    if jobs[n].isReport && jobs[n].at > since {
      assert after == before + {n};
    } else {
      assert after == before;
    }
  }

  class ReportQueue {
    var jobs: seq<Job>

    /** Runs under the account's advisory lock; `fails` when the insert or the commit does. A rolled-back
        report leaves the queue alone and is answered with an error. */
    method Report(key: string, hash: string, checkedAt: int, insertedAt: int, fails: bool) returns (r: Result<nat, Error>)
      modifies this
      ensures var answer := Reported(old(jobs), key, hash, checkedAt, insertedAt).1;
              r == if fails && answer.Success? then Failure(RolledBack) else answer
      ensures jobs == if fails then old(jobs) else Reported(old(jobs), key, hash, checkedAt, insertedAt).0
    {
      var prior := Find(jobs, key);
      if prior.Some? {
        if jobs[prior.value].hash != hash {
          return Failure(KeyReused);
        }
        return if fails then Failure(RolledBack) else Success(prior.value);
      }
      var count := 0;
      for i := 0 to |jobs|
        invariant jobs == old(jobs) && count == |Recent(jobs[..i], checkedAt - HOUR)|
      {
        RecentGrows(jobs, i, checkedAt - HOUR);
        if jobs[i].isReport && jobs[i].at > checkedAt - HOUR {
          count := count + 1;
        }
      }
      assert jobs[..|jobs|] == jobs;
      if count >= LIMIT {
        return Failure(HourlyLimit);
      }
      if fails {
        return Failure(RolledBack);
      }
      jobs := jobs + [Job(true, Some(key), hash, insertedAt)];
      return Success(|jobs| - 1);
    }
  }

  /** A report is answered with an older row exactly if its key and body are that row's; a new key is refused
      exactly when ten reports lie in the hour before, and otherwise stored as the last row. */
  lemma ReportedIff(jobs: seq<Job>, key: string, hash: string, checkedAt: int, insertedAt: int)
    ensures var (after, r) := Reported(jobs, key, hash, checkedAt, insertedAt);
            var known := exists i :: 0 <= i < |jobs| && jobs[i].key == Some(key);
            var lately := set i: nat | i < |jobs| && jobs[i].isReport && jobs[i].at > checkedAt - 3_600_000_000;
            && (known ==> after == jobs && (r == Failure(KeyReused) || (r.Success? && r.value < |jobs|
                            && jobs[r.value].key == Some(key) && jobs[r.value].hash == hash)))
            && (!known ==>
                  if |lately| < 10 then
                    && r == Success(|jobs|) && |after| == |jobs| + 1 && after[..|jobs|] == jobs
                    && after[|jobs|] == Job(true, Some(key), hash, insertedAt)
                  else after == jobs && r == Failure(HourlyLimit))
            && (r == Failure(KeyReused) ==> exists i :: 0 <= i < |jobs| && jobs[i].key == Some(key) && jobs[i].hash != hash)
  {
    assert (set i: nat | i < |jobs| && jobs[i].isReport && jobs[i].at > checkedAt - 3_600_000_000) == Recent(jobs, checkedAt - HOUR);
  }

  // ---- Runs ------------------------------------------------------------------------------

  datatype Event =
    | Report(key: string, hash: string, checkedAt: int, insertedAt: int, fails: bool)
    | OtherMail(at: int)

  /** The clock does not go back from one row of the account to the next. */
  predicate InOrder(jobs: seq<Job>, e: Event) {
    forall i :: 0 <= i < |jobs| ==> if e.Report? then jobs[i].at <= e.checkedAt <= e.insertedAt else jobs[i].at <= e.at
  }

  function Next(jobs: seq<Job>, e: Event): seq<Job> {
    match e
    case Report(key, hash, checkedAt, insertedAt, fails) =>
      if fails then jobs else Reported(jobs, key, hash, checkedAt, insertedAt).0
    case OtherMail(at) => jobs + [Job(false, None, "", at)]
  }

  predicate Legal(jobs: seq<Job>, events: seq<Event>)
    decreases |events|
  {
    events == [] || (InOrder(jobs, events[0]) && (events[0].Report? ==> events[0].checkedAt <= events[0].insertedAt)
                     && Legal(Next(jobs, events[0]), events[1..]))
  }

  function Exec(jobs: seq<Job>, events: seq<Event>): seq<Job>
    decreases |events|
  {
    if events == [] then jobs else Exec(Next(jobs, events[0]), events[1..])
  }

  ghost predicate Ordered(jobs: seq<Job>) {
    forall i, j :: 0 <= i < j < |jobs| ==> jobs[i].at <= jobs[j].at
  }

  ghost predicate UniqueKeys(jobs: seq<Job>) {
    forall i, j :: 0 <= i < j < |jobs| && jobs[i].key.Some? ==> jobs[i].key != jobs[j].key
  }

  /** A report had at most nine others in the hour before it. */
  predicate FewBefore(jobs: seq<Job>, n: nat)
    requires n < |jobs|
  {
    jobs[n].isReport ==> |Recent(jobs[..n], jobs[n].at - HOUR)| < LIMIT
  }

  ghost predicate Limited(jobs: seq<Job>) {
    forall n: nat :: n < |jobs| ==> FewBefore(jobs, n)
  }

  ghost predicate Inv(jobs: seq<Job>) {
    Ordered(jobs) && UniqueKeys(jobs) && Limited(jobs)
  }

  lemma Subset<T>(a: set<T>, b: set<T>)
    requires a <= b
    ensures |a| <= |b|
  {
    assert b == a + (b - a);
  }

  lemma AppendKeepsLimit(jobs: seq<Job>, job: Job)
    requires Limited(jobs) && (job.isReport ==> |Recent(jobs, job.at - HOUR)| < LIMIT)
    ensures Limited(jobs + [job])
  {
    var after := jobs + [job];
    forall n: nat | n < |after| ensures FewBefore(after, n) {
      if n < |jobs| {
        assert FewBefore(jobs, n) && after[..n] == jobs[..n];
      } else {
        assert after[..n] == jobs;
      }
    }
  }

  lemma AppendKeeps(jobs: seq<Job>, job: Job)
    requires Inv(jobs) && forall i :: 0 <= i < |jobs| ==> jobs[i].at <= job.at
    requires job.key.Some? ==> forall i :: 0 <= i < |jobs| ==> jobs[i].key != job.key
    requires job.isReport ==> |Recent(jobs, job.at - HOUR)| < LIMIT
    ensures Inv(jobs + [job])
  {
    AppendKeepsLimit(jobs, job);
  }

  lemma StepKeeps(jobs: seq<Job>, e: Event)
    requires Inv(jobs) && InOrder(jobs, e) && (e.Report? ==> e.checkedAt <= e.insertedAt)
    ensures Inv(Next(jobs, e))
  {
    match e
    case OtherMail(at) => AppendKeeps(jobs, Job(false, None, "", at));
    case Report(key, hash, checkedAt, insertedAt, _) =>
      if Find(jobs, key).None? && |Recent(jobs, checkedAt - HOUR)| < LIMIT {
        Subset(Recent(jobs, insertedAt - HOUR), Recent(jobs, checkedAt - HOUR));
        AppendKeeps(jobs, Job(true, Some(key), hash, insertedAt));
      }
  }

  lemma {:induction false} RunKeeps(jobs: seq<Job>, events: seq<Event>)
    requires Inv(jobs) && Legal(jobs, events)
    ensures Inv(Exec(jobs, events))
    decreases |events|
  {
    if events != [] {
      StepKeeps(jobs, events[0]);
      RunKeeps(Next(jobs, events[0]), events[1..]);
    }
  }

  lemma Latest(window: set<nat>) returns (last: nat)
    requires window != {}
    ensures last in window && forall i :: i in window ==> i <= last
    decreases |window|
  {
    var any :| any in window;
    if window - {any} == {} {
      assert window == {any};
      return any;
    }
    var rest := Latest(window - {any});
    last := if any < rest then rest else any;
    assert forall i :: i in window ==> i == any || i in window - {any};
  }

  /** The hour up to any moment holds its latest report and what that report counted. */
  lemma WindowEndsWith(jobs: seq<Job>, t: int, last: nat)
    requires Ordered(jobs) && last in Window(jobs, t) && forall i :: i in Window(jobs, t) ==> i <= last
    ensures Window(jobs, t) <= Recent(jobs[..last], jobs[last].at - HOUR) + {last}
  {}

  /** In every run, every hour-long window of the account holds at most ten reports. */
  lemma TenInEveryHour(events: seq<Event>, t: int)
    requires Legal([], events)
    ensures |set i: nat | i < |Exec([], events)| && Exec([], events)[i].isReport
                         && t - 3_600_000_000 < Exec([], events)[i].at <= t| <= 10
  {
    RunKeeps([], events);
    var jobs := Exec([], events);
    assert Window(jobs, t) == set i: nat | i < |jobs| && jobs[i].isReport && t - 3_600_000_000 < jobs[i].at <= t;
    if Window(jobs, t) != {} {
      var last := Latest(Window(jobs, t));
      WindowEndsWith(jobs, t, last);
      assert FewBefore(jobs, last);
      Subset(Window(jobs, t), Recent(jobs[..last], jobs[last].at - HOUR) + {last});
    }
  }

  /** A stored key never adds a row again, with the same body or another one. */
  lemma StoredKeyAddsNothing(events: seq<Event>, i: nat, key: string, hash: string, checkedAt: int, insertedAt: int)
    requires Legal([], events) && i < |Exec([], events)| && Exec([], events)[i].key == Some(key)
    ensures var jobs := Exec([], events);
            Reported(jobs, key, hash, checkedAt, insertedAt) ==
            (jobs, if jobs[i].hash == hash then Success(i) else Failure(KeyReused))
  {
    RunKeeps([], events);
  }
}
