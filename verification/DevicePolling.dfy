/** Waiting for a device sign-in: polls with an interval that only grows, until the code's time is over. */
module DevicePolling {
  const SECOND: nat := 1_000_000_000
  const SLOW_DOWN_STEP: nat := 5 * SECOND

  datatype Answer = SignedIn | Denied | Expired | SlowDown | Pending | Transient | Permanent

  /** What the n-th poll is answered, and how long that takes. */
  datatype Poll = Poll(answer: Answer, took: nat)

  datatype Outcome = Approved | AccessDenied | ExpiredToken | Failed

  datatype Notice = SlowedDown(interval: nat) | StillPending | Retrying(retryIn: nat)

  function AtLeastOne(seconds: nat): nat {
    (if seconds == 0 then 1 else seconds) * SECOND
  }

  /** In nanoseconds, and at least one second. */
  function Seconds(seconds: nat): nat {
    1_000_000_000 * if seconds < 1 then 1 else seconds
  }

  /** The account service and the clock: `starts` holds when it was polled. */
  class Service {
    const world: nat -> Poll
    var now: nat
    var starts: seq<nat>

    constructor (world: nat -> Poll, now: nat)
      ensures this.world == world && this.now == now && starts == []
    {
      this.world, this.now, starts := world, now, [];
    }

    /** An exact sleep. */
    method Sleep(duration: nat)
      modifies this`now
      ensures now == old(now) + duration
    {
      now := now + duration;
    }

    method PollOnce() returns (answer: Answer)
      modifies this
      ensures answer == world(|old(starts)|).answer
      ensures starts == old(starts) + [old(now)] && now == old(now) + world(|old(starts)|).took
    {
      var poll := world(|starts|);
      answer, starts := poll.answer, starts + [now];
      now := now + poll.took;
    }
  }

  // ---- What a wait is --------------------------------------------------------------------

  function SlowDownsBefore(world: nat -> Poll, n: nat): set<nat> {
    set k: nat | k < n && world(k).answer.SlowDown?
  }

  /** `k` slow-down steps. */
  function Steps(k: nat): nat {
    if k == 0 then 0 else Steps(k - 1) + SLOW_DOWN_STEP
  }

  lemma {:induction false} StepsAre(k: nat)
    ensures Steps(k) == k * SLOW_DOWN_STEP
  {
    if k > 0 {
      StepsAre(k - 1);
    }
  }

  /** RFC 8628, section 3.5: five seconds more after every slow-down before poll `n`, counted from zero. */
  function Interval(first: nat, world: nat -> Poll, n: nat): nat {
    first + Steps(|SlowDownsBefore(world, n)|)
  }

  predicate GoesOn(answer: Answer) {
    answer.SlowDown? || answer.Pending? || answer.Transient?
  }

  /** When poll `n` was answered. */
  function Answered(world: nat -> Poll, starts: seq<nat>, n: nat): nat
    requires n < |starts|
  {
    starts[n] + world(n).took
  }

  /** Poll `n` leads to another: one interval after its answer, if that is in time. */
  predicate LeadsOn(began: nat, first: nat, lifetime: nat, world: nat -> Poll, starts: seq<nat>, n: nat, next: nat)
    requires n < |starts|
  {
    && GoesOn(world(n).answer)
    && next == Answered(world, starts, n) + Interval(first, world, n + 1)
    && next <= began + lifetime
  }

  predicate Follows(began: nat, first: nat, lifetime: nat, world: nat -> Poll, starts: seq<nat>, n: nat)
    requires 1 <= n < |starts|
  {
    LeadsOn(began, first, lifetime, world, starts, n - 1, starts[n])
  }

  /** The times of the polls of a wait: the first after one interval, each other one led to by the one before. */
  ghost predicate Spaced(began: nat, first: nat, lifetime: nat, world: nat -> Poll, starts: seq<nat>) {
    && (starts != [] ==> starts[0] == began + first)
    && forall n :: 1 <= n < |starts| ==> Follows(began, first, lifetime, world, starts, n)
  }

  /** Nothing follows poll `n`: its answer is final, or the next poll would be too late. */
  predicate Ends(began: nat, first: nat, lifetime: nat, world: nat -> Poll, starts: seq<nat>, n: nat)
    requires n < |starts|
  {
    !GoesOn(world(n).answer) || Answered(world, starts, n) + Interval(first, world, n + 1) > began + lifetime
  }

  /** A whole wait: polls spaced as they should be, the last of which ends it. */
  ghost predicate IsWait(began: nat, first: nat, lifetime: nat, world: nat -> Poll, starts: seq<nat>) {
    starts != [] && Spaced(began, first, lifetime, world, starts) && Ends(began, first, lifetime, world, starts, |starts| - 1)
  }

  function OutcomeOf(answer: Answer): Outcome {
    match answer
    case SignedIn => Approved
    case Denied => AccessDenied
    case Permanent => Failed
    case _ => ExpiredToken
  }

  /** The outcome of a wait, by its last answer. */
  predicate Means(outcome: Outcome, last: Answer) {
    && (outcome == Approved <==> last == SignedIn)
    && (outcome == AccessDenied <==> last == Denied)
    && (outcome == Failed <==> last == Permanent)
    && (outcome == ExpiredToken <==> last == Expired || last == SlowDown || last == Pending || last == Transient)
  }

  lemma OutcomeMeans(last: Answer)
    ensures Means(OutcomeOf(last), last)
  {}

  /** What is told about an answer that is not final, with the interval from then on. */
  function Told(answer: Answer, interval: nat): Notice {
    match answer
    case SlowDown => SlowedDown(interval)
    case Transient => Retrying(interval)
    case _ => StillPending
  }

  /** What is told about the first `n` polls. */
  function Notices(first: nat, world: nat -> Poll, n: nat): seq<Notice> {
    if n == 0 then [] else Notices(first, world, n - 1) + [Told(world(n - 1).answer, Interval(first, world, n))]
  }

  lemma SlowDownsGrow(world: nat -> Poll, n: nat)
    ensures |SlowDownsBefore(world, n + 1)| == |SlowDownsBefore(world, n)| + if world(n).answer.SlowDown? then 1 else 0
  {
    var before, after := SlowDownsBefore(world, n), SlowDownsBefore(world, n + 1);
    if world(n).answer.SlowDown? {
      assert after == before + {n};
    } else {
      assert after == before;
    }
  }

  lemma IntervalGrows(first: nat, world: nat -> Poll, n: nat)
    ensures |SlowDownsBefore(world, n + 1)| == |SlowDownsBefore(world, n)| + if world(n).answer.SlowDown? then 1 else 0
    ensures Interval(first, world, n + 1) == Slower(Interval(first, world, n), world(n).answer)
  {
    SlowDownsGrow(world, n);
  }

  lemma OneMore(began: nat, first: nat, lifetime: nat, world: nat -> Poll, starts: seq<nat>, next: nat)
    requires Spaced(began, first, lifetime, world, starts)
    requires if starts == [] then next == began + first else LeadsOn(began, first, lifetime, world, starts, |starts| - 1, next)
    ensures Spaced(began, first, lifetime, world, starts + [next])
  {
    var longer := starts + [next];
    forall n | 1 <= n < |longer| ensures Follows(began, first, lifetime, world, longer, n) {
      if n < |starts| {
        assert Follows(began, first, lifetime, world, starts, n);
      }
    }
  }

  /** At `now`, another poll is to come after `interval`. */
  ghost predicate Due(
    began: nat, first: nat, lifetime: nat, world: nat -> Poll, starts: seq<nat>, now: nat, interval: nat)
  {
    && Spaced(began, first, lifetime, world, starts) && interval == Interval(first, world, |starts|)
    && if starts == [] then now == began
       else LeadsOn(began, first, lifetime, world, starts, |starts| - 1, now + interval)
  }

  function Slower(interval: nat, answer: Answer): nat {
    if answer.SlowDown? then interval + SLOW_DOWN_STEP else interval
  }

  /** One round of the loop: afterwards another poll is due, or the wait is over. */
  lemma Round(began: nat, first: nat, lifetime: nat, world: nat -> Poll, starts: seq<nat>, now: nat, interval: nat)
    requires Due(began, first, lifetime, world, starts, now, interval)
    ensures var n, longer := |starts|, starts + [now + interval];
            var then_, slower := now + interval + world(n).took, Slower(interval, world(n).answer);
            && Spaced(began, first, lifetime, world, longer)
            && (if GoesOn(world(n).answer) && then_ + slower <= began + lifetime
                then Due(began, first, lifetime, world, longer, then_, slower)
                else Ends(began, first, lifetime, world, longer, n))
            && Notices(first, world, n + 1) == Notices(first, world, n) + [Told(world(n).answer, slower)]
  {
    OneMore(began, first, lifetime, world, starts, now + interval);
    IntervalGrows(first, world, |starts|);
  }

  /** Sleeps for the interval and polls. */
  method PollAfter(service: Service, interval: nat, ghost began: nat, ghost first: nat, ghost lifetime: nat)
    returns (answer: Answer)
    requires Due(began, first, lifetime, service.world, service.starts, service.now, interval)
    modifies service
    ensures |service.starts| == |old(service.starts)| + 1 && answer == service.world(|service.starts| - 1).answer
    ensures service.now >= old(service.now) + interval
    ensures Spaced(began, first, lifetime, service.world, service.starts)
    ensures if GoesOn(answer) && service.now + Slower(interval, answer) <= began + lifetime
            then Due(began, first, lifetime, service.world, service.starts, service.now, Slower(interval, answer))
            else Ends(began, first, lifetime, service.world, service.starts, |service.starts| - 1)
    ensures Notices(first, service.world, |service.starts|)
            == Notices(first, service.world, |service.starts| - 1) + [Told(answer, Slower(interval, answer))]
  {
    Round(began, first, lifetime, service.world, service.starts, service.now, interval);
    service.Sleep(interval);
    answer := service.PollOnce();
  }

  /** What a wait comes to: its polls, the outcome its last answer means, and a notice for every answer that
      was not final. */
  ghost predicate IsResult(
    began: nat, first: nat, lifetime: nat, world: nat -> Poll, starts: seq<nat>, outcome: Outcome, notices: seq<Notice>)
  {
    && IsWait(began, first, lifetime, world, starts) && Means(outcome, world(|starts| - 1).answer)
    && notices == Notices(first, world, if GoesOn(world(|starts| - 1).answer) then |starts| else |starts| - 1)
  }

  lemma Result(began: nat, first: nat, lifetime: nat, world: nat -> Poll, starts: seq<nat>)
    requires starts != [] && Spaced(began, first, lifetime, world, starts)
    ensures Ends(began, first, lifetime, world, starts, |starts| - 1) ==>
              var last := world(|starts| - 1).answer;
              IsResult(began, first, lifetime, world, starts, OutcomeOf(last),
                       Notices(first, world, if GoesOn(last) then |starts| else |starts| - 1))
  {
    OutcomeMeans(world(|starts| - 1).answer);
  }

  /** For all answers: the service is polled exactly at the times of a wait, the last poll ends it, and
      every poll whose answer was not final was told about. */
  method WaitForDeviceSignIn(service: Service, expiresIn: nat, intervalSeconds: nat)
    returns (outcome: Outcome, notices: seq<Notice>)
    requires service.starts == []
    modifies service
    ensures IsResult(
              old(service.now), Seconds(intervalSeconds), Seconds(expiresIn), service.world, service.starts, outcome, notices)
  {
    var started := service.now;
    var lifetime := AtLeastOne(expiresIn);
    var interval: nat := AtLeastOne(intervalSeconds);
    ghost var first, world := interval, service.world;
    assert first == Seconds(intervalSeconds) && lifetime == Seconds(expiresIn);
    notices := [];
    assert SlowDownsBefore(world, 0) == {};
    while true
      invariant Due(started, first, lifetime, world, service.starts, service.now, interval)
      invariant interval >= first > 0
      invariant notices == Notices(first, world, |service.starts|)
      decreases started + lifetime + first - service.now
    {
      var answer := PollAfter(service, interval, started, first, lifetime);
      Result(started, first, lifetime, world, service.starts);
      if !GoesOn(answer) {
        return OutcomeOf(answer), notices;
      }
      if answer.SlowDown? {
        interval := interval + SLOW_DOWN_STEP;
      }
      notices := notices + [Told(answer, interval)];
      if service.now - started + interval > lifetime {
        return ExpiredToken, notices;
      }
    }
  }

  // ---- What a wait guarantees ------------------------------------------------------------

  /** Consecutive polls are at least the current interval apart, the interval is the first one and five
      seconds for every slow-down so far, and it never shrinks. */
  lemma PollsAreApart(began: nat, first: nat, lifetime: nat, world: nat -> Poll, starts: seq<nat>, n: nat)
    requires Spaced(began, first, lifetime, world, starts) && n + 1 < |starts|
    ensures starts[n + 1] - starts[n] >= Interval(first, world, n + 1) >= Interval(first, world, n)
    ensures Interval(first, world, n + 1) == first + |SlowDownsBefore(world, n + 1)| * SLOW_DOWN_STEP
    ensures starts[0] == began + first
    ensures starts[n + 1] == starts[n] + world(n).took + first + |SlowDownsBefore(world, n + 1)| * 5_000_000_000
  {
    IntervalGrows(first, world, n);
    StepsAre(|SlowDownsBefore(world, n + 1)|);
    assert Follows(began, first, lifetime, world, starts, n + 1);
  }

  /** A wait is approved exactly when one of its polls is answered with a sign-in, and that is the last one.
      It ends without a final answer only when the next poll would start after the lifetime. */
  lemma WaitEnds(began: nat, first: nat, lifetime: nat, world: nat -> Poll, starts: seq<nat>)
    requires IsWait(began, first, lifetime, world, starts)
    ensures var last := |starts| - 1;
            && (forall n: nat :: n < last ==> world(n).answer == SlowDown || world(n).answer == Pending || world(n).answer == Transient)
            && (world(last).answer == SlowDown || world(last).answer == Pending || world(last).answer == Transient ==>
                  starts[last] + world(last).took + first + |SlowDownsBefore(world, |starts|)| * 5_000_000_000 > began + lifetime)
            && ((exists n: nat :: n < |starts| && world(n).answer == SignedIn) <==> world(last).answer == SignedIn)
  {
    var last := |starts| - 1;
    StepsAre(|SlowDownsBefore(world, |starts|)|);
    forall n: nat | n < last ensures GoesOn(world(n).answer) {
      assert Follows(began, first, lifetime, world, starts, n + 1);
    }
  }

  /** What is told about poll `k`: the new interval after a slow-down, that it is retried after a temporary
      failure, and otherwise only that it is pending. */
  lemma {:induction false} NoticeAt(first: nat, world: nat -> Poll, n: nat, k: nat)
    requires k < n
    ensures |Notices(first, world, n)| == n
    ensures var interval := first + |SlowDownsBefore(world, k + 1)| * 5_000_000_000;
            && (world(k).answer == SlowDown ==> Notices(first, world, n)[k] == SlowedDown(interval))
            && (world(k).answer == Transient ==> Notices(first, world, n)[k] == Retrying(interval))
            && (world(k).answer == Pending ==> Notices(first, world, n)[k] == StillPending)
    decreases n
  {
    StepsAre(|SlowDownsBefore(world, k + 1)|);
    if n > 1 {
      NoticeAt(first, world, n - 1, if k < n - 1 then k else 0);
    }
  }

  /** 1 + 2 + ... + `s` steps. */
  function TriangleSteps(s: nat): nat {
    if s == 0 then 0 else TriangleSteps(s - 1) + Steps(s)
  }

  lemma {:induction false} TriangleIsQuadratic(s: nat)
    ensures 2 * TriangleSteps(s) == s * (s + 1) * SLOW_DOWN_STEP
  {
    if s > 0 {
      TriangleIsQuadratic(s - 1);
      StepsAre(s);
      Distribute(s);
    }
  }

  lemma Distribute(s: nat)
    requires s > 0
    ensures s * (s + 1) * SLOW_DOWN_STEP == (s - 1) * s * SLOW_DOWN_STEP + 2 * (s * SLOW_DOWN_STEP)
  {
    assert s * (s + 1) == (s - 1) * s + 2 * s;
  }

  function Times(n: nat, first: nat): nat {
    if n == 0 then 0 else Times(n - 1, first) + first
  }

  lemma {:induction false} TimesIsProduct(n: nat, first: nat)
    ensures Times(n, first) == n * first
  {
    if n > 0 {
      TimesIsProduct(n - 1, first);
      assert n * first == (n - 1) * first + first;
    }
  }

  /** What the poll before gives the next one. */
  lemma BoundStep(began: nat, first: nat, n: nat, s: nat, slow: bool, before: nat, took: nat)
    requires began + Times(n, first) + TriangleSteps(s) <= before
    ensures var more := s + if slow then 1 else 0;
            began + Times(n + 1, first) + TriangleSteps(more) <= before + took + (first + Steps(more))
  {
    assert Times(n + 1, first) == Times(n, first) + first;
  }

  /** Poll `n`, counted from zero, comes no earlier than n + 1 first intervals and what the slow-downs add. */
  lemma {:induction false} QuadraticBound(began: nat, first: nat, lifetime: nat, world: nat -> Poll, starts: seq<nat>, n: nat)
    requires Spaced(began, first, lifetime, world, starts) && n < |starts|
    ensures began + Times(n + 1, first) + TriangleSteps(|SlowDownsBefore(world, n)|) <= starts[n]
    decreases n
  {
    if n == 0 {
      assert SlowDownsBefore(world, 0) == {};
      assert Times(1, first) == Times(0, first) + first;
    } else {
      QuadraticBound(began, first, lifetime, world, starts, n - 1);
      SlowDownsGrow(world, n - 1);
      assert Follows(began, first, lifetime, world, starts, n);
      BoundStep(
        began, first, n, |SlowDownsBefore(world, n - 1)|, world(n - 1).answer.SlowDown?, starts[n - 1], world(n - 1).took);
    }
  }

  lemma BoundInTime(began: nat, first: nat, lifetime: nat, world: nat -> Poll, starts: seq<nat>, n: nat)
    requires Spaced(began, first, lifetime, world, starts) && 2 <= n <= |starts|
    ensures starts[n - 1] <= began + lifetime
    ensures Times(n, first) + TriangleSteps(|SlowDownsBefore(world, n - 1)|) <= lifetime
  {
    QuadraticBound(began, first, lifetime, world, starts, n - 1);
    assert Follows(began, first, lifetime, world, starts, n - 1);
  }

  /** Poll n (from the second on, counted from one) with s slow-downs before it starts within the lifetime
      and satisfies n * first + 5 s (s + 1) / 2 <= lifetime, here with both sides doubled. */
  lemma PollsFitTheLifetime(began: nat, first: nat, lifetime: nat, world: nat -> Poll, starts: seq<nat>, n: nat, s: nat)
    requires Spaced(began, first, lifetime, world, starts) && 2 <= n <= |starts|
    requires s == |SlowDownsBefore(world, n - 1)|
    ensures starts[n - 1] <= began + lifetime
    ensures 2 * (n * first) + s * (s + 1) * SLOW_DOWN_STEP <= 2 * lifetime
  {
    BoundInTime(began, first, lifetime, world, starts, n);
    assert 2 * Times(n, first) + 2 * TriangleSteps(s) <= 2 * lifetime;
    TimesIsProduct(n, first);
    TriangleIsQuadratic(s);
  }

  lemma SameNext(began: nat, first: nat, lifetime: nat, world: nat -> Poll, a: seq<nat>, b: seq<nat>, n: nat, next: nat)
    requires n < |a| && n < |b| && a[n] == b[n]
    ensures LeadsOn(began, first, lifetime, world, a, n, next) ==>
              LeadsOn(began, first, lifetime, world, b, n, next) && !Ends(began, first, lifetime, world, b, n)
    ensures forall other :: LeadsOn(began, first, lifetime, world, a, n, next) && LeadsOn(began, first, lifetime, world, b, n, other) ==>
                              next == other
  {}

  /** The answers and their durations leave only one wait. */
  lemma {:induction false} WaitsAgree(
      began: nat, first: nat, lifetime: nat, world: nat -> Poll, a: seq<nat>, b: seq<nat>, n: nat)
    requires IsWait(began, first, lifetime, world, a) && IsWait(began, first, lifetime, world, b) && n < |a|
    ensures n < |b| && a[n] == b[n]
    decreases n
  {
    if n > 0 {
      WaitsAgree(began, first, lifetime, world, a, b, n - 1);
      assert Follows(began, first, lifetime, world, a, n);
      SameNext(began, first, lifetime, world, a, b, n - 1, a[n]);
      assert n < |b| ==> Follows(began, first, lifetime, world, b, n);
    }
  }
}
