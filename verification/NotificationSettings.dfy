/**
 * Versioned notification configuration, replaced under optimistic concurrency that tolerates late
 * retries. The list-wide settings and the per-todo overrides follow the same rules; `Config` is either.
 */
module NotificationSettings {
  import opened Wrappers

  const I64_MAX: int := 0x7FFF_FFFF_FFFF_FFFF
  const U64_MAX: int := 0xFFFF_FFFF_FFFF_FFFF

  type I64 = v: int | -I64_MAX - 1 <= v <= I64_MAX
  type U64 = v: int | 0 <= v <= U64_MAX

  datatype Row<Config> = Row(config: Config, version: I64)

  datatype Decision = ReturnCurrent | Replace | Conflict

  datatype Error = VersionConflict | VersionOverflow

  function ToI64(v: U64): Option<I64> {
    if v <= I64_MAX then Some(v) else None
  }

  function ReplacementDecision(expected: U64, current: I64, desiredMatches: bool): Decision {
    if ToI64(expected) == Some(current) then
      if desiredMatches then ReturnCurrent else Replace
    else if desiredMatches && ToI64(expected).Some? && ToI64(expected).value < current then ReturnCurrent
    else Conflict
  }

  /** The stored row and the answer after one replacement; the store adds one to the version. */
  function Replaced<Config(==)>(row: Option<Row<Config>>, desired: Config, expected: U64)
    : (Option<Row<Config>>, Result<Row<Config>, Error>)
  {
    match row
    case None =>
      if expected != 0 then (None, Failure(VersionConflict)) else (Some(Row(desired, 1)), Success(Row(desired, 1)))
    case Some(current) =>
      match ReplacementDecision(expected, current.version, current.config == desired)
      case ReturnCurrent => (row, Success(current))
      case Conflict => (row, Failure(VersionConflict))
      case Replace =>
        if current.version == I64_MAX then (row, Failure(VersionOverflow))
        else (Some(Row(desired, current.version + 1)), Success(Row(desired, current.version + 1)))
  }

  class Resource<Config(==)> {
    var row: Option<Row<Config>>

    /** Runs under the Silicon's notification lock; a failed one leaves the row alone. */
    method Replace(desired: Config, expected: U64) returns (r: Result<Row<Config>, Error>)
      modifies this
      ensures (row, r) == Replaced(old(row), desired, expected)
    {
      if row.Some? {
        var current := row.value;
        var decision := ReplacementDecision(expected, current.version, current.config == desired);
        if decision == Conflict {
          return Failure(VersionConflict);
        }
        if decision == ReturnCurrent {
          return Success(current);
        }
        if current.version == I64_MAX {
          return Failure(VersionOverflow);
        }
        row := Some(Row(desired, current.version + 1));
      } else {
        if expected != 0 {
          return Failure(VersionConflict);
        }
        row := Some(Row(desired, 1));
      }
      return Success(row.value);
    }
  }

  // ---- Runs ------------------------------------------------------------------------------

  /** Anyone may submit anything at any time; deleting the account deletes its rows. */
  datatype Event<Config> = Submit(desired: Config, expected: U64) | AccountDeleted

  function Next<Config(==)>(row: Option<Row<Config>>, e: Event<Config>): Option<Row<Config>> {
    match e
    case Submit(desired, expected) => Replaced(row, desired, expected).0
    case AccountDeleted => None
  }

  function Exec<Config(==)>(row: Option<Row<Config>>, events: seq<Event<Config>>): Option<Row<Config>>
    decreases |events|
  {
    if events == [] then row else Exec(Next(row, events[0]), events[1..])
  }

  predicate KeepsAccount<Config(==)>(events: seq<Event<Config>>) {
    forall i :: 0 <= i < |events| ==> !events[i].AccountDeleted?
  }

  /** Stored versions start at one; the absent row has the virtual version zero. */
  predicate ValidRow<Config(==)>(row: Option<Row<Config>>) {
    row.Some? ==> row.value.version >= 1
  }

  function VersionOf<Config(==)>(row: Option<Row<Config>>): I64 {
    if row.Some? then row.value.version else 0
  }

  lemma StepGrows<Config>(row: Option<Row<Config>>, e: Event<Config>)
    requires ValidRow(row) && e.Submit?
    ensures var after := Next(row, e);
            && ValidRow(after)
            && (after == row || (VersionOf(after) == VersionOf(row) + 1 == e.expected + 1 && after.Some? && after.value.config == e.desired))
  {}

  /** Versions never go back, and one version never stands for two configurations. */
  lemma {:induction false} VersionsGrow<Config>(row: Option<Row<Config>>, events: seq<Event<Config>>)
    requires ValidRow(row) && KeepsAccount(events)
    ensures ValidRow(Exec(row, events)) && VersionOf(row) <= VersionOf(Exec(row, events))
    ensures VersionOf(Exec(row, events)) == VersionOf(row) ==> Exec(row, events) == row
    decreases |events|
  {
    if events != [] {
      StepGrows(row, events[0]);
      VersionsGrow(Next(row, events[0]), events[1..]);
    }
  }

  /** No lost update: who read a row and sends its version changes only exactly what was read. */
  lemma NoLostUpdate<Config>(seen: Option<Row<Config>>, events: seq<Event<Config>>, desired: Config, expected: U64)
    requires ValidRow(seen) && KeepsAccount(events) && expected == VersionOf(seen)
    requires Next(Exec(seen, events), Submit(desired, expected)) != Exec(seen, events)
    ensures Exec(seen, events) == seen
  {
    VersionsGrow(seen, events);
    StepGrows(Exec(seen, events), Submit(desired, expected));
  }

  /** The exact answer to every request, for every expected and stored version. */
  lemma AnswerIff<Config>(row: Option<Row<Config>>, desired: Config, expected: U64)
    requires ValidRow(row)
    ensures var (after, r) := Replaced(row, desired, expected);
            && (r.Success? ==> after == Some(r.value) && r.value.config == desired)
            && (after != row <==> r.Success? && expected == VersionOf(row) && (row.Some? ==> row.value.config != desired))
            && (r == Failure(VersionConflict) <==>
                expected != VersionOf(row) && (expected > VersionOf(row) || row.None? || row.value.config != desired))
            && (r == Failure(VersionOverflow) <==> expected == VersionOf(row) == I64_MAX && row.Some? && row.value.config != desired)
  {}

  /** A request that changed the row never changes it again, however late it is sent again: it is answered
      with the current row if that still is what it asked for, and with a conflict otherwise. */
  lemma ChangesOnce<Config>(row: Option<Row<Config>>, desired: Config, expected: U64, events: seq<Event<Config>>)
    requires ValidRow(row) && KeepsAccount(events)
    requires Replaced(row, desired, expected).0 != row
    ensures var later := Exec(Replaced(row, desired, expected).0, events);
            && later.Some?
            && Replaced(later, desired, expected) ==
               (later, if later.value.config == desired then Success(later.value) else Failure(VersionConflict))
  {
    StepGrows(row, Submit(desired, expected));
    VersionsGrow(Replaced(row, desired, expected).0, events);
  }

  /** Only deleting the account's rows lets a request change them a second time. */
  lemma SecondChangeNeedsDeletion<Config>(
      row: Option<Row<Config>>, desired: Config, expected: U64, events: seq<Event<Config>>)
    requires ValidRow(row) && Replaced(row, desired, expected).0 != row
    requires Next(Exec(Replaced(row, desired, expected).0, events), Submit(desired, expected))
             != Exec(Replaced(row, desired, expected).0, events)
    ensures !KeepsAccount(events)
  {
    if KeepsAccount(events) {
      ChangesOnce(row, desired, expected, events);
    }
  }

  lemma {:induction false} ExecTogether<Config>(row: Option<Row<Config>>, first: seq<Event<Config>>, second: seq<Event<Config>>)
    ensures Exec(row, first + second) == Exec(Exec(row, first), second)
    decreases |first|
  {
    if first == [] {
      assert first + second == second;
    } else {
      assert (first + second)[1..] == first[1..] + second;
      ExecTogether(Next(row, first[0]), first[1..], second);
    }
  }

  /** Requests that take an absent row to version `v` with configuration `a`, alternating with `b`. */
  function Climb<Config>(v: U64, a: Config, b: Config): seq<Event<Config>>
    requires v <= I64_MAX
    decreases v
  {
    if v == 0 then [] else Climb(v - 1, b, a) + [Submit(a, v - 1)]
  }

  lemma {:induction false} Climbs<Config>(v: U64, a: Config, b: Config)
    requires a != b && v <= I64_MAX
    ensures Exec(None, Climb(v, a, b)) == if v == 0 then None else Some(Row(a, v))
    decreases v
  {
    if v > 0 {
      Climbs(v - 1, b, a);
      ExecTogether(None, Climb(v - 1, b, a), [Submit(a, v - 1)]);
      var before := Exec(None, Climb(v - 1, b, a));
      assert Exec(before, [Submit(a, v - 1)]) == Exec(Next(before, Submit(a, v - 1)), []);
    }
  }

  /** And it does, for every request that ever changed the row: after a deletion there is a run in which
      the same request, sent again, changes it again. */
  lemma DeletionAllowsASecondChange<Config>(row: Option<Row<Config>>, desired: Config, expected: U64)
    returns (events: seq<Event<Config>>)
    requires ValidRow(row) && Replaced(row, desired, expected).0 != row
    ensures var later := Exec(Replaced(row, desired, expected).0, events);
            Next(later, Submit(desired, expected)) != later
  {
    var once := Replaced(row, desired, expected).0;
    if row.None? {
      events := [AccountDeleted];
      assert Exec(once, events) == Exec(Next(once, AccountDeleted), []);
    } else {
      var climb := Climb(expected, row.value.config, desired);
      events := [AccountDeleted] + climb;
      assert events[1..] == climb;
      Climbs(expected, row.value.config, desired);
    }
  }
}
