/** The policy of `backend/agents/usage.py`: ledger aggregates, verdicts and runs left. */
module UsageQuota {
  import opened Wrappers

  /** Microseconds, the resolution of `timestamptz`. */
  type Time = int
  const DAY: Time := 86_400_000_000
  const WEEK: Time := 7 * DAY

  datatype Kind = Run | Llm
  datatype Row = Row(owner: string, kind: Kind, createdAt: Time, cost: real)

  datatype Settings = Settings(runsPerDay: int, runsPerWeek: int, usdPerDay: real, usdPerWeek: real,
                               globalUsdPerDay: real, maxConcurrentRuns: int)

  datatype Stats = Stats(runsDay: nat, runsWeek: nat, usdDay: real, usdWeek: real, globalUsdDay: real,
                         runsDayOldest: Option<Time>, runsWeekOldest: Option<Time>,
                         usdDayOldest: Option<Time>, usdWeekOldest: Option<Time>, globalUsdDayOldest: Option<Time>,
                         activeRuns: nat)

  datatype Reason = GlobalUsdDay | RunsDay | RunsWeek | UsdDay | UsdWeek | Concurrent
  datatype Verdict = Allowed | Blocked(reason: Reason, resetsAt: Option<Time>)

  predicate Enabled(s: Settings) {
    s.runsPerDay > 0 || s.runsPerWeek > 0 || s.usdPerDay > 0.0 || s.usdPerWeek > 0.0
    || s.globalUsdPerDay > 0.0 || s.maxConcurrentRuns > 0
  }

  // ------------------------------------------------------------ the aggregates of the two queries

  predicate IsRun(r: Row, owner: string) { r.owner == owner && r.kind.Run? }

  /** Runs of `owner` created after `from`. */
  function RunsAfter(rows: seq<Row>, owner: string, from: Time): nat {
    if rows == [] then 0
    else RunsAfter(rows[..|rows| - 1], owner, from)
         + if IsRun(rows[|rows| - 1], owner) && rows[|rows| - 1].createdAt > from then 1 else 0
  }

  function SpendAfter(rows: seq<Row>, owner: string, from: Time): real {
    if rows == [] then 0.0
    else SpendAfter(rows[..|rows| - 1], owner, from)
         + if rows[|rows| - 1].owner == owner && rows[|rows| - 1].createdAt > from then rows[|rows| - 1].cost else 0.0
  }

  function GlobalSpendAfter(rows: seq<Row>, from: Time): real {
    if rows == [] then 0.0
    else GlobalSpendAfter(rows[..|rows| - 1], from)
         + if rows[|rows| - 1].kind.Llm? && rows[|rows| - 1].createdAt > from then rows[|rows| - 1].cost else 0.0
  }

  function Earlier(a: Option<Time>, b: Time): Option<Time> {
    if a.Some? && a.value <= b then a else Some(b)
  }

  function OldestRun(rows: seq<Row>, owner: string, from: Time): Option<Time> {
    if rows == [] then None
    else
      var before := OldestRun(rows[..|rows| - 1], owner, from);
      var r := rows[|rows| - 1];
      if IsRun(r, owner) && r.createdAt > from then Earlier(before, r.createdAt) else before
  }

  function OldestLlm(rows: seq<Row>, owner: Option<string>, from: Time): Option<Time> {
    if rows == [] then None
    else
      var before := OldestLlm(rows[..|rows| - 1], owner, from);
      var r := rows[|rows| - 1];
      if r.kind.Llm? && (owner.Some? ==> r.owner == owner.value) && r.createdAt > from
      then Earlier(before, r.createdAt) else before
  }

  /** `_load_stats` at transaction time `now`; `active` is the outcome of the query on `run`. */
  function LoadStats(rows: seq<Row>, owner: string, now: Time, active: nat): Stats {
    Stats(RunsAfter(rows, owner, now - DAY), RunsAfter(rows, owner, now - WEEK),
          SpendAfter(rows, owner, now - DAY), SpendAfter(rows, owner, now - WEEK), GlobalSpendAfter(rows, now - DAY),
          OldestRun(rows, owner, now - DAY), OldestRun(rows, owner, now - WEEK),
          OldestLlm(rows, Some(owner), now - DAY), OldestLlm(rows, Some(owner), now - WEEK),
          OldestLlm(rows, None, now - DAY), active)
  }

  // ------------------------------------------------------------ evaluate

  datatype Check = Check(reason: Reason, limit: real, used: real, oldest: Option<Time>, window: Time)

  function Checks(st: Stats, s: Settings): seq<Check> {
    [Check(GlobalUsdDay, s.globalUsdPerDay, st.globalUsdDay, st.globalUsdDayOldest, DAY),
     Check(RunsDay, s.runsPerDay as real, st.runsDay as real, st.runsDayOldest, DAY),
     Check(RunsWeek, s.runsPerWeek as real, st.runsWeek as real, st.runsWeekOldest, WEEK),
     Check(UsdDay, s.usdPerDay, st.usdDay, st.usdDayOldest, DAY),
     Check(UsdWeek, s.usdPerWeek, st.usdWeek, st.usdWeekOldest, WEEK)]
  }

  predicate Hit(c: Check) { c.limit > 0.0 && c.used >= c.limit }

  function BlockedBy(c: Check): Verdict {
    Blocked(c.reason, if c.oldest.Some? then Some(c.oldest.value + c.window) else None)
  }

  function FirstBlock(checks: seq<Check>): Verdict {
    if checks == [] then Allowed
    else if Hit(checks[0]) then BlockedBy(checks[0])
    else FirstBlock(checks[1..])
  }

  function Evaluate(st: Stats, s: Settings, checkActive: bool): Verdict {
    var v := FirstBlock(Checks(st, s));
    if v.Blocked? then v
    else if checkActive && s.maxConcurrentRuns > 0 && st.activeRuns >= s.maxConcurrentRuns then
      Blocked(Concurrent, None)
    else Allowed
  }

  function Min(a: int, b: int): int { if a <= b then a else b }

  /** `runs_left_today` */
  function RunsLeft(st: Stats, s: Settings): Option<nat> {
    var day, week := s.runsPerDay - st.runsDay, s.runsPerWeek - st.runsWeek;
    if s.runsPerDay <= 0 && s.runsPerWeek <= 0 then None
    else
      var left := if s.runsPerWeek <= 0 then day else if s.runsPerDay <= 0 then week else Min(day, week);
      Some(if left < 0 then 0 else left)
  }

  // ------------------------------------------------------------ what a verdict means

  predicate RunLimitHit(st: Stats, s: Settings) {
    (s.runsPerDay > 0 && st.runsDay >= s.runsPerDay) || (s.runsPerWeek > 0 && st.runsWeek >= s.runsPerWeek)
  }

  predicate SpendLimitHit(st: Stats, s: Settings) {
    (s.globalUsdPerDay > 0.0 && st.globalUsdDay >= s.globalUsdPerDay)
    || (s.usdPerDay > 0.0 && st.usdDay >= s.usdPerDay) || (s.usdPerWeek > 0.0 && st.usdWeek >= s.usdPerWeek)
  }

  /** The verdict comes from the first check that is hit. */
  lemma {:induction false} FirstBlockIsFirst(checks: seq<Check>)
    ensures FirstBlock(checks).Allowed? <==> forall i: nat | i < |checks| :: !Hit(checks[i])
    ensures FirstBlock(checks).Blocked? ==>
              exists i: nat | i < |checks| && Hit(checks[i]) ::
                FirstBlock(checks) == BlockedBy(checks[i]) && forall j: nat | j < i :: !Hit(checks[j])
  {
    if checks != [] && !Hit(checks[0]) {
      FirstBlockIsFirst(checks[1..]);
      assert forall i: nat | 0 < i < |checks| :: checks[i] == checks[1..][i - 1];
      if FirstBlock(checks).Blocked? {
        var i: nat :| i < |checks[1..]| && Hit(checks[1..][i]) && FirstBlock(checks) == BlockedBy(checks[1..][i])
                      && forall j: nat | j < i :: !Hit(checks[1..][j]);
        assert Hit(checks[i + 1]);
      }
    }
  }

  /** A run is admitted exactly when no limit that is set has been reached, and a verdict
      that names a run limit names one that was, with its own reset time. */
  lemma EvaluateExact(st: Stats, s: Settings, checkActive: bool)
    ensures Evaluate(st, s, checkActive).Allowed? <==>
              !RunLimitHit(st, s) && !SpendLimitHit(st, s)
              && !(checkActive && s.maxConcurrentRuns > 0 && st.activeRuns >= s.maxConcurrentRuns)
    ensures var v := Evaluate(st, s, checkActive);
            && (v.Blocked? && v.reason.RunsDay? ==>
                  s.runsPerDay > 0 && st.runsDay >= s.runsPerDay
                  && v.resetsAt == if st.runsDayOldest.Some? then Some(st.runsDayOldest.value + DAY) else None)
            && (v.Blocked? && v.reason.RunsWeek? ==>
                  s.runsPerWeek > 0 && st.runsWeek >= s.runsPerWeek
                  && v.resetsAt == if st.runsWeekOldest.Some? then Some(st.runsWeekOldest.value + WEEK) else None)
  {
    var cs := Checks(st, s);
    FirstBlockIsFirst(cs);
    assert Hit(cs[0]) || Hit(cs[1]) || Hit(cs[2]) || Hit(cs[3]) || Hit(cs[4])
      <==> RunLimitHit(st, s) || SpendLimitHit(st, s);
  }

  // ------------------------------------------------------------ counting

  /** Runs of `owner` created in the half-open window from `lo` (excluded) to `hi`. */
  function RunsBetween(rows: seq<Row>, owner: string, lo: Time, hi: Time): nat {
    if rows == [] then 0
    else RunsBetween(rows[..|rows| - 1], owner, lo, hi)
         + if IsRun(rows[|rows| - 1], owner) && lo < rows[|rows| - 1].createdAt <= hi then 1 else 0
  }

  lemma {:induction false} BetweenAtMostAfter(rows: seq<Row>, owner: string, lo: Time, hi: Time, from: Time)
    requires from <= lo
    ensures RunsBetween(rows, owner, lo, hi) <= RunsAfter(rows, owner, from)
  {
    if rows != [] { BetweenAtMostAfter(rows[..|rows| - 1], owner, lo, hi, from); }
  }

  predicate NoneLater(rows: seq<Row>, owner: string, now: Time) {
    forall r <- rows :: IsRun(r, owner) ==> r.createdAt <= now
  }

  lemma {:induction false} AfterIsBetween(rows: seq<Row>, owner: string, from: Time, now: Time)
    requires NoneLater(rows, owner, now)
    ensures RunsAfter(rows, owner, from) == RunsBetween(rows, owner, from, now)
  {
    if rows != [] {
      assert rows[|rows| - 1] in rows;
      assert forall r <- rows[..|rows| - 1] :: r in rows;
      AfterIsBetween(rows[..|rows| - 1], owner, from, now);
    }
  }

  lemma {:induction false} OldestFacts(rows: seq<Row>, owner: string, from: Time)
    ensures var o := OldestRun(rows, owner, from);
            && (o.None? <==> RunsAfter(rows, owner, from) == 0)
            && (o.Some? ==>
                  o.value > from
                  && RunsAfter(rows, owner, o.value) < RunsAfter(rows, owner, from)
                  && forall later: Time | from <= later < o.value ::
                       RunsAfter(rows, owner, later) == RunsAfter(rows, owner, from))
  {
    if rows != [] {
      var front, r := rows[..|rows| - 1], rows[|rows| - 1];
      OldestFacts(front, owner, from);
      var o := OldestRun(rows, owner, from);
      if o.Some? {
        RunsAfterAntitone(front, owner, from, o.value);
        forall later: Time | from <= later < o.value
          ensures RunsAfter(rows, owner, later) == RunsAfter(rows, owner, from)
        {
          RunsAfterAntitone(front, owner, from, later);
        }
      }
    }
  }

  lemma {:induction false} RunsAfterAntitone(rows: seq<Row>, owner: string, from: Time, later: Time)
    requires from <= later
    ensures RunsAfter(rows, owner, later) <= RunsAfter(rows, owner, from)
  {
    if rows != [] { RunsAfterAntitone(rows[..|rows| - 1], owner, from, later); }
  }

  // ------------------------------------------------------------ resets_at

  predicate LimitBlocks(rows: seq<Row>, owner: string, window: Time, limit: nat, t: Time) {
    RunsAfter(rows, owner, t - window) >= limit
  }

  /** The limit blocks until `reset` and no longer: `reset` is the first instant it lets go. */
  ghost predicate FirstFree(rows: seq<Row>, owner: string, window: Time, limit: nat, now: Time, reset: Time) {
    now < reset && !LimitBlocks(rows, owner, window, limit, reset)
    && forall t: Time | now <= t < reset :: LimitBlocks(rows, owner, window, limit, t)
  }

  /** Runs of `owner` recorded at exactly this time. */
  function RunsAt(rows: seq<Row>, owner: string, t: Time): nat {
    if rows == [] then 0
    else RunsAt(rows[..|rows| - 1], owner, t)
         + if IsRun(rows[|rows| - 1], owner) && rows[|rows| - 1].createdAt == t then 1 else 0
  }

  lemma {:induction false} AtAndAfter(rows: seq<Row>, owner: string, t: Time)
    ensures RunsAfter(rows, owner, t - 1) == RunsAt(rows, owner, t) + RunsAfter(rows, owner, t)
  {
    if rows != [] { AtAndAfter(rows[..|rows| - 1], owner, t); }
  }

  /** The reported reset time of a run limit that blocks is the first instant it stops blocking
      (nothing else being recorded) exactly when the runs in the window, less those that share
      the oldest timestamp in it, are fewer than the limit. */
  lemma ResetExactIff(rows: seq<Row>, owner: string, window: Time, limit: nat, now: Time)
    requires window > 0 && limit > 0 && LimitBlocks(rows, owner, window, limit, now)
    ensures var o := OldestRun(rows, owner, now - window);
            o.Some? && (FirstFree(rows, owner, window, limit, now, o.value + window)
                        <==> RunsAfter(rows, owner, now - window) - RunsAt(rows, owner, o.value) < limit)
  {
    OldestFacts(rows, owner, now - window);
    var o := OldestRun(rows, owner, now - window).value;
    assert (o + window) - window == o;
    AtAndAfter(rows, owner, o);
    assert RunsAfter(rows, owner, o - 1) == RunsAfter(rows, owner, now - window);
    forall t: Time | now <= t < o + window
      ensures LimitBlocks(rows, owner, window, limit, t)
    {
      assert RunsAfter(rows, owner, t - window) == RunsAfter(rows, owner, now - window);
    }
  }

  lemma {:induction false} SomeRunAt(rows: seq<Row>, owner: string, from: Time)
    ensures var o := OldestRun(rows, owner, from); o.Some? ==> RunsAt(rows, owner, o.value) > 0
  {
    if rows != [] { SomeRunAt(rows[..|rows| - 1], owner, from); }
  }

  /** On a ledger that never exceeded the limit, with nothing recorded later than now, the
      reported reset time is exact. */
  lemma ResetExactUnderLimit(rows: seq<Row>, owner: string, window: Time, limit: nat, now: Time)
    requires window > 0 && limit > 0 && LimitBlocks(rows, owner, window, limit, now)
    requires NoneLater(rows, owner, now) && RunsBetween(rows, owner, now - window, now) <= limit
    ensures var o := OldestRun(rows, owner, now - window);
            o.Some? && FirstFree(rows, owner, window, limit, now, o.value + window)
  {
    AfterIsBetween(rows, owner, now - window, now);
    SomeRunAt(rows, owner, now - window);
    ResetExactIff(rows, owner, window, limit, now);
  }

  /** After a limit has been lowered from 2 to 1, the reported time comes too early. */
  lemma ResetTooEarlyAfterLoweringLimit()
    ensures exists rows: seq<Row> ::
              LimitBlocks(rows, "u", DAY, 1, 10) && NoneLater(rows, "u", 10)
              && OldestRun(rows, "u", 10 - DAY).Some?
              && LimitBlocks(rows, "u", DAY, 1, OldestRun(rows, "u", 10 - DAY).value + DAY)
  {
    var a, b := Row("u", Run, 1, 0.0), Row("u", Run, 2, 0.0);
    var rows := [a] + [b];
    forall from: Time
      ensures RunsAfter(rows, "u", from) == (if from < 1 then 1 else 0) + (if from < 2 then 1 else 0)
    {
      OneMoreRow([], a, "u", from);
      OneMoreRow([a], b, "u", from);
      assert [] + [a] == [a];
    }
    OneMoreRow([], a, "u", 10 - DAY);
    OneMoreRow([a], b, "u", 10 - DAY);
    assert [] + [a] == [a];
    assert OldestRun(rows, "u", 10 - DAY) == Some(1);
    assert (1 + DAY) - DAY == 1;
    assert LimitBlocks(rows, "u", DAY, 1, 10) && NoneLater(rows, "u", 10);
    assert LimitBlocks(rows, "u", DAY, 1, OldestRun(rows, "u", 10 - DAY).value + DAY);
  }

  lemma OneMoreRow(rows: seq<Row>, r: Row, owner: string, from: Time)
    requires IsRun(r, owner)
    ensures RunsAfter(rows + [r], owner, from) == RunsAfter(rows, owner, from) + if r.createdAt > from then 1 else 0
    ensures OldestRun(rows + [r], owner, from)
         == if r.createdAt > from then Earlier(OldestRun(rows, owner, from), r.createdAt)
            else OldestRun(rows, owner, from)
  {
    assert (rows + [r])[..|rows|] == rows;
  }

  // ------------------------------------------------------------ what is counted, row by row

  /** A row counts as a run of its owner exactly in the windows that begin before it. */
  lemma RunsAppend(rows: seq<Row>, r: Row, owner: string, from: Time)
    ensures RunsAfter([], owner, from) == 0
    ensures RunsAfter(rows + [r], owner, from)
         == RunsAfter(rows, owner, from) + if r.owner == owner && r.kind == Run && r.createdAt > from then 1 else 0
  {
    assert (rows + [r])[..|rows|] == rows;
  }

  /** Its cost is its owner's, whatever its kind, exactly in the windows that begin before it. */
  lemma SpendAppend(rows: seq<Row>, r: Row, owner: string, from: Time)
    ensures SpendAfter([], owner, from) == 0.0
    ensures SpendAfter(rows + [r], owner, from)
         == SpendAfter(rows, owner, from) + if r.owner == owner && r.createdAt > from then r.cost else 0.0
  {
    assert (rows + [r])[..|rows|] == rows;
  }

  /** The shared spend counts the metered rows of all owners. */
  lemma GlobalSpendAppend(rows: seq<Row>, r: Row, from: Time)
    ensures GlobalSpendAfter([], from) == 0.0
    ensures GlobalSpendAfter(rows + [r], from)
         == GlobalSpendAfter(rows, from) + if r.kind == Llm && r.createdAt > from then r.cost else 0.0
  {
    assert (rows + [r])[..|rows|] == rows;
  }

  /** A row of this kind, of the owner if one is given, created after `from`. */
  predicate Counts(r: Row, kind: Kind, owner: Option<string>, from: Time) {
    r.kind == kind && (owner.Some? ==> r.owner == owner.value) && r.createdAt > from
  }

  /** `o` is the creation time of the oldest such row, if there is any. */
  ghost predicate IsOldest(rows: seq<Row>, kind: Kind, owner: Option<string>, from: Time, o: Option<Time>) {
    if o.None? then forall r <- rows :: !Counts(r, kind, owner, from)
    else (exists r <- rows :: Counts(r, kind, owner, from) && r.createdAt == o.value)
         && forall r <- rows :: Counts(r, kind, owner, from) ==> o.value <= r.createdAt
  }

  lemma OldestAppend(rows: seq<Row>, r: Row, kind: Kind, owner: Option<string>, from: Time, o: Option<Time>)
    requires IsOldest(rows, kind, owner, from, o)
    ensures IsOldest(rows + [r], kind, owner, from,
                     if Counts(r, kind, owner, from) then Earlier(o, r.createdAt) else o)
  {
    var more := rows + [r];
    assert r in more && forall x <- rows :: x in more;
    assert forall x <- more :: x in rows || x == r;
  }

  lemma {:induction false} OldestRunIsOldest(rows: seq<Row>, owner: string, from: Time)
    ensures IsOldest(rows, Run, Some(owner), from, OldestRun(rows, owner, from))
  {
    if rows != [] {
      var front, r := rows[..|rows| - 1], rows[|rows| - 1];
      OldestRunIsOldest(front, owner, from);
      OldestAppend(front, r, Run, Some(owner), from, OldestRun(front, owner, from));
      assert rows == front + [r];
    }
  }

  lemma {:induction false} OldestLlmIsOldest(rows: seq<Row>, owner: Option<string>, from: Time)
    ensures IsOldest(rows, Llm, owner, from, OldestLlm(rows, owner, from))
  {
    if rows != [] {
      var front, r := rows[..|rows| - 1], rows[|rows| - 1];
      OldestLlmIsOldest(front, owner, from);
      OldestAppend(front, r, Llm, owner, from, OldestLlm(front, owner, from));
      assert rows == front + [r];
    }
  }

  // ------------------------------------------------------------ the verdict on a ledger

  /** The five limits on the ledger, each reached when it is set and used up. */
  predicate GlobalReached(rows: seq<Row>, now: Time, s: Settings) {
    s.globalUsdPerDay > 0.0 && GlobalSpendAfter(rows, now - 86_400_000_000) >= s.globalUsdPerDay
  }

  predicate RunsReached(rows: seq<Row>, owner: string, from: Time, limit: int) {
    limit > 0 && RunsAfter(rows, owner, from) >= limit
  }

  predicate SpendReached(rows: seq<Row>, owner: string, from: Time, limit: real) {
    limit > 0.0 && SpendAfter(rows, owner, from) >= limit
  }

  predicate ConcurrencyReached(active: nat, s: Settings) {
    s.maxConcurrentRuns > 0 && active >= s.maxConcurrentRuns
  }

  /** Which limit a refusal names: the first one reached, in this order. */
  function FirstReached(rows: seq<Row>, owner: string, now: Time, active: nat, s: Settings): Option<Reason> {
    var day, week := now - 86_400_000_000, now - 7 * 86_400_000_000;
    if GlobalReached(rows, now, s) then Some(GlobalUsdDay)
    else if RunsReached(rows, owner, day, s.runsPerDay) then Some(RunsDay)
    else if RunsReached(rows, owner, week, s.runsPerWeek) then Some(RunsWeek)
    else if SpendReached(rows, owner, day, s.usdPerDay) then Some(UsdDay)
    else if SpendReached(rows, owner, week, s.usdPerWeek) then Some(UsdWeek)
    else if ConcurrencyReached(active, s) then Some(Concurrent)
    else None
  }

  /** The reset time: the creation time of the oldest row that the limit counts, one window later.
      Spend limits look at the oldest metered row. */
  ghost predicate ResetsWith(rows: seq<Row>, kind: Kind, owner: Option<string>, now: Time, window: Time,
                             reset: Option<Time>)
  {
    exists o: Option<Time> ::
      IsOldest(rows, kind, owner, now - window, o) && reset == if o.None? then None else Some(o.value + window)
  }

  ghost predicate ResetIsRight(rows: seq<Row>, owner: string, now: Time, reason: Reason, reset: Option<Time>) {
    match reason
    case GlobalUsdDay => ResetsWith(rows, Llm, None, now, 86_400_000_000, reset)
    case RunsDay => ResetsWith(rows, Run, Some(owner), now, 86_400_000_000, reset)
    case RunsWeek => ResetsWith(rows, Run, Some(owner), now, 7 * 86_400_000_000, reset)
    case UsdDay => ResetsWith(rows, Llm, Some(owner), now, 86_400_000_000, reset)
    case UsdWeek => ResetsWith(rows, Llm, Some(owner), now, 7 * 86_400_000_000, reset)
    case Concurrent => reset == None
  }

  lemma ResetByOldest(rows: seq<Row>, kind: Kind, owner: Option<string>, now: Time, window: Time, o: Option<Time>)
    requires IsOldest(rows, kind, owner, now - window, o)
    ensures ResetsWith(rows, kind, owner, now, window, if o.None? then None else Some(o.value + window))
  {
  }

  lemma VerdictReason(rows: seq<Row>, owner: string, now: Time, active: nat, s: Settings)
    ensures var v := Evaluate(LoadStats(rows, owner, now, active), s, true);
            match FirstReached(rows, owner, now, active, s)
            case None => v.Allowed?
            case Some(reason) => v.Blocked? && v.reason == reason
  {
    var cs := Checks(LoadStats(rows, owner, now, active), s);
    assert FirstBlock(cs) == if Hit(cs[0]) then BlockedBy(cs[0]) else FirstBlock(cs[1..]);
    assert FirstBlock(cs[1..]) == if Hit(cs[1]) then BlockedBy(cs[1]) else FirstBlock(cs[1..][1..]);
    assert cs[1..][1..] == cs[2..] && cs[2..][1..] == cs[3..] && cs[3..][1..] == cs[4..] && cs[4..][1..] == [];
    assert FirstBlock(cs[2..]) == if Hit(cs[2]) then BlockedBy(cs[2]) else FirstBlock(cs[3..]);
    assert FirstBlock(cs[3..]) == if Hit(cs[3]) then BlockedBy(cs[3]) else FirstBlock(cs[4..]);
    assert FirstBlock(cs[4..]) == if Hit(cs[4]) then BlockedBy(cs[4]) else Allowed;
  }

  /** The oldest row and the window that the checks take for each reason. */
  function OldestFor(st: Stats, reason: Reason): (Option<Time>, Time) {
    match reason
    case GlobalUsdDay => (st.globalUsdDayOldest, DAY)
    case RunsDay => (st.runsDayOldest, DAY)
    case RunsWeek => (st.runsWeekOldest, WEEK)
    case UsdDay => (st.usdDayOldest, DAY)
    case UsdWeek => (st.usdWeekOldest, WEEK)
    case Concurrent => (None, 0)
  }

  lemma ResetOfVerdict(st: Stats, s: Settings)
    requires Evaluate(st, s, true).Blocked?
    ensures var v := Evaluate(st, s, true);
            var (oldest, window) := OldestFor(st, v.reason);
            v.resetsAt == if oldest.None? then None else Some(oldest.value + window)
  {
    FirstBlockIsFirst(Checks(st, s));
  }

  lemma OldestForIsRight(rows: seq<Row>, owner: string, now: Time, active: nat, reason: Reason)
    ensures var (oldest, window) := OldestFor(LoadStats(rows, owner, now, active), reason);
            ResetIsRight(rows, owner, now, reason, if oldest.None? then None else Some(oldest.value + window))
  {
    var (oldest, window) := OldestFor(LoadStats(rows, owner, now, active), reason);
    match reason
    case GlobalUsdDay =>
      OldestLlmIsOldest(rows, None, now - DAY);
      ResetByOldest(rows, Llm, None, now, DAY, oldest);
    case RunsDay =>
      OldestRunIsOldest(rows, owner, now - DAY);
      ResetByOldest(rows, Run, Some(owner), now, DAY, oldest);
    case RunsWeek =>
      OldestRunIsOldest(rows, owner, now - WEEK);
      ResetByOldest(rows, Run, Some(owner), now, WEEK, oldest);
    case UsdDay =>
      OldestLlmIsOldest(rows, Some(owner), now - DAY);
      ResetByOldest(rows, Llm, Some(owner), now, DAY, oldest);
    case UsdWeek =>
      OldestLlmIsOldest(rows, Some(owner), now - WEEK);
      ResetByOldest(rows, Llm, Some(owner), now, WEEK, oldest);
    case Concurrent =>
  }

  lemma VerdictReset(rows: seq<Row>, owner: string, now: Time, active: nat, s: Settings)
    requires Evaluate(LoadStats(rows, owner, now, active), s, true).Blocked?
    ensures var v := Evaluate(LoadStats(rows, owner, now, active), s, true);
            ResetIsRight(rows, owner, now, v.reason, v.resetsAt)
  {
    var st := LoadStats(rows, owner, now, active);
    ResetOfVerdict(st, s);
    OldestForIsRight(rows, owner, now, active, Evaluate(st, s, true).reason);
  }

  /** What a verdict has to be on a ledger: the run is allowed exactly when no limit that is set
      is reached; a refusal names the first one that is, and its reset time. */
  ghost predicate RightVerdict(rows: seq<Row>, owner: string, now: Time, active: nat, s: Settings, v: Verdict) {
    match FirstReached(rows, owner, now, active, s)
    case None => v.Allowed?
    case Some(reason) => v.Blocked? && v.reason == reason && ResetIsRight(rows, owner, now, reason, v.resetsAt)
  }

  lemma VerdictIsRight(rows: seq<Row>, owner: string, now: Time, active: nat, s: Settings)
    ensures RightVerdict(rows, owner, now, active, s, Evaluate(LoadStats(rows, owner, now, active), s, true))
  {
    VerdictReason(rows, owner, now, active, s);
    if Evaluate(LoadStats(rows, owner, now, active), s, true).Blocked? { VerdictReset(rows, owner, now, active, s); }
  }

  // ------------------------------------------------------------ runs left

  /** The ledger after `n` runs created at `now`. */
  function AfterRuns(rows: seq<Row>, owner: string, now: Time, n: nat): seq<Row> {
    if n == 0 then rows else AfterRuns(rows, owner, now, n - 1) + [Row(owner, Run, now, 0.0)]
  }

  predicate OnlyRunLimits(s: Settings) {
    s.usdPerDay <= 0.0 && s.usdPerWeek <= 0.0 && s.globalUsdPerDay <= 0.0 && s.maxConcurrentRuns <= 0
  }

  lemma {:induction false} RunsAfterRuns(rows: seq<Row>, owner: string, now: Time, n: nat, from: Time)
    requires from < now
    ensures RunsAfter(AfterRuns(rows, owner, now, n), owner, from) == RunsAfter(rows, owner, from) + n
  {
    if n > 0 {
      RunsAfterRuns(rows, owner, now, n - 1, from);
      var more := AfterRuns(rows, owner, now, n);
      assert more[..|more| - 1] == AfterRuns(rows, owner, now, n - 1);
    }
  }

  /** `runs_left_today` is exact: that many creates at this instant are admitted one after
      the other, and the next one is refused. */
  lemma RunsLeftExact(rows: seq<Row>, owner: string, now: Time, s: Settings, active: nat, i: nat)
    requires OnlyRunLimits(s) && RunsLeft(LoadStats(rows, owner, now, active), s).Some?
    ensures var n := RunsLeft(LoadStats(rows, owner, now, active), s).value;
            i <= n ==>
              (Evaluate(LoadStats(AfterRuns(rows, owner, now, i), owner, now, active), s, true).Allowed? <==> i < n)
  {
    RunsAfterRuns(rows, owner, now, i, now - DAY);
    RunsAfterRuns(rows, owner, now, i, now - WEEK);
    EvaluateExact(LoadStats(AfterRuns(rows, owner, now, i), owner, now, active), s, true);
  }
}
