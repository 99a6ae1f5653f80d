/**
  Concurrent calls of `check_and_record_run` in `backend/agents/usage.py`.

  A transaction's `now()` is fixed when it begins, before it gets the owner's advisory
  lock, so rows need not be committed in the order of their timestamps. The lock is held
  until the transaction ends.
 */
module UsageAdmission {
  import opened Wrappers
  import opened UsageQuota

  datatype Pc = Waiting | Locked | Decided(v: Verdict) | Closed
  datatype Tx = Tx(owner: string, start: Time, pc: Pc)

  datatype World = World(settings: Settings, rows: seq<Row>, txs: seq<Tx>, now: Time)

  datatype Action =
    | Begin(owner: string)
    | Lock(t: nat)
    | Load(t: nat, active: nat)
    | Commit(t: nat)
    | Abort(t: nat)
    | Tick(d: nat)
    | Meter(owner: string, createdAt: Time, cost: real)

  predicate Holding(tx: Tx) { tx.pc.Locked? || tx.pc.Decided? }

  predicate LockFree(w: World, owner: string) {
    forall u: nat | u < |w.txs| :: w.txs[u].owner == owner ==> !Holding(w.txs[u])
  }

  predicate CanStep(w: World, a: Action) {
    match a
    case Begin(_) => Enabled(w.settings)
    case Lock(t) => t < |w.txs| && w.txs[t].pc.Waiting? && LockFree(w, w.txs[t].owner)
    case Load(t, _) => t < |w.txs| && w.txs[t].pc.Locked?
    case Commit(t) => t < |w.txs| && w.txs[t].pc.Decided?
    case Abort(t) => t < |w.txs| && !w.txs[t].pc.Closed?
    case Tick(_) => true
    case Meter(_, createdAt, _) => createdAt <= w.now
  }

  function SetPc(w: World, t: nat, pc: Pc): World
    requires t < |w.txs|
  {
    w.(txs := w.txs[t := w.txs[t].(pc := pc)])
  }

  function Next(w: World, a: Action): World
    requires CanStep(w, a)
  {
    match a
    case Begin(owner) => w.(txs := w.txs + [Tx(owner, w.now, Waiting)])
    case Lock(t) => SetPc(w, t, Locked)
    case Load(t, active) =>
      var tx := w.txs[t];
      SetPc(w, t, Decided(Evaluate(LoadStats(w.rows, tx.owner, tx.start, active), w.settings, true)))
    case Commit(t) =>
      var tx := w.txs[t];
      SetPc(w, t, Closed)
        .(rows := if tx.pc.v.Allowed? then w.rows + [Row(tx.owner, Run, tx.start, 0.0)] else w.rows)
    case Abort(t) => SetPc(w, t, Closed)
    case Tick(d) => w.(now := w.now + d)
    case Meter(owner, createdAt, cost) => w.(rows := w.rows + [Row(owner, Llm, createdAt, cost)])
  }

  // ------------------------------------------------------------ the limits, over every window

  /** No half-open window of this length holds more than `limit` runs of one owner. */
  ghost predicate Bounded(rows: seq<Row>, window: Time, limit: int) {
    forall owner: string, lo: Time, hi: Time | hi - lo <= window :: RunsBetween(rows, owner, lo, hi) <= limit
  }

  ghost predicate WithinLimits(rows: seq<Row>, s: Settings) {
    && (s.runsPerDay > 0 ==> Bounded(rows, DAY, s.runsPerDay))
    && (s.runsPerWeek > 0 ==> Bounded(rows, WEEK, s.runsPerWeek))
  }

  /** Room for one more run of `owner` at `start`. */
  predicate Headroom(rows: seq<Row>, owner: string, start: Time, s: Settings) {
    && (s.runsPerDay > 0 ==> RunsAfter(rows, owner, start - DAY) < s.runsPerDay)
    && (s.runsPerWeek > 0 ==> RunsAfter(rows, owner, start - WEEK) < s.runsPerWeek)
  }

  /** Counting every run newer than `start - window`, even those later than `start`, is what
      keeps windows bounded although timestamps are not in commit order. */
  lemma InsertKeepsBounded(rows: seq<Row>, owner: string, start: Time, window: Time, limit: int)
    requires Bounded(rows, window, limit) && RunsAfter(rows, owner, start - window) < limit
    ensures Bounded(rows + [Row(owner, Run, start, 0.0)], window, limit)
  {
    var more := rows + [Row(owner, Run, start, 0.0)];
    assert more[..|more| - 1] == rows;
    forall o: string, lo: Time, hi: Time | hi - lo <= window
      ensures RunsBetween(more, o, lo, hi) <= limit
    {
      assert RunsBetween(rows, o, lo, hi) <= limit;
      if o == owner && lo < start <= hi {
        BetweenAtMostAfter(rows, owner, lo, hi, start - window);
      }
    }
  }

  lemma OtherRowsDoNotCount(rows: seq<Row>, r: Row, owner: string)
    requires !IsRun(r, owner)
    ensures forall from: Time :: RunsAfter(rows + [r], owner, from) == RunsAfter(rows, owner, from)
    ensures forall lo: Time, hi: Time :: RunsBetween(rows + [r], owner, lo, hi) == RunsBetween(rows, owner, lo, hi)
  {
    assert (rows + [r])[..|rows + [r]| - 1] == rows;
  }

  lemma LlmRowsDoNotCount(rows: seq<Row>, r: Row)
    requires r.kind.Llm?
    ensures forall owner: string, from: Time :: RunsAfter(rows + [r], owner, from) == RunsAfter(rows, owner, from)
    ensures forall owner: string, lo: Time, hi: Time ::
              RunsBetween(rows + [r], owner, lo, hi) == RunsBetween(rows, owner, lo, hi)
  {
    assert (rows + [r])[..|rows + [r]| - 1] == rows;
  }

  // ------------------------------------------------------------ the invariant

  predicate OneHolder(w: World) {
    forall t: nat, u: nat | t < |w.txs| && u < |w.txs| && w.txs[t].owner == w.txs[u].owner
        && Holding(w.txs[t]) && Holding(w.txs[u]) :: t == u
  }

  predicate AdmittedFits(w: World) {
    forall t: nat | t < |w.txs| && w.txs[t].pc.Decided? && w.txs[t].pc.v.Allowed? ::
      Headroom(w.rows, w.txs[t].owner, w.txs[t].start, w.settings)
  }

  ghost predicate Inv(w: World) {
    WithinLimits(w.rows, w.settings) && OneHolder(w) && AdmittedFits(w)
  }

  lemma CommitKeepsInv(w: World, t: nat)
    requires Inv(w) && CanStep(w, Commit(t))
    ensures Inv(Next(w, Commit(t)))
  {
    var tx := w.txs[t];
    if tx.pc.v.Allowed? {
      var r := Row(tx.owner, Run, tx.start, 0.0);
      var s := w.settings;
      if s.runsPerDay > 0 { InsertKeepsBounded(w.rows, tx.owner, tx.start, DAY, s.runsPerDay); }
      if s.runsPerWeek > 0 { InsertKeepsBounded(w.rows, tx.owner, tx.start, WEEK, s.runsPerWeek); }
      var w' := Next(w, Commit(t));
      forall u: nat | u < |w'.txs| && w'.txs[u].pc.Decided? && w'.txs[u].pc.v.Allowed?
        ensures Headroom(w'.rows, w'.txs[u].owner, w'.txs[u].start, s)
      {
        OtherRowsDoNotCount(w.rows, r, w'.txs[u].owner);
      }
    }
  }

  lemma MeterKeepsInv(w: World, owner: string, createdAt: Time, cost: real)
    requires Inv(w)
    ensures Inv(w.(rows := w.rows + [Row(owner, Llm, createdAt, cost)]))
  {
    var r := Row(owner, Llm, createdAt, cost);
    LlmRowsDoNotCount(w.rows, r);
  }

  lemma StepKeepsInv(w: World, a: Action)
    requires Inv(w) && CanStep(w, a)
    ensures Inv(Next(w, a))
  {
    match a
    case Begin(_) =>
    case Lock(_) =>
    case Load(t, active) =>
      EvaluateExact(LoadStats(w.rows, w.txs[t].owner, w.txs[t].start, active), w.settings, true);
    case Commit(t) => CommitKeepsInv(w, t);
    case Abort(_) =>
    case Tick(_) =>
    case Meter(owner, createdAt, cost) => MeterKeepsInv(w, owner, createdAt, cost);
  }

  // ------------------------------------------------------------ over whole runs

  predicate CanRun(w: World, acts: seq<Action>)
    decreases |acts|
  {
    acts == [] || (CanStep(w, acts[0]) && CanRun(Next(w, acts[0]), acts[1..]))
  }

  function After(w: World, acts: seq<Action>): World
    requires CanRun(w, acts)
    decreases |acts|
  {
    if acts == [] then w else After(Next(w, acts[0]), acts[1..])
  }

  lemma {:induction false} RunKeepsInv(w: World, acts: seq<Action>)
    requires Inv(w) && CanRun(w, acts)
    ensures Inv(After(w, acts)) && After(w, acts).settings == w.settings
    decreases |acts|
  {
    if acts != [] {
      StepKeepsInv(w, acts[0]);
      RunKeepsInv(Next(w, acts[0]), acts[1..]);
    }
  }

  /** A transaction that loads and commits with nothing of its owner in between does what the call
      does alone: the right verdict on the ledger at its start time, and a row of that time if the
      run is allowed. */
  lemma LoadThenCommit(w: World, t: nat, active: nat)
    requires t < |w.txs| && w.txs[t].pc.Locked?
    ensures var w1 := Next(w, Load(t, active));
            && w1.rows == w.rows && w1.txs[t].pc.Decided?
            && RightVerdict(w.rows, w.txs[t].owner, w.txs[t].start, active, w.settings, w1.txs[t].pc.v)
            && Next(w1, Commit(t)).rows
               == if w1.txs[t].pc.v.Allowed? then w.rows + [Row(w.txs[t].owner, Run, w.txs[t].start, 0.0)] else w.rows
  {
    VerdictIsRight(w.rows, w.txs[t].owner, w.txs[t].start, active, w.settings);
  }

  function Start(s: Settings, now: Time): World { World(s, [], [], now) }

  /** However the transactions interleave, no 24-hour window ever holds more than
      `runs_per_day` runs of one owner and no 7-day window more than `runs_per_week`. */
  lemma WindowsStayWithinLimits(s: Settings, now: Time, acts: seq<Action>)
    requires CanRun(Start(s, now), acts)
    ensures WithinLimits(After(Start(s, now), acts).rows, s)
  {
    assert Inv(Start(s, now));
    RunKeepsInv(Start(s, now), acts);
  }

  /** On every ledger so reached, a refusal for a run limit reports the first instant at
      which that limit lets go, unless some row is later than now. */
  lemma ResetIsFirstFree(s: Settings, start: Time, acts: seq<Action>, owner: string, now: Time, active: nat)
    requires CanRun(Start(s, start), acts)
    requires NoneLater(After(Start(s, start), acts).rows, owner, now)
    ensures var rows := After(Start(s, start), acts).rows;
            var v := Evaluate(LoadStats(rows, owner, now, active), s, true);
            && (v.Blocked? && v.reason.RunsDay? ==>
                  v.resetsAt.Some? && s.runsPerDay > 0
                  && FirstFree(rows, owner, DAY, s.runsPerDay, now, v.resetsAt.value))
            && (v.Blocked? && v.reason.RunsWeek? ==>
                  v.resetsAt.Some? && s.runsPerWeek > 0
                  && FirstFree(rows, owner, WEEK, s.runsPerWeek, now, v.resetsAt.value))
  {
    WindowsStayWithinLimits(s, start, acts);
    var rows := After(Start(s, start), acts).rows;
    var st := LoadStats(rows, owner, now, active);
    EvaluateExact(st, s, true);
    var v := Evaluate(st, s, true);
    if v.Blocked? && v.reason.RunsDay? {
      ResetExactUnderLimit(rows, owner, DAY, s.runsPerDay, now);
    }
    if v.Blocked? && v.reason.RunsWeek? {
      ResetExactUnderLimit(rows, owner, WEEK, s.runsPerWeek, now);
    }
  }

  /** All limits are off. */
  predicate NothingLimited(s: Settings) {
    && s.runsPerDay <= 0 && s.runsPerWeek <= 0 && s.maxConcurrentRuns <= 0
    && s.usdPerDay <= 0.0 && s.usdPerWeek <= 0.0 && s.globalUsdPerDay <= 0.0
  }

  // ------------------------------------------------------------ the table

  /** `usage_ledger`, with the part of `check_and_record_run` that runs under the lock. */
  class UsageLedger {
    var rows: seq<Row>

    constructor ()
      ensures rows == []
    {
      rows := [];
    }

    /** `now` is the transaction's timestamp and `active` the number of runs in flight. */
    method CheckAndRecordRun(owner: string, now: Time, active: nat, s: Settings) returns (v: Verdict)
      modifies this
      ensures RightVerdict(old(rows), owner, now, active, s, v)
      ensures v == Evaluate(LoadStats(old(rows), owner, now, active), s, true)
      ensures rows == if v.Allowed? && !NothingLimited(s) then old(rows) + [Row(owner, Run, now, 0.0)] else old(rows)
      ensures old(WithinLimits(rows, s)) ==> WithinLimits(rows, s)
    {
      if !Enabled(s) {
        VerdictIsRight(rows, owner, now, active, s);
        EvaluateExact(LoadStats(rows, owner, now, active), s, true);
        return Allowed;
      }
      var stats := LoadStats(rows, owner, now, if s.maxConcurrentRuns > 0 then active else 0);
      v := Evaluate(stats, s, true);
      VerdictIsRight(rows, owner, now, active, s);
      EvaluateExact(stats, s, true);
      EvaluateExact(LoadStats(rows, owner, now, active), s, true);
      if v.Allowed? {
        ghost var before := rows;
        rows := rows + [Row(owner, Run, now, 0.0)];
        if WithinLimits(before, s) {
          if s.runsPerDay > 0 { InsertKeepsBounded(before, owner, now, DAY, s.runsPerDay); }
          if s.runsPerWeek > 0 { InsertKeepsBounded(before, owner, now, WEEK, s.runsPerWeek); }
        }
      }
    }

    /** `record_model_usage` when the insert succeeds. */
    method RecordModelUsage(owner: string, now: Time, cost: real, ghost s: Settings)
      modifies this
      ensures rows == old(rows) + [Row(owner, Llm, now, cost)]
      ensures old(WithinLimits(rows, s)) ==> WithinLimits(rows, s)
    {
      ghost var before := rows;
      rows := rows + [Row(owner, Llm, now, cost)];
      LlmRowsDoNotCount(before, Row(owner, Llm, now, cost));
    }
  }
}
