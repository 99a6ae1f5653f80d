/** The sweep that replicas coordinate through a marker and a lock in Redis: `sweep_ttl` of
    `backend/server/runtime_postgres/store.py`, and the scan of `long_query_monitor.py`, which
    follows the same protocol. One action is what a replica does between two awaits. */
module Sweep {
  import opened Wrappers

  /** How long a marker lives, when a lock times out, and whether the marker is read again
      under the lock (as the code does). Times are in seconds. */
  datatype Config = Config(lifetime: nat, timeout: nat, rechecks: bool)

  datatype Pc =
    | Idle
    | Wanting      // saw no marker, waits for the lock
    | Holding      // has the lock
    | Cleared      // saw no marker under the lock
    | Sweeping
    | Swept        // done, marker not set yet
    | Releasing

  datatype Lock = Free | Held(owner: nat, expiry: nat)

  datatype Event = Begin(replica: nat, time: nat) | Marked(replica: nat, time: nat)

  /** `marker` is when the marker last set expires; `log` is what has happened. */
  datatype State = State(now: nat, marker: Option<nat>, lock: Lock, pcs: seq<Pc>, log: seq<Event>)

  datatype Action =
    | Check(r: nat)
    | Acquire(r: nat)
    | GiveUp(r: nat)     // the wait for the lock timed out
    | Recheck(r: nat)
    | BeginSweep(r: nat)
    | EndSweep(r: nat)
    | SetMarker(r: nat)
    | Fail(r: nat)       // an exception, which releases the lock if it is held
    | Release(r: nat)
    | Crash(r: nat)      // the process dies and restarts; its lock stays until it expires
    | Tick(seconds: nat)

  function Init(replicas: nat): State {
    State(0, None, Free, seq(replicas, i => Idle), [])
  }

  predicate MarkerSeen(s: State) { s.marker.Some? && s.now < s.marker.value }

  predicate LockFree(s: State) { s.lock.Free? || s.lock.expiry <= s.now }

  /** The replica runs the code between taking the lock and giving it back. */
  predicate Active(pc: Pc) { !pc.Idle? && !pc.Wanting? }

  predicate At(s: State, r: nat, pc: Pc) { r < |s.pcs| && s.pcs[r] == pc }

  predicate Enabled(s: State, a: Action) {
    match a
    case Check(r) => At(s, r, Idle)
    case Acquire(r) => At(s, r, Wanting) && LockFree(s)
    case GiveUp(r) => At(s, r, Wanting)
    case Recheck(r) => At(s, r, Holding)
    case BeginSweep(r) => At(s, r, Cleared)
    case EndSweep(r) => At(s, r, Sweeping)
    case SetMarker(r) => At(s, r, Swept)
    case Fail(r) => r < |s.pcs| && s.pcs[r] != Idle
    case Release(r) => At(s, r, Releasing)
    case Crash(r) => r < |s.pcs|
    case Tick(seconds) => true
  }

  function Goto(s: State, r: nat, pc: Pc): State
    requires r < |s.pcs|
  {
    s.(pcs := s.pcs[r := pc])
  }

  function Apply(c: Config, s: State, a: Action): State
    requires Enabled(s, a)
  {
    match a
    case Check(r) => if MarkerSeen(s) then s else Goto(s, r, Wanting)
    case Acquire(r) => Goto(s, r, Holding).(lock := Held(r, s.now + c.timeout))
    case GiveUp(r) => Goto(s, r, Idle)
    case Recheck(r) => Goto(s, r, if c.rechecks && MarkerSeen(s) then Releasing else Cleared)
    case BeginSweep(r) => Goto(s, r, Sweeping).(log := s.log + [Begin(r, s.now)])
    case EndSweep(r) => Goto(s, r, Swept)
    case SetMarker(r) =>
      // Redis refuses a lifetime of zero
      if c.lifetime == 0 then Goto(s, r, Releasing)
      else Goto(s, r, Releasing).(marker := Some(s.now + c.lifetime), log := s.log + [Marked(r, s.now)])
    case Fail(r) => Goto(s, r, if Active(s.pcs[r]) then Releasing else Idle)
    case Release(r) =>
      // a lock that expired is not given back: the error is swallowed
      Goto(s, r, Idle).(lock := if s.lock.Held? && s.lock.owner == r && s.now < s.lock.expiry then Free else s.lock)
    case Crash(r) => Goto(s, r, Idle)
    case Tick(seconds) => s.(now := s.now + seconds)
  }

  /** The action keeps the proviso: no holder is still at work when its lock expires. */
  predicate Timely(s: State, a: Action) {
    a.Tick? && s.lock.Held? && s.lock.owner < |s.pcs| && Active(s.pcs[s.lock.owner]) ==>
      s.now + a.seconds < s.lock.expiry
  }

  predicate Runs(c: Config, s: State, actions: seq<Action>, timely: bool)
    decreases |actions|
  {
    actions != [] ==>
      && Enabled(s, actions[0])
      && (timely ==> Timely(s, actions[0]))
      && Runs(c, Apply(c, s, actions[0]), actions[1..], timely)
  }

  function Run(c: Config, s: State, actions: seq<Action>, timely: bool): State
    requires Runs(c, s, actions, timely)
    decreases |actions|
  {
    if actions == [] then s else Run(c, Apply(c, s, actions[0]), actions[1..], timely)
  }

  // ------------------------------------------------------------ safety

  /** No two replicas sweep at once. */
  predicate NoOverlap(s: State) {
    forall q, r | 0 <= q < r < |s.pcs| :: !(s.pcs[q].Sweeping? && s.pcs[r].Sweeping?)
  }

  /** A sweep begins no sooner than a marker lifetime after any marker set before it. */
  predicate Spaced(c: Config, log: seq<Event>) {
    forall i, j | 0 <= i < j < |log| && log[i].Marked? && log[j].Begin? :: log[i].time + c.lifetime <= log[j].time
  }

  predicate HoldsLock(s: State, r: nat) {
    s.lock.Held? && s.lock.owner == r && s.now < s.lock.expiry
  }

  /** Every marker set so far expires no later than `time`. */
  predicate MarksExpireBy(c: Config, log: seq<Event>, time: nat) {
    forall e <- log | e.Marked? :: e.time + c.lifetime <= time
  }

  ghost predicate ReplicaOk(c: Config, s: State, r: nat)
    requires r < |s.pcs|
  {
    && (Active(s.pcs[r]) ==> HoldsLock(s, r))
    && (s.pcs[r].Cleared? ==> MarksExpireBy(c, s.log, s.now))
  }

  ghost predicate Inv(c: Config, s: State) {
    && (forall r | 0 <= r < |s.pcs| :: ReplicaOk(c, s, r))
    && (match s.marker case None => MarksExpireBy(c, s.log, 0) case Some(e) => MarksExpireBy(c, s.log, e))
    && (forall e <- s.log :: e.time <= s.now)
    && Spaced(c, s.log)
  }

  lemma BeginKeepsSpaced(c: Config, log: seq<Event>, r: nat, now: nat)
    requires Spaced(c, log) && MarksExpireBy(c, log, now)
    ensures Spaced(c, log + [Begin(r, now)])
  {
  }

  lemma TickKeepsInv(c: Config, s: State, seconds: nat)
    requires Inv(c, s) && Timely(s, Tick(seconds))
    ensures Inv(c, s.(now := s.now + seconds))
  {
    var s' := s.(now := s.now + seconds);
    forall r | 0 <= r < |s.pcs|
      ensures ReplicaOk(c, s', r)
    {
      assert ReplicaOk(c, s, r);
    }
  }

  lemma OnlyHolderIsActive(c: Config, s: State, r: nat, q: nat)
    requires Inv(c, s) && r < |s.pcs| && q < |s.pcs| && q != r && Active(s.pcs[r])
    ensures !Active(s.pcs[q])
  {
    assert ReplicaOk(c, s, r) && ReplicaOk(c, s, q);
  }

  lemma MarkKeepsInv(c: Config, s: State, r: nat)
    requires Inv(c, s) && Enabled(s, SetMarker(r))
    ensures Inv(c, Apply(c, s, SetMarker(r)))
  {
    var s' := Apply(c, s, SetMarker(r));
    forall q | 0 <= q < |s.pcs|
      ensures ReplicaOk(c, s', q)
    {
      assert ReplicaOk(c, s, q);
      if q != r { OnlyHolderIsActive(c, s, r, q); }
    }
  }

  lemma AcquireKeepsInv(c: Config, s: State, r: nat)
    requires c.timeout > 0 && Inv(c, s) && Enabled(s, Acquire(r))
    ensures Inv(c, Apply(c, s, Acquire(r)))
  {
    forall q | 0 <= q < |s.pcs|
      ensures ReplicaOk(c, Apply(c, s, Acquire(r)), q)
    {
      assert ReplicaOk(c, s, q);
    }
  }

  /** Every timely action of a protocol that rechecks keeps the invariant. */
  lemma StepKeepsInv(c: Config, s: State, a: Action)
    requires c.timeout > 0 && c.rechecks
    requires Inv(c, s) && Enabled(s, a) && Timely(s, a)
    ensures Inv(c, Apply(c, s, a))
  {
    if a.Tick? {
      TickKeepsInv(c, s, a.seconds);
    } else if a.SetMarker? {
      MarkKeepsInv(c, s, a.r);
    } else if a.Acquire? {
      AcquireKeepsInv(c, s, a.r);
    } else {
      assert ReplicaOk(c, s, a.r);
      if a.BeginSweep? { BeginKeepsSpaced(c, s.log, a.r, s.now); }
      forall q | 0 <= q < |s.pcs|
        ensures ReplicaOk(c, Apply(c, s, a), q)
      {
        assert ReplicaOk(c, s, q);
        if a.Release? && q != a.r { OnlyHolderIsActive(c, s, a.r, q); }
      }
    }
  }

  lemma {:induction false} RunKeepsInv(c: Config, s: State, actions: seq<Action>)
    requires c.timeout > 0 && c.rechecks
    requires Inv(c, s) && Runs(c, s, actions, true)
    ensures Inv(c, Run(c, s, actions, true))
    decreases |actions|
  {
    if actions != [] {
      StepKeepsInv(c, s, actions[0]);
      RunKeepsInv(c, Apply(c, s, actions[0]), actions[1..]);
    }
  }

  /** For any number of replicas in any interleaving, with failures and crashes anywhere, as
      long as a holder finishes before its lock expires: sweeps never overlap, and none begins
      while the marker of an earlier one would still live. */
  lemma SweepsAreCoordinated(c: Config, replicas: nat, actions: seq<Action>)
    requires c.timeout > 0 && c.rechecks && Runs(c, Init(replicas), actions, true)
    ensures var s := Run(c, Init(replicas), actions, true);
            NoOverlap(s) && Spaced(c, s.log)
  {
    RunKeepsInv(c, Init(replicas), actions);
    var s := Run(c, Init(replicas), actions, true);
    forall q, r | 0 <= q < r < |s.pcs|
      ensures !(s.pcs[q].Sweeping? && s.pcs[r].Sweeping?)
    {
      if s.pcs[q].Sweeping? { OnlyHolderIsActive(c, s, q, r); }
    }
  }

  // ------------------------------------------------------------ what it rests on

  ghost predicate Reaches(c: Config, s: State, t: State, timely: bool) {
    exists actions: seq<Action> :: Runs(c, s, actions, timely) && Run(c, s, actions, timely) == t
  }

  lemma ReachesSelf(c: Config, s: State, timely: bool)
    ensures Reaches(c, s, s, timely)
  {
    var none: seq<Action> := [];
    assert Runs(c, s, none, timely) && Run(c, s, none, timely) == s;
  }

  lemma ReachesNext(c: Config, s: State, t: State, a: Action, timely: bool) returns (u: State)
    requires Reaches(c, s, t, timely) && Enabled(t, a) && (timely ==> Timely(t, a))
    ensures u == Apply(c, t, a) && Reaches(c, s, u, timely)
  {
    u := Apply(c, t, a);
    var actions: seq<Action> :| Runs(c, s, actions, timely) && Run(c, s, actions, timely) == t;
    RunsLonger(c, s, actions, a, timely);
    assert Runs(c, s, actions + [a], timely) && Run(c, s, actions + [a], timely) == u;
  }

  lemma {:induction false} RunsLonger(c: Config, s: State, actions: seq<Action>, a: Action, timely: bool)
    requires Runs(c, s, actions, timely)
    requires Enabled(Run(c, s, actions, timely), a) && (timely ==> Timely(Run(c, s, actions, timely), a))
    ensures Runs(c, s, actions + [a], timely)
    ensures Run(c, s, actions + [a], timely) == Apply(c, Run(c, s, actions, timely), a)
    decreases |actions|
  {
    if actions == [] {
      assert ([] + [a])[1..] == [];
    } else {
      assert (actions + [a])[1..] == actions[1..] + [a];
      RunsLonger(c, Apply(c, s, actions[0]), actions[1..], a, timely);
    }
  }

  /** From the check to the beginning of the sweep, undisturbed. */
  lemma ReachBegin(c: Config, s: State, t: State, r: nat, timely: bool) returns (u: State)
    requires Reaches(c, s, t, timely) && At(t, r, Wanting) && LockFree(t)
    requires c.rechecks ==> !MarkerSeen(t)
    ensures Reaches(c, s, u, timely)
    ensures u == t.(pcs := t.pcs[r := Sweeping], lock := Held(r, t.now + c.timeout), log := t.log + [Begin(r, t.now)])
  {
    u := ReachesNext(c, s, t, Acquire(r), timely);
    u := ReachesNext(c, s, u, Recheck(r), timely);
    u := ReachesNext(c, s, u, BeginSweep(r), timely);
    assert u.pcs == t.pcs[r := Sweeping];
  }

  /** From the beginning of the sweep to the end of the call, in no time. */
  lemma ReachRelease(c: Config, s: State, t: State, r: nat, timely: bool) returns (u: State)
    requires c.lifetime > 0
    requires Reaches(c, s, t, timely) && At(t, r, Sweeping) && HoldsLock(t, r)
    ensures Reaches(c, s, u, timely)
    ensures u == State(t.now, Some(t.now + c.lifetime), Free, t.pcs[r := Idle], t.log + [Marked(r, t.now)])
  {
    u := ReachesNext(c, s, t, EndSweep(r), timely);
    u := ReachesNext(c, s, u, SetMarker(r), timely);
    u := ReachesNext(c, s, u, Release(r), timely);
    assert u.pcs == t.pcs[r := Idle];
  }

  /** A replica that finds no marker and a free lock does sweep, leaves a marker for its lifetime, and
      gives the lock back. */
  lemma UndisturbedCallSweeps(c: Config, s: State, r: nat) returns (u: State)
    requires c.lifetime > 0 && c.timeout > 0 && At(s, r, Idle) && LockFree(s) && !MarkerSeen(s)
    ensures Reaches(c, s, u, true) && MarkerSeen(u)
    ensures u == s.(marker := Some(s.now + c.lifetime), lock := Free,
                    log := s.log + [Begin(r, s.now), Marked(r, s.now)])
  {
    ReachesSelf(c, s, true);
    u := ReachesNext(c, s, s, Check(r), true);
    u := ReachBegin(c, s, u, r, true);
    u := ReachRelease(c, s, u, r, true);
    assert u.pcs == s.pcs;
  }

  /** After an undisturbed call the next one, by any replica, is skipped while the marker lives and
      sweeps from the moment it has expired. */
  lemma NextCallWaitsForMarker(c: Config, s: State, r: nat, q: nat, seconds: nat) returns (u: State, v: State)
    requires c.lifetime > 0 && c.timeout > 0 && At(s, r, Idle) && LockFree(s) && !MarkerSeen(s) && At(s, q, Idle)
    ensures Reaches(c, s, u, true) && u.now == s.now + seconds && u.pcs == s.pcs
    ensures u.log == s.log + [Begin(r, s.now), Marked(r, s.now)]
    ensures seconds < c.lifetime ==> Apply(c, u, Check(q)) == u
    ensures seconds >= c.lifetime ==> Reaches(c, u, v, true) && v.log == u.log + [Begin(q, u.now), Marked(q, u.now)]
  {
    u := UndisturbedCallSweeps(c, s, r);
    u := ReachesNext(c, s, u, Tick(seconds), true);
    v := u;
    if seconds >= c.lifetime { v := UndisturbedCallSweeps(c, u, q); }
  }

  /** The check under the lock is what spaces the sweeps: without it two replicas that both
      saw no marker sweep one right after the other. */
  lemma SpacingNeedsRecheck(c: Config) returns (bad: State)
    requires c.lifetime > 0 && c.timeout > 0 && !c.rechecks
    ensures Reaches(c, Init(2), bad, true) && !Spaced(c, bad.log)
  {
    var s := Init(2);
    ReachesSelf(c, s, true);
    bad := ReachesNext(c, s, s, Check(0), true);
    bad := ReachesNext(c, s, bad, Check(1), true);
    bad := ReachBegin(c, s, bad, 0, true);
    bad := ReachRelease(c, s, bad, 0, true);
    bad := ReachBegin(c, s, bad, 1, true);
    assert bad.log[1].Marked? && bad.log[2].Begin?;
  }

  /** The proviso is needed: a sweep that outlives its lock is overlapped by another. */
  lemma LateHolderOverlaps(c: Config) returns (bad: State)
    ensures Reaches(c, Init(2), bad, false) && !NoOverlap(bad)
  {
    var s := Init(2);
    ReachesSelf(c, s, false);
    bad := ReachesNext(c, s, s, Check(0), false);
    bad := ReachesNext(c, s, bad, Check(1), false);
    bad := ReachBegin(c, s, bad, 0, false);
    bad := ReachesNext(c, s, bad, Tick(c.timeout), false);
    bad := ReachBegin(c, s, bad, 1, false);
    assert bad.pcs[0].Sweeping? && bad.pcs[1].Sweeping?;
  }

  // ------------------------------------------------------------ the coroutine

  /** The shared Redis and the replicas; each method is one stretch of `sweep_ttl` between
      two awaits. The methods work in any state, also when a holder has outlived its lock;
      `Valid` is what they keep as long as none does. */
  class SweepReplicas {
    const config: Config
    var now: nat
    var marker: Option<nat>
    var lock: Lock
    var pcs: seq<Pc>
    ghost var log: seq<Event>

    ghost function Abs(): State
      reads this
    {
      State(now, marker, lock, pcs, log)
    }

    ghost predicate Valid()
      reads this
    {
      config.timeout > 0 && config.rechecks && Inv(config, Abs())
    }

    constructor (config: Config, replicas: nat)
      ensures Abs() == Init(replicas) && this.config == config
      ensures config.timeout > 0 && config.rechecks ==> Valid()
    {
      this.config := config;
      now, marker, lock, log := 0, None, Free, [];
      pcs := seq(replicas, i => Idle);
    }

    /** The first look at the marker; `skip` ends the call. */
    method FirstCheck(r: nat) returns (skip: bool)
      requires At(Abs(), r, Idle)
      modifies this`pcs
      ensures Abs() == Apply(config, old(Abs()), Check(r)) && (old(Valid()) ==> Valid())
      ensures skip <==> MarkerSeen(Abs())
    {
      if Valid() { StepKeepsInv(config, Abs(), Check(r)); }
      skip := marker.Some? && now < marker.value;
      if !skip {
        pcs := pcs[r := Wanting];
      }
    }

    method TakeLock(r: nat)
      requires At(Abs(), r, Wanting) && LockFree(Abs())
      modifies this`pcs, this`lock
      ensures Abs() == Apply(config, old(Abs()), Acquire(r)) && (old(Valid()) ==> Valid())
    {
      if Valid() { StepKeepsInv(config, Abs(), Acquire(r)); }
      lock := Held(r, now + config.timeout);
      pcs := pcs[r := Holding];
    }

    /** The second look, under the lock. If it lets the sweep go on, no other replica is
        sweeping and every marker set so far has expired. */
    method SecondCheck(r: nat) returns (skip: bool)
      requires At(Abs(), r, Holding) && config.rechecks
      modifies this`pcs
      ensures Abs() == Apply(config, old(Abs()), Recheck(r)) && (old(Valid()) ==> Valid())
      ensures skip <==> MarkerSeen(Abs())
      ensures old(Valid()) && !skip ==> MarksExpireBy(config, log, now) && OthersInactive(r)
    {
      if Valid() { StepKeepsInv(config, Abs(), Recheck(r)); }
      skip := marker.Some? && now < marker.value;
      pcs := pcs[r := if skip then Releasing else Cleared];
      if Valid() {
        assert ReplicaOk(config, Abs(), r);
        OnlyOneActive(r);
      }
    }

    ghost predicate OthersInactive(r: nat)
      reads this
    {
      forall q | 0 <= q < |pcs| && q != r :: !Active(pcs[q])
    }

    lemma OnlyOneActive(r: nat)
      requires Valid() && r < |pcs| && Active(pcs[r])
      ensures OthersInactive(r)
    {
      forall q | 0 <= q < |pcs| && q != r
        ensures !Active(pcs[q])
      {
        OnlyHolderIsActive(config, Abs(), r, q);
      }
    }

    /** The sweep itself starts, and is the only one. */
    method StartSweep(r: nat)
      requires At(Abs(), r, Cleared)
      modifies this`pcs, this`log
      ensures Abs() == Apply(config, old(Abs()), BeginSweep(r))
      ensures old(Valid()) ==> Valid() && OthersInactive(r) && Spaced(config, log)
    {
      if Valid() { StepKeepsInv(config, Abs(), BeginSweep(r)); }
      log := log + [Begin(r, now)];
      pcs := pcs[r := Sweeping];
      if Valid() { OnlyOneActive(r); }
    }

    method FinishSweep(r: nat)
      requires At(Abs(), r, Sweeping)
      modifies this`pcs
      ensures Abs() == Apply(config, old(Abs()), EndSweep(r)) && (old(Valid()) ==> Valid())
    {
      if Valid() { StepKeepsInv(config, Abs(), EndSweep(r)); }
      pcs := pcs[r := Swept];
    }

    /** Time passes; the proviso is that it does not pass the expiry of a lock whose owner is
        still at work. */
    method Advance(seconds: nat)
      modifies this`now
      ensures Abs() == Apply(config, old(Abs()), Tick(seconds))
      ensures old(Valid() && Timely(Abs(), Tick(seconds))) ==> Valid()
    {
      if Valid() && Timely(Abs(), Tick(seconds)) { StepKeepsInv(config, Abs(), Tick(seconds)); }
      now := now + seconds;
    }

    method LeaveMarker(r: nat)
      requires At(Abs(), r, Swept)
      modifies this`pcs, this`marker, this`log
      ensures Abs() == Apply(config, old(Abs()), SetMarker(r)) && (old(Valid()) ==> Valid())
    {
      if Valid() { StepKeepsInv(config, Abs(), SetMarker(r)); }
      if config.lifetime > 0 {
        marker := Some(now + config.lifetime);
        log := log + [Marked(r, now)];
      }
      pcs := pcs[r := Releasing];
    }

    /** Leaving the lock's block. `notOwned` is the error that `sweep_ttl` swallows: the lock has
        expired, and may be somebody else's by now, so it is left alone. */
    method GiveLockBack(r: nat) returns (notOwned: bool)
      requires At(Abs(), r, Releasing)
      modifies this`pcs, this`lock
      ensures Abs() == Apply(config, old(Abs()), Release(r))
      ensures notOwned <==> !old(HoldsLock(Abs(), r))
      ensures lock == if notOwned then old(lock) else Free
      ensures old(Valid()) ==> Valid() && !notOwned
    {
      if Valid() {
        StepKeepsInv(config, Abs(), Release(r));
        assert ReplicaOk(config, Abs(), r);
      }
      notOwned := lock.Free? || lock.owner != r || lock.expiry <= now;
      if !notOwned {
        lock := Free;
      }
      pcs := pcs[r := Idle];
    }
  }
}
