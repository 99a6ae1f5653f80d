/**
  The stale-while-revalidate coordination of `backend/server/api/cache.py`, as a
  state machine whose atomic steps are the code segments between two awaits.

  State objects (`_SWRState`) live in a heap and are named by their position in it,
  so that popping an object from `_SWR_STATES` and creating a new one for the same
  key gives a DIFFERENT object whose epoch starts again at 0.
 */
module SwrProtocol {
  import opened Wrappers

  type Key = string
  type Value = string
  type Oid = nat
  type Pid = nat

  /** One `_SWRState`; `holder` is the coroutine inside `async with state.write_lock`. */
  datatype Cell = Cell(key: Key, task: Option<Pid>, epoch: nat, holder: Option<Pid>, users: nat)

  /** `_SWR_STATES` and every state object ever created. */
  datatype Shared = Shared(heap: seq<Cell>, registry: map<Key, Oid>)

  datatype Outcome = Returned(value: Value) | Raised

  /** Where a coroutine is suspended. `o` is the state object it has acquired and not
      yet released, `v` the value it wants to store. */
  datatype Pc =
    | Loading
    | Waiting(o: Oid, v: Value)
    | Writing(o: Oid, v: Value)
    | Applied(o: Oid, v: Value)
    | Rereading(v: Value)
    | Done(outcome: Outcome)

  /** `Writer` runs `_write_swr_value`; `Load` is a task running
      `_load_and_store_swr_value`. `home` names the object whose epoch a load captured;
      `callback` says that a load's done-callback has still to run. */
  datatype Kind = Writer | Load
  datatype Proc = Proc(kind: Kind, key: Key, startEpoch: nat, home: Oid, pc: Pc, callback: bool)

  datatype World = World(shared: Shared, procs: seq<Proc>, cache: map<Key, Value>)

  datatype Action =
    | StartWrite(key: Key, value: Value)
    | StartLoad(key: Key)
    | LoaderReturns(p: Pid, value: Value)
    | GetLock(p: Pid)
    | Apply(p: Pid)
    | Finish(p: Pid)
    | Reread(p: Pid)
    | Fail(p: Pid)
    | RunCallback(p: Pid)
    | Evict(key: Key)
    | ExternalPut(key: Key, value: Value)

  const INITIAL := World(Shared([], map[]), [], map[])

  // ------------------------------------------------------------ the registry helpers

  predicate WellFormed(s: Shared) {
    forall k <- s.registry :: s.registry[k] < |s.heap| && s.heap[s.registry[k]].key == k
  }

  predicate Registered(s: Shared, o: Oid)
    requires o < |s.heap|
  {
    s.heap[o].key in s.registry && s.registry[s.heap[o].key] == o
  }

  function AcquiredOid(s: Shared, k: Key): Oid {
    if k in s.registry then s.registry[k] else |s.heap|
  }

  /** `_acquire_swr_state` */
  function Acquire(s: Shared, k: Key): Shared
    requires WellFormed(s)
  {
    var o := AcquiredOid(s, k);
    if k in s.registry then
      s.(heap := s.heap[o := s.heap[o].(users := s.heap[o].users + 1)])
    else
      Shared(s.heap + [Cell(k, None, 0, None, 1)], s.registry[k := o])
  }

  /** `_maybe_cleanup_swr_state` */
  function Cleanup(s: Shared, k: Key, o: Oid): Shared
    requires o < |s.heap|
  {
    var c := s.heap[o];
    if c.users == 0 && c.task.None? && c.holder.None? && k in s.registry && s.registry[k] == o
    then s.(registry := s.registry - {k})
    else s
  }

  /** Leaving with lock state `h`, then `_release_swr_state`; no await comes between. */
  function Leave(s: Shared, k: Key, o: Oid, h: Option<Pid>): Shared
    requires o < |s.heap| && s.heap[o].users > 0
  {
    Cleanup(s.(heap := s.heap[o := s.heap[o].(users := s.heap[o].users - 1, holder := h)]), k, o)
  }

  /** `_release_swr_state` */
  function Release(s: Shared, k: Key, o: Oid): Shared
    requires o < |s.heap| && s.heap[o].users > 0
  {
    Leave(s, k, o, s.heap[o].holder)
  }

  function SetHolder(s: Shared, o: Oid, h: Option<Pid>): Shared
    requires o < |s.heap|
  {
    s.(heap := s.heap[o := s.heap[o].(holder := h)])
  }

  function SetTask(s: Shared, o: Oid, t: Option<Pid>): Shared
    requires o < |s.heap|
  {
    s.(heap := s.heap[o := s.heap[o].(task := t)])
  }

  function BumpAndHold(s: Shared, o: Oid, p: Pid): Shared
    requires o < |s.heap|
  {
    s.(heap := s.heap[o := s.heap[o].(epoch := s.heap[o].epoch + 1, holder := Some(p))])
  }

  // ------------------------------------------------------------ who holds what

  predicate Holds(p: Proc, o: Oid) {
    (p.pc.Waiting? || p.pc.Writing? || p.pc.Applied?) && p.pc.o == o
  }

  predicate Locks(p: Proc, o: Oid) {
    (p.pc.Writing? || p.pc.Applied?) && p.pc.o == o
  }

  /** Number of coroutines that have acquired `o` and not released it. */
  function Users(procs: seq<Proc>, o: Oid): nat {
    if procs == [] then 0
    else Users(procs[..|procs| - 1], o) + if Holds(procs[|procs| - 1], o) then 1 else 0
  }

  predicate Unfinished(p: Proc) { p.kind.Load? && !p.pc.Done? }

  // ------------------------------------------------------------ the steps

  predicate At(w: World, p: Pid) { p < |w.procs| }

  predicate Enabled(w: World, a: Action) {
    match a
    case StartWrite(_, _) => true
    case StartLoad(_) => true
    case LoaderReturns(p, _) => At(w, p) && w.procs[p].pc.Loading?
    case GetLock(p) => At(w, p) && w.procs[p].pc.Waiting? && w.procs[p].pc.o < |w.shared.heap|
                       && w.shared.heap[w.procs[p].pc.o].holder.None?
    case Apply(p) => At(w, p) && w.procs[p].pc.Writing?
    case Finish(p) => At(w, p) && w.procs[p].pc.Applied?
    case Reread(p) => At(w, p) && w.procs[p].pc.Rereading?
    case Fail(p) => At(w, p) && !w.procs[p].pc.Done?
    case RunCallback(p) => At(w, p) && w.procs[p].kind.Load? && w.procs[p].pc.Done? && w.procs[p].callback
    case Evict(_) => true
    case ExternalPut(_, _) => true
  }

  /** What a coroutine has acquired exists and counts it; true in every reachable state
      (`EnabledIsSafe`). */
  predicate Sound(w: World, p: Pid) {
    At(w, p) && (w.procs[p].pc.Waiting? || w.procs[p].pc.Writing? || w.procs[p].pc.Applied? ==>
      w.procs[p].pc.o < |w.shared.heap| && w.shared.heap[w.procs[p].pc.o].users > 0)
  }

  predicate Safe(w: World, a: Action) {
    WellFormed(w.shared)
    && (a.LoaderReturns? || a.GetLock? || a.Apply? || a.Finish? || a.Reread? || a.Fail? || a.RunCallback? ==>
          Sound(w, a.p))
  }

  function Move(w: World, p: Pid, pc: Pc, s: Shared): World
    requires At(w, p)
  {
    w.(shared := s, procs := w.procs[p := w.procs[p].(pc := pc)])
  }

  /** `_ensure_swr_load_task`: no await inside, so it is one step. */
  function EnsureLoad(w: World, k: Key): World
    requires WellFormed(w.shared)
  {
    var s := Acquire(w.shared, k);
    var o := AcquiredOid(w.shared, k);
    var t := s.heap[o].task;
    if t.Some? && At(w, t.value) && !w.procs[t.value].pc.Done? then
      w.(shared := Release(s, k, o))
    else
      w.(shared := Release(SetTask(s, o, Some(|w.procs|)), k, o),
         procs := w.procs + [Proc(Load, k, s.heap[o].epoch, o, Loading, true)])
  }

  /** Entering `async with state.write_lock`, up to the next await. */
  function TakeLock(w: World, p: Pid): World
    requires Sound(w, p) && w.procs[p].pc.Waiting?
  {
    var me := w.procs[p];
    var o := me.pc.o;
    if me.kind.Writer? then
      Move(w, p, Writing(o, me.pc.v), BumpAndHold(w.shared, o, p))
    else if me.startEpoch != w.shared.heap[o].epoch then
      Move(w, p, Rereading(me.pc.v), Release(w.shared, me.key, o))
    else
      Move(w, p, Writing(o, me.pc.v), SetHolder(w.shared, o, Some(p)))
  }

  /** Leaving the lock and the `finally` of both store routines. */
  function Unwind(w: World, p: Pid, outcome: Outcome): World
    requires Sound(w, p) && !w.procs[p].pc.Done?
  {
    var me := w.procs[p];
    if me.pc.Loading? || me.pc.Rereading? then
      Move(w, p, Done(outcome), w.shared)
    else
      var h := if me.pc.Waiting? then w.shared.heap[me.pc.o].holder else None;
      Move(w, p, Done(outcome), Leave(w.shared, me.key, me.pc.o, h))
  }

  /** The done-callback `_cleanup`. */
  function Callback(w: World, p: Pid): World
    requires WellFormed(w.shared) && At(w, p)
  {
    var k := w.procs[p].key;
    var s := w.shared;
    var s' := if k in s.registry && s.heap[s.registry[k]].task == Some(p)
              then Cleanup(SetTask(s, s.registry[k], None), k, s.registry[k])
              else s;
    w.(shared := s', procs := w.procs[p := w.procs[p].(callback := false)])
  }

  function Next(w: World, a: Action): World
    requires Safe(w, a) && Enabled(w, a)
  {
    match a
    case StartWrite(k, v) =>
      w.(shared := Acquire(w.shared, k),
         procs := w.procs + [Proc(Writer, k, 0, 0, Waiting(AcquiredOid(w.shared, k), v), false)])
    case StartLoad(k) => EnsureLoad(w, k)
    case LoaderReturns(p, v) =>
      Move(w, p, Waiting(AcquiredOid(w.shared, w.procs[p].key), v), Acquire(w.shared, w.procs[p].key))
    case GetLock(p) => TakeLock(w, p)
    case Apply(p) =>
      Move(w, p, Applied(w.procs[p].pc.o, w.procs[p].pc.v), w.shared)
        .(cache := w.cache[w.procs[p].key := w.procs[p].pc.v])
    case Finish(p) => Unwind(w, p, Returned(w.procs[p].pc.v))
    case Reread(p) =>
      var k := w.procs[p].key;
      Move(w, p, Done(Returned(if k in w.cache then w.cache[k] else w.procs[p].pc.v)), w.shared)
    case Fail(p) => Unwind(w, p, Raised)
    case RunCallback(p) => Callback(w, p)
    case Evict(k) => w.(cache := w.cache - {k})
    case ExternalPut(k, v) => w.(cache := w.cache[k := v])
  }

  // ------------------------------------------------------------ the invariant

  predicate Live(s: Shared, o: Oid)
    requires o < |s.heap|
  {
    s.heap[o].users > 0 || s.heap[o].task.Some?
  }

  /**
    What is true of every coroutine: an object it holds has its key, and for a load is
    the object whose epoch it captured; inside the lock it is the holder; an unfinished
    load is the task of that object, and if it is storing, no epoch bump has happened
    since it captured the epoch.
   */
  predicate ProcOk(w: World, p: Pid)
    requires At(w, p)
  {
    var me := w.procs[p];
    var heap := w.shared.heap;
    && (me.pc.Waiting? || me.pc.Writing? || me.pc.Applied? ==>
          me.pc.o < |heap| && heap[me.pc.o].key == me.key && (me.kind.Load? ==> me.pc.o == me.home))
    && (me.pc.Writing? || me.pc.Applied? ==> heap[me.pc.o].holder == Some(p))
    && (Unfinished(me) ==>
          me.home < |heap| && heap[me.home].key == me.key && heap[me.home].task == Some(p)
          && me.startEpoch <= heap[me.home].epoch)
    && (me.kind.Load? && (me.pc.Writing? || me.pc.Applied?) ==> me.startEpoch == heap[me.home].epoch)
    && (me.kind.Writer? ==> !me.pc.Loading? && !me.pc.Rereading?)
  }

  /**
    What is true of every state object: `users` counts the coroutines that hold it, it is
    registered exactly while it is live, its lock holder is inside the lock, and its task
    is a load of its key whose done-callback has not run.
   */
  predicate CellOk(w: World, o: Oid)
    requires o < |w.shared.heap|
  {
    var c := w.shared.heap[o];
    && c.users == Users(w.procs, o)
    && (Registered(w.shared, o) <==> Live(w.shared, o))
    && (c.holder.Some? ==> At(w, c.holder.value) && Locks(w.procs[c.holder.value], o))
    && (c.task.Some? ==>
          At(w, c.task.value)
          && var t := w.procs[c.task.value]; t.kind.Load? && t.callback && t.home == o && t.key == c.key)
  }

  ghost predicate Inv(w: World) {
    && WellFormed(w.shared)
    && (forall p: Pid | At(w, p) :: ProcOk(w, p))
    && (forall o: Oid | o < |w.shared.heap| :: CellOk(w, o))
  }

  // ------------------------------------------------------------ counting lemmas

  lemma {:induction false} UsersUpdate(procs: seq<Proc>, p: Pid, q: Proc, o: Oid)
    requires p < |procs|
    ensures Users(procs[p := q], o) + (if Holds(procs[p], o) then 1 else 0)
         == Users(procs, o) + (if Holds(q, o) then 1 else 0)
  {
    var n := |procs| - 1;
    if p == n {
      assert procs[p := q][..n] == procs[..n];
    } else {
      assert procs[p := q][..n] == procs[..n][p := q];
      UsersUpdate(procs[..n], p, q, o);
    }
  }

  lemma UsersAppend(procs: seq<Proc>, q: Proc, o: Oid)
    ensures Users(procs + [q], o) == Users(procs, o) + (if Holds(q, o) then 1 else 0)
  {
    assert (procs + [q])[..|procs|] == procs;
  }

  lemma {:induction false} UsersPositive(procs: seq<Proc>, p: Pid, o: Oid)
    requires p < |procs| && Holds(procs[p], o)
    ensures Users(procs, o) > 0
  {
    if p < |procs| - 1 {
      UsersPositive(procs[..|procs| - 1], p, o);
    }
  }

  lemma {:induction false} UsersZero(procs: seq<Proc>, o: Oid)
    requires forall p: Pid | p < |procs| :: !Holds(procs[p], o)
    ensures Users(procs, o) == 0
  {
    if procs != [] {
      UsersZero(procs[..|procs| - 1], o);
    }
  }

  /** `UsersUpdate` for every object at once. */
  lemma UsersAfterMove(procs: seq<Proc>, p: Pid, q: Proc)
    requires p < |procs|
    ensures forall o: Oid :: Users(procs[p := q], o) + (if Holds(procs[p], o) then 1 else 0)
                          == Users(procs, o) + (if Holds(q, o) then 1 else 0)
  {
    forall o: Oid { UsersUpdate(procs, p, q, o); }
  }

  lemma UsersAfterSpawn(procs: seq<Proc>, q: Proc)
    ensures forall o: Oid :: Users(procs + [q], o) == Users(procs, o) + (if Holds(q, o) then 1 else 0)
  {
    forall o: Oid { UsersAppend(procs, q, o); }
  }

  /** No coroutine can hold an object that has not been created yet. */
  lemma FreshObjectUnused(w: World)
    requires Inv(w)
    ensures Users(w.procs, |w.shared.heap|) == 0
  {
    forall p: Pid | At(w, p)
      ensures !Holds(w.procs[p], |w.shared.heap|)
    {
      assert ProcOk(w, p);
    }
    UsersZero(w.procs, |w.shared.heap|);
  }

  // ------------------------------------------------------------ every step keeps the invariant

  lemma EnabledIsSafe(w: World, a: Action)
    requires Inv(w) && Enabled(w, a)
    ensures Safe(w, a)
  {
    if a.LoaderReturns? || a.GetLock? || a.Apply? || a.Finish? || a.Reread? || a.Fail? || a.RunCallback? {
      var pc := w.procs[a.p].pc;
      if pc.Waiting? || pc.Writing? || pc.Applied? {
        assert ProcOk(w, a.p) && CellOk(w, pc.o);
        UsersPositive(w.procs, a.p, pc.o);
      }
    }
  }

  lemma StartWriteKeepsInv(w: World, k: Key, v: Value)
    requires Inv(w)
    ensures Inv(Next(w, StartWrite(k, v)))
  {
    var w' := Next(w, StartWrite(k, v));
    UsersAfterSpawn(w.procs, w'.procs[|w.procs|]);
    FreshObjectUnused(w);
    forall p: Pid | At(w', p) ensures ProcOk(w', p) {
      if At(w, p) { assert ProcOk(w, p); }
    }
    forall o: Oid | o < |w'.shared.heap| ensures CellOk(w', o) {
      if o < |w.shared.heap| { assert CellOk(w, o); }
    }
  }

  lemma StartLoadKeepsInv(w: World, k: Key)
    requires Inv(w)
    ensures Inv(Next(w, StartLoad(k)))
  {
    var w' := Next(w, StartLoad(k));
    var o := AcquiredOid(w.shared, k);
    if o < |w.shared.heap| { assert CellOk(w, o); }
    if w'.procs == w.procs {
      assert w'.shared.heap == w.shared.heap;
    } else {
      forall p: Pid | At(w', p) ensures ProcOk(w', p) {
        if At(w, p) { assert ProcOk(w, p); }
      }
      forall i: Oid | i < |w'.shared.heap| ensures CellOk(w', i) {
        SpawnKeepsCell(w, k, i);
      }
    }
  }

  lemma SpawnKeepsCell(w: World, k: Key, i: Oid)
    requires Inv(w) && Next(w, StartLoad(k)).procs != w.procs
    requires i < |Next(w, StartLoad(k)).shared.heap|
    ensures CellOk(Next(w, StartLoad(k)), i)
  {
    var w' := Next(w, StartLoad(k));
    var o := AcquiredOid(w.shared, k);
    UsersAppend(w.procs, w'.procs[|w.procs|], i);
    if i < |w.shared.heap| { assert CellOk(w, i); } else { FreshObjectUnused(w); }
    if i != o {
      assert w'.shared.heap[i] == w.shared.heap[i];
    }
  }

  lemma LoaderReturnsKeepsInv(w: World, p: Pid, v: Value)
    requires Inv(w) && At(w, p) && w.procs[p].pc.Loading?
    ensures Inv(Next(w, LoaderReturns(p, v)))
  {
    var w' := Next(w, LoaderReturns(p, v));
    assert ProcOk(w, p);
    LoadIsRegistered(w, p);
    UsersAfterMove(w.procs, p, w'.procs[p]);
    forall q: Pid | At(w', q) ensures ProcOk(w', q) {
      assert ProcOk(w, q);
    }
    forall o: Oid | o < |w'.shared.heap| ensures CellOk(w', o) {
      assert CellOk(w, o);
    }
  }

  /** The object whose epoch an unfinished load captured is still the one in the registry. */
  lemma LoadIsRegistered(w: World, p: Pid)
    requires Inv(w) && At(w, p) && Unfinished(w.procs[p])
    ensures w.procs[p].home < |w.shared.heap|
    ensures w.procs[p].key in w.shared.registry && w.shared.registry[w.procs[p].key] == w.procs[p].home
  {
    assert ProcOk(w, p);
    assert CellOk(w, w.procs[p].home);
  }

  lemma GetLockKeepsInv(w: World, p: Pid)
    requires Inv(w) && Enabled(w, GetLock(p)) && Safe(w, GetLock(p))
    ensures Inv(Next(w, GetLock(p)))
  {
    var w' := Next(w, GetLock(p));
    forall q: Pid | At(w', q) ensures ProcOk(w', q) {
      GetLockKeepsProc(w, p, q);
    }
    forall o: Oid | o < |w'.shared.heap| ensures CellOk(w', o) {
      GetLockKeepsCell(w, p, o);
    }
  }

  lemma GetLockKeepsProc(w: World, p: Pid, q: Pid)
    requires Inv(w) && Enabled(w, GetLock(p)) && Safe(w, GetLock(p)) && At(w, q)
    ensures ProcOk(Next(w, GetLock(p)), q)
  {
    assert ProcOk(w, p) && ProcOk(w, q);
  }

  lemma GetLockKeepsCell(w: World, p: Pid, o: Oid)
    requires Inv(w) && Enabled(w, GetLock(p)) && Safe(w, GetLock(p)) && o < |w.shared.heap|
    ensures CellOk(Next(w, GetLock(p)), o)
  {
    var w' := Next(w, GetLock(p));
    assert ProcOk(w, p) && CellOk(w, o);
    UsersUpdate(w.procs, p, w'.procs[p], o);
    if !Holds(w.procs[p], o) {
      assert w'.shared.heap[o] == w.shared.heap[o];
    }
  }

  lemma ApplyKeepsInv(w: World, p: Pid)
    requires Inv(w) && Enabled(w, Apply(p)) && Safe(w, Apply(p))
    ensures Inv(Next(w, Apply(p)))
  {
    var w' := Next(w, Apply(p));
    UsersAfterMove(w.procs, p, w'.procs[p]);
    forall q: Pid | At(w', q) ensures ProcOk(w', q) {
      assert ProcOk(w, q);
    }
    forall o: Oid | o < |w'.shared.heap| ensures CellOk(w', o) {
      assert CellOk(w, o);
    }
  }

  lemma UnwindKeepsInv(w: World, p: Pid, outcome: Outcome)
    requires Inv(w) && Sound(w, p) && !w.procs[p].pc.Done?
    ensures Inv(Unwind(w, p, outcome))
  {
    var w' := Unwind(w, p, outcome);
    UnwindKeepsRegistry(w, p, outcome);
    forall q: Pid | At(w', q) ensures ProcOk(w', q) {
      UnwindKeepsProc(w, p, outcome, q);
    }
    forall o: Oid | o < |w'.shared.heap| ensures CellOk(w', o) {
      UnwindKeepsCell(w, p, outcome, o);
    }
  }

  lemma UnwindKeepsRegistry(w: World, p: Pid, outcome: Outcome)
    requires Inv(w) && Sound(w, p) && !w.procs[p].pc.Done?
    ensures var w' := Unwind(w, p, outcome);
            WellFormed(w'.shared) && |w'.procs| == |w.procs| && |w'.shared.heap| == |w.shared.heap|
  {
  }

  lemma UnwindKeepsProc(w: World, p: Pid, outcome: Outcome, q: Pid)
    requires Inv(w) && Sound(w, p) && !w.procs[p].pc.Done? && At(w, q)
    ensures ProcOk(Unwind(w, p, outcome), q)
  {
    assert ProcOk(w, p) && ProcOk(w, q);
  }

  lemma UnwindKeepsCell(w: World, p: Pid, outcome: Outcome, o: Oid)
    requires Inv(w) && Sound(w, p) && !w.procs[p].pc.Done? && o < |w.shared.heap|
    ensures CellOk(Unwind(w, p, outcome), o)
  {
    if Holds(w.procs[p], o) {
      UnwindKeepsHeld(w, p, outcome, o);
    } else {
      UnwindKeepsOther(w, p, outcome, o);
    }
  }

  lemma UnwindKeepsHeld(w: World, p: Pid, outcome: Outcome, o: Oid)
    requires Inv(w) && Sound(w, p) && Holds(w.procs[p], o) && o < |w.shared.heap|
    ensures CellOk(Unwind(w, p, outcome), o)
  {
    assert ProcOk(w, p) && CellOk(w, o);
    UsersUpdate(w.procs, p, Unwind(w, p, outcome).procs[p], o);
    HolderIsCounted(w, p, outcome, o);
  }

  lemma UnwindKeepsOther(w: World, p: Pid, outcome: Outcome, o: Oid)
    requires Inv(w) && Sound(w, p) && !w.procs[p].pc.Done? && !Holds(w.procs[p], o) && o < |w.shared.heap|
    ensures CellOk(Unwind(w, p, outcome), o)
  {
    assert ProcOk(w, p) && CellOk(w, o);
    var w' := Unwind(w, p, outcome);
    UsersUpdate(w.procs, p, w'.procs[p], o);
    assert w'.shared.heap[o] == w.shared.heap[o];
    assert Registered(w'.shared, o) <==> Registered(w.shared, o);
  }

  /** While another coroutine is inside the lock, the object it locks stays in use. */
  lemma HolderIsCounted(w: World, p: Pid, outcome: Outcome, o: Oid)
    requires Inv(w) && Sound(w, p) && !w.procs[p].pc.Done? && o < |w.shared.heap|
    ensures var h := w.shared.heap[o].holder;
            h.Some? && h != Some(p) ==> Users(Unwind(w, p, outcome).procs, o) > 0
  {
    assert CellOk(w, o);
    var h := w.shared.heap[o].holder;
    if h.Some? && h != Some(p) {
      UsersPositive(Unwind(w, p, outcome).procs, h.value, o);
    }
  }

  lemma CallbackKeepsInv(w: World, p: Pid)
    requires Inv(w) && Enabled(w, RunCallback(p)) && Safe(w, RunCallback(p))
    ensures Inv(Next(w, RunCallback(p)))
  {
    var w' := Next(w, RunCallback(p));
    forall q: Pid | At(w', q) ensures ProcOk(w', q) {
      assert ProcOk(w, q);
    }
    forall o: Oid | o < |w'.shared.heap| ensures CellOk(w', o) {
      CallbackKeepsCell(w, p, o);
    }
  }

  lemma CallbackKeepsCell(w: World, p: Pid, o: Oid)
    requires Inv(w) && Enabled(w, RunCallback(p)) && Safe(w, RunCallback(p)) && o < |w.shared.heap|
    ensures CellOk(Next(w, RunCallback(p)), o)
  {
    if w.shared.heap[o].key == w.procs[p].key {
      CallbackKeepsOwn(w, p, o);
    } else {
      CallbackKeepsOther(w, p, o);
    }
  }

  lemma CallbackKeepsOwn(w: World, p: Pid, o: Oid)
    requires Inv(w) && Enabled(w, RunCallback(p)) && Safe(w, RunCallback(p)) && o < |w.shared.heap|
    requires w.shared.heap[o].key == w.procs[p].key
    ensures CellOk(Next(w, RunCallback(p)), o)
  {
    assert CellOk(w, o);
    UsersUpdate(w.procs, p, Next(w, RunCallback(p)).procs[p], o);
    if w.shared.heap[o].holder.Some? {
      UsersPositive(w.procs, w.shared.heap[o].holder.value, o);
    }
  }

  lemma CallbackKeepsOther(w: World, p: Pid, o: Oid)
    requires Inv(w) && Enabled(w, RunCallback(p)) && Safe(w, RunCallback(p)) && o < |w.shared.heap|
    requires w.shared.heap[o].key != w.procs[p].key
    ensures CellOk(Next(w, RunCallback(p)), o)
  {
    var w' := Next(w, RunCallback(p));
    assert CellOk(w, o);
    UsersUpdate(w.procs, p, w'.procs[p], o);
    assert w'.shared.heap[o] == w.shared.heap[o];
  }

  lemma RereadKeepsInv(w: World, p: Pid)
    requires Inv(w) && Enabled(w, Reread(p)) && Safe(w, Reread(p))
    ensures Inv(Next(w, Reread(p)))
  {
    var w' := Next(w, Reread(p));
    UsersAfterMove(w.procs, p, w'.procs[p]);
    forall q: Pid | At(w', q) ensures ProcOk(w', q) {
      assert ProcOk(w, q);
    }
    forall o: Oid | o < |w'.shared.heap| ensures CellOk(w', o) {
      assert CellOk(w, o);
    }
  }

  lemma CacheChangeKeepsInv(w: World, cache: map<Key, Value>)
    requires Inv(w)
    ensures Inv(w.(cache := cache))
  {
    var w' := w.(cache := cache);
    forall q: Pid | At(w', q) ensures ProcOk(w', q) {
      assert ProcOk(w, q);
    }
    forall o: Oid | o < |w'.shared.heap| ensures CellOk(w', o) {
      assert CellOk(w, o);
    }
  }

  lemma StepKeepsInv(w: World, a: Action)
    requires Inv(w) && Enabled(w, a)
    ensures Safe(w, a) && Inv(Next(w, a))
  {
    EnabledIsSafe(w, a);
    match a
    case StartWrite(k, v) => StartWriteKeepsInv(w, k, v);
    case StartLoad(k) => StartLoadKeepsInv(w, k);
    case LoaderReturns(p, v) => LoaderReturnsKeepsInv(w, p, v);
    case GetLock(p) => GetLockKeepsInv(w, p);
    case Apply(p) => ApplyKeepsInv(w, p);
    case Finish(p) => UnwindKeepsInv(w, p, Returned(w.procs[p].pc.v));
    case Reread(p) => RereadKeepsInv(w, p);
    case Fail(p) => UnwindKeepsInv(w, p, Raised);
    case RunCallback(p) => CallbackKeepsInv(w, p);
    case Evict(_) => CacheChangeKeepsInv(w, Next(w, a).cache);
    case ExternalPut(_, _) => CacheChangeKeepsInv(w, Next(w, a).cache);
  }
}
