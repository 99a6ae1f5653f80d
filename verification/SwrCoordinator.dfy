/** The module state of `cache.py` and the helpers that change it in place. */
module SwrCoordinator {
  import opened Wrappers
  import opened SwrProtocol

  /** `_SWRState`. The lock is represented by the coroutine inside it, if any. */
  class SwrState {
    var task: Option<Pid>
    var writeEpoch: nat
    var lockHolder: Option<Pid>
    var users: nat
    ghost const id: Oid
    ghost const key: Key

    constructor (ghost id: Oid, ghost key: Key)
      ensures this.id == id && this.key == key
      ensures task == None && writeEpoch == 0 && lockHolder == None && users == 0
    {
      this.id, this.key := id, key;
      task, writeEpoch, lockHolder, users := None, 0, None, 0;
    }

    ghost function Contents(): Cell
      reads this
    {
      Cell(key, task, writeEpoch, lockHolder, users)
    }
  }

  /** `_SWR_STATES`, together with every state object ever handed out. */
  class SwrCoordinator {
    var states: map<Key, SwrState>
    ghost var all: seq<SwrState>

    ghost predicate Valid()
      reads this, all
    {
      && (forall i: nat | i < |all| :: all[i].id == i)
      && (forall k <- states :: states[k].id < |all| && all[states[k].id] == states[k] && states[k].key == k)
    }

    ghost predicate Owns(s: SwrState)
      reads this
    {
      s.id < |all| && all[s.id] == s
    }

    ghost function Abs(): Shared
      reads this, all
    {
      Shared(seq(|all|, i requires 0 <= i < |all| reads this, all => all[i].Contents()),
             map k <- states :: states[k].id)
    }

    constructor ()
      ensures Valid() && Abs() == Shared([], map[])
    {
      states, all := map[], [];
    }

    /** The creating branch of `_acquire_swr_state`. */
    method RegisterNewState(k: Key) returns (s: SwrState)
      requires Valid() && k !in states
      modifies this
      ensures Valid() && fresh(s) && Owns(s) && s.key == k && all == old(all) + [s]
      ensures Abs() == Shared(old(Abs()).heap + [Cell(k, None, 0, None, 0)], old(Abs()).registry[k := |old(all)|])
    {
      ghost var before := Abs();
      s := new SwrState(|all|, k);
      states := states[k := s];
      all := all + [s];
      assert Abs().heap == before.heap + [Cell(k, None, 0, None, 0)];
    }

    /** `_acquire_swr_state` */
    method AcquireSwrState(k: Key) returns (s: SwrState)
      requires Valid()
      modifies this, all
      ensures Valid() && Owns(s) && s.key == k
      ensures WellFormed(old(Abs())) && s.id == AcquiredOid(old(Abs()), k)
      ensures Abs() == Acquire(old(Abs()), k)
      ensures s in old(all) || fresh(s)
      ensures forall o <- all :: o in old(all) || fresh(o)
    {
      if k in states {
        s := states[k];
      } else {
        s := RegisterNewState(k);
      }
      CountUser(s);
    }

    /** `state.users += 1` */
    method CountUser(s: SwrState)
      requires Valid() && Owns(s)
      modifies s`users
      ensures Valid() && s.id < |old(Abs()).heap|
      ensures var c := old(Abs()).heap[s.id];
              Abs() == old(Abs()).(heap := old(Abs()).heap[s.id := c.(users := c.users + 1)])
    {
      ghost var before := Abs();
      s.users := s.users + 1;
      assert Abs().heap == before.heap[s.id := before.heap[s.id].(users := before.heap[s.id].users + 1)];
    }

    /** `_maybe_cleanup_swr_state` */
    method MaybeCleanupSwrState(k: Key, s: SwrState)
      requires Valid() && Owns(s)
      modifies this`states
      ensures Valid() && all == old(all)
      ensures Abs() == Cleanup(old(Abs()), k, s.id)
    {
      ghost var before := Abs();
      if s.users == 0 && s.task.None? && s.lockHolder.None? && k in states && states[k] == s {
        states := states - {k};
      }
      assert Abs().heap == before.heap;
    }

    /** `_release_swr_state` */
    method ReleaseSwrState(k: Key, s: SwrState)
      requires Valid() && Owns(s) && s.users > 0
      modifies this`states, s`users
      ensures Valid() && all == old(all)
      ensures Abs() == Release(old(Abs()), k, s.id)
    {
      ghost var before := Abs();
      s.users := s.users - 1;
      assert Abs().heap == before.heap[s.id := before.heap[s.id].(users := before.heap[s.id].users - 1)];
      MaybeCleanupSwrState(k, s);
    }

    /** The task that a state object holds, if any, is a load of its key. */
    lemma TaskIsLoad(w: World, k: Key)
      requires Inv(w)
      ensures var t := Acquire(w.shared, k).heap[AcquiredOid(w.shared, k)].task;
              t.Some? ==> At(w, t.value) && w.procs[t.value].key == k && w.procs[t.value].kind.Load?
    {
      var o := AcquiredOid(w.shared, k);
      if o < |w.shared.heap| { assert CellOk(w, o); }
    }

    /** The task to wait for: the one there, unless it is finished, and else a new one. */
    method ChooseTask(s: SwrState, finished: set<Pid>, newTask: Pid) returns (task: Pid)
      requires Valid() && Owns(s)
      modifies s`task
      ensures Valid()
      ensures var t := old(s.task);
              if t.Some? && t.value !in finished then task == t.value && Abs() == old(Abs())
              else task == newTask && Abs() == SetTask(old(Abs()), s.id, Some(newTask))
    {
      ghost var before := Abs();
      if s.task.Some? && s.task.value !in finished {
        task := s.task.value;
      } else {
        task := newTask;
        s.task := Some(task);
        assert Abs().heap == SetTask(before, s.id, Some(task)).heap;
      }
    }

    /** `_ensure_swr_load_task`. `finished` are the tasks for which `done()` holds and
        `newTask` is the task that `asyncio.create_task` would return. */
    method EnsureSwrLoadTask(k: Key, finished: set<Pid>, newTask: Pid, ghost w: World)
      returns (task: Pid, startEpoch: nat)
      requires Valid() && w.shared == Abs() && Inv(w) && newTask == |w.procs|
      requires forall p: Pid | At(w, p) :: p in finished <==> w.procs[p].pc.Done?
      modifies this, all
      ensures Valid() && Abs() == EnsureLoad(w, k).shared
      ensures task < |EnsureLoad(w, k).procs| && EnsureLoad(w, k).procs[task].key == k
      ensures Unfinished(EnsureLoad(w, k).procs[task])
      ensures task == newTask ==> EnsureLoad(w, k).procs[task].startEpoch == startEpoch
    {
      var s := AcquireSwrState(k);
      ghost var cell := Abs().heap[s.id];
      assert cell == s.Contents();
      startEpoch := s.writeEpoch;
      TaskIsLoad(w, k);
      task := ChooseTask(s, finished, newTask);
      assert Abs().heap[s.id] == s.Contents();
      ReleaseSwrState(k, s);
    }

    /** The done-callback of a load task. */
    method TaskDone(k: Key, p: Pid, ghost w: World)
      requires Valid() && w.shared == Abs() && At(w, p) && w.procs[p].key == k
      modifies this`states, all
      ensures Valid() && all == old(all) && WellFormed(w.shared) && Abs() == Callback(w, p).shared
    {
      if k in states && states[k].task == Some(p) {
        var s := states[k];
        ghost var before := Abs();
        s.task := None;
        assert Abs() == SetTask(before, s.id, None) by {
          assert Abs().heap == SetTask(before, s.id, None).heap;
        }
        MaybeCleanupSwrState(k, s);
      }
    }

    /** `_write_swr_value` from the moment the lock is granted to the next await. */
    method LockForWrite(s: SwrState, p: Pid, ghost w: World)
      requires Valid() && Owns(s) && s.lockHolder.None? && w.shared == Abs()
      requires Sound(w, p) && w.procs[p].kind.Writer? && w.procs[p].pc.Waiting? && w.procs[p].pc.o == s.id
      modifies s
      ensures Valid() && Abs() == TakeLock(w, p).shared
      ensures s.writeEpoch == old(s.writeEpoch) + 1 && s.lockHolder == Some(p)
    {
      s.lockHolder := Some(p);
      s.writeEpoch := s.writeEpoch + 1;
      assert Abs().heap == TakeLock(w, p).shared.heap;
    }

    /** `_store_loaded_swr_value` from the moment the lock is granted: it either goes on to
        store, or leaves the lock, releases the object and reports failure. */
    method LockForStore(k: Key, s: SwrState, p: Pid, startEpoch: nat, ghost w: World) returns (store: bool)
      requires Valid() && Owns(s) && s.lockHolder.None? && s.users > 0 && w.shared == Abs()
      requires Sound(w, p) && w.procs[p].kind.Load? && w.procs[p].pc.Waiting? && w.procs[p].pc.o == s.id
      requires w.procs[p].key == k && w.procs[p].startEpoch == startEpoch
      modifies this`states, s
      ensures Valid() && all == old(all) && Abs() == TakeLock(w, p).shared
      ensures store <==> TakeLock(w, p).procs[p].pc.Writing?
      ensures store <==> startEpoch == old(s.writeEpoch)
    {
      store := startEpoch == s.writeEpoch;
      if store {
        s.lockHolder := Some(p);
        assert Abs().heap == TakeLock(w, p).shared.heap;
      } else {
        ReleaseSwrState(k, s);
      }
    }

    /** Leaving the lock (when `locked`) and the enclosing `finally`. */
    method LeaveStore(k: Key, s: SwrState, p: Pid, locked: bool, outcome: Outcome, ghost w: World)
      requires Valid() && Owns(s) && s.users > 0 && w.shared == Abs()
      requires Sound(w, p) && w.procs[p].key == k && Holds(w.procs[p], s.id)
      requires locked <==> !w.procs[p].pc.Waiting?
      modifies this`states, s
      ensures Valid() && all == old(all) && Abs() == Unwind(w, p, outcome).shared
    {
      if locked {
        s.lockHolder := None;
        assert Abs().heap == SetHolder(w.shared, s.id, None).heap;
      }
      ReleaseSwrState(k, s);
    }
  }
}
