/** What the coordination of `cache.py` guarantees over whole runs. */
module SwrTheorems {
  import opened Wrappers
  import opened SwrProtocol

  // ------------------------------------------------------------ runs

  /** The actions can happen in this order, each being possible when its turn comes. */
  ghost predicate CanRun(w: World, acts: seq<Action>)
    requires Inv(w)
    decreases |acts|
  {
    acts == [] || (Enabled(w, acts[0]) && (StepKeepsInv(w, acts[0]); CanRun(Next(w, acts[0]), acts[1..])))
  }

  ghost function After(w: World, acts: seq<Action>): (w': World)
    requires Inv(w) && CanRun(w, acts)
    ensures Inv(w')
    decreases |acts|
  {
    if acts == [] then w else (StepKeepsInv(w, acts[0]); After(Next(w, acts[0]), acts[1..]))
  }

  lemma InitialInv()
    ensures Inv(INITIAL)
  {
  }

  ghost predicate Reachable(w: World) {
    InitialInv();
    exists acts :: CanRun(INITIAL, acts) && After(INITIAL, acts) == w
  }

  lemma ReachableInv(w: World)
    requires Reachable(w)
    ensures Inv(w)
  {
  }

  // ------------------------------------------------------------ the registry

  predicate Quiescent(w: World) {
    forall p <- w.procs :: p.pc.Done? && !p.callback
  }

  /** At most one live state object and one unfinished load per key, `users` is the number
      of outstanding acquirers, a held lock has users, and the registry is exact. */
  lemma CoordinationIsExact(w: World)
    requires Reachable(w)
    ensures forall p: Pid, q: Pid | At(w, p) && At(w, q) && Unfinished(w.procs[p]) && Unfinished(w.procs[q])
              && w.procs[p].key == w.procs[q].key :: p == q
    ensures forall a: Oid, b: Oid | a < |w.shared.heap| && b < |w.shared.heap| && Live(w.shared, a) && Live(w.shared, b)
              && w.shared.heap[a].key == w.shared.heap[b].key :: a == b
    ensures forall o: Oid | o < |w.shared.heap| ::
              w.shared.heap[o].users == Users(w.procs, o)
              && (w.shared.heap[o].holder.Some? ==> w.shared.heap[o].users > 0)
              && (Live(w.shared, o) <==> Registered(w.shared, o))
    ensures Quiescent(w) ==> w.shared.registry == map[]
  {
    ReachableInv(w);
    forall p: Pid, q: Pid | At(w, p) && At(w, q) && Unfinished(w.procs[p]) && Unfinished(w.procs[q])
        && w.procs[p].key == w.procs[q].key
      ensures p == q
    {
      LoadIsRegistered(w, p);
      LoadIsRegistered(w, q);
      assert ProcOk(w, p) && ProcOk(w, q);
    }
    forall o: Oid | o < |w.shared.heap|
      ensures w.shared.heap[o].users == Users(w.procs, o)
      ensures w.shared.heap[o].holder.Some? ==> w.shared.heap[o].users > 0
      ensures Live(w.shared, o) <==> Registered(w.shared, o)
    {
      assert CellOk(w, o);
      if w.shared.heap[o].holder.Some? {
        UsersPositive(w.procs, w.shared.heap[o].holder.value, o);
      }
    }
    if Quiescent(w) {
      QuiescentIsEmpty(w);
    }
  }

  lemma QuiescentIsEmpty(w: World)
    requires Inv(w) && Quiescent(w)
    ensures w.shared.registry == map[]
  {
    forall k | k in w.shared.registry
      ensures false
    {
      var o := w.shared.registry[k];
      assert CellOk(w, o) && Registered(w.shared, o);
      UsersZero(w.procs, o);
    }
  }

  // ------------------------------------------------------------ stale loads

  /** A load whose captured epoch has been overtaken and that is not storing. */
  predicate Stale(w: World, p: Pid) {
    At(w, p) && w.procs[p].kind.Load?
    && (w.procs[p].pc.Done?
        || (!w.procs[p].pc.Writing? && !w.procs[p].pc.Applied?
            && w.procs[p].home < |w.shared.heap| && w.procs[p].startEpoch < w.shared.heap[w.procs[p].home].epoch))
  }

  predicate SameEpochs(a: Shared, b: Shared) {
    |a.heap| <= |b.heap| && forall o: Oid | o < |a.heap| :: a.heap[o].epoch == b.heap[o].epoch
  }

  predicate EpochsUp(a: Shared, b: Shared) {
    |a.heap| <= |b.heap| && forall o: Oid | o < |a.heap| :: a.heap[o].epoch <= b.heap[o].epoch
  }

  lemma AcquireKeepsEpochs(s: Shared, k: Key)
    requires WellFormed(s)
    ensures SameEpochs(s, Acquire(s, k))
  {
  }

  lemma LeaveKeepsEpochs(s: Shared, k: Key, o: Oid, h: Option<Pid>)
    requires o < |s.heap| && s.heap[o].users > 0
    ensures SameEpochs(s, Leave(s, k, o, h))
  {
  }

  lemma EnsureLoadKeepsEpochs(w: World, k: Key)
    requires WellFormed(w.shared)
    ensures SameEpochs(w.shared, EnsureLoad(w, k).shared)
  {
    var s := Acquire(w.shared, k);
    var o := AcquiredOid(w.shared, k);
    AcquireKeepsEpochs(w.shared, k);
    LeaveKeepsEpochs(s, k, o, s.heap[o].holder);
    var t := SetTask(s, o, Some(|w.procs|));
    LeaveKeepsEpochs(t, k, o, t.heap[o].holder);
  }

  lemma UnwindKeepsEpochs(w: World, p: Pid, outcome: Outcome)
    requires Sound(w, p) && !w.procs[p].pc.Done?
    ensures SameEpochs(w.shared, Unwind(w, p, outcome).shared)
  {
    var me := w.procs[p];
    if me.pc.Waiting? || me.pc.Writing? || me.pc.Applied? {
      LeaveKeepsEpochs(w.shared, me.key, me.pc.o, if me.pc.Waiting? then w.shared.heap[me.pc.o].holder else None);
    }
  }

  predicate WriterLocks(w: World, a: Action) {
    a.GetLock? && At(w, a.p) && w.procs[a.p].kind.Writer?
  }

  lemma TakeLockEpochs(w: World, p: Pid)
    requires Sound(w, p) && w.procs[p].pc.Waiting?
    ensures EpochsUp(w.shared, TakeLock(w, p).shared)
    ensures w.procs[p].kind.Load? ==> SameEpochs(w.shared, TakeLock(w, p).shared)
    ensures forall o: Oid | o < |w.shared.heap| && o != w.procs[p].pc.o ::
              w.shared.heap[o].epoch == TakeLock(w, p).shared.heap[o].epoch
  {
    LeaveKeepsEpochs(w.shared, w.procs[p].key, w.procs[p].pc.o, w.shared.heap[w.procs[p].pc.o].holder);
  }

  /** Steps never lower an epoch or forget a state object, and only a writer that takes the lock
      of an object changes that object's epoch. */
  lemma EpochsGrow(w: World, a: Action)
    requires Enabled(w, a) && Safe(w, a)
    ensures EpochsUp(w.shared, Next(w, a).shared)
    ensures !WriterLocks(w, a) ==> SameEpochs(w.shared, Next(w, a).shared)
    ensures WriterLocks(w, a) ==>
              forall o: Oid | o < |w.shared.heap| && o != w.procs[a.p].pc.o ::
                w.shared.heap[o].epoch == Next(w, a).shared.heap[o].epoch
  {
    match a
    case StartWrite(k, _) => AcquireKeepsEpochs(w.shared, k);
    case StartLoad(k) => EnsureLoadKeepsEpochs(w, k);
    case LoaderReturns(p, _) => AcquireKeepsEpochs(w.shared, w.procs[p].key);
    case GetLock(p) => TakeLockEpochs(w, p);
    case Finish(p) => UnwindKeepsEpochs(w, p, Returned(w.procs[p].pc.v));
    case Fail(p) => UnwindKeepsEpochs(w, p, Raised);
    case _ =>
  }

  /** Steps never forget a coroutine or change what it was started with. */
  lemma ProcsKeepIdentity(w: World, a: Action)
    requires Enabled(w, a) && Safe(w, a)
    ensures var w' := Next(w, a);
            |w.procs| <= |w'.procs|
            && forall p: Pid | p < |w.procs| ::
                 w'.procs[p].kind == w.procs[p].kind && w'.procs[p].key == w.procs[p].key
                 && w'.procs[p].home == w.procs[p].home && w'.procs[p].startEpoch == w.procs[p].startEpoch
  {
  }

  predicate ActsOn(a: Action, p: Pid) {
    (a.LoaderReturns? || a.GetLock? || a.Apply? || a.Finish? || a.Reread? || a.Fail? || a.RunCallback?) && a.p == p
  }

  lemma OthersStay(w: World, a: Action, p: Pid)
    requires Enabled(w, a) && Safe(w, a) && At(w, p) && !ActsOn(a, p)
    ensures At(Next(w, a), p) && Next(w, a).procs[p] == w.procs[p]
  {
  }

  lemma StaleStays(w: World, a: Action, p: Pid)
    requires Inv(w) && Enabled(w, a) && Safe(w, a) && Stale(w, p)
    ensures Stale(Next(w, a), p) && a != Apply(p)
  {
    EpochsGrow(w, a);
    ProcsKeepIdentity(w, a);
    if ActsOn(a, p) {
      assert ProcOk(w, p);
    } else {
      OthersStay(w, a, p);
    }
  }

  lemma {:induction false} StaleNeverApplies(w: World, acts: seq<Action>, p: Pid)
    requires Inv(w) && CanRun(w, acts) && Stale(w, p)
    ensures Stale(After(w, acts), p)
    ensures forall i | 0 <= i < |acts| :: acts[i] != Apply(p)
    decreases |acts|
  {
    if acts != [] {
      StepKeepsInv(w, acts[0]);
      StaleStays(w, acts[0], p);
      StaleNeverApplies(Next(w, acts[0]), acts[1..], p);
    }
  }

  /** The epoch bump of an explicit write makes every unfinished load of the key stale. */
  lemma BumpMakesStale(w: World, wr: Pid, p: Pid)
    requires Inv(w) && Enabled(w, GetLock(wr)) && Safe(w, GetLock(wr)) && w.procs[wr].kind.Writer?
    requires At(w, p) && Unfinished(w.procs[p]) && w.procs[p].key == w.procs[wr].key
    ensures Stale(Next(w, GetLock(wr)), p)
  {
    assert ProcOk(w, wr) && ProcOk(w, p);
    LoadIsRegistered(w, p);
    var o := w.procs[wr].pc.o;
    assert CellOk(w, o);
    assert o == w.procs[p].home;
  }

  /** A load that captured its epoch before an explicit write bumped it never writes the
      cache, whatever happens afterwards. */
  lemma StaleLoadNeverWrites(w: World, wr: Pid, p: Pid, after: seq<Action>)
    requires At(w, wr) && w.procs[wr].kind.Writer?
    requires At(w, p) && Unfinished(w.procs[p]) && w.procs[p].key == w.procs[wr].key
    requires Inv(w) && CanRun(w, [GetLock(wr)] + after)
    ensures forall i | 0 <= i < |after| :: after[i] != Apply(p)
  {
    var acts := [GetLock(wr)] + after;
    assert acts[1..] == after;
    StepKeepsInv(w, acts[0]);
    BumpMakesStale(w, wr, p);
    StaleNeverApplies(Next(w, acts[0]), after, p);
  }

  ghost predicate RereadGives(w: World, acts: seq<Action>, i: nat, p: Pid, r: Value)
    requires Inv(w)
  {
    i < |acts| && acts[i] == Reread(p) && CanRun(w, acts[..i])
    && var wi := After(w, acts[..i]);
       At(wi, p) && wi.procs[p].pc.Rereading?
       && r == if wi.procs[p].key in wi.cache then wi.cache[wi.procs[p].key] else wi.procs[p].pc.v
  }

  lemma {:induction false} StaleOutcome(w: World, acts: seq<Action>, p: Pid, r: Value)
    requires Inv(w) && CanRun(w, acts) && Stale(w, p) && !w.procs[p].pc.Done?
    requires At(After(w, acts), p) && After(w, acts).procs[p].pc == Done(Returned(r))
    ensures exists i: nat :: RereadGives(w, acts, i, p, r)
    decreases |acts|
  {
    var a, rest := acts[0], acts[1..];
    StepKeepsInv(w, a);
    StaleStays(w, a, p);
    var w' := Next(w, a);
    if w'.procs[p].pc.Done? {
      DoneStays(w', rest, p);
      assert acts[..0] == [];
      assert RereadGives(w, acts, 0, p, r);
    } else {
      StaleOutcome(w', rest, p, r);
      var i: nat :| RereadGives(w', rest, i, p, r);
      RereadLater(w, acts, i, p, r);
    }
  }

  lemma {:induction false} DoneStays(w: World, acts: seq<Action>, p: Pid)
    requires Inv(w) && CanRun(w, acts) && At(w, p) && w.procs[p].pc.Done?
    ensures At(After(w, acts), p) && After(w, acts).procs[p].pc == w.procs[p].pc
    decreases |acts|
  {
    if acts != [] {
      StepKeepsInv(w, acts[0]);
      DoneStays(Next(w, acts[0]), acts[1..], p);
    }
  }

  /** If such an overtaken load returns a value at all, the value is the cached entry at
      the moment of its second read, or its own value when no entry was there. */
  lemma StaleLoadReturnsCached(w: World, wr: Pid, p: Pid, after: seq<Action>, r: Value)
    requires At(w, wr) && w.procs[wr].kind.Writer?
    requires At(w, p) && Unfinished(w.procs[p]) && w.procs[p].key == w.procs[wr].key
    requires Inv(w) && CanRun(w, [GetLock(wr)] + after)
    requires At(After(w, [GetLock(wr)] + after), p)
    requires After(w, [GetLock(wr)] + after).procs[p].pc == Done(Returned(r))
    ensures exists i: nat :: RereadGives(w, [GetLock(wr)] + after, i, p, r)
  {
    var acts := [GetLock(wr)] + after;
    assert acts[1..] == after;
    StepKeepsInv(w, acts[0]);
    BumpMakesStale(w, wr, p);
    var w' := Next(w, acts[0]);
    StaleOutcome(w', after, p, r);
    var i: nat :| RereadGives(w', after, i, p, r);
    RereadLater(w, acts, i, p, r);
  }

  /** What one step can do to a load that has its value. */
  lemma LoadStep(w: World, a: Action, p: Pid)
    requires Inv(w) && Enabled(w, a) && Safe(w, a) && At(w, p) && w.procs[p].kind.Load?
    requires !w.procs[p].pc.Loading? && !w.procs[p].pc.Done?
    ensures At(Next(w, a), p) && Next(w, a).procs[p].kind.Load?
    ensures var me, pc' := w.procs[p], Next(w, a).procs[p].pc;
            if !pc'.Done? then !pc'.Loading? && pc'.v == me.pc.v
            else pc' == Done(Raised) || pc' == Done(Returned(me.pc.v))
                 || (a == Reread(p) && me.pc.Rereading?
                     && pc' == Done(Returned(if me.key in w.cache then w.cache[me.key] else me.pc.v)))
  {
    if !ActsOn(a, p) { OthersStay(w, a, p); }
  }

  /** Any load returns either what its loader gave it or what it re-read. */
  lemma {:induction false} LoadOutcome(w: World, acts: seq<Action>, p: Pid, v: Value, r: Value)
    requires Inv(w) && CanRun(w, acts) && At(w, p) && w.procs[p].kind.Load?
    requires !w.procs[p].pc.Loading? && !w.procs[p].pc.Done? && w.procs[p].pc.v == v
    requires At(After(w, acts), p) && After(w, acts).procs[p].pc == Done(Returned(r))
    ensures r == v || exists i: nat :: RereadGives(w, acts, i, p, r)
    decreases |acts|
  {
    var a, rest := acts[0], acts[1..];
    StepKeepsInv(w, a);
    LoadStep(w, a, p);
    var w' := Next(w, a);
    if w'.procs[p].pc.Done? {
      DoneStays(w', rest, p);
      assert acts[..0] == [];
      assert r != v ==> RereadGives(w, acts, 0, p, r);
    } else {
      LoadOutcome(w', rest, p, v, r);
      if r != v {
        var i: nat :| RereadGives(w', rest, i, p, r);
        RereadLater(w, acts, i, p, r);
      }
    }
  }

  lemma RereadLater(w: World, acts: seq<Action>, i: nat, p: Pid, r: Value)
    requires Inv(w) && acts != [] && Enabled(w, acts[0]) && Safe(w, acts[0]) && Inv(Next(w, acts[0]))
    requires RereadGives(Next(w, acts[0]), acts[1..], i, p, r)
    ensures RereadGives(w, acts, i + 1, p, r)
  {
    assert acts[..i + 1][1..] == acts[1..][..i];
  }

  // ------------------------------------------------------------ the written value survives

  /** Apart from `wr`, nothing in flight can still write `k`. */
  ghost predicate OnlyWriter(w: World, k: Key, wr: Pid) {
    At(w, wr) && w.procs[wr].kind.Writer? && w.procs[wr].key == k
    && forall q: Pid | At(w, q) && q != wr && w.procs[q].key == k ::
         if w.procs[q].kind.Writer? then w.procs[q].pc.Done? else Stale(w, q)
  }

  predicate LeavesKeyAlone(a: Action, k: Key) {
    match a
    case StartWrite(k', _) => k' != k
    case StartLoad(k') => k' != k
    case Evict(k') => k' != k
    case ExternalPut(k', _) => k' != k
    case _ => true
  }

  /** The value `wr` stores has reached the cache and is there. */
  predicate Stored(w: World, k: Key, wr: Pid, v: Value)
    requires At(w, wr)
  {
    match w.procs[wr].pc
    case Loading => false
    case Waiting(_, v') => v' == v
    case Writing(_, v') => v' == v
    case Applied(_, v') => v' == v && k in w.cache && w.cache[k] == v
    case Rereading(_) => false
    case Done(Returned(_)) => k in w.cache && w.cache[k] == v
    case Done(Raised) => true
  }

  lemma OnlyWriterStays(w: World, a: Action, k: Key, wr: Pid)
    requires Inv(w) && Enabled(w, a) && Safe(w, a) && OnlyWriter(w, k, wr) && LeavesKeyAlone(a, k)
    ensures OnlyWriter(Next(w, a), k, wr)
  {
    ProcsKeepIdentity(w, a);
    var w' := Next(w, a);
    forall q: Pid | At(w', q) && q != wr && w'.procs[q].key == k
      ensures if w'.procs[q].kind.Writer? then w'.procs[q].pc.Done? else Stale(w', q)
    {
      if At(w, q) && w.procs[q].kind.Load? {
        StaleStays(w, a, q);
      }
    }
  }

  lemma StoredStays(w: World, a: Action, k: Key, wr: Pid, v: Value)
    requires Inv(w) && Enabled(w, a) && Safe(w, a) && OnlyWriter(w, k, wr) && LeavesKeyAlone(a, k)
    requires Stored(w, k, wr, v)
    ensures At(Next(w, a), wr) && Stored(Next(w, a), k, wr, v)
  {
    ProcsKeepIdentity(w, a);
  }

  lemma {:induction false} OnlyWriterWins(w: World, acts: seq<Action>, k: Key, wr: Pid, v: Value)
    requires Inv(w) && CanRun(w, acts) && OnlyWriter(w, k, wr) && Stored(w, k, wr, v)
    requires forall a <- acts :: LeavesKeyAlone(a, k)
    ensures At(After(w, acts), wr) && Stored(After(w, acts), k, wr, v)
    decreases |acts|
  {
    if acts != [] {
      StepKeepsInv(w, acts[0]);
      OnlyWriterStays(w, acts[0], k, wr);
      StoredStays(w, acts[0], k, wr, v);
      OnlyWriterWins(Next(w, acts[0]), acts[1..], k, wr, v);
    }
  }

  /** An explicit write is not undone by the loads that were in flight when it bumped the
      epoch: if it returns, its value is in the cache, until something else touches the key. */
  lemma ExplicitWriteSurvives(w: World, wr: Pid, after: seq<Action>)
    requires Inv(w) && At(w, wr) && w.procs[wr].kind.Writer? && w.procs[wr].pc.Waiting?
    requires forall q: Pid | At(w, q) && q != wr && w.procs[q].key == w.procs[wr].key && w.procs[q].kind.Writer? ::
               w.procs[q].pc.Done?
    requires CanRun(w, [GetLock(wr)] + after)
    requires forall a <- after :: LeavesKeyAlone(a, w.procs[wr].key)
    ensures var w' := After(w, [GetLock(wr)] + after);
            At(w', wr) && (w'.procs[wr].pc.Done? && w'.procs[wr].pc.outcome.Returned? ==>
              w.procs[wr].key in w'.cache && w'.cache[w.procs[wr].key] == w.procs[wr].pc.v)
  {
    var acts := [GetLock(wr)] + after;
    assert acts[1..] == after;
    StepKeepsInv(w, acts[0]);
    var w1 := Next(w, acts[0]);
    var k := w.procs[wr].key;
    forall q: Pid | At(w1, q) && q != wr && w1.procs[q].key == k
      ensures if w1.procs[q].kind.Writer? then w1.procs[q].pc.Done? else Stale(w1, q)
    {
      if w.procs[q].kind.Load? && !w.procs[q].pc.Done? {
        BumpMakesStale(w, wr, q);
      }
    }
    OnlyWriterWins(w1, after, k, wr, w.procs[wr].pc.v);
  }
}
