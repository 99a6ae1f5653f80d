/** Whole loads and writes of `cache.py`, from the call that starts them to the value they store
    and return. */
module SwrEndToEnd {
  import opened Wrappers
  import opened SwrProtocol
  import opened SwrTheorems

  // ------------------------------------------------------------ what a step can change

  /** The cached entry of a key changes only when a coroutine of that key stores its value, and
      when it is evicted or written from outside. */
  lemma CacheFrame(w: World, a: Action, k: Key)
    requires Enabled(w, a) && Safe(w, a)
    ensures var c, c' := w.cache, Next(w, a).cache;
            if a.Apply? && w.procs[a.p].key == k then k in c' && c'[k] == w.procs[a.p].pc.v
            else if a == Evict(k) then k !in c'
            else if a.ExternalPut? && a.key == k then k in c' && c'[k] == a.value
            else (k in c' <==> k in c) && (k in c ==> c'[k] == c[k])
  {
  }

  /** Asking for a load leaves an unfinished load of the key: the one there was, or a new one
      that captures the epoch of the registered object. */
  lemma StartLoadLeavesLoad(w: World, k: Key)
    requires Inv(w)
    ensures var w' := EnsureLoad(w, k);
            if exists p: Pid :: At(w, p) && Unfinished(w.procs[p]) && w.procs[p].key == k then w'.procs == w.procs
            else |w'.procs| == |w.procs| + 1 && w.procs <= w'.procs && JustStarted(w', |w.procs|, k)
  {
    var o := AcquiredOid(w.shared, k);
    if o < |w.shared.heap| { assert CellOk(w, o); }
    if p: Pid :| At(w, p) && Unfinished(w.procs[p]) && w.procs[p].key == k {
      LoadIsRegistered(w, p);
      assert ProcOk(w, p);
    }
  }

  predicate JustStarted(w: World, p: Pid, k: Key) {
    At(w, p) && w.procs[p].kind.Load? && w.procs[p].key == k && w.procs[p].pc == Loading && UpToDate(w, p)
  }

  /** No writer has bumped the epoch since this load captured it. */
  predicate UpToDate(w: World, p: Pid) {
    At(w, p) && w.procs[p].home < |w.shared.heap| && w.procs[p].startEpoch == w.shared.heap[w.procs[p].home].epoch
  }

  // ------------------------------------------------------------ what a coroutine can do alone

  /** Whoever may take the lock, a writer or a load that is up to date, can go on to store its
      value and return it. */
  lemma CanStore(w: World, p: Pid)
    requires Inv(w) && Enabled(w, GetLock(p))
    requires w.procs[p].kind.Writer? || w.procs[p].startEpoch == w.shared.heap[w.procs[p].pc.o].epoch
    ensures var me := w.procs[p];
            var acts := [GetLock(p), Apply(p), Finish(p)];
            CanRun(w, acts) && After(w, acts).cache == w.cache[me.key := me.pc.v]
            && At(After(w, acts), p) && After(w, acts).procs[p].pc == Done(Returned(me.pc.v))
  {
    var w1 := StepOf(w, GetLock(p));
    var w2 := StepOf(w1, Apply(p));
    var w3 := StepOf(w2, Finish(p));
    RunOfThree(w, GetLock(p), Apply(p), Finish(p));
  }

  /** A load that was overtaken can go on to read the cache again, which it leaves as it is. */
  lemma CanReread(w: World, p: Pid)
    requires Inv(w) && Enabled(w, GetLock(p)) && w.procs[p].kind.Load?
    requires w.procs[p].startEpoch != w.shared.heap[w.procs[p].pc.o].epoch
    ensures var me := w.procs[p];
            var r := if me.key in w.cache then w.cache[me.key] else me.pc.v;
            var acts := [GetLock(p), Reread(p)];
            CanRun(w, acts) && After(w, acts).cache == w.cache
            && At(After(w, acts), p) && After(w, acts).procs[p].pc == Done(Returned(r))
  {
    var w1 := StepOf(w, GetLock(p));
    var w2 := StepOf(w1, Reread(p));
    RunOfTwo(w, GetLock(p), Reread(p));
  }

  lemma StepOf(w: World, a: Action) returns (w': World)
    requires Inv(w) && Enabled(w, a)
    ensures Safe(w, a) && w' == Next(w, a) && Inv(w')
  {
    EnabledIsSafe(w, a);
    StepKeepsInv(w, a);
    w' := Next(w, a);
  }

  lemma RunOfNone(w: World)
    requires Inv(w)
    ensures CanRun(w, []) && After(w, []) == w
  {
  }

  lemma RunMore(w: World, a: Action, rest: seq<Action>)
    requires Inv(w) && Enabled(w, a) && Safe(w, a) && Inv(Next(w, a)) && CanRun(Next(w, a), rest)
    ensures CanRun(w, [a] + rest) && After(w, [a] + rest) == After(Next(w, a), rest)
  {
    assert ([a] + rest)[1..] == rest;
  }

  lemma RunOfTwo(w: World, a: Action, b: Action)
    requires Inv(w) && Enabled(w, a) && Safe(w, a) && Inv(Next(w, a))
    requires Enabled(Next(w, a), b) && Safe(Next(w, a), b) && Inv(Next(Next(w, a), b))
    ensures CanRun(w, [a, b]) && After(w, [a, b]) == Next(Next(w, a), b)
  {
    var w1 := Next(w, a);
    RunOfNone(Next(w1, b));
    RunMore(w1, b, []);
    assert [b] + [] == [b];
    RunMore(w, a, [b]);
    assert [a] + [b] == [a, b];
  }

  lemma RunOfThree(w: World, a: Action, b: Action, c: Action)
    requires Inv(w) && Enabled(w, a) && Safe(w, a) && Inv(Next(w, a))
    requires Enabled(Next(w, a), b) && Safe(Next(w, a), b) && Inv(Next(Next(w, a), b))
    requires Enabled(Next(Next(w, a), b), c) && Safe(Next(Next(w, a), b), c) && Inv(Next(Next(Next(w, a), b), c))
    ensures CanRun(w, [a, b, c]) && After(w, [a, b, c]) == Next(Next(Next(w, a), b), c)
  {
    RunOfTwo(Next(w, a), b, c);
    RunMore(w, a, [b, c]);
    assert [a] + [b, c] == [a, b, c];
  }

  // ------------------------------------------------------------ storing, in any interleaving

  /** Action `i` stores the value of `p`, and the key then has the value `v`. */
  ghost predicate StoresAt(w: World, acts: seq<Action>, i: nat, p: Pid, k: Key, v: Value)
    requires Inv(w)
  {
    i < |acts| && acts[i] == Apply(p) && CanRun(w, acts[..i + 1])
    && k in After(w, acts[..i + 1]).cache && After(w, acts[..i + 1]).cache[k] == v
  }

  lemma StoresNow(w: World, acts: seq<Action>, p: Pid)
    requires Inv(w) && acts != [] && acts[0] == Apply(p) && Enabled(w, acts[0])
    ensures StoresAt(w, acts, 0, p, w.procs[p].key, w.procs[p].pc.v)
  {
    var w' := StepOf(w, acts[0]);
    RunOfNone(w');
    assert acts[..1] == [acts[0]] + [];
    RunMore(w, acts[0], []);
    CacheFrame(w, acts[0], w.procs[p].key);
  }

  lemma StoresLater(w: World, acts: seq<Action>, i: nat, p: Pid, k: Key, v: Value)
    requires Inv(w) && acts != [] && Enabled(w, acts[0]) && Safe(w, acts[0]) && Inv(Next(w, acts[0]))
    requires StoresAt(Next(w, acts[0]), acts[1..], i, p, k, v)
    ensures StoresAt(w, acts, i + 1, p, k, v)
  {
    assert acts[..i + 2] == [acts[0]] + acts[1..][..i + 1];
    RunMore(w, acts[0], acts[1..][..i + 1]);
  }

  ghost predicate Returns(w: World, acts: seq<Action>, p: Pid, r: Value)
    requires Inv(w)
  {
    CanRun(w, acts) && At(After(w, acts), p) && After(w, acts).procs[p].pc == Done(Returned(r))
  }

  ghost predicate Stores(w: World, acts: seq<Action>, p: Pid, k: Key, v: Value)
    requires Inv(w)
  {
    exists i: nat :: StoresAt(w, acts, i, p, k, v)
  }

  lemma ReturnsLater(w: World, acts: seq<Action>, p: Pid, r: Value) returns (w': World)
    requires Inv(w) && Returns(w, acts, p, r) && At(w, p) && !w.procs[p].pc.Done?
    ensures acts != [] && Enabled(w, acts[0]) && Safe(w, acts[0])
    ensures w' == Next(w, acts[0]) && Inv(w') && At(w', p) && Returns(w', acts[1..], p, r)
    ensures w'.procs[p].pc.Done? ==> w'.procs[p].pc == Done(Returned(r))
    ensures w'.procs[p].kind == w.procs[p].kind && w'.procs[p].key == w.procs[p].key
    ensures w'.procs[p].home == w.procs[p].home && w'.procs[p].startEpoch == w.procs[p].startEpoch
  {
    w' := StepOf(w, acts[0]);
    ProcsKeepIdentity(w, acts[0]);
    if w'.procs[p].pc.Done? { DoneStays(w', acts[1..], p); }
  }

  lemma {:induction false} AppliedReturns(w: World, acts: seq<Action>, p: Pid, v: Value, r: Value)
    requires Inv(w) && At(w, p) && w.procs[p].pc.Applied? && w.procs[p].pc.v == v && Returns(w, acts, p, r)
    ensures r == v
    decreases |acts|
  {
    var w' := ReturnsLater(w, acts, p, r);
    if !ActsOn(acts[0], p) {
      OthersStay(w, acts[0], p);
      AppliedReturns(w', acts[1..], p, v, r);
    }
  }

  lemma {:induction false} HolderStores(w: World, acts: seq<Action>, p: Pid, v: Value, r: Value)
    requires Inv(w) && At(w, p) && w.procs[p].pc.Writing? && w.procs[p].pc.v == v && Returns(w, acts, p, r)
    ensures r == v && Stores(w, acts, p, w.procs[p].key, v)
    decreases |acts|
  {
    var w' := ReturnsLater(w, acts, p, r);
    if ActsOn(acts[0], p) {
      AppliedReturns(w', acts[1..], p, v, r);
      StoresNow(w, acts, p);
    } else {
      OthersStay(w, acts[0], p);
      HolderStores(w', acts[1..], p, v, r);
      var i: nat :| StoresAt(w', acts[1..], i, p, w.procs[p].key, v);
      StoresLater(w, acts, i, p, w.procs[p].key, v);
    }
  }

  lemma {:induction false} WaitingWriterStores(w: World, acts: seq<Action>, p: Pid, v: Value, r: Value)
    requires Inv(w) && At(w, p) && w.procs[p].kind.Writer? && w.procs[p].pc.Waiting? && w.procs[p].pc.v == v
    requires Returns(w, acts, p, r)
    ensures r == v && Stores(w, acts, p, w.procs[p].key, v)
    decreases |acts|
  {
    var w' := ReturnsLater(w, acts, p, r);
    if ActsOn(acts[0], p) {
      HolderStores(w', acts[1..], p, v, r);
    } else {
      OthersStay(w, acts[0], p);
      WaitingWriterStores(w', acts[1..], p, v, r);
    }
    var i: nat :| StoresAt(w', acts[1..], i, p, w.procs[p].key, v);
    StoresLater(w, acts, i, p, w.procs[p].key, v);
  }

  /** An explicit write that returns has stored exactly the value it was called with. */
  lemma WriteStoresItsValue(w: World, acts: seq<Action>, k: Key, v: Value, r: Value)
    requires Inv(w) && acts != [] && acts[0] == StartWrite(k, v) && Returns(w, acts, |w.procs|, r)
    ensures r == v && Stores(w, acts, |w.procs|, k, v)
  {
    var p := |w.procs|;
    var w' := StepOf(w, acts[0]);
    WaitingWriterStores(w', acts[1..], p, v, r);
    var i: nat :| StoresAt(w', acts[1..], i, p, k, v);
    StoresLater(w, acts, i, p, k, v);
  }

  // ------------------------------------------------------------ loads that are not overtaken

  /** Before `p` takes the lock, no writer of the key does. */
  ghost predicate NotOvertaken(w: World, acts: seq<Action>, p: Pid, k: Key)
    requires Inv(w) && CanRun(w, acts)
    decreases |acts|
  {
    acts == [] || acts[0] == GetLock(p)
    || (!(WriterLocks(w, acts[0]) && w.procs[acts[0].p].key == k)
        && (StepKeepsInv(w, acts[0]); NotOvertaken(Next(w, acts[0]), acts[1..], p, k)))
  }

  /** What the loader of `p` gives. */
  function Loaded(acts: seq<Action>, p: Pid): Option<Value> {
    if acts == [] then None
    else if acts[0].LoaderReturns? && acts[0].p == p then Some(acts[0].value)
    else Loaded(acts[1..], p)
  }

  lemma UpToDateStays(w: World, a: Action, p: Pid)
    requires Inv(w) && Enabled(w, a) && Safe(w, a) && UpToDate(w, p)
    requires w.procs[p].kind.Load? && !w.procs[p].pc.Done?
    requires !(WriterLocks(w, a) && w.procs[a.p].key == w.procs[p].key)
    ensures UpToDate(Next(w, a), p)
  {
    EpochsGrow(w, a);
    ProcsKeepIdentity(w, a);
    assert ProcOk(w, p);
    if WriterLocks(w, a) { assert ProcOk(w, a.p); }
  }

  lemma {:induction false} WaitingLoadStores(w: World, acts: seq<Action>, p: Pid, v: Value, r: Value)
    requires Inv(w) && UpToDate(w, p) && w.procs[p].kind.Load? && w.procs[p].pc.Waiting? && w.procs[p].pc.v == v
    requires Returns(w, acts, p, r) && NotOvertaken(w, acts, p, w.procs[p].key)
    ensures r == v && Stores(w, acts, p, w.procs[p].key, v)
    decreases |acts|
  {
    var w' := ReturnsLater(w, acts, p, r);
    if ActsOn(acts[0], p) {
      assert ProcOk(w, p);
      HolderStores(w', acts[1..], p, v, r);
    } else {
      OthersStay(w, acts[0], p);
      UpToDateStays(w, acts[0], p);
      WaitingLoadStores(w', acts[1..], p, v, r);
    }
    var i: nat :| StoresAt(w', acts[1..], i, p, w.procs[p].key, v);
    StoresLater(w, acts, i, p, w.procs[p].key, v);
  }

  lemma {:induction false} LoadingStores(w: World, acts: seq<Action>, p: Pid, k: Key, r: Value)
    requires Inv(w) && JustStarted(w, p, k) && Returns(w, acts, p, r) && NotOvertaken(w, acts, p, k)
    ensures Loaded(acts, p) == Some(r) && Stores(w, acts, p, k, r)
    decreases |acts|
  {
    var w' := ReturnsLater(w, acts, p, r);
    UpToDateStays(w, acts[0], p);
    if ActsOn(acts[0], p) {
      WaitingLoadStores(w', acts[1..], p, acts[0].value, r);
    } else {
      OthersStay(w, acts[0], p);
      LoadingStores(w', acts[1..], p, k, r);
    }
    var i: nat :| StoresAt(w', acts[1..], i, p, k, r);
    StoresLater(w, acts, i, p, k, r);
  }

  /** A load that is started because none was running, and that no writer of its key overtakes
      before it takes the lock, stores what its loader gave it and returns that. */
  lemma LoadStoresItsValue(w: World, acts: seq<Action>, k: Key, r: Value)
    requires Inv(w) && acts != [] && acts[0] == StartLoad(k)
    requires !exists q: Pid :: At(w, q) && Unfinished(w.procs[q]) && w.procs[q].key == k
    requires Returns(w, acts, |w.procs|, r) && NotOvertaken(w, acts, |w.procs|, k)
    ensures Loaded(acts, |w.procs|) == Some(r) && Stores(w, acts, |w.procs|, k, r)
  {
    var p := |w.procs|;
    StartLoadLeavesLoad(w, k);
    var w' := StepOf(w, acts[0]);
    LoadingStores(w', acts[1..], p, k, r);
    var i: nat :| StoresAt(w', acts[1..], i, p, k, r);
    StoresLater(w, acts, i, p, k, r);
  }

  // ------------------------------------------------------------ any load

  /** What its loader gave it, or what it read again. */
  ghost predicate LoadedOrReread(w: World, acts: seq<Action>, p: Pid, r: Value)
    requires Inv(w)
  {
    Loaded(acts, p) == Some(r) || exists i: nat :: RereadGives(w, acts, i, p, r)
  }

  /** Any load, overtaken or not, that returns gives what its loader gave it, or what it found in
      the cache when it read again. */
  lemma {:induction false} StartedLoadOutcome(w: World, acts: seq<Action>, p: Pid, r: Value)
    requires Inv(w) && At(w, p) && w.procs[p].kind.Load? && w.procs[p].pc.Loading? && Returns(w, acts, p, r)
    ensures LoadedOrReread(w, acts, p, r)
    decreases |acts|
  {
    var w' := ReturnsLater(w, acts, p, r);
    if ActsOn(acts[0], p) {
      LoadOutcome(w', acts[1..], p, acts[0].value, r);
    } else {
      OthersStay(w, acts[0], p);
      StartedLoadOutcome(w', acts[1..], p, r);
    }
    if Loaded(acts, p) != Some(r) {
      var i: nat :| RereadGives(w', acts[1..], i, p, r);
      RereadLater(w, acts, i, p, r);
    }
  }

  // ------------------------------------------------------------ a write, from its call

  /** A writer carries the value it was called with, wherever it is. */
  predicate Carries(w: World, p: Pid, k: Key, v: Value) {
    At(w, p) && w.procs[p].kind.Writer? && w.procs[p].key == k
    && match w.procs[p].pc
       case Waiting(_, v') => v' == v
       case Writing(_, v') => v' == v
       case Applied(_, v') => v' == v
       case Done(outcome) => outcome == Raised || outcome == Returned(v)
       case _ => false
  }

  lemma {:induction false} CarriesOn(w: World, acts: seq<Action>, p: Pid, k: Key, v: Value)
    requires Inv(w) && CanRun(w, acts) && Carries(w, p, k, v)
    ensures Carries(After(w, acts), p, k, v)
    decreases |acts|
  {
    if acts != [] {
      var w' := StepOf(w, acts[0]);
      ProcsKeepIdentity(w, acts[0]);
      if !ActsOn(acts[0], p) { OthersStay(w, acts[0], p); }
      CarriesOn(w', acts[1..], p, k, v);
    }
  }

  /** Nobody but `wr` is writing `k`. */
  ghost predicate NoOtherWriter(w: World, wr: Pid, k: Key) {
    forall q: Pid | At(w, q) && q != wr && w.procs[q].key == k && w.procs[q].kind.Writer? :: w.procs[q].pc.Done?
  }

  /** An explicit write, from its call on: if no other writer of its key is about when it takes the
      lock and nothing new touches the key afterwards, then once it has returned the cache holds
      the value it was called with, whatever loads were in flight. */
  lemma StartedWriteSurvives(w: World, k: Key, v: Value, before: seq<Action>, after: seq<Action>)
    requires Inv(w) && CanRun(w, [StartWrite(k, v)] + before)
    requires var w1, wr := After(w, [StartWrite(k, v)] + before), |w.procs|;
             At(w1, wr) && w1.procs[wr].pc.Waiting? && NoOtherWriter(w1, wr, k) && CanRun(w1, [GetLock(wr)] + after)
    requires forall a <- after :: LeavesKeyAlone(a, k)
    ensures var w2, wr := After(After(w, [StartWrite(k, v)] + before), [GetLock(|w.procs|)] + after), |w.procs|;
            At(w2, wr) && (w2.procs[wr].pc.Done? && w2.procs[wr].pc.outcome.Returned? ==>
                             k in w2.cache && w2.cache[k] == v)
  {
    var first := StartWrite(k, v);
    var wr := |w.procs|;
    assert ([first] + before)[1..] == before;
    var w0 := StepOf(w, first);
    CarriesOn(w0, before, wr, k, v);
    ExplicitWriteSurvives(After(w, [first] + before), wr, after);
  }

  // ------------------------------------------------------------ nobody is stuck

  /** Steps until a coroutine returns, those of the coroutine in its way included. */
  function StepsLeft(w: World, p: Pid): nat
    requires At(w, p)
  {
    match w.procs[p].pc
    case Loading => 7
    case Waiting(o, _) =>
      4 + if o >= |w.shared.heap| || w.shared.heap[o].holder.None? || !At(w, w.shared.heap[o].holder.value) then 0
          else if w.procs[w.shared.heap[o].holder.value].pc.Writing? then 2 else 1
    case Writing(_, _) => 2
    case Applied(_, _) => 1
    case Rereading(_) => 1
    case Done(_) => 0
  }

  /** What can be done to bring a coroutine on: its own next step, or that of the lock's holder. */
  function NextFor(w: World, p: Pid): Action
    requires At(w, p)
  {
    match w.procs[p].pc
    case Loading => LoaderReturns(p, "")
    case Waiting(o, _) =>
      if o >= |w.shared.heap| || w.shared.heap[o].holder.None? then GetLock(p)
      else
        var q := w.shared.heap[o].holder.value;
        if At(w, q) && w.procs[q].pc.Writing? then Apply(q) else Finish(q)
    case Writing(_, _) => Apply(p)
    case Applied(_, _) => Finish(p)
    case Rereading(_) => Reread(p)
    case Done(_) => RunCallback(p)
  }

  /** The coroutine comes nearer to returning. */
  ghost predicate Helps(w: World, a: Action, p: Pid)
    requires At(w, p)
  {
    && !a.Fail? && Enabled(w, a) && Safe(w, a) && Inv(Next(w, a))
    && At(Next(w, a), p) && StepsLeft(Next(w, a), p) < StepsLeft(w, p)
    && Next(w, a).procs[p].pc != Done(Raised)
  }

  lemma OwnStepHelps(w: World, p: Pid)
    requires Inv(w) && At(w, p) && !w.procs[p].pc.Done? && !w.procs[p].pc.Waiting?
    ensures Helps(w, NextFor(w, p), p)
  {
    var w' := StepOf(w, NextFor(w, p));
  }

  lemma LockStepHelps(w: World, p: Pid)
    requires Inv(w) && At(w, p) && w.procs[p].pc.Waiting?
    requires w.procs[p].pc.o < |w.shared.heap| && w.shared.heap[w.procs[p].pc.o].holder.None?
    ensures Helps(w, NextFor(w, p), p)
  {
    var w' := StepOf(w, GetLock(p));
  }

  lemma HolderStepHelps(w: World, p: Pid)
    requires Inv(w) && At(w, p) && w.procs[p].pc.Waiting?
    requires w.procs[p].pc.o < |w.shared.heap| && w.shared.heap[w.procs[p].pc.o].holder.Some?
    ensures Helps(w, NextFor(w, p), p)
  {
    var o, a := w.procs[p].pc.o, NextFor(w, p);
    assert CellOk(w, o);
    var w' := StepOf(w, a);
    OthersStay(w, a, p);
  }

  lemma NextForHelps(w: World, p: Pid)
    requires Inv(w) && At(w, p) && !w.procs[p].pc.Done?
    ensures Helps(w, NextFor(w, p), p)
  {
    assert ProcOk(w, p);
    if !w.procs[p].pc.Waiting? {
      OwnStepHelps(w, p);
    } else if w.shared.heap[w.procs[p].pc.o].holder.None? {
      LockStepHelps(w, p);
    } else {
      HolderStepHelps(w, p);
    }
  }

  /** From every moment at which the invariant holds every coroutine can still return: it never
      waits for a lock that nobody will leave. */
  lemma {:induction false} CanReturn(w: World, p: Pid) returns (acts: seq<Action>, r: Value)
    requires Inv(w) && At(w, p) && !w.procs[p].pc.Done?
    ensures Returns(w, acts, p, r) && |acts| <= StepsLeft(w, p) && forall a <- acts :: !a.Fail?
    decreases StepsLeft(w, p)
  {
    var a := NextFor(w, p);
    NextForHelps(w, p);
    var w' := Next(w, a);
    var rest: seq<Action> := [];
    if w'.procs[p].pc.Done? {
      r := w'.procs[p].pc.outcome.value;
      RunOfNone(w');
    } else {
      rest, r := CanReturn(w', p);
    }
    acts := [a] + rest;
    RunMore(w, a, rest);
  }
}
