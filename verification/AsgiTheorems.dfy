/** What one exchange through the transport guarantees, in every interleaving of the two loops. */
module AsgiTheorems {
  import opened Wrappers
  import opened AsgiProtocol

  predicate CanRun(x: Exchange, acts: seq<Action>)
    decreases |acts|
  {
    acts == [] || (Enabled(x, acts[0]) && CanRun(Next(x, acts[0]), acts[1..]))
  }

  function After(x: Exchange, acts: seq<Action>): Exchange
    requires CanRun(x, acts)
    decreases |acts|
  {
    if acts == [] then x else After(Next(x, acts[0]), acts[1..])
  }

  ghost predicate Reachable(x: Exchange) {
    exists acts :: CanRun(Initial(x.head, x.raiseErrors), acts) && After(Initial(x.head, x.raiseErrors), acts) == x
  }

  lemma {:induction false} RunKeepsInv(x: Exchange, acts: seq<Action>)
    requires Inv(x) && CanRun(x, acts)
    ensures Inv(After(x, acts))
    decreases |acts|
  {
    if acts != [] {
      StepKeepsInv(x, acts[0]);
      RunKeepsInv(Next(x, acts[0]), acts[1..]);
    }
  }

  lemma ReachableInv(x: Exchange)
    requires Reachable(x)
    ensures Inv(x)
  {
    var acts :| CanRun(Initial(x.head, x.raiseErrors), acts) && After(Initial(x.head, x.raiseErrors), acts) == x;
    InitialInv(x.head, x.raiseErrors);
    RunKeepsInv(Initial(x.head, x.raiseErrors), acts);
  }

  // ------------------------------------------------------------ what the consumer reads

  /** At every moment the consumer has read a prefix of the bodies sent, in order and
      without repetition; for HEAD there are none. */
  lemma ConsumerReadsPrefix(x: Exchange)
    requires Reachable(x)
    ensures x.read <= x.sent
    ensures x.head ==> x.read == []
    ensures x.read + Queued(x.queue) + Posted(x.calls) == x.sent
  {
    ReachableInv(x);
    assert x.read + (Queued(x.queue) + Posted(x.calls)) == x.sent;
  }

  /** The sentinel enters the queue once; while the consumer can still reach it, it is the
      last item and no body is on its way behind it. */
  lemma SentinelComesLast(x: Exchange)
    requires Reachable(x) && !Stopped(x.reader)
    ensures !x.streamClosed ==> Open(x.queue)
    ensures x.streamClosed ==> Posted(x.calls) == [] && if x.reader.AwaitingEnd? then x.queue == [] else Sealed(x.queue)
  {
    ReachableInv(x);
  }

  // ------------------------------------------------------------ nothing hangs

  function Work(calls: seq<Call>): nat {
    if calls == [] then 0 else (if calls[0].SetAppFuture? then 2 else 1) + Work(calls[1..])
  }

  lemma {:induction false} WorkAppend(calls: seq<Call>, c: Call)
    ensures Work(calls + [c]) == Work(calls) + if c.SetAppFuture? then 2 else 1
  {
    if calls == [] {
      assert calls + [c] == [c];
    } else {
      assert (calls + [c])[1..] == calls[1..] + [c];
      WorkAppend(calls[1..], c);
    }
  }

  /** The caller's loop cannot be kept busy for ever by one exchange. */
  lemma DispatchReducesWork(x: Exchange)
    requires x.calls != []
    ensures Work(Dispatch(x).calls) < Work(x.calls)
  {
    match x.calls[0]
    case SetStarted =>
    case PutBody(_) =>
    case PutEnd =>
    case SetAppFuture(_) => WorkAppend(x.calls[1..], FinishApp);
    case FinishApp =>
  }

  /** The caller's loop runs every callback that is waiting. */
  function Settle(x: Exchange): Exchange
    decreases Work(x.calls)
  {
    if x.calls == [] then x else (DispatchReducesWork(x); Settle(Dispatch(x)))
  }

  lemma {:induction false} SettleKeepsInv(x: Exchange)
    requires Inv(x)
    ensures Inv(Settle(x)) && Settle(x).calls == []
    ensures Settle(x).app == x.app && Settle(x).reader == x.reader && Settle(x).handler == x.handler
    ensures Settle(x).responseStarted == x.responseStarted && Settle(x).responseComplete == x.responseComplete
    decreases Work(x.calls)
  {
    if x.calls != [] {
      StepKeepsInv(x, RunCall);
      DispatchReducesWork(x);
      DispatchKeepsHistory(x);
      SettleKeepsInv(Dispatch(x));
    }
  }

  /** Once the app has ended, in whatever way, and the callbacks it left behind have run,
      no await of the transport is blocked: the request's future is done, a reading
      consumer has items up to and including the sentinel, and the final future is done. */
  lemma NothingHangs(x: Exchange)
    requires Reachable(x) && x.app.Ended?
    ensures var y := Settle(x);
            && y.calls == []
            && (x.handler.Awaiting? ==> !y.started.Pending?)
            && (x.reader.Reading? ==> Sealed(y.queue))
            && (x.reader.AwaitingEnd? ==> !y.complete.Pending?)
  {
    ReachableInv(x);
    SettleKeepsInv(x);
  }

  /** The request call does not wait for more than the start message: once that is sent and the
      callbacks have run, it can go on, although the app may still be running. */
  lemma StartReleasesRequest(x: Exchange)
    requires Reachable(x) && x.responseStarted
    ensures !Settle(x).started.Pending?
  {
    ReachableInv(x);
    SettleKeepsInv(x);
  }

  /** Nor does the consumer wait for the app to end: once the response is complete and the
      callbacks have run, a reading consumer has the sentinel ahead. */
  lemma CompletionReleasesReader(x: Exchange)
    requires Reachable(x) && x.responseComplete && x.reader.Reading?
    ensures Sealed(Settle(x).queue)
  {
    ReachableInv(x);
    SettleKeepsInv(x);
  }

  function Gets(n: nat): seq<Action> {
    if n == 0 then [] else [Get] + Gets(n - 1)
  }

  /** Reading a sealed queue to its sentinel never blocks, and yields all its bodies. */
  lemma {:induction false} SealedQueueDrains(x: Exchange)
    requires x.reader.Reading? && Sealed(x.queue)
    ensures CanRun(x, Gets(|x.queue|))
    ensures After(x, Gets(|x.queue|)).reader.AwaitingEnd? && After(x, Gets(|x.queue|)).read == x.read + Queued(x.queue)
    decreases |x.queue|
  {
    var y := Next(x, Get);
    assert Gets(|x.queue|)[1..] == Gets(|x.queue| - 1);
    if x.queue[0].End? {
      assert Gets(0) == [];
    } else {
      SealedQueueDrains(y);
      Appended(x.read, x.queue[0].b, Queued(x.queue[1..]));
    }
  }

  lemma Appended(read: seq<Body>, b: Body, rest: seq<Body>)
    ensures (read + [b]) + rest == read + ([b] + rest)
  {
  }

  // ------------------------------------------------------------ where an error surfaces

  /** What escapes from the request call: only an error of an app that ended without
      starting the response, only when errors are to be raised, and then nothing is streamed. */
  lemma RequestError(x: Exchange, e: Error)
    requires Reachable(x) && x.handler == Escaped(Failed(e))
    ensures x.raiseErrors && !x.responseStarted && x.app.Ended? && x.reader.Idle?
    ensures match x.app.ending
            case Returns => e == NotComplete
            case Raises(id) => e == AppError(id)
            case IsCancelled => false
  {
    ReachableInv(x);
  }

  /** What the request call returns: the status the app sent, or 500 for an app that
      ended without sending one while errors are not raised. */
  lemma RequestStatus(x: Exchange)
    requires Reachable(x) && x.handler.Responded?
    ensures x.responseStarted ==> x.status == Some(x.handler.status)
    ensures !x.responseStarted ==> !x.raiseErrors && x.app.Ended? && x.handler.status == 500
  {
    ReachableInv(x);
  }

  /** The status cannot be missing when the request call goes on. */
  lemma StatusIsSet(x: Exchange)
    requires Reachable(x)
    ensures !x.handler.Broken?
  {
    ReachableInv(x);
  }

  /** What a drained stream ends with. An app error after the headers surfaces here and
      only if errors are raised; an incomplete response surfaces in any case. */
  lemma StreamOutcome(x: Exchange, f: Fut)
    requires Reachable(x) && x.reader == Drained(f)
    ensures x.app.Ended? && x.read == x.sent
    ensures f == if !x.responseStarted then Result
                 else match x.app.ending
                   case Returns => if x.responseComplete then Result else Failed(NotComplete)
                   case Raises(id) => if x.raiseErrors then Failed(AppError(id)) else Result
                   case IsCancelled => Cancelled
  {
    ReachableInv(x);
  }

  /** An error surfaces in the request call or in the stream, never in both. */
  lemma ErrorSurfacesOnce(x: Exchange)
    requires Reachable(x)
    ensures !(x.handler.Escaped? && x.handler.how.Failed? && x.reader.Drained? && x.reader.how.Failed?)
  {
    ReachableInv(x);
  }
}
