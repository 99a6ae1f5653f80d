/**
  Publishing a run's stream events through a bounded queue, and inline, as in
  `_consume_async_queue` and `_consume_inline` of `backend/server/api/stream.py`.
 */
module PublishQueue {
  import opened Wrappers

  /** What is handed to `Runs.Stream.publish`, payload already serialised. */
  datatype Event = Event(mode: string, payload: string, resumable: bool)

  /** How the stream ends: normally, or with an exception whose error event is `error`
      (none if that cannot be serialised either). A payload that cannot be serialised ends
      the stream at that point. */
  datatype Ending = Finished | Failed(error: Option<Event>)
  datatype Stream = Stream(events: seq<Event>, ending: Ending)

  /** Every event to be published, in order. */
  function Planned(s: Stream): seq<Event> {
    if s.ending.Failed? && s.ending.error.Some? then s.events + [s.ending.error.value] else s.events
  }

  datatype Item = Put(e: Event) | Sentinel
  datatype Worker = Waiting | Publishing(e: Event) | Stopped
  datatype Producer = Feeding(todo: seq<Event>) | Joining | Returned

  /** `capacity` is `LSD_PUBLISH_QUEUE_SIZE`; asyncio takes 0 or less as unbounded. */
  datatype State = State(capacity: int, producer: Producer, queue: seq<Item>, worker: Worker,
                         attempts: seq<Event>, published: seq<Event>, losses: nat)

  datatype Action = Enqueue | Take | PublishOk | PublishFails | Join

  function Initial(s: Stream, capacity: int): State {
    State(capacity, Feeding(Planned(s)), [], Waiting, [], [], 0)
  }

  predicate HasRoom(x: State) { x.capacity <= 0 || |x.queue| < x.capacity }

  predicate Enabled(x: State, a: Action) {
    match a
    case Enqueue => x.producer.Feeding? && HasRoom(x)
    case Take => x.worker.Waiting? && x.queue != []
    case PublishOk => x.worker.Publishing?
    case PublishFails => x.worker.Publishing?
    case Join => x.producer.Joining? && x.worker.Stopped?
  }

  function Next(x: State, a: Action): State
    requires Enabled(x, a)
  {
    match a
    case Enqueue =>
      if x.producer.todo == [] then x.(producer := Joining, queue := x.queue + [Sentinel])
      else x.(producer := Feeding(x.producer.todo[1..]), queue := x.queue + [Put(x.producer.todo[0])])
    case Take =>
      var y := x.(queue := x.queue[1..]);
      if x.queue[0].Sentinel? then y.(worker := Stopped)
      else y.(worker := Publishing(x.queue[0].e), attempts := y.attempts + [x.queue[0].e])
    case PublishOk => x.(worker := Waiting, published := x.published + [x.worker.e])
    case PublishFails => x.(worker := Waiting, losses := x.losses + 1)
    case Join => x.(producer := Returned)
  }

  // ------------------------------------------------------------ the invariant

  function Held(queue: seq<Item>): seq<Event> {
    if queue == [] then [] else if queue[0].Put? then [queue[0].e] + Held(queue[1..]) else Held(queue[1..])
  }

  predicate NoSentinel(queue: seq<Item>) {
    queue == [] || (queue[0].Put? && NoSentinel(queue[1..]))
  }

  predicate SentinelLast(queue: seq<Item>) {
    queue != [] && if queue[0].Sentinel? then |queue| == 1 else SentinelLast(queue[1..])
  }

  function Todo(p: Producer): seq<Event> { if p.Feeding? then p.todo else [] }

  function InHand(w: Worker): nat { if w.Publishing? then 1 else 0 }

  predicate Inv(x: State, s: Stream) {
    && x.attempts + (Held(x.queue) + Todo(x.producer)) == Planned(s)
    && |x.published| + x.losses + InHand(x.worker) == |x.attempts|
    && (x.losses == 0 ==> x.attempts == if x.worker.Publishing? then x.published + [x.worker.e] else x.published)
    && (x.producer.Feeding? ==> NoSentinel(x.queue) && !x.worker.Stopped?)
    && (x.producer.Joining? ==> if x.worker.Stopped? then x.queue == [] else SentinelLast(x.queue))
    && (x.producer.Returned? ==> x.worker.Stopped? && x.queue == [])
    && (x.capacity > 0 ==> |x.queue| <= x.capacity)
  }

  lemma {:induction false} HeldAppend(queue: seq<Item>, i: Item)
    ensures Held(queue + [i]) == if i.Put? then Held(queue) + [i.e] else Held(queue)
    ensures NoSentinel(queue) ==> if i.Put? then NoSentinel(queue + [i]) else SentinelLast(queue + [i])
  {
    if queue == [] {
      assert queue + [i] == [i];
    } else {
      assert (queue + [i])[1..] == queue[1..] + [i];
      HeldAppend(queue[1..], i);
    }
  }

  lemma Handover(attempts: seq<Event>, held: seq<Event>, todo: seq<Event>)
    requires todo != []
    ensures attempts + ((held + [todo[0]]) + todo[1..]) == attempts + (held + todo)
  {
    assert (held + [todo[0]]) + todo[1..] == held + todo;
  }

  lemma SentinelKeepsInv(x: State, s: Stream)
    requires Inv(x, s) && Enabled(x, Enqueue) && x.producer.todo == []
    ensures Inv(Next(x, Enqueue), s)
  {
    HeldAppend(x.queue, Sentinel);
  }

  lemma EnqueueKeepsInv(x: State, s: Stream)
    requires Inv(x, s) && Enabled(x, Enqueue)
    ensures Inv(Next(x, Enqueue), s)
  {
    var todo := x.producer.todo;
    if todo == [] {
      SentinelKeepsInv(x, s);
    } else {
      HeldAppend(x.queue, Put(todo[0]));
      Handover(x.attempts, Held(x.queue), todo);
    }
  }

  lemma TakeKeepsInv(x: State, s: Stream)
    requires Inv(x, s) && Enabled(x, Take)
    ensures Inv(Next(x, Take), s)
  {
    if x.queue[0].Put? {
      var e, held, todo := x.queue[0].e, Held(x.queue[1..]), Todo(x.producer);
      assert (x.attempts + [e]) + (held + todo) == x.attempts + (([e] + held) + todo);
    }
  }

  lemma StepKeepsInv(x: State, s: Stream, a: Action)
    requires Inv(x, s) && Enabled(x, a)
    ensures Inv(Next(x, a), s)
  {
    match a
    case Enqueue => EnqueueKeepsInv(x, s);
    case Take => TakeKeepsInv(x, s);
    case PublishOk =>
    case PublishFails =>
    case Join =>
  }

  // ------------------------------------------------------------ runs

  predicate CanRun(x: State, acts: seq<Action>)
    decreases |acts|
  {
    acts == [] || (Enabled(x, acts[0]) && CanRun(Next(x, acts[0]), acts[1..]))
  }

  function After(x: State, acts: seq<Action>): State
    requires CanRun(x, acts)
    decreases |acts|
  {
    if acts == [] then x else After(Next(x, acts[0]), acts[1..])
  }

  lemma {:induction false} RunKeepsInv(x: State, s: Stream, acts: seq<Action>)
    requires Inv(x, s) && CanRun(x, acts)
    ensures Inv(After(x, acts), s) && After(x, acts).capacity == x.capacity
    decreases |acts|
  {
    if acts != [] {
      StepKeepsInv(x, s, acts[0]);
      RunKeepsInv(Next(x, acts[0]), s, acts[1..]);
    }
  }

  lemma InitialInv(s: Stream, capacity: int)
    ensures Inv(Initial(s, capacity), s)
  {
    assert [] + ([] + Planned(s)) == Planned(s);
  }

  /** At every moment the attempts are the first of the planned events, in order and each
      once, every finished attempt is a success or a counted loss, and the queue is within
      its bound. */
  lemma AttemptsFollowPlan(s: Stream, capacity: int, acts: seq<Action>)
    requires CanRun(Initial(s, capacity), acts)
    ensures var x := After(Initial(s, capacity), acts);
            && x.attempts <= Planned(s)
            && |x.published| + x.losses + InHand(x.worker) == |x.attempts|
            && (capacity > 0 ==> |x.queue| <= capacity)
  {
    InitialInv(s, capacity);
    RunKeepsInv(Initial(s, capacity), s, acts);
  }

  /** When the consumer returns, every planned event has been attempted exactly once, in
      order, and without losses all of them have been published in that order. */
  lemma ReturnMeansAllAttempted(s: Stream, capacity: int, acts: seq<Action>)
    requires CanRun(Initial(s, capacity), acts) && After(Initial(s, capacity), acts).producer.Returned?
    ensures var x := After(Initial(s, capacity), acts);
            && x.attempts == Planned(s)
            && |x.published| + x.losses == |x.attempts|
            && (x.losses == 0 ==> x.published == Planned(s))
  {
    InitialInv(s, capacity);
    RunKeepsInv(Initial(s, capacity), s, acts);
    var x := After(Initial(s, capacity), acts);
    assert x.attempts + ([] + []) == x.attempts;
  }

  // ------------------------------------------------------------ which attempts are published

  /** The outcomes of the attempts that end in a run. */
  function Results(acts: seq<Action>): seq<bool> {
    if acts == [] then []
    else
      (match acts[0]
       case PublishOk => [true]
       case PublishFails => [false]
       case _ => []) + Results(acts[1..])
  }

  /** The events whose attempt succeeds, in order. */
  function Successes(events: seq<Event>, results: seq<bool>): seq<Event>
    requires |events| == |results|
  {
    if events == [] then []
    else (if results[0] then [events[0]] else []) + Successes(events[1..], results[1..])
  }

  function Failures(results: seq<bool>): nat {
    if results == [] then 0 else (if results[0] then 0 else 1) + Failures(results[1..])
  }

  /** The attempts that have ended. */
  function Ended(x: State): seq<Event> {
    if x.worker.Publishing? && x.attempts != [] then x.attempts[..|x.attempts| - 1] else x.attempts
  }

  /** The event in the worker's hands is the one attempted last. */
  predicate HoldsLast(x: State) {
    x.worker.Publishing? ==> x.attempts != [] && x.attempts[|x.attempts| - 1] == x.worker.e
  }

  lemma EndedGrows(x: State, a: Action)
    requires HoldsLast(x) && Enabled(x, a)
    ensures HoldsLast(Next(x, a))
    ensures a.PublishOk? || a.PublishFails? ==>
              x.worker.Publishing? && EndsWith(x, Next(x, a), a.PublishOk?)
    ensures !(a.PublishOk? || a.PublishFails?) ==> EndsNone(x, Next(x, a))
  {
  }

  /** An attempt ends. */
  predicate EndsWith(x: State, y: State, ok: bool)
    requires x.worker.Publishing?
  {
    && Ended(y) == Ended(x) + [x.worker.e]
    && y.published == x.published + (if ok then [x.worker.e] else [])
    && y.losses == x.losses + (if ok then 0 else 1)
  }

  predicate EndsNone(x: State, y: State) {
    Ended(y) == Ended(x) && y.published == x.published && y.losses == x.losses
  }

  /** From `x` on, `more` is attempted with these results, and what succeeds is published. */
  ghost predicate Publishes(x: State, y: State, more: seq<Event>, results: seq<bool>) {
    && |more| == |results|
    && Ended(y) == Ended(x) + more
    && y.published == x.published + Successes(more, results)
    && y.losses == x.losses + Failures(results)
  }

  lemma {:induction false} RunPublishes(x: State, acts: seq<Action>) returns (more: seq<Event>)
    requires HoldsLast(x) && CanRun(x, acts)
    ensures HoldsLast(After(x, acts)) && Publishes(x, After(x, acts), more, Results(acts))
    decreases |acts|
  {
    more := [];
    if acts != [] {
      var y := Next(x, acts[0]);
      EndedGrows(x, acts[0]);
      var later := RunPublishes(y, acts[1..]);
      more := (if acts[0].PublishOk? || acts[0].PublishFails? then [x.worker.e] else []) + later;
      FirstResult(x, acts, later);
    }
  }

  lemma OneMoreResult(e: Event, ok: bool, later: seq<Event>, results: seq<bool>)
    requires |later| == |results|
    ensures Successes([e] + later, [ok] + results) == (if ok then [e] else []) + Successes(later, results)
    ensures Failures([ok] + results) == (if ok then 0 else 1) + Failures(results)
  {
    assert ([e] + later)[1..] == later && ([ok] + results)[1..] == results;
  }

  lemma FirstResult(x: State, acts: seq<Action>, later: seq<Event>)
    requires acts != [] && HoldsLast(x) && CanRun(x, acts)
    requires Publishes(Next(x, acts[0]), After(x, acts), later, Results(acts[1..]))
    ensures var ends := acts[0].PublishOk? || acts[0].PublishFails?;
            Publishes(x, After(x, acts), (if ends then [x.worker.e] else []) + later, Results(acts))
  {
    var y, z := Next(x, acts[0]), After(x, acts);
    EndedGrows(x, acts[0]);
    if acts[0].PublishOk? || acts[0].PublishFails? {
      OneResult(x, y, z, acts[0].PublishOk?, later, Results(acts[1..]));
    } else {
      NoResult(x, y, z, later, Results(acts[1..]));
      assert [] + Results(acts[1..]) == Results(acts[1..]);
    }
  }

  lemma OneResult(x: State, y: State, z: State, ok: bool, later: seq<Event>, results: seq<bool>)
    requires x.worker.Publishing? && Publishes(y, z, later, results) && EndsWith(x, y, ok)
    ensures Publishes(x, z, [x.worker.e] + later, [ok] + results)
  {
    OneMoreResult(x.worker.e, ok, later, results);
  }

  lemma NoResult(x: State, y: State, z: State, later: seq<Event>, results: seq<bool>)
    requires Publishes(y, z, later, results) && EndsNone(x, y)
    ensures Publishes(x, z, [] + later, results)
  {
    assert [] + later == later;
  }

  /** Published are exactly the attempts that succeeded, in order, and each other one is a loss. */
  lemma PublishedAreTheSuccesses(s: Stream, capacity: int, acts: seq<Action>)
    requires CanRun(Initial(s, capacity), acts)
    ensures var x := After(Initial(s, capacity), acts);
            && |Ended(x)| == |Results(acts)|
            && Ended(x) <= Planned(s)
            && x.published == Successes(Ended(x), Results(acts))
            && x.losses == Failures(Results(acts))
  {
    var more := RunPublishes(Initial(s, capacity), acts);
    AttemptsFollowPlan(s, capacity, acts);
    assert Ended(After(Initial(s, capacity), acts)) == more;
  }

  // ------------------------------------------------------------ progress

  /** What is still to be done; every step does some of it. */
  function Remaining(x: State): nat {
    (match x.producer case Feeding(todo) => 3 * |todo| + 4 case Joining => 1 case Returned => 0)
    + 2 * |x.queue| + InHand(x.worker)
  }

  lemma StepProgresses(x: State, a: Action)
    requires Enabled(x, a)
    ensures Remaining(Next(x, a)) < Remaining(x)
  {
  }

  lemma {:induction false} RunIsShort(x: State, acts: seq<Action>)
    requires CanRun(x, acts)
    ensures |acts| + Remaining(After(x, acts)) <= Remaining(x)
    decreases |acts|
  {
    if acts != [] {
      StepProgresses(x, acts[0]);
      RunIsShort(Next(x, acts[0]), acts[1..]);
    }
  }

  /** The queue never deadlocks, even with room for one item: until the consumer returns some
      step is possible, and a run has at most `3 * n + 4` steps for n planned events. */
  lemma ConsumerReturns(s: Stream, capacity: int, acts: seq<Action>)
    requires CanRun(Initial(s, capacity), acts)
    ensures var x := After(Initial(s, capacity), acts);
            x.producer.Returned? || exists a :: Enabled(x, a)
    ensures |acts| <= 3 * |Planned(s)| + 4
  {
    InitialInv(s, capacity);
    RunKeepsInv(Initial(s, capacity), s, acts);
    RunIsShort(Initial(s, capacity), acts);
    var x := After(Initial(s, capacity), acts);
    if !x.producer.Returned? {
      if x.worker.Publishing? {
        assert Enabled(x, PublishOk);
      } else if x.worker.Stopped? {
        assert Enabled(x, Join);
      } else if x.queue != [] {
        assert Enabled(x, Take);
      } else {
        assert Enabled(x, Enqueue);
      }
    }
  }

  // ------------------------------------------------------------ inline publishing

  /** The outcome of the n-th call of `publish`. */
  type Outcomes = nat -> bool

  function IfOk(e: Option<Event>, ok: bool): seq<Event> {
    if e.Some? && ok then [e.value] else []
  }

  /** What `_consume_inline` publishes from event `i` on: a publish that fails ends the stream,
      and one attempt is made to publish `publishError` instead. */
  function InlineFrom(s: Stream, ok: Outcomes, publishError: Option<Event>, i: nat): seq<Event>
    requires i <= |s.events|
    decreases |s.events| - i
  {
    if i == |s.events| then IfOk(if s.ending.Failed? then s.ending.error else None, ok(i))
    else if !ok(i) then IfOk(publishError, ok(i + 1))
    else [s.events[i]] + InlineFrom(s, ok, publishError, i + 1)
  }

  /** The stream itself fails, or the publishing of one of its events. */
  predicate InlineFails(s: Stream, ok: Outcomes) {
    s.ending.Failed? || exists i: nat | i < |s.events| :: !ok(i)
  }

  /** `_consume_inline`. `suppress` says that what ends the stream is a `StreamPublishException`:
      it is counted as one loss, where any other exception is raised again. */
  method ConsumeInline(s: Stream, ok: Outcomes, publishError: Option<Event>, suppress: bool)
    returns (published: seq<Event>, raised: bool, losses: nat)
    ensures published == InlineFrom(s, ok, publishError, 0)
    ensures raised <==> InlineFails(s, ok) && !suppress
    ensures losses == if InlineFails(s, ok) && suppress then 1 else 0
  {
    published := [];
    var calls := 0;
    var failed := s.ending.Failed?;
    var error := if failed then s.ending.error else None;
    while calls < |s.events|
      invariant 0 <= calls <= |s.events|
      invariant published + InlineFrom(s, ok, publishError, calls) == InlineFrom(s, ok, publishError, 0)
      invariant forall i: nat | i < calls :: ok(i)
    {
      if !ok(calls) {
        calls := calls + 1;
        failed, error := true, publishError;
        break;
      }
      published := published + [s.events[calls]];
      calls := calls + 1;
    }
    if error.Some? && ok(calls) {
      published := published + [error.value];
    }
    raised := failed && !suppress;
    losses := if failed && suppress then 1 else 0;
  }

  lemma {:induction false} InlinePublishesAll(s: Stream, ok: Outcomes, publishError: Option<Event>, i: nat)
    requires i <= |s.events| && forall n: nat | n < |Planned(s)| :: ok(n)
    ensures InlineFrom(s, ok, publishError, i) == Planned(s)[i..]
    decreases |s.events| - i
  {
    if i < |s.events| {
      InlinePublishesAll(s, ok, publishError, i + 1);
      assert Planned(s)[i..] == [s.events[i]] + Planned(s)[i + 1..];
    }
  }

  /** The first `publish` of an event of the stream that fails ends it: what was before it is
      published, and `publishError` if its own publish succeeds. */
  lemma {:induction false} InlineStopsAtFailure(s: Stream, ok: Outcomes, publishError: Option<Event>, i: nat, n: nat)
    requires i <= n < |s.events| && !ok(n) && forall k: nat | i <= k < n :: ok(k)
    ensures InlineFrom(s, ok, publishError, i)
         == s.events[i..n] + if publishError.Some? && ok(n + 1) then [publishError.value] else []
    decreases n - i
  {
    if i < n {
      InlineStopsAtFailure(s, ok, publishError, i + 1, n);
      assert s.events[i..n] == [s.events[i]] + s.events[i + 1..n];
    }
  }

  /** When only the publish of the stream's own error fails, that alone is missing. */
  lemma {:induction false} InlineLosesError(s: Stream, ok: Outcomes, publishError: Option<Event>, i: nat)
    requires i <= |s.events| && (forall k: nat | k < |s.events| :: ok(k)) && !ok(|s.events|)
    ensures InlineFrom(s, ok, publishError, i) == s.events[i..]
    decreases |s.events| - i
  {
    if i < |s.events| {
      InlineLosesError(s, ok, publishError, i + 1);
      assert s.events[i..] == [s.events[i]] + s.events[i + 1..];
    }
  }

  /** Both ways of publishing produce the same sequence when no publish fails. */
  lemma QueueMatchesInline(s: Stream, capacity: int, acts: seq<Action>, ok: Outcomes, publishError: Option<Event>)
    requires CanRun(Initial(s, capacity), acts) && After(Initial(s, capacity), acts).producer.Returned?
    requires After(Initial(s, capacity), acts).losses == 0
    requires forall n: nat | n < |Planned(s)| :: ok(n)
    ensures After(Initial(s, capacity), acts).published == InlineFrom(s, ok, publishError, 0)
  {
    ReturnMeansAllAttempted(s, capacity, acts);
    InlinePublishesAll(s, ok, publishError, 0);
    assert Planned(s)[0..] == Planned(s);
  }

  // ------------------------------------------------------------ the queue object

  /** The variables shared by the producer and the publish worker. */
  class QueuedPublisher {
    const capacity: int
    var producer: Producer
    var queue: seq<Item>
    var worker: Worker
    var attempts: seq<Event>
    var published: seq<Event>
    var losses: nat

    constructor (s: Stream, capacity: int)
      ensures Abs() == Initial(s, capacity)
    {
      this.capacity := capacity;
      producer, queue, worker := Feeding(Planned(s)), [], Waiting;
      attempts, published, losses := [], [], 0;
    }

    ghost function Abs(): State
      reads this
    {
      State(capacity, producer, queue, worker, attempts, published, losses)
    }

    /** One `await publish_queue.put(item)` of the producer: the next event, or the sentinel. */
    method PutNext()
      requires producer.Feeding? && HasRoom(Abs())
      modifies this
      ensures Abs() == Next(old(Abs()), Enqueue)
    {
      if producer.todo == [] {
        queue := queue + [Sentinel];
        producer := Joining;
      } else {
        queue := queue + [Put(producer.todo[0])];
        producer := Feeding(producer.todo[1..]);
      }
    }

    /** One round of `_publish_worker`: `ok` is the outcome of `publish`, if it is called. */
    method WorkerRound(ok: bool)
      requires worker.Waiting? && queue != []
      modifies this
      ensures var taken := Next(old(Abs()), Take);
              Abs() == if taken.worker.Stopped? then taken else Next(taken, if ok then PublishOk else PublishFails)
    {
      var item := queue[0];
      queue := queue[1..];
      if item.Sentinel? {
        worker := Stopped;
        return;
      }
      attempts := attempts + [item.e];
      if ok {
        published := published + [item.e];
      } else {
        losses := losses + 1;
      }
    }
  }
}
