/**
  One request through `ASGITransport.handle_async_request` of
  `backend/server/api/asgi_transport.py`, as a state machine over the app's event loop
  and the caller's event loop.

  `calls` is the queue of callbacks waiting on the caller's loop: `call_soon_threadsafe`
  appends to it and the loop runs them in order. The app's end reaches the caller's
  `app_future` through the same queue, behind everything the app posted before it.
 */
module AsgiProtocol {
  import opened Wrappers

  datatype Body = Body(bytes: string)

  datatype Error = AppError(id: nat) | NotComplete

  /** An asyncio future. */
  datatype Fut = Pending | Result | Failed(e: Error) | Cancelled

  datatype Ending = Returns | Raises(id: nat) | IsCancelled
  datatype App = Running | Ended(ending: Ending)

  datatype Call = SetStarted | PutBody(b: Body) | PutEnd | SetAppFuture(ending: Ending) | FinishApp

  datatype Item = Chunk(b: Body) | End

  /** The coroutine in `handle_async_request`. */
  datatype Handler = Awaiting | Responded(status: nat) | Escaped(how: Fut) | Broken

  /** The consumer of `ASGIResponseStream`. `Drained(f)` met the sentinel and then the
      outcome `f` of `app_complete`; `ClosedEarly` stopped before that. */
  datatype Reader = Idle | Reading | AwaitingEnd | Drained(how: Fut) | ClosedEarly

  /** `sent` and `read` are the non-empty bodies accepted by `send` for the stream and
      yielded to the consumer. */
  datatype Exchange = Exchange(
    head: bool, raiseErrors: bool,
    app: App, status: Option<nat>, responseStarted: bool, responseComplete: bool,
    calls: seq<Call>, started: Fut, complete: Fut, appFuture: Fut,
    queue: seq<Item>, streamClosed: bool,
    handler: Handler, reader: Reader,
    sent: seq<Body>, read: seq<Body>)

  datatype Action =
    | SendStart(status: nat)
    | SendBody(b: Body, more: bool)
    | AppEnds(ending: Ending)
    | RunCall
    | ResumeHandler
    | CancelRequest
    | OpenStream
    | Get
    | ResumeEnd
    | Close

  function Initial(head: bool, raiseErrors: bool): Exchange {
    Exchange(head, raiseErrors, Running, None, false, false, [], Pending, Pending, Pending, [], false,
             Awaiting, Idle, [], [])
  }

  function FutOf(ending: Ending): Fut {
    match ending
    case Returns => Result
    case Raises(id) => Failed(AppError(id))
    case IsCancelled => Cancelled
  }

  // ------------------------------------------------------------ the callbacks

  /** `close_stream` */
  function CloseStream(x: Exchange): Exchange {
    if x.streamClosed then x else x.(streamClosed := true, queue := x.queue + [End])
  }

  /** What `finish_app` leaves in `response_started_event`. */
  function FinishStarted(x: Exchange): Fut {
    if !x.started.Pending? then x.started
    else match x.appFuture
      case Cancelled => Cancelled
      case Failed(e) => Failed(e)
      case _ => Failed(NotComplete)
  }

  /** What `finish_app` leaves in `app_complete`. */
  function FinishComplete(x: Exchange): Fut {
    if !x.complete.Pending? then x.complete
    else match x.appFuture
      case Cancelled => if x.started.Result? then Cancelled else Result
      case Failed(e) => if x.started.Result? && x.raiseErrors then Failed(e) else Result
      case _ => if x.started.Pending? || x.responseComplete then Result else Failed(NotComplete)
  }

  /** `finish_app`, after `app_future` is done. */
  function Finish(x: Exchange): Exchange {
    CloseStream(x.(started := FinishStarted(x), complete := FinishComplete(x)))
  }

  /** The caller's loop runs the callback at the head of its queue. */
  function Dispatch(x: Exchange): Exchange
    requires x.calls != []
  {
    var y := x.(calls := x.calls[1..]);
    match x.calls[0]
    case SetStarted => y.(started := if y.started.Pending? then Result else y.started)
    case PutBody(b) => y.(queue := y.queue + [Chunk(b)])
    case PutEnd => CloseStream(y)
    case SetAppFuture(ending) =>
      if y.appFuture.Pending? then y.(appFuture := FutOf(ending), calls := y.calls + [FinishApp]) else y
    case FinishApp => Finish(y)
  }

  // ------------------------------------------------------------ the coroutines

  /** `send` with an `http.response.body` message that is accepted. */
  function AcceptBody(x: Exchange, b: Body, more: bool): Exchange {
    var y := if b.bytes != [] && !x.head then x.(calls := x.calls + [PutBody(b)], sent := x.sent + [b]) else x;
    if more then y else y.(responseComplete := true, calls := y.calls + [PutEnd])
  }

  /** `handle_async_request` from the moment `response_started_event` is done. */
  function Respond(x: Exchange): Exchange {
    match x.started
    case Cancelled => x.(handler := Escaped(Cancelled))
    case Failed(e) =>
      if x.raiseErrors then x.(handler := Escaped(Failed(e)))
      else
        CloseStream(x.(responseComplete := true,
                       complete := if x.complete.Pending? then Result else x.complete,
                       handler := Responded(if x.status.Some? then x.status.value else 500)))
    case _ => x.(handler := if x.status.Some? then Responded(x.status.value) else Broken)
  }

  /** `aclose`: besides the fields here it asks the app's loop to cancel the app, which
      may or may not end it. */
  function CloseReader(x: Exchange, r: Reader): Exchange {
    var y := CloseStream(x).(reader := r);
    if y.appFuture.Pending? then y.(appFuture := Cancelled, calls := y.calls + [FinishApp]) else y
  }

  predicate Enabled(x: Exchange, a: Action) {
    match a
    case SendStart(_) => x.app.Running?
    case SendBody(_, _) => x.app.Running?
    case AppEnds(_) => x.app.Running?
    case RunCall => x.calls != []
    case ResumeHandler => x.handler.Awaiting? && !x.started.Pending?
    case CancelRequest => x.handler.Awaiting?
    case OpenStream => x.handler.Responded? && x.reader.Idle?
    case Get => x.reader.Reading? && x.queue != []
    case ResumeEnd => x.reader.AwaitingEnd? && !x.complete.Pending?
    case Close => x.handler.Responded? && (x.reader.Idle? || x.reader.Reading? || x.reader.AwaitingEnd?)
  }

  function Next(x: Exchange, a: Action): Exchange
    requires Enabled(x, a)
  {
    match a
    case SendStart(status) =>
      if x.responseStarted then x
      else x.(status := Some(status), responseStarted := true, calls := x.calls + [SetStarted])
    case SendBody(b, more) => if x.responseComplete then x else AcceptBody(x, b, more)
    case AppEnds(ending) => x.(app := Ended(ending), calls := x.calls + [SetAppFuture(ending)])
    case RunCall => Dispatch(x)
    case ResumeHandler => Respond(x)
    case CancelRequest =>
      x.(handler := Escaped(Cancelled), started := if x.started.Pending? then Cancelled else x.started)
    case OpenStream => x.(reader := Reading)
    case Get =>
      var y := x.(queue := x.queue[1..]);
      if x.queue[0].End? then y.(reader := AwaitingEnd) else y.(read := y.read + [x.queue[0].b])
    case ResumeEnd => CloseReader(x, Drained(x.complete))
    case Close =>
      var y := if x.reader.AwaitingEnd? && x.complete.Pending? then x.(complete := Cancelled) else x;
      CloseReader(y, ClosedEarly)
  }

  // ------------------------------------------------------------ what is in flight

  /** The bodies still waiting to be put on the body queue. */
  function Posted(calls: seq<Call>): seq<Body> {
    if calls == [] then [] else if calls[0].PutBody? then [calls[0].b] + Posted(calls[1..]) else Posted(calls[1..])
  }

  predicate HasStart(calls: seq<Call>) {
    calls != [] && (calls[0].SetStarted? || HasStart(calls[1..]))
  }

  predicate HasPutEnd(calls: seq<Call>) {
    calls != [] && (calls[0].PutEnd? || HasPutEnd(calls[1..]))
  }

  predicate HasFinish(calls: seq<Call>) {
    calls != [] && (calls[0].FinishApp? || HasFinish(calls[1..]))
  }

  /** The news of the app's end, if it is on its way. */
  function News(calls: seq<Call>): Option<Ending> {
    if calls == [] then None else if calls[0].SetAppFuture? then Some(calls[0].ending) else News(calls[1..])
  }

  /** Nothing the app posted is left. */
  predicate NoPosts(calls: seq<Call>) {
    Posted(calls) == [] && !HasStart(calls) && !HasPutEnd(calls) && News(calls).None?
  }

  /** The news of the app's end comes once and behind all its posts, `finish_app` comes
      once, and no body follows the end of the response. */
  predicate Ordered(calls: seq<Call>) {
    calls == []
    || (Ordered(calls[1..])
        && (calls[0].SetAppFuture? ==> NoPosts(calls[1..]))
        && (calls[0].FinishApp? ==> !HasFinish(calls[1..]))
        && (calls[0].PutEnd? ==> Posted(calls[1..]) == []))
  }

  function Queued(queue: seq<Item>): seq<Body> {
    if queue == [] then [] else if queue[0].Chunk? then [queue[0].b] + Queued(queue[1..]) else Queued(queue[1..])
  }

  /** Chunks only. */
  predicate Open(queue: seq<Item>) {
    queue == [] || (queue[0].Chunk? && Open(queue[1..]))
  }

  /** Chunks, then the sentinel, then nothing. */
  predicate Sealed(queue: seq<Item>) {
    queue != [] && (if queue[0].End? then |queue| == 1 else Sealed(queue[1..]))
  }

  lemma {:induction false} CallsAppend(calls: seq<Call>, c: Call)
    ensures Posted(calls + [c]) == if c.PutBody? then Posted(calls) + [c.b] else Posted(calls)
    ensures HasStart(calls + [c]) <==> HasStart(calls) || c.SetStarted?
    ensures HasPutEnd(calls + [c]) <==> HasPutEnd(calls) || c.PutEnd?
    ensures HasFinish(calls + [c]) <==> HasFinish(calls) || c.FinishApp?
    ensures News(calls + [c])
         == if News(calls).Some? then News(calls) else if c.SetAppFuture? then Some(c.ending) else None
    ensures (Ordered(calls) && (News(calls).Some? ==> c.FinishApp?) && (c.FinishApp? ==> !HasFinish(calls))
             && (c.PutBody? ==> !HasPutEnd(calls))) ==> Ordered(calls + [c])
  {
    if calls == [] {
      assert calls + [c] == [c];
    } else {
      assert (calls + [c])[1..] == calls[1..] + [c];
      CallsAppend(calls[1..], c);
    }
  }

  lemma {:induction false} QueueAppend(queue: seq<Item>, i: Item)
    ensures Queued(queue + [i]) == if i.Chunk? then Queued(queue) + [i.b] else Queued(queue)
    ensures Open(queue) ==> if i.Chunk? then Open(queue + [i]) else Sealed(queue + [i])
  {
    if queue == [] {
      assert queue + [i] == [i];
    } else {
      assert (queue + [i])[1..] == queue[1..] + [i];
      QueueAppend(queue[1..], i);
    }
  }

  // ------------------------------------------------------------ the invariant

  predicate Stopped(r: Reader) { r.Drained? || r.ClosedEarly? }

  /** What `app_complete` has to become once the app's end is known. */
  function Verdict(x: Exchange): Fut {
    match x.appFuture
    case Cancelled => if x.started.Result? then Cancelled else Result
    case Failed(e) => if x.started.Result? && x.raiseErrors then Failed(e) else Result
    case _ =>
      if x.started == Failed(NotComplete) || x.responseComplete then Result else Failed(NotComplete)
  }

  /** No body is lost, repeated or reordered between `send` and the consumer. */
  predicate Flow(x: Exchange) {
    && x.read + Queued(x.queue) + Posted(x.calls) == x.sent
    && (x.head ==> x.sent == [])
  }

  predicate CallsOk(x: Exchange) {
    && Ordered(x.calls)
    && (News(x.calls).Some? ==> x.app == Ended(News(x.calls).value))
    && (HasStart(x.calls) ==> x.responseStarted)
    && (HasPutEnd(x.calls) ==> x.responseComplete)
    && (HasFinish(x.calls) ==> !x.appFuture.Pending?)
  }

  /** How the app's end is known on the caller's side. */
  predicate EndKnown(x: Exchange) {
    && (x.app.Ended? && x.appFuture.Pending? ==> News(x.calls) == Some(x.app.ending))
    && (!x.appFuture.Pending? && !Stopped(x.reader) ==>
          x.app.Ended? && x.appFuture == FutOf(x.app.ending) && NoPosts(x.calls))
    && (!x.appFuture.Pending? && !HasFinish(x.calls) ==>
          !x.started.Pending? && !x.complete.Pending? && x.streamClosed)
  }

  predicate StartKnown(x: Exchange) {
    && (x.responseStarted <==> x.status.Some?)
    && (x.responseStarted && x.started.Pending? ==> HasStart(x.calls))
    && (x.started.Result? ==> x.responseStarted)
    && (x.started.Failed? ==>
          !x.responseStarted && x.app.Ended? && !x.appFuture.Pending? && !x.complete.Pending? && x.streamClosed
          && !x.app.ending.IsCancelled?
          && x.started.e == if x.app.ending.Returns? then NotComplete else AppError(x.app.ending.id))
    && (x.started.Cancelled? ==> !x.handler.Responded?)
    && (x.handler.Awaiting? && x.started.Cancelled? ==> x.app == Ended(IsCancelled) && !x.responseStarted)
  }

  predicate ReaderShape(x: Exchange) {
    && (x.handler.Responded? ==>
          if x.started.Result? then x.status == Some(x.handler.status)
          else x.started.Failed? && !x.raiseErrors && x.handler.status == 500)
    && !x.handler.Broken?
    && (x.handler.Responded? || x.reader.Idle?)
    && (x.handler.Escaped? ==> !x.started.Pending?)
    && (x.handler.Escaped? && x.handler.how.Failed? ==> x.started == x.handler.how && x.raiseErrors)
  }

  /** The sentinel is queued once, and behind every body while somebody may read it. */
  predicate Sentinel(x: Exchange) {
    && (x.streamClosed && !Stopped(x.reader) ==>
          (x.responseComplete || x.app.Ended?) && Posted(x.calls) == [])
    && (x.responseComplete && !x.streamClosed && x.app.Running? ==> HasPutEnd(x.calls))
    && (!x.streamClosed ==> Open(x.queue) && !x.reader.AwaitingEnd? && !Stopped(x.reader))
    && (x.streamClosed && (x.reader.Idle? || x.reader.Reading?) ==> Sealed(x.queue))
    && (x.reader.AwaitingEnd? ==> x.queue == [])
  }

  /** Whoever met the sentinel has read everything, for good. */
  predicate Delivered(x: Exchange) {
    x.reader.AwaitingEnd? || x.reader.Drained? ==> x.read == x.sent && (x.responseComplete || x.app.Ended?)
  }

  predicate Outcomes(x: Exchange) {
    && (!x.complete.Pending? && !Stopped(x.reader) ==>
          !x.appFuture.Pending? && !HasFinish(x.calls) && x.complete == Verdict(x))
    && (x.reader.Drained? ==>
          !x.appFuture.Pending? && x.app.Ended? && x.appFuture == FutOf(x.app.ending) && x.reader.how == Verdict(x))
  }

  predicate Control(x: Exchange) {
    CallsOk(x) && EndKnown(x) && StartKnown(x) && ReaderShape(x) && Sentinel(x) && Outcomes(x)
  }

  predicate Inv(x: Exchange) {
    Flow(x) && Control(x) && Delivered(x)
  }

  // ------------------------------------------------------------ bodies are conserved

  lemma StepKeepsFlow(x: Exchange, a: Action)
    requires Flow(x) && Enabled(x, a)
    ensures Flow(Next(x, a))
  {
    match a
    case SendStart(_) => CallsAppend(x.calls, SetStarted);
    case SendBody(b, _) => SendBodyKeepsFlow(x, b);
    case AppEnds(ending) => CallsAppend(x.calls, SetAppFuture(ending));
    case RunCall => RunCallKeepsFlow(x);
    case ResumeHandler => ResumeHandlerKeepsFlow(x);
    case CancelRequest =>
    case OpenStream =>
    case Get => GetKeepsFlow(x);
    case ResumeEnd => CloseReaderKeepsFlow(x, Drained(x.complete));
    case Close => CloseReaderKeepsFlow(x, ClosedEarly); CloseReaderKeepsFlow(x.(complete := Cancelled), ClosedEarly);
  }

  lemma CloseStreamKeepsFlow(x: Exchange)
    requires Flow(x)
    ensures Flow(CloseStream(x))
  {
    QueueAppend(x.queue, End);
  }

  /** Going on with the request touches no body; it may put the sentinel. */
  lemma RespondKeepsBodies(x: Exchange)
    ensures var y := Respond(x);
            y.read == x.read && y.sent == x.sent && y.calls == x.calls && y.head == x.head
            && (y.queue == x.queue || y.queue == x.queue + [End])
  {
    match x.started
    case Failed(_) => if x.raiseErrors { } else { }
    case _ =>
  }

  lemma ResumeHandlerKeepsFlow(x: Exchange)
    requires Flow(x)
    ensures Flow(Respond(x))
  {
    RespondKeepsBodies(x);
    QueueAppend(x.queue, End);
  }

  lemma CloseReaderKeepsFlow(x: Exchange, r: Reader)
    requires Flow(x)
    ensures Flow(CloseReader(x, r))
  {
    CloseStreamKeepsFlow(x);
    CallsAppend(x.calls, FinishApp);
  }

  lemma SendBodyKeepsFlow(x: Exchange, b: Body)
    requires Flow(x)
    ensures forall more :: Flow(AcceptBody(x, b, more))
  {
    CallsAppend(x.calls, PutBody(b));
    CallsAppend(x.calls, PutEnd);
    CallsAppend(x.calls + [PutBody(b)], PutEnd);
    assert x.read + Queued(x.queue) + (Posted(x.calls) + [b]) == x.sent + [b];
  }

  lemma RunCallKeepsFlow(x: Exchange)
    requires Flow(x) && x.calls != []
    ensures Flow(Dispatch(x))
  {
    var y := x.(calls := x.calls[1..]);
    match x.calls[0]
    case SetStarted =>
    case PutBody(_) => RunBodyKeepsFlow(x);
    case PutEnd => CloseStreamKeepsFlow(y);
    case SetAppFuture(_) => CallsAppend(x.calls[1..], FinishApp);
    case FinishApp => CloseStreamKeepsFlow(y.(started := FinishStarted(y), complete := FinishComplete(y)));
  }

  lemma RunBodyKeepsFlow(x: Exchange)
    requires Flow(x) && x.calls != [] && x.calls[0].PutBody?
    ensures Flow(Dispatch(x))
  {
    QueueAppend(x.queue, Chunk(x.calls[0].b));
    Handover(x.read, Queued(x.queue), x.calls[0].b, Posted(x.calls[1..]));
  }

  lemma GetKeepsFlow(x: Exchange)
    requires Flow(x) && Enabled(x, Get)
    ensures Flow(Next(x, Get))
  {
    if x.queue[0].Chunk? {
      Yielded(x.read, x.queue[0].b, Queued(x.queue[1..]), Posted(x.calls));
    }
  }

  lemma Handover(read: seq<Body>, queued: seq<Body>, b: Body, posted: seq<Body>)
    ensures read + (queued + [b]) + posted == read + queued + ([b] + posted)
  {
  }

  lemma Yielded(read: seq<Body>, b: Body, queued: seq<Body>, posted: seq<Body>)
    ensures (read + [b]) + queued + posted == read + ([b] + queued) + posted
  {
  }

  /** When the consumer is about to meet the sentinel it has read every body sent. */
  lemma SentinelIsLast(x: Exchange)
    requires Flow(x) && Sentinel(x) && x.reader.Reading? && x.queue != [] && x.queue[0].End?
    ensures x.read == x.sent && (x.responseComplete || x.app.Ended?)
  {
    assert Queued(x.queue) == [] && Posted(x.calls) == [];
  }

  /** The same holds after every step: only meeting the sentinel can make a difference. */
  lemma StepKeepsDelivered(x: Exchange, a: Action)
    requires Inv(x) && Enabled(x, a)
    ensures Delivered(Next(x, a))
  {
    match a
    case RunCall => DispatchKeepsHistory(x);
    case Get => if x.queue[0].End? { SentinelIsLast(x); }
    case ResumeEnd => CloseKeepsHistory(x, Drained(x.complete));
    case Close => EarlyCloseIsNoDelivery(x);
    case SendBody(_, _) => DoneSendingStays(x, a);
    case SendStart(_) => DoneSendingStays(x, a);
    case _ =>
  }

  lemma EarlyCloseIsNoDelivery(x: Exchange)
    requires Enabled(x, Close)
    ensures Next(x, Close).reader == ClosedEarly
  {
    CloseKeepsHistory(x, ClosedEarly);
    CloseKeepsHistory(x.(complete := Cancelled), ClosedEarly);
  }

  /** Nothing is sent for the stream once the response is complete. */
  lemma DoneSendingStays(x: Exchange, a: Action)
    requires Enabled(x, a) && (a.SendStart? || a.SendBody?)
    ensures Next(x, a).read == x.read && Next(x, a).reader == x.reader && Next(x, a).app == x.app
    ensures x.responseComplete ==> Next(x, a).sent == x.sent && Next(x, a).responseComplete
  {
  }

  lemma CloseKeepsHistory(x: Exchange, r: Reader)
    ensures var y := CloseReader(x, r);
            y.read == x.read && y.sent == x.sent && y.reader == r && y.app == x.app
            && y.responseComplete == x.responseComplete && y.status == x.status
            && y.head == x.head && y.raiseErrors == x.raiseErrors
  {
  }

  /** Callbacks touch neither the consumer nor the record of what was sent and read. */
  lemma DispatchKeepsHistory(x: Exchange)
    requires x.calls != []
    ensures var y := Dispatch(x);
            y.read == x.read && y.sent == x.sent && y.reader == x.reader && y.app == x.app
            && y.responseComplete == x.responseComplete && y.handler == x.handler
            && y.responseStarted == x.responseStarted && y.status == x.status
            && y.head == x.head && y.raiseErrors == x.raiseErrors
  {
    match x.calls[0]
    case SetStarted =>
    case PutBody(_) =>
    case PutEnd =>
    case SetAppFuture(_) =>
    case FinishApp =>
  }

  // ------------------------------------------------------------ every step keeps the control invariant

  lemma InitialInv(head: bool, raiseErrors: bool)
    ensures Inv(Initial(head, raiseErrors))
  {
  }

  lemma SendStartKeepsControl(x: Exchange, status: nat)
    requires Control(x) && x.app.Running?
    ensures Control(Next(x, SendStart(status)))
  {
    CallsAppend(x.calls, SetStarted);
  }

  lemma SendBodyKeepsControl(x: Exchange, b: Body, more: bool)
    requires Control(x) && x.app.Running?
    ensures Control(Next(x, SendBody(b, more)))
  {
    if !x.responseComplete {
      var y := AcceptBody(x, b, true);
      PostKeepsControl(x, b);
      if !more { EndPostKeepsControl(y); }
    }
  }

  lemma PostKeepsControl(x: Exchange, b: Body)
    requires Control(x) && x.app.Running? && !x.responseComplete
    ensures Control(AcceptBody(x, b, true))
  {
    CallsAppend(x.calls, PutBody(b));
  }

  lemma EndPostKeepsControl(x: Exchange)
    requires Control(x) && x.app.Running? && !x.responseComplete
    ensures Control(x.(responseComplete := true, calls := x.calls + [PutEnd]))
  {
    CallsAppend(x.calls, PutEnd);
  }

  lemma AppEndKeepsControl(x: Exchange, ending: Ending)
    requires Control(x) && x.app.Running?
    ensures Control(Next(x, AppEnds(ending)))
  {
    CallsAppend(x.calls, SetAppFuture(ending));
  }

  lemma RunPostKeepsControl(x: Exchange)
    requires Control(x) && x.calls != [] && (x.calls[0].SetStarted? || x.calls[0].PutBody? || x.calls[0].PutEnd?)
    ensures Control(Next(x, RunCall))
  {
    match x.calls[0]
    case SetStarted =>
    case PutBody(b) => QueueAppend(x.queue, Chunk(b));
    case PutEnd => QueueAppend(x.queue, End);
  }

  lemma RunNewsKeepsControl(x: Exchange)
    requires Control(x) && x.calls != [] && x.calls[0].SetAppFuture?
    ensures Control(Next(x, RunCall))
  {
    if x.appFuture.Pending? {
      CallsAppend(x.calls[1..], FinishApp);
    } else {
    }
  }

  lemma RunFinishKeepsControl(x: Exchange)
    requires Control(x) && x.calls != [] && x.calls[0].FinishApp?
    ensures Control(Next(x, RunCall))
  {
    QueueAppend(x.queue, End);
  }

  lemma ResumeHandlerKeepsControl(x: Exchange)
    requires Control(x) && Enabled(x, ResumeHandler)
    ensures Control(Next(x, ResumeHandler))
  {
    if x.started.Failed? && !x.raiseErrors {
      assert Next(x, ResumeHandler)
          == x.(responseComplete := true, handler := Responded(500));
    }
  }

  lemma GetKeepsControl(x: Exchange)
    requires Control(x) && Enabled(x, Get)
    ensures Control(Next(x, Get))
  {
    match x.queue[0]
    case End =>
    case Chunk(_) =>
  }

  lemma ResumeEndKeepsControl(x: Exchange)
    requires Control(x) && Enabled(x, ResumeEnd)
    ensures Control(Next(x, ResumeEnd))
  {
    CallsAppend(x.calls, FinishApp);
  }

  lemma CloseKeepsControl(x: Exchange)
    requires Control(x) && Enabled(x, Close)
    ensures Control(Next(x, Close))
  {
    CallsAppend(x.calls, FinishApp);
    if x.streamClosed {
      if x.reader.AwaitingEnd? { } else { }
    } else {
      QueueAppend(x.queue, End);
    }
  }

  lemma RunCallKeepsControl(x: Exchange)
    requires Control(x) && Enabled(x, RunCall)
    ensures Control(Next(x, RunCall))
  {
    match x.calls[0]
    case FinishApp => RunFinishKeepsControl(x);
    case SetAppFuture(_) => RunNewsKeepsControl(x);
    case _ => RunPostKeepsControl(x);
  }

  lemma CancelKeepsControl(x: Exchange)
    requires Control(x) && Enabled(x, CancelRequest)
    ensures Control(Next(x, CancelRequest))
  {
  }

  lemma OpenKeepsControl(x: Exchange)
    requires Control(x) && Enabled(x, OpenStream)
    ensures Control(Next(x, OpenStream))
  {
  }

  lemma StepKeepsControl(x: Exchange, a: Action)
    requires Control(x) && Enabled(x, a)
    ensures Control(Next(x, a))
  {
    match a
    case SendStart(status) => SendStartKeepsControl(x, status);
    case SendBody(b, more) => SendBodyKeepsControl(x, b, more);
    case AppEnds(ending) => AppEndKeepsControl(x, ending);
    case RunCall => RunCallKeepsControl(x);
    case ResumeHandler => ResumeHandlerKeepsControl(x);
    case CancelRequest => CancelKeepsControl(x);
    case OpenStream => OpenKeepsControl(x);
    case Get => GetKeepsControl(x);
    case ResumeEnd => ResumeEndKeepsControl(x);
    case Close => CloseKeepsControl(x);
  }

  lemma StepKeepsInv(x: Exchange, a: Action)
    requires Inv(x) && Enabled(x, a)
    ensures Inv(Next(x, a))
  {
    StepKeepsFlow(x, a);
    StepKeepsDelivered(x, a);
    StepKeepsControl(x, a);
  }

  /** When `finish_app` runs, the app's future is done: it is its done-callback. */
  lemma FinishFindsFuture(x: Exchange)
    requires Inv(x) && x.calls != [] && x.calls[0].FinishApp?
    ensures !x.appFuture.Pending?
  {
    assert HasFinish(x.calls);
  }
}
