/** What the caller gets, in terms of the messages the app sent and of how it ended. */
module AsgiHistory {
  import opened Wrappers
  import opened AsgiProtocol
  import opened AsgiTheorems

  // ------------------------------------------------------------ what the app did

  /** The bodies of the response: the non-empty ones, up to and including the first message that
      announces no more. */
  function Messages(acts: seq<Action>): seq<Body> {
    if acts == [] then []
    else if !acts[0].SendBody? then Messages(acts[1..])
    else (if acts[0].b.bytes == "" then [] else [acts[0].b]) + if acts[0].more then Messages(acts[1..]) else []
  }

  /** What the client is to get: nothing for HEAD. */
  function Bodies(acts: seq<Action>, head: bool): seq<Body> {
    if head then [] else Messages(acts)
  }

  /** The status of the first start message. */
  function FirstStatus(acts: seq<Action>): Option<nat> {
    if acts == [] then None
    else if acts[0].SendStart? then Some(acts[0].status)
    else FirstStatus(acts[1..])
  }

  /** A message announced that no more would come. */
  predicate Completed(acts: seq<Action>) {
    exists i :: 0 <= i < |acts| && acts[i].SendBody? && !acts[i].more
  }

  function EndingOf(acts: seq<Action>): Option<Ending> {
    if acts == [] then None
    else if acts[0].AppEnds? then Some(acts[0].ending)
    else EndingOf(acts[1..])
  }

  // ------------------------------------------------------------ the state knows it

  lemma CompletedLater(acts: seq<Action>)
    requires acts != []
    ensures Completed(acts) <==> (acts[0].SendBody? && !acts[0].more) || Completed(acts[1..])
  {
    if i :| 0 <= i < |acts| && acts[i].SendBody? && !acts[i].more {
      if i > 0 { assert acts[1..][i - 1] == acts[i]; }
    }
    if i :| 0 <= i < |acts[1..]| && acts[1..][i].SendBody? && !acts[1..][i].more {
      assert acts[i + 1] == acts[1..][i];
    }
  }

  /** What a step does to the record of the app's messages. */
  predicate RecordsStep(x: Exchange, a: Action, y: Exchange) {
    && y.head == x.head && y.raiseErrors == x.raiseErrors
    && y.status == (if x.status.None? && a.SendStart? then Some(a.status) else x.status)
    && y.app == (if a.AppEnds? then Ended(a.ending) else x.app)
    && (x.app.Running? ==>
          y.responseComplete == (x.responseComplete || (a.SendBody? && !a.more))
          && y.sent == if a.SendBody? && !x.responseComplete && a.b.bytes != "" && !x.head
                       then x.sent + [a.b] else x.sent)
    && (x.app.Ended? ==> y.sent == x.sent)
    && (x.app.Ended? && !(a.ResumeHandler? && x.started.Failed?) ==> y.responseComplete == x.responseComplete)
  }

  predicate OfTheApp(a: Action) { a.SendStart? || a.SendBody? || a.AppEnds? }

  lemma AppHistory(x: Exchange, a: Action)
    requires Inv(x) && Enabled(x, a) && OfTheApp(a)
    ensures RecordsStep(x, a, Next(x, a))
    ensures Next(x, a).reader == x.reader && Next(x, a).handler == x.handler
    ensures Next(x, a).streamClosed == x.streamClosed && Next(x, a).appFuture == x.appFuture
  {
    assert x.app.Running?;
  }

  /** Cancelling, opening and reading. */
  predicate Quiet(a: Action) { a.CancelRequest? || a.OpenStream? || a.Get? }

  lemma QuietHistory(x: Exchange, a: Action)
    requires Enabled(x, a) && Quiet(a)
    ensures RecordsStep(x, a, Next(x, a))
    ensures Next(x, a).streamClosed == x.streamClosed && Next(x, a).appFuture == x.appFuture
    ensures Stopped(Next(x, a).reader) <==> Stopped(x.reader)
    ensures !a.CancelRequest? ==> Next(x, a).handler == x.handler && Next(x, a).responseStarted == x.responseStarted
  {
  }

  /** One step, as far as the app's messages go. */
  lemma StepHistory(x: Exchange, a: Action)
    requires Inv(x) && Enabled(x, a)
    ensures RecordsStep(x, a, Next(x, a))
  {
    if OfTheApp(a) {
      AppHistory(x, a);
    } else if Quiet(a) {
      QuietHistory(x, a);
    } else {
      CallerHistory(x, a);
    }
  }

  lemma CallerHistory(x: Exchange, a: Action)
    requires Inv(x) && Enabled(x, a) && !OfTheApp(a) && !Quiet(a)
    ensures RecordsStep(x, a, Next(x, a))
  {
    match a
    case RunCall => DispatchKeepsHistory(x);
    case ResumeHandler => RespondHistory(x);
    case ResumeEnd => CloseKeepsHistory(x, Drained(x.complete));
    case Close => CloseHistory(x);
  }

  lemma RespondHistory(x: Exchange)
    requires Inv(x) && Enabled(x, ResumeHandler)
    ensures var y := Respond(x);
            && y.head == x.head && y.raiseErrors == x.raiseErrors && y.status == x.status && y.app == x.app
            && y.sent == x.sent && (!x.started.Failed? ==> y.responseComplete == x.responseComplete)
  {
    RespondKeepsBodies(x);
  }

  lemma CloseHistory(x: Exchange)
    requires Enabled(x, Close)
    ensures var y := Next(x, Close);
            && y.head == x.head && y.raiseErrors == x.raiseErrors && y.status == x.status && y.app == x.app
            && y.sent == x.sent && y.responseComplete == x.responseComplete
  {
    CloseKeepsHistory(x, ClosedEarly);
    CloseKeepsHistory(x.(complete := Cancelled), ClosedEarly);
  }

  lemma AppendBodies(a: seq<Body>, b: seq<Body>, c: seq<Body>)
    ensures a + (b + c) == (a + b) + c
  {
  }

  lemma NothingMore(a: seq<Body>)
    ensures a + [] == a
  {
  }

  /** While the app runs, what it will send is added to what it has sent, unless the response is
      complete already. */
  lemma {:induction false} SentLater(x: Exchange, acts: seq<Action>)
    requires Inv(x) && CanRun(x, acts)
    ensures After(x, acts).sent
         == x.sent + if x.app.Ended? || x.responseComplete then [] else Bodies(acts, x.head)
    decreases |acts|
  {
    NothingMore(x.sent);
    if acts != [] {
      var a := acts[0];
      var y := Next(x, a);
      StepKeepsInv(x, a);
      StepHistory(x, a);
      SentLater(y, acts[1..]);
      NothingMore(y.sent);
      if x.app.Running? && !x.responseComplete {
        if a.AppEnds? {
          EndedSendsNothing(y, acts[1..]);
        } else if a.SendBody? && !x.head {
          AppendBodies(x.sent, if a.b.bytes == "" then [] else [a.b], if a.more then Messages(acts[1..]) else []);
        }
      }
    }
  }

  /** An app that has ended sends nothing. */
  lemma {:induction false} EndedSendsNothing(x: Exchange, acts: seq<Action>)
    requires Inv(x) && CanRun(x, acts) && x.app.Ended?
    ensures Messages(acts) == [] && FirstStatus(acts) == None && !Completed(acts) && EndingOf(acts) == None
    decreases |acts|
  {
    if acts != [] {
      StepKeepsInv(x, acts[0]);
      StepHistory(x, acts[0]);
      CompletedLater(acts);
      EndedSendsNothing(Next(x, acts[0]), acts[1..]);
    }
  }

  lemma {:induction false} StatusLater(x: Exchange, acts: seq<Action>)
    requires Inv(x) && CanRun(x, acts)
    ensures After(x, acts).status == if x.status.Some? then x.status else FirstStatus(acts)
    decreases |acts|
  {
    if acts != [] {
      StepKeepsInv(x, acts[0]);
      StepHistory(x, acts[0]);
      StatusLater(Next(x, acts[0]), acts[1..]);
    }
  }

  lemma {:induction false} EndLater(x: Exchange, acts: seq<Action>)
    requires Inv(x) && CanRun(x, acts) && x.app.Running?
    ensures After(x, acts).app == match EndingOf(acts) case None => Running case Some(ending) => Ended(ending)
    decreases |acts|
  {
    if acts != [] {
      StepKeepsInv(x, acts[0]);
      StepHistory(x, acts[0]);
      if acts[0].AppEnds? {
        EndIsFinal(Next(x, acts[0]), acts[1..]);
      } else {
        EndLater(Next(x, acts[0]), acts[1..]);
      }
    }
  }

  lemma {:induction false} EndIsFinal(x: Exchange, acts: seq<Action>)
    requires Inv(x) && CanRun(x, acts) && x.app.Ended?
    ensures After(x, acts).app == x.app
    decreases |acts|
  {
    if acts != [] {
      StepKeepsInv(x, acts[0]);
      StepHistory(x, acts[0]);
      EndIsFinal(Next(x, acts[0]), acts[1..]);
    }
  }

  lemma {:induction false} CompleteLater(x: Exchange, acts: seq<Action>)
    requires Inv(x) && CanRun(x, acts) && After(x, acts).responseStarted
    ensures After(x, acts).responseComplete <==> x.responseComplete || Completed(acts)
    decreases |acts|
  {
    if acts != [] {
      var a := acts[0];
      StepKeepsInv(x, a);
      StepHistory(x, a);
      CompletedLater(acts);
      CompleteLater(Next(x, a), acts[1..]);
      if a.ResumeHandler? && x.started.Failed? { NeverStarted(x, acts); }
    }
  }

  /** An app that has ended without starting its response never starts it. */
  lemma NeverStarted(x: Exchange, acts: seq<Action>)
    requires Inv(x) && CanRun(x, acts) && x.app.Ended? && !x.responseStarted
    ensures !After(x, acts).responseStarted
  {
    RunKeepsInv(x, acts);
    EndedSendsNothing(x, acts);
    StatusLater(x, acts);
  }

  /** The state after a run, in terms of what the app did in it. */
  lemma StateIsHistory(head: bool, raiseErrors: bool, acts: seq<Action>)
    requires CanRun(Initial(head, raiseErrors), acts)
    ensures var x := After(Initial(head, raiseErrors), acts);
            && Inv(x) && Reachable(x)
            && x.head == head && x.raiseErrors == raiseErrors
            && x.sent == Bodies(acts, head)
            && x.status == FirstStatus(acts)
            && x.responseStarted == FirstStatus(acts).Some?
            && x.app == (match EndingOf(acts) case None => Running case Some(ending) => Ended(ending))
            && (x.responseStarted ==> (x.responseComplete <==> Completed(acts)))
  {
    var start := Initial(head, raiseErrors);
    InitialInv(head, raiseErrors);
    RunKeepsInv(start, acts);
    SentLater(start, acts);
    StatusLater(start, acts);
    EndLater(start, acts);
    if After(start, acts).responseStarted { CompleteLater(start, acts); }
    SettingsStay(start, acts);
  }

  lemma {:induction false} SettingsStay(x: Exchange, acts: seq<Action>)
    requires Inv(x) && CanRun(x, acts)
    ensures After(x, acts).head == x.head && After(x, acts).raiseErrors == x.raiseErrors
    decreases |acts|
  {
    if acts != [] {
      StepKeepsInv(x, acts[0]);
      StepHistory(x, acts[0]);
      SettingsStay(Next(x, acts[0]), acts[1..]);
    }
  }

  // ------------------------------------------------------------ what the caller gets

  /** At every moment the consumer has read a prefix of the bodies of the response. */
  lemma ReadsAPrefix(head: bool, raiseErrors: bool, acts: seq<Action>)
    requires CanRun(Initial(head, raiseErrors), acts)
    ensures After(Initial(head, raiseErrors), acts).read <= Bodies(acts, head)
  {
    StateIsHistory(head, raiseErrors, acts);
    ConsumerReadsPrefix(After(Initial(head, raiseErrors), acts));
  }

  /** A consumer that drains the stream has read exactly all the bodies of the response, then and
      ever after. */
  lemma DrainedReadsAll(head: bool, raiseErrors: bool, acts: seq<Action>)
    requires CanRun(Initial(head, raiseErrors), acts)
    ensures var x := After(Initial(head, raiseErrors), acts);
            x.reader.AwaitingEnd? || x.reader.Drained? ==> x.read == Bodies(acts, head)
  {
    StateIsHistory(head, raiseErrors, acts);
  }

  /** The status the request call returns is that of the first start message; without one it is
      500, for an app that ended while errors are not raised. */
  lemma StatusIsTheFirst(head: bool, raiseErrors: bool, acts: seq<Action>)
    requires CanRun(Initial(head, raiseErrors), acts)
    requires After(Initial(head, raiseErrors), acts).handler.Responded?
    ensures var status := After(Initial(head, raiseErrors), acts).handler.status;
            match FirstStatus(acts)
            case Some(first) => status == first
            case None => status == 500 && !raiseErrors && EndingOf(acts).Some?
  {
    StateIsHistory(head, raiseErrors, acts);
    RequestStatus(After(Initial(head, raiseErrors), acts));
  }

  /** What escapes from the request call is the error the app ended with before any start message,
      and only if errors are raised. */
  lemma ErrorIsTheEnding(head: bool, raiseErrors: bool, acts: seq<Action>, e: Error)
    requires CanRun(Initial(head, raiseErrors), acts)
    requires After(Initial(head, raiseErrors), acts).handler == Escaped(Failed(e))
    ensures raiseErrors && FirstStatus(acts).None?
    ensures match EndingOf(acts)
            case Some(Returns) => e == NotComplete
            case Some(Raises(id)) => e == AppError(id)
            case _ => false
  {
    StateIsHistory(head, raiseErrors, acts);
    RequestError(After(Initial(head, raiseErrors), acts), e);
  }

  /** An exception that escapes is an error, or the cancellation of an app that had not started its
      response, as long as nobody cancels the request. */
  predicate EscapesByEnding(x: Exchange) {
    x.handler.Escaped? ==>
      x.handler.how.Failed? || (x.handler.how.Cancelled? && x.app == Ended(IsCancelled) && !x.responseStarted)
  }

  lemma StepEscapes(x: Exchange, a: Action)
    requires Inv(x) && Enabled(x, a) && EscapesByEnding(x) && !a.CancelRequest?
    ensures EscapesByEnding(Next(x, a))
  {
    if OfTheApp(a) {
      AppHistory(x, a);
    } else if Quiet(a) {
      QuietHistory(x, a);
    } else {
      CallerEscapes(x, a);
    }
  }

  lemma CallerEscapes(x: Exchange, a: Action)
    requires Inv(x) && Enabled(x, a) && EscapesByEnding(x) && !OfTheApp(a) && !Quiet(a)
    ensures EscapesByEnding(Next(x, a))
  {
    match a
    case RunCall => DispatchKeepsHistory(x);
    case ResumeHandler => RespondEscapes(x);
    case ResumeEnd => CloseKeepsHistory(x, Drained(x.complete));
    case Close =>
      CloseKeepsHistory(x, ClosedEarly);
      CloseKeepsHistory(x.(complete := Cancelled), ClosedEarly);
  }

  lemma RespondEscapes(x: Exchange)
    requires Inv(x) && Enabled(x, ResumeHandler)
    ensures EscapesByEnding(Respond(x))
  {
    match x.started
    case Failed(_) => if x.raiseErrors { } else { }
    case _ =>
  }

  lemma {:induction false} RunEscapes(x: Exchange, acts: seq<Action>)
    requires Inv(x) && CanRun(x, acts) && EscapesByEnding(x) && CancelRequest !in acts
    ensures EscapesByEnding(After(x, acts))
    decreases |acts|
  {
    if acts != [] {
      assert acts[0] in acts && forall a <- acts[1..] :: a in acts;
      StepKeepsInv(x, acts[0]);
      StepEscapes(x, acts[0]);
      RunEscapes(Next(x, acts[0]), acts[1..]);
    }
  }

  /** What the request call comes to when nobody cancels it, by the first start message and, without
      one, by how the app ended. */
  function RequestComesTo(acts: seq<Action>, raiseErrors: bool): Handler {
    match FirstStatus(acts)
    case Some(status) => Responded(status)
    case None =>
      match EndingOf(acts)
      case Some(Returns) => if raiseErrors then Escaped(Failed(NotComplete)) else Responded(500)
      case Some(Raises(id)) => if raiseErrors then Escaped(Failed(AppError(id))) else Responded(500)
      case Some(IsCancelled) => Escaped(Cancelled)
      case None => Awaiting
  }

  /** Exactly what the request call gives, in every interleaving: it waits until it gives that. */
  lemma RequestOutcome(head: bool, raiseErrors: bool, acts: seq<Action>)
    requires CanRun(Initial(head, raiseErrors), acts) && CancelRequest !in acts
    requires !After(Initial(head, raiseErrors), acts).handler.Awaiting?
    ensures After(Initial(head, raiseErrors), acts).handler == RequestComesTo(acts, raiseErrors)
  {
    var x := After(Initial(head, raiseErrors), acts);
    InitialInv(head, raiseErrors);
    RunEscapes(Initial(head, raiseErrors), acts);
    StateIsHistory(head, raiseErrors, acts);
    StatusIsSet(x);
    if x.handler.Responded? {
      StatusIsTheFirst(head, raiseErrors, acts);
      RespondedByEnding(x);
    } else if x.handler.how.Failed? {
      ErrorIsTheEnding(head, raiseErrors, acts, x.handler.how.e);
    }
  }

  /** No response is made up for an app that was cancelled. */
  lemma RespondedByEnding(x: Exchange)
    requires Inv(x) && x.handler.Responded?
    ensures x.responseStarted || (x.app.Ended? && !x.app.ending.IsCancelled?)
  {
  }

  /** What a drained stream ends with, by how the app ended and what it had sent. */
  lemma OutcomeIsTheEnding(head: bool, raiseErrors: bool, acts: seq<Action>, f: Fut)
    requires CanRun(Initial(head, raiseErrors), acts)
    requires After(Initial(head, raiseErrors), acts).reader == Drained(f)
    ensures EndingOf(acts).Some?
    ensures f == if FirstStatus(acts).None? then Result
                 else match EndingOf(acts).value
                   case Returns => if Completed(acts) then Result else Failed(NotComplete)
                   case Raises(id) => if raiseErrors then Failed(AppError(id)) else Result
                   case IsCancelled => Cancelled
  {
    StateIsHistory(head, raiseErrors, acts);
    StreamOutcome(After(Initial(head, raiseErrors), acts), f);
  }

  /** Whoever stops reading, at the end or early, closes the stream and leaves the app's future
      settled: the app is cancelled if it was still running. */
  lemma {:induction false} StoppingSettlesApp(x: Exchange, acts: seq<Action>)
    requires Inv(x) && CanRun(x, acts) && (Stopped(x.reader) ==> !x.appFuture.Pending? && x.streamClosed)
    ensures var y := After(x, acts); Stopped(y.reader) ==> !y.appFuture.Pending? && y.streamClosed
    decreases |acts|
  {
    if acts != [] {
      StepKeepsInv(x, acts[0]);
      StepSettlesApp(x, acts[0]);
      StoppingSettlesApp(Next(x, acts[0]), acts[1..]);
    }
  }

  lemma StepSettlesApp(x: Exchange, a: Action)
    requires Inv(x) && Enabled(x, a) && (Stopped(x.reader) ==> !x.appFuture.Pending? && x.streamClosed)
    ensures var y := Next(x, a); Stopped(y.reader) ==> !y.appFuture.Pending? && y.streamClosed
  {
    if OfTheApp(a) {
      AppHistory(x, a);
    } else if Quiet(a) {
      QuietHistory(x, a);
    } else {
      CallerSettlesApp(x, a);
    }
  }

  lemma CallerSettlesApp(x: Exchange, a: Action)
    requires Enabled(x, a) && !OfTheApp(a) && !Quiet(a)
    requires Stopped(x.reader) ==> !x.appFuture.Pending? && x.streamClosed
    ensures var y := Next(x, a); Stopped(y.reader) ==> !y.appFuture.Pending? && y.streamClosed
  {
    match a
    case RunCall => DispatchSettlesApp(x);
    case ResumeHandler => RespondSettlesApp(x);
    case ResumeEnd => CloseSettlesApp(x, Drained(x.complete));
    case Close =>
      CloseSettlesApp(x, ClosedEarly);
      CloseSettlesApp(x.(complete := Cancelled), ClosedEarly);
  }

  lemma CloseSettlesApp(x: Exchange, r: Reader)
    ensures !CloseReader(x, r).appFuture.Pending? && CloseReader(x, r).streamClosed
  {
  }

  lemma DispatchSettlesApp(x: Exchange)
    requires x.calls != []
    ensures Dispatch(x).reader == x.reader && (x.streamClosed ==> Dispatch(x).streamClosed)
    ensures !x.appFuture.Pending? ==> !Dispatch(x).appFuture.Pending?
  {
    match x.calls[0]
    case SetStarted =>
    case PutBody(_) =>
    case PutEnd =>
    case SetAppFuture(_) =>
    case FinishApp =>
  }

  lemma RespondSettlesApp(x: Exchange)
    ensures Respond(x).reader == x.reader && Respond(x).appFuture == x.appFuture
    ensures x.streamClosed ==> Respond(x).streamClosed
  {
    match x.started
    case Failed(_) => if x.raiseErrors { } else { }
    case _ =>
  }
}
