/** The variables that the callbacks of `asgi_transport.py` share and change in place. */
module AsgiExchange {
  import opened Wrappers
  import opened AsgiProtocol

  class AsgiExchange {
    const head: bool
    const raiseErrors: bool
    var status: Option<nat>
    var responseStarted: bool
    var responseComplete: bool
    var calls: seq<Call>
    var started: Fut
    var complete: Fut
    var appFuture: Fut
    var bodyQueue: seq<Item>
    var streamClosed: bool
    var handler: Handler
    var reader: Reader
    ghost var app: App
    ghost var sent: seq<Body>
    ghost var read: seq<Body>

    ghost function Abs(): Exchange
      reads this
    {
      Exchange(head, raiseErrors, app, status, responseStarted, responseComplete, calls, started, complete,
               appFuture, bodyQueue, streamClosed, handler, reader, sent, read)
    }

    ghost predicate Valid()
      reads this
    {
      Inv(Abs())
    }

    constructor (head: bool, raiseErrors: bool)
      ensures Valid() && Abs() == Initial(head, raiseErrors)
    {
      this.head, this.raiseErrors := head, raiseErrors;
      status, responseStarted, responseComplete := None, false, false;
      calls, started, complete, appFuture := [], Pending, Pending, Pending;
      bodyQueue, streamClosed, handler, reader := [], false, Awaiting, Idle;
      app, sent, read := Running, [], [];
      new;
      InitialInv(head, raiseErrors);
    }

    // ---------------------------------------------------------- settling the futures

    /** `set_result`, `set_exception` and `cancel` on `response_started_event`; asyncio
        refuses to settle a future twice. */
    method SettleStarted(f: Fut)
      requires started.Pending? && !f.Pending?
      modifies this`started
      ensures started == f
    {
      started := f;
    }

    /** The same on `app_complete`. */
    method SettleComplete(f: Fut)
      requires complete.Pending? && !f.Pending?
      modifies this`complete
      ensures complete == f
    {
      complete := f;
    }

    /** `if not app_complete.done()`. */
    method CompleteWith(f: Fut)
      requires !f.Pending?
      modifies this`complete
      ensures complete == if old(complete).Pending? then f else old(complete)
    {
      if complete.Pending? { SettleComplete(f); }
    }

    /** `if not response_started_event.done()`. */
    method StartWith(f: Fut)
      requires !f.Pending?
      modifies this`started
      ensures started == if old(started).Pending? then f else old(started)
    {
      if started.Pending? { SettleStarted(f); }
    }

    // ---------------------------------------------------------- the app's loop

    /** `send` on the app's loop. `raised` tells the app that it broke the protocol. */
    method SendResponseStart(status: nat) returns (raised: bool)
      requires Valid() && app.Running?
      modifies this
      ensures Valid() && Abs() == Next(old(Abs()), SendStart(status))
      ensures raised == old(responseStarted)
    {
      StepKeepsInv(Abs(), SendStart(status));
      raised := responseStarted;
      if !raised {
        this.status := Some(status);
        responseStarted := true;
        calls := calls + [SetStarted];
      }
    }

    method SendResponseBody(b: Body, more: bool) returns (raised: bool)
      requires Valid() && app.Running?
      modifies this
      ensures Valid() && Abs() == Next(old(Abs()), SendBody(b, more))
      ensures raised == old(responseComplete)
    {
      StepKeepsInv(Abs(), SendBody(b, more));
      raised := responseComplete;
      if !raised {
        if b.bytes != [] && !head {
          calls := calls + [PutBody(b)];
          sent := sent + [b];
        }
        if !more {
          responseComplete := true;
          calls := calls + [PutEnd];
        }
      }
    }

    /** The app coroutine ends, which is made known to the caller's loop. */
    method AppIsOver(ending: Ending)
      requires Valid() && app.Running?
      modifies this
      ensures Valid() && Abs() == Next(old(Abs()), AppEnds(ending))
    {
      StepKeepsInv(Abs(), AppEnds(ending));
      app := Ended(ending);
      calls := calls + [SetAppFuture(ending)];
    }

    // ---------------------------------------------------------- the caller's loop

    /** `close_stream` */
    method CloseTheStream()
      modifies this`streamClosed, this`bodyQueue
      ensures Abs() == CloseStream(old(Abs()))
    {
      if !streamClosed {
        streamClosed := true;
        bodyQueue := bodyQueue + [End];
      }
    }

    /** `finish_app` where the app was cancelled. */
    method FinishCancelled()
      requires appFuture.Cancelled?
      modifies this`started, this`complete
      ensures started == FinishStarted(old(Abs())) && complete == FinishComplete(old(Abs()))
    {
      if started.Result? {
        CompleteWith(Cancelled);
      } else {
        StartWith(Cancelled);
        CompleteWith(Result);
      }
    }

    /** `finish_app` where the app raised `e`. */
    method FinishRaised(e: Error)
      requires appFuture == Failed(e)
      modifies this`started, this`complete
      ensures started == FinishStarted(old(Abs())) && complete == FinishComplete(old(Abs()))
    {
      if started.Result? {
        CompleteWith(if raiseErrors then Failed(e) else Result);
      } else {
        StartWith(Failed(e));
        CompleteWith(Result);
      }
    }

    /** `finish_app` where the app returned. */
    method FinishReturned()
      requires appFuture.Result?
      modifies this`started, this`complete
      ensures started == FinishStarted(old(Abs())) && complete == FinishComplete(old(Abs()))
    {
      if started.Pending? {
        SettleStarted(Failed(NotComplete));
        CompleteWith(Result);
      } else if !responseComplete {
        CompleteWith(Failed(NotComplete));
      } else {
        CompleteWith(Result);
      }
    }

    /** `finish_app` */
    method FinishTheApp()
      requires !appFuture.Pending?
      modifies this`started, this`complete, this`streamClosed, this`bodyQueue
      ensures Abs() == Finish(old(Abs()))
    {
      match appFuture {
        case Cancelled => FinishCancelled();
        case Failed(e) => FinishRaised(e);
        case Result => FinishReturned();
      }
      CloseTheStream();
    }

    /** One turn of the caller's loop. */
    method RunNextCall()
      requires Valid() && calls != []
      modifies this
      ensures Valid() && Abs() == Next(old(Abs()), RunCall)
    {
      StepKeepsInv(Abs(), RunCall);
      if calls[0].FinishApp? { FinishFindsFuture(Abs()); }
      RunOneCall();
    }

    method RunOneCall()
      requires calls != [] && (calls[0].FinishApp? ==> !appFuture.Pending?)
      modifies this
      ensures Abs() == Dispatch(old(Abs()))
    {
      var c := calls[0];
      calls := calls[1..];
      match c {
        case SetStarted => StartWith(Result);
        case PutBody(b) => bodyQueue := bodyQueue + [Chunk(b)];
        case PutEnd => CloseTheStream();
        case SetAppFuture(ending) =>
          if appFuture.Pending? {
            appFuture := FutOf(ending);
            calls := calls + [FinishApp];
          }
        case FinishApp => FinishTheApp();
      }
    }

    /** `handle_async_request` after `await response_started_event`. */
    method ResumeRequest()
      requires Valid() && handler.Awaiting? && !started.Pending?
      modifies this
      ensures Valid() && Abs() == Next(old(Abs()), ResumeHandler) && !handler.Broken?
    {
      StepKeepsInv(Abs(), ResumeHandler);
      GoOn();
    }

    method GoOn()
      requires handler.Awaiting? && !started.Pending?
      modifies this
      ensures Abs() == Respond(old(Abs()))
    {
      if started.Cancelled? {
        handler := Escaped(Cancelled);
        return;
      }
      var code := status;
      if started.Failed? {
        if raiseErrors {
          handler := Escaped(started);
          return;
        }
        responseComplete := true;
        if code.None? { code := Some(500); }
        CompleteWith(Result);
        CloseTheStream();
      }
      handler := if code.Some? then Responded(code.value) else Broken;
    }

    /** The task that awaits the response is cancelled, and with it the future it awaits. */
    method CancelTheRequest()
      requires Valid() && handler.Awaiting?
      modifies this
      ensures Valid() && Abs() == Next(old(Abs()), CancelRequest)
    {
      StepKeepsInv(Abs(), CancelRequest);
      StartWith(Cancelled);
      handler := Escaped(Cancelled);
    }

    // ---------------------------------------------------------- the consumer

    method OpenTheStream()
      requires Valid() && handler.Responded? && reader.Idle?
      modifies this`reader
      ensures Valid() && Abs() == Next(old(Abs()), OpenStream)
    {
      StepKeepsInv(Abs(), OpenStream);
      reader := Reading;
    }

    /** `aclose`, ending the consumer with `r`. */
    method CloseTheReader(r: Reader)
      modifies this
      ensures Abs() == CloseReader(old(Abs()), r)
    {
      CloseTheStream();
      reader := r;
      if appFuture.Pending? {
        appFuture := Cancelled;
        calls := calls + [FinishApp];
      }
    }

    /** One round of the loop in `__aiter__`. */
    method NextItem() returns (chunk: Option<Body>)
      requires Valid() && reader.Reading? && bodyQueue != []
      modifies this
      ensures Valid() && Abs() == Next(old(Abs()), Get)
      ensures read == if chunk.Some? then old(read) + [chunk.value] else old(read)
      ensures chunk.None? <==> reader.AwaitingEnd?
      ensures chunk.None? ==> read == sent
    {
      StepKeepsInv(Abs(), Get);
      if bodyQueue[0].End? { SentinelIsLast(Abs()); }
      chunk := TakeItem();
    }

    method TakeItem() returns (chunk: Option<Body>)
      requires reader.Reading? && bodyQueue != []
      modifies this`bodyQueue, this`reader, this`read
      ensures Abs() == Next(old(Abs()), Get)
      ensures chunk == if old(bodyQueue)[0].End? then None else Some(old(bodyQueue)[0].b)
    {
      var item := bodyQueue[0];
      bodyQueue := bodyQueue[1..];
      if item.End? {
        chunk, reader := None, AwaitingEnd;
      } else {
        chunk := Some(item.b);
        read := read + [item.b];
      }
    }

    /** The end of `__aiter__` after `await app_complete`. */
    method EndOfStream() returns (how: Fut)
      requires Valid() && reader.AwaitingEnd? && !complete.Pending?
      modifies this
      ensures Valid() && Abs() == Next(old(Abs()), ResumeEnd)
      ensures how == old(complete) && reader == Drained(how)
    {
      StepKeepsInv(Abs(), ResumeEnd);
      how := complete;
      CloseTheReader(Drained(how));
    }

    /** The consumer stops before the end. If it was waiting for the app, the cancellation takes
        the future it was waiting for with it. */
    method CloseEarly()
      requires Valid() && handler.Responded? && !Stopped(reader)
      modifies this
      ensures Valid() && Abs() == Next(old(Abs()), Close)
    {
      StepKeepsInv(Abs(), Close);
      if reader.AwaitingEnd? { CompleteWith(Cancelled); }
      CloseTheReader(ClosedEarly);
    }
  }
}
