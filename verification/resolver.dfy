/**
 The response finaliser: an object built around one exchange's context whose
 `resolve(data)` writes `data` as the response body unless the response is
 already finished, and always answers with a rejection so that the handler
 chain stops.
 */
module Resolver {
  import opened Wrappers
  import opened Json
  import JsonDecode
  import JsonRoundTrip
  import opened Promise
  import opened Exchange

  /** The exchange context; the finaliser only uses its response. */
  datatype Context = Context(res: Transport)

  /** The finaliser object: it keeps the context it was constructed with. */
  datatype Response = Response(ctx: Context)

  /** What one call of `resolve` leaves behind: the object with its response
      as the call left it, how the returned promise settles, and whether the
      call awaited its argument. */
  datatype Step = Step(response: Response, outcome: Settled<()>, awaited: bool)

  /** The stop signal: `Promise.reject()` without a reason. */
  const Stop: Settled<()> := Rejected(Undefined)

  /** The body text for a settled value: strings are written as they are,
      everything else as its JSON text, which decodes back to the value. */
  function Serialise(v: JsonValue): (text: string)
    ensures v.JString? ==> text == v.s
    ensures !v.JString? ==> JsonDecode.Parse(text) == Some(v)
  {
    if v.JString? then v.s
    else
      JsonRoundTrip.ParseStringify(v);
      Stringify(v)
  }

  /** `resolve(data)`. */
  function Resolve(response: Response, data: Payload): (step: Step)
    ensures step.outcome.Rejected?
    ensures step.response.ctx.res.statusCode == response.ctx.res.statusCode
    ensures step.response.ctx.res.headers == response.ctx.res.headers
    ensures response.ctx.res.finished ==> step == Step(response, Stop, false)
    ensures !response.ctx.res.finished ==> step.awaited
    ensures WriteOnce(response.ctx.res) ==> WriteOnce(step.response.ctx.res)
  {
    if response.ctx.res.finished then Step(response, Stop, false)
    else PastGuard(response, data)
  }

  /** What `resolve` does once it has found the response not finished: await
      the argument, write its text with `end` and reject with `undefined`, or
      reject with the argument's own reason. `finished` is not looked at again. */
  function PastGuard(response: Response, data: Payload): (step: Step)
    ensures step.awaited && step.outcome.Rejected?
    ensures step.response.ctx.res.statusCode == response.ctx.res.statusCode
    ensures step.response.ctx.res.headers == response.ctx.res.headers
    ensures step.response.ctx.res.writes == response.ctx.res.writes + (if Await(data).Fulfilled? then 1 else 0)
  {
    var res := response.ctx.res;
    match Await(data)
    case Rejected(reason) => Step(response, Rejected(reason), true)
    case Fulfilled(v) => Step(Response(Context(End(res, Serialise(v)))), Stop, true)
  }

  // ---------------------------------------------------------------------
  // One call

  /** On a response that is not finished, a payload that settles to a value
      causes exactly one `end`, with the value's body text, and finishes the
      response; the call still stops the chain. */
  lemma ResolveWritesOnce(response: Response, data: Payload, v: JsonValue)
    requires !response.ctx.res.finished
    requires Await(data) == Fulfilled(v)
    ensures var res, res' := response.ctx.res, Resolve(response, data).response.ctx.res;
      && res'.finished
      && res'.writes == res.writes + 1
      && res'.body == res.body + Serialise(v)
      && Resolve(response, data).outcome == Stop
  {
  }

  /** A payload whose promise rejects escapes from the await: nothing is
      written and the returned promise rejects with the same reason. */
  lemma ResolveRejectionEscapes(response: Response, data: Payload, reason: Reason)
    requires !response.ctx.res.finished
    requires Await(data) == Rejected(reason)
    ensures Resolve(response, data) == Step(response, Rejected(reason), true)
  {
  }

  /** A call writes exactly when the response was not finished and the payload
      settled to a value. */
  lemma ResolveWritesIff(response: Response, data: Payload)
    ensures var res, res' := response.ctx.res, Resolve(response, data).response.ctx.res;
      (res'.writes == res.writes + 1 <==> !res.finished && Await(data).Fulfilled?)
      && (res'.writes == res.writes <==> res.finished || Await(data).Rejected?)
  {
  }

  /** Promise layers around the argument make no difference to what is written
      or how the call settles. */
  lemma ResolveUnwraps(response: Response, data: Payload, n: nat)
    ensures Resolve(response, Defer(data, n)) == Resolve(response, data)
  {
    if !response.ctx.res.finished {
      AwaitFlattens(data, n);
    }
  }

  // ---------------------------------------------------------------------
  // Repeated calls

  /** Calling `resolve` again with the same argument changes nothing more. */
  lemma ResolveIdempotent(response: Response, data: Payload)
    ensures var once := Resolve(response, data);
      && Resolve(once.response, data).response == once.response
      && Resolve(once.response, data).outcome == once.outcome
  {
  }

  /** Once a call has written, every later call is a no-op that does not even
      await its argument: the first writer's body stays. */
  lemma ResolveAfterWrite(response: Response, data: Payload, later: Payload)
    requires Resolve(response, data).response.ctx.res.finished
    ensures var once := Resolve(response, data).response;
      Resolve(once, later) == Step(once, Stop, false)
  {
  }

  /** The object after `resolve` has been called with each payload in turn. */
  function ResolveAll(response: Response, payloads: seq<Payload>): Response
    decreases |payloads|
  {
    if |payloads| == 0 then response
    else ResolveAll(Resolve(response, payloads[0]).response, payloads[1..])
  }

  /** The value of the first payload that settles to one, if any. */
  function FirstFulfilled(payloads: seq<Payload>): Option<JsonValue>
    decreases |payloads|
  {
    if |payloads| == 0 then None
    else
      match Await(payloads[0])
      case Fulfilled(v) => Some(v)
      case Rejected(_) => FirstFulfilled(payloads[1..])
  }

  /** On a finished response any number of calls leave it as it is. */
  lemma {:induction false} ResolveAllFinished(response: Response, payloads: seq<Payload>)
    requires response.ctx.res.finished
    ensures ResolveAll(response, payloads) == response
    decreases |payloads|
  {
    if |payloads| > 0 {
      ResolveAllFinished(response, payloads[1..]);
    }
  }

  /** Of any number of calls on a response that is not finished, the first
      whose payload settles to a value writes, and it is the only one that
      does; when none settles to a value the response is left as it was. */
  lemma {:induction false} ResolveAllFirstWins(response: Response, payloads: seq<Payload>)
    requires !response.ctx.res.finished
    ensures var res, res' := response.ctx.res, ResolveAll(response, payloads).ctx.res;
      match FirstFulfilled(payloads)
      case Some(v) => res' == End(res, Serialise(v))
      case None => res' == res
    decreases |payloads|
  {
    if |payloads| > 0 {
      var next := Resolve(response, payloads[0]).response;
      match Await(payloads[0])
      case Fulfilled(v) =>
        ResolveAllFinished(next, payloads[1..]);
      case Rejected(_) =>
        ResolveAllFirstWins(next, payloads[1..]);
    }
  }

  /** From a fresh response, `end` runs at most once however many times
      `resolve` is called, the response is finished exactly when some payload
      settled to a value, and the status code stays at its default. */
  lemma ResolveAllFromFresh(payloads: seq<Payload>)
    ensures var res := ResolveAll(Response(Context(Fresh())), payloads).ctx.res;
      && res.writes <= 1
      && (res.finished <==> FirstFulfilled(payloads).Some?)
      && res.statusCode == DefaultStatus
  {
    ResolveAllFirstWins(Response(Context(Fresh())), payloads);
  }

  // ---------------------------------------------------------------------
  // Overlapping calls

  /** Two calls whose awaits overlap, as when a handler calls `resolve` twice
      without awaiting the first, or two handlers run side by side: both test
      `finished` before either reaches `end`, then each completes in turn. */
  function ResolveOverlapped(response: Response, first: Payload, second: Payload): Response
  {
    if response.ctx.res.finished then response
    else PastGuard(PastGuard(response, first).response, second).response
  }

  /** The finished test happens before the await and is not repeated, so two
      overlapping calls whose payloads both settle to values both run `end`:
      the exchange invariant is broken and the second body is appended. */
  lemma OverlappedCallsEndTwice(response: Response, first: Payload, second: Payload, a: JsonValue, b: JsonValue)
    requires !response.ctx.res.finished
    requires Await(first) == Fulfilled(a) && Await(second) == Fulfilled(b)
    ensures var res, res' := response.ctx.res, ResolveOverlapped(response, first, second).ctx.res;
      && res'.writes == res.writes + 2
      && res'.body == res.body + Serialise(a) + Serialise(b)
      && !WriteOnce(res')
  {
  }

  // ---------------------------------------------------------------------
  // The exchanges the test suite drives

  /** A handler resolves with `'test'`: body `test`, status 200, and the chain
      stops, so a later handler never writes `test2`. */
  lemma ResolveStringExample()
    ensures var step := Resolve(Response(Context(Fresh())), Value(JString("test")));
      && step.response.ctx.res.body == "test"
      && step.response.ctx.res.statusCode == 200
      && step.outcome == Stop
  {
  }

  /** A handler has already ended the response with `sent`; a later
      `resolve('test')` keeps body `sent` and status 200. */
  lemma FirstWriterWinsExample()
    ensures var sent := Response(Context(End(Fresh(), "sent")));
      && Resolve(sent, Value(JString("test"))).response.ctx.res.body == "sent"
      && Resolve(sent, Value(JString("test"))).response.ctx.res.statusCode == 200
      && Resolve(sent, Value(JString("test"))).response.ctx.res.writes == 1
  {
  }

  /** `resolve(Promise.resolve('test'))` writes `test`. */
  lemma ResolvePromiseExample()
    ensures Resolve(Response(Context(Fresh())), Deferred(Value(JString("test")))).response.ctx.res.body == "test"
  {
  }

  /** `resolve({ message: 'Ok' })` writes `{"message":"Ok"}`. The key and the
      text are parameters pinned by the precondition rather than literals in
      the statement, so that the solver does not unfold `Stringify` on the
      literal character by character. */
  lemma ResolveObjectExample(key: string, text: string)
    requires key == "message" && text == "Ok"
    ensures Resolve(Response(Context(Fresh())), Value(JObject([(key, JString(text))]))).response.ctx.res.body
      == "{\"message\":\"Ok\"}"
  {
    StringifySingleMember(key, text);
  }

  /** `resolve(new Error())`: an `Error` has no enumerable own properties, so
      `JSON.stringify` gives `{}`, modelled here as the empty object. The body
      is `{}`, the status stays 200 and the call rejects only with the stop
      signal, so no error reaches any later middleware. */
  lemma ResolveErrorValueExample()
    ensures var step := Resolve(Response(Context(Fresh())), Value(JObject([])));
      && step.response.ctx.res.body == "{}"
      && step.response.ctx.res.statusCode == 200
      && step.response.ctx.res.finished
      && step.outcome == Stop
  {
  }
}
