# yeps-response: the response finaliser

`response.js` is a small class. A handler builds it around the exchange
context and then calls `resolve(data)`. If the Node response is not yet
finished, `resolve` awaits `data`. A string is written as it is; anything else
goes through `JSON.stringify`. The text is written with a single `res.end`.
On every path `resolve` returns a rejected promise. That rejection is how a
yeps handler chain is told to stop.

The model is functional:

- `Exchange` (`exchange.dfy`): the response as an immutable `Transport` record.
  It holds the `finished` flag, the status code, the headers, the body written
  so far and a count of `end` calls. `End` is `res.end(chunk)`, and
  `WriteOnce` is the exchange invariant: at most one `end`, and finished
  exactly when it happened.
- `Promise` (`promise.dfy`): a `Payload` is a plain value, a promise that
  adopts another payload, or a rejected promise with a `Reason`. `Await`
  unwraps it to a `Settled` value.
- `Json` (`json.dfy`): the values a handler may pass (null, booleans,
  integers, strings, arrays, objects) and `Stringify`. Its string escaping
  follows QuoteJSONString in section 25.5.2.3 of ECMA-262: short escapes for
  the seven usual characters, and lower-case `\u00xx` for the other control
  characters.
- `JsonDecode` and `JsonRoundTrip` (`json_decode.dfy`, `json_roundtrip.dfy`):
  a decoder for the compact JSON text, and the proof that it inverts
  `Stringify`. This is how the model states what the serialised body means:
  it decodes back to the value.
- `Resolver` (`resolver.dfy`): the class becomes `Response(ctx)` over a
  `Context(res)`. The constructor only captures the context
  (response.js:6-10), so the datatype constructor models it. `Resolve` is
  `resolve`. It returns a `Step`: the object with its response after the
  call, how the returned promise settles, and whether the call reached the
  `await`. The stop signal `Stop` is `Promise.reject()`, a rejection with
  `undefined`.

The test suite expects more than `response.js` provides. It calls `redirect`
(tests/index.js:144, 167), but `response.js` has no `redirect`. It also expects
status 500 in two tests (tests/index.js:183-247), but `response.js` maps
nothing to a status code. In the first of these (tests/index.js:183-215) the
payload is a rejected promise. It throws out of the `await` on line 21:
nothing is written, and the promise `resolve` returns rejects with that
reason. The model follows this, and the 500 itself comes from error handling
outside this component. In the second (tests/index.js:217-247) the payload is
`new Error()`. In `response.js` that is an ordinary object: it is serialised
to `{}` and written at status 200, and only the stop signal is returned. So no
error reaches any middleware, and that test contradicts `response.js` as
written. `Resolver.ResolveErrorValueExample` states what `response.js` does
with that payload.

The guard on line 18 runs before the suspension on line 21, and line 27 calls
`end` without checking `finished` again. Calls made one after another, each
awaited before the next, therefore reach `end` at most once. Two calls whose
awaits overlap can both reach it; `Resolver.ResolveOverlapped` models that
case.

## Model

| member | source | states |
|---|---|---|
| `Resolver.Resolve` | response.js:12-31 | Every call returns a rejection, so the chain stops. The status code and headers are never changed. On a finished response the call returns the object unchanged, does not await its argument, and rejects with `undefined`. On a response that is not finished it always awaits. On a finished response the argument is never awaited, so a rejected promise passed in stays unhandled. It keeps the at-most-one-`end` invariant. |
| `Resolver.PastGuard` | response.js:21-30 | The part of a call after the guard. It always awaits and always rejects, and never changes the status code or headers. It adds exactly one `end` when the payload settles to a value and none when it rejects, without looking at `finished` again. |
| `Resolver.Serialise` | response.js:23-25 | A string value is written unchanged. Any other value is written as JSON text that decodes back to exactly that value. |
| `Resolver.ResolveWritesOnce` | response.js:18-28 | On an unfinished response, a payload that settles to a value causes exactly one `end`. The response becomes finished, its body grows by the value's text, and the call still stops the chain. |
| `Resolver.ResolveRejectionEscapes` | response.js:21 | On an unfinished response, a payload whose promise rejects leaves the response as it was. The returned promise rejects with the same reason. When that reason is `undefined`, the rejection is the stop signal itself. |
| `Resolver.ResolveWritesIff` | response.js:18-27 | A call writes (one more `end`) if and only if the response was unfinished and the payload settled to a value. Otherwise the write count is unchanged. |
| `Resolver.ResolveUnwraps` | response.js:21 | Wrapping the argument in any number of promises does not change what is written or how the call settles. |
| `Resolver.ResolveIdempotent` | response.js:18-27 | A second call with the same argument leaves the response as the first call left it, and settles the same way. |
| `Resolver.ResolveAfterWrite` | response.js:18-21 | After a call has written, any later call is a no-op that never awaits its argument. The first body stays. |
| `Resolver.ResolveAllFinished` | response.js:18 | On a finished response, any sequence of calls made one after another leaves the object unchanged. |
| `Resolver.ResolveAllFirstWins` | response.js:18-28 | Over any sequence of calls on an unfinished response, made one after another with each awaited before the next, the final response equals one `end` with the text of the first payload that settles to a value. If no payload settles to a value, the response is unchanged. |
| `Resolver.ResolveAllFromFresh` | response.js:12-31 | From a fresh response, any number of calls made one after another, each awaited before the next, run `end` at most once. The response is finished exactly when some payload settled to a value, and the status code stays 200. |
| `Resolver.OverlappedCallsEndTwice` | response.js:18-27 | `Resolver.ResolveOverlapped` models two calls that both pass the `finished` test before either writes. If two such calls on an unfinished response both get values, `end` runs twice. The second text is appended to the first, and the at-most-one-`end` invariant no longer holds. |
| `Resolver.ResolveStringExample` | tests/index.js:26-57 | `resolve('test')` on a fresh response writes `test` with status 200 and stops the chain, so the later handler that would write `test2` never runs. |
| `Resolver.FirstWriterWinsExample` | tests/index.js:59-88 | A handler already ended the response with `sent`. A later `resolve('test')` leaves body `sent`, status 200 and one `end`. |
| `Resolver.ResolvePromiseExample` | tests/index.js:90-112 | `resolve(Promise.resolve('test'))` writes `test`. |
| `Resolver.ResolveObjectExample` | tests/index.js:114-135 | `resolve({ message: 'Ok' })` writes `{"message":"Ok"}`. |
| `Resolver.ResolveErrorValueExample` | response.js:23-27 | `resolve(new Error())`, whose value serialises as the empty object: body `{}`, status 200, finished, and only the stop signal. This contradicts tests/index.js:217-247, which expects status 500. |
| `Promise.AwaitFlattens` | response.js:21 | Awaiting a payload wrapped in any number of promises settles the same way as awaiting the payload itself. |
| `Promise.AwaitFulfils` | response.js:21 | `await` yields a value `v` if and only if the payload is `v` behind some number of promises. |
| `JsonRoundTrip.ParseStringify` | response.js:24 | Decoding the `JSON.stringify` text of any value gives the value back. |
| `JsonRoundTrip.StringifyInjective` | response.js:24 | Two different values never serialise to the same body. |
| `Json.StringifySingleMember` | response.js:24 | An object with one string member, whose key and value contain no character that needs escaping, serialises as `{"key":"value"}`. |

## Left out

- `redirect(location, code)`: it is not in `response.js`, although the test suite calls it.
- Mapping a rejected payload to a status code and message: `response.js` lets the rejection escape, and the 500 in tests/index.js:183-215 comes from error handling outside this component. The 500 expected in tests/index.js:217-247 is not produced by `response.js` at all.
- `debug` logging (response.js:1-3, 7, 13-19): diagnostics only. It has no effect on the response.
- Promise scheduling and concurrency: `await` is modelled as unwrapping a `Payload`, and a payload that never settles is not modelled.
- Node's `res.end` internals: `End` counts every call and appends its chunk. Node's own handling of a second `end` is not modelled. Calls made one after another never make a second `end`. Overlapping calls can (`Resolver.OverlappedCallsEndTwice`), and what Node then sends is not modelled.
- More than two overlapping calls, and partial overlaps where a later call starts after an earlier one has written: only the two-call case where both pass the guard is modelled.
- Unhandled rejections: on a finished response `resolve` never awaits its argument. A rejected promise passed in is then never handled, and Node reports `unhandledRejection`, which by default ends the process on current Node versions. The model only records `awaited = false`.
- Calling `resolve()` with no argument: `JSON.stringify(undefined)` is `undefined`, so `end` writes nothing. There is no `undefined` payload in the model.
- `Json.Stringify`: covers only null, booleans, integers, strings, arrays and objects. Floating-point numbers are left out. `JInt` stands for a JavaScript number only when its magnitude is at most 2^53. Beyond that, not every integer is a JavaScript number, and those that are print with the double's shortest digits (`2**64` prints as `18446744073709552000`); from 10^21 on JavaScript also switches to exponent form. The model writes every integer's exact decimal digits. `JsonValue` allows an object with two members of the same key, which no JavaScript object has; `Stringify` writes both. Also left out: `undefined` and function members, `toJSON`, cycles, and the engine's reordering of integer-like object keys. `JsonValue` has no `Error` constructor; `Resolver.ResolveErrorValueExample` uses the empty object in its place. JavaScript strings are UTF-16 code units, and QuoteJSONString escapes a lone surrogate as `\udxxx`. A Dafny `char` is a Unicode scalar value and cannot hold a lone surrogate, so that escape is not modelled.
- Resolver.Serialise: for an integer of magnitude above 2^53 it writes the exact decimal digits, while `JSON.stringify` writes the shortest digits of the nearest double (`2**64` gives `18446744073709552000`), so for such integers its body differs from the source's. It is faithful for integers of magnitude at most 2^53.
- The handler-chain runner, the HTTP server and the test client: framework plumbing. The chain's reaction to the rejection is stated only as "the returned promise is rejected".
