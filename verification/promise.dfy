/**
 Promises as the finaliser sees them: a payload is a plain value, a promise
 that adopts another payload once it settles, or a promise rejected with a
 reason. Scheduling is not modelled; awaiting a payload is unwrapping it.
 */
module Promise {
  import opened Json

  /** Why a promise was rejected. `Promise.reject()` without an argument
      rejects with `undefined`. */
  datatype Reason = Undefined | Error(message: string)

  /** How a promise settles. */
  datatype Settled<+T> = Fulfilled(value: T) | Rejected(reason: Reason)

  /** What a handler passes to the finaliser. */
  datatype Payload =
    | Value(v: JsonValue)
    | Deferred(next: Payload)
    | Rejecting(reason: Reason)

  /** `await p`: a plain value is itself, a promise adopts whatever the payload
      it waits for settles to, a rejected promise throws its reason. */
  function Await(p: Payload): Settled<JsonValue>
  {
    match p
    case Value(v) => Fulfilled(v)
    case Deferred(next) => Await(next)
    case Rejecting(reason) => Rejected(reason)
  }

  /** `p` behind `n` layers of promises. */
  function Defer(p: Payload, n: nat): (d: Payload)
    ensures n > 0 ==> d.Deferred?
  {
    if n == 0 then p else Deferred(Defer(p, n - 1))
  }

  /** However many promises a payload is wrapped in, awaiting it settles the
      same way as awaiting the payload itself. */
  lemma {:induction false} AwaitFlattens(p: Payload, n: nat)
    ensures Await(Defer(p, n)) == Await(p)
  {
    if n > 0 {
      AwaitFlattens(p, n - 1);
    }
  }

  /** Awaiting fulfils exactly when the innermost payload is a plain value,
      and then with that value. */
  lemma {:induction false} AwaitFulfils(p: Payload, v: JsonValue)
    ensures Await(p) == Fulfilled(v) <==> exists n: nat :: p == Defer(Value(v), n)
  {
    if Await(p) == Fulfilled(v) {
      var n := Depth(p);
      DeferDepth(p, v);
      assert p == Defer(Value(v), n);
    }
    if exists n: nat :: p == Defer(Value(v), n) {
      var n: nat :| p == Defer(Value(v), n);
      AwaitFlattens(Value(v), n);
    }
  }

  /** Number of promise layers around the innermost payload. */
  function Depth(p: Payload): nat
  {
    if p.Deferred? then 1 + Depth(p.next) else 0
  }

  lemma {:induction false} DeferDepth(p: Payload, v: JsonValue)
    requires Await(p) == Fulfilled(v)
    ensures p == Defer(Value(v), Depth(p))
  {
    if p.Deferred? {
      DeferDepth(p.next, v);
    }
  }
}
