/**
 The outbound half of one HTTP exchange, as the finaliser uses it: Node's
 response object reduced to its `finished` flag, status code, headers, the body
 written so far, and a count of calls to `end`.
 */
module Exchange {

  datatype Transport = Transport(
    finished: bool,
    statusCode: int,
    headers: map<string, string>,
    body: string,
    writes: nat)

  /** Node's default status code for a response nobody set one on. */
  const DefaultStatus := 200

  /** A response before any handler touched it. */
  function Fresh(): Transport
  {
    Transport(false, DefaultStatus, map[], "", 0)
  }

  /** `res.end(chunk)`: write the last chunk and finish the response. Every
      call is counted, so a second call on one exchange shows up in `writes`. */
  function End(t: Transport, chunk: string): Transport
  {
    t.(finished := true, body := t.body + chunk, writes := t.writes + 1)
  }

  /** The exchange invariant: `end` ran at most once, and the response is
      finished exactly when it ran. */
  predicate WriteOnce(t: Transport)
  {
    t.writes <= 1 && (t.finished <==> t.writes == 1)
  }
}
