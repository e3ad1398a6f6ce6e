/**
  The HTTP client for internal calls: headers once, then the request under retry and breaker (clients.py).
 */
module ServiceClient {
  import opened Basics
  import opened Breaker
  import opened Retry

  const REQUEST_ID_HEADER := "X-Request-ID"
  const INTERNAL_TOKEN_HEADER := "X-Internal-Service-Token"
  const TENANT_ID_HEADER := "X-Tenant-ID"

  type Headers = map<string, string>

  datatype Response = Response(status: int, headers: Headers, body: string)

  /** What the network makes of one request: a response, read to its end, or a transport error. */
  datatype Wire = Responds(response: Response) | Breaks(error: Error)

  const NO_SESSION := Error({"RuntimeError", "Exception"}, "ServiceClient session is not started")

  const TRANSIENT_HTTP_ERROR := Error({"TransientHTTPError", "RuntimeError", "Exception"}, "5xx")

  // ---------------------------------------------------------------- headers

  /** The first of the two that is present and not empty, else the generated id. */
  function RequestId(given: Option<string>, context: Option<string>, generated: string): string {
    if given.Some? && given.value != "" then given.value
    else if context.Some? && context.value != "" then context.value
    else generated
  }

  /** What the logging context holds at some moment, and the id that would be generated then. */
  datatype Ambient = Ambient(tenantId: Option<string>, requestId: Option<string>, generated: string)

  /**
    The internal headers: whatever the caller adds wins; otherwise the request id and the token are there, the tenant
    if one is known (an empty one counts as known), and nothing else.
   */
  ghost predicate InternalHeaders(headers: Headers, token: string, tenantId: Option<string>,
                                  requestId: Option<string>, extra: Headers, ambient: Ambient)
  {
    && (forall k :: k in extra ==> k in headers && headers[k] == extra[k])
    && REQUEST_ID_HEADER in headers && INTERNAL_TOKEN_HEADER in headers
    && (REQUEST_ID_HEADER !in extra ==>
          var id := headers[REQUEST_ID_HEADER];
          && (requestId.Some? && requestId.value != "" ==> id == requestId.value)
          && (requestId in {None, Some("")} && ambient.requestId.Some? && ambient.requestId.value != "" ==>
                id == ambient.requestId.value)
          && (requestId in {None, Some("")} && ambient.requestId in {None, Some("")} ==> id == ambient.generated))
    && (INTERNAL_TOKEN_HEADER !in extra ==> headers[INTERNAL_TOKEN_HEADER] == token)
    && (TENANT_ID_HEADER !in extra ==>
          var tenant := if tenantId.Some? then tenantId else ambient.tenantId;
          if tenant.None? then TENANT_ID_HEADER !in headers
          else TENANT_ID_HEADER in headers && headers[TENANT_ID_HEADER] == tenant.value)
    && headers.Keys <= extra.Keys + {REQUEST_ID_HEADER, INTERNAL_TOKEN_HEADER, TENANT_ID_HEADER}
  }

  method BuildInternalHeaders(token: string, tenantId: Option<string>, requestId: Option<string>, extra: Headers,
                              ambient: Ambient)
    returns (headers: Headers)
    ensures InternalHeaders(headers, token, tenantId, requestId, extra, ambient)
  {
    var tenant := if tenantId.Some? then tenantId else ambient.tenantId;
    headers := map[REQUEST_ID_HEADER := RequestId(requestId, ambient.requestId, ambient.generated),
                   INTERNAL_TOKEN_HEADER := token];
    if tenant.Some? {
      headers := headers[TENANT_ID_HEADER := tenant.value];
    }
    headers := headers + extra;
  }

  // ---------------------------------------------------------------- one request

  /** How an attempt at a request ends. */
  function RequestOutcome(open: bool, tripOn5xx: bool, wire: Wire): Outcome<Response> {
    if !open then Raised(NO_SESSION)
    else match wire
      case Breaks(e) => Raised(e)
      case Responds(r) => if tripOn5xx && r.status >= 500 then Raised(TRANSIENT_HTTP_ERROR) else Returned(r)
  }

  /**
    A turn of the retry loop whose awaited function is a request that the network answers with `wire`.  `ambient` is
    the logging context after that await, during which other code may have changed it.
   */
  datatype Exchange = Exchange(before: seq<Event>, checkAt: real, ambient: Ambient, during: seq<Event>, wire: Wire,
                               recordAt: real, draw: real)

  function Turns(open: bool, tripOn5xx: bool, xs: seq<Exchange>): (w: seq<Turn<Response>>)
    ensures |w| == |xs|
    ensures forall i :: 0 <= i < |xs| ==> w[i].outcome == RequestOutcome(open, tripOn5xx, xs[i].wire)
  {
    seq(|xs|, i requires 0 <= i < |xs| =>
      Turn(xs[i].before, xs[i].checkAt, xs[i].during, RequestOutcome(open, tripOn5xx, xs[i].wire),
           xs[i].recordAt, xs[i].draw))
  }

  /** What goes over the wire for one attempt. */
  datatype Sent = Sent(verb: string, url: string, headers: Headers, json: Option<string>, params: Option<Headers>)

  function StripLeft(s: string): string {
    if s != "" && s[0] == '/' then StripLeft(s[1..]) else s
  }

  function StripRight(s: string): string {
    if s != "" && s[|s| - 1] == '/' then StripRight(s[..|s| - 1]) else s
  }

  /** What was sent in between is the same request `n` times. */
  ghost predicate Resent(was: seq<Sent>, now: seq<Sent>, request: Sent, n: nat) {
    |now| == |was| + n && was <= now && forall i :: |was| <= i < |now| ==> now[i] == request
  }

  /** A path is taken relative to the base address unless it is an address itself. */
  function Url(base: string, path: string): string {
    if "http" <= path then path else base + "/" + StripLeft(path)
  }

  function Slashes(n: nat): string {
    if n == 0 then "" else ['/'] + Slashes(n - 1)
  }

  lemma {:induction false} StripLeftIs(n: nat, rest: string)
    requires rest == "" || rest[0] != '/'
    ensures StripLeft(Slashes(n) + rest) == rest
  {
    if n > 0 {
      StripLeftIs(n - 1, rest);
      assert (Slashes(n) + rest)[1..] == Slashes(n - 1) + rest;
    } else {
      assert Slashes(n) + rest == rest;
    }
  }

  lemma {:induction false} StripRightIs(front: string, n: nat)
    requires front == "" || front[|front| - 1] != '/'
    ensures StripRight(front + Slashes(n)) == front
  {
    SlashesAre(n);
    if n > 0 {
      StripRightIs(front, n - 1);
      SlashesAre(n - 1);
      assert (front + Slashes(n))[..|front| + n - 1] == front + Slashes(n - 1);
    } else {
      assert front + Slashes(n) == front;
    }
  }

  lemma {:induction false} SlashesAre(n: nat)
    ensures |Slashes(n)| == n && forall i :: 0 <= i < n ==> Slashes(n)[i] == '/'
  {
    if n > 0 {
      SlashesAre(n - 1);
    }
  }

  /**
    The address of a request, base and path being joined by one slash however many they had: unless the path starts
    with "http", which makes it the address.
   */
  lemma UrlIs(front: string, m: nat, n: nat, rest: string)
    requires front == "" || front[|front| - 1] != '/'
    requires rest == "" || rest[0] != '/'
    ensures var path := Slashes(n) + rest;
            Url(StripRight(front + Slashes(m)), path) == if n == 0 && "http" <= rest then rest else front + "/" + rest
  {
    StripRightIs(front, m);
    StripLeftIs(n, rest);
    assert 0 < n ==> (Slashes(n) + rest)[0] == '/';
    assert n == 0 ==> Slashes(n) + rest == rest;
  }

  class Client {
    const baseUrl: string
    const token: string
    const policy: Policy
    const breaker: CircuitBreaker
    const tripOn5xx: bool
    var open: bool
    var sent: seq<Sent>
    var ambient: Ambient

    constructor (baseUrl: string, token: string, policy: Policy, breaker: CircuitBreaker, tripOn5xx: bool, open: bool,
                 ambient: Ambient)
      ensures this.baseUrl == StripRight(baseUrl) && this.token == token && this.policy == policy
      ensures this.breaker == breaker && this.tripOn5xx == tripOn5xx && this.open == open && sent == []
      ensures this.ambient == ambient
    {
      this.baseUrl, this.token, this.policy := StripRight(baseUrl), token, policy;
      this.breaker, this.tripOn5xx, this.open := breaker, tripOn5xx, open;
      sent, this.ambient := [], ambient;
    }

    /** One attempt: the request goes over the wire if there is a session. */
    method DoRequest(request: Sent, x: Exchange) returns (outcome: Outcome<Response>)
      modifies `sent, `ambient
      ensures sent == if open then old(sent) + [request] else old(sent)
      ensures ambient == if open then x.ambient else old(ambient)
      ensures outcome == RequestOutcome(open, tripOn5xx, x.wire)
      ensures !open ==> outcome == Raised(NO_SESSION)
      ensures open && x.wire.Breaks? ==> outcome == Raised(x.wire.error)
      ensures open && x.wire.Responds? ==>
                outcome == if tripOn5xx && x.wire.response.status >= 500 then Raised(TRANSIENT_HTTP_ERROR)
                           else Returned(x.wire.response)
    {
      if !open {
        return Raised(NO_SESSION);
      }
      sent := sent + [request];
      ambient := x.ambient;
      match x.wire
      case Breaks(e) => return Raised(e);
      case Responds(r) =>
        if tripOn5xx && r.status >= 500 {
          return Raised(TRANSIENT_HTTP_ERROR);
        }
        return Returned(r);
    }

    /** One round of the retry loop: ask the breaker, attempt the request if admitted, record the outcome. */
    method Round(request: Sent, world: seq<Exchange>, turns: seq<Turn<Response>>, ghost g: Guard, n: nat)
      returns (granted: bool, outcome: Outcome<Response>)
      requires n < |world| && turns == Turns(open, tripOn5xx, world)
      requires HasSeen(breaker, g, History(policy, turns, n))
      modifies `sent, `ambient, breaker
      ensures granted <==> Admits(policy, g, turns, n)
      ensures granted ==> outcome == turns[n].outcome && HasSeen(breaker, g, History(policy, turns, n + 1))
      ensures !granted ==> HasSeen(breaker, g, History(policy, turns, n) + Opening(turns[n]))
      ensures sent == if granted && open then old(sent) + [request] else old(sent)
    {
      granted := Ask(policy, breaker, g, turns, n);
      if granted {
        outcome := DoRequest(request, world[n]);
        Record(policy, breaker, g, turns, n);
      } else {
        outcome := turns[n].outcome;
      }
    }

    /**
      A request under retry and breaker.  Every attempt sends the very same request, with the headers of the moment at
      which the call was made, whatever the logging context is later.  With `tripOn5xx` no response with a status of
      500 or more comes back.
     */
    method Request(verb: string, path: string, json: Option<string>, params: Option<Headers>, headers: Headers,
                   tenantId: Option<string>, requestId: Option<string>, world: seq<Exchange>)
      returns (result: Result<Response>, calls: nat, request: Sent)
      requires policy.maxAttempts <= |world|
      modifies `sent, `ambient, breaker
      ensures Describes(policy, old(GuardOf(breaker)), Turns(open, tripOn5xx, world), result, calls)
      ensures HasSeen(breaker, old(GuardOf(breaker)), Seen(policy, Turns(open, tripOn5xx, world), result, calls))
      ensures Resent(old(sent), sent, request, if open then calls else 0)
      ensures request == Sent(verb, Url(baseUrl, path), request.headers, json, params)
      ensures InternalHeaders(request.headers, token, tenantId, requestId, headers, old(ambient))
      ensures result.Ok? && tripOn5xx ==> result.value.status < 500
    {
      var final := BuildInternalHeaders(token, tenantId, requestId, headers, ambient);
      request := Sent(verb, Url(baseUrl, path), final, json, params);
      var turns := Turns(open, tripOn5xx, world);
      result, calls := Attempts(request, world, turns, GuardOf(breaker));
    }

    /** A round, and whether it ends the call: `last` is how. */
    method NextRound(request: Sent, world: seq<Exchange>, turns: seq<Turn<Response>>, ghost g: Guard, n: nat)
      returns (calls: nat, last: Option<Result<Response>>)
      requires n < policy.maxAttempts <= |world| && turns == Turns(open, tripOn5xx, world)
      requires Going(policy, g, turns, n) && HasSeen(breaker, g, History(policy, turns, n))
      modifies `sent, `ambient, breaker
      ensures n <= calls <= n + 1 && sent == if n < calls && open then old(sent) + [request] else old(sent)
      ensures last.Some? ==>
                && Describes(policy, g, turns, last.value, calls)
                && HasSeen(breaker, g, Seen(policy, turns, last.value, calls))
      ensures last.None? ==>
                && calls == n + 1 < policy.maxAttempts
                && Going(policy, g, turns, calls) && HasSeen(breaker, g, History(policy, turns, calls))
    {
      var granted, outcome := Round(request, world, turns, g, n);
      if !granted {
        StopsRefused(policy, g, turns, n);
        return n, Some(Refused);
      }
      StopsAfterAttempt(policy, g, turns, n);
      match outcome
      case Returned(r) =>
        return n + 1, Some(Ok(r));
      case Raised(e) =>
        last := if !Retryable(policy, e) || n + 1 >= policy.maxAttempts then Some(Result.Failed(e)) else None;
        return n + 1, last;
    }

    method Attempts(request: Sent, world: seq<Exchange>, turns: seq<Turn<Response>>, ghost g: Guard)
      returns (result: Result<Response>, calls: nat)
      requires policy.maxAttempts <= |world| && turns == Turns(open, tripOn5xx, world)
      requires HasSeen(breaker, g, [])
      modifies `sent, `ambient, breaker
      ensures Describes(policy, g, turns, result, calls) && HasSeen(breaker, g, Seen(policy, turns, result, calls))
      ensures Resent(old(sent), sent, request, if open then calls else 0)
    {
      ghost var was := sent;
      calls := 0;
      while calls < policy.maxAttempts
        invariant calls == 0 || calls < policy.maxAttempts
        invariant Resent(was, sent, request, if open then calls else 0)
        invariant Going(policy, g, turns, calls) && HasSeen(breaker, g, History(policy, turns, calls))
        decreases policy.maxAttempts - calls
      {
        var last;
        calls, last := NextRound(request, world, turns, g, calls);
        if last.Some? {
          return last.value, calls;
        }
      }
      result := NoAttempt;
    }
  }

  // ---------------------------------------------------------------- requests that are answered

  /** The breaker is told of no failure. */
  ghost predicate NoFailures(es: seq<Event>) {
    forall e :: e in es ==> !e.Failed?
  }

  /**
    The first exchange of a request is an HTTP response that the client takes as an answer (any at all, if it does
    not trip on 5xx, else one with a status below 500), and nobody else reports a failure around it.
   */
  ghost predicate Answered(trip: bool, xs: seq<Exchange>) {
    && xs != [] && xs[0].wire.Responds? && (trip ==> xs[0].wire.response.status < 500)
    && NoFailures(xs[0].before) && NoFailures(xs[0].during)
  }

  lemma {:induction false} NoFailureKeepsClosed(c: Config, b: Status, es: seq<Event>)
    requires b.state.Closed? && NoFailures(es)
    ensures var after := Run(c, b, es);
            after.state.Closed? && (es != [] && es[|es| - 1].Succeeded? ==> after.failures == 0)
  {
    if es != [] {
      assert es[|es| - 1] in es;
      NoFailureKeepsClosed(c, b, es[..|es| - 1]);
    }
  }

  /**
    Such a request, on a closed breaker: one attempt, its response returned whatever the status, and the breaker
    closed with no failure.
   */
  lemma AnsweredRequest(p: Policy, c: Config, b: Status, trip: bool, xs: seq<Exchange>, result: Result<Response>,
                        calls: nat)
    requires 0 < p.maxAttempts <= |xs| && b.state.Closed? && Answered(trip, xs)
    requires Describes(p, Guarded(c, b), Turns(true, trip, xs), result, calls)
    ensures calls == 1 && result == Ok(xs[0].wire.response)
    ensures var after := Run(c, b, Seen(p, Turns(true, trip, xs), result, calls));
            after.state.Closed? && after.failures == 0
  {
    var world := Turns(true, trip, xs);
    var g := Guarded(c, b);
    var opening, closing := Opening(world[0]), Closing(p, world[0]);
    assert History(p, world, 0) + opening == opening;
    NoFailureKeepsClosed(c, b, opening);
    assert Admits(p, g, world, 0);
    StopsAfterAttempt(p, g, world, 0);
    DescribesOne(p, g, world, result, calls, Ok(xs[0].wire.response), 1);
    assert History(p, world, 1) == opening + closing;
    NoFailureKeepsClosed(c, b, opening + closing);
    assert Seen(p, world, result, 1) == opening + closing;
  }

  /** A request that is answered, on a breaker with status `b` that ends as `after`. */
  ghost predicate Performs(p: Policy, c: Config, b: Status, trip: bool, xs: seq<Exchange>, result: Result<Response>,
                           calls: nat, after: Status)
  {
    && 0 < p.maxAttempts <= |xs| && Answered(trip, xs)
    && Describes(p, Guarded(c, b), Turns(true, trip, xs), result, calls)
    && after == Run(c, b, Seen(p, Turns(true, trip, xs), result, calls))
  }

  /** So over every sequence of such requests the breaker stays closed, with zero failures after each. */
  lemma {:induction false} AnsweredClientNeverTrips(p: Policy, c: Config, trip: bool, bs: seq<Status>,
                                                    requests: seq<seq<Exchange>>, results: seq<Result<Response>>,
                                                    calls: seq<nat>, k: nat)
    requires |bs| == |requests| + 1 && |results| == |calls| == |requests| && k <= |requests|
    requires bs[0].state.Closed?
    requires forall i :: 0 <= i < |requests| ==>
               Performs(p, c, bs[i], trip, requests[i], results[i], calls[i], bs[i + 1])
    ensures bs[k].state.Closed? && (0 < k ==> bs[k].failures == 0)
    ensures 0 < k ==>
              && Answered(trip, requests[k - 1])
              && results[k - 1] == Ok(requests[k - 1][0].wire.response) && calls[k - 1] == 1
  {
    if 0 < k {
      var i := k - 1;
      AnsweredClientNeverTrips(p, c, trip, bs, requests, results, calls, i);
      assert Performs(p, c, bs[i], trip, requests[i], results[i], calls[i], bs[i + 1]);
      AnsweredRequest(p, c, bs[i], trip, requests[i], results[i], calls[i]);
    }
  }

  // ---------------------------------------------------------------- requests that meet server errors

  /** Nobody else uses the breaker around this exchange, and its answer has a status of 500 or more. */
  ghost predicate ServerError(x: Exchange) {
    x.before == [] && x.during == [] && x.wire.Responds? && x.wire.response.status >= 500
  }

  /** Every attempt that the policy allows meets one, each asked for within the recovery window of the last. */
  ghost predicate ServerErrors(p: Policy, c: Config, xs: seq<Exchange>) {
    && p.maxAttempts <= |xs|
    && (forall i :: 0 <= i < p.maxAttempts ==> ServerError(xs[i]))
    && forall i :: 0 < i < p.maxAttempts ==> ShortPause(c, Turns(true, true, xs), i)
  }

  /**
    A client that trips on 5xx, with a policy that lists a type of the transient error, on a closed breaker: it tries
    until the attempts are used up, the last error being the answer, or until the breaker trips and refuses.
   */
  lemma ServerErrorsTrip(p: Policy, c: Config, b: Status, xs: seq<Exchange>, result: Result<Response>, calls: nat,
                         listed: string)
    requires listed in {"TransientHTTPError", "RuntimeError", "Exception"} && listed in p.retryOn
    requires 0 < p.maxAttempts && ServerErrors(p, c, xs)
    requires b.state.Closed? && b.failures < c.failureThreshold
    requires Describes(p, Guarded(c, b), Turns(true, true, xs), result, calls)
    ensures calls == Min(p.maxAttempts, c.failureThreshold - b.failures)
    ensures result == if c.failureThreshold - b.failures < p.maxAttempts then Refused
                      else Result.Failed(TRANSIENT_HTTP_ERROR)
  {
    var world := Turns(true, true, xs);
    forall i | 0 <= i < p.maxAttempts
      ensures FailsAlone(p, world, i) && world[i].outcome == Raised(TRANSIENT_HTTP_ERROR)
    {
      assert ServerError(xs[i]);
    }
    AloneOnClosedBreaker(p, c, b, world, result, calls);
  }
}
