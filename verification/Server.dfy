/** The middleware chain in its order, and the load one client can put on the update path. */
module Server {
  import opened Wrappers
  import RateLimiter
  import Retry

  /**
   What a request brings and what it would meet on the update route: whether its body parses, the
   ownership check, and how each call of `UpdatePrice` and each read of the new round would end.
   */
  datatype Http = Http(
    verb: string,
    path: string,
    authorization: string,
    forwardedFor: string,
    realIP: string,
    remoteAddr: string,
    at: int,
    parses: bool,
    isOwner: Result<bool, ()>,
    submitting: Retry.Context,
    submit: nat -> Result<(), ()>,
    confirming: Retry.Context,
    confirm: nat -> Result<(), ()>)

  /** `Routed`: the request reached another route than the update. */
  datatype Status = Ok | BadRequest | Unauthorized | TooManyRequests | Failed | Routed

  /** The key under which the limiter counts the request. */
  function ClientOf(h: Http): (key: string)
    ensures h.forwardedFor != "" ==> ',' !in key && (key == h.forwardedFor || key + "," <= h.forwardedFor)
    ensures h.forwardedFor == "" ==> key == if h.realIP != "" then h.realIP else h.remoteAddr
  {
    RateLimiter.ClientKey(h.forwardedFor, h.realIP, h.remoteAddr)
  }

  function LimiterView(h: Http): RateLimiter.Request {
    RateLimiter.Request(ClientOf(h), h.at)
  }

  const BEARER := "Bearer "

  predicate Authorized(h: Http, apiKey: string) {
    h.path == "/health" || h.authorization == BEARER + apiKey
  }

  predicate IsPreflight(h: Http) {
    h.verb == "OPTIONS"
  }

  /** How often serving the request calls `UpdatePrice`, given the limiter's table. */
  function Updates(table: RateLimiter.Table, h: Http, apiKey: string): (n: nat)
    ensures n <= Retry.MAX_ATTEMPTS
  {
    if && !IsPreflight(h) && RateLimiter.Admits(table, LimiterView(h)) && Authorized(h, apiKey)
       && h.path == "/updatePrice" && h.parses && h.isOwner == Success(true)
    then Retry.Invocations(h.submitting, h.submit, 0)
    else 0
  }

  function TableAfter(table: RateLimiter.Table, h: Http): RateLimiter.Table {
    if IsPreflight(h) then table else RateLimiter.Step(table, LimiterView(h))
  }

  /** The client of the request has ten entries under a minute old. */
  ghost predicate Full(table: RateLimiter.Table, h: Http) {
    ClientOf(h) in table && RateLimiter.CountYounger(table[ClientOf(h)], h.at) >= 10
  }

  /**
   What a request gets that the limiter lets through: 401 without the key, except on the health route,
   else its route's reply.
   */
  ghost function Reply(h: Http, apiKey: string): Status {
    if h.path != "/health" && h.authorization != "Bearer " + apiKey then Unauthorized
    else if h.path != "/updatePrice" then Routed
    else if !h.parses then BadRequest
    else if h.isOwner == Success(false) then Unauthorized
    else if h.isOwner.Failure? then Failed
    else if Retry.Succeeds(h.submitting, h.submit) && Retry.Succeeds(h.confirming, h.confirm) then Ok
    else Failed
  }

  class Chain {
    const limiter: RateLimiter.Limiter
    const apiKey: string

    constructor (apiKey: string)
      ensures this.apiKey == apiKey && fresh(limiter) && limiter.requests == map[]
    {
      this.apiKey := apiKey;
      limiter := new RateLimiter.Limiter();
    }

    /** CORS, then the limiter, then authorization, then the route. */
    method Serve(h: Http) returns (status: Status, calls: nat)
      modifies limiter
      ensures limiter.requests == TableAfter(old(limiter.requests), h)
      ensures calls == Updates(old(limiter.requests), h, apiKey)
      ensures h.verb == "OPTIONS" ==> status == Ok && calls == 0 && limiter.requests == old(limiter.requests)
      ensures h.verb != "OPTIONS" ==>
                && limiter.requests == RateLimiter.Step(old(limiter.requests), LimiterView(h))
                && LimiterView(h).at == h.at && LimiterView(h).client == ClientOf(h)
      ensures status == TooManyRequests <==> h.verb != "OPTIONS" && Full(old(limiter.requests), h)
      ensures h.verb != "OPTIONS" && !Full(old(limiter.requests), h) ==> status == Reply(h, apiKey)
      ensures calls == if && h.verb != "OPTIONS" && !Full(old(limiter.requests), h)
                          && h.path == "/updatePrice" && h.authorization == "Bearer " + apiKey
                          && h.parses && h.isOwner == Success(true)
                       then Retry.Invocations(h.submitting, h.submit, 0) else 0
    {
      if h.verb == "OPTIONS" {
        return Ok, 0;
      }
      RateLimiter.CountIsYoung(RateLimiter.Stored(limiter.requests, ClientOf(h)), h.at);
      var admitted := limiter.Handle(ClientOf(h), h.at);
      if !admitted {
        return TooManyRequests, 0;
      }
      if h.path != "/health" {
        var n := |BEARER|;
        if !(BEARER <= h.authorization) {
          return Unauthorized, 0;
        }
        assert BEARER + h.authorization[n..] == h.authorization;
        assert (BEARER + apiKey)[n..] == apiKey;
        if h.authorization[n..] != apiKey {
          return Unauthorized, 0;
        }
      }
      if h.path != "/updatePrice" {
        return Routed, 0;
      }
      if !h.parses {
        return BadRequest, 0;
      }
      if h.isOwner.Failure? {
        return Failed, 0;
      }
      if !h.isOwner.value {
        return Unauthorized, 0;
      }
      var outcome, invocations, _ := Retry.Retry(h.submitting, h.submit);
      if !outcome.Returned? {
        return Failed, invocations;
      }
      var read, _, _ := Retry.Retry(h.confirming, h.confirm);
      status, calls := if read.Returned? then Ok else Failed, invocations;
    }
  }

  // ---- Runs of requests ----

  /** What reaches the limiter of a run. */
  function Limited(hs: seq<Http>): seq<RateLimiter.Request> {
    if hs == [] then []
    else
      var rest, h := Limited(hs[..|hs| - 1]), hs[|hs| - 1];
      if IsPreflight(h) then rest else rest + [LimiterView(h)]
  }

  function Table(hs: seq<Http>): RateLimiter.Table {
    if hs == [] then map[] else TableAfter(Table(hs[..|hs| - 1]), hs[|hs| - 1])
  }

  /** All calls of `UpdatePrice` caused by the requests of one client that arrive from `a` on and before `b`. */
  function TotalUpdates(hs: seq<Http>, apiKey: string, client: string, a: int, b: int): nat {
    if hs == [] then 0
    else
      var front, h := hs[..|hs| - 1], hs[|hs| - 1];
      TotalUpdates(front, apiKey, client, a, b) +
      if ClientOf(h) == client && a <= h.at < b then Updates(Table(front), h, apiKey) else 0
  }

  ghost predicate ArrivalsOrdered(hs: seq<Http>) {
    forall i, j | 0 <= i < j < |hs| :: hs[i].at <= hs[j].at
  }

  lemma {:induction false} TableIsLimiterRun(hs: seq<Http>)
    ensures Table(hs) == RateLimiter.Run(map[], Limited(hs))
  {
    if hs != [] {
      TableIsLimiterRun(hs[..|hs| - 1]);
      if !IsPreflight(hs[|hs| - 1]) {
        assert Limited(hs)[..|Limited(hs)| - 1] == Limited(hs[..|hs| - 1]);
      }
    }
  }

  lemma {:induction false} LimitedOrdered(hs: seq<Http>, now: int)
    requires ArrivalsOrdered(hs) && forall i | 0 <= i < |hs| :: hs[i].at <= now
    ensures RateLimiter.TimesOrdered(Limited(hs)) && RateLimiter.NotAfter(Limited(hs), now)
  {
    if hs != [] {
      LimitedOrdered(hs[..|hs| - 1], hs[|hs| - 1].at);
    }
  }

  /** A further request adds to the admissions between two times exactly if it is admitted between them. */
  lemma AdmissionsSnoc(earlier: seq<RateLimiter.Request>, q: RateLimiter.Request, client: string, a: int, b: int)
    ensures RateLimiter.Count(RateLimiter.AdmittedTimes(earlier + [q], client), a, b) ==
            RateLimiter.Count(RateLimiter.AdmittedTimes(earlier, client), a, b) +
            if && q.client == client && a <= q.at < b
               && RateLimiter.Admits(RateLimiter.Run(map[], earlier), q) then 1 else 0
  {
    assert (earlier + [q])[..|earlier|] == earlier;
    var times := RateLimiter.AdmittedTimes(earlier, client);
    assert (times + [q.at])[..|times|] == times;
  }

  /** Each admitted request calls `UpdatePrice` at most three times. */
  lemma {:induction false} UpdatesPerAdmission(hs: seq<Http>, apiKey: string, client: string, a: int, b: int)
    ensures TotalUpdates(hs, apiKey, client, a, b) <=
              Retry.MAX_ATTEMPTS * RateLimiter.Count(RateLimiter.AdmittedTimes(Limited(hs), client), a, b)
  {
    if hs != [] {
      var front, h := hs[..|hs| - 1], hs[|hs| - 1];
      UpdatesPerAdmission(front, apiKey, client, a, b);
      TableIsLimiterRun(front);
      if !IsPreflight(h) {
        AdmissionsSnoc(Limited(front), LimiterView(h), client, a, b);
      }
    }
  }

  /**
   The requests of one client that arrive within any half-open minute cause at most thirty calls of
   `UpdatePrice`, over every run.
   */
  lemma LoadBound(hs: seq<Http>, apiKey: string, client: string, a: int)
    requires ArrivalsOrdered(hs)
    ensures TotalUpdates(hs, apiKey, client, a, a + 60_000_000_000) <= 30
  {
    UpdatesPerAdmission(hs, apiKey, client, a, a + RateLimiter.WINDOW);
    LimitedOrdered(hs, if hs == [] then 0 else hs[|hs| - 1].at);
    RateLimiter.LimiterBound(Limited(hs), client, a, 0);
  }
}
