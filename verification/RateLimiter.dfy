/** The sliding-window limiter: at most ten admitted requests a minute for each client key. */
module RateLimiter {
  const WINDOW: nat := 60_000_000_000   // one minute, in nanoseconds
  const LIMIT: nat := 10

  type Table = map<string, seq<int>>

  datatype Request = Request(client: string, at: int)

  // ---- The key of a request ----

  /** `strings.Split(s, ",")[0]`. */
  function FirstField(s: string): (r: string)
    ensures ',' !in r
    ensures r == s || r + "," <= s
  {
    if s == "" || s[0] == ',' then ""
    else
      var rest := FirstField(s[1..]);
      assert rest + "," <= s[1..] ==> [s[0]] + rest + "," <= s;
      [s[0]] + rest
  }

  /** The forwarded address if the header is set, else the real-address header, else the peer. */
  function ClientKey(forwardedFor: string, realIP: string, remoteAddr: string): (key: string)
    ensures forwardedFor != "" ==> ',' !in key && (key == forwardedFor || key + "," <= forwardedFor)
    ensures forwardedFor == "" && realIP != "" ==> key == realIP
    ensures forwardedFor == "" && realIP == "" ==> key == remoteAddr
  {
    if forwardedFor != "" then FirstField(forwardedFor)
    else if realIP != "" then realIP
    else remoteAddr
  }

  lemma NotBeyondComma(s: string, f: string, r: string)
    requires ',' !in f && f <= s && r + "," <= s
    ensures |f| <= |r|
  {
    assert (r + ",")[|r|] == s[|r|] == ',';
    assert forall i | 0 <= i < |f| :: f[i] in f && f[i] == s[i];
  }

  /** The text before the first comma is the only one with its two properties. */
  lemma FirstFieldIsUnique(s: string, r: string)
    requires ',' !in r && (r == s || r + "," <= s)
    ensures r == FirstField(s)
  {
    var f := FirstField(s);
    if r != s {
      NotBeyondComma(s, f, r);
    }
    if f != s {
      NotBeyondComma(s, r, f);
    }
    assert r == s[..|r|] && f == s[..|f|];
  }

  /**
   A forwarded address alone decides which client a request belongs to: a chain of proxies behind it
   changes nothing.
   */
  lemma ForwardedAddressDecides(address: string, rest: string, realIP: string, remoteAddr: string)
    requires address != "" && ',' !in address
    ensures ClientKey(address, realIP, remoteAddr) == address
    ensures ClientKey(address + "," + rest, realIP, remoteAddr) == address
  {
    FirstFieldIsUnique(address, address);
    FirstFieldIsUnique(address + "," + rest, address);
  }

  // ---- One request ----

  function Stored(table: Table, client: string): seq<int> {
    if client in table then table[client] else []
  }

  /** The entries less than a minute old. */
  function Young(times: seq<int>, now: int): (r: seq<int>)
    ensures |r| <= |times|
  {
    if times == [] then []
    else
      var rest, last := Young(times[..|times| - 1], now), times[|times| - 1];
      if now - last < WINDOW then rest + [last] else rest
  }

  predicate Admits(table: Table, q: Request) {
    |Young(Stored(table, q.client), q.at)| < LIMIT
  }

  function Step(table: Table, q: Request): Table {
    var kept := Young(Stored(table, q.client), q.at);
    if |kept| < LIMIT then table[q.client := kept + [q.at]]
    else table[q.client := kept]
  }

  function Run(table: Table, reqs: seq<Request>): Table {
    if reqs == [] then table else Step(Run(table, reqs[..|reqs| - 1]), reqs[|reqs| - 1])
  }

  function Decisions(table: Table, reqs: seq<Request>): (ds: seq<bool>)
    ensures |ds| == |reqs|
  {
    if reqs == [] then []
    else
      var front := reqs[..|reqs| - 1];
      Decisions(table, front) + [Admits(Run(table, front), reqs[|reqs| - 1])]
  }

  /** The middleware's state: the map the closure captures, empty when the server starts. */
  class Limiter {
    var requests: Table

    constructor ()
      ensures requests == map[]
    {
      requests := map[];
    }

    method Handle(clientIP: string, now: int) returns (admitted: bool)
      modifies this
      ensures requests == Step(old(requests), Request(clientIP, now))
      ensures admitted == Admits(old(requests), Request(clientIP, now))
      ensures admitted <==> |Young(Stored(old(requests), clientIP), now)| < 10
    {
      if clientIP in requests {
        var clientRequests := requests[clientIP];
        var validRequests: seq<int> := [];
        for i := 0 to |clientRequests|
          invariant requests == old(requests)
          invariant validRequests == Young(clientRequests[..i], now)
        {
          assert clientRequests[..i + 1][..i] == clientRequests[..i];
          if now - clientRequests[i] < WINDOW {
            validRequests := validRequests + [clientRequests[i]];
          }
        }
        assert clientRequests[..|clientRequests|] == clientRequests;
        requests := requests[clientIP := validRequests];
      }
      if |Stored(requests, clientIP)| >= LIMIT {
        return false;
      }
      requests := requests[clientIP := Stored(requests, clientIP) + [now]];
      admitted := true;
    }
  }

  // ---- What pruning leaves ----

  ghost predicate Sorted(times: seq<int>) {
    forall i, j | 0 <= i < j < |times| :: times[i] <= times[j]
  }

  ghost predicate NoneAfter(times: seq<int>, now: int) {
    forall i | 0 <= i < |times| :: times[i] <= now
  }

  lemma {:induction false} YoungAppend(times: seq<int>, last: int, now: int)
    ensures Young(times + [last], now) == if now - last < WINDOW then Young(times, now) + [last] else Young(times, now)
  {
    assert (times + [last])[..|times|] == times;
  }

  /** An entry pruned once would be pruned at every later time as well. */
  lemma {:induction false} YoungTwice(times: seq<int>, earlier: int, later: int)
    requires earlier <= later
    ensures Young(Young(times, earlier), later) == Young(times, later)
  {
    if times != [] {
      var front, last := times[..|times| - 1], times[|times| - 1];
      YoungTwice(front, earlier, later);
      YoungAppend(Young(front, earlier), last, later);
    }
  }

  lemma {:induction false} YoungKeepsOrder(times: seq<int>, now: int)
    requires Sorted(times)
    ensures Sorted(Young(times, now))
    ensures forall bound :: NoneAfter(times, bound) ==> NoneAfter(Young(times, now), bound)
  {
    if times != [] {
      var front, last := times[..|times| - 1], times[|times| - 1];
      YoungKeepsOrder(front, now);
      assert NoneAfter(front, last);
      assert forall bound :: NoneAfter(times, bound) ==> NoneAfter(front, bound) && last <= bound;
    }
  }

  ghost predicate TimesOrdered(reqs: seq<Request>) {
    forall i, j | 0 <= i < j < |reqs| :: reqs[i].at <= reqs[j].at
  }

  ghost predicate NotAfter(reqs: seq<Request>, now: int) {
    forall i | 0 <= i < |reqs| :: reqs[i].at <= now
  }

  lemma RecordKeepsOrder(times: seq<int>, now: int)
    requires Sorted(times) && NoneAfter(times, now)
    ensures var kept := Young(times, now);
            Sorted(kept) && NoneAfter(kept, now) && Sorted(kept + [now]) && NoneAfter(kept + [now], now)
  {
    YoungKeepsOrder(times, now);
    assert NoneAfter(Young(times, now), now);
  }

  /** Every stored list stays sorted and never holds more than ten entries. */
  lemma {:induction false} StoredShape(reqs: seq<Request>, client: string, now: int)
    requires TimesOrdered(reqs) && NotAfter(reqs, now)
    ensures var ts := Stored(Run(map[], reqs), client);
            Sorted(ts) && |ts| <= 10 && NoneAfter(ts, now)
  {
    if reqs != [] {
      var front, q := reqs[..|reqs| - 1], reqs[|reqs| - 1];
      StoredShape(front, client, q.at);
      RecordKeepsOrder(Stored(Run(map[], front), client), q.at);
      assert q.at <= now;
    }
  }

  // ---- Exactness against the limiter that forgets nothing ----

  function CountYounger(times: seq<int>, now: int): nat {
    if times == [] then 0
    else CountYounger(times[..|times| - 1], now) + if now - times[|times| - 1] < 60_000_000_000 then 1 else 0
  }

  lemma {:induction false} CountIsYoung(times: seq<int>, now: int)
    ensures CountYounger(times, now) == |Young(times, now)|
  {
    if times != [] {
      CountIsYoung(times[..|times| - 1], now);
    }
  }

  /**
   The reference limiter keeps every admitted time of a client and admits while fewer than ten are under
   a minute old.
   */
  function History(reqs: seq<Request>, client: string): seq<int>
    decreases |reqs|, 0
  {
    if reqs == [] then []
    else
      var front, q := reqs[..|reqs| - 1], reqs[|reqs| - 1];
      var h := History(front, client);
      if q.client == client && ReferenceAdmits(front, q) then h + [q.at] else h
  }

  predicate ReferenceAdmits(before: seq<Request>, q: Request)
    decreases |before|, 1
  {
    CountYounger(History(before, q.client), q.at) < 10
  }

  /** What the limiter pruned can never be counted again: its lists and the full history show the same young entries. */
  lemma {:induction false} PruningInvisible(reqs: seq<Request>, client: string, now: int)
    requires TimesOrdered(reqs) && NotAfter(reqs, now)
    ensures Young(Stored(Run(map[], reqs), client), now) == Young(History(reqs, client), now)
    decreases |reqs|
  {
    if reqs != [] {
      var front, q := reqs[..|reqs| - 1], reqs[|reqs| - 1];
      PruningInvisible(front, client, now);
      if q.client == client {
        var ts := Stored(Run(map[], front), client);
        PruningInvisible(front, client, q.at);
        CountIsYoung(History(front, client), q.at);
        YoungTwice(ts, q.at, now);
        YoungAppend(Young(ts, q.at), q.at, now);
        YoungAppend(History(front, client), q.at, now);
      }
    }
  }

  /**
   On every request the limiter decides as the reference does, and it rejects exactly when ten young
   entries exist.
   */
  lemma {:induction false} LimiterIsExact(reqs: seq<Request>, q: Request)
    requires TimesOrdered(reqs) && NotAfter(reqs, q.at)
    ensures Admits(Run(map[], reqs), q) == ReferenceAdmits(reqs, q)
    ensures !Admits(Run(map[], reqs), q) <==> CountYounger(History(reqs, q.client), q.at) == 10
  {
    PruningInvisible(reqs, q.client, q.at);
    CountIsYoung(History(reqs, q.client), q.at);
    StoredShape(reqs, q.client, q.at);
  }

  /** The times at which the limiter admitted a client over a run. */
  function AdmittedTimes(reqs: seq<Request>, client: string): seq<int> {
    if reqs == [] then []
    else
      var front, q := reqs[..|reqs| - 1], reqs[|reqs| - 1];
      var times := AdmittedTimes(front, client);
      if q.client == client && Admits(Run(map[], front), q) then times + [q.at] else times
  }

  lemma {:induction false} AdmittedIsHistory(reqs: seq<Request>, client: string)
    requires TimesOrdered(reqs)
    ensures AdmittedTimes(reqs, client) == History(reqs, client)
  {
    if reqs != [] {
      var front, q := reqs[..|reqs| - 1], reqs[|reqs| - 1];
      AdmittedIsHistory(front, client);
      LimiterIsExact(front, q);
    }
  }

  // ---- The bound over whole runs ----

  /** Ten places apart means at least a minute apart. */
  ghost predicate Spaced(times: seq<int>) {
    forall i | LIMIT <= i < |times| :: times[i] - times[i - LIMIT] >= WINDOW
  }

  lemma {:induction false} YoungSuffix(times: seq<int>, k: nat, now: int)
    requires Sorted(times) && k < |times| && now - times[k] < WINDOW
    ensures CountYounger(times, now) >= |times| - k
  {
    if k < |times| - 1 {
      YoungSuffix(times[..|times| - 1], k, now);
    }
  }

  lemma {:induction false} HistoryOrdered(reqs: seq<Request>, client: string, now: int)
    requires TimesOrdered(reqs) && NotAfter(reqs, now)
    ensures Sorted(History(reqs, client)) && NoneAfter(History(reqs, client), now)
  {
    if reqs != [] {
      var front, q := reqs[..|reqs| - 1], reqs[|reqs| - 1];
      HistoryOrdered(front, client, q.at);
    }
  }

  /** The reference admits nothing while its tenth entry from the end is young. */
  lemma {:induction false} HistorySpaced(reqs: seq<Request>, client: string)
    requires TimesOrdered(reqs)
    ensures Spaced(History(reqs, client))
  {
    if reqs != [] {
      var front, q := reqs[..|reqs| - 1], reqs[|reqs| - 1];
      var h := History(front, client);
      HistorySpaced(front, client);
      HistoryOrdered(front, client, q.at);
      if |h| >= LIMIT && q.at - h[|h| - LIMIT] < WINDOW {
        YoungSuffix(h, |h| - LIMIT, q.at);
        assert q.client == client ==> !ReferenceAdmits(front, q);
      }
    }
  }

  /** How many of the times lie in the half-open interval from `a` to `b`. */
  function Count(times: seq<int>, a: int, b: int): (n: nat)
    ensures n <= |times|
  {
    if times == [] then 0
    else Count(times[..|times| - 1], a, b) + if a <= times[|times| - 1] < b then 1 else 0
  }

  lemma {:induction false} CountFrom(times: seq<int>, k: nat, a: int, b: int)
    requires k <= |times| && forall i | 0 <= i < k :: times[i] < a
    ensures Count(times, a, b) <= |times| - k
  {
    if times != [] {
      if k == |times| {
        CountFrom(times[..k - 1], k - 1, a, b);
      } else {
        CountFrom(times[..|times| - 1], k, a, b);
      }
    }
  }

  lemma {:induction false} SpacedWindow(times: seq<int>, a: int)
    requires Sorted(times) && Spaced(times)
    ensures Count(times, a, a + WINDOW) <= LIMIT
  {
    if |times| > LIMIT {
      if a <= times[|times| - 1] < a + WINDOW {
        assert times[|times| - 1] - times[|times| - 1 - LIMIT] >= WINDOW;
        CountFrom(times, |times| - LIMIT, a, a + WINDOW);
      } else {
        SpacedWindow(times[..|times| - 1], a);
      }
    }
  }

  lemma {:induction false} CountSplit(times: seq<int>, a: int, b: int, c: int)
    requires a <= b <= c
    ensures Count(times, a, c) == Count(times, a, b) + Count(times, b, c)
  {
    if times != [] {
      CountSplit(times[..|times| - 1], a, b, c);
    }
  }

  lemma {:induction false} CountWider(times: seq<int>, a: int, b: int, c: int)
    requires b <= c
    ensures Count(times, a, b) <= Count(times, a, c)
  {
    if times != [] {
      CountWider(times[..|times| - 1], a, b, c);
    }
  }

  lemma {:induction false} SpacedInterval(times: seq<int>, a: int, length: nat)
    requires Sorted(times) && Spaced(times)
    ensures Count(times, a, a + length) <= LIMIT * ((length + WINDOW - 1) / WINDOW)
    decreases length
  {
    if length == 0 {
      CountWider(times, a, a, a);
      EmptyInterval(times, a);
    } else if length <= WINDOW {
      SpacedWindow(times, a);
      CountWider(times, a, a + length, a + WINDOW);
      assert (length + WINDOW - 1) / WINDOW == 1;
    } else {
      SpacedWindow(times, a);
      SpacedInterval(times, a + WINDOW, length - WINDOW);
      CountSplit(times, a, a + WINDOW, a + length);
      assert (length + WINDOW - 1) / WINDOW == (length - WINDOW + WINDOW - 1) / WINDOW + 1;
    }
  }

  lemma {:induction false} EmptyInterval(times: seq<int>, a: int)
    ensures Count(times, a, a) == 0
  {
    if times != [] {
      EmptyInterval(times[..|times| - 1], a);
    }
  }

  /** At most ten admissions of a client in every half-open minute, and pro rata in every interval, over every run. */
  lemma LimiterBound(reqs: seq<Request>, client: string, a: int, length: nat)
    requires TimesOrdered(reqs)
    ensures Count(AdmittedTimes(reqs, client), a, a + 60_000_000_000) <= 10
    ensures Count(AdmittedTimes(reqs, client), a, a + length) <= 10 * ((length + 59_999_999_999) / 60_000_000_000)
  {
    AdmittedIsHistory(reqs, client);
    HistorySpaced(reqs, client);
    HistoryOrdered(reqs, client, if reqs == [] then 0 else reqs[|reqs| - 1].at);
    SpacedWindow(History(reqs, client), a);
    SpacedInterval(History(reqs, client), a, length);
  }

  // ---- Independence of clients ----

  function Only(reqs: seq<Request>, client: string): seq<Request> {
    if reqs == [] then []
    else
      var own, q := Only(reqs[..|reqs| - 1], client), reqs[|reqs| - 1];
      if q.client == client then own + [q] else own
  }

  /** The decisions of a run that concern one client. */
  function DecisionsFor(reqs: seq<Request>, decisions: seq<bool>, client: string): seq<bool>
    requires |reqs| == |decisions|
  {
    if reqs == [] then []
    else
      var n := |reqs| - 1;
      var own := DecisionsFor(reqs[..n], decisions[..n], client);
      if reqs[n].client == client then own + [decisions[n]] else own
  }

  /**
   A client's decisions and stored list are those of the run restricted to its own requests, from any
   table and with any times.
   */
  lemma {:induction false} ClientsAreIndependent(table: Table, reqs: seq<Request>, client: string)
    ensures Stored(Run(table, reqs), client) == Stored(Run(table, Only(reqs, client)), client)
    ensures DecisionsFor(reqs, Decisions(table, reqs), client) == Decisions(table, Only(reqs, client))
  {
    if reqs != [] {
      var front, q := reqs[..|reqs| - 1], reqs[|reqs| - 1];
      ClientsAreIndependent(table, front, client);
      assert Decisions(table, reqs)[..|reqs| - 1] == Decisions(table, front);
      if q.client == client {
        var own := Only(reqs, client);
        assert own[..|own| - 1] == Only(front, client);
      }
    }
  }

  // ---- No starvation ----

  lemma {:induction false} AllYoung(times: seq<int>, now: int)
    requires forall i | 0 <= i < |times| :: now - times[i] < WINDOW
    ensures Young(times, now) == times
  {
    if times != [] {
      AllYoung(times[..|times| - 1], now);
    }
  }

  lemma {:induction false} OldestPruned(times: seq<int>, now: int)
    requires times != [] && now - times[0] >= WINDOW
    ensures |Young(times, now)| < |times|
  {
    if |times| > 1 {
      OldestPruned(times[..|times| - 1], now);
    }
  }

  /**
   A client with ten young entries keeps exactly those until the oldest is a minute old, whatever comes
   in between.
   */
  lemma {:induction false} BlockedKeepsEntries(table: Table, reqs: seq<Request>, client: string)
    requires |Stored(table, client)| == 10 && Sorted(Stored(table, client))
    requires forall i | 0 <= i < |reqs| :: reqs[i].client == client ==>
              reqs[i].at < Stored(table, client)[0] + 60_000_000_000
    ensures Stored(Run(table, reqs), client) == Stored(table, client)
  {
    if reqs != [] {
      var front, q := reqs[..|reqs| - 1], reqs[|reqs| - 1];
      BlockedKeepsEntries(table, front, client);
      if q.client == client {
        AllYoung(Stored(table, client), q.at);
      }
    }
  }

  /**
   Such a client is rejected until its oldest entry is a minute old and admitted from then on, however
   many rejections came before.
   */
  lemma BlockedUntilOldestExpires(table: Table, reqs: seq<Request>, q: Request)
    requires |Stored(table, q.client)| == 10 && Sorted(Stored(table, q.client))
    requires forall i | 0 <= i < |reqs| :: reqs[i].client == q.client ==>
              reqs[i].at < Stored(table, q.client)[0] + 60_000_000_000
    ensures Admits(Run(table, reqs), q) <==> q.at >= Stored(table, q.client)[0] + 60_000_000_000
  {
    var ts := Stored(table, q.client);
    BlockedKeepsEntries(table, reqs, q.client);
    if q.at < ts[0] + WINDOW {
      AllYoung(ts, q.at);
    } else {
      OldestPruned(ts, q.at);
    }
  }
}
