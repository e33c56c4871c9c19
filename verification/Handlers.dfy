/**
 The three request handlers as the code has them, over the shared cache, table and contract. Before
 every access other handlers, the clock and the chain may take any number of steps. Each execution
 is a run of the machine in `Tiers`, so what holds of all its runs holds of every reply.
 */
module Handlers {
  import opened Wrappers
  import opened Words
  import opened OracleContract
  import opened Database
  import opened Tiers
  import opened TiersAgreement
  import Retry

  /**
   What a handler meets at its n-th access: the others' steps before it, whether it works, whether its
   context is done.
   */
  datatype Env = Env(others: nat -> seq<Action>, ok: nat -> bool, cancelled: nat -> bool)

  /**
   What had happened when a reader got to the cache, to the table, past the contract and past its own
   cache write, as far as it got.
   */
  datatype Trail = Trail(got: seq<Action>, queried: seq<Action>, fetched: seq<Action>, filled: seq<Action>)

  ghost predicate InOrder(start: seq<Action>, trail: Trail, end: seq<Action>) {
    start <= trail.got <= trail.queried <= trail.fetched <= trail.filled <= end
  }

  predicate Concerns(a: Action, tid: nat) {
    match a
    case Begin(t, _) => t == tid
    case Proceed(t, _) => t == tid
    case Cancel(t) => t == tid
    case _ => false
  }

  ghost predicate Foreign(env: Env, tid: nat) {
    forall n: nat, i | 0 <= i < |env.others(n)| :: !Concerns(env.others(n)[i], tid)
  }

  /** Every access works and no context is cancelled. */
  ghost predicate Works(env: Env) {
    forall n: nat :: env.ok(n) && !env.cancelled(n)
  }

  /** `retry.Retry` would succeed on the accesses from the n-th on. */
  predicate RetrySucceeds(env: Env, n: nat) {
    Retry.Wins(env.cancelled, env.ok, n, 0)
  }

  /** What can be read from the contract can be read from every later state of it. */
  lemma FetchStaysPossible(s: Storage, t: Storage, request: Request)
    requires LogInvariant(s) && LogInvariant(t) && Extends(s, t)
    requires request.RoundById? ==> ParseUint(request.path).Some?
    ensures Fetch(s, request).Success? ==> Fetch(t, request).Success?
  {
    if request.RoundById? {
      FetchRoundNeverWrong(s, PathId(request.path));
      FetchRoundNeverWrong(t, PathId(request.path));
    } else {
      FetchLatestFaithful(t);
    }
  }

  predicate OwnStep(a: Action, tid: nat) {
    a.Proceed? && a.tid == tid
  }

  /** How many steps of its own a handler has made. */
  function OwnSteps(steps: seq<Action>, tid: nat): nat {
    |set i | 0 <= i < |steps| && OwnStep(steps[i], tid)|
  }

  lemma OwnStepsSnoc(steps: seq<Action>, a: Action, tid: nat)
    ensures OwnSteps(steps + [a], tid) == OwnSteps(steps, tid) + if OwnStep(a, tid) then 1 else 0
  {
    var all := steps + [a];
    var before := set i | 0 <= i < |steps| && OwnStep(steps[i], tid);
    var after := set i | 0 <= i < |all| && OwnStep(all[i], tid);
    assert after == before + if OwnStep(a, tid) then {|steps|} else {};
  }

  lemma OthersLeave(w: World, a: Action, tid: nat)
    requires tid in w.threads && !Concerns(a, tid)
    ensures tid in Next(w, a).threads && Next(w, a).threads[tid] == w.threads[tid]
  {
  }

  lemma NextKeepsRow(w: World, a: Action, id: nat)
    requires id in w.rows
    ensures id in Next(w, a).rows
  {
  }

  /** A row stays in the table. */
  lemma {:induction false} RowsStay(w: World, steps: seq<Action>, more: seq<Action>, id: nat)
    requires steps <= more && id in Exec(w, steps).rows
    ensures id in Exec(w, more).rows
  {
    if steps != more {
      var front := more[..|more| - 1];
      RowsStay(w, steps, front, id);
      NextKeepsRow(Exec(w, front), more[|more| - 1], id);
    }
  }

  class Api {
    const service: Address
    const chain: MockOracle
    const db: DB
    var cache: map<Key, Entry>
    var now: int
    var threads: map<nat, Thread>
    var answers: seq<Answer>
    ghost const deployer: Address
    ghost const deployedAt: nat
    ghost const startedAt: int
    ghost var history: seq<Action>

    ghost function Origin(): World {
      Start(deployer, deployedAt, service, startedAt)
    }

    function View(): World
      reads this, chain, db
    {
      World(chain.View(), db.rows, cache, now, service, threads, answers)
    }

    /** The state is the one the machine reaches by the steps taken so far. */
    ghost predicate Valid()
      reads this, chain, db
    {
      View() == Exec(Origin(), history)
    }

    ghost predicate AtPhase(tid: nat, request: Request, phase: Phase)
      reads this
    {
      tid in threads && threads[tid] == Thread(request, phase)
    }

    ghost predicate Replied(tid: nat, request: Request, reply: Result<RoundData, Status>)
      reads this
    {
      AtPhase(tid, request, Finished(reply))
    }

    /** The contract could answer the request after these steps. */
    ghost predicate Readable(steps: seq<Action>, request: Request) {
      && (request.RoundById? ==> ParseUint(request.path).Some?)
      && Fetch(Exec(Origin(), steps).oracle, request).Success?
    }

    lemma StaysReadable(steps: seq<Action>, more: seq<Action>, request: Request)
      requires steps <= more && Readable(steps, request)
      ensures Readable(more, request)
    {
      if steps != more {
        var front := more[..|more| - 1];
        StaysReadable(steps, front, request);
        RunKeepsLog(deployer, deployedAt, []);
        ExecExtendsLog(Origin(), front);
        NextExtendsLog(Exec(Origin(), front), more[|more| - 1]);
        FetchStaysPossible(Exec(Origin(), front).oracle, Exec(Origin(), more).oracle, request);
      }
    }

    lemma LatestReadable(steps: seq<Action>, request: Request)
      requires !request.RoundById?
      ensures Readable(steps, request)
    {
      RunKeepsLog(deployer, deployedAt, []);
      ExecExtendsLog(Origin(), steps);
      FetchLatestFaithful(Exec(Origin(), steps).oracle);
    }

    lemma WrittenReadable(steps: seq<Action>, path: string)
      requires ParseUint(path).Some?
      requires PathId(path) < TWO_63 && 1 <= PathId(path) <= Exec(Origin(), steps).oracle.latestRoundId
      ensures Readable(steps, RoundById(path))
    {
      RunKeepsLog(deployer, deployedAt, []);
      ExecExtendsLog(Origin(), steps);
      FetchRoundNeverWrong(Exec(Origin(), steps).oracle, PathId(path));
    }

    constructor (deployer: Address, timestamp: nat, service: Address, now: int)
      ensures Valid() && fresh(db) && fresh(chain) && history == []
      ensures View() == Start(deployer, timestamp, service, now)
    {
      var oracle := new MockOracle(deployer, timestamp);
      var table := new DB();
      chain, db := oracle, table;
      this.service, this.now := service, now;
      cache, threads, answers := map[], map[], [];
      this.deployer, deployedAt, startedAt := deployer, timestamp, now;
      history := [];
    }

    /** One step of anyone. */
    method Apply(a: Action)
      requires Valid()
      modifies this, chain, db
      ensures Valid() && history == old(history) + [a] && View() == Next(old(View()), a)
    {
      ExecSnoc(Origin(), history, a);
      if a.Transact? {
        var _ := chain.SubmitAnswer(a.call.sender, a.call.answer, a.call.timestamp);
      } else {
        var w := Next(View(), a);
        db.rows := w.rows;
        cache, now, threads, answers := w.cache, w.now, w.threads, w.answers;
      }
      history := history + [a];
    }

    method Interleave(tid: nat, others: seq<Action>)
      requires Valid() && tid in threads
      requires forall i | 0 <= i < |others| :: !Concerns(others[i], tid)
      modifies this, chain, db
      ensures Valid() && old(history) <= history
      ensures tid in threads && threads[tid] == old(threads[tid])
      ensures OwnSteps(history, tid) == OwnSteps(old(history), tid)
    {
      for i := 0 to |others|
        invariant Valid() && old(history) <= history
        invariant tid in threads && threads[tid] == old(threads[tid])
        invariant OwnSteps(history, tid) == OwnSteps(old(history), tid)
      {
        OthersLeave(View(), others[i], tid);
        OwnStepsSnoc(history, others[i], tid);
        Apply(others[i]);
      }
    }

    // ---- The accesses ----

    /** The live cached value a request meets after these steps. */
    ghost function Cached(steps: seq<Action>, request: Request): Option<RoundData> {
      var w, key := Exec(Origin(), steps), if request.RoundById? then RoundKey(request.path) else LatestKey;
      if key in w.cache && w.now <= w.cache[key].expiresAt then Some(w.cache[key].data) else None
    }

    /** The row a request's query selects after these steps. */
    ghost function Stored(steps: seq<Action>, request: Request): Option<RoundData> {
      var rows := Exec(Origin(), steps).rows;
      match request
      case RoundById(path) =>
        var id := match ParseUint(path)
                  case Some(n) => n
                  case None => 0;
        if id in rows then Some(rows[id].data) else None
      case _ => if rows == map[] then None else Some(rows[MaxKey(rows)].data)
    }

    /** The data of the row with the largest identifier. */
    ghost predicate IsNewest(rows: Rows, d: RoundData) {
      exists k: nat :: k in rows && rows[k].data == d && forall j | j in rows :: j <= k
    }

    /** An access returns what is there exactly when it works. */
    ghost predicate Gives(got: Option<Held>, ok: bool, there: Option<RoundData>) {
      && (got.Some? <==> ok && there.Some?)
      && (got.Some? ==> got.value.data == there.value)
    }

    /** The handler's own step is complete: it stands at its next phase. */
    method Took(tid: nat, ok: bool, phase: Phase, ghost before: World)
      requires before == Exec(Origin(), history)
      requires tid in threads && At(View(), tid, phase) == Next(before, Proceed(tid, ok))
      modifies this`threads, this`history
      ensures Valid() && history == old(history) + [Proceed(tid, ok)] && View() == Next(before, Proceed(tid, ok))
      ensures AtPhase(tid, old(threads[tid].request), phase)
    {
      ExecSnoc(Origin(), history, Proceed(tid, ok));
      threads := threads[tid := threads[tid].(phase := phase)];
      history := history + [Proceed(tid, ok)];
    }

    /**
     A hit is a live entry, and a working Get finds it; its data goes to the client as it is. `at` leads
     up to the access.
     */
    method GetCached(tid: nat, env: Env, n: nat, request: Request) returns (hit: Option<Held>, ghost at: seq<Action>)
      requires Valid() && Foreign(env, tid) && AtPhase(tid, request, CacheGet)
      modifies this, chain, db
      ensures Valid() && old(history) <= at && history == at + [Proceed(tid, env.ok(n))]
      ensures AtPhase(tid, request, if hit.Some? then Respond(hit.value) else DbGet)
      ensures Gives(hit, env.ok(n), Cached(at, request))
    {
      Interleave(tid, env.others(n));
      at := history;
      var key := KeyOf(request);
      hit := None;
      if env.ok(n) && key in cache && now <= cache[key].expiresAt {
        hit := Some(Held(cache[key].data, cache[key].readAt, now, true));
      }
      Took(tid, env.ok(n), if hit.Some? then Respond(hit.value) else DbGet, View());
    }

    /** The table's row for the path's identifier, or its newest row, which a working query finds. */
    method QueryTable(tid: nat, env: Env, n: nat, request: Request) returns (found: Option<Held>, ghost at: seq<Action>)
      requires Valid() && Foreign(env, tid) && AtPhase(tid, request, DbGet)
      modifies this, chain, db
      ensures Valid() && old(history) <= at && history == at + [Proceed(tid, env.ok(n))]
      ensures AtPhase(tid, request, if found.Some? then CacheSet(found.value, false) else ChainRead(0))
      ensures Gives(found, env.ok(n), Stored(at, request))
      ensures env.ok(n) && request.RoundById? && ParseUint(request.path).Some? ==>
                var rows, id := Exec(Origin(), at).rows, ParseUint(request.path).value;
                if id in rows then found.Some? && found.value.data == rows[id].data else found.None?
      ensures env.ok(n) && !request.RoundById? ==>
                var rows := Exec(Origin(), at).rows;
                if rows == map[] then found.None? else found.Some? && IsNewest(rows, found.value.data)
    {
      Interleave(tid, env.others(n));
      at := history;
      var row;
      if request.RoundById? {
        row := db.GetByRoundID(PathId(request.path));
      } else {
        row := db.GetLatest();
      }
      found := if env.ok(n) && row.Some? then Some(Held(row.value.data, now, now, false)) else None;
      Took(tid, env.ok(n), if found.Some? then CacheSet(found.value, false) else ChainRead(0), View());
    }

    /** Whatever happens in between, a round that could be read at `start` still can. */
    method InterleaveBeforeRead(tid: nat, others: seq<Action>, ghost request: Request, ghost start: seq<Action>)
      requires Valid() && tid in threads && start <= history
      requires forall i | 0 <= i < |others| :: !Concerns(others[i], tid)
      modifies this, chain, db
      ensures Valid() && old(history) <= history
      ensures tid in threads && threads[tid] == old(threads[tid])
      ensures OwnSteps(history, tid) == OwnSteps(old(history), tid)
      ensures Readable(start, request) ==> Fetch(chain.View(), request).Success?
    {
      Interleave(tid, others);
      if Readable(start, request) {
        StaysReadable(start, history, request);
      }
    }

    /** The closure given to `retry.Retry`: the contract's own read, and the conversions of what it returns. */
    method ReadContract(request: Request) returns (result: Result<RoundData, Revert>)
      ensures result == Fetch(chain.View(), request)
    {
      var raw;
      if request.RoundById? {
        var id := PathId(request.path);
        var word := RoundArgument(id);
        if word > MAX_UINT80 {
          return Failure(BadArgument);
        }
        raw := chain.ReadRound(word);
        if raw.Success? {
          return Success(Narrow(raw.value).(roundId := id));
        }
      } else {
        raw := chain.ReadLatest();
        if raw.Success? {
          return Success(Narrow(raw.value));
        }
      }
      result := raw;
    }

    /** One attempt. */
    method FetchOnce(tid: nat, env: Env, n: nat, request: Request, attempt: nat) returns (found: Option<Held>)
      requires Valid() && AtPhase(tid, request, ChainRead(attempt))
      modifies this, chain, db
      ensures Valid() && history == old(history) + [Proceed(tid, env.ok(n))]
      ensures AtPhase(tid, request, if found.Some? then AfterRead(request, found.value)
                                    else AfterFailure(attempt, ChainRead(attempt + 1)))
      ensures found.Some? ==> Fetch(chain.View(), request) == Success(found.value.data)
      ensures found.Some? <==> env.ok(n) && Fetch(old(chain.View()), request).Success?
    {
      var result := ReadContract(request);
      if env.ok(n) && result.Success? {
        found := Some(Held(result.value, now, now, false));
        Took(tid, true, AfterRead(request, found.value), View());
      } else {
        found := None;
        Took(tid, env.ok(n), AfterFailure(attempt, ChainRead(attempt + 1)), View());
      }
    }

    /** A retry loop observes the cancelled context. */
    method Abandon(tid: nat, ghost request: Request)
      requires Valid() && tid in threads && threads[tid].request == request
      requires threads[tid].phase.ChainRead? || threads[tid].phase.Submit?
      modifies this, chain, db
      ensures Valid() && old(history) <= history
      ensures AtPhase(tid, request, Finished(Failure(ServerError)))
      ensures OwnSteps(history, tid) == OwnSteps(old(history), tid)
    {
      OwnStepsSnoc(history, Cancel(tid), tid);
      Apply(Cancel(tid));
    }

    /** Where a round read from the contract goes next. */
    function AfterRead(request: Request, held: Held): Phase {
      if request.UpdatePrice? then CacheDel(held) else CacheSet(held, true)
    }

    /**
     One round of the retry loop: the poll of the context, and the attempt with whatever happens before
     it. Only a failing access or a cancellation keeps a round readable at `start` from being read.
     */
    method FetchAttempt(
        tid: nat, env: Env, n: nat, request: Request, attempt: nat, ghost start: seq<Action>, ghost readable: bool)
      returns (found: Option<Held>, again: bool)
      requires Valid() && Foreign(env, tid) && AtPhase(tid, request, ChainRead(attempt)) && start <= history
      requires readable ==> Readable(start, request)
      modifies this, chain, db
      ensures Valid() && start <= old(history) <= history
      ensures found.Some? ==> AtPhase(tid, request, AfterRead(request, found.value))
      ensures again ==> AtPhase(tid, request, ChainRead(attempt + 1))
      ensures found.None? && !again ==> AtPhase(tid, request, Finished(Failure(ServerError)))
      ensures again <==> found.None? && !env.cancelled(n) && attempt + 1 < Retry.MAX_ATTEMPTS
      ensures OwnSteps(history, tid) == OwnSteps(old(history), tid) + if env.cancelled(n) then 0 else 1
      ensures found.Some? ==>
                !env.cancelled(n) && env.ok(n) && Fetch(chain.View(), request) == Success(found.value.data)
      ensures readable ==> (found.Some? <==> !env.cancelled(n) && env.ok(n))
    {
      if env.cancelled(n) {
        Abandon(tid, request);
        return None, false;
      }
      InterleaveBeforeRead(tid, env.others(n), request, start);
      OwnStepsSnoc(history, Proceed(tid, env.ok(n)), tid);
      found := FetchOnce(tid, env, n, request, attempt);
      again := found.None? && attempt + 1 < Retry.MAX_ATTEMPTS;
    }

    /** The contract read inside `retry.Retry`: at most three attempts, none after an observed cancellation. */
    method FetchWithRetry(tid: nat, env: Env, n: nat, request: Request) returns (found: Option<Held>)
      requires Valid() && Foreign(env, tid) && AtPhase(tid, request, ChainRead(0))
      modifies this, chain, db
      ensures Valid() && old(history) <= history
      ensures AtPhase(tid, request, if found.Some? then AfterRead(request, found.value)
                                    else Finished(Failure(ServerError)))
      ensures found.Some? ==> Fetch(chain.View(), request) == Success(found.value.data)
      ensures Readable(old(history), request) ==> (found.Some? <==> RetrySucceeds(env, n))
      ensures OwnSteps(history, tid) <= OwnSteps(old(history), tid) + Retry.MAX_ATTEMPTS
    {
      var attempt: nat := 0;
      ghost var start, steps, readable := history, OwnSteps(history, tid), Readable(history, request);
      ghost var wins := RetrySucceeds(env, n);
      while true
        invariant Valid() && start <= history
        invariant attempt < Retry.MAX_ATTEMPTS && AtPhase(tid, request, ChainRead(attempt))
        invariant OwnSteps(history, tid) == steps + attempt
        invariant readable ==> wins == Retry.Wins(env.cancelled, env.ok, n, attempt)
        decreases Retry.MAX_ATTEMPTS - attempt
      {
        var again;
        found, again := FetchAttempt(tid, env, n + attempt, request, attempt, start, readable);
        if !again {
          return;
        }
        attempt := attempt + 1;
      }
    }

    method Set(tid: nat, ok: bool, request: Request, held: Held, save: bool)
      requires Valid() && AtPhase(tid, request, CacheSet(held, save))
      modifies this`cache, this`threads, this`history
      ensures Valid() && history == old(history) + [Proceed(tid, ok)]
      ensures AtPhase(tid, request, if save then DbSave(held) else Respond(held))
      ensures cache == if ok then old(cache)[KeyOf(request) := Entry(held.data, now + TTL, held.readAt)] else old(cache)
    {
      ghost var before := View();
      if ok {
        cache := cache[KeyOf(request) := Entry(held.data, now + TTL, held.readAt)];
      }
      Took(tid, ok, if save then DbSave(held) else Respond(held), before);
    }

    method SetCached(tid: nat, env: Env, n: nat, request: Request, held: Held, save: bool)
      requires Valid() && Foreign(env, tid) && AtPhase(tid, request, CacheSet(held, save))
      modifies this, chain, db
      ensures Valid() && old(history) <= history
      ensures AtPhase(tid, request, if save then DbSave(held) else Respond(held))
      ensures env.ok(n) ==> Filled(history, request, held.data)
      ensures env.ok(n) ==>
                var key := if request.RoundById? then RoundKey(request.path) else LatestKey;
                key in cache && cache[key] == Entry(held.data, now + 10_000, held.readAt)
    {
      Interleave(tid, env.others(n));
      Set(tid, env.ok(n), request, held, save);
    }

    method DelCached(tid: nat, env: Env, n: nat, request: Request, held: Held)
      requires Valid() && Foreign(env, tid) && AtPhase(tid, request, CacheDel(held))
      modifies this, chain, db
      ensures Valid() && old(history) <= history
      ensures AtPhase(tid, request, DbSave(held))
      ensures env.ok(n) ==> LatestKey !in cache
    {
      Interleave(tid, env.others(n));
      ghost var before := View();
      if env.ok(n) {
        cache := cache - {LatestKey};
      }
      Took(tid, env.ok(n), DbSave(held), before);
    }

    /** A missing row becomes the held data; the insert's error, a duplicate key among them, is ignored. */
    method SaveRow(tid: nat, env: Env, n: nat, request: Request, held: Held) returns (ghost at: seq<Action>)
      requires Valid() && Foreign(env, tid) && AtPhase(tid, request, DbSave(held))
      modifies this, chain, db
      ensures Valid() && old(history) <= at && history == at + [Proceed(tid, env.ok(n))]
      ensures AtPhase(tid, request, Respond(held))
      ensures var rows := Exec(Origin(), at).rows;
              db.rows == if env.ok(n) then Inserted(rows, Row(held.data, now)) else rows
    {
      Interleave(tid, env.others(n));
      at := history;
      ghost var before := View();
      if env.ok(n) {
        var _ := db.Save(Row(held.data, now));
      }
      Took(tid, env.ok(n), Respond(held), before);
    }

    method WriteReply(tid: nat, env: Env, n: nat, request: Request, held: Held)
      requires Valid() && Foreign(env, tid) && AtPhase(tid, request, Respond(held))
      modifies this, chain, db
      ensures Valid() && old(history) <= history
      ensures Replied(tid, request, Success(held.data))
      ensures answers != [] && answers[|answers| - 1] == Answer(request, held.data, now)
    {
      Interleave(tid, env.others(n));
      ghost var before := View();
      answers := answers + [Answer(request, held.data, now)];
      Took(tid, true, Finished(Success(held.data)), before);
    }

    /** Every reply in a valid state agrees with the contract. */
    lemma ReplyAgrees(tid: nat, request: Request, reply: Result<RoundData, Status>)
      requires Valid() && Replied(tid, request, reply)
      ensures reply.Success? && InRange(chain.View()) ==>
                && Agrees(chain.View(), reply.value) && IsRound(chain.rounds, reply.value)
                && Names(request, reply.value.roundId)
    {
      if reply.Success? && InRange(chain.View()) {
        AllTiersAgree(deployer, deployedAt, service, startedAt, history);
        assert ThreadAgrees(View(), tid);
        RunKeepsLog(deployer, deployedAt, []);
        ExecExtendsLog(Origin(), history);
        ReadableExactlyWhenWritten(chain.View(), reply.value.roundId);
      }
    }

    method Arrive(tid: nat, request: Request)
      requires Valid() && tid !in threads
      modifies this, chain, db
      ensures Valid() && history == old(history) + [Begin(tid, request)] && chain.View() == old(chain.View())
      ensures AtPhase(tid, request, Enter(request))
    {
      Apply(Begin(tid, request));
    }

    // ---- The handlers ----

    function Value(reply: Result<RoundData, Status>): Option<RoundData> {
      match reply
      case Success(d) => Some(d)
      case Failure(_) => None
    }

    /** The entry a working cache write leaves: the data under the request's key, for ten more seconds. */
    ghost predicate Filled(steps: seq<Action>, request: Request, d: RoundData) {
      var w, key := Exec(Origin(), steps), if request.RoundById? then RoundKey(request.path) else LatestKey;
      key in w.cache && w.cache[key].data == d && w.cache[key].expiresAt == w.now + 10_000
    }

    /** Past a cache miss a working query's row is the value, else a contract read is, if one of at most three works. */
    ghost predicate FromTableOrContract(
        env: Env, request: Request, start: seq<Action>, queried: seq<Action>, fetched: seq<Action>,
        value: Option<RoundData>) {
      if env.ok(1) && Stored(queried, request).Some? then value == Stored(queried, request)
      else
        && (value.Some? ==> Fetch(Exec(Origin(), fetched).oracle, request) == Success(value.value))
        && (Readable(start, request) ==> (value.Some? <==> RetrySucceeds(env, 2)))
    }

    /** The tiers in order. */
    ghost predicate ByTiers(
        env: Env, request: Request, start: seq<Action>, trail: Trail, value: Option<RoundData>) {
      if env.ok(0) && Cached(trail.got, request).Some? then value == Cached(trail.got, request)
      else FromTableOrContract(env, request, start, trail.queried, trail.fetched, value)
    }

    /** Past a cache miss: the value is left in the cache, and in the table if it came from the contract. */
    ghost predicate LeavesPastMiss(env: Env, request: Request, queried: seq<Action>, filled: seq<Action>, d: RoundData)
      reads db
    {
      var fromTable := env.ok(1) && Stored(queried, request).Some?;
      && (fromTable && env.ok(2) ==> Filled(filled, request, d))
      && (!fromTable && env.ok(5) ==> Filled(filled, request, d))
      && (!fromTable && env.ok(6) ==> d.roundId in db.rows)
    }

    /** What a reply leaves behind. */
    ghost predicate Leaves(env: Env, request: Request, trail: Trail, reply: Result<RoundData, Status>)
      reads db
    {
      reply.Success? && !(env.ok(0) && Cached(trail.got, request).Some?) ==>
        LeavesPastMiss(env, request, trail.queried, trail.filled, reply.value)
    }

    /** Past both misses: the contract's round goes into the cache and the table. */
    method FetchAndStore(tid: nat, env: Env, request: Request, ghost start: seq<Action>)
      returns (held: Option<Held>, ghost fetched: seq<Action>, ghost filled: seq<Action>)
      requires Valid() && Foreign(env, tid) && AtPhase(tid, request, ChainRead(0))
      requires !request.UpdatePrice? && start <= history
      modifies this, chain, db
      ensures Valid() && old(history) <= fetched <= filled <= history
      ensures AtPhase(tid, request, if held.Some? then Respond(held.value) else Finished(Failure(ServerError)))
      ensures held.Some? ==> Fetch(Exec(Origin(), fetched).oracle, request) == Success(held.value.data)
      ensures Readable(start, request) ==> (held.Some? <==> RetrySucceeds(env, 2))
      ensures held.Some? && env.ok(5) ==> Filled(filled, request, held.value.data)
      ensures held.Some? && env.ok(6) ==> held.value.data.roundId in db.rows
    {
      if Readable(start, request) {
        StaysReadable(start, history, request);
      }
      held := FetchWithRetry(tid, env, 2, request);
      fetched, filled := history, history;
      if held.Some? {
        SetCached(tid, env, 5, request, held.value, true);
        filled := history;
        var _ := SaveRow(tid, env, 6, request, held.value);
      }
    }

    /** Past a cache miss: the table's row goes into the cache, else the contract is read. */
    method ReadThrough(tid: nat, env: Env, request: Request, ghost start: seq<Action>)
      returns (held: Option<Held>, ghost queried: seq<Action>, ghost fetched: seq<Action>, ghost filled: seq<Action>)
      requires Valid() && Foreign(env, tid) && AtPhase(tid, request, DbGet) && !request.UpdatePrice? && start <= history
      modifies this, chain, db
      ensures Valid() && old(history) <= queried <= fetched <= filled <= history
      ensures AtPhase(tid, request, if held.Some? then Respond(held.value) else Finished(Failure(ServerError)))
      ensures FromTableOrContract(env, request, start, queried, fetched, match held
                                                                         case Some(h) => Some(h.data)
                                                                         case None => None)
      ensures held.Some? ==> LeavesPastMiss(env, request, queried, filled, held.value.data)
    {
      held, queried := QueryTable(tid, env, 1, request);
      fetched := queried;
      if held.Some? {
        SetCached(tid, env, 2, request, held.value, false);
        filled := history;
        return;
      }
      held, fetched, filled := FetchAndStore(tid, env, request, start);
    }

    /** The tiers in order: cache, table, contract. */
    method Lookup(tid: nat, env: Env, request: Request) returns (reply: Result<RoundData, Status>, ghost trail: Trail)
      requires Valid() && Foreign(env, tid) && AtPhase(tid, request, CacheGet) && !request.UpdatePrice?
      modifies this, chain, db
      ensures Valid() && InOrder(old(history), trail, history) && Replied(tid, request, reply)
      ensures reply.Failure? ==> reply.error == ServerError
      ensures ByTiers(env, request, old(history), trail, Value(reply)) && Leaves(env, request, trail, reply)
    {
      var held, got := GetCached(tid, env, 0, request);
      trail := Trail(got, got, got, got);
      if held.None? {
        ghost var queried, fetched, filled;
        held, queried, fetched, filled := ReadThrough(tid, env, request, old(history));
        trail := Trail(got, queried, fetched, filled);
        if held.None? {
          return Failure(ServerError), trail;
        }
      }
      Answers(tid, env, request, held.value);
      reply := Success(held.value.data);
    }

    /** Rows stay while the reply is written. */
    method Answers(tid: nat, env: Env, request: Request, held: Held)
      requires Valid() && Foreign(env, tid) && AtPhase(tid, request, Respond(held))
      modifies this, chain, db
      ensures Valid() && old(history) <= history && Replied(tid, request, Success(held.data))
      ensures held.data.roundId in old(db.rows) ==> held.data.roundId in db.rows
    {
      ghost var before := history;
      WriteReply(tid, env, 7, request, held);
      if held.data.roundId in Exec(Origin(), before).rows {
        RowsStay(Origin(), before, history, held.data.roundId);
      }
    }

    /** What `/round/{id}` replies, read off the cache, the table and the contract's storage at the three accesses. */
    ghost predicate RoundFromTiers(env: Env, path: string, id: nat, trail: Trail, reply: Result<RoundData, Status>) {
      var w, rows := Exec(Origin(), trail.got), Exec(Origin(), trail.queried).rows;
      var s := Exec(Origin(), trail.fetched).oracle;
      if env.ok(0) && RoundKey(path) in w.cache && w.now <= w.cache[RoundKey(path)].expiresAt then
        reply == Success(w.cache[RoundKey(path)].data)
      else if env.ok(1) && id in rows then
        reply == Success(rows[id].data)
      else
        reply.Success? && InRange(s) ==> reply.value.roundId == id && IsRound(s.rounds, reply.value)
    }

    /** What `/latestPrice` replies, read off in the same way: the newest row, else the contract's latest round. */
    ghost predicate LatestFromTiers(env: Env, trail: Trail, reply: Result<RoundData, Status>) {
      var w, rows := Exec(Origin(), trail.got), Exec(Origin(), trail.queried).rows;
      var s := Exec(Origin(), trail.fetched).oracle;
      if env.ok(0) && LatestKey in w.cache && w.now <= w.cache[LatestKey].expiresAt then
        reply == Success(w.cache[LatestKey].data)
      else if env.ok(1) && rows != map[] then
        reply.Success? && IsNewest(rows, reply.value)
      else
        reply.Success? && InRange(s) ==> reply.value.roundId == s.latestRoundId && IsRound(s.rounds, reply.value)
    }

    /** A contract read after any steps returns what the contract stores. */
    lemma FetchedIsStored(steps: seq<Action>, request: Request)
      requires request.RoundById? ==> ParseUint(request.path).Some?
      ensures var s := Exec(Origin(), steps).oracle;
              Fetch(s, request).Success? && InRange(s) ==>
                var d := Fetch(s, request).value;
                && IsRound(s.rounds, d)
                && d.roundId == if request.RoundById? then ParseUint(request.path).value else s.latestRoundId
    {
      var s := Exec(Origin(), steps).oracle;
      RunKeepsLog(deployer, deployedAt, []);
      ExecExtendsLog(Origin(), steps);
      if InRange(s) {
        if request.RoundById? {
          FetchedRoundIsStored(s, ParseUint(request.path).value);
        } else {
          FetchedLatestIsStored(s);
        }
      }
    }

    lemma RoundTiers(env: Env, path: string, start: seq<Action>, trail: Trail, reply: Result<RoundData, Status>)
      requires ParseUint(path).Some? && ByTiers(env, RoundById(path), start, trail, Value(reply))
      ensures RoundFromTiers(env, path, ParseUint(path).value, trail, reply)
    {
      FetchedIsStored(trail.fetched, RoundById(path));
    }

    lemma LatestTiers(env: Env, start: seq<Action>, trail: Trail, reply: Result<RoundData, Status>)
      requires ByTiers(env, LatestPrice, start, trail, Value(reply))
      ensures LatestFromTiers(env, trail, reply)
    {
      FetchedIsStored(trail.fetched, LatestPrice);
      var rows := Exec(Origin(), trail.queried).rows;
      assert rows != map[] ==> IsNewest(rows, rows[MaxKey(rows)].data);
    }

    /** `GET /latestPrice` */
    method GetLatestPrice(tid: nat, env: Env) returns (reply: Result<RoundData, Status>, ghost trail: Trail)
      requires Valid() && tid !in threads && Foreign(env, tid)
      modifies this, chain, db
      ensures Valid() && InOrder(old(history), trail, history) && Replied(tid, LatestPrice, reply)
      ensures ByTiers(env, LatestPrice, old(history), trail, Value(reply)) && Leaves(env, LatestPrice, trail, reply)
      ensures Readable(old(history), LatestPrice)
      ensures LatestFromTiers(env, trail, reply)
      ensures reply.Success? && InRange(chain.View()) ==> IsRound(chain.rounds, reply.value)
      ensures reply.Failure? ==> reply.error == ServerError
      ensures Works(env) ==> reply.Success?
    {
      var request := LatestPrice;
      Arrive(tid, request);
      LatestReadable(old(history), request);
      LatestReadable(history, request);
      reply, trail := Lookup(tid, env, request);
      LatestTiers(env, old(history), trail, reply);
      ReplyAgrees(tid, request, reply);
    }

    /** `GET /round/{id}` */
    method GetRound(tid: nat, env: Env, path: string) returns (reply: Result<RoundData, Status>, ghost trail: Trail)
      requires Valid() && tid !in threads && Foreign(env, tid)
      modifies this, chain, db
      ensures Valid() && InOrder(old(history), trail, history) && Replied(tid, RoundById(path), reply)
      ensures ParseUint(path).Some? ==>
                && ByTiers(env, RoundById(path), old(history), trail, Value(reply))
                && Leaves(env, RoundById(path), trail, reply)
      ensures ParseUint(path).Some? ==> RoundFromTiers(env, path, ParseUint(path).value, trail, reply)
      ensures reply.Success? && InRange(chain.View()) ==>
                IsRound(chain.rounds, reply.value) && ParseUint(path) == Some(reply.value.roundId)
      ensures reply == Failure(BadRequest) <==> ParseUint(path).None?
      ensures Works(env) && ParseUint(path).Some? && ParseUint(path).value < 9223372036854775808 ==>
                (1 <= ParseUint(path).value <= old(chain.latestRoundId) ==> reply.Success?)
    {
      var request := RoundById(path);
      if ParseUint(path).Some? && 1 <= PathId(path) <= chain.latestRoundId && PathId(path) < TWO_63 {
        WrittenReadable(history, path);
      }
      Arrive(tid, request);
      if ParseUint(path).None? {
        return Failure(BadRequest), Trail(history, history, history, history);
      }
      reply, trail := LookupRound(tid, env, path, old(history));
    }

    /** The handler past the parsing of its path. */
    method LookupRound(tid: nat, env: Env, path: string, ghost start: seq<Action>)
      returns (reply: Result<RoundData, Status>, ghost trail: Trail)
      requires Valid() && Foreign(env, tid) && AtPhase(tid, RoundById(path), CacheGet)
      requires ParseUint(path).Some? && start <= history
      modifies this, chain, db
      ensures Valid() && InOrder(old(history), trail, history) && Replied(tid, RoundById(path), reply)
      ensures ByTiers(env, RoundById(path), start, trail, Value(reply)) && Leaves(env, RoundById(path), trail, reply)
      ensures RoundFromTiers(env, path, ParseUint(path).value, trail, reply)
      ensures reply.Success? && InRange(chain.View()) ==>
                IsRound(chain.rounds, reply.value) && ParseUint(path) == Some(reply.value.roundId)
      ensures reply.Failure? ==> reply.error == ServerError
    {
      if Readable(start, RoundById(path)) {
        StaysReadable(start, history, RoundById(path));
      }
      reply, trail := Lookup(tid, env, RoundById(path));
      RoundTiers(env, path, start, trail, reply);
      ReplyAgrees(tid, RoundById(path), reply);
    }

    /** One call of `UpdatePrice`, of which the tiers see only whether it reports success. */
    method SubmitOnce(tid: nat, env: Env, n: nat, request: Request, attempt: nat)
      requires Valid() && Foreign(env, tid) && AtPhase(tid, request, Submit(attempt))
      modifies this, chain, db
      ensures Valid() && old(history) <= history
      ensures AtPhase(tid, request, if env.ok(n) then ChainRead(0) else AfterFailure(attempt, Submit(attempt + 1)))
    {
      Interleave(tid, env.others(n));
      Took(tid, env.ok(n), if env.ok(n) then ChainRead(0) else AfterFailure(attempt, Submit(attempt + 1)), View());
    }

    /** `UpdatePrice` inside `retry.Retry`; what the submissions do on the chain is the subject of `UpdatePath`. */
    method SubmitWithRetry(tid: nat, env: Env, n: nat, request: Request) returns (sent: bool)
      requires Valid() && Foreign(env, tid) && AtPhase(tid, request, Submit(0))
      modifies this, chain, db
      ensures Valid() && old(history) <= history
      ensures AtPhase(tid, request, if sent then ChainRead(0) else Finished(Failure(ServerError)))
      ensures sent <==> RetrySucceeds(env, n)
    {
      var attempt: nat := 0;
      while true
        invariant Valid() && old(history) <= history
        invariant RetrySucceeds(env, n) == Retry.Wins(env.cancelled, env.ok, n, attempt)
        invariant attempt < Retry.MAX_ATTEMPTS && AtPhase(tid, request, Submit(attempt))
        decreases Retry.MAX_ATTEMPTS - attempt
      {
        if env.cancelled(n + attempt) {
          Abandon(tid, request);
          return false;
        }
        SubmitOnce(tid, env, n + attempt, request, attempt);
        if env.ok(n + attempt) {
          return true;
        }
        if attempt == Retry.MAX_ATTEMPTS - 1 {
          return false;
        }
        attempt := attempt + 1;
      }
    }

    /** `IsOwner`: one contract read, no retry. */
    method AskOwner(tid: nat, env: Env, n: nat, request: Request) returns (refused: Option<Status>)
      requires Valid() && Foreign(env, tid) && AtPhase(tid, request, CheckOwner)
      modifies this, chain, db
      ensures Valid() && old(history) <= history
      ensures AtPhase(tid, request, if refused.Some? then Finished(Failure(refused.value)) else Submit(0))
      ensures refused == if !env.ok(n) then Some(ServerError)
                         else if chain.owner != service then Some(Unauthorized)
                         else None
    {
      Interleave(tid, env.others(n));
      if !env.ok(n) {
        refused := Some(ServerError);
      } else if chain.owner != service {
        refused := Some(Unauthorized);
      } else {
        refused := None;
      }
      Took(tid, env.ok(n), if refused.Some? then Finished(Failure(refused.value)) else Submit(0), View());
    }

    /** Ownership never changes. */
    lemma OwnerIsDeployer()
      requires Valid()
      ensures chain.owner == deployer
    {
      RunKeepsLog(deployer, deployedAt, []);
      ExecExtendsLog(Origin(), history);
    }

    /**
     What a confirmed update leaves behind: its reply was the contract's latest round, the cached value
     was dropped and the row is saved.
     */
    ghost predicate Confirmed(env: Env, request: Request, read: seq<Action>, dropped: seq<Action>, reply: RoundData)
      reads db
    {
      var s := Exec(Origin(), read).oracle;
      && Fetch(s, request) == Success(reply)
      && (InRange(s) ==> reply.roundId == s.latestRoundId && IsRound(s.rounds, reply))
      && (env.ok(7) ==> LatestKey !in Exec(Origin(), dropped).cache)
      && (env.ok(8) ==> reply.roundId in db.rows)
    }

    /** After the submission: drop the cached value, save the row and reply. */
    method Finish(tid: nat, env: Env, request: Request, held: Held) returns (ghost dropped: seq<Action>)
      requires Valid() && Foreign(env, tid) && AtPhase(tid, request, CacheDel(held)) && request.UpdatePrice?
      modifies this, chain, db
      ensures Valid() && old(history) <= dropped <= history && Replied(tid, request, Success(held.data))
      ensures env.ok(7) ==> LatestKey !in Exec(Origin(), dropped).cache
      ensures env.ok(8) ==> held.data.roundId in db.rows
    {
      DelCached(tid, env, 7, request, held);
      dropped := history;
      var _ := SaveRow(tid, env, 8, request, held);
      ghost var saved := history;
      WriteReply(tid, env, 9, request, held);
      if env.ok(8) {
        RowsStay(Origin(), saved, history, held.data.roundId);
      }
    }

    /** Reads the latest round back, with retries, before that. */
    method Confirm(tid: nat, env: Env, request: Request)
      returns (reply: Result<RoundData, Status>, ghost read: seq<Action>, ghost dropped: seq<Action>)
      requires Valid() && Foreign(env, tid) && AtPhase(tid, request, ChainRead(0)) && request.UpdatePrice?
      modifies this, chain, db
      ensures Valid() && old(history) <= read <= dropped <= history && Replied(tid, request, reply)
      ensures reply.Failure? ==> reply.error == ServerError
      ensures reply.Success? <==> RetrySucceeds(env, 4)
      ensures reply.Success? ==> Confirmed(env, request, read, dropped, reply.value)
    {
      LatestReadable(history, request);
      var held := FetchWithRetry(tid, env, 4, request);
      read, dropped := history, history;
      if held.None? {
        return Failure(ServerError), read, dropped;
      }
      FetchedIsStored(read, request);
      dropped := Finish(tid, env, request, held.value);
      reply := Success(held.value.data);
    }

    /** The handler past the checks of its body: `sent` leads up to the end of its submissions. */
    method Update(tid: nat, env: Env, request: Request)
      returns (reply: Result<RoundData, Status>, ghost sent: seq<Action>, ghost read: seq<Action>,
               ghost dropped: seq<Action>)
      requires Valid() && Foreign(env, tid) && AtPhase(tid, request, CheckOwner) && request.UpdatePrice?
      modifies this, chain, db
      ensures Valid() && old(history) <= sent <= read <= dropped <= history && Replied(tid, request, reply)
      ensures reply != Failure(BadRequest)
      ensures reply == Failure(Unauthorized) <==> env.ok(0) && deployer != service
      ensures reply.Success? <==> env.ok(0) && deployer == service && RetrySucceeds(env, 1) && RetrySucceeds(env, 4)
      ensures reply.Success? ==> Confirmed(env, request, read, dropped, reply.value)
    {
      var refused := AskOwner(tid, env, 0, request);
      OwnerIsDeployer();
      if refused.Some? {
        return Failure(refused.value), history, history, history;
      }
      var ok := SubmitWithRetry(tid, env, 1, request);
      sent := history;
      if !ok {
        return Failure(ServerError), sent, sent, sent;
      }
      reply, read, dropped := Confirm(tid, env, request);
    }

    /** `POST /updatePrice` */
    method PostUpdatePrice(tid: nat, env: Env, body: Option<int>)
      returns (reply: Result<RoundData, Status>, ghost sent: seq<Action>, ghost read: seq<Action>,
               ghost dropped: seq<Action>)
      requires Valid() && tid !in threads && Foreign(env, tid)
      modifies this, chain, db
      ensures Valid() && old(history) <= sent <= read <= dropped <= history && Replied(tid, UpdatePrice(body), reply)
      ensures reply.Success? && InRange(chain.View()) ==> IsRound(chain.rounds, reply.value)
      ensures reply == Failure(BadRequest) <==> body.None?
      ensures reply == Failure(Unauthorized) <==> body.Some? && env.ok(0) && chain.owner != service
      ensures reply.Success? <==>
                body.Some? && env.ok(0) && chain.owner == service && RetrySucceeds(env, 1) && RetrySucceeds(env, 4)
      ensures reply.Success? ==> Confirmed(env, UpdatePrice(body), read, dropped, reply.value)
      ensures Works(env) && body.Some? && chain.owner == service ==> reply.Success?
    {
      var request := UpdatePrice(body);
      Arrive(tid, request);
      OwnerIsDeployer();
      if body.None? {
        return Failure(BadRequest), history, history, history;
      }
      reply, sent, read, dropped := Update(tid, env, request);
      OwnerIsDeployer();
      ReplyAgrees(tid, request, reply);
    }
  }
}
