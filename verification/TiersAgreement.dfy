/** Every copy of a round, in every tier and in flight, equals the contract's round, in every reachable state. */
module TiersAgreement {
  import opened Wrappers
  import opened Words
  import opened OracleContract
  import opened Tiers

  /** A request for one round is only ever given that round. */
  ghost predicate Names(request: Request, id: nat) {
    request.RoundById? ==> ParseUint(request.path) == Some(id)
  }

  ghost predicate RowAgrees(w: World, k: nat)
    requires k in w.rows
  {
    w.rows[k].data.roundId == k && Agrees(w.oracle, w.rows[k].data)
  }

  ghost predicate EntryAgrees(w: World, key: Key)
    requires key in w.cache
  {
    && Agrees(w.oracle, w.cache[key].data)
    && (key.RoundKey? ==> ParseUint(key.path) == Some(w.cache[key].data.roundId))
  }

  ghost predicate ThreadAgrees(w: World, tid: nat)
    requires tid in w.threads
  {
    && (w.threads[tid].request.RoundById? && ParseUint(w.threads[tid].request.path).None? ==>
        w.threads[tid].phase.Finished?)
    && match DataOf(w.threads[tid])
       case Some(d) => Agrees(w.oracle, d) && Names(w.threads[tid].request, d.roundId)
       case None => true
  }

  ghost predicate AnswerAgrees(w: World, i: nat)
    requires i < |w.answers|
  {
    Agrees(w.oracle, w.answers[i].data) && Names(w.answers[i].request, w.answers[i].data.roundId)
  }

  ghost predicate Agreement(w: World) {
    && (forall k | k in w.rows :: RowAgrees(w, k))
    && (forall key | key in w.cache :: EntryAgrees(w, key))
    && (forall tid | tid in w.threads :: ThreadAgrees(w, tid))
    && (forall i: nat | i < |w.answers| :: AnswerAgrees(w, i))
  }

  lemma AgreesLater(s: Storage, t: Storage, d: RoundData)
    requires Extends(s, t) && Agrees(s, d)
    ensures Agrees(t, d)
  {
    ReadsAreStable(s, t, d.roundId);
  }

  /** Reading the contract, with all its conversions, gives a faithful copy of the round asked for. */
  lemma {:induction false} FetchAgrees(s: Storage, request: Request)
    requires LogInvariant(s) && InRange(s)
    requires request.RoundById? ==> ParseUint(request.path).Some?
    ensures Fetch(s, request).Success? ==>
              Agrees(s, Fetch(s, request).value) && Names(request, Fetch(s, request).value.roundId)
    ensures !request.RoundById? ==> Fetch(s, request).Success? && Fetch(s, request).value.roundId == s.latestRoundId
  {
    if request.RoundById? {
      var id := PathId(request.path);
      FetchRoundNeverWrong(s, id);
      ReadableExactlyWhenWritten(s, id);
      assert Fetch(s, request).Success? ==> Written(s, id);
    } else {
      FetchLatestFaithful(s);
      ReadableExactlyWhenWritten(s, s.latestRoundId);
      assert Written(s, s.latestRoundId);
    }
  }

  /** Moving one thread on, holding agreeing data, disturbs nothing else. */
  lemma AtAgrees(w: World, tid: nat, phase: Phase)
    requires Agreement(w) && tid in w.threads && ThreadAgrees(At(w, tid, phase), tid)
    ensures Agreement(At(w, tid, phase))
  {
    var v := At(w, tid, phase);
    forall other | other in v.threads
      ensures ThreadAgrees(v, other)
    {
      assert other != tid ==> ThreadAgrees(w, other);
    }
    forall k | k in v.rows ensures RowAgrees(v, k) { assert RowAgrees(w, k); }
    forall key | key in v.cache ensures EntryAgrees(v, key) { assert EntryAgrees(w, key); }
    forall i: nat | i < |v.answers| ensures AnswerAgrees(v, i) { assert AnswerAgrees(w, i); }
  }

  /** Filling one key with agreeing data, adding an agreeing row or an agreeing reply, keeps agreement. */
  lemma WriteAgrees(w: World, v: World, d: RoundData, request: Request)
    requires Agreement(w) && Agrees(w.oracle, d) && Names(request, d.roundId)
    requires v.oracle == w.oracle && v.threads == w.threads
    requires forall k | k in v.rows ::
              if k in w.rows then v.rows[k] == w.rows[k] else v.rows[k].data == d && k == d.roundId
    requires forall key | key in v.cache ::
              (key in w.cache && v.cache[key] == w.cache[key]) || (key == KeyOf(request) && v.cache[key].data == d)
    requires forall i: nat | i < |v.answers| ::
               || (i < |w.answers| && v.answers[i] == w.answers[i])
               || (v.answers[i].request == request && v.answers[i].data == d)
    ensures Agreement(v)
  {
    forall tid | tid in v.threads ensures ThreadAgrees(v, tid) { assert ThreadAgrees(w, tid); }
    forall k | k in v.rows ensures RowAgrees(v, k) { assert k in w.rows ==> RowAgrees(w, k); }
    forall key | key in v.cache
      ensures EntryAgrees(v, key)
    {
      assert key in w.cache ==> EntryAgrees(w, key);
    }
    forall i: nat | i < |v.answers| ensures AnswerAgrees(v, i) { assert i < |w.answers| ==> AnswerAgrees(w, i); }
  }

  predicate Writes(phase: Phase) {
    phase.CacheSet? || phase.CacheDel? || phase.DbSave? || phase.Respond?
  }

  lemma CacheGetAgrees(w: World, tid: nat, ok: bool)
    requires Agreement(w) && tid in w.threads && w.threads[tid].phase.CacheGet?
    ensures Agreement(Advance(w, tid, ok))
  {
    var key := KeyOf(w.threads[tid].request);
    assert ThreadAgrees(w, tid);
    assert key in w.cache ==> EntryAgrees(w, key);
    AtAgrees(w, tid, Advance(w, tid, ok).threads[tid].phase);
  }

  lemma DbGetAgrees(w: World, tid: nat, ok: bool)
    requires Agreement(w) && tid in w.threads && w.threads[tid].phase.DbGet?
    ensures Agreement(Advance(w, tid, ok))
  {
    assert ThreadAgrees(w, tid);
    assert forall k | k in w.rows :: RowAgrees(w, k);
    AtAgrees(w, tid, Advance(w, tid, ok).threads[tid].phase);
  }

  lemma ChainReadAgrees(w: World, tid: nat, ok: bool)
    requires LogInvariant(w.oracle) && InRange(w.oracle)
    requires Agreement(w) && tid in w.threads && w.threads[tid].phase.ChainRead?
    ensures Agreement(Advance(w, tid, ok))
  {
    assert ThreadAgrees(w, tid);
    FetchAgrees(w.oracle, w.threads[tid].request);
    AtAgrees(w, tid, Advance(w, tid, ok).threads[tid].phase);
  }

  lemma WritingAgrees(w: World, tid: nat, ok: bool)
    requires Agreement(w) && tid in w.threads && Writes(w.threads[tid].phase)
    ensures Agreement(Advance(w, tid, ok))
  {
    var v := Advance(w, tid, ok);
    var d := w.threads[tid].phase.held.data;
    assert ThreadAgrees(w, tid);
    AtAgrees(w, tid, v.threads[tid].phase);
    WriteAgrees(At(w, tid, v.threads[tid].phase), v, d, w.threads[tid].request);
  }

  lemma AdvanceAgrees(w: World, tid: nat, ok: bool)
    requires LogInvariant(w.oracle) && InRange(w.oracle) && Agreement(w) && tid in w.threads
    ensures Agreement(Advance(w, tid, ok))
  {
    var phase := w.threads[tid].phase;
    if phase.CacheGet? {
      CacheGetAgrees(w, tid, ok);
    } else if phase.DbGet? {
      DbGetAgrees(w, tid, ok);
    } else if phase.ChainRead? {
      ChainReadAgrees(w, tid, ok);
    } else if Writes(phase) {
      WritingAgrees(w, tid, ok);
    } else {
      assert ThreadAgrees(w, tid);
      AtAgrees(w, tid, Advance(w, tid, ok).threads[tid].phase);
    }
  }

  lemma TransactAgrees(w: World, call: Call)
    requires LogInvariant(w.oracle) && Agreement(w)
    ensures Agreement(Next(w, Transact(call)))
  {
    var v := Next(w, Transact(call));
    ExecuteExtends(w.oracle, call);
    forall d | Agrees(w.oracle, d)
      ensures Agrees(v.oracle, d)
    {
      AgreesLater(w.oracle, v.oracle, d);
    }
    forall k | k in v.rows
      ensures RowAgrees(v, k)
    {
      assert RowAgrees(w, k);
    }
    forall key | key in v.cache
      ensures EntryAgrees(v, key)
    {
      assert EntryAgrees(w, key);
    }
    forall tid | tid in v.threads
      ensures ThreadAgrees(v, tid)
    {
      assert ThreadAgrees(w, tid);
    }
    forall i: nat | i < |v.answers|
      ensures AnswerAgrees(v, i)
    {
      assert AnswerAgrees(w, i);
    }
  }

  /** New threads hold nothing, and time changes no copy. */
  lemma BeginOrTickAgrees(w: World, v: World)
    requires Agreement(w) && v.oracle == w.oracle && v.rows == w.rows && v.cache == w.cache && v.answers == w.answers
    requires forall tid | tid in v.threads ::
               || (tid in w.threads && v.threads[tid] == w.threads[tid])
               || v.threads[tid].phase == Enter(v.threads[tid].request)
    ensures Agreement(v)
  {
    forall k | k in v.rows ensures RowAgrees(v, k) { assert RowAgrees(w, k); }
    forall key | key in v.cache ensures EntryAgrees(v, key) { assert EntryAgrees(w, key); }
    forall i: nat | i < |v.answers| ensures AnswerAgrees(v, i) { assert AnswerAgrees(w, i); }
    forall tid | tid in v.threads
      ensures ThreadAgrees(v, tid)
    {
      assert tid in w.threads ==> ThreadAgrees(w, tid);
    }
  }

  lemma NextAgrees(w: World, a: Action)
    requires LogInvariant(w.oracle) && InRange(w.oracle) && Agreement(w)
    ensures Agreement(Next(w, a))
  {
    match a
    case Begin(_, _) => BeginOrTickAgrees(w, Next(w, a));
    case Tick(_) => BeginOrTickAgrees(w, Next(w, a));
    case Transact(call) => TransactAgrees(w, call);
    case Proceed(tid, ok) =>
      if tid in w.threads {
        AdvanceAgrees(w, tid, ok);
      }
    case Cancel(tid) =>
      if Next(w, a) != w {
        assert ThreadAgrees(w, tid);
        AtAgrees(w, tid, Finished(Failure(ServerError)));
      }
  }

  lemma NextExtendsLog(w: World, a: Action)
    requires LogInvariant(w.oracle)
    ensures LogInvariant(Next(w, a).oracle) && Extends(w.oracle, Next(w, a).oracle)
  {
    if a.Transact? {
      ExecuteKeepsLog(w.oracle, a.call);
      ExecuteExtends(w.oracle, a.call);
    }
  }

  lemma {:induction false} ExecExtendsLog(w: World, actions: seq<Action>)
    requires LogInvariant(w.oracle)
    ensures LogInvariant(Exec(w, actions).oracle) && Extends(w.oracle, Exec(w, actions).oracle)
  {
    if actions != [] {
      var before := Exec(w, actions[..|actions| - 1]);
      ExecExtendsLog(w, actions[..|actions| - 1]);
      NextExtendsLog(before, actions[|actions| - 1]);
      ExtendsTransitive(w.oracle, before.oracle, Exec(w, actions).oracle);
    }
  }

  /** Agreement is kept by every interleaving, as long as the identifiers and times reached fit 64 bits. */
  lemma {:induction false} ExecAgrees(w: World, actions: seq<Action>)
    requires LogInvariant(w.oracle) && Agreement(w)
    requires InRange(Exec(w, actions).oracle)
    ensures Agreement(Exec(w, actions))
  {
    if actions != [] {
      var front, a := actions[..|actions| - 1], actions[|actions| - 1];
      var before := Exec(w, front);
      ExecExtendsLog(w, front);
      NextExtendsLog(before, a);
      InRangeEarlier(before.oracle, Next(before, a).oracle);
      ExecAgrees(w, front);
      NextAgrees(before, a);
    }
  }

  lemma StartAgrees(deployer: Address, timestamp: nat, service: Address, now: int)
    ensures var w := Start(deployer, timestamp, service, now); LogInvariant(w.oracle) && Agreement(w)
  {
    RunKeepsLog(deployer, timestamp, []);
  }

  /**
   From a fresh deployment, over every interleaved run with arbitrary failures: all tiers, reads in
   flight and replies agree with the contract.
   */
  lemma AllTiersAgree(deployer: Address, timestamp: nat, service: Address, now: int, actions: seq<Action>)
    requires InRange(Exec(Start(deployer, timestamp, service, now), actions).oracle)
    ensures var w := Exec(Start(deployer, timestamp, service, now), actions);
            && LogInvariant(w.oracle)
            && Agreement(w)
            && (forall k | k in w.rows :: 1 <= k <= w.oracle.latestRoundId)
            && (forall key | key in w.cache :: 1 <= w.cache[key].data.roundId <= w.oracle.latestRoundId)
  {
    StartAgrees(deployer, timestamp, service, now);
    ExecExtendsLog(Start(deployer, timestamp, service, now), actions);
    ExecAgrees(Start(deployer, timestamp, service, now), actions);
    CopiesAreWritten(Exec(Start(deployer, timestamp, service, now), actions));
  }

  /** No tier holds a round the contract lacks. */
  lemma CopiesAreWritten(w: World)
    requires LogInvariant(w.oracle) && Agreement(w)
    ensures forall k | k in w.rows :: 1 <= k <= w.oracle.latestRoundId
    ensures forall key | key in w.cache :: 1 <= w.cache[key].data.roundId <= w.oracle.latestRoundId
  {
    forall k | k in w.rows
      ensures 1 <= k <= w.oracle.latestRoundId
    {
      assert RowAgrees(w, k);
      ReadableExactlyWhenWritten(w.oracle, k);
    }
    forall key | key in w.cache
      ensures 1 <= w.cache[key].data.roundId <= w.oracle.latestRoundId
    {
      assert EntryAgrees(w, key);
      ReadableExactlyWhenWritten(w.oracle, w.cache[key].data.roundId);
    }
  }

  /** Whichever tier answered, a successful `/round/{id}` reply is the direct contract read of that round. */
  lemma RoundReplyIsContractRead(
      deployer: Address, timestamp: nat, service: Address, now: int, actions: seq<Action>, i: nat)
    requires var w := Exec(Start(deployer, timestamp, service, now), actions);
             InRange(w.oracle) && i < |w.answers| && w.answers[i].request.RoundById?
    ensures var w := Exec(Start(deployer, timestamp, service, now), actions);
            ParseUint(w.answers[i].request.path).Some?
            && GetRoundData(w.oracle, PathId(w.answers[i].request.path)) == Success(w.answers[i].data)
  {
    AllTiersAgree(deployer, timestamp, service, now, actions);
    assert AnswerAgrees(Exec(Start(deployer, timestamp, service, now), actions), i);
  }

  /** Two paths that name the same round, such as `7` and `007`, get equal successful replies, at whatever times. */
  lemma SameRoundSameReply(
      deployer: Address, timestamp: nat, service: Address, now: int, actions: seq<Action>, i: nat, j: nat)
    requires var w := Exec(Start(deployer, timestamp, service, now), actions);
             && InRange(w.oracle) && i < |w.answers| && j < |w.answers|
             && w.answers[i].request.RoundById? && w.answers[j].request.RoundById?
             && ParseUint(w.answers[i].request.path) == ParseUint(w.answers[j].request.path)
    ensures var w := Exec(Start(deployer, timestamp, service, now), actions); w.answers[i].data == w.answers[j].data
  {
    RoundReplyIsContractRead(deployer, timestamp, service, now, actions, i);
    RoundReplyIsContractRead(deployer, timestamp, service, now, actions, j);
  }

  /**
   A path identifier that names no written round, 2^63 and everything above it among them, is never answered
   and never written: no row, no cache entry under the path's key, no read in flight.
   */
  lemma UnwrittenNeverServed(
      deployer: Address, timestamp: nat, service: Address, now: int, actions: seq<Action>, path: string)
    requires var w := Exec(Start(deployer, timestamp, service, now), actions);
             InRange(w.oracle) && ParseUint(path).Some? && !(1 <= PathId(path) <= w.oracle.latestRoundId)
    ensures var w := Exec(Start(deployer, timestamp, service, now), actions);
            && PathId(path) !in w.rows
            && RoundKey(path) !in w.cache
            && (forall tid | tid in w.threads && w.threads[tid].request == RoundById(path) ::
                DataOf(w.threads[tid]).None?)
            && (forall i | 0 <= i < |w.answers| :: w.answers[i].request != RoundById(path))
  {
    var w := Exec(Start(deployer, timestamp, service, now), actions);
    AllTiersAgree(deployer, timestamp, service, now, actions);
    ReadableExactlyWhenWritten(w.oracle, PathId(path));
    assert RoundKey(path) in w.cache ==> EntryAgrees(w, RoundKey(path));
    forall tid | tid in w.threads && w.threads[tid].request == RoundById(path)
      ensures DataOf(w.threads[tid]).None?
    {
      assert ThreadAgrees(w, tid);
    }
    forall i | 0 <= i < |w.answers|
      ensures w.answers[i].request != RoundById(path)
    {
      assert AnswerAgrees(w, i);
    }
  }
}
