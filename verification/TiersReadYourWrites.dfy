/**
 When exactly `/latestPrice` can no longer fall behind a round, in every continuation with any
 concurrency and any failures. Taken at the state in which `/updatePrice` has replied with round `r`,
 this is read-your-writes.
 */
module TiersReadYourWrites {
  import opened Wrappers
  import opened Words
  import opened OracleContract
  import opened Database
  import opened Tiers
  import opened TiersAgreement
  import opened TiersSequential

  /** Every `/latestPrice` reply after the first `from` replies is at least round `r`. */
  ghost predicate RepliesReach(answers: seq<Answer>, from: nat, r: nat) {
    forall i | from <= i < |answers| && answers[i].request.LatestPrice? :: answers[i].data.roundId >= r
  }

  /** The property: no continuation, whatever its handlers, failures, delays and transactions, replies with less. */
  ghost predicate NeverBelow(w: World, r: nat) {
    forall actions :: InRange(Exec(w, actions).oracle) ==> RepliesReach(Exec(w, actions).answers, |w.answers|, r)
  }

  /** The live cached value, if any, is no older than `r`. */
  ghost predicate EntryReaches(w: World, r: nat) {
    LiveEntry(w, LatestKey).Some? ==> LiveEntry(w, LatestKey).value.data.roundId >= r
  }

  /** A `/latestPrice` handler holds nothing older than `r`. */
  ghost predicate ThreadReaches(t: Thread, r: nat) {
    t.request.LatestPrice? && HeldBy(t).Some? ==> HeldBy(t).value.data.roundId >= r
  }

  /** The condition, on the state alone: the table has reached `r`, and so have the cache and every reader in flight. */
  ghost predicate Reached(w: World, r: nat) {
    && (r <= 1 || r <= Top(w.rows))
    && EntryReaches(w, r)
    && forall tid | tid in w.threads :: ThreadReaches(w.threads[tid], r)
  }

  // ---- The condition is kept, and every reply under it is new enough ----

  lemma TopGrows(w: World, tid: nat, ok: bool)
    requires tid in w.threads
    ensures Top(Advance(w, tid, ok).rows) >= Top(w.rows)
  {
    var t := w.threads[tid];
    if t.phase.DbSave? {
      TopInserted(w.rows, Row(t.phase.held.data, w.now));
    }
  }

  /** Whatever a `/latestPrice` handler gets hold of has reached `r`. */
  lemma SourcesReach(w: World, t: Thread, ok: bool, r: nat)
    requires LogInvariant(w.oracle) && InRange(w.oracle) && Agreement(w)
    requires Reached(w, r) && ThreadReaches(t, r)
    ensures ThreadReaches(Thread(t.request, PhaseAfter(w, t, ok)), r)
  {
    if t.request.LatestPrice? {
      HeldOrigin(w, t, ok);
      SourceReachesTop(w, t.request);
      FetchAgrees(w.oracle, t.request);
      if w.rows.Keys != {} {
        CopiesAreWritten(w);
      }
    }
  }

  lemma AdvanceReached(w: World, tid: nat, ok: bool, r: nat)
    requires LogInvariant(w.oracle) && InRange(w.oracle) && Agreement(w) && AllShaped(w)
    requires Reached(w, r) && tid in w.threads
    ensures Reached(Advance(w, tid, ok), r)
    ensures RepliesReach(Advance(w, tid, ok).answers, |w.answers|, r)
  {
    var v, t := Advance(w, tid, ok), w.threads[tid];
    assert ThreadReaches(t, r) && Shaped(t);
    TopGrows(w, tid, ok);
    SourcesReach(w, t, ok, r);
    forall other | other in v.threads
      ensures ThreadReaches(v.threads[other], r)
    {
      assert other != tid ==> ThreadReaches(w.threads[other], r);
    }
  }

  lemma NextReached(w: World, a: Action, r: nat)
    requires LogInvariant(w.oracle) && InRange(w.oracle) && Agreement(w) && AllShaped(w)
    requires Reached(w, r)
    ensures Reached(Next(w, a), r)
    ensures RepliesReach(Next(w, a).answers, |w.answers|, r) && w.answers <= Next(w, a).answers
  {
    if a.Proceed? && a.tid in w.threads {
      AdvanceReached(w, a.tid, a.ok, r);
    } else {
      forall tid | tid in Next(w, a).threads
        ensures ThreadReaches(Next(w, a).threads[tid], r)
      {
        assert tid in w.threads ==> ThreadReaches(w.threads[tid], r);
      }
    }
  }

  lemma {:induction false} ExecReached(w: World, actions: seq<Action>, r: nat)
    requires LogInvariant(w.oracle) && Agreement(w) && AllShaped(w) && Reached(w, r)
    requires InRange(Exec(w, actions).oracle)
    ensures Reached(Exec(w, actions), r)
    ensures RepliesReach(Exec(w, actions).answers, |w.answers|, r) && |w.answers| <= |Exec(w, actions).answers|
  {
    if actions != [] {
      var front, a := actions[..|actions| - 1], actions[|actions| - 1];
      var before := Exec(w, front);
      ExecExtendsLog(w, front);
      NextExtendsLog(before, a);
      InRangeEarlier(before.oracle, Next(before, a).oracle);
      ExecReached(w, front, r);
      ExecAgrees(w, front);
      ExecShaped(w, front);
      NextReached(before, a, r);
    }
  }

  // ---- Where the condition fails, some continuation replies with less ----

  /** The actions touch no chain and end in a `/latestPrice` reply below `r`. */
  ghost predicate FallsBehind(w: World, actions: seq<Action>, r: nat) {
    Exec(w, actions).oracle == w.oracle && !RepliesReach(Exec(w, actions).answers, |w.answers|, r)
  }

  lemma FallsBehindLater(w: World, first: seq<Action>, rest: seq<Action>, r: nat)
    requires Exec(w, first).oracle == w.oracle && |Exec(w, first).answers| >= |w.answers|
    requires FallsBehind(Exec(w, first), rest, r)
    ensures FallsBehind(w, first + rest, r)
  {
    ExecAppend(w, first, rest);
  }

  lemma OneStep(w: World, a: Action)
    ensures Exec(w, [a]) == Next(w, a)
  {
    ExecSnoc(w, [], a);
    assert [] + [a] == [a];
  }

  /** How far a handler that holds data is from its reply. */
  function Remaining(phase: Phase): nat {
    match phase
    case CacheSet(_, _) => 2
    case CacheDel(_) => 2
    case DbSave(_) => 1
    case _ => 0
  }

  /** An old reader finishes, with every write of its own failing. */
  lemma {:induction false} OldReaderFinishes(w: World, tid: nat, r: nat) returns (actions: seq<Action>)
    requires tid in w.threads && !ThreadReaches(w.threads[tid], r)
    ensures FallsBehind(w, actions, r)
    decreases Remaining(w.threads[tid].phase)
  {
    var v := Next(w, Proceed(tid, false));
    OneStep(w, Proceed(tid, false));
    if w.threads[tid].phase.Respond? {
      actions := [Proceed(tid, false)];
      assert v.answers[|w.answers|].request.LatestPrice? && v.answers[|w.answers|].data.roundId < r;
    } else {
      var rest := OldReaderFinishes(v, tid, r);
      FallsBehindLater(w, [Proceed(tid, false)], rest, r);
      actions := [Proceed(tid, false)] + rest;
    }
  }

  lemma FreshTid(w: World) returns (tid: nat)
    ensures tid !in w.threads
  {
    if w.threads.Keys == {} {
      tid := 0;
    } else {
      MaxExists(w.threads.Keys);
      var top :| top in w.threads.Keys && forall j | j in w.threads.Keys :: j <= top;
      tid := top + 1;
    }
  }

  /** A new reader hits the old cached value. */
  lemma NewReaderHits(w: World, r: nat) returns (actions: seq<Action>)
    requires !EntryReaches(w, r)
    ensures FallsBehind(w, actions, r)
  {
    var tid := FreshTid(w);
    var begun := Next(w, Begin(tid, LatestPrice));
    var hit := Next(begun, Proceed(tid, true));
    var rest := OldReaderFinishes(hit, tid, r);
    OneStep(begun, Proceed(tid, true));
    FallsBehindLater(begun, [Proceed(tid, true)], rest, r);
    OneStep(w, Begin(tid, LatestPrice));
    FallsBehindLater(w, [Begin(tid, LatestPrice)], [Proceed(tid, true)] + rest, r);
    actions := [Begin(tid, LatestPrice)] + ([Proceed(tid, true)] + rest);
  }

  /** A new reader misses the cache and reads the newest row of an old table. */
  lemma NewReaderReadsTable(w: World, r: nat) returns (actions: seq<Action>)
    requires Agreement(w) && w.rows.Keys != {} && Top(w.rows) < r
    ensures FallsBehind(w, actions, r)
  {
    var tid := FreshTid(w);
    var begun := Next(w, Begin(tid, LatestPrice));
    var missed := Next(begun, Proceed(tid, false));
    var read := Next(missed, Proceed(tid, true));
    assert RowAgrees(w, MaxKey(w.rows));
    var rest := OldReaderFinishes(read, tid, r);
    OneStep(missed, Proceed(tid, true));
    FallsBehindLater(missed, [Proceed(tid, true)], rest, r);
    OneStep(begun, Proceed(tid, false));
    FallsBehindLater(begun, [Proceed(tid, false)], [Proceed(tid, true)] + rest, r);
    OneStep(w, Begin(tid, LatestPrice));
    FallsBehindLater(w, [Begin(tid, LatestPrice)], [Proceed(tid, false)] + ([Proceed(tid, true)] + rest), r);
    actions := [Begin(tid, LatestPrice)] + ([Proceed(tid, false)] + ([Proceed(tid, true)] + rest));
  }

  lemma FirstPathIsOne()
    ensures ParseUint("1") == Some(1)
  {
    ParseRendered(1);
    assert Render(1) == "1";
  }

  /** The handler of `/round/1`, at `phase`. */
  function FirstRound(w: World, tid: nat, phase: Phase): World {
    w.(threads := w.threads[tid := Thread(RoundById("1"), phase)])
  }

  /** While the table is empty, `/round/1` gets as far as the contract. */
  lemma FirstRoundRead(w: World, tid: nat) returns (actions: seq<Action>)
    requires LogInvariant(w.oracle) && InRange(w.oracle) && w.rows.Keys == {} && tid !in w.threads
    ensures FetchRound(w.oracle, 1).Success?
    ensures var held := Held(FetchRound(w.oracle, 1).value, w.now, w.now, false);
            Exec(w, actions) == FirstRound(w, tid, CacheSet(held, true))
  {
    FirstPathIsOne();
    FetchRoundNeverWrong(w.oracle, 1);
    var held := Held(FetchRound(w.oracle, 1).value, w.now, w.now, false);
    actions := [Begin(tid, RoundById("1"))];
    OneStep(w, Begin(tid, RoundById("1")));
    assert Exec(w, actions) == FirstRound(w, tid, CacheGet);
    ExecSnoc(w, actions, Proceed(tid, false));
    actions := actions + [Proceed(tid, false)];
    assert Exec(w, actions) == FirstRound(w, tid, DbGet);
    ExecSnoc(w, actions, Proceed(tid, true));
    actions := actions + [Proceed(tid, true)];
    assert Exec(w, actions) == FirstRound(w, tid, ChainRead(0));
    ExecSnoc(w, actions, Proceed(tid, true));
    actions := actions + [Proceed(tid, true)];
    assert Exec(w, actions) == FirstRound(w, tid, CacheSet(held, true));
  }

  /** From there it saves round 1, and only that. */
  lemma FirstRoundSaved(w: World, tid: nat, held: Held) returns (actions: seq<Action>)
    requires held.data.roundId == 1 && w.rows.Keys == {}
    ensures var v := Exec(FirstRound(w, tid, CacheSet(held, true)), actions);
            v.oracle == w.oracle && v.rows.Keys == {1} && v.answers == w.answers
  {
    var reading := FirstRound(w, tid, CacheSet(held, true));
    var saving := FirstRound(w, tid, DbSave(held));
    var saved := FirstRound(w, tid, Respond(held)).(rows := Inserted(w.rows, Row(held.data, w.now)));
    assert Next(reading, Proceed(tid, false)) == saving;
    assert Next(saving, Proceed(tid, true)) == saved;
    actions := [Proceed(tid, false)] + [Proceed(tid, true)];
    OneStep(reading, Proceed(tid, false));
    ExecSnoc(reading, [Proceed(tid, false)], Proceed(tid, true));
    assert saved.rows.Keys == {1};
  }

  /** An empty table can be filled with round 1 alone, and then be read. */
  lemma EmptyTableFallsBehind(w: World, r: nat) returns (actions: seq<Action>)
    requires LogInvariant(w.oracle) && InRange(w.oracle) && Agreement(w) && w.rows.Keys == {} && r > 1
    ensures FallsBehind(w, actions, r)
  {
    var tid := FreshTid(w);
    var read := FirstRoundRead(w, tid);
    var held := Held(FetchRound(w.oracle, 1).value, w.now, w.now, false);
    var save := FirstRoundSaved(w, tid, held);
    ExecAppend(w, read, save);
    var v := Exec(w, read + save);
    ExecAgrees(w, read + save);
    var rest := NewReaderReadsTable(v, r);
    FallsBehindLater(w, read + save, rest, r);
    actions := read + save + rest;
  }

  lemma UnreachedFallsBehind(w: World, r: nat) returns (actions: seq<Action>)
    requires LogInvariant(w.oracle) && InRange(w.oracle) && Agreement(w) && !Reached(w, r)
    ensures FallsBehind(w, actions, r)
  {
    if tid :| tid in w.threads && !ThreadReaches(w.threads[tid], r) {
      actions := OldReaderFinishes(w, tid, r);
    } else if !EntryReaches(w, r) {
      actions := NewReaderHits(w, r);
    } else if w.rows.Keys == {} {
      actions := EmptyTableFallsBehind(w, r);
    } else {
      actions := NewReaderReadsTable(w, r);
    }
  }

  /**
   From any agreeing state: no later `/latestPrice` reply is ever below `r` if and only if table, live
   entry and readers in flight have reached `r`.
   */
  lemma NeverBelowExactly(w: World, r: nat)
    requires LogInvariant(w.oracle) && InRange(w.oracle) && Agreement(w) && AllShaped(w)
    ensures NeverBelow(w, r) <==> Reached(w, r)
  {
    if Reached(w, r) {
      forall actions | InRange(Exec(w, actions).oracle)
        ensures RepliesReach(Exec(w, actions).answers, |w.answers|, r)
      {
        ExecReached(w, actions, r);
      }
    } else {
      var actions := UnreachedFallsBehind(w, r);
      assert InRange(Exec(w, actions).oracle);
    }
  }

  /**
   Read-your-writes and monotone reads, exactly: after any run from a fresh deployment whose last reply was round `r`,
   to an update or a read, no later `/latestPrice` reply is ever below `r` if and only if the table, the live entry
   and the readers in flight have reached `r` by then.
   */
  lemma ReadYourWritesExactly(deployer: Address, timestamp: nat, service: Address, now: int, actions: seq<Action>)
    requires var w := Exec(Start(deployer, timestamp, service, now), actions); InRange(w.oracle) && w.answers != []
    ensures var w := Exec(Start(deployer, timestamp, service, now), actions);
            var r := w.answers[|w.answers| - 1].data.roundId;
            NeverBelow(w, r) <==> Reached(w, r)
  {
    var start := Start(deployer, timestamp, service, now);
    AllTiersAgree(deployer, timestamp, service, now, actions);
    ExecShaped(start, actions);
    var w := Exec(start, actions);
    NeverBelowExactly(w, w.answers[|w.answers| - 1].data.roundId);
  }
}
