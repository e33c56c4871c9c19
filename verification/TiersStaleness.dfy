/** How old a `/latestPrice` reply can be, under every interleaving and every failure, and that the bound is reached. */
module TiersStaleness {
  import opened OracleContract
  import opened Database
  import opened Tiers
  import opened TiersAgreement

  /** Data at least as new as every row that was in the table before `t`. */
  ghost predicate Fresh(rows: Rows, d: RoundData, t: int) {
    forall k | k in rows :: rows[k].savedAt < t ==> k <= d.roundId
  }

  /**
   No `/latestPrice` handler holds data for longer than `hold` after reading it from the table or the contract,
   or `serve` after a cache hit. Other handlers may stall as they like.
   */
  ghost predicate Prompt(w: World, hold: nat, serve: nat) {
    forall tid | tid in w.threads :: PromptThread(w.threads[tid], w.now, hold, serve)
  }

  ghost predicate PromptThread(t: Thread, now: int, hold: nat, serve: nat) {
    t.request.LatestPrice? ==>
      match HeldBy(t)
      case Some(h) => now - h.gotAt <= if h.fromCache then serve else hold
      case None => true
  }

  ghost predicate PromptRun(w: World, actions: seq<Action>, hold: nat, serve: nat) {
    forall i | 0 <= i <= |actions| :: Prompt(Exec(w, actions[..i]), hold, serve)
  }

  ghost predicate RowsDated(w: World) {
    forall k | k in w.rows :: w.rows[k].savedAt <= w.now
  }

  ghost predicate EntryFresh(w: World, hold: nat) {
    LatestKey in w.cache ==>
      var e := w.cache[LatestKey];
      e.readAt <= w.now && Fresh(w.rows, e.data, e.readAt) && e.expiresAt <= e.readAt + hold + TTL
  }

  ghost predicate ThreadFresh(w: World, t: Thread, hold: nat) {
    && (t.phase.CacheSet? ==> !t.phase.held.fromCache)
    && match HeldBy(t)
       case Some(h) =>
         t.request.LatestPrice? ==>
           && h.readAt <= h.gotAt <= w.now
           && Fresh(w.rows, h.data, h.readAt)
           && (if h.fromCache then h.gotAt <= h.readAt + hold + TTL else h.gotAt == h.readAt)
       case None => true
  }

  ghost predicate AnswerFresh(w: World, a: Answer, hold: nat, serve: nat) {
    a.at <= w.now && (a.request.LatestPrice? ==> Fresh(w.rows, a.data, a.at - (TTL + hold + serve)))
  }

  ghost predicate FreshState(w: World, hold: nat, serve: nat) {
    && RowsDated(w)
    && EntryFresh(w, hold)
    && (forall tid | tid in w.threads :: ThreadFresh(w, w.threads[tid], hold))
    && (forall i: nat | i < |w.answers| :: AnswerFresh(w, w.answers[i], hold, serve))
  }

  /** The table only gains rows, dated now. */
  ghost predicate RowsGrow(w: World, v: World) {
    forall k | k in v.rows :: (k in w.rows && v.rows[k] == w.rows[k]) || v.rows[k].savedAt == w.now
  }

  /** Rows inserted now take nothing from what is fresh for a moment no later. */
  lemma FreshKept(w: World, v: World, d: RoundData, t: int)
    requires RowsGrow(w, v) && Fresh(w.rows, d, t) && t <= w.now
    ensures Fresh(v.rows, d, t)
  {
  }

  lemma ThreadFreshKept(w: World, v: World, t: Thread, hold: nat)
    requires RowsGrow(w, v) && w.now <= v.now && ThreadFresh(w, t, hold)
    ensures ThreadFresh(v, t, hold)
  {
    if HeldBy(t).Some? && t.request.LatestPrice? {
      FreshKept(w, v, HeldBy(t).value.data, HeldBy(t).value.readAt);
    }
  }

  lemma AnswerFreshKept(w: World, v: World, a: Answer, hold: nat, serve: nat)
    requires RowsGrow(w, v) && w.now <= v.now && AnswerFresh(w, a, hold, serve)
    ensures AnswerFresh(v, a, hold, serve)
  {
    if a.request.LatestPrice? {
      FreshKept(w, v, a.data, a.at - (TTL + hold + serve));
    }
  }

  /** Freshness of everything that is not touched. */
  lemma UntouchedFresh(w: World, v: World, hold: nat, serve: nat)
    requires FreshState(w, hold, serve) && RowsGrow(w, v) && w.now <= v.now
    ensures RowsDated(v)
    ensures forall other | other in w.threads :: ThreadFresh(v, w.threads[other], hold)
    ensures forall i: nat | i < |w.answers| :: AnswerFresh(v, w.answers[i], hold, serve)
    ensures v.cache == w.cache ==> EntryFresh(v, hold)
  {
    forall other | other in w.threads
      ensures ThreadFresh(v, w.threads[other], hold)
    {
      ThreadFreshKept(w, v, w.threads[other], hold);
    }
    forall i: nat | i < |w.answers|
      ensures AnswerFresh(v, w.answers[i], hold, serve)
    {
      AnswerFreshKept(w, v, w.answers[i], hold, serve);
    }
    if LatestKey in w.cache {
      FreshKept(w, v, w.cache[LatestKey].data, w.cache[LatestKey].readAt);
    }
  }

  /** The largest row, and the contract's latest round, are at least as new as every row. */
  lemma SourceIsFresh(w: World, request: Request, t: int)
    requires LogInvariant(w.oracle) && InRange(w.oracle) && Agreement(w) && request.LatestPrice?
    ensures QueryRow(w.rows, request).Some? ==> Fresh(w.rows, QueryRow(w.rows, request).value.data, t)
    ensures Fetch(w.oracle, request).Success? ==> Fresh(w.rows, Fetch(w.oracle, request).value, t)
  {
    FetchAgrees(w.oracle, request);
    CopiesAreWritten(w);
    if QueryRow(w.rows, request).Some? {
      assert RowAgrees(w, MaxKey(w.rows));
    }
  }

  /** The thread that moves stays fresh. */
  lemma MovedThreadFresh(w: World, tid: nat, ok: bool, hold: nat)
    requires LogInvariant(w.oracle) && InRange(w.oracle) && Agreement(w)
    requires tid in w.threads && ThreadFresh(w, w.threads[tid], hold) && EntryFresh(w, hold)
    ensures ThreadFresh(w, Advance(w, tid, ok).threads[tid], hold)
  {
    var request := w.threads[tid].request;
    HeldOrigin(w, w.threads[tid], ok);
    if request.LatestPrice? {
      SourceIsFresh(w, request, w.now);
    }
  }

  lemma EntryStaysFresh(w: World, tid: nat, ok: bool, hold: nat, serve: nat)
    requires EntryFresh(w, hold) && tid in w.threads && Shaped(w.threads[tid])
    requires ThreadFresh(w, w.threads[tid], hold) && PromptThread(w.threads[tid], w.now, hold, serve)
    ensures EntryFresh(Advance(w, tid, ok), hold)
  {
  }

  lemma ReplyIsFresh(w: World, tid: nat, ok: bool, hold: nat, serve: nat)
    requires tid in w.threads && w.threads[tid].phase.Respond?
    requires ThreadFresh(w, w.threads[tid], hold) && PromptThread(w.threads[tid], w.now, hold, serve)
    ensures AnswerFresh(w, Answer(w.threads[tid].request, w.threads[tid].phase.held.data, w.now), hold, serve)
  {
  }

  lemma AdvanceFresh(w: World, tid: nat, ok: bool, hold: nat, serve: nat)
    requires LogInvariant(w.oracle) && InRange(w.oracle) && Agreement(w)
    requires FreshState(w, hold, serve) && Prompt(w, hold, serve) && tid in w.threads && Shaped(w.threads[tid])
    ensures FreshState(Advance(w, tid, ok), hold, serve)
  {
    var v := Advance(w, tid, ok);
    assert ThreadFresh(w, w.threads[tid], hold) && PromptThread(w.threads[tid], w.now, hold, serve);
    UntouchedFresh(w, v, hold, serve);
    MovedThreadFresh(w, tid, ok, hold);
    ThreadFreshKept(w, v, v.threads[tid], hold);
    EntryStaysFresh(w, tid, ok, hold, serve);
    if w.threads[tid].phase.Respond? {
      ReplyIsFresh(w, tid, ok, hold, serve);
    }
  }

  lemma NextFresh(w: World, a: Action, hold: nat, serve: nat)
    requires LogInvariant(w.oracle) && InRange(w.oracle) && Agreement(w)
    requires FreshState(w, hold, serve) && Prompt(w, hold, serve) && AllShaped(w)
    ensures FreshState(Next(w, a), hold, serve)
  {
    if a.Proceed? && a.tid in w.threads {
      AdvanceFresh(w, a.tid, a.ok, hold, serve);
    } else {
      UntouchedFresh(w, Next(w, a), hold, serve);
    }
  }

  lemma {:induction false} ExecFresh(w: World, actions: seq<Action>, hold: nat, serve: nat)
    requires LogInvariant(w.oracle) && Agreement(w) && AllShaped(w) && FreshState(w, hold, serve)
    requires InRange(Exec(w, actions).oracle) && PromptRun(w, actions, hold, serve)
    ensures FreshState(Exec(w, actions), hold, serve)
  {
    if actions != [] {
      var front, a := actions[..|actions| - 1], actions[|actions| - 1];
      var before := Exec(w, front);
      ExecExtendsLog(w, front);
      NextExtendsLog(before, a);
      InRangeEarlier(before.oracle, Next(before, a).oracle);
      forall i | 0 <= i <= |front|
        ensures Prompt(Exec(w, front[..i]), hold, serve)
      {
        assert front[..i] == actions[..i];
      }
      ExecFresh(w, front, hold, serve);
      ExecAgrees(w, front);
      ExecShaped(w, front);
      assert front[..|front|] == front;
      NextFresh(before, a, hold, serve);
    }
  }

  /**
   The staleness bound: a reply is at least as new as every row saved more than ten seconds plus both
   delays before it.
   */
  lemma StalenessBound(
      deployer: Address, timestamp: nat, service: Address, start: int, actions: seq<Action>, hold: nat, serve: nat,
      i: nat, k: nat)
    requires var w := Exec(Start(deployer, timestamp, service, start), actions);
             && InRange(w.oracle)
             && PromptRun(Start(deployer, timestamp, service, start), actions, hold, serve)
             && i < |w.answers| && w.answers[i].request.LatestPrice?
             && k in w.rows && w.rows[k].savedAt < w.answers[i].at - (10_000 + hold + serve)
    ensures var w := Exec(Start(deployer, timestamp, service, start), actions);
            k <= w.answers[i].data.roundId
  {
    StartAgrees(deployer, timestamp, service, start);
    ExecFresh(Start(deployer, timestamp, service, start), actions, hold, serve);
    var w := Exec(Start(deployer, timestamp, service, start), actions);
    assert AnswerFresh(w, w.answers[i], hold, serve);
  }
}
