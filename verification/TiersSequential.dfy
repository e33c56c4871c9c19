/**
 With handlers run one at a time and a cache and database that work, `/latestPrice` never goes back
 and never falls behind an earlier `/updatePrice` reply, although contract reads may still fail,
 contexts may be cancelled, time passes and rounds are mined in between.
 */
module TiersSequential {
  import opened OracleContract
  import opened Database
  import opened Tiers
  import opened TiersAgreement

  predicate UsesCacheOrTable(phase: Phase) {
    phase.CacheGet? || phase.DbGet? || phase.CacheSet? || phase.CacheDel? || phase.DbSave?
  }

  /** The action starts no handler beside another and meets no cache or database failure. */
  ghost predicate Calm(w: World, a: Action) {
    match a
    case Begin(_, _) => forall tid | tid in w.threads :: w.threads[tid].phase.Finished?
    case Proceed(tid, ok) => tid in w.threads && UsesCacheOrTable(w.threads[tid].phase) ==> ok
    case _ => true
  }

  ghost predicate CalmRun(w: World, actions: seq<Action>) {
    forall i | 0 <= i < |actions| :: Calm(Exec(w, actions[..i]), actions[i])
  }

  /** Replies of `/latestPrice` and `/updatePrice` never decrease. */
  ghost predicate Monotone(answers: seq<Answer>) {
    forall i, j | 0 <= i < j < |answers| && !answers[i].request.RoundById? && !answers[j].request.RoundById? ::
      answers[i].data.roundId <= answers[j].data.roundId
  }

  // ---- The inductive invariant: last reply, cached value and largest row ----

  /** The largest round replied so far to a request for the latest one. */
  function Floor(answers: seq<Answer>): nat {
    if answers == [] then 0
    else
      var rest, a := Floor(answers[..|answers| - 1]), answers[|answers| - 1];
      if !a.request.RoundById? && a.data.roundId > rest then a.data.roundId else rest
  }

  lemma {:induction false} FloorIsBound(answers: seq<Answer>)
    ensures forall i | 0 <= i < |answers| && !answers[i].request.RoundById? :: answers[i].data.roundId <= Floor(answers)
  {
    if answers != [] {
      FloorIsBound(answers[..|answers| - 1]);
    }
  }

  function Top(rows: Rows): nat {
    if rows.Keys == {} then 0 else MaxKey(rows)
  }

  lemma TopInserted(rows: Rows, row: Row)
    ensures Top(Inserted(rows, row)) == if row.data.roundId > Top(rows) then row.data.roundId else Top(rows)
  {
    var more := Inserted(rows, row);
    assert row.data.roundId in more;
    assert forall k | k in more :: k in rows || k == row.data.roundId;
    assert rows.Keys != {} ==> MaxKey(rows) in more;
  }

  /** This thread is about to save the round it has already cached into an empty table. */
  ghost predicate SavingFirst(t: Thread, id: nat) {
    t.request.LatestPrice? && t.phase.DbSave? && t.phase.held.data.roundId == id
  }

  ghost predicate EntryBounded(w: World) {
    LatestKey in w.cache ==>
      var id := w.cache[LatestKey].data.roundId;
      Floor(w.answers) <= id && (id <= Top(w.rows) || exists tid :: tid in w.threads && SavingFirst(w.threads[tid], id))
  }

  /** What holds of the handler at work, by what it is doing. */
  ghost predicate Working(w: World, t: Thread) {
    match t.request
    case RoundById(_) => true
    case LatestPrice =>
      (match t.phase
       case ChainRead(_) => w.rows.Keys == {}
       case CacheSet(h, save) =>
         && Floor(w.answers) <= h.data.roundId
         && if save then w.rows.Keys == {} else h.data.roundId <= Top(w.rows)
       case DbSave(h) => w.rows.Keys == {} && LatestKey in w.cache && w.cache[LatestKey].data.roundId == h.data.roundId
       case Respond(h) =>
         && Floor(w.answers) <= h.data.roundId <= Top(w.rows)
         && LatestKey in w.cache && h.data.roundId <= w.cache[LatestKey].data.roundId
       case _ => t.phase.CacheGet? || t.phase.DbGet?)
    case UpdatePrice(_) =>
      (match t.phase
       case CacheDel(h) => Top(w.rows) <= h.data.roundId
       case DbSave(h) => Top(w.rows) <= h.data.roundId && LatestKey !in w.cache
       case Respond(h) => Floor(w.answers) <= h.data.roundId <= Top(w.rows) && LatestKey !in w.cache
       case _ => t.phase.CheckOwner? || t.phase.Submit? || t.phase.ChainRead?)
  }

  ghost predicate Busy(w: World, tid: nat) {
    tid in w.threads && !w.threads[tid].phase.Finished?
  }

  ghost predicate Orderly(w: World) {
    && (forall a, b :: Busy(w, a) && Busy(w, b) ==> a == b)
    && (forall tid :: Busy(w, tid) ==> Working(w, w.threads[tid]))
    && Floor(w.answers) <= Top(w.rows)
    && EntryBounded(w)
    && Monotone(w.answers)
  }

  /** The read of a source gives at least the largest row. */
  lemma SourceReachesTop(w: World, request: Request)
    requires LogInvariant(w.oracle) && InRange(w.oracle) && Agreement(w) && !request.RoundById?
    ensures QueryRow(w.rows, request).Some? ==> QueryRow(w.rows, request).value.data.roundId == Top(w.rows)
    ensures Fetch(w.oracle, request).Success? && Fetch(w.oracle, request).value.roundId >= Top(w.rows)
  {
    FetchAgrees(w.oracle, request);
    CopiesAreWritten(w);
    if w.rows.Keys != {} {
      assert RowAgrees(w, MaxKey(w.rows));
    }
  }

  /** Only the busy handler can be the one about to save what the cache holds. */
  ghost predicate EntryKnown(w: World, t: Thread) {
    LatestKey in w.cache ==>
      var id := w.cache[LatestKey].data.roundId;
      Floor(w.answers) <= id && (id <= Top(w.rows) || SavingFirst(t, id))
  }

  /** Only the busy handler moves; for the others it is enough that they are finished. */
  lemma StaysOrderly(w: World, v: World, tid: nat)
    requires Orderly(w) && Busy(w, tid)
    requires tid in v.threads && v.threads == w.threads[tid := v.threads[tid]]
    requires Busy(v, tid) ==> Working(v, v.threads[tid])
    requires Floor(v.answers) <= Top(v.rows) && EntryKnown(v, v.threads[tid]) && Monotone(v.answers)
    ensures Orderly(v)
  {
    forall other | Busy(v, other)
      ensures other == tid
    {
      assert other != tid ==> Busy(w, other);
    }
    assert EntryBounded(v);
  }

  lemma ReplyKeepsMonotone(answers: seq<Answer>, a: Answer)
    requires Monotone(answers)
    requires !a.request.RoundById? ==> Floor(answers) <= a.data.roundId
    ensures Monotone(answers + [a])
    ensures Floor(answers + [a]) == if a.request.RoundById? then Floor(answers) else a.data.roundId
  {
    FloorIsBound(answers);
    assert (answers + [a])[..|answers|] == answers;
  }

  lemma BusyKnowsEntry(w: World, tid: nat)
    requires Orderly(w) && Busy(w, tid)
    ensures EntryKnown(w, w.threads[tid])
  {
    if LatestKey in w.cache && w.cache[LatestKey].data.roundId > Top(w.rows) {
      var saver :| saver in w.threads && SavingFirst(w.threads[saver], w.cache[LatestKey].data.roundId);
      assert Busy(w, saver);
    }
  }

  /** The reply and table side of one step. */
  lemma AdvanceKeepsFloor(w: World, tid: nat, ok: bool)
    requires Floor(w.answers) <= Top(w.rows) && Monotone(w.answers)
    requires tid in w.threads && Working(w, w.threads[tid])
    ensures var v := Advance(w, tid, ok); Floor(v.answers) <= Top(v.rows) && Monotone(v.answers)
  {
    var t := w.threads[tid];
    if t.phase.DbSave? {
      TopInserted(w.rows, Row(t.phase.held.data, w.now));
    } else if t.phase.Respond? {
      ReplyKeepsMonotone(w.answers, Answer(t.request, t.phase.held.data, w.now));
    }
  }

  lemma AdvanceKeepsEntry(w: World, tid: nat, ok: bool)
    requires Floor(w.answers) <= Top(w.rows) && Monotone(w.answers)
    requires tid in w.threads && Working(w, w.threads[tid]) && EntryKnown(w, w.threads[tid])
    requires UsesCacheOrTable(w.threads[tid].phase) ==> ok
    ensures EntryKnown(Advance(w, tid, ok), Advance(w, tid, ok).threads[tid])
  {
    var t := w.threads[tid];
    if t.phase.DbSave? {
      TopInserted(w.rows, Row(t.phase.held.data, w.now));
    } else if t.phase.Respond? {
      ReplyKeepsMonotone(w.answers, Answer(t.request, t.phase.held.data, w.now));
    }
  }

  /** The handler's own conditions carry over from one access to the next. */
  lemma AdvanceKeepsWorking(w: World, tid: nat, ok: bool)
    requires LogInvariant(w.oracle) && InRange(w.oracle) && Agreement(w)
    requires Floor(w.answers) <= Top(w.rows)
    requires tid in w.threads && Working(w, w.threads[tid]) && EntryKnown(w, w.threads[tid])
    requires UsesCacheOrTable(w.threads[tid].phase) ==> ok
    ensures Busy(Advance(w, tid, ok), tid) ==> Working(Advance(w, tid, ok), Advance(w, tid, ok).threads[tid])
  {
    var t := w.threads[tid];
    if t.phase.DbSave? {
      SaveKeepsWorking(w, tid, ok);
    } else if t.request.LatestPrice? {
      ReadKeepsWorking(w, tid, ok);
    } else if t.request.UpdatePrice? {
      SourceReachesTop(w, t.request);
    }
  }

  lemma ReadKeepsWorking(w: World, tid: nat, ok: bool)
    requires LogInvariant(w.oracle) && InRange(w.oracle) && Agreement(w)
    requires Floor(w.answers) <= Top(w.rows)
    requires tid in w.threads && Working(w, w.threads[tid]) && EntryKnown(w, w.threads[tid])
    requires UsesCacheOrTable(w.threads[tid].phase) ==> ok
    requires w.threads[tid].request.LatestPrice? && !w.threads[tid].phase.DbSave?
    ensures Busy(Advance(w, tid, ok), tid) ==> Working(Advance(w, tid, ok), Advance(w, tid, ok).threads[tid])
  {
    SourceReachesTop(w, w.threads[tid].request);
  }

  lemma SaveKeepsWorking(w: World, tid: nat, ok: bool)
    requires Floor(w.answers) <= Top(w.rows)
    requires tid in w.threads && Working(w, w.threads[tid]) && EntryKnown(w, w.threads[tid])
    requires w.threads[tid].phase.DbSave? && ok
    ensures Working(Advance(w, tid, ok), Advance(w, tid, ok).threads[tid])
  {
    TopInserted(w.rows, Row(w.threads[tid].phase.held.data, w.now));
  }

  lemma AdvanceOrderly(w: World, tid: nat, ok: bool)
    requires LogInvariant(w.oracle) && InRange(w.oracle) && Agreement(w)
    requires Orderly(w) && Busy(w, tid) && Calm(w, Proceed(tid, ok))
    ensures Orderly(Advance(w, tid, ok))
  {
    var v := Advance(w, tid, ok);
    assert Working(w, w.threads[tid]);
    BusyKnowsEntry(w, tid);
    AdvanceKeepsFloor(w, tid, ok);
    AdvanceKeepsEntry(w, tid, ok);
    AdvanceKeepsWorking(w, tid, ok);
    StaysOrderly(w, v, tid);
  }

  lemma BeginOrderly(w: World, tid: nat, request: Request)
    requires Orderly(w) && Calm(w, Begin(tid, request))
    ensures Orderly(Next(w, Begin(tid, request)))
  {
    var v := Next(w, Begin(tid, request));
    assert forall other | Busy(v, other) :: other == tid && Working(v, v.threads[other]);
    assert EntryBounded(v) by {
      assert forall other :: other in w.threads ==> other in v.threads && v.threads[other] == w.threads[other];
    }
  }

  lemma CancelOrderly(w: World, tid: nat)
    requires Orderly(w)
    ensures Orderly(Next(w, Cancel(tid)))
  {
    if Next(w, Cancel(tid)) != w {
      assert Busy(w, tid);
      BusyKnowsEntry(w, tid);
      StaysOrderly(w, Next(w, Cancel(tid)), tid);
    }
  }

  /** Time and mined transactions touch neither the table, nor the cache, nor any handler. */
  lemma EnvironmentOrderly(w: World, v: World)
    requires Orderly(w) && v.threads == w.threads && v.rows == w.rows && v.cache == w.cache && v.answers == w.answers
    ensures Orderly(v)
  {
    forall tid | Busy(v, tid)
      ensures Working(v, v.threads[tid])
    {
      assert Busy(w, tid);
    }
    forall a, b | Busy(v, a) && Busy(v, b)
      ensures a == b
    {
      assert Busy(w, a) && Busy(w, b);
    }
    assert EntryBounded(v);
  }

  lemma NextOrderly(w: World, a: Action)
    requires LogInvariant(w.oracle) && InRange(w.oracle) && Agreement(w)
    requires Orderly(w) && Calm(w, a)
    ensures Orderly(Next(w, a))
  {
    match a
    case Begin(tid, request) => BeginOrderly(w, tid, request);
    case Cancel(tid) => CancelOrderly(w, tid);
    case Proceed(tid, ok) =>
      if Busy(w, tid) {
        AdvanceOrderly(w, tid, ok);
      } else {
        EnvironmentOrderly(w, Next(w, a));
      }
    case Tick(_) => EnvironmentOrderly(w, Next(w, a));
    case Transact(_) => EnvironmentOrderly(w, Next(w, a));
  }

  lemma {:induction false} ExecOrderly(w: World, actions: seq<Action>)
    requires LogInvariant(w.oracle) && Agreement(w) && Orderly(w)
    requires InRange(Exec(w, actions).oracle) && CalmRun(w, actions)
    ensures Orderly(Exec(w, actions))
  {
    if actions != [] {
      var front, a := actions[..|actions| - 1], actions[|actions| - 1];
      var before := Exec(w, front);
      ExecExtendsLog(w, front);
      NextExtendsLog(before, a);
      InRangeEarlier(before.oracle, Next(before, a).oracle);
      forall i | 0 <= i < |front|
        ensures Calm(Exec(w, front[..i]), front[i])
      {
        assert front[..i] == actions[..i];
      }
      ExecOrderly(w, front);
      ExecAgrees(w, front);
      NextOrderly(before, a);
    }
  }

  /**
   Monotone reads, and read-your-writes: each reply of `/latestPrice` is at least every earlier reply of
   it or of `/updatePrice`.
   */
  lemma {:induction false} RepliesNeverGoBack(
      deployer: Address, timestamp: nat, service: Address, now: int, actions: seq<Action>)
    requires CalmRun(Start(deployer, timestamp, service, now), actions)
    requires InRange(Exec(Start(deployer, timestamp, service, now), actions).oracle)
    ensures Monotone(Exec(Start(deployer, timestamp, service, now), actions).answers)
  {
    StartAgrees(deployer, timestamp, service, now);
    ExecOrderly(Start(deployer, timestamp, service, now), actions);
  }
}
