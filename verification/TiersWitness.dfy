/**
 Two runs in which `/latestPrice` falls behind. The first reaches the staleness bound: a reader takes
 round 1 from the contract and is delayed; round 2 is mined, and an update handler deletes the cached
 value, saves row 2 and replies; then the reader puts round 1 back into the cache. The second has one
 handler at a time and a single failing access.
 */
module TiersWitness {
  import opened Wrappers
  import opened OracleContract
  import opened Database
  import opened Tiers
  import opened TiersStaleness

  /** Where a run leads, if every state on the way is prompt. */
  ghost function PromptExec(s: World, actions: seq<Action>, hold: nat, serve: nat): Option<World> {
    if actions == [] then
      if Prompt(s, hold, serve) then Some(s) else None
    else
      match PromptExec(s, actions[..|actions| - 1], hold, serve)
      case Some(w) =>
        var v := Next(w, actions[|actions| - 1]);
        if Prompt(v, hold, serve) then Some(v) else None
      case None => None
  }

  lemma {:induction false} PromptExecIsRun(s: World, actions: seq<Action>, hold: nat, serve: nat)
    requires PromptExec(s, actions, hold, serve).Some?
    ensures PromptExec(s, actions, hold, serve) == Some(Exec(s, actions)) && PromptRun(s, actions, hold, serve)
  {
    if actions != [] {
      var front := actions[..|actions| - 1];
      PromptExecIsRun(s, front, hold, serve);
      forall i | 0 <= i <= |actions|
        ensures Prompt(Exec(s, actions[..i]), hold, serve)
      {
        assert i < |actions| ==> actions[..i] == front[..i];
        assert i == |actions| ==> actions[..i] == actions;
      }
    }
  }

  /** From the empty service, the actions lead to `w`. */
  ghost predicate Leads(actions: seq<Action>, w: World, hold: nat, serve: nat) {
    PromptExec(EMPTY, actions, hold, serve) == Some(w)
  }

  lemma Extend(actions: seq<Action>, w: World, a: Action, v: World, hold: nat, serve: nat) returns (more: seq<Action>)
    requires Leads(actions, w, hold, serve) && v == Next(w, a) && Prompt(v, hold, serve)
    ensures more == actions + [a] && Leads(more, v, hold, serve)
  {
    more := actions + [a];
    assert more[..|actions|] == actions;
  }

  const EMPTY := Start(7, 0, 7, 0)
  const FIRST := RoundData(1, INITIAL_ANSWER, 0, 0, 1)
  const SECOND := RoundData(2, 5, 0, 0, 2)
  const OLD_READ := Held(FIRST, 0, 0, false)
  const NEW_READ := Held(SECOND, 0, 0, false)
  const UPDATE := UpdatePrice(Some(5))
  const PUBLISH := Call(7, 5, 0)

  function Reading(phase: Phase): World {
    EMPTY.(threads := map[1 := Thread(LatestPrice, phase)])
  }

  const PUBLISHED := Reading(CacheSet(OLD_READ, true)).(oracle := Execute(EMPTY.oracle, PUBLISH))

  /** A reader holds round 1, round 2 is published, and an update handler is at `phase`. */
  function Racing(phase: Phase): World {
    PUBLISHED.(threads := PUBLISHED.threads[2 := Thread(UPDATE, phase)])
  }

  const SAVED := Racing(Respond(NEW_READ)).(rows := map[2 := Row(SECOND, 0)])
  const UPDATED := Racing(Finished(Success(SECOND)))
                     .(rows := map[2 := Row(SECOND, 0)], answers := [Answer(UPDATE, SECOND, 0)])

  /** After `hold`, the delayed reader has filled the cache and is at `phase`. */
  function Refilled(hold: nat, phase: Phase): World {
    UPDATED.(threads := UPDATED.threads[1 := Thread(LatestPrice, phase)],
             cache := map[LatestKey := Entry(FIRST, hold + TTL, 0)],
             now := hold)
  }

  function BothSaved(hold: nat, phase: Phase): World {
    Refilled(hold, phase).(rows := UPDATED.rows[1 := Row(FIRST, hold)])
  }

  function PutBack(hold: nat): World {
    BothSaved(hold, Finished(Success(FIRST))).(answers := UPDATED.answers + [Answer(LatestPrice, FIRST, hold)])
  }

  /** At the last moment of the entry's life another reader is at `phase`. */
  function Serving(hold: nat, phase: Phase): World {
    PutBack(hold).(now := hold + TTL, threads := PutBack(hold).threads[3 := Thread(LatestPrice, phase)])
  }

  function LastHeld(hold: nat): Held {
    Held(FIRST, 0, hold + TTL, true)
  }

  /** It has been slow to reply by `serve`. */
  function Served(hold: nat, serve: nat): World {
    var at := hold + TTL + serve;
    Serving(hold, Finished(Success(FIRST)))
      .(now := at, answers := PutBack(hold).answers + [Answer(LatestPrice, FIRST, at)])
  }

  /**
   A reader finds cache and table empty, reads round 1 from the contract, and is delayed before it fills
   the cache.
   */
  lemma ReaderReads(hold: nat, serve: nat) returns (actions: seq<Action>)
    ensures Leads(actions, Reading(CacheSet(OLD_READ, true)), hold, serve)
  {
    actions := Extend([], EMPTY, Begin(1, LatestPrice), Reading(CacheGet), hold, serve);
    actions := Extend(actions, Reading(CacheGet), Proceed(1, true), Reading(DbGet), hold, serve);
    actions := Extend(actions, Reading(DbGet), Proceed(1, true), Reading(ChainRead(0)), hold, serve);
    actions := Extend(actions, Reading(ChainRead(0)), Proceed(1, true), Reading(CacheSet(OLD_READ, true)), hold, serve);
  }

  /** Round 2 is mined and an update handler is about to submit. */
  lemma Publish(actions0: seq<Action>, hold: nat, serve: nat) returns (actions: seq<Action>)
    requires Leads(actions0, Reading(CacheSet(OLD_READ, true)), hold, serve)
    ensures Leads(actions, Racing(Submit(0)), hold, serve)
  {
    actions := Extend(actions0, Reading(CacheSet(OLD_READ, true)), Transact(PUBLISH), PUBLISHED, hold, serve);
    actions := Extend(actions, PUBLISHED, Begin(2, UPDATE), Racing(CheckOwner), hold, serve);
    actions := Extend(actions, Racing(CheckOwner), Proceed(2, true), Racing(Submit(0)), hold, serve);
  }

  /** It submits and reads round 2 back. */
  lemma UpdateReads(actions0: seq<Action>, hold: nat, serve: nat) returns (actions: seq<Action>)
    requires Leads(actions0, Racing(Submit(0)), hold, serve)
    ensures Leads(actions, Racing(CacheDel(NEW_READ)), hold, serve)
  {
    actions := Extend(actions0, Racing(Submit(0)), Proceed(2, true), Racing(ChainRead(0)), hold, serve);
    actions := Extend(actions, Racing(ChainRead(0)), Proceed(2, true), Racing(CacheDel(NEW_READ)), hold, serve);
  }

  lemma UpdateDeletes(actions0: seq<Action>, hold: nat, serve: nat) returns (actions: seq<Action>)
    requires Leads(actions0, Racing(CacheDel(NEW_READ)), hold, serve)
    ensures Leads(actions, Racing(DbSave(NEW_READ)), hold, serve)
  {
    actions := Extend(actions0, Racing(CacheDel(NEW_READ)), Proceed(2, true), Racing(DbSave(NEW_READ)), hold, serve);
  }

  /** It has deleted the cached value; it saves its row and replies. */
  lemma UpdateReplies(actions0: seq<Action>, hold: nat, serve: nat) returns (actions: seq<Action>)
    requires Leads(actions0, Racing(DbSave(NEW_READ)), hold, serve)
    ensures Leads(actions, UPDATED, hold, serve)
  {
    actions := Extend(actions0, Racing(DbSave(NEW_READ)), Proceed(2, true), SAVED, hold, serve);
    actions := Extend(actions, SAVED, Proceed(2, true), UPDATED, hold, serve);
  }

  /** The delayed reader puts round 1 back into the cache. */
  lemma ReaderPutsBack(actions0: seq<Action>, hold: nat, serve: nat) returns (actions: seq<Action>)
    requires Leads(actions0, UPDATED, hold, serve)
    ensures Leads(actions, Refilled(hold, DbSave(OLD_READ)), hold, serve)
  {
    actions := Extend(actions0, UPDATED, Tick(hold), UPDATED.(now := hold), hold, serve);
    actions := Extend(actions, UPDATED.(now := hold), Proceed(1, true), Refilled(hold, DbSave(OLD_READ)), hold, serve);
  }

  /** It saves its row. */
  lemma ReaderSaves(actions0: seq<Action>, hold: nat, serve: nat) returns (actions: seq<Action>)
    requires Leads(actions0, Refilled(hold, DbSave(OLD_READ)), hold, serve)
    ensures Leads(actions, BothSaved(hold, Respond(OLD_READ)), hold, serve)
  {
    actions := Extend(actions0, Refilled(hold, DbSave(OLD_READ)), Proceed(1, true),
        BothSaved(hold, Respond(OLD_READ)), hold, serve);
  }

  /** It replies. */
  lemma ReaderReplies(actions0: seq<Action>, hold: nat, serve: nat) returns (actions: seq<Action>)
    requires Leads(actions0, BothSaved(hold, Respond(OLD_READ)), hold, serve)
    ensures Leads(actions, PutBack(hold), hold, serve)
  {
    actions := Extend(actions0, BothSaved(hold, Respond(OLD_READ)), Proceed(1, true), PutBack(hold), hold, serve);
  }

  /** Another reader arrives when the entry is about to expire. */
  lemma LastReaderArrives(actions0: seq<Action>, hold: nat, serve: nat) returns (actions: seq<Action>)
    requires Leads(actions0, PutBack(hold), hold, serve)
    ensures Leads(actions, Serving(hold, CacheGet), hold, serve)
  {
    actions := Extend(actions0, PutBack(hold), Tick(TTL), PutBack(hold).(now := hold + TTL), hold, serve);
    actions := Extend(actions, PutBack(hold).(now := hold + TTL), Begin(3, LatestPrice), Serving(hold, CacheGet),
        hold, serve);
  }

  /** It is given round 1. */
  lemma LastReaderHits(actions0: seq<Action>, hold: nat, serve: nat) returns (actions: seq<Action>)
    requires Leads(actions0, Serving(hold, CacheGet), hold, serve)
    ensures Leads(actions, Serving(hold, Respond(LastHeld(hold))), hold, serve)
  {
    actions := Extend(actions0, Serving(hold, CacheGet), Proceed(3, true), Serving(hold, Respond(LastHeld(hold))),
        hold, serve);
  }

  function Waited(hold: nat, serve: nat): World {
    Serving(hold, Respond(LastHeld(hold))).(now := hold + TTL + serve)
  }

  lemma LastReaderWaits(actions0: seq<Action>, hold: nat, serve: nat) returns (actions: seq<Action>)
    requires Leads(actions0, Serving(hold, Respond(LastHeld(hold))), hold, serve)
    ensures Leads(actions, Waited(hold, serve), hold, serve)
  {
    actions := Extend(actions0, Serving(hold, Respond(LastHeld(hold))), Tick(serve), Waited(hold, serve), hold, serve);
  }

  lemma LastReaderReplies(actions0: seq<Action>, hold: nat, serve: nat) returns (actions: seq<Action>)
    requires Leads(actions0, Waited(hold, serve), hold, serve)
    ensures Leads(actions, Served(hold, serve), hold, serve)
  {
    actions := Extend(actions0, Waited(hold, serve), Proceed(3, true), Served(hold, serve), hold, serve);
  }

  /**
   The bound cannot be lowered: for all delays some run replies with round 1 exactly 10 s + `hold` + `serve`
   after row 2 was saved. Row 2 had by then been replied to an update, so with a reader in flight an
   update's reply does not bound later reads from below.
   */
  lemma BoundIsReached(hold: nat, serve: nat) returns (actions: seq<Action>)
    ensures var w := Exec(Start(7, 0, 7, 0), actions);
            && InRange(w.oracle)
            && PromptRun(Start(7, 0, 7, 0), actions, hold, serve)
            && 2 in w.rows && w.rows[2].savedAt == 0
            && |w.answers| == 3
            && w.answers[0] == Answer(UpdatePrice(Some(5)), SECOND, 0)
            && w.answers[2] == Answer(LatestPrice, FIRST, 10_000 + hold + serve)
  {
    actions := ReaderReads(hold, serve);
    actions := Publish(actions, hold, serve);
    actions := UpdateReads(actions, hold, serve);
    actions := UpdateDeletes(actions, hold, serve);
    actions := UpdateReplies(actions, hold, serve);
    actions := ReaderPutsBack(actions, hold, serve);
    actions := ReaderSaves(actions, hold, serve);
    actions := ReaderReplies(actions, hold, serve);
    actions := LastReaderArrives(actions, hold, serve);
    actions := LastReaderHits(actions, hold, serve);
    actions := LastReaderWaits(actions, hold, serve);
    actions := LastReaderReplies(actions, hold, serve);
    PromptExecIsRun(EMPTY, actions, hold, serve);
  }

  // ---- One handler at a time, and a single failing access ----

  /** No handler starts beside another, nothing is cancelled, and no access fails but the cache's `Del`. */
  ghost predicate OnlyDeleteFails(w: World, a: Action) {
    match a
    case Begin(_, _) => forall tid | tid in w.threads :: w.threads[tid].phase.Finished?
    case Proceed(tid, ok) => ok || (tid in w.threads && w.threads[tid].phase.CacheDel?)
    case Cancel(_) => false
    case _ => true
  }

  ghost predicate OnlyDeleteFailsRun(s: World, actions: seq<Action>) {
    forall i | 0 <= i < |actions| :: OnlyDeleteFails(Exec(s, actions[..i]), actions[i])
  }

  ghost function SingleExec(s: World, actions: seq<Action>): Option<World> {
    if actions == [] then Some(s)
    else
      match SingleExec(s, actions[..|actions| - 1])
      case Some(w) => if OnlyDeleteFails(w, actions[|actions| - 1]) then Some(Next(w, actions[|actions| - 1])) else None
      case None => None
  }

  lemma {:induction false} SingleExecIsRun(s: World, actions: seq<Action>)
    requires SingleExec(s, actions).Some?
    ensures SingleExec(s, actions) == Some(Exec(s, actions)) && OnlyDeleteFailsRun(s, actions)
  {
    if actions != [] {
      var front := actions[..|actions| - 1];
      SingleExecIsRun(s, front);
      forall i | 0 <= i < |actions|
        ensures OnlyDeleteFails(Exec(s, actions[..i]), actions[i])
      {
        assert actions[..i] == front[..i];
        assert i == |front| ==> front[..i] == front;
      }
    }
  }

  ghost predicate Reaches(actions: seq<Action>, w: World) {
    SingleExec(EMPTY, actions) == Some(w)
  }

  lemma Follow(actions: seq<Action>, w: World, a: Action, v: World) returns (more: seq<Action>)
    requires Reaches(actions, w) && v == Next(w, a) && OnlyDeleteFails(w, a)
    ensures more == actions + [a] && Reaches(more, v)
  {
    more := actions + [a];
    assert more[..|actions|] == actions;
  }

  function Cached(phase: Phase): World {
    Reading(phase).(cache := map[LatestKey := Entry(FIRST, TTL, 0)])
  }

  const FILLED := Cached(Finished(Success(FIRST)))
                    .(rows := map[1 := Row(FIRST, 0)], answers := [Answer(LatestPrice, FIRST, 0)])

  /** The cache and the table hold round 1, the contract is at round 2, and the update handler is at `phase`. */
  function Updating(phase: Phase): World {
    FILLED.(oracle := Execute(EMPTY.oracle, PUBLISH), threads := FILLED.threads[2 := Thread(UPDATE, phase)])
  }

  const RESAVED := Updating(Respond(NEW_READ)).(rows := FILLED.rows[2 := Row(SECOND, 0)])
  const REPLIED := RESAVED.(threads := FILLED.threads[2 := Thread(UPDATE, Finished(Success(SECOND)))],
                            answers := FILLED.answers + [Answer(UPDATE, SECOND, 0)])

  function NextReader(phase: Phase): World {
    REPLIED.(threads := REPLIED.threads[3 := Thread(LatestPrice, phase)])
  }

  /** A reader takes round 1 from the contract into the cache. */
  lemma FillsCache() returns (actions: seq<Action>)
    ensures Reaches(actions, Cached(DbSave(OLD_READ)))
  {
    actions := Follow([], EMPTY, Begin(1, LatestPrice), Reading(CacheGet));
    actions := Follow(actions, Reading(CacheGet), Proceed(1, true), Reading(DbGet));
    actions := Follow(actions, Reading(DbGet), Proceed(1, true), Reading(ChainRead(0)));
    actions := Follow(actions, Reading(ChainRead(0)), Proceed(1, true), Reading(CacheSet(OLD_READ, true)));
    actions := Follow(actions, Reading(CacheSet(OLD_READ, true)), Proceed(1, true), Cached(DbSave(OLD_READ)));
  }

  /** It saves the row and replies. */
  lemma FillsTable(actions0: seq<Action>) returns (actions: seq<Action>)
    requires Reaches(actions0, Cached(DbSave(OLD_READ)))
    ensures Reaches(actions, FILLED)
  {
    var saved := Cached(Respond(OLD_READ)).(rows := map[1 := Row(FIRST, 0)]);
    actions := Follow(actions0, Cached(DbSave(OLD_READ)), Proceed(1, true), saved);
    actions := Follow(actions, saved, Proceed(1, true), FILLED);
  }

  /** Round 2 is mined; the update handler is about to submit. */
  lemma UpdateStarts(actions0: seq<Action>) returns (actions: seq<Action>)
    requires Reaches(actions0, FILLED)
    ensures Reaches(actions, Updating(Submit(0)))
  {
    var published := FILLED.(oracle := Execute(EMPTY.oracle, PUBLISH));
    actions := Follow(actions0, FILLED, Transact(PUBLISH), published);
    actions := Follow(actions, published, Begin(2, UPDATE), Updating(CheckOwner));
    actions := Follow(actions, Updating(CheckOwner), Proceed(2, true), Updating(Submit(0)));
  }

  /** It submits and reads round 2 back. */
  lemma ReadsBack(actions0: seq<Action>) returns (actions: seq<Action>)
    requires Reaches(actions0, Updating(Submit(0)))
    ensures Reaches(actions, Updating(CacheDel(NEW_READ)))
  {
    actions := Follow(actions0, Updating(Submit(0)), Proceed(2, true), Updating(ChainRead(0)));
    actions := Follow(actions, Updating(ChainRead(0)), Proceed(2, true), Updating(CacheDel(NEW_READ)));
  }

  /** The deletion fails. */
  lemma DeleteFails(actions0: seq<Action>) returns (actions: seq<Action>)
    requires Reaches(actions0, Updating(CacheDel(NEW_READ)))
    ensures Reaches(actions, Updating(DbSave(NEW_READ)))
  {
    actions := Follow(actions0, Updating(CacheDel(NEW_READ)), Proceed(2, false), Updating(DbSave(NEW_READ)));
  }

  lemma UpdateEnds(actions0: seq<Action>) returns (actions: seq<Action>)
    requires Reaches(actions0, Updating(DbSave(NEW_READ)))
    ensures Reaches(actions, REPLIED)
  {
    actions := Follow(actions0, Updating(DbSave(NEW_READ)), Proceed(2, true), RESAVED);
    actions := Follow(actions, RESAVED, Proceed(2, true), REPLIED);
  }

  /** The next reader finds round 1 in the cache. */
  lemma NextReaderHits(actions0: seq<Action>) returns (actions: seq<Action>)
    requires Reaches(actions0, REPLIED)
    ensures Reaches(actions, NextReader(Respond(Held(FIRST, 0, 0, true))))
  {
    actions := Follow(actions0, REPLIED, Begin(3, LatestPrice), NextReader(CacheGet));
    actions := Follow(actions, NextReader(CacheGet), Proceed(3, true), NextReader(Respond(Held(FIRST, 0, 0, true))));
  }

  /** It replies with round 1. */
  lemma NextReaderReplies(actions0: seq<Action>) returns (actions: seq<Action>, w: World)
    requires Reaches(actions0, NextReader(Respond(Held(FIRST, 0, 0, true))))
    ensures Reaches(actions, w)
    ensures w.oracle == REPLIED.oracle && w.answers == REPLIED.answers + [Answer(LatestPrice, FIRST, 0)]
  {
    var held := Held(FIRST, 0, 0, true);
    w := Next(NextReader(Respond(held)), Proceed(3, true));
    actions := Follow(actions0, NextReader(Respond(held)), Proceed(3, true), w);
  }

  /**
   Without any concurrency, one ignored error of the cache's `Del` suffices: the update replies with
   round 2, the next read with round 1.
   */
  lemma FailedDeleteGoesBack() returns (actions: seq<Action>)
    ensures var w := Exec(Start(7, 0, 7, 0), actions);
            && InRange(w.oracle)
            && OnlyDeleteFailsRun(Start(7, 0, 7, 0), actions)
            && |w.answers| == 3
            && w.answers[1] == Answer(UpdatePrice(Some(5)), SECOND, 0)
            && w.answers[2] == Answer(LatestPrice, FIRST, 0)
  {
    var w;
    actions := FillsCache();
    actions := FillsTable(actions);
    actions := UpdateStarts(actions);
    actions := ReadsBack(actions);
    actions := DeleteFails(actions);
    actions := UpdateEnds(actions);
    actions := NextReaderHits(actions);
    actions, w := NextReaderReplies(actions);
    SingleExecIsRun(EMPTY, actions);
  }
}
