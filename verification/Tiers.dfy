/**
 The three tiers that hold rounds (contract, table, expiring cache) and the handlers that copy
 rounds between them, as a machine whose steps interleave freely. Every cache, database and
 contract access of a handler is one step and may fail; time passes and transactions are mined
 between any two steps. The fields `readAt`, `gotAt`, `savedAt` and `answers` only record what
 happened; no step looks at them.
 */
module Tiers {
  import opened Wrappers
  import opened Words
  import opened OracleContract
  import opened Database
  import Retry

  const TTL: nat := 10_000   // milliseconds

  datatype Key = LatestKey | RoundKey(path: string)

  function KeyText(key: Key): string {
    match key
    case LatestKey => "latest"
    case RoundKey(path) => "round:" + path
  }

  /** The cache's text keys tell the keys apart, also for paths that name the same round. */
  lemma KeysDistinct(a: Key, b: Key)
    ensures KeyText(a) == KeyText(b) <==> a == b
  {
    if a.RoundKey? && b.RoundKey? {
      assert KeyText(a)[6..] == a.path && KeyText(b)[6..] == b.path;
    } else if a != b {
      assert KeyText(a)[0] != KeyText(b)[0];
    }
  }

  /** `readAt`: when the data was read from the table or the contract. */
  datatype Entry = Entry(data: RoundData, expiresAt: int, readAt: int)

  /** `None` stands for a request body without a decimal `newAnswer`. */
  datatype Request = LatestPrice | RoundById(path: string) | UpdatePrice(body: Option<int>)

  /** Data a handler holds: when its source was read, when this handler got it, and whether it came from the cache. */
  datatype Held = Held(data: RoundData, readAt: int, gotAt: int, fromCache: bool)

  datatype Status = BadRequest | Unauthorized | ServerError

  datatype Phase =
    | CacheGet
    | DbGet
    | ChainRead(attempt: nat)
    | CacheSet(held: Held, save: bool)
    | CacheDel(held: Held)
    | DbSave(held: Held)
    | CheckOwner
    | Submit(attempt: nat)
    | Respond(held: Held)
    | Finished(reply: Result<RoundData, Status>)

  datatype Thread = Thread(request: Request, phase: Phase)

  /** A successful reply, as the client saw it. */
  datatype Answer = Answer(request: Request, data: RoundData, at: int)

  datatype World = World(
    oracle: Storage,
    rows: Rows,
    cache: map<Key, Entry>,
    now: int,
    service: Address,
    threads: map<nat, Thread>,
    answers: seq<Answer>)

  datatype Action =
    | Begin(tid: nat, request: Request)
    | Proceed(tid: nat, ok: bool)   // ok: the access of this step works
    | Cancel(tid: nat)              // a retry loop observes the cancelled context
    | Tick(elapsed: nat)
    | Transact(call: Call)

  function Start(deployer: Address, timestamp: nat, service: Address, now: int): World {
    World(Deploy(deployer, timestamp), map[], map[], now, service, map[], [])
  }

  // ---- One step of a handler ----

  function Enter(request: Request): Phase {
    match request
    case LatestPrice => CacheGet
    case RoundById(path) => if ParseUint(path).None? then Finished(Failure(BadRequest)) else CacheGet
    case UpdatePrice(body) => if body.None? then Finished(Failure(BadRequest)) else CheckOwner
  }

  function KeyOf(request: Request): Key {
    if request.RoundById? then RoundKey(request.path) else LatestKey
  }

  function PathId(path: string): nat {
    match ParseUint(path)
    case Some(id) => id
    case None => 0
  }

  function LiveEntry(w: World, key: Key): Option<Entry> {
    if key in w.cache && w.now <= w.cache[key].expiresAt then Some(w.cache[key]) else None
  }

  function QueryRow(rows: Rows, request: Request): Option<Row> {
    if request.RoundById? then Find(rows, PathId(request.path)) else Newest(rows)
  }

  function Fetch(s: Storage, request: Request): Result<RoundData, Revert> {
    if request.RoundById? then FetchRound(s, PathId(request.path)) else FetchLatest(s)
  }

  /** Where a retry loop stands after a failed attempt. */
  function AfterFailure(attempt: nat, again: Phase): Phase {
    if attempt + 1 < Retry.MAX_ATTEMPTS then again else Finished(Failure(ServerError))
  }

  /** Where a handler goes from its current access; `ok` tells whether the access works. */
  function PhaseAfter(w: World, t: Thread, ok: bool): Phase {
    match t.phase
    case CacheGet =>
      (match LiveEntry(w, KeyOf(t.request))
       case Some(e) => if ok then Respond(Held(e.data, e.readAt, w.now, true)) else DbGet
       case None => DbGet)
    case DbGet =>
      (match QueryRow(w.rows, t.request)
       case Some(row) => if ok then CacheSet(Held(row.data, w.now, w.now, false), false) else ChainRead(0)
       case None => ChainRead(0))
    case ChainRead(attempt) =>
      (match Fetch(w.oracle, t.request)
       case Success(d) =>
         if !ok then AfterFailure(attempt, ChainRead(attempt + 1))
         else if t.request.UpdatePrice? then CacheDel(Held(d, w.now, w.now, false))
         else CacheSet(Held(d, w.now, w.now, false), true)
       case Failure(_) => AfterFailure(attempt, ChainRead(attempt + 1)))
    case CacheSet(held, save) => if save then DbSave(held) else Respond(held)
    case CacheDel(held) => DbSave(held)
    case DbSave(held) => Respond(held)
    case CheckOwner =>
      if !ok then Finished(Failure(ServerError))
      else if w.oracle.owner != w.service then Finished(Failure(Unauthorized))
      else Submit(0)
    case Submit(attempt) => if ok then ChainRead(0) else AfterFailure(attempt, Submit(attempt + 1))
    case Respond(held) => Finished(Success(held.data))
    case Finished(_) => t.phase
  }

  function CacheAfter(w: World, t: Thread, ok: bool): map<Key, Entry> {
    match t.phase
    case CacheSet(held, _) =>
      if ok then w.cache[KeyOf(t.request) := Entry(held.data, w.now + TTL, held.readAt)] else w.cache
    case CacheDel(_) => if ok then w.cache - {LatestKey} else w.cache
    case _ => w.cache
  }

  function RowsAfter(w: World, t: Thread, ok: bool): Rows {
    match t.phase
    case DbSave(held) => if ok then Inserted(w.rows, Row(held.data, w.now)) else w.rows
    case _ => w.rows
  }

  function AnswersAfter(w: World, t: Thread): seq<Answer> {
    match t.phase
    case Respond(held) => w.answers + [Answer(t.request, held.data, w.now)]
    case _ => w.answers
  }

  function At(w: World, tid: nat, phase: Phase): World
    requires tid in w.threads
  {
    w.(threads := w.threads[tid := w.threads[tid].(phase := phase)])
  }

  function Advance(w: World, tid: nat, ok: bool): World
    requires tid in w.threads
  {
    var t := w.threads[tid];
    At(w, tid, PhaseAfter(w, t, ok))
      .(cache := CacheAfter(w, t, ok), rows := RowsAfter(w, t, ok), answers := AnswersAfter(w, t))
  }

  function Next(w: World, a: Action): World {
    match a
    case Begin(tid, request) =>
      if tid in w.threads then w else w.(threads := w.threads[tid := Thread(request, Enter(request))])
    case Proceed(tid, ok) =>
      if tid in w.threads then Advance(w, tid, ok) else w
    case Cancel(tid) =>
      if tid in w.threads && (w.threads[tid].phase.ChainRead? || w.threads[tid].phase.Submit?)
      then At(w, tid, Finished(Failure(ServerError))) else w
    case Tick(elapsed) => w.(now := w.now + elapsed)
    case Transact(call) => w.(oracle := Execute(w.oracle, call))
  }

  function Exec(w: World, actions: seq<Action>): World {
    if actions == [] then w else Next(Exec(w, actions[..|actions| - 1]), actions[|actions| - 1])
  }

  lemma ExecSnoc(w: World, actions: seq<Action>, a: Action)
    ensures Exec(w, actions + [a]) == Next(Exec(w, actions), a)
  {
    assert (actions + [a])[..|actions|] == actions;
  }

  lemma {:induction false} ExecAppend(w: World, before: seq<Action>, after: seq<Action>)
    ensures Exec(w, before + after) == Exec(Exec(w, before), after)
  {
    if after == [] {
      assert before + after == before;
    } else {
      var all := before + after;
      assert all[..|all| - 1] == before + after[..|after| - 1];
      ExecAppend(w, before, after[..|after| - 1]);
    }
  }

  /** An update handler never looks into the cache or the table, and never fills the cache. */
  ghost predicate Shaped(t: Thread) {
    t.request.UpdatePrice? ==> !t.phase.CacheGet? && !t.phase.DbGet? && !t.phase.CacheSet?
  }

  ghost predicate AllShaped(w: World) {
    forall tid | tid in w.threads :: Shaped(w.threads[tid])
  }

  lemma NextShaped(w: World, a: Action)
    requires AllShaped(w)
    ensures AllShaped(Next(w, a))
  {
    forall tid | tid in Next(w, a).threads
      ensures Shaped(Next(w, a).threads[tid])
    {
      assert tid in w.threads ==> Shaped(w.threads[tid]);
    }
  }

  lemma {:induction false} ExecShaped(w: World, actions: seq<Action>)
    requires AllShaped(w)
    ensures AllShaped(Exec(w, actions))
  {
    if actions != [] {
      ExecShaped(w, actions[..|actions| - 1]);
      NextShaped(Exec(w, actions[..|actions| - 1]), actions[|actions| - 1]);
    }
  }

  /** What a thread holds or has replied. */
  function HeldBy(t: Thread): Option<Held> {
    match t.phase
    case CacheSet(held, _) => Some(held)
    case CacheDel(held) => Some(held)
    case DbSave(held) => Some(held)
    case Respond(held) => Some(held)
    case _ => None
  }

  function DataOf(t: Thread): Option<RoundData> {
    match t.phase
    case Finished(Success(d)) => Some(d)
    case _ => match HeldBy(t)
              case Some(h) => Some(h.data)
              case None => None
  }

  /** The three places a handler's data can come from. */
  lemma HeldOrigin(w: World, t: Thread, ok: bool)
    ensures var held := HeldBy(Thread(t.request, PhaseAfter(w, t, ok)));
            held.None? || held == HeldBy(t) ||
            match t.phase
            case CacheGet =>
              (match LiveEntry(w, KeyOf(t.request))
               case Some(e) => held == Some(Held(e.data, e.readAt, w.now, true)) && PhaseAfter(w, t, ok).Respond?
               case None => false)
            case DbGet =>
              (match QueryRow(w.rows, t.request)
               case Some(row) => held == Some(Held(row.data, w.now, w.now, false))
               case None => false)
            case ChainRead(_) =>
              (match Fetch(w.oracle, t.request)
               case Success(d) => held == Some(Held(d, w.now, w.now, false))
               case Failure(_) => false)
            case _ => false
    ensures PhaseAfter(w, t, ok).CacheSet? ==> t.phase.DbGet? || t.phase.ChainRead?
  {
  }
}
