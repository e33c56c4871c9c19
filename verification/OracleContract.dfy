/**
 The `MockOracle` contract: an append-only log of rounds kept in a mapping whose
 absent entries read as zero, with `answeredInRound == 0` as the "no such round" mark.
 */
module OracleContract {
  import opened Wrappers
  import opened Words

  type Address = nat

  datatype Round = Round(answer: int, startedAt: nat, updatedAt: nat, answeredInRound: nat)

  /** What an unwritten entry of the mapping reads as. */
  const EMPTY_SLOT := Round(0, 0, 0, 0)

  const INITIAL_ANSWER: int := 200000000000

  datatype Event = AnswerUpdated(current: int, roundId: nat, updatedAt: nat)

  datatype Storage = Storage(owner: Address, latestRoundId: nat, rounds: map<nat, Round>, events: seq<Event>)

  /** The five values `getRoundData` returns, which are also the five fields every tier copies. */
  datatype RoundData = RoundData(roundId: nat, answer: int, startedAt: int, updatedAt: int, answeredInRound: nat)

  /** The four values a read takes over from the stored round. */
  predicate Copies(d: RoundData, r: Round) {
    && d.answer == r.answer && d.startedAt == r.startedAt && d.updatedAt == r.updatedAt
    && d.answeredInRound == r.answeredInRound
  }

  /** The five values are those stored for the round. */
  ghost predicate IsRound(rounds: map<nat, Round>, d: RoundData) {
    d.roundId in rounds && Copies(d, rounds[d.roundId]) && d.answeredInRound == d.roundId
  }

  datatype Revert = NotOwner | NotPositive | Overflow | NotFound | BadArgument

  datatype Call = Call(sender: Address, answer: int, timestamp: nat)

  // ---- The contract's functions on values ----

  function Slot(s: Storage, id: nat): Round {
    if id in s.rounds then s.rounds[id] else EMPTY_SLOT
  }

  function Deploy(sender: Address, timestamp: nat): Storage {
    Storage(sender, 1, map[1 := Round(INITIAL_ANSWER, timestamp, timestamp, 1)], [])
  }

  function UpdateAnswer(s: Storage, c: Call): Result<Storage, Revert> {
    if c.sender != s.owner then Failure(NotOwner)
    else if c.answer <= 0 then Failure(NotPositive)
    else if s.latestRoundId == MAX_UINT80 then Failure(Overflow)
    else
      var id := s.latestRoundId + 1;
      Success(s.(latestRoundId := id,
                 rounds := s.rounds[id := Round(c.answer, c.timestamp, c.timestamp, id)],
                 events := s.events + [AnswerUpdated(c.answer, id, c.timestamp)]))
  }

  function GetRoundData(s: Storage, id: nat): Result<RoundData, Revert> {
    var round := Slot(s, id);
    if round.answeredInRound == 0 then Failure(NotFound)
    else Success(RoundData(id, round.answer, round.startedAt, round.updatedAt, round.answeredInRound))
  }

  function LatestRoundData(s: Storage): Result<RoundData, Revert> {
    GetRoundData(s, s.latestRoundId)
  }

  /** A transaction that reverts leaves the storage as it was. */
  function Execute(s: Storage, c: Call): Storage {
    match UpdateAnswer(s, c)
    case Success(t) => t
    case Failure(_) => s
  }

  function Run(s: Storage, calls: seq<Call>): Storage {
    if calls == [] then s else Execute(Run(s, calls[..|calls| - 1]), calls[|calls| - 1])
  }

  // ---- The contract as the object it is ----

  class MockOracle {
    var owner: Address
    var latestRoundId: nat
    var rounds: map<nat, Round>
    var events: seq<Event>

    function View(): Storage
      reads this
    {
      Storage(owner, latestRoundId, rounds, events)
    }

    constructor (sender: Address, timestamp: nat)
      ensures View() == Deploy(sender, timestamp)
      ensures owner == sender && latestRoundId == 1 && events == []
      ensures rounds == map[1 := Round(200000000000, timestamp, timestamp, 1)]
    {
      owner := sender;
      latestRoundId := 1;
      rounds := map[1 := Round(INITIAL_ANSWER, timestamp, timestamp, 1)];
      events := [];
    }

    method SubmitAnswer(sender: Address, newAnswer: int, timestamp: nat) returns (r: Result<(), Revert>)
      modifies this
      ensures View() == Execute(old(View()), Call(sender, newAnswer, timestamp))
      ensures r == if sender != owner then Failure(NotOwner)
                   else if newAnswer <= 0 then Failure(NotPositive)
                   else if old(latestRoundId) == 0xFFFF_FFFF_FFFF_FFFF_FFFF then Failure(Overflow)
                   else Success(())
      ensures r.Success? ==>
                && latestRoundId == old(latestRoundId) + 1 && owner == old(owner)
                && rounds == old(rounds)[latestRoundId := Round(newAnswer, timestamp, timestamp, latestRoundId)]
                && events == old(events) + [AnswerUpdated(newAnswer, latestRoundId, timestamp)]
      ensures r.Failure? ==>
                View() == old(View()) && UpdateAnswer(View(), Call(sender, newAnswer, timestamp)) == Failure(r.error)
    {
      if sender != owner {
        return Failure(NotOwner);
      }
      if newAnswer <= 0 {
        return Failure(NotPositive);
      }
      if latestRoundId == MAX_UINT80 {
        return Failure(Overflow);
      }
      latestRoundId := latestRoundId + 1;
      rounds := rounds[latestRoundId := Round(newAnswer, timestamp, timestamp, latestRoundId)];
      events := events + [AnswerUpdated(newAnswer, latestRoundId, timestamp)];
      r := Success(());
    }

    method ReadRound(id: nat) returns (r: Result<RoundData, Revert>)
      ensures r == GetRoundData(View(), id)
      ensures r.Success? <==> id in rounds && rounds[id].answeredInRound != 0
      ensures r.Success? ==> r.value.roundId == id && Copies(r.value, rounds[id])
      ensures r.Failure? ==> r.error == NotFound
    {
      var round := if id in rounds then rounds[id] else EMPTY_SLOT;
      if round.answeredInRound == 0 {
        return Failure(NotFound);
      }
      r := Success(RoundData(id, round.answer, round.startedAt, round.updatedAt, round.answeredInRound));
    }

    method ReadLatest() returns (r: Result<RoundData, Revert>)
      ensures r == LatestRoundData(View())
      ensures r.Success? ==>
                latestRoundId in rounds && r.value.roundId == latestRoundId && Copies(r.value, rounds[latestRoundId])
    {
      r := ReadRound(latestRoundId);
    }
  }

  // ---- What every sequence of calls keeps ----

  ghost predicate Written(s: Storage, id: nat) {
    Slot(s, id).answeredInRound != 0
  }

  ghost predicate LogInvariant(s: Storage) {
    && 1 <= s.latestRoundId <= MAX_UINT80
    && (forall id: nat :: Written(s, id) <==> 1 <= id <= s.latestRoundId)
    && (forall id: nat | 1 <= id <= s.latestRoundId :: RoundShape(id, Slot(s, id)))
  }

  ghost predicate RoundShape(id: nat, r: Round) {
    r.answer > 0 && r.answeredInRound == id && r.startedAt == r.updatedAt
  }

  lemma ExecuteKeepsLog(s: Storage, c: Call)
    requires LogInvariant(s)
    ensures LogInvariant(Execute(s, c))
  {
    var t := Execute(s, c);
    forall id: nat
      ensures Slot(t, id) == if id == t.latestRoundId && t != s then Round(c.answer, c.timestamp, c.timestamp, id)
                             else Slot(s, id)
    {
    }
    assert forall id: nat :: Written(t, id) <==> Written(s, id) || (t != s && id == t.latestRoundId);
  }

  /**
   The invariant of the log, over every sequence of calls from any senders, reverted ones and the
   `uint80` ceiling included.
   */
  lemma {:induction false} RunKeepsLog(deployer: Address, timestamp: nat, calls: seq<Call>)
    ensures LogInvariant(Run(Deploy(deployer, timestamp), calls))
  {
    var s := Deploy(deployer, timestamp);
    if calls == [] {
      assert forall id: nat :: Written(s, id) <==> id == 1;
    } else {
      RunKeepsLog(deployer, timestamp, calls[..|calls| - 1]);
      ExecuteKeepsLog(Run(s, calls[..|calls| - 1]), calls[|calls| - 1]);
    }
  }

  /** Reads succeed exactly on the written rounds, and reading the latest one never reverts. */
  lemma ReadableExactlyWhenWritten(s: Storage, id: nat)
    requires LogInvariant(s)
    ensures GetRoundData(s, id).Success? <==> 1 <= id <= s.latestRoundId
    ensures GetRoundData(s, id).Success? ==>
              GetRoundData(s, id).value.roundId == GetRoundData(s, id).value.answeredInRound == id
    ensures LatestRoundData(s).Success? && LatestRoundData(s).value.roundId == s.latestRoundId
  {
    assert Written(s, id) <==> 1 <= id <= s.latestRoundId;
    assert Written(s, s.latestRoundId);
  }

  /** `t` is `s` with more rounds appended and none changed. */
  ghost predicate Extends(s: Storage, t: Storage) {
    && s.owner == t.owner
    && s.latestRoundId <= t.latestRoundId
    && s.events <= t.events
    && forall id: nat | Written(s, id) :: Slot(t, id) == Slot(s, id)
  }

  lemma ExecuteExtends(s: Storage, c: Call)
    requires LogInvariant(s)
    ensures Extends(s, Execute(s, c))
  {
    assert !Written(s, s.latestRoundId + 1);
  }

  lemma ExtendsTransitive(s: Storage, t: Storage, u: Storage)
    requires Extends(s, t) && Extends(t, u)
    ensures Extends(s, u)
  {
    forall id: nat | Written(s, id)
      ensures Slot(u, id) == Slot(s, id)
    {
      assert Slot(t, id) == Slot(s, id);
      assert Written(t, id);
    }
  }

  /** A written round is never changed by any later run. */
  lemma {:induction false} RunExtends(s: Storage, calls: seq<Call>)
    requires LogInvariant(s)
    ensures LogInvariant(Run(s, calls)) && Extends(s, Run(s, calls))
  {
    if calls != [] {
      var before := Run(s, calls[..|calls| - 1]);
      RunExtends(s, calls[..|calls| - 1]);
      ExecuteKeepsLog(before, calls[|calls| - 1]);
      ExecuteExtends(before, calls[|calls| - 1]);
      ExtendsTransitive(s, before, Run(s, calls));
    }
  }

  /** A successful read stays successful, with the same five values, in every later state of the log. */
  lemma ReadsAreStable(s: Storage, t: Storage, id: nat)
    requires Extends(s, t) && GetRoundData(s, id).Success?
    ensures GetRoundData(t, id) == GetRoundData(s, id)
  {
    assert Written(s, id);
  }

  ghost predicate TimesOrdered(from: nat, calls: seq<Call>) {
    && (forall i | 0 <= i < |calls| :: from <= calls[i].timestamp)
    && (forall i, j | 0 <= i < j < |calls| :: calls[i].timestamp <= calls[j].timestamp)
  }

  ghost predicate RoundsOrdered(s: Storage) {
    forall i: nat, j: nat | 1 <= i <= j <= s.latestRoundId :: Slot(s, i).updatedAt <= Slot(s, j).updatedAt
  }

  /** Non-decreasing block times give non-decreasing round times. */
  lemma {:induction false} RunOrdersRounds(deployer: Address, timestamp: nat, calls: seq<Call>)
    requires TimesOrdered(timestamp, calls)
    ensures RoundsOrdered(Run(Deploy(deployer, timestamp), calls))
    ensures var s := Run(Deploy(deployer, timestamp), calls);
            Slot(s, s.latestRoundId).updatedAt <= if calls == [] then timestamp else calls[|calls| - 1].timestamp
  {
    if calls != [] {
      var front, c := calls[..|calls| - 1], calls[|calls| - 1];
      var s := Run(Deploy(deployer, timestamp), front);
      RunOrdersRounds(deployer, timestamp, front);
      RunKeepsLog(deployer, timestamp, front);
      ExecuteExtends(s, c);
      var t := Execute(s, c);
      forall i: nat, j: nat | 1 <= i <= j <= t.latestRoundId
        ensures Slot(t, i).updatedAt <= Slot(t, j).updatedAt
      {
        assert i <= s.latestRoundId ==> Written(s, i) && Slot(s, i).updatedAt <= Slot(s, s.latestRoundId).updatedAt;
        assert j <= s.latestRoundId ==> Written(s, j);
      }
    }
  }

  // ---- The log as the list of accepted calls ----

  /** The calls the owner made with a positive answer, in order. */
  function Accepted(owner: Address, calls: seq<Call>): seq<Call> {
    if calls == [] then []
    else
      var c := calls[|calls| - 1];
      Accepted(owner, calls[..|calls| - 1]) + if c.sender == owner && c.answer > 0 then [c] else []
  }

  /** Those of them that found an identifier left. */
  function Kept(owner: Address, calls: seq<Call>): seq<Call> {
    var all := Accepted(owner, calls);
    if |all| < MAX_UINT80 then all else all[..MAX_UINT80 - 1]
  }

  ghost predicate IsLogOf(s: Storage, deployer: Address, timestamp: nat, kept: seq<Call>) {
    && s.owner == deployer
    && s.latestRoundId == 1 + |kept|
    && Slot(s, 1) == Round(INITIAL_ANSWER, timestamp, timestamp, 1)
    && forall i | 0 <= i < |kept| ::
        Slot(s, i + 2) == Round(kept[i].answer, kept[i].timestamp, kept[i].timestamp, i + 2)
  }

  /**
   After any run the log is the initial round followed by the accepted calls, cut off at the last
   `uint80` identifier.
   */
  lemma {:induction false} RunIsAcceptedLog(deployer: Address, timestamp: nat, calls: seq<Call>)
    ensures IsLogOf(Run(Deploy(deployer, timestamp), calls), deployer, timestamp, Kept(deployer, calls))
  {
    if calls != [] {
      var front := calls[..|calls| - 1];
      RunIsAcceptedLog(deployer, timestamp, front);
      RunKeepsLog(deployer, timestamp, front);
      ExecuteExtends(Run(Deploy(deployer, timestamp), front), calls[|calls| - 1]);
    }
  }

  /** What reading round `id` returns, by the calls alone. */
  function Expected(timestamp: nat, kept: seq<Call>, id: nat): Result<RoundData, Revert> {
    if id == 0 || id > |kept| + 1 then Failure(NotFound)
    else if id == 1 then Success(RoundData(1, 200000000000, timestamp, timestamp, 1))
    else Success(RoundData(id, kept[id - 2].answer, kept[id - 2].timestamp, kept[id - 2].timestamp, id))
  }

  /**
   Every read after any run, by the calls made: round 1 is the initial one, round n + 1 has the answer
   and block time of the n-th accepted call, other identifiers revert, and the latest round is the last.
   */
  lemma ReadsAreAcceptedCalls(deployer: Address, timestamp: nat, calls: seq<Call>, id: nat)
    ensures var s, kept := Run(Deploy(deployer, timestamp), calls), Kept(deployer, calls);
            && GetRoundData(s, id) == Expected(timestamp, kept, id)
            && LatestRoundData(s) == Expected(timestamp, kept, |kept| + 1)
  {
    var s, kept := Run(Deploy(deployer, timestamp), calls), Kept(deployer, calls);
    RunIsAcceptedLog(deployer, timestamp, calls);
    RunKeepsLog(deployer, timestamp, calls);
    ReadableExactlyWhenWritten(s, id);
    assert forall i | 2 <= i <= |kept| + 1 ::
        Slot(s, i) == Round(kept[i - 2].answer, kept[i - 2].timestamp, kept[i - 2].timestamp, i) by {
      assert forall i | 2 <= i <= |kept| + 1 :: Slot(s, (i - 2) + 2) == Slot(s, i);
    }
  }

  // ---- The event log and the storage determine each other ----

  datatype Index = Index(latestRoundId: nat, rounds: map<nat, Round>)

  /** What an observer rebuilds who knows the initial round and sees only the events. */
  function Replay(start: Index, events: seq<Event>): Index {
    if events == [] then start
    else
      var before := Replay(start, events[..|events| - 1]);
      var e := events[|events| - 1];
      Index(e.roundId, before.rounds[e.roundId := Round(e.current, e.updatedAt, e.updatedAt, e.roundId)])
  }

  ghost predicate EventOf(s: Storage, i: nat, e: Event) {
    e == AnswerUpdated(Slot(s, i + 2).answer, i + 2, Slot(s, i + 2).updatedAt)
  }

  lemma {:induction false} EventsAndStorageAgree(deployer: Address, timestamp: nat, calls: seq<Call>)
    ensures var start, s := Deploy(deployer, timestamp), Run(Deploy(deployer, timestamp), calls);
            && Replay(Index(1, start.rounds), s.events) == Index(s.latestRoundId, s.rounds)
            && |s.events| == s.latestRoundId - 1
            && forall i: nat | i < |s.events| :: EventOf(s, i, s.events[i])
  {
    if calls != [] {
      var front, c := calls[..|calls| - 1], calls[|calls| - 1];
      var s := Run(Deploy(deployer, timestamp), front);
      EventsAndStorageAgree(deployer, timestamp, front);
      var t := Execute(s, c);
      if t != s {
        assert t.events[..|t.events| - 1] == s.events;
        forall i: nat | i < |t.events|
          ensures EventOf(t, i, t.events[i])
        {
          assert i < |s.events| ==> EventOf(s, i, s.events[i]);
        }
      }
    }
  }

  // ---- What a caller outside the chain receives ----

  /** The handlers' narrowing of the five `big.Int` values. */
  function Narrow(d: RoundData): (r: RoundData)
    requires 0 <= d.startedAt && 0 <= d.updatedAt
    ensures r.answer == d.answer
    ensures d.roundId < TWO_64 && d.answeredInRound < TWO_64 && d.startedAt < TWO_63 && d.updatedAt < TWO_63 ==> r == d
  {
    RoundData(Uint64(d.roundId), d.answer, Int64(d.startedAt), Int64(d.updatedAt), Uint64(d.answeredInRound))
  }

  /** `GetLatestRoundData` followed by the conversions of `/latestPrice` and `/updatePrice`. */
  function FetchLatest(s: Storage): Result<RoundData, Revert> {
    match LatestRoundData(s)
    case Success(d) => Success(Narrow(d))
    case Failure(e) => Failure(e)
  }

  /** The argument word sent for a `uint64` identifier that went through `int64`. */
  function RoundArgument(id: nat): nat {
    Word(Int64(id))
  }

  /**
   `GetRoundData` for a path identifier: the decoder rejects a word wider than `uint80`, the reply
   carries the path's identifier.
   */
  function FetchRound(s: Storage, id: nat): Result<RoundData, Revert> {
    var word := RoundArgument(id);
    if word > MAX_UINT80 then Failure(BadArgument)
    else
      match GetRoundData(s, word)
      case Success(d) => Success(Narrow(d).(roundId := id))
      case Failure(e) => Failure(e)
  }

  /** The copy `d` has exactly the five values the contract holds for that round. */
  ghost predicate Agrees(s: Storage, d: RoundData) {
    GetRoundData(s, d.roundId) == Success(d)
  }

  ghost predicate TimeFits(r: Round) {
    r.startedAt < TWO_63 && r.updatedAt < TWO_63
  }

  /** Identifiers and timestamps fit the 64-bit types the service uses. */
  ghost predicate InRange(s: Storage) {
    && s.latestRoundId < TWO_63
    && forall id: nat | Written(s, id) :: TimeFits(Slot(s, id))
  }

  lemma InRangeEarlier(s: Storage, t: Storage)
    requires Extends(s, t) && InRange(t)
    ensures InRange(s)
  {
    assert forall id: nat | Written(s, id) :: Written(t, id) && Slot(t, id) == Slot(s, id);
  }

  /** What the routes report of the stored round, in every range: the answer as it is, the other values narrowed. */
  lemma FetchReportsSlot(s: Storage, id: nat)
    requires LogInvariant(s) && id < TWO_64
    ensures s.latestRoundId in s.rounds
    ensures var r := s.rounds[s.latestRoundId];
            FetchLatest(s) == Success(RoundData(Uint64(s.latestRoundId), r.answer, Int64(r.startedAt),
                                                Int64(r.updatedAt), Uint64(s.latestRoundId)))
    ensures FetchRound(s, id).Success? ==>
              && id in s.rounds
              && var r := s.rounds[id];
                 FetchRound(s, id).value == RoundData(id, r.answer, Int64(r.startedAt), Int64(r.updatedAt), id)
  {
    FetchRoundNeverWrong(s, id);
    IdentifierReachesContract(id);
    assert Written(s, s.latestRoundId) && RoundShape(s.latestRoundId, Slot(s, s.latestRoundId));
    assert 1 <= id <= s.latestRoundId ==> Written(s, id) && RoundShape(id, Slot(s, id));
  }

  /** The latest round is reported faithfully exactly when its identifier and its times fit. */
  lemma FetchLatestFaithful(s: Storage)
    requires LogInvariant(s)
    ensures FetchLatest(s).Success?
    ensures FetchLatest(s) == LatestRoundData(s) <==> s.latestRoundId < TWO_64 && TimeFits(Slot(s, s.latestRoundId))
  {
    ReadableExactlyWhenWritten(s, s.latestRoundId);
    assert RoundShape(s.latestRoundId, Slot(s, s.latestRoundId));
  }

  /** An identifier reaches the contract unchanged below 2^63; from there on the word sent is no `uint80`. */
  lemma IdentifierReachesContract(id: nat)
    requires id < TWO_64
    ensures RoundArgument(id) == id <==> id < TWO_63
    ensures RoundArgument(id) > MAX_UINT80 <==> id >= TWO_63
  {
    if id >= TWO_63 {
      assert Word(Int64(id)) == Int64(id) + TWO_256;
    }
  }

  /**
   A path identifier is answered exactly when it names a written round below 2^63, and then never with
   another round's values.
   */
  lemma FetchRoundNeverWrong(s: Storage, id: nat)
    requires LogInvariant(s) && id < TWO_64
    ensures FetchRound(s, id).Success? <==> id < TWO_63 && 1 <= id <= s.latestRoundId
    ensures FetchRound(s, id).Success? ==> (FetchRound(s, id) == GetRoundData(s, id) <==> TimeFits(Slot(s, id)))
  {
    IdentifierReachesContract(id);
    ReadableExactlyWhenWritten(s, id);
    if 1 <= id <= s.latestRoundId {
      assert RoundShape(id, Slot(s, id));
    }
  }

  /** Within the 64-bit range `/latestPrice` reads the stored round of the largest identifier. */
  lemma FetchedLatestIsStored(s: Storage)
    requires LogInvariant(s) && InRange(s)
    ensures FetchLatest(s).Success?
    ensures FetchLatest(s).value.roundId == s.latestRoundId && IsRound(s.rounds, FetchLatest(s).value)
  {
    FetchReportsSlot(s, 0);
    assert Written(s, s.latestRoundId) && RoundShape(s.latestRoundId, Slot(s, s.latestRoundId));
  }

  /** And `/round/{id}` the stored round of its identifier. */
  lemma FetchedRoundIsStored(s: Storage, id: nat)
    requires LogInvariant(s) && InRange(s) && id < TWO_64
    ensures FetchRound(s, id).Success? ==>
              FetchRound(s, id).value.roundId == id && IsRound(s.rounds, FetchRound(s, id).value)
  {
    FetchReportsSlot(s, id);
    FetchRoundNeverWrong(s, id);
    assert 1 <= id <= s.latestRoundId ==> Written(s, id) && RoundShape(id, Slot(s, id));
  }
}
