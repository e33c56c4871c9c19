/**
 How many rounds one update request appends. The client's reply does not bound it: a transaction
 whose submission reported an error may be mined before, between or after the later attempts. The
 number of rounds a state of the update path can still lead to is computed exactly.
 */
module UpdatePathRounds {
  import opened Wrappers
  import opened Words
  import opened OracleContract
  import opened UpdatePath
  import Retry

  // ---- The rounds still to come, as a function of the state ----

  /** A pending transaction of the request sits at the sender's current nonce. */
  ghost predicate AtCurrentNonce(net: Net, request: nat) {
    exists tx :: tx in net.pending && tx.request == request && tx.auth.nonce == net.nonce
  }

  /** Neither ownership nor the value stands against the answer. */
  predicate Acceptable(net: Net, answer: int) {
    net.service == net.oracle.owner && SignedWord(Word(answer)) > 0
  }

  /** The attempts whose nonce is still to be read. */
  function AttemptsLeft(stage: Stage): nat {
    match stage
    case Prepare(k) => if k < Retry.MAX_ATTEMPTS then Retry.MAX_ATTEMPTS - k else 0
    case Send(k, _) => if k + 1 < Retry.MAX_ATTEMPTS then Retry.MAX_ATTEMPTS - k - 1 else 0
    case _ => 0
  }

  /** One of the request's transactions, pending or about to be sent, can be the next one mined. */
  ghost predicate Ready(net: Net, request: nat) {
    || AtCurrentNonce(net, request)
    || (request in net.jobs && net.jobs[request].stage.Send? && net.jobs[request].stage.auth.nonce == net.nonce)
  }

  /** The rounds the request could append with unlimited identifiers. */
  ghost function Chances(net: Net, request: nat): nat {
    if request !in net.jobs then
      if net.service == net.oracle.owner then Retry.MAX_ATTEMPTS else 0
    else if !Acceptable(net, net.jobs[request].answer) then 0
    else AttemptsLeft(net.jobs[request].stage) + if Ready(net, request) then 1 else 0
  }

  function Room(oracle: Storage): nat {
    if oracle.latestRoundId < MAX_UINT80 then MAX_UINT80 - oracle.latestRoundId else 0
  }

  ghost function RoundsToCome(net: Net, request: nat): nat {
    if Chances(net, request) <= Room(net.oracle) then Chances(net, request) else Room(net.oracle)
  }

  ghost function RoundsInAll(net: Net, request: nat): nat {
    |RoundsBy(net.mined, request)| + RoundsToCome(net, request)
  }

  ghost predicate Sound(net: Net, first: nat) {
    PathInvariant(net, first) && net.oracle.latestRoundId <= MAX_UINT80
  }

  // ---- No step raises the total ----

  lemma NextKeepsSound(net: Net, a: Action, first: nat)
    requires Sound(net, first)
    ensures Sound(Next(net, a), first)
  {
    NextKeepsPath(net, a, first);
  }

  lemma RoundsBySnoc(mined: seq<Receipt>, last: Receipt, request: nat)
    ensures RoundsBy(mined + [last], request) ==
            RoundsBy(mined, request) + if MinedFor(last, request) && last.round.Some? then [last.round.value] else []
  {
    assert (mined + [last])[..|mined|] == mined;
  }

  /** Once a transaction is mined, everything the request signed before is used up. */
  lemma MinedUsesUpNonce(net: Net, tx: Tx, timestamp: nat, first: nat, request: nat)
    requires PathInvariant(net, first) && tx in net.pending && tx.auth.nonce == net.nonce
    ensures !Ready(Next(net, Mine(tx, timestamp)), request)
  {
    assert forall own | own in net.pending :: SignedWell(net, own);
    assert request in net.jobs ==> StageWell(net, net.jobs[request].stage);
  }

  lemma MineRaisesNothing(net: Net, tx: Tx, timestamp: nat, first: nat, request: nat)
    requires Sound(net, first) && tx in net.pending && tx.auth.nonce == net.nonce
    ensures RoundsInAll(Next(net, Mine(tx, timestamp)), request) <= RoundsInAll(net, request)
    ensures tx.request == request ==> RoundsInAll(Next(net, Mine(tx, timestamp)), request) == RoundsInAll(net, request)
  {
    var v := Next(net, Mine(tx, timestamp));
    MinedUsesUpNonce(net, tx, timestamp, first, request);
    RoundsBySnoc(net.mined, v.mined[|net.mined|], request);
    assert SignedWell(net, tx);
    assert tx.request == request ==> AtCurrentNonce(net, request);
  }

  lemma OutsideCallRaisesNothing(net: Net, answer: int, timestamp: nat, first: nat, request: nat)
    requires Sound(net, first)
    ensures RoundsInAll(Next(net, OutsideCall(answer, timestamp)), request) <= RoundsInAll(net, request)
  {
    var v := Next(net, OutsideCall(answer, timestamp));
    assert forall own | own in net.pending :: SignedWell(net, own);
    assert request in net.jobs ==> StageWell(net, net.jobs[request].stage);
    assert !Ready(v, request);
    RoundsBySnoc(net.mined, v.mined[|net.mined|], request);
  }

  lemma JobStepRaisesNothing(net: Net, a: Action, first: nat, request: nat)
    requires Sound(net, first) && !a.Mine? && !a.OutsideCall? && !a.OtherCall?
    ensures RoundsInAll(Next(net, a), request) <= RoundsInAll(net, request)
  {
    var v := Next(net, a);
    assert v.mined == net.mined && v.oracle == net.oracle;
    assert forall tx | tx in net.signed :: SignedWell(net, tx);
    if request in net.jobs {
      assert StageWell(net, net.jobs[request].stage);
    }
    assert Chances(v, request) <= Chances(net, request);
  }

  lemma NextRaisesNothing(net: Net, a: Action, first: nat, request: nat)
    requires Sound(net, first)
    ensures RoundsInAll(Next(net, a), request) <= RoundsInAll(net, request)
  {
    if a.Mine? {
      if a.tx in net.pending && a.tx.auth.nonce == net.nonce {
        MineRaisesNothing(net, a.tx, a.timestamp, first, request);
      }
    } else if a.OutsideCall? {
      OutsideCallRaisesNothing(net, a.answer, a.timestamp, first, request);
    } else if !a.OtherCall? {
      JobStepRaisesNothing(net, a, first, request);
    }
  }

  lemma {:induction false} RunRaisesNothing(net: Net, actions: seq<Action>, first: nat, request: nat)
    requires Sound(net, first)
    ensures Sound(Exec(net, actions), first)
    ensures RoundsInAll(Exec(net, actions), request) <= RoundsInAll(net, request)
  {
    if actions != [] {
      var front := actions[..|actions| - 1];
      RunRaisesNothing(net, front, first, request);
      NextKeepsSound(Exec(net, front), actions[|actions| - 1], first);
      NextRaisesNothing(Exec(net, front), actions[|actions| - 1], first, request);
    }
  }

  // ---- Some run reaches the total ----

  function StagesLeft(net: Net, request: nat): nat {
    if request !in net.jobs then 7
    else
      match net.jobs[request].stage
      case Prepare(k) => 2 * AttemptsLeft(net.jobs[request].stage)
      case Send(k, _) => 2 * AttemptsLeft(net.jobs[request].stage) + 1
      case _ => 0
  }

  ghost function StepsLeft(net: Net, request: nat): nat {
    2 * StagesLeft(net, request) + if AtCurrentNonce(net, request) then 1 else 0
  }

  /** Opening, reading the nonce, or a delivery that is reported as failed keeps every chance. */
  lemma JobStepToTake(net: Net, first: nat, request: nat) returns (a: Action)
    requires Sound(net, first) && RoundsToCome(net, request) > 0 && !AtCurrentNonce(net, request)
    ensures RoundsInAll(Next(net, a), request) == RoundsInAll(net, request)
    ensures StepsLeft(Next(net, a), request) < StepsLeft(net, request)
  {
    assert forall tx | tx in net.signed :: SignedWell(net, tx);
    if request !in net.jobs {
      a := Open(request, 1);
      assert SignedWord(Word(1)) == 1;
      assert !Ready(Next(net, a), request);
    } else {
      assert StageWell(net, net.jobs[request].stage);
      if net.jobs[request].stage.Prepare? {
        a := ReadNonce(request, true, 0);
        assert Ready(Next(net, a), request);
      } else {
        a := Deliver(request, true, false);
        assert TxOf(request, net.jobs[request]) in Next(net, a).pending;
        assert Ready(Next(net, a), request) <==> Ready(net, request);
      }
    }
  }

  lemma StepToTake(net: Net, first: nat, request: nat) returns (a: Action)
    requires Sound(net, first) && RoundsToCome(net, request) > 0
    ensures RoundsInAll(Next(net, a), request) == RoundsInAll(net, request)
    ensures StepsLeft(Next(net, a), request) < StepsLeft(net, request)
  {
    if AtCurrentNonce(net, request) {
      var tx :| tx in net.pending && tx.request == request && tx.auth.nonce == net.nonce;
      a := Mine(tx, 0);
      MineRaisesNothing(net, tx, 0, first, request);
      MinedUsesUpNonce(net, tx, 0, first, request);
    } else {
      a := JobStepToTake(net, first, request);
    }
  }

  lemma {:induction false} TotalIsReached(net: Net, first: nat, request: nat) returns (actions: seq<Action>)
    requires Sound(net, first)
    ensures |RoundsBy(Exec(net, actions).mined, request)| == RoundsInAll(net, request)
    decreases StepsLeft(net, request)
  {
    if RoundsToCome(net, request) == 0 {
      actions := [];
    } else {
      var a := StepToTake(net, first, request);
      NextKeepsSound(net, a, first);
      var rest := TotalIsReached(Next(net, a), first, request);
      ExecAppend(net, [a], rest);
      assert [a][..0] == [];
      actions := [a] + rest;
    }
  }

  // ---- The exact number of rounds ----

  /** Some continuation leaves the request with at least `k` rounds. */
  ghost predicate CanReach(net: Net, request: nat, k: nat) {
    exists actions :: |RoundsBy(Exec(net, actions).mined, request)| >= k
  }

  lemma CanReachExactly(net: Net, first: nat, request: nat, k: nat)
    requires Sound(net, first)
    ensures CanReach(net, request, k) <==> k <= |RoundsBy(net.mined, request)| + RoundsToCome(net, request)
  {
    var actions := TotalIsReached(net, first, request);
    if k <= RoundsInAll(net, request) {
      assert |RoundsBy(Exec(net, actions).mined, request)| >= k;
    }
    if CanReach(net, request, k) {
      var run :| |RoundsBy(Exec(net, run).mined, request)| >= k;
      RunRaisesNothing(net, run, first, request);
    }
  }

  lemma {:induction false} ReachableIsSound(oracle: Storage, service: Address, nonce: nat, actions: seq<Action>)
    requires oracle.latestRoundId <= MAX_UINT80
    ensures Sound(Exec(Start(oracle, service, nonce), actions), nonce)
  {
    RunRaisesNothing(Start(oracle, service, nonce), actions, nonce, 0);
  }

  /**
   In every reachable state and for every request, some later state has at least `k` of the
   request's rounds exactly when `k` is at most the rounds it has plus those `RoundsToCome` counts.
   */
  lemma RoundsExactly(oracle: Storage, service: Address, nonce: nat, before: seq<Action>, request: nat, k: nat)
    requires oracle.latestRoundId <= MAX_UINT80
    ensures var net := Exec(Start(oracle, service, nonce), before);
            CanReach(net, request, k) <==> k <= |RoundsBy(net.mined, request)| + RoundsToCome(net, request)
  {
    ReachableIsSound(oracle, service, nonce, before);
    CanReachExactly(Exec(Start(oracle, service, nonce), before), nonce, request, k);
  }

  /** A pending transaction of the request sits at the current nonce, and mining it would not revert. */
  ghost predicate CanStillAppend(net: Net, request: nat) {
    exists tx :: && tx in net.pending && tx.request == request && tx.auth.nonce == net.nonce
                 && UpdateAnswer(net.oracle, MinedCall(net, tx, 0)).Success?
  }

  /** After a request's end at most one more round can come, and it comes from that transaction. */
  lemma AtTheEnd(net: Net, first: nat, request: nat)
    requires Sound(net, first) && Over(net, request)
    ensures RoundsToCome(net, request) == if CanStillAppend(net, request) then 1 else 0
  {
    assert forall tx | tx in net.pending :: SignedWell(net, tx);
  }

  /**
   Once a request is over, a second round of it lies ahead exactly when it has two, or has one and a
   live transaction.
   */
  lemma SecondRoundExactly(oracle: Storage, service: Address, nonce: nat, before: seq<Action>, request: nat)
    requires oracle.latestRoundId <= MAX_UINT80
    requires Over(Exec(Start(oracle, service, nonce), before), request)
    ensures var net := Exec(Start(oracle, service, nonce), before);
            CanReach(net, request, 2) <==>
              || |RoundsBy(net.mined, request)| >= 2
              || (|RoundsBy(net.mined, request)| == 1 && CanStillAppend(net, request))
  {
    ReachableIsSound(oracle, service, nonce, before);
    AtTheEnd(Exec(Start(oracle, service, nonce), before), nonce, request);
    RoundsExactly(oracle, service, nonce, before, request, 2);
  }

  /** None of the request's transactions has been mined. */
  ghost predicate NoneMined(net: Net, request: nat) {
    forall i | 0 <= i < |net.mined| :: !MinedFor(net.mined[i], request)
  }

  lemma {:induction false} NoneMinedNoRounds(mined: seq<Receipt>, request: nat)
    requires forall i | 0 <= i < |mined| :: !MinedFor(mined[i], request)
    ensures RoundsBy(mined, request) == []
  {
    if mined != [] {
      NoneMinedNoRounds(mined[..|mined| - 1], request);
    }
  }

  /**
   If a request ends before any of its own transactions is mined, it appends at most one round, ever,
   whatever else is mined.
   */
  lemma OneRoundIfEndedUnmined(
      oracle: Storage, service: Address, nonce: nat, before: seq<Action>, after: seq<Action>, request: nat)
    requires oracle.latestRoundId <= MAX_UINT80
    requires Over(Exec(Start(oracle, service, nonce), before), request)
    requires NoneMined(Exec(Start(oracle, service, nonce), before), request)
    ensures |RoundsBy(Exec(Start(oracle, service, nonce), before + after).mined, request)| <= 1
  {
    var net := Exec(Start(oracle, service, nonce), before);
    ReachableIsSound(oracle, service, nonce, before);
    NoneMinedNoRounds(net.mined, request);
    AtTheEnd(net, nonce, request);
    ExecAppend(Start(oracle, service, nonce), before, after);
    RunRaisesNothing(net, after, nonce, request);
  }

  // ---- Nothing mined between the nonce reads: one nonce ----

  /** No transaction of the account is mined. */
  ghost predicate MinesNothing(actions: seq<Action>) {
    forall i | 0 <= i < |actions| :: !actions[i].Mine? && !actions[i].OutsideCall?
  }

  ghost predicate ReadsNoNonce(actions: seq<Action>, request: nat) {
    forall i | 0 <= i < |actions| :: actions[i].ReadNonce? ==> actions[i].request != request
  }

  /** All transactions the request signed, and the one it is about to sign, use this nonce. */
  ghost predicate OneNonce(net: Net, request: nat, nonce: nat) {
    && (forall tx | tx in net.signed && tx.request == request :: tx.auth.nonce == nonce)
    && (request in net.jobs && net.jobs[request].stage.Send? ==> net.jobs[request].stage.auth.nonce == nonce)
  }

  lemma {:induction false} QuietRunKeepsNonce(net: Net, actions: seq<Action>, request: nat)
    requires MinesNothing(actions) && OneNonce(net, request, net.nonce)
    ensures Exec(net, actions).nonce == net.nonce && OneNonce(Exec(net, actions), request, net.nonce)
  {
    if actions != [] {
      assert !actions[|actions| - 1].Mine? && !actions[|actions| - 1].OutsideCall?;
      QuietRunKeepsNonce(net, actions[..|actions| - 1], request);
    }
  }

  lemma {:induction false} NoReadKeepsNonce(net: Net, actions: seq<Action>, request: nat, nonce: nat)
    requires ReadsNoNonce(actions, request) && OneNonce(net, request, nonce)
    ensures OneNonce(Exec(net, actions), request, nonce)
  {
    if actions != [] {
      var last := actions[|actions| - 1];
      assert last.ReadNonce? ==> last.request != request;
      NoReadKeepsNonce(net, actions[..|actions| - 1], request, nonce);
    }
  }

  /** The request has signed nothing and holds no nonce. */
  ghost predicate HoldsNoNonce(net: Net, request: nat) {
    SignedBy(net, request) == {} && (request in net.jobs ==> !net.jobs[request].stage.Send?)
  }

  /**
   If nothing is mined from a request's first nonce read to its last, all its attempts carry one
   nonce, and so it appends at most one round, whatever is mined before and afterwards.
   */
  lemma OneNonceIfQuietBetweenReads(
      oracle: Storage, service: Address, nonce: nat, before: seq<Action>, between: seq<Action>, after: seq<Action>,
      request: nat)
    requires HoldsNoNonce(Exec(Start(oracle, service, nonce), before), request)
    requires MinesNothing(between) && ReadsNoNonce(after, request)
    ensures var net := Exec(Start(oracle, service, nonce), before + between + after);
            |RoundsBy(net.mined, request)| <= |NoncesOf(SignedBy(net, request))| <= 1
  {
    var s := Start(oracle, service, nonce);
    var begun := Exec(s, before);
    var net := Exec(s, before + between + after);
    assert forall tx | tx in begun.signed && tx.request == request :: tx in SignedBy(begun, request);
    ExecAppend(s, before, between);
    QuietRunKeepsNonce(begun, between, request);
    ExecAppend(s, before + between, after);
    NoReadKeepsNonce(Exec(s, before + between), after, request, begun.nonce);
    ExecKeepsPath(oracle, service, nonce, before + between + after);
    RoundsWithinNonces(net, nonce, request);
    SubsetSize(NoncesOf(SignedBy(net, request)), {begun.nonce});
  }

  // ---- The bound of three is reached, and the client is told of a failure ----

  const ASKED: int := 5

  function NthTx(n: nat): Tx {
    Tx(0, n, Auth(n, 0, GAS_LIMIT, 1), Word(ASKED))
  }

  /** The submission reports an error although its transaction is pending. */
  function AmbiguousSubmission(n: nat): seq<Action> {
    [ReadNonce(0, true, 1), Deliver(0, true, false)]
  }

  /** The rounds from 2 to `n + 1`. */
  function RoundsFrom2(n: nat): seq<nat> {
    if n == 0 then [] else RoundsFrom2(n - 1) + [n + 1]
  }

  /** The state in which the first `n` attempts have all failed for the client and all appended a round. */
  ghost predicate AllAppended(net: Net, n: nat) {
    && net.service == net.oracle.owner
    && net.nonce == n
    && net.oracle.latestRoundId == n + 1
    && net.jobs == map[0 := Job(ASKED, if n < Retry.MAX_ATTEMPTS then Prepare(n) else GaveUp)]
    && RoundsBy(net.mined, 0) == RoundsFrom2(n)
  }

  lemma SubmissionPends(net: Net, n: nat)
    requires AllAppended(net, n) && n < Retry.MAX_ATTEMPTS
    ensures var v := Exec(net, AmbiguousSubmission(n));
            && v == net.(jobs := net.jobs[0 := Job(ASKED, After(n))], signed := v.signed, pending := v.pending)
            && NthTx(n) in v.pending
  {
    var acts := AmbiguousSubmission(n);
    ExecSnoc(net, [], acts[0]);
    ExecSnoc(net, [acts[0]], acts[1]);
    assert [] + [acts[0]] == [acts[0]];
    assert acts == [acts[0]] + [acts[1]];
  }

  lemma AttemptAppends(net: Net, n: nat)
    requires AllAppended(net, n) && n < Retry.MAX_ATTEMPTS
    ensures AllAppended(Exec(net, AmbiguousSubmission(n) + [Mine(NthTx(n), 0)]), n + 1)
  {
    SubmissionPends(net, n);
    var sent := Exec(net, AmbiguousSubmission(n));
    ExecSnoc(net, AmbiguousSubmission(n), Mine(NthTx(n), 0));
    assert SignedWord(Word(ASKED)) == ASKED;
    RoundsBySnoc(net.mined, Receipt(NthTx(n), 0, Some(n + 2)), 0);
  }

  lemma {:induction false} AttemptsAppend(n: nat) returns (actions: seq<Action>)
    requires n <= Retry.MAX_ATTEMPTS
    ensures AllAppended(Exec(Start(Deploy(7, 0), 7, 0), actions), n)
  {
    var start := Start(Deploy(7, 0), 7, 0);
    if n == 0 {
      ExecSnoc(start, [], Open(0, ASKED));
      actions := [] + [Open(0, ASKED)];
    } else {
      var before := AttemptsAppend(n - 1);
      var net := Exec(start, before);
      var attempt := AmbiguousSubmission(n - 1) + [Mine(NthTx(n - 1), 0)];
      AttemptAppends(net, n - 1);
      ExecAppend(start, before, attempt);
      actions := before + attempt;
    }
  }

  /** A single request can append three rounds and still report a failure to its client. */
  lemma OneRequestThreeRounds() returns (actions: seq<Action>)
    ensures var net := Exec(Start(Deploy(7, 0), 7, 0), actions);
            && net.jobs == map[0 := Job(ASKED, GaveUp)]
            && RoundsBy(net.mined, 0) == [2, 3, 4]
            && net.oracle.latestRoundId == 4
  {
    actions := AttemptsAppend(3);
  }
}
