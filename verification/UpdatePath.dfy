/**
 The update path: retried submissions, nonces read from the mined state, pending transactions and
 the contract. A submission may report an error although its transaction is pending, and a
 transaction executes only when its nonce is the sender's current one (section 6 of the Ethereum
 Yellow Paper). Any number of update requests of the same service run side by side.
 */
module UpdatePath {
  import opened Wrappers
  import opened Words
  import opened OracleContract
  import Retry

  const GAS_LIMIT: nat := 300000

  /** The transactor's options as `UpdatePrice` fills them in. */
  datatype Auth = Auth(nonce: nat, value: nat, gasLimit: nat, gasPrice: nat)

  /** `word` is the encoded argument of `updateAnswer`. */
  datatype Tx = Tx(request: nat, attempt: nat, auth: Auth, word: nat)

  /**
   The round a mined transaction of the service's account appended, or `None` if it reverted; `at` is
   the time of its block.
   `Outside`: a transaction some other program signed with the account's key.
   */
  datatype Receipt =
    | Receipt(tx: Tx, at: nat, round: Option<nat>)
    | Outside(answer: int, at: nat, round: Option<nat>)

  predicate MinedFor(r: Receipt, request: nat) {
    r.Receipt? && r.tx.request == request
  }

  datatype Stage =
    | Prepare(attempt: nat)
    | Send(attempt: nat, auth: Auth)
    | Sent
    | GaveUp

  datatype Job = Job(answer: int, stage: Stage)

  /** `signed`: every transaction handed to a node; `pending`: those that reached one and may be mined. */
  datatype Net = Net(
    oracle: Storage,
    service: Address,
    nonce: nat,
    signed: set<Tx>,
    pending: set<Tx>,
    mined: seq<Receipt>,
    jobs: map<nat, Job>)

  datatype Action =
    | Open(request: nat, answer: int)
    | ReadNonce(request: nat, ok: bool, gasPrice: nat)
    | Deliver(request: nat, reaches: bool, reported: bool)
    | Abort(request: nat)
    | Mine(tx: Tx, timestamp: nat)
    | OutsideCall(answer: int, timestamp: nat)   // the account's key used by another program
    | OtherCall(call: Call)

  function Start(oracle: Storage, service: Address, nonce: nat): Net {
    Net(oracle, service, nonce, {}, {}, [], map[])
  }

  function After(attempt: nat): Stage {
    if attempt + 1 < Retry.MAX_ATTEMPTS then Prepare(attempt + 1) else GaveUp
  }

  function Moved(net: Net, request: nat, stage: Stage): Net
    requires request in net.jobs
  {
    net.(jobs := net.jobs[request := net.jobs[request].(stage := stage)])
  }

  function MinedCall(net: Net, tx: Tx, timestamp: nat): Call {
    Call(net.service, SignedWord(tx.word), timestamp)
  }

  /** The round a call appends, if it does not revert. */
  function RoundOf(s: Storage, call: Call): Option<nat> {
    match UpdateAnswer(s, call)
    case Success(t) => Some(t.latestRoundId)
    case Failure(_) => None
  }

  /** A transaction of the service's account is executed: the nonce is used up even if the call reverts. */
  function Executed(net: Net, call: Call, receipt: Receipt): Net {
    net.(oracle := Execute(net.oracle, call), nonce := net.nonce + 1, mined := net.mined + [receipt])
  }

  function TxOf(request: nat, job: Job): Tx
    requires job.stage.Send?
  {
    Tx(request, job.stage.attempt, job.stage.auth, Word(job.answer))
  }

  function Next(net: Net, a: Action): Net {
    match a
    case Open(request, answer) =>
      if request in net.jobs then net else net.(jobs := net.jobs[request := Job(answer, Prepare(0))])
    case ReadNonce(request, ok, gasPrice) =>
      if request in net.jobs && net.jobs[request].stage.Prepare? then
        var attempt := net.jobs[request].stage.attempt;
        Moved(net, request, if ok then Send(attempt, Auth(net.nonce, 0, GAS_LIMIT, gasPrice)) else After(attempt))
      else net
    case Deliver(request, reaches, reported) =>
      if request in net.jobs && net.jobs[request].stage.Send? then
        var tx := TxOf(request, net.jobs[request]);
        Moved(net, request, if reported then Sent else After(tx.attempt))
          .(signed := net.signed + {tx}, pending := if reaches then net.pending + {tx} else net.pending)
      else net
    case Abort(request) =>
      if request in net.jobs && net.jobs[request].stage.Prepare? then Moved(net, request, GaveUp) else net
    case Mine(tx, timestamp) =>
      if tx in net.pending && tx.auth.nonce == net.nonce then
        var call := MinedCall(net, tx, timestamp);
        Executed(net, call, Receipt(tx, timestamp, RoundOf(net.oracle, call)))
      else net
    case OutsideCall(answer, timestamp) =>
      var call := Call(net.service, answer, timestamp);
      Executed(net, call, Outside(answer, timestamp, RoundOf(net.oracle, call)))
    case OtherCall(call) =>
      if call.sender != net.service then net.(oracle := Execute(net.oracle, call)) else net
  }

  /** The contract call a step executes, if any. */
  function CallMade(net: Net, a: Action): Option<Call> {
    match a
    case Mine(tx, timestamp) =>
      if tx in net.pending && tx.auth.nonce == net.nonce then Some(MinedCall(net, tx, timestamp)) else None
    case OutsideCall(answer, timestamp) => Some(Call(net.service, answer, timestamp))
    case OtherCall(call) => if call.sender != net.service then Some(call) else None
    case _ => None
  }

  lemma NextCallsContract(net: Net, a: Action)
    ensures Next(net, a).service == net.service
    ensures Next(net, a).oracle == match CallMade(net, a)
                                   case Some(call) => Execute(net.oracle, call)
                                   case None => net.oracle
  {
  }

  /**
   What one mined transaction does: the nonce is used up, and if the service owns the contract, its word
   reads as positive and an identifier is left, the next round has that answer and the block's time.
   Otherwise the contract is as before.
   */
  lemma MineAppends(net: Net, tx: Tx, timestamp: nat)
    requires tx in net.pending && tx.auth.nonce == net.nonce
    ensures var v := Next(net, Mine(tx, timestamp));
            var id := net.oracle.latestRoundId + 1;
            var answer := if tx.word < TWO_255 then tx.word else tx.word - TWO_256;
            && v.nonce == net.nonce + 1
            && if net.service == net.oracle.owner && answer > 0 && id - 1 != MAX_UINT80 then
                 && v.mined == net.mined + [Receipt(tx, timestamp, Some(id))]
                 && v.oracle.latestRoundId == id
                 && v.oracle.rounds == net.oracle.rounds[id := Round(answer, timestamp, timestamp, id)]
               else
                 v.mined == net.mined + [Receipt(tx, timestamp, None)] && v.oracle == net.oracle
  {
  }

  /** The same for a transaction of the account signed elsewhere. */
  lemma OutsideCallAppends(net: Net, answer: int, timestamp: nat)
    ensures var v := Next(net, OutsideCall(answer, timestamp));
            var id := net.oracle.latestRoundId + 1;
            && v.nonce == net.nonce + 1
            && if net.service == net.oracle.owner && answer > 0 && id - 1 != MAX_UINT80 then
                 && v.mined == net.mined + [Outside(answer, timestamp, Some(id))]
                 && v.oracle.latestRoundId == id
                 && v.oracle.rounds == net.oracle.rounds[id := Round(answer, timestamp, timestamp, id)]
               else
                 v.mined == net.mined + [Outside(answer, timestamp, None)] && v.oracle == net.oracle
  {
  }

  /** A call from another account touches the contract only, and appends a round just if that account owns it. */
  lemma OtherCallAppends(net: Net, call: Call)
    requires call.sender != net.service
    ensures var v := Next(net, OtherCall(call));
            var id := net.oracle.latestRoundId + 1;
            && v == net.(oracle := v.oracle)
            && if call.sender == net.oracle.owner && call.answer > 0 && id - 1 != MAX_UINT80 then
                 && v.oracle.latestRoundId == id
                 && v.oracle.rounds == net.oracle.rounds[id := Round(call.answer, call.timestamp, call.timestamp, id)]
               else
                 v.oracle == net.oracle
  {
  }

  function Exec(net: Net, actions: seq<Action>): Net {
    if actions == [] then net else Next(Exec(net, actions[..|actions| - 1]), actions[|actions| - 1])
  }

  lemma ExecSnoc(net: Net, actions: seq<Action>, a: Action)
    ensures Exec(net, actions + [a]) == Next(Exec(net, actions), a)
  {
    assert (actions + [a])[..|actions|] == actions;
  }

  // ---- Which transactions exist ----

  /** The i-th action hands over this transaction, whose request stood before its submission then. */
  ghost predicate HandsOver(start: Net, actions: seq<Action>, i: nat, tx: Tx) {
    && i < |actions| && actions[i].Deliver? && actions[i].request == tx.request
    && var jobs := Exec(start, actions[..i]).jobs;
       && tx.request in jobs
       && jobs[tx.request].stage == Send(tx.attempt, tx.auth)
       && tx.word == Word(jobs[tx.request].answer)
  }

  ghost predicate HandedOver(start: Net, actions: seq<Action>, tx: Tx) {
    exists i: nat :: HandsOver(start, actions, i, tx)
  }

  ghost predicate ReachedNode(start: Net, actions: seq<Action>, tx: Tx) {
    exists i: nat :: HandsOver(start, actions, i, tx) && actions[i].reaches
  }

  ghost predicate Submits(net: Net, a: Action, tx: Tx) {
    a.Deliver? && a.request in net.jobs && net.jobs[a.request].stage.Send? && tx == TxOf(a.request, net.jobs[a.request])
  }

  lemma HandsOverSnoc(start: Net, front: seq<Action>, a: Action, i: nat, tx: Tx)
    ensures HandsOver(start, front + [a], i, tx) <==>
              if i < |front| then HandsOver(start, front, i, tx) else i == |front| && Submits(Exec(start, front), a, tx)
  {
    if i < |front| {
      assert front[..i] == (front + [a])[..i];
    } else if i == |front| {
      assert (front + [a])[..i] == front;
    }
  }

  lemma HandedOverSnoc(start: Net, front: seq<Action>, a: Action, tx: Tx)
    ensures HandedOver(start, front + [a], tx) <==> HandedOver(start, front, tx) || Submits(Exec(start, front), a, tx)
    ensures ReachedNode(start, front + [a], tx) <==>
              ReachedNode(start, front, tx) || (Submits(Exec(start, front), a, tx) && a.reaches)
  {
    forall i: nat
      ensures HandsOver(start, front + [a], i, tx) <==>
                if i < |front| then HandsOver(start, front, i, tx)
                else i == |front| && Submits(Exec(start, front), a, tx)
    {
      HandsOverSnoc(start, front, a, i, tx);
    }
    if HandedOver(start, front, tx) {
      var i: nat :| HandsOver(start, front, i, tx);
      assert HandsOver(start, front + [a], i, tx);
    }
    if ReachedNode(start, front, tx) {
      var i: nat :| HandsOver(start, front, i, tx) && front[i].reaches;
      assert HandsOver(start, front + [a], i, tx) && (front + [a])[i].reaches;
    }
    if Submits(Exec(start, front), a, tx) {
      assert HandsOver(start, front + [a], |front|, tx) && (front + [a])[|front|] == a;
    }
  }

  lemma NextPending(net: Net, a: Action, tx: Tx)
    ensures tx in Next(net, a).signed <==> tx in net.signed || Submits(net, a, tx)
    ensures tx in Next(net, a).pending <==> tx in net.pending || (Submits(net, a, tx) && a.reaches)
  {
  }

  /**
   The transactions of every run: signed are those some submission handed over, pending exactly those
   of them that reached a node, whatever was reported.
   */
  lemma {:induction false} PendingExactly(oracle: Storage, service: Address, nonce: nat, actions: seq<Action>, tx: Tx)
    ensures var start := Start(oracle, service, nonce);
            && (tx in Exec(start, actions).signed <==> HandedOver(start, actions, tx))
            && (tx in Exec(start, actions).pending <==> ReachedNode(start, actions, tx))
  {
    var start := Start(oracle, service, nonce);
    if actions != [] {
      var front, a := actions[..|actions| - 1], actions[|actions| - 1];
      PendingExactly(oracle, service, nonce, front, tx);
      assert actions == front + [a];
      HandedOverSnoc(start, front, a, tx);
      NextPending(Exec(start, front), a, tx);
    }
  }

  // ---- What every run keeps ----

  /** How many attempts a job may have signed for. */
  function Reached(stage: Stage): nat {
    match stage
    case Prepare(k) => k
    case Send(k, _) => k
    case _ => Retry.MAX_ATTEMPTS
  }

  ghost predicate SignedWell(net: Net, tx: Tx) {
    && tx.request in net.jobs
    && tx.word == Word(net.jobs[tx.request].answer)
    && tx.attempt < Retry.MAX_ATTEMPTS && tx.attempt < Reached(net.jobs[tx.request].stage)
    && tx.auth.nonce <= net.nonce
  }

  ghost predicate StageWell(net: Net, stage: Stage) {
    match stage
    case Prepare(k) => k < Retry.MAX_ATTEMPTS
    case Send(k, auth) => k < Retry.MAX_ATTEMPTS && auth.nonce <= net.nonce
    case _ => true
  }

  ghost predicate OneTxPerAttempt(net: Net) {
    forall a, b | a in net.signed && b in net.signed && a.request == b.request && a.attempt == b.attempt :: a == b
  }

  /** Every nonce used is that of one mined transaction: if the i-th one came from a request, it has the i-th nonce. */
  ghost predicate NoncesInOrder(net: Net, first: nat) {
    && net.nonce == first + |net.mined|
    && forall i: nat | i < |net.mined| && net.mined[i].Receipt? ::
         net.mined[i].tx in net.pending && net.mined[i].tx.auth.nonce == first + i
  }

  ghost predicate PathInvariant(net: Net, first: nat) {
    && (forall tx | tx in net.signed :: SignedWell(net, tx))
    && (forall r | r in net.jobs :: StageWell(net, net.jobs[r].stage))
    && OneTxPerAttempt(net)
    && net.pending <= net.signed
    && NoncesInOrder(net, first)
  }

  lemma DeliverKeepsPath(net: Net, request: nat, reaches: bool, reported: bool, first: nat)
    requires PathInvariant(net, first) && request in net.jobs && net.jobs[request].stage.Send?
    ensures PathInvariant(Next(net, Deliver(request, reaches, reported)), first)
  {
    var v := Next(net, Deliver(request, reaches, reported));
    var tx := TxOf(request, net.jobs[request]);
    assert StageWell(net, net.jobs[request].stage);
    forall other | other in v.signed
      ensures SignedWell(v, other)
    {
      assert other != tx ==> SignedWell(net, other);
    }
    forall r | r in v.jobs
      ensures StageWell(v, v.jobs[r].stage)
    {
      assert StageWell(net, net.jobs[r].stage);
    }
    assert OneTxPerAttempt(v) by {
      assert forall other | other in net.signed :: SignedWell(net, other);
    }
  }

  lemma NextKeepsPath(net: Net, a: Action, first: nat)
    requires PathInvariant(net, first)
    ensures PathInvariant(Next(net, a), first)
  {
    var v := Next(net, a);
    if a.Deliver? && a.request in net.jobs && net.jobs[a.request].stage.Send? {
      DeliverKeepsPath(net, a.request, a.reaches, a.reported, first);
    } else {
      assert v.signed == net.signed && v.pending == net.pending;
      forall tx | tx in v.signed
        ensures SignedWell(v, tx)
      {
        assert SignedWell(net, tx);
      }
      forall r | r in v.jobs
        ensures StageWell(v, v.jobs[r].stage)
      {
        assert r in net.jobs ==> StageWell(net, net.jobs[r].stage);
      }
    }
  }

  lemma {:induction false} ExecKeepsPath(oracle: Storage, service: Address, nonce: nat, actions: seq<Action>)
    ensures PathInvariant(Exec(Start(oracle, service, nonce), actions), nonce)
  {
    if actions != [] {
      ExecKeepsPath(oracle, service, nonce, actions[..|actions| - 1]);
      NextKeepsPath(Exec(Start(oracle, service, nonce), actions[..|actions| - 1]), actions[|actions| - 1], nonce);
    }
  }

  // ---- One request: at most three transactions, one execution per nonce, at most three rounds ----

  function SignedBy(net: Net, request: nat): set<Tx> {
    set tx | tx in net.signed && tx.request == request
  }

  /** The nonces a set of transactions uses. */
  function NoncesOf(txs: set<Tx>): set<nat> {
    set tx | tx in txs :: tx.auth.nonce
  }

  /** The rounds a request's mined transactions appended, in order. */
  function RoundsBy(mined: seq<Receipt>, request: nat): seq<nat> {
    if mined == [] then []
    else
      var rest, last := RoundsBy(mined[..|mined| - 1], request), mined[|mined| - 1];
      if MinedFor(last, request) && last.round.Some? then rest + [last.round.value] else rest
  }

  lemma {:induction false} DistinctAttempts(txs: set<Tx>, request: nat, n: nat)
    requires forall tx | tx in txs :: tx.request == request && tx.attempt < n
    requires forall a, b | a in txs && b in txs && a.attempt == b.attempt :: a == b
    ensures |txs| <= n
  {
    if n == 0 {
      assert txs == {};
    } else if tx :| tx in txs && tx.attempt == n - 1 {
      DistinctAttempts(txs - {tx}, request, n - 1);
    } else {
      DistinctAttempts(txs, request, n - 1);
    }
  }

  lemma {:induction false} NoMoreNoncesThanTxs(txs: set<Tx>)
    ensures |NoncesOf(txs)| <= |txs|
  {
    if txs != {} {
      var tx :| tx in txs;
      NoMoreNoncesThanTxs(txs - {tx});
      assert NoncesOf(txs) == NoncesOf(txs - {tx}) + {tx.auth.nonce};
    }
  }

  /** The nonces at which a request's transactions were mined and appended a round. */
  function SpentNonces(mined: seq<Receipt>, request: nat): set<nat> {
    if mined == [] then {}
    else
      var rest, last := SpentNonces(mined[..|mined| - 1], request), mined[|mined| - 1];
      if MinedFor(last, request) && last.round.Some? then rest + {last.tx.auth.nonce} else rest
  }

  lemma {:induction false} OneRoundPerNonce(mined: seq<Receipt>, request: nat, first: nat, txs: set<Tx>)
    requires forall i: nat | i < |mined| && mined[i].Receipt? :: mined[i].tx.auth.nonce == first + i
    requires forall i: nat | i < |mined| && MinedFor(mined[i], request) :: mined[i].tx in txs
    ensures |RoundsBy(mined, request)| == |SpentNonces(mined, request)|
    ensures forall n | n in SpentNonces(mined, request) :: n < first + |mined|
    ensures SpentNonces(mined, request) <= NoncesOf(txs)
  {
    if mined != [] {
      OneRoundPerNonce(mined[..|mined| - 1], request, first, txs);
    }
  }

  lemma SubsetSize<T>(a: set<T>, b: set<T>)
    requires a <= b
    ensures |a| <= |b|
  {
    assert b == a + (b - a);
  }

  /** A request appends no more rounds than the distinct nonces it signed for. */
  lemma RoundsWithinNonces(net: Net, first: nat, request: nat)
    requires PathInvariant(net, first)
    ensures |RoundsBy(net.mined, request)| <= |NoncesOf(SignedBy(net, request))|
    ensures |NoncesOf(SignedBy(net, request))| <= |SignedBy(net, request)| <= Retry.MAX_ATTEMPTS
  {
    var txs := SignedBy(net, request);
    forall i: nat | i < |net.mined| && MinedFor(net.mined[i], request)
      ensures net.mined[i].tx in txs
    {
      assert net.mined[i].tx in net.pending;
    }
    OneRoundPerNonce(net.mined, request, first, txs);
    SubsetSize(SpentNonces(net.mined, request), NoncesOf(txs));
    NoMoreNoncesThanTxs(txs);
    assert forall tx | tx in txs :: SignedWell(net, tx);
    DistinctAttempts(txs, request, Retry.MAX_ATTEMPTS);
  }

  /**
   The bounded effect of one request over every run, with any ambiguous failures, cancellations and
   concurrent requests: at most three transactions, executed transactions all at different nonces,
   and at most as many rounds as nonces.
   */
  lemma BoundedEffect(oracle: Storage, service: Address, nonce: nat, actions: seq<Action>, request: nat)
    ensures var net := Exec(Start(oracle, service, nonce), actions);
            && |SignedBy(net, request)| <= 3
            && |RoundsBy(net.mined, request)| <= |NoncesOf(SignedBy(net, request))| <= 3
            && (forall i | 0 <= i < |net.mined| && net.mined[i].Receipt? :: net.mined[i].tx in net.signed)
            && (forall i | 0 <= i < |net.mined| && net.mined[i].Receipt? :: net.mined[i].tx.auth.nonce == nonce + i)
  {
    var net := Exec(Start(oracle, service, nonce), actions);
    ExecKeepsPath(oracle, service, nonce, actions);
    RoundsWithinNonces(net, nonce, request);
    forall i | 0 <= i < |net.mined| && net.mined[i].Receipt?
      ensures net.mined[i].tx in net.signed && net.mined[i].tx.auth.nonce == nonce + i
    {
      assert net.mined[i].tx in net.pending;
    }
  }

  // ---- The end of a request ----

  ghost predicate Over(net: Net, request: nat) {
    request in net.jobs && (net.jobs[request].stage.Sent? || net.jobs[request].stage.GaveUp?)
  }

  lemma {:induction false} ExecAppend(net: Net, before: seq<Action>, after: seq<Action>)
    ensures Exec(net, before + after) == Exec(Exec(net, before), after)
  {
    if after == [] {
      assert before + after == before;
    } else {
      var all := before + after;
      assert all[..|all| - 1] == before + after[..|after| - 1];
      ExecAppend(net, before, after[..|after| - 1]);
    }
  }

  // ---- Conservation ----

  function Appended(mined: seq<Receipt>): nat {
    if mined == [] then 0
    else Appended(mined[..|mined| - 1]) + if mined[|mined| - 1].round.Some? then 1 else 0
  }

  /**
   The i-th receipt names the round it appended, and that round has the time of its block and the
   answer its request asked for, as a word, or the outside call's answer.
   */
  ghost predicate ReceiptHolds(net: Net, i: nat)
    requires i < |net.mined|
  {
    var receipt := net.mined[i];
    receipt.round.Some? ==>
      && 1 <= receipt.round.value <= net.oracle.latestRoundId
      && Slot(net.oracle, receipt.round.value).startedAt == receipt.at
      && Slot(net.oracle, receipt.round.value).updatedAt == receipt.at
      && match receipt
         case Receipt(tx, _, round) =>
           && tx.request in net.jobs
           && Slot(net.oracle, round.value).answer == SignedWord(Word(net.jobs[tx.request].answer))
         case Outside(answer, _, round) => Slot(net.oracle, round.value).answer == answer
  }

  ghost predicate HasReceipt(net: Net, id: nat) {
    exists i: nat :: i < |net.mined| && net.mined[i].round == Some(id)
  }

  lemma NextKeepsReceipts(net: Net, a: Action, first: nat)
    requires LogInvariant(net.oracle) && PathInvariant(net, first)
    requires forall i: nat | i < |net.mined| :: ReceiptHolds(net, i)
    ensures LogInvariant(Next(net, a).oracle) && Extends(net.oracle, Next(net, a).oracle)
    ensures forall i: nat | i < |Next(net, a).mined| :: ReceiptHolds(Next(net, a), i)
  {
    var v := Next(net, a);
    if v.oracle != net.oracle {
      var call := CallMade(net, a).value;
      ExecuteKeepsLog(net.oracle, call);
      ExecuteExtends(net.oracle, call);
    }
    forall i: nat | i < |v.mined|
      ensures ReceiptHolds(v, i)
    {
      if i < |net.mined| {
        assert ReceiptHolds(net, i);
        if net.mined[i].round.Some? {
          assert Written(net.oracle, net.mined[i].round.value);
        }
      } else if a.Mine? {
        assert SignedWell(net, a.tx);
      }
    }
  }

  lemma {:induction false} ExecKeepsReceipts(oracle: Storage, service: Address, nonce: nat, actions: seq<Action>)
    requires LogInvariant(oracle)
    ensures var net := Exec(Start(oracle, service, nonce), actions);
            && LogInvariant(net.oracle) && Extends(oracle, net.oracle)
            && forall i: nat | i < |net.mined| :: ReceiptHolds(net, i)
  {
    if actions != [] {
      var before := Exec(Start(oracle, service, nonce), actions[..|actions| - 1]);
      ExecKeepsReceipts(oracle, service, nonce, actions[..|actions| - 1]);
      ExecKeepsPath(oracle, service, nonce, actions[..|actions| - 1]);
      NextKeepsReceipts(before, actions[|actions| - 1], nonce);
      ExtendsTransitive(oracle, before.oracle, Exec(Start(oracle, service, nonce), actions).oracle);
    }
  }

  ghost predicate RoundsCounted(net: Net, from: nat) {
    && net.service == net.oracle.owner
    && net.oracle.latestRoundId == from + Appended(net.mined)
    && forall id: nat | from < id <= net.oracle.latestRoundId :: HasReceipt(net, id)
  }

  lemma NextKeepsCount(net: Net, a: Action, from: nat)
    requires RoundsCounted(net, from)
    ensures RoundsCounted(Next(net, a), from)
  {
    var v := Next(net, a);
    if v.mined != net.mined {
      assert v.mined[..|v.mined| - 1] == net.mined;
      forall id: nat | from < id <= v.oracle.latestRoundId
        ensures HasReceipt(v, id)
      {
        if id <= net.oracle.latestRoundId {
          assert HasReceipt(net, id);
          var i: nat :| i < |net.mined| && net.mined[i].round == Some(id);
          assert v.mined[i].round == Some(id);
        } else {
          assert v.mined[|v.mined| - 1].round == Some(id);
        }
      }
    } else {
      assert v.oracle == net.oracle;
      assert forall id: nat :: HasReceipt(net, id) ==> HasReceipt(v, id);
    }
  }

  /**
   While the service owns the contract, rounds come from its mined transactions only, one from each that
   did not revert.
   */
  lemma {:induction false} RoundsAreMined(oracle: Storage, service: Address, nonce: nat, actions: seq<Action>)
    requires oracle.owner == service
    ensures RoundsCounted(Exec(Start(oracle, service, nonce), actions), oracle.latestRoundId)
  {
    if actions != [] {
      RoundsAreMined(oracle, service, nonce, actions[..|actions| - 1]);
      var before := Exec(Start(oracle, service, nonce), actions[..|actions| - 1]);
      NextKeepsCount(before, actions[|actions| - 1], oracle.latestRoundId);
    }
  }

  /**
   Conservation: the nonce grows by the account's transactions mined, the log by those of them that
   did not revert, and every new round has the time of the block it was mined in and the answer some
   request asked for, up to its 256-bit encoding, or that of a call made outside the service.
   */
  lemma Conservation(oracle: Storage, service: Address, nonce: nat, actions: seq<Action>, id: nat)
    requires LogInvariant(oracle) && oracle.owner == service
    ensures var net := Exec(Start(oracle, service, nonce), actions);
            && net.nonce == nonce + |net.mined|
            && net.oracle.latestRoundId == oracle.latestRoundId + Appended(net.mined)
            && (oracle.latestRoundId < id <= net.oracle.latestRoundId ==>
                  exists i: nat :: i < |net.mined| && AccountsFor(net, net.mined[i], id))
  {
    var net := Exec(Start(oracle, service, nonce), actions);
    ExecKeepsPath(oracle, service, nonce, actions);
    ExecKeepsReceipts(oracle, service, nonce, actions);
    RoundsAreMined(oracle, service, nonce, actions);
    if oracle.latestRoundId < id <= net.oracle.latestRoundId {
      assert HasReceipt(net, id);
      var i: nat :| i < |net.mined| && net.mined[i].round == Some(id);
      assert ReceiptHolds(net, i);
      if net.mined[i].Receipt? {
        SignedWordRoundTrip(net.jobs[net.mined[i].tx.request].answer);
      }
      assert AccountsFor(net, net.mined[i], id);
    }
  }

  /** What the contract stores for a requested answer: the answer itself exactly when it fits an `int256`. */
  ghost predicate AnswerReaches(asked: int, stored: int) {
    stored == SignedWord(Word(asked)) && (stored == asked <==> FitsInt256(asked))
  }

  /** The receipt is that of the round, and the round has its block's time and holds what was asked for. */
  ghost predicate AccountsFor(net: Net, receipt: Receipt, id: nat) {
    && receipt.round == Some(id)
    && Slot(net.oracle, id).startedAt == receipt.at && Slot(net.oracle, id).updatedAt == receipt.at
    && match receipt
       case Receipt(tx, _, _) =>
         tx.request in net.jobs && AnswerReaches(net.jobs[tx.request].answer, Slot(net.oracle, id).answer)
       case Outside(answer, _, _) => Slot(net.oracle, id).answer == answer
  }

  /** The rounds a request appended all hold its answer. */
  lemma {:induction false} RoundsCarryAnswer(net: Net, mined: seq<Receipt>, request: nat)
    requires mined <= net.mined && forall i: nat | i < |net.mined| :: ReceiptHolds(net, i)
    ensures forall k | k in RoundsBy(mined, request) ::
              request in net.jobs && AnswerReaches(net.jobs[request].answer, Slot(net.oracle, k).answer)
  {
    if mined != [] {
      var n := |mined| - 1;
      RoundsCarryAnswer(net, mined[..n], request);
      assert ReceiptHolds(net, n);
      if MinedFor(mined[n], request) && mined[n].round.Some? {
        SignedWordRoundTrip(net.jobs[request].answer);
      }
    }
  }

  /** Over every run, each round a request's transactions appended holds the requested answer. */
  lemma RequestAppendsItsAnswer(oracle: Storage, service: Address, nonce: nat, actions: seq<Action>, request: nat)
    requires LogInvariant(oracle)
    ensures var net := Exec(Start(oracle, service, nonce), actions);
            forall k | k in RoundsBy(net.mined, request) ::
              request in net.jobs && AnswerReaches(net.jobs[request].answer, Slot(net.oracle, k).answer)
  {
    var net := Exec(Start(oracle, service, nonce), actions);
    ExecKeepsReceipts(oracle, service, nonce, actions);
    RoundsCarryAnswer(net, net.mined, request);
  }

  // ---- The path only calls the contract ----

  function CallsMade(net: Net, actions: seq<Action>): seq<Call> {
    if actions == [] then []
    else
      var front := actions[..|actions| - 1];
      match CallMade(Exec(net, front), actions[|actions| - 1])
      case Some(call) => CallsMade(net, front) + [call]
      case None => CallsMade(net, front)
  }

  /** The chain side of every run is a sequence of calls, so all that holds of the contract's runs holds here. */
  lemma {:induction false} PathRunsContract(net: Net, actions: seq<Action>)
    ensures Exec(net, actions).oracle == Run(net.oracle, CallsMade(net, actions))
  {
    if actions != [] {
      var front := actions[..|actions| - 1];
      PathRunsContract(net, front);
      NextCallsContract(Exec(net, front), actions[|actions| - 1]);
      var calls, earlier := CallsMade(net, actions), CallsMade(net, front);
      if calls != earlier {
        assert calls[..|calls| - 1] == earlier;
      }
    }
  }
}
