/**
 What becomes of the answer a request asks for. The encoder writes its low 256 bits, and the contract
 reads them as a signed number and accepts only a positive one. An answer outside the `int256` range
 is therefore never stored as itself: it is refused if its word reads as zero or less, and stored as
 another answer otherwise.
 */
module UpdatePathAnswers {
  import opened Words
  import opened OracleContract
  import opened UpdatePath
  import opened UpdatePathRounds

  /** A round appended for the request holds `stored`. */
  ghost predicate Stores(net: Net, request: nat, stored: int) {
    exists k :: k in RoundsBy(net.mined, request) && Slot(net.oracle, k).answer == stored
  }

  /** Some run that opens the request with the answer `asked` stores `stored` for it. */
  ghost predicate CanStore(net: Net, request: nat, asked: int, stored: int) {
    exists actions :: Stores(Exec(Next(net, Open(request, asked)), actions), request, stored)
  }

  /** Nothing but the answer's value stands against a new request. */
  predicate Accepting(net: Net) {
    net.service == net.oracle.owner && net.oracle.latestRoundId < MAX_UINT80
  }

  lemma {:induction false} AnswerIsKept(net: Net, actions: seq<Action>, request: nat)
    requires request in net.jobs
    ensures request in Exec(net, actions).jobs && Exec(net, actions).jobs[request].answer == net.jobs[request].answer
  {
    if actions != [] {
      AnswerIsKept(net, actions[..|actions| - 1], request);
    }
  }

  lemma UnopenedHasNoRounds(net: Net, first: nat, request: nat)
    requires PathInvariant(net, first) && request !in net.jobs
    ensures RoundsBy(net.mined, request) == []
  {
    assert forall tx | tx in net.signed :: SignedWell(net, tx);
    assert SignedBy(net, request) == {};
    RoundsWithinNonces(net, first, request);
  }

  /**
   An opened request can append a round exactly if its answer's word reads as a positive number and the
   contract accepts.
   */
  lemma OpenedRounds(net: Net, first: nat, request: nat, asked: int)
    requires Sound(net, first) && request !in net.jobs
    ensures Sound(Next(net, Open(request, asked)), first)
    ensures RoundsInAll(Next(net, Open(request, asked)), request) > 0 <==> Accepting(net) && SignedWord(Word(asked)) > 0
  {
    var begun := Next(net, Open(request, asked));
    NextKeepsSound(net, Open(request, asked), first);
    UnopenedHasNoRounds(net, first, request);
    assert begun.jobs[request] == Job(asked, Prepare(0));
  }

  /** Every round of an opened request holds its answer's word. */
  lemma OpenedStoresWord(
      oracle: Storage, service: Address, nonce: nat, before: seq<Action>, request: nat, asked: int,
      actions: seq<Action>)
    requires LogInvariant(oracle) && request !in Exec(Start(oracle, service, nonce), before).jobs
    ensures var v := Exec(Next(Exec(Start(oracle, service, nonce), before), Open(request, asked)), actions);
            forall k | k in RoundsBy(v.mined, request) :: Slot(v.oracle, k).answer == SignedWord(Word(asked))
  {
    var start := Start(oracle, service, nonce);
    var begun := Next(Exec(start, before), Open(request, asked));
    ExecSnoc(start, before, Open(request, asked));
    ExecAppend(start, before + [Open(request, asked)], actions);
    RequestAppendsItsAnswer(oracle, service, nonce, before + [Open(request, asked)] + actions, request);
    AnswerIsKept(begun, actions, request);
  }

  /**
   From every reachable state and for every new request: some run stores `stored` for the answer
   `asked` if and only if `stored` is what the word of `asked` reads as, that is positive, and the
   contract still accepts calls of the service.
   */
  lemma CanStoreExactly(
      oracle: Storage, service: Address, nonce: nat, before: seq<Action>, request: nat, asked: int, stored: int)
    requires LogInvariant(oracle) && request !in Exec(Start(oracle, service, nonce), before).jobs
    ensures var net := Exec(Start(oracle, service, nonce), before);
            CanStore(net, request, asked, stored) <==>
              Accepting(net) && stored == SignedWord(Word(asked)) && stored > 0
  {
    var net := Exec(Start(oracle, service, nonce), before);
    var begun := Next(net, Open(request, asked));
    ReachableIsSound(oracle, service, nonce, before);
    OpenedRounds(net, nonce, request, asked);
    if CanStore(net, request, asked, stored) {
      var actions :| Stores(Exec(begun, actions), request, stored);
      OpenedStoresWord(oracle, service, nonce, before, request, asked, actions);
      RunRaisesNothing(begun, actions, nonce, request);
    }
    if Accepting(net) && stored == SignedWord(Word(asked)) && stored > 0 {
      var actions := TotalIsReached(begun, nonce, request);
      OpenedStoresWord(oracle, service, nonce, before, request, asked, actions);
      var v := Exec(begun, actions);
      assert RoundsBy(v.mined, request)[0] in RoundsBy(v.mined, request);
      assert Stores(v, request, stored);
    }
  }

  /** Some run stores another answer than the one asked for. */
  ghost predicate CanStoreAnother(net: Net, request: nat, asked: int) {
    exists stored :: stored != asked && CanStore(net, request, asked, stored)
  }

  /**
   An answer can be stored as another one if and only if it does not fit an `int256` and its word reads
   as a positive number.
   */
  lemma StoredAsAnotherExactly(
      oracle: Storage, service: Address, nonce: nat, before: seq<Action>, request: nat, asked: int)
    requires LogInvariant(oracle) && request !in Exec(Start(oracle, service, nonce), before).jobs
    requires Accepting(Exec(Start(oracle, service, nonce), before))
    ensures var net := Exec(Start(oracle, service, nonce), before);
            CanStoreAnother(net, request, asked) <==> !FitsInt256(asked) && SignedWord(Word(asked)) > 0
  {
    var net := Exec(Start(oracle, service, nonce), before);
    var read := SignedWord(Word(asked));
    SignedWordRoundTrip(asked);
    CanStoreExactly(oracle, service, nonce, before, request, asked, read);
    if CanStoreAnother(net, request, asked) {
      var stored :| stored != asked && CanStore(net, request, asked, stored);
      CanStoreExactly(oracle, service, nonce, before, request, asked, stored);
    }
  }

  /** 2^256 + 5 is stored as 5, while 2^255 is outside the range as well and never stored at all. */
  lemma WrappedAndRefused()
    ensures var net := Start(Deploy(7, 0), 7, 0);
            && !FitsInt256(TWO_256 + 5) && CanStore(net, 0, TWO_256 + 5, 5)
            && !FitsInt256(TWO_255) && forall stored :: !CanStore(net, 0, TWO_255, stored)
  {
    var start := Deploy(7, 0);
    RunKeepsLog(7, 0, []);
    CanStoreExactly(start, 7, 0, [], 0, TWO_256 + 5, 5);
    forall stored
      ensures !CanStore(Start(start, 7, 0), 0, TWO_255, stored)
    {
      CanStoreExactly(start, 7, 0, [], 0, TWO_255, stored);
    }
  }
}
