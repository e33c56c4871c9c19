/**
 `UpdatePrice` and its retries as the code runs them, against a node whose state other requests and
 the miner may change before every access. Each execution is a run of the machine in `UpdatePath`.
 */
module Updating {
  import opened Wrappers
  import opened Words
  import opened OracleContract
  import opened UpdatePath
  import Retry

  /** What attempt `k` meets: the others' steps before its reads and before its submission, and how its accesses end. */
  datatype Env = Env(
    beforeRead: nat -> seq<Action>,
    beforeSend: nat -> seq<Action>,
    readsOk: nat -> bool,
    gasPrice: nat -> nat,
    reaches: nat -> bool,
    reported: nat -> bool,
    cancelled: nat -> bool)

  predicate Concerns(a: Action, request: nat) {
    match a
    case Open(r, _) => r == request
    case ReadNonce(r, _, _) => r == request
    case Deliver(r, _, _) => r == request
    case Abort(r) => r == request
    case _ => false
  }

  ghost predicate Foreign(env: Env, request: nat) {
    && (forall k: nat, i | 0 <= i < |env.beforeRead(k)| :: !Concerns(env.beforeRead(k)[i], request))
    && (forall k: nat, i | 0 <= i < |env.beforeSend(k)| :: !Concerns(env.beforeSend(k)[i], request))
  }

  lemma OthersLeave(net: Net, a: Action, request: nat)
    requires request in net.jobs && !Concerns(a, request)
    ensures request in Next(net, a).jobs && Next(net, a).jobs[request] == net.jobs[request]
  {
  }

  /** The attempts that report success. */
  function Works(env: Env): nat -> bool {
    (k: nat) => env.readsOk(k) && env.reported(k)
  }

  /** `retry.Retry` would succeed on these attempts. */
  predicate RetrySucceeds(env: Env) {
    Retry.Wins(env.cancelled, Works(env), 0, 0)
  }

  class Updater {
    const service: Address
    const oracle: MockOracle
    var nonce: nat
    var signed: set<Tx>
    var pending: set<Tx>
    var mined: seq<Receipt>
    var jobs: map<nat, Job>
    ghost const deployed: Storage
    ghost const firstNonce: nat
    ghost var history: seq<Action>

    ghost function Origin(): Net {
      Start(deployed, service, firstNonce)
    }

    function View(): Net
      reads this, oracle
    {
      Net(oracle.View(), service, nonce, signed, pending, mined, jobs)
    }

    ghost predicate Valid()
      reads this, oracle
    {
      View() == Exec(Origin(), history)
    }

    ghost predicate AtStage(request: nat, answer: int, stage: Stage)
      reads this
    {
      request in jobs && jobs[request] == Job(answer, stage)
    }

    constructor (oracle: MockOracle, service: Address, nonce: nat)
      ensures Valid() && this.oracle == oracle && history == []
      ensures View() == Start(oracle.View(), service, nonce)
    {
      this.oracle, this.service, this.nonce := oracle, service, nonce;
      signed, pending, mined, jobs := {}, {}, [], map[];
      history, deployed, firstNonce := [], oracle.View(), nonce;
    }

    method CallContract(call: Option<Call>)
      modifies oracle
      ensures oracle.View() == match call
                               case Some(c) => Execute(old(oracle.View()), c)
                               case None => old(oracle.View())
    {
      if call.Some? {
        var _ := oracle.SubmitAnswer(call.value.sender, call.value.answer, call.value.timestamp);
      }
    }

    /** One step of anyone. */
    method Apply(a: Action)
      requires Valid()
      modifies this, oracle
      ensures Valid() && history == old(history) + [a] && View() == Next(old(View()), a)
    {
      ExecSnoc(Origin(), history, a);
      NextCallsContract(View(), a);
      var net := Next(View(), a);
      CallContract(CallMade(View(), a));
      assert oracle.View() == net.oracle;
      nonce, signed, pending, mined, jobs := net.nonce, net.signed, net.pending, net.mined, net.jobs;
      history := history + [a];
    }

    method Interleave(request: nat, others: seq<Action>)
      requires Valid() && request in jobs
      requires forall i | 0 <= i < |others| :: !Concerns(others[i], request)
      modifies this, oracle
      ensures Valid() && old(history) <= history
      ensures request in jobs && jobs[request] == old(jobs[request])
    {
      for i := 0 to |others|
        invariant Valid() && old(history) <= history
        invariant request in jobs && jobs[request] == old(jobs[request])
      {
        OthersLeave(View(), others[i], request);
        Apply(others[i]);
      }
    }

    /** The nonce and the gas price; either read may fail. The nonce is that of the mined state. */
    method FillAuth(request: nat, attempt: nat, env: Env, newAnswer: int) returns (auth: Option<Auth>)
      requires Valid() && Foreign(env, request) && AtStage(request, newAnswer, Prepare(attempt))
      modifies this, oracle
      ensures Valid() && old(history) <= history
      ensures AtStage(request, newAnswer, if auth.Some? then Send(attempt, auth.value) else After(attempt))
      ensures auth.Some? <==> env.readsOk(attempt)
      ensures auth.Some? ==> auth.value == Auth(nonce, 0, 300000, env.gasPrice(attempt))
    {
      Interleave(request, env.beforeRead(attempt));
      auth := if env.readsOk(attempt) then Some(Auth(nonce, 0, GAS_LIMIT, env.gasPrice(attempt))) else None;
      ExecSnoc(Origin(), history, ReadNonce(request, env.readsOk(attempt), env.gasPrice(attempt)));
      jobs := jobs[request := Job(newAnswer, if auth.Some? then Send(attempt, auth.value) else After(attempt))];
      history := history + [ReadNonce(request, env.readsOk(attempt), env.gasPrice(attempt))];
    }

    /** An attempt signs nothing before it submits. */
    lemma NotYetSigned(request: nat, newAnswer: int, attempt: nat, auth: Auth)
      requires Valid() && AtStage(request, newAnswer, Send(attempt, auth))
      ensures Tx(request, attempt, auth, Word(newAnswer)) !in pending
    {
      ExecKeepsPath(deployed, service, firstNonce, history);
      assert Tx(request, attempt, auth, Word(newAnswer)) in signed ==>
          SignedWell(View(), Tx(request, attempt, auth, Word(newAnswer)));
    }

    /** One call of `UpdatePrice`: an error does not tell whether the transaction is pending. */
    method UpdatePrice(request: nat, attempt: nat, env: Env, newAnswer: int) returns (r: Result<Tx, ()>)
      requires Valid() && Foreign(env, request) && AtStage(request, newAnswer, Prepare(attempt))
      modifies this, oracle
      ensures Valid() && old(history) <= history
      ensures AtStage(request, newAnswer, if r.Success? then Sent else After(attempt))
      ensures r.Success? ==>
                && r.value in signed && (r.value in pending <==> env.reaches(attempt))
                && r.value.request == request && r.value.attempt == attempt && r.value.word == Word(newAnswer)
                && r.value.auth.value == 0 && r.value.auth.gasLimit == 300000
      ensures r.Success? <==> env.readsOk(attempt) && env.reported(attempt)
    {
      var auth := FillAuth(request, attempt, env, newAnswer);
      if auth.None? {
        return Failure(());
      }
      Interleave(request, env.beforeSend(attempt));
      var tx := Tx(request, attempt, auth.value, Word(newAnswer));
      NotYetSigned(request, newAnswer, attempt, auth.value);
      ExecSnoc(Origin(), history, Deliver(request, env.reaches(attempt), env.reported(attempt)));
      signed := signed + {tx};
      if env.reaches(attempt) {
        pending := pending + {tx};
      }
      jobs := jobs[request := Job(newAnswer, if env.reported(attempt) then Sent else After(attempt))];
      history := history + [Deliver(request, env.reaches(attempt), env.reported(attempt))];
      r := if env.reported(attempt) then Success(tx) else Failure(());
    }

    /** The retried submission of one update request, from its start to its end. */
    method UpdateWithRetry(request: nat, env: Env, newAnswer: int) returns (r: Result<Tx, ()>)
      requires Valid() && Foreign(env, request) && request !in jobs
      modifies this, oracle
      ensures Valid() && old(history) <= history
      ensures AtStage(request, newAnswer, if r.Success? then Sent else GaveUp)
      ensures r.Success? <==> RetrySucceeds(env)
      ensures r.Success? ==> r.value in SignedBy(View(), request)
      ensures |RoundsBy(mined, request)| <= |NoncesOf(SignedBy(View(), request))| <= |SignedBy(View(), request)| <= 3
    {
      Apply(Open(request, newAnswer));
      r := Retries(request, env, newAnswer);
      ExecKeepsPath(deployed, service, firstNonce, history);
      RoundsWithinNonces(View(), firstNonce, request);
    }

    method Retries(request: nat, env: Env, newAnswer: int) returns (r: Result<Tx, ()>)
      requires Valid() && Foreign(env, request) && AtStage(request, newAnswer, Prepare(0))
      modifies this, oracle
      ensures Valid() && old(history) <= history
      ensures AtStage(request, newAnswer, if r.Success? then Sent else GaveUp)
      ensures r.Success? ==> r.value in signed && r.value.request == request
      ensures r.Success? <==> RetrySucceeds(env)
    {
      var attempt: nat := 0;
      while true
        invariant Valid() && old(history) <= history
        invariant attempt < Retry.MAX_ATTEMPTS && AtStage(request, newAnswer, Prepare(attempt))
        invariant RetrySucceeds(env) == Retry.Wins(env.cancelled, Works(env), 0, attempt)
        decreases Retry.MAX_ATTEMPTS - attempt
      {
        if env.cancelled(attempt) {
          Apply(Abort(request));
          return Failure(());
        }
        r := UpdatePrice(request, attempt, env, newAnswer);
        if r.Success? || attempt == Retry.MAX_ATTEMPTS - 1 {
          return;
        }
        attempt := attempt + 1;
      }
    }
  }
}
