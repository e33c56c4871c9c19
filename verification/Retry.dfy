/** The bounded retry loop with capped exponential backoff and cancellation. */
module Retry {
  import opened Wrappers

  const MAX_ATTEMPTS: nat := 3
  const BASE_DELAY: nat := 100   // milliseconds
  const MAX_DELAY: nat := 5000

  /** What the loop observes of its context: a poll before each attempt, and one while it sleeps after it. */
  datatype Context = Context(doneBefore: nat -> bool, doneAsleep: nat -> bool)

  datatype Outcome<+T, +E> = Returned(value: T) | ContextError | Exhausted(last: E)

  // ---- The specification: which attempts are reached, and how it ends ----

  ghost predicate Failed<T, E>(fn: nat -> Result<T, E>, k: nat) {
    fn(k).Failure?
  }

  /** A cancellation is observed before attempt `k` or in the sleep after it. */
  ghost predicate Quiet(ctx: Context, k: nat) {
    !ctx.doneBefore(k) && !ctx.doneAsleep(k)
  }

  /** Every attempt before `k` ran, failed, and slept undisturbed. */
  ghost predicate FailedUpTo<T, E>(ctx: Context, fn: nat -> Result<T, E>, k: nat) {
    forall j: nat | j < k :: Failed(fn, j) && Quiet(ctx, j)
  }

  /** Attempt `k` invokes the function. */
  ghost predicate Invoked<T, E>(ctx: Context, fn: nat -> Result<T, E>, k: nat) {
    k < MAX_ATTEMPTS && FailedUpTo(ctx, fn, k) && !ctx.doneBefore(k)
  }

  /** The poll before attempt `k`, or the sleep after it, sees the cancellation. */
  ghost predicate CancelledAt<T, E>(ctx: Context, fn: nat -> Result<T, E>, k: nat) {
    && k < MAX_ATTEMPTS
    && FailedUpTo(ctx, fn, k)
    && (ctx.doneBefore(k) || (Failed(fn, k) && k + 1 < MAX_ATTEMPTS && ctx.doneAsleep(k)))
  }

  ghost predicate SucceededAt<T, E>(ctx: Context, fn: nat -> Result<T, E>, k: nat, value: T) {
    Invoked(ctx, fn, k) && fn(k) == Success(value)
  }

  /** A context whose cancellation shows at the n-th access of a handler, or later, before an attempt. */
  function Polls(cancelled: nat -> bool, n: nat): Context {
    Context((k: nat) => cancelled(n + k), (k: nat) => false)
  }

  /** A function that succeeds at attempt `k` when the handler's access `n + k` works. */
  function Tries(ok: nat -> bool, n: nat): nat -> Result<(), ()> {
    (k: nat) => if ok(n + k) then Success(()) else Failure(())
  }

  /** Some attempt is reached and succeeds. */
  ghost predicate Succeeds<T, E>(ctx: Context, fn: nat -> Result<T, E>) {
    exists k: nat :: Invoked(ctx, fn, k) && fn(k).Success?
  }

  /** The delay after a failed attempt. */
  function Delay(base: nat, cap: nat, attempt: nat): nat {
    var delay := base * Power2(attempt);
    if delay > cap then cap else delay
  }

  function Power2(k: nat): nat {
    if k == 0 then 1 else 2 * Power2(k - 1)
  }

  /** Total sleep of a loop of `attempts` attempts that all fail. */
  function TotalDelay(base: nat, cap: nat, attempts: nat): nat {
    if attempts <= 1 then 0 else TotalDelay(base, cap, attempts - 1) + Delay(base, cap, attempts - 2)
  }

  /** How often the function runs, as a function of what the loop meets from attempt `k` on. */
  function Invocations<T, E>(ctx: Context, fn: nat -> Result<T, E>, k: nat): (n: nat)
    requires k <= MAX_ATTEMPTS
    ensures n <= MAX_ATTEMPTS - k
    decreases MAX_ATTEMPTS - k
  {
    if k == MAX_ATTEMPTS || ctx.doneBefore(k) then 0
    else if fn(k).Success? || k + 1 == MAX_ATTEMPTS || ctx.doneAsleep(k) then 1
    else 1 + Invocations(ctx, fn, k + 1)
  }

  // ---- The loop ----

  /** Once an attempt succeeds or meets a cancellation, no later attempt is reached. */
  lemma StopsAt<T, E>(ctx: Context, fn: nat -> Result<T, E>, k: nat)
    requires FailedUpTo(ctx, fn, k)
    ensures forall j: nat | j <= k :: FailedUpTo(ctx, fn, j)
    ensures forall j: nat, v: T | j < k :: !SucceededAt(ctx, fn, j, v)
    ensures forall j: nat | j < k :: !CancelledAt(ctx, fn, j)
    ensures !Failed(fn, k) || !Quiet(ctx, k) ==> forall j: nat | j > k :: !FailedUpTo(ctx, fn, j)
  {
    forall j: nat, v: T | j < k
      ensures !SucceededAt(ctx, fn, j, v)
    {
      assert Failed(fn, j);
    }
    forall j: nat | j < k
      ensures !CancelledAt(ctx, fn, j)
    {
      assert Quiet(ctx, j);
    }
  }

  /** An attempt that fails at `k`, or is not made, after only failures before it, ends the loop without success. */
  lemma NoSuccessAfter<T, E>(ctx: Context, fn: nat -> Result<T, E>, k: nat)
    requires FailedUpTo(ctx, fn, k)
    requires k >= MAX_ATTEMPTS || ctx.doneBefore(k) || (fn(k).Failure? && (k + 1 == MAX_ATTEMPTS || ctx.doneAsleep(k)))
    ensures !Succeeds(ctx, fn)
  {
    StopsAt(ctx, fn, k);
    forall j: nat | Invoked(ctx, fn, j)
      ensures fn(j).Failure?
    {
      assert j < k ==> Failed(fn, j);
      assert !Quiet(ctx, k) ==> j <= k;
    }
  }

  method Retry<T, E>(ctx: Context, fn: nat -> Result<T, E>) returns (r: Outcome<T, E>, calls: nat, slept: nat)
    ensures forall k: nat :: Invoked(ctx, fn, k) <==> k < calls
    ensures forall v: T :: r == Returned(v) <==> exists k: nat :: SucceededAt(ctx, fn, k, v)
    ensures r.Returned? <==> Succeeds(ctx, fn)
    ensures r.ContextError? <==> exists k: nat :: CancelledAt(ctx, fn, k)
    ensures forall e: E :: r == Exhausted(e) <==>
              && FailedUpTo(ctx, fn, MAX_ATTEMPTS - 1)
              && !ctx.doneBefore(MAX_ATTEMPTS - 1)
              && fn(MAX_ATTEMPTS - 1) == Failure(e)
    ensures calls == Invocations(ctx, fn, 0) <= MAX_ATTEMPTS
    ensures r.Exhausted? ==> slept == TotalDelay(BASE_DELAY, MAX_DELAY, MAX_ATTEMPTS)
    ensures slept <= 300
  {
    var attempt: nat := 0;
    calls, slept := 0, 0;
    BackoffOfTheCode();
    while true
      invariant attempt < MAX_ATTEMPTS && calls == attempt
      invariant FailedUpTo(ctx, fn, attempt)
      invariant slept == TotalDelay(BASE_DELAY, MAX_DELAY, attempt + 1)
      invariant Invocations(ctx, fn, 0) == calls + Invocations(ctx, fn, attempt)
      decreases MAX_ATTEMPTS - attempt
    {
      StopsAt(ctx, fn, attempt);
      if ctx.doneBefore(attempt) {
        assert CancelledAt(ctx, fn, attempt);
        NoSuccessAfter(ctx, fn, attempt);
        return ContextError, calls, slept;
      }
      var result := fn(attempt);
      calls := calls + 1;
      assert Invoked(ctx, fn, attempt);
      if result.Success? {
        assert SucceededAt(ctx, fn, attempt, result.value);
        return Returned(result.value), calls, slept;
      }
      if attempt == MAX_ATTEMPTS - 1 {
        NoSuccessAfter(ctx, fn, attempt);
        return Exhausted(result.error), calls, slept;
      }
      var delay := Delay(BASE_DELAY, MAX_DELAY, attempt);
      if ctx.doneAsleep(attempt) {
        assert CancelledAt(ctx, fn, attempt);
        NoSuccessAfter(ctx, fn, attempt);
        return ContextError, calls, slept;
      }
      slept := slept + delay;
      attempt := attempt + 1;
    }
  }

  /** Whether the loop would succeed on a handler's accesses from the n-th on, when it stands at attempt `k`. */
  predicate Wins(cancelled: nat -> bool, ok: nat -> bool, n: nat, k: nat)
    decreases MAX_ATTEMPTS - k
  {
    k < MAX_ATTEMPTS && !cancelled(n + k) && (ok(n + k) || Wins(cancelled, ok, n, k + 1))
  }

  /** The handlers' own loops succeed exactly when `retry.Retry` would. */
  lemma {:induction false} WinsIsSuccess(cancelled: nat -> bool, ok: nat -> bool, n: nat, k: nat)
    requires k <= MAX_ATTEMPTS && FailedUpTo(Polls(cancelled, n), Tries(ok, n), k)
    ensures Wins(cancelled, ok, n, k) <==> Succeeds(Polls(cancelled, n), Tries(ok, n))
    decreases MAX_ATTEMPTS - k
  {
    var ctx, fn := Polls(cancelled, n), Tries(ok, n);
    if k == MAX_ATTEMPTS || ctx.doneBefore(k) {
      NoSuccessAfter(ctx, fn, k);
    } else if fn(k).Success? {
      assert Invoked(ctx, fn, k);
    } else {
      WinsIsSuccess(cancelled, ok, n, k + 1);
    }
  }

  // ---- Backoff in closed form, for any number of attempts, base and cap ----

  lemma BackoffOfTheCode()
    ensures TotalDelay(BASE_DELAY, MAX_DELAY, 1) == 0
    ensures TotalDelay(BASE_DELAY, MAX_DELAY, 2) == 100
    ensures TotalDelay(BASE_DELAY, MAX_DELAY, MAX_ATTEMPTS) == 300 && MAX_ATTEMPTS == 3
    ensures Delay(BASE_DELAY, MAX_DELAY, 5) == 3200 && Delay(BASE_DELAY, MAX_DELAY, 6) == 5000
  {
    assert Power2(1) == 2;
  }

  /** The uncapped delay by repeated doubling. */
  function Doubled(base: nat, k: nat): nat {
    if k == 0 then base else 2 * Doubled(base, k - 1)
  }

  lemma MultiplyDoubled(x: int, y: int)
    ensures x * (2 * y) == 2 * (x * y)
  {
  }

  lemma {:induction false} DoubledIsProduct(base: nat, k: nat)
    ensures Doubled(base, k) == base * Power2(k)
  {
    if k > 0 {
      DoubledIsProduct(base, k - 1);
      MultiplyDoubled(base, Power2(k - 1));
    }
  }

  lemma {:induction false} DoubledGrows(base: nat, i: nat, j: nat)
    requires i <= j
    ensures Doubled(base, i) <= Doubled(base, j)
    decreases j - i
  {
    if i < j {
      DoubledGrows(base, i + 1, j);
      assert Doubled(base, i + 1) == 2 * Doubled(base, i);
    }
  }

  /** Delays never shrink and never exceed the cap. */
  lemma DelaysGrowUpToCap(base: nat, cap: nat, i: nat, j: nat)
    requires i <= j
    ensures Delay(base, cap, i) <= Delay(base, cap, j) <= cap
  {
    DoubledIsProduct(base, i);
    DoubledIsProduct(base, j);
    DoubledGrows(base, i, j);
  }

  /** The number of the first `n` delays that the cap leaves alone. */
  function Uncapped(base: nat, cap: nat, n: nat): (m: nat)
    ensures m <= n
  {
    if n == 0 then 0
    else Uncapped(base, cap, n - 1) + if Doubled(base, n - 1) <= cap then 1 else 0
  }

  /** The uncapped delays come first: once the cap is passed it stays passed. */
  lemma {:induction false} CapStaysPassed(base: nat, cap: nat, n: nat)
    ensures Uncapped(base, cap, n) < n ==> Doubled(base, n) > cap
  {
    if n > 0 {
      CapStaysPassed(base, cap, n - 1);
      DoubledGrows(base, n - 1, n);
    }
  }

  lemma {:induction false} SumOfDelays(base: nat, cap: nat, attempts: nat)
    requires attempts >= 1
    ensures var m := Uncapped(base, cap, attempts - 1);
            TotalDelay(base, cap, attempts) == Doubled(base, m) - base + (attempts - 1 - m) * cap
  {
    if attempts > 1 {
      var n := attempts - 2;
      SumOfDelays(base, cap, attempts - 1);
      DoubledIsProduct(base, n);
      CapStaysPassed(base, cap, n);
      var m := Uncapped(base, cap, n);
      assert Doubled(base, n) > cap ==> (n + 1 - m) * cap == (n - m) * cap + cap;
    }
  }

  /** The doubling delays that the cap leaves alone sum to `base * (2^m - 1)`, and each of the others is the cap. */
  lemma {:induction false} BackoffClosedForm(base: nat, cap: nat, attempts: nat)
    requires attempts >= 1
    ensures var m := Uncapped(base, cap, attempts - 1);
            && TotalDelay(base, cap, attempts) == base * (Power2(m) - 1) + (attempts - 1 - m) * cap
            && (forall k: nat | k < attempts - 1 :: k < m <==> base * Power2(k) <= cap)
  {
    var m := Uncapped(base, cap, attempts - 1);
    SumOfDelays(base, cap, attempts);
    DoubledIsProduct(base, m);
    assert base * (Power2(m) - 1) == base * Power2(m) - base;
    forall k: nat | k < attempts - 1
      ensures k < m <==> base * Power2(k) <= cap
    {
      DoubledIsProduct(base, k);
      UncappedThreshold(base, cap, attempts - 1, k);
    }
  }

  lemma {:induction false} UncappedThreshold(base: nat, cap: nat, n: nat, k: nat)
    requires k < n
    ensures k < Uncapped(base, cap, n) <==> Doubled(base, k) <= cap
  {
    CapStaysPassed(base, cap, n - 1);
    DoubledGrows(base, k, n - 1);
    if k < n - 1 {
      UncappedThreshold(base, cap, n - 1, k);
    }
  }
}
