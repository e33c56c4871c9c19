# A verified model of the oracle client

The service answers price requests from three tiers that hold copies of the same rounds: the
`MockOracle` contract, a Postgres table, and a cache with a ten-second life. Three HTTP handlers move
rounds between the tiers, a limiter guards them, and updates are submitted to the chain with
retries. This project models these parts in Dafny and proves what holds over all their runs.

`dafny verify dfyconfig.toml` checks everything.

## How it is built

| file | models |
|---|---|
| `Words.dfy` | the 64-bit and 256-bit conversions, and `strconv.ParseUint` on a path |
| `OracleContract.dfy` | the contract: storage, calls, events, and what a client receives from it |
| `Database.dfy` | the table: insert, find, newest |
| `Retry.dfy` | the retry loop and its backoff |
| `RateLimiter.dfy` | the sliding-window limiter and its client key |
| `Tiers.dfy` | the handlers over the tiers, as a machine with one step per access |
| `TiersAgreement.dfy`, `TiersStaleness.dfy`, `TiersSequential.dfy`, `TiersReadYourWrites.dfy`, `TiersWitness.dfy` | what holds over its runs, and runs that show what does not |
| `Handlers.dfy` | the handlers as code, each execution a run of that machine |
| `UpdatePath.dfy` | nonces, pending transactions, retried submissions and the contract, as a machine |
| `UpdatePathRounds.dfy` | exactly how many rounds one request can append, from every state of that machine |
| `UpdatePathAnswers.dfy` | what becomes of the answer a request asks for, for every integer |
| `Updating.dfy` | `UpdatePrice` and its retries as code, each execution a run of that machine |
| `Server.dfy` | the middleware chain and the load it lets through |

Objects that change are classes (`MockOracle`, `DB`, `Limiter`, `Api`, `Updater`, `Chain`), and their
methods are proved against functions on values. In the two machines an action is a value, an action
that is not enabled changes nothing, and `Exec` folds a sequence of actions, so a statement over all
action sequences covers every interleaving, every failure of an access, every cancellation, every
passage of time and every transaction mined in between. `Api` and `Updater` keep the sequence of
actions as a ghost history; before each of their accesses the other handlers, the clock and the chain
take any steps at all.

`/latestPrice` and `/updatePrice` report a round's identifier unchanged below 2^64
(`OracleContract.FetchLatestFaithful`), while `/round/{id}` finds a round only below 2^63, because the
path's identifier goes through `int64` (`OracleContract.FetchRoundNeverWrong`); on all three routes a
round time survives only below 2^63 seconds. Both lemmas say exactly when a read is faithful, for every
log. The statements over runs of the tiers ask only that the log reached at the end of the run has its
identifiers and times below 2^63 (`InRange`).

Findings that the theorems make precise:

- A `/latestPrice` reply is behind the table by at most the ten seconds of the cache, plus the longest
  time `hold` a reader of the same route takes from its table or contract read to its reply, plus the
  longest time `serve` one takes from a cache hit to its reply (`StalenessBound`), and for all `hold`
  and `serve` that bound is reached (`BoundIsReached`). The cause is a reader in flight: it read an older round before the update
  and writes it into the cache after the update has dropped the cached value and replied. The order of
  the update's last two steps does not matter for this.
- So read-your-writes does not hold in general. From any reachable state, no later `/latestPrice` reply
  can fall below a round r, whatever runs, fails or waits, if and only if three things hold: the
  table's largest row has reached r (or r is 1), no live `latest` entry lies below r, and no
  `/latestPrice` handler in flight holds data below r (`NeverBelowExactly`, `ReadYourWritesExactly`).
- Concurrency is not needed to lose it: the error of the cache's `Del` is ignored, and a run with one
  handler at a time in which only that access fails replies 2 to an update and 1 to the next read
  (`FailedDeleteGoesBack`). With one handler at a time and every cache and table access working,
  replies never go back (`RepliesNeverGoBack`).
- One update request can append up to three rounds, all with its answer, and still report an error to
  its client (`OneRequestThreeRounds`). In every state the number of rounds a request can still reach
  is known exactly: `RoundsToCome` counts the attempts left, and one more if a transaction of the
  request can be the next one mined, unless owner, value or identifiers stand against it
  (`RoundsExactly`). Once the request is over, a second round lies ahead if and only if it has two, or
  has one and a transaction pending at the current nonce that would not revert (`SecondRoundExactly`).
  Hence a request that is over before any of its own transactions is mined appends at most one round
  (`OneRoundIfEndedUnmined`).
- An answer can be stored as another number if and only if it does not fit an `int256` and its low 256
  bits, read as a signed number, are positive (`StoredAsAnotherExactly`): 2^256 + 5 is stored as 5. An
  answer outside the range whose bits read as zero or less, such as 2^255, is never stored at all
  (`WrappedAndRefused`). What is stored for a new request is always that reading of its answer, and
  something is stored in some run exactly if the reading is positive and the contract still accepts
  calls of the service (`CanStoreExactly`).

## Assumptions

- There are no chain reorganisations, and a contract read is one atomic snapshot.
- The limiter's clock does not go back (stated where a theorem needs it), and each request's use of its map is one atomic step.
- The cache package is not part of this model; its contract is read off the call sites: a map with expiry, where `Get` yields a live entry or nothing. An entry counts as live up to and including its expiry time.
- Round times survive `time.Unix(x, 0)` and `Unix()` and the table's column.
- The ABI decoder rejects an argument word wider than `uint80`, and the encoder writes the low 256 bits of an integer.
- Nonces stay below 2^63.
- The service's account may also be used by other programs, as `script/Update.s.sol` does: one of their transactions may be mined at any moment, uses up a nonce and calls the contract with any answer (`OutsideCall`).

## Model

| member | source | states |
|---|---|---|
| Words.SignedWordRoundTrip | go-client/internal/updater/updater.go:85 | an answer reaches the contract unchanged exactly when it fits an `int256` |
| Words.ConversionsByCongruence | go-client/api/handlers.go:107-113 | every conversion, for every argument: the result is in its 64-bit or 256-bit range and congruent to the argument |
| Words.ParseRendered | go-client/api/handlers.go:147-152 | every identifier below 2^64, written in decimal, is accepted as itself, and no larger one |
| Words.ParseUintExactly | go-client/api/handlers.go:147-152 | a path denotes n if and only if n is below 2^64 and the path is the decimal text of n after any number of zeros; every other path is refused |
| Words.OnlyDigitsAccepted | go-client/api/handlers.go:147-152 | an accepted path is not empty and has no other character than the ten digits |
| Words.LeadingZerosIgnored | go-client/api/handlers.go:147-155 | `7` and `007` name the same round although their cache keys differ |
| OracleContract.MockOracle.constructor | src/MockOracle.sol:30-40 | the owner, and round 1 with the answer 200000000000 and the deployment's time |
| OracleContract.MockOracle.SubmitAnswer | src/MockOracle.sol:42-54 | which of the three reverts, or success; on success exactly one new round with the answer and the block's time, and its event; a revert changes nothing |
| OracleContract.MockOracle.ReadRound | src/MockOracle.sol:66-83 | succeeds exactly for a stored round without the zero mark, and returns its identifier and its four stored values |
| OracleContract.MockOracle.ReadLatest | src/MockOracle.sol:56-64 | the stored values of the largest identifier |
| OracleContract.RunKeepsLog | src/MockOracle.sol:30-54 | over every call sequence with reverts and the `uint80` ceiling: the marked entries are exactly 1..latestRoundId, each with a positive answer, its own identifier, and equal times |
| OracleContract.ReadableExactlyWhenWritten | src/MockOracle.sol:56-83 | `getRoundData` succeeds exactly on 1..latestRoundId, `latestRoundData` never reverts |
| OracleContract.ReadsAreAcceptedCalls | src/MockOracle.sol:30-83 | after any run, by the calls alone: round 1 reads as the initial answer and deployment time, round n + 1 as the answer and block time of the n-th accepted call, the latest round as the last of them, and every other identifier reverts |
| OracleContract.RunExtends | src/MockOracle.sol:42-54 | no later run changes a written round, an event or the owner |
| OracleContract.RunOrdersRounds | src/MockOracle.sol:48-49 | non-decreasing block times give non-decreasing round times |
| OracleContract.RunIsAcceptedLog | src/MockOracle.sol:42-54 | after any run the log is the initial round and then the owner's positive calls in order, cut at the last `uint80` |
| OracleContract.EventsAndStorageAgree | src/MockOracle.sol:23-54 | replaying the events rebuilds the storage, each event is read off the storage, and there are latestRoundId − 1 of them |
| OracleContract.FetchLatestFaithful | go-client/api/handlers.go:102-115 | the latest round is reported unchanged if and only if its identifier is below 2^64 and its times below 2^63 |
| OracleContract.FetchReportsSlot | go-client/api/handlers.go:102-113 | what a route reports of the stored round in every range: the answer unchanged, the other values narrowed |
| OracleContract.FetchedLatestIsStored | go-client/api/handlers.go:102-113 | in the 64-bit range the latest read is the stored round of the largest identifier |
| OracleContract.FetchedRoundIsStored | go-client/api/handlers.go:185-197 | in the 64-bit range a round read is the stored round of its identifier |
| OracleContract.IdentifierReachesContract | go-client/api/handlers.go:186-187 | a path identifier reaches the contract unchanged if and only if it is below 2^63, and otherwise as no `uint80` |
| OracleContract.FetchRoundNeverWrong | go-client/api/handlers.go:185-199 | a round read succeeds exactly for a written round below 2^63, and is faithful exactly when its times fit |
| Database.DB.Save | go-client/internal/db/db.go:63-66 | inserts; a duplicate key fails and changes no row |
| Database.DB.GetByRoundID | go-client/internal/db/db.go:68-79 | nothing exactly when no row has the identifier; in a table that only `Save` changed, the row found carries the identifier asked for |
| Database.FindsFirstSave | go-client/internal/db/db.go:63-79 | over every sequence of saves: a query by identifier yields the first row saved under it, and nothing exactly when none was |
| Database.DB.GetLatest | go-client/internal/db/db.go:81-92 | the row of the largest identifier, nothing exactly when the table is empty |
| Database.Newest | go-client/internal/db/db.go:81-92 | the row chosen has an identifier no smaller than any other |
| Retry.Retry | go-client/internal/retry/retry.go:11-52 | for every outcome sequence and cancellation pattern: which attempts run, and exactly when it returns a value, the context error or the last failure; at most 300 ms of sleep |
| Retry.WinsIsSuccess | go-client/internal/retry/retry.go:19-51 | the retry loops written out in the handlers succeed exactly when `retry.Retry` would on the same accesses and cancellations |
| Retry.DelaysGrowUpToCap | go-client/internal/retry/retry.go:38-42 | delays never shrink and never exceed the cap |
| Retry.BackoffClosedForm | go-client/internal/retry/retry.go:12-48 | total sleep for any number of attempts, base and cap in closed form, with the uncapped delays exactly the first m |
| RateLimiter.FirstField | go-client/api/middleware.go:117-123 | the text before the first comma of a forwarded address |
| RateLimiter.ClientKey | go-client/api/middleware.go:119-132 | a nonempty forwarded address alone decides the key, which has no comma and is the whole header or a prefix of it ended by a comma; the real-address header counts only without one, the peer only without both |
| RateLimiter.ForwardedAddressDecides | go-client/api/middleware.go:119-123 | requests with the same first forwarded address have the same key, whatever follows it and whatever the other two fields are |
| RateLimiter.Limiter.Handle | go-client/api/middleware.go:58-88 | the loop prunes exactly the entries a minute old, then rejects if ten are left, or records |
| RateLimiter.StoredShape | go-client/api/middleware.go:66-84 | every stored list is sorted and holds at most ten entries |
| RateLimiter.PruningInvisible | go-client/api/middleware.go:66-75 | no pruned entry could ever count again |
| RateLimiter.LimiterIsExact | go-client/api/middleware.go:66-81 | same decision as a limiter that forgets nothing; rejects exactly when ten young admissions exist |
| RateLimiter.LimiterBound | go-client/api/middleware.go:77-84 | at most ten admissions of a client in every half-open minute, and 10·⌈L/60 s⌉ in every interval of length L |
| RateLimiter.ClientsAreIndependent | go-client/api/middleware.go:60-84 | a client's decisions in an interleaved run are those of the run of its own requests |
| RateLimiter.BlockedKeepsEntries | go-client/api/middleware.go:66-81 | rejections do not change what blocks a client |
| RateLimiter.BlockedUntilOldestExpires | go-client/api/middleware.go:66-84 | a blocked client is admitted exactly from the moment its oldest entry is a minute old |
| Tiers.KeysDistinct | go-client/api/handlers.go:72-155 | the cache keys of different requests never collide |
| TiersAgreement.FetchAgrees | go-client/api/handlers.go:102-115 | a contract read with its conversions is a faithful copy of the round asked for |
| TiersAgreement.ExecAgrees | go-client/api/handlers.go:67-306 | agreement of all copies is kept by every interleaving from any agreeing state |
| TiersAgreement.AllTiersAgree | go-client/api/handlers.go:67-306 | over every run: each row, cache entry, read in flight and reply equals the contract's round in all five fields, entries under their own path's identifier, and no tier holds a round the contract lacks |
| TiersAgreement.RoundReplyIsContractRead | go-client/api/handlers.go:143-225 | a successful `/round/{id}` reply is `getRoundData(id)`, whichever tier answered |
| TiersAgreement.SameRoundSameReply | go-client/api/handlers.go:147-225 | paths with the same identifier get equal replies |
| TiersAgreement.UnwrittenNeverServed | go-client/api/handlers.go:147-221 | an identifier that names no round, all from 2^63 on among them, is never answered and never written to a tier |
| TiersStaleness.ExecFresh | go-client/api/handlers.go:72-140 | the freshness of rows, entry, reads in flight and replies is kept by every run from any fresh state in which the `/latestPrice` handlers are prompt; other handlers may stall |
| TiersStaleness.StalenessBound | go-client/api/handlers.go:72-140 | a `/latestPrice` reply is at least every row saved more than 10 s plus the `/latestPrice` handlers' delays before it; no other handler need be prompt |
| TiersWitness.BoundIsReached | go-client/api/handlers.go:72-140 | for all delays `hold` and `serve` a prompt run serves a round exactly 10 s + `hold` + `serve` after a larger row was saved, which an update had already replied |
| TiersWitness.FailedDeleteGoesBack | go-client/api/handlers.go:294 | one handler at a time and only `Del` failing: an update replies with round 2 and the next `/latestPrice` with round 1 |
| TiersSequential.RepliesNeverGoBack | go-client/api/handlers.go:67-306 | one handler at a time, cache and table working: `/latestPrice` and `/updatePrice` replies never decrease, over every such run |
| TiersSequential.AdvanceOrderly | go-client/api/handlers.go:293-302 | each access keeps the order of last reply, cached value and largest row |
| TiersReadYourWrites.ExecReached | go-client/api/handlers.go:67-306 | the condition on table, live entry and readers in flight is kept by every run, and every `/latestPrice` reply under it is at least r |
| TiersReadYourWrites.NeverBelowExactly | go-client/api/handlers.go:67-306 | from any agreeing state, no continuation ever replies to `/latestPrice` with less than r if and only if table, live entry and readers in flight have reached r |
| TiersReadYourWrites.ReadYourWritesExactly | go-client/api/handlers.go:293-302 | after any run from deployment, the last reply bounds every later `/latestPrice` reply from below if and only if that condition holds of its round |
| Handlers.Api.GetCached | go-client/api/handlers.go:71-76 | a hit exactly when the Get works and the entry under the request's own key has not expired, and then its data |
| Handlers.Api.QueryTable | go-client/api/handlers.go:161-162 | found exactly when the query works and the table holds the row under the path's identifier, or for the latest any row, and then the data of that row, or of the row with the largest identifier |
| Handlers.Api.FetchWithRetry | go-client/api/handlers.go:184-204 | the handler takes at most three steps of its own, each a contract read; the data is the contract's at that moment; for a round readable before, succeeds exactly when `retry.Retry` would |
| Handlers.Api.SubmitWithRetry | go-client/api/handlers.go:260-271 | goes on to read the round back exactly when `retry.Retry` would succeed |
| Handlers.Api.SetCached | go-client/api/handlers.go:130 | a working Set leaves the data under the request's key, to expire in 10 s |
| Handlers.Api.DelCached | go-client/api/handlers.go:294 | no cached latest value is left |
| Handlers.Api.SaveRow | go-client/api/handlers.go:295-302 | a missing row becomes the held data, every other row stays, and a failing insert or a duplicate key changes nothing |
| Handlers.Api.GetLatestPrice | go-client/api/handlers.go:67-141 | is a run of the machine; the reply is the unexpired entry if the Get works and there is one, else the newest row if the query works and there is one, else the contract's stored latest round, read exactly when `retry.Retry` would succeed; a miss refills the cache for 10 s, and a contract read leaves a row |
| Handlers.Api.GetRound | go-client/api/handlers.go:143-225 | is a run of the machine; the reply is the unexpired entry under the path, else the row stored under the parsed identifier, else the contract's stored round of it; a miss refills the cache under the path for 10 s, and a contract read leaves a row; 400 exactly for a path the parser refuses; with working accesses every written round is answered |
| Handlers.Api.PostUpdatePrice | go-client/api/handlers.go:227-306 | is a run of the machine; 400 exactly for a bad body, 401 exactly if the ownership read works and the service is not the owner, success exactly if that read works for the owner and both retry loops succeed; the reply is the contract's stored latest round when it was read back, a working `Del` has dropped the cached value and a working insert has left a row with the reply's identifier |
| UpdatePath.ExecKeepsPath | go-client/internal/updater/updater.go:49-91 | over every run: one transaction per attempt, attempts below three, and the i-th transaction of the account mined, if it is a request's, has the i-th nonce, also when other programs use the account |
| UpdatePath.RoundsWithinNonces | go-client/internal/updater/updater.go:61-85 | a request appends no more rounds than the distinct nonces it signed for, of which there are at most three |
| UpdatePath.BoundedEffect | go-client/internal/updater/updater.go:61-85 | at most three transactions per request, no two executed at one nonce, at most three rounds, over every run with ambiguous failures and with other programs using the account |
| UpdatePath.PendingExactly | go-client/internal/updater/updater.go:84-90 | over every run: a transaction is signed if and only if some submission of its request handed it over, with the nonce and answer it had then, and pending if and only if such a submission reached a node, whatever was reported |
| UpdatePath.MineAppends | src/MockOracle.sol:42-54 | mining a transaction uses up the nonce and appends the next round with its word's answer and the block's time exactly if the service is the owner, the word reads as positive and an identifier is left; else the contract is unchanged |
| UpdatePath.OutsideCallAppends | src/MockOracle.sol:42-54 | the same for a transaction of the account signed elsewhere |
| UpdatePath.OtherCallAppends | src/MockOracle.sol:42-54 | a call from another account leaves everything but the contract alone, and appends a round only if that account is the owner |
| UpdatePath.ExecKeepsReceipts | src/MockOracle.sol:42-54 | over every run: the round a receipt names holds the time of its block and the answer asked for |
| UpdatePath.RequestAppendsItsAnswer | go-client/internal/updater/updater.go:84-85 | every round a request appended holds its answer, unchanged exactly when it fits an `int256` |
| UpdatePath.Conservation | go-client/internal/updater/updater.go:79-85 | nonce growth is the number of the account's transactions mined, log growth the number of those not reverted, and every new round has a receipt with the round's block time whose request asked for its answer, or whose outside call did |
| UpdatePath.PathRunsContract | src/MockOracle.sol:42-54 | the chain side of every run is a run of contract calls |
| UpdatePathRounds.RoundsExactly | go-client/api/handlers.go:260-271 | in every reachable state and for every request: at least k of its rounds are in some later state if and only if k is at most its rounds so far plus those the state still allows |
| UpdatePathRounds.RunRaisesNothing | go-client/internal/updater/updater.go:49-91 | no run raises a request's rounds so far plus those still to come |
| UpdatePathRounds.TotalIsReached | go-client/internal/updater/updater.go:49-91 | from every sound state some run appends all the rounds still to come |
| UpdatePathRounds.SecondRoundExactly | go-client/api/handlers.go:260-271 | after a request's end, two rounds are reached by some continuation if and only if it has two, or has one and a pending transaction at the current nonce that would not revert |
| UpdatePathRounds.OneRoundIfEndedUnmined | go-client/api/handlers.go:260-271 | a request that ends before any of its own transactions is mined appends at most one round, ever, whatever others mine |
| UpdatePathRounds.OneNonceIfQuietBetweenReads | go-client/internal/updater/updater.go:61-65 | if nothing of the account is mined from a request's first nonce read to its last, all its attempts carry one nonce and at most one round comes of them |
| UpdatePathRounds.OneRequestThreeRounds | go-client/api/handlers.go:260-271 | one request can append three rounds and end in an error |
| UpdatePathAnswers.CanStoreExactly | go-client/internal/updater/updater.go:84-85 | from every reachable state and for every new request and integer: some run stores y for the answer x if and only if y is the signed reading of the low 256 bits of x, y is positive, and the contract accepts calls of the service |
| UpdatePathAnswers.StoredAsAnotherExactly | go-client/internal/updater/updater.go:84-85 | while the contract accepts, an answer can be stored as another one if and only if it does not fit an `int256` and its low 256 bits read as a positive number |
| UpdatePathAnswers.WrappedAndRefused | go-client/internal/updater/updater.go:84-85 | 2^256 + 5 can be stored as 5, 2^255 is never stored |
| Updating.Updater.FillAuth | go-client/internal/updater/updater.go:61-82 | nonce of the mined state, no value, a gas limit of 300000, suggested price |
| Updating.Updater.UpdatePrice | go-client/internal/updater/updater.go:49-91 | on success a signed transaction with the encoded answer, pending exactly if it reached a node; on error the attempt is over, the transaction possibly pending |
| Updating.Updater.UpdateWithRetry | go-client/api/handlers.go:260-271 | is a run of the machine that succeeds exactly when `retry.Retry` would, with at most three transactions and no more rounds than nonces |
| Server.Chain.Serve | go-client/cmd/server/main.go:69-77 | only `OPTIONS` passes the limiter by; every other request is counted under its client key; 429 exactly with ten entries under a minute old; past the limiter 401 without `Bearer` and the key except on `/health`; an update replies Ok exactly when body, ownership and both retry loops succeed, and calls `UpdatePrice` exactly when admitted, authorized, parsed and owned |
| Server.TableIsLimiterRun | go-client/cmd/server/main.go:69-77 | the limiter sees exactly the requests that are no preflight |
| Server.LoadBound | go-client/cmd/server/main.go:69-77 | the requests of one client within any half-open minute cause at most thirty calls of `UpdatePrice` |

## Left out

- Handlers.Api.FetchWithRetry: the loop of `retry.Retry` is written out around the contract read, because a Dafny function value cannot assign the variables a Go closure captures; one poll an attempt stands for the two of the source, which have the same effect there (`WinsIsSuccess` ties the loop to `Retry.Retry`).
- Handlers.Api.PostUpdatePrice: what its submissions do on the chain is in `UpdatePath`; here a submission works or fails, and rounds appear by the chain's own steps.
- Server.Chain.Serve: what a request meets behind the chain (its body, the ownership check, the outcomes of submissions and reads) is given with the request, and other routes than the update are not followed further.
- Retry.Retry: delays are whole milliseconds instead of floating-point products, which are exact for the three attempts made; the function's outcomes are given by attempt number.
- Freshness of `/latestPrice` against the chain: once the table has a readable row the code never asks the chain.
- `TxHash`: the saved latest round need not be the one its transaction created.
- Answers as decimal text: the model keeps the integer a decimal string denotes, and the text of a request's answer is taken as parsed.
- Races on the limiter's plain Go map, and the growth of its key set.
- Key handling, signing, gas prices, replacement of pending transactions with equal nonces, and dropping of pending ones: a pending transaction is simply mined at its nonce or never.
- Redis, GORM and Postgres internals, connection handling, restarts of the service, JSON, HTTP headers other than the client's address, logging, health check, configuration, deployment scripts and the web page.
