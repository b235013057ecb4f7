# Verification of the billable-call engine

This project models the engine behind the public `/v1` API of the gateway and proves what it
keeps while any number of calls run at once: the shared counters and records of the store
(`app/services/v1_store.py`), the life of one billable call (`app/routes/v1.py`), the outbox of
usage events (`app/services/outbox.py`), and, beside it, the signed identity cache
(`app/services/iam_client.py`). `dafny verify dfyconfig.toml` checks all of it.

## How it is built

* **Store.** `Store` fixes the key families, the stored values, the six commands the gateway
  issues, what a command means on a plain map with deadlines, and the laws this obeys. `MemoryStore` is the
  in-process dictionary as a class that changes its field; `ExpiringMap` proves that it refines
  the plain map and stays bounded.
* **Token bucket.** `TokenBucket` is one rate-limit call over real numbers, with the wall clock,
  the store's clock and the store's failures as inputs; `RateLimiter` combines the buckets of a
  key and of its organization.
* **One call.** `Lifecycle` is the program a request runs: `Ask` gives its next store command,
  `Resume` goes on with the reply, `Hear` with an answer from outside. `V1Store` and `Handler`
  are the source's methods statement by statement, over a store each of whose commands may fail
  with or without effect, and which other requests may change in any way before each command; they
  may issue a command only when the program asks for it, so they are proved to run exactly that
  program whatever the replies. Below, "calmly" means that no command failed and nobody came in
  between.
* **All calls.** `System` interleaves any number of requests, one store command a step, with
  arrivals, clock moves, failures, usage sends and outbox drains. `Slots`, `Quota`,
  `Idempotency`, `Billing` and `EventIds` each prove that every step keeps one invariant, and
  `Guarantees` draws the results for every reachable state. `Outcomes` and `Amounts` keep account of
  why each request ends as it does and of what is due for it, and `Promises` states the guarantees
  in terms of what requests carry and are told: subjects, organizations, keys, statuses, tokens.
  `InProcess` carries the runs over to the in-process dictionary. `Witnesses` builds the runs in
  which a documented promise fails.
* **Events.** `Usage` is the stream, the outbox table and the consumer that counts an event id
  once; `UsageOutbox` holds the classes proved against it; `DedupKeys` says when ids coincide.
* **Identity cache.** `IamCache` has the entry format, a state machine of interleaved
  validations, evictions and foreign writes, and the client class.

## Assumptions

* A token-bucket call is atomic. This holds for the in-process store; the source itself concedes
  that it does not on Redis (`app/services/v1_store.py:127-136`).
* When the store's clock has moved 120 seconds from the write of one call of a bucket to the read
  of another, the wall clock has moved at least 60. This follows when each call reads the wall clock
  before it writes its record and reads the record within a minute of it (`PromptAgree`,
  `PromptTimely`).
* INCR and EXPIRE of a slot fall into one clock tick, a slot is given back within its 300 seconds
  and a claim is settled within its 120 (`System.Tolerates`). Settling does not check who owns the
  record, so without the last one a late request would overwrite a younger claim.
* Nothing else writes a quota key during a run; it is a number without a deadline and starts at
  zero or above. A run starts without slot counters and idempotency records.
* Statements about exactness and about idempotency are for keys none of whose commands failed;
  `FaultBudget` and `NothingLostNothingInvented` need no such condition.
* Upstream answers with a 2xx status are well-formed.
* Nothing is assumed of event ids. The request id is the caller's own `X-Trace-Id` when it sends
  one (`app/middleware/s2s.py:24`), so ids of different calls can coincide; `BilledExactly` says
  what follows.
* Hash, MAC, JSON text and request fingerprint are injective. Bearer tokens contain no newline and
  do not start with `apikey:`. Whoever else writes to the identity cache can write any entry under
  any name with any deadline, captured entries included, but cannot make up a MAC. An answer of the
  auth service is written to the identity cache within `slack` seconds.

## Where the code and its documentation disagree

The model follows the code.

* The third value of a rate-limit call is documented as 0 whenever the call is allowed. It is 0
  exactly when the call finds two tokens, so an allowed call is told to wait exactly when it takes
  the last whole one (`ResetRange`, `ResetExact`, and the call in `AllowedWithReset`).
* Retry-After is documented as the wait of the budget that binds. It is enough for both buckets
  unless the call leaves both without a whole token and the key takes longer to earn its next than
  the organization's rounded-up wait (`RetryAfter`, and the answer in `RetryAfterFallsShort`).
* The quota counter is documented as never below zero. It is below zero exactly while the
  reservations and the denials not yet compensated together exceed the starting quota, and never
  further than there are such denials (`QuotaConservation`, and the run in `CounterBelowZero`).
* Every successful call is documented to be billed exactly once (`app/routes/v1.py:19`). When all
  calls have ended, the outbox is empty and no call's id is another's with a token suffix,
  everything emitted has been billed if and only if no two answered calls derive their id from the
  same text (`BilledExactly`; its halves `SharedTextUnderbills` and `ApartCallsBilled` and the
  condition on the events, `BilledExact`, need no proviso about suffixes).
  The text is subject, colon and Idempotency-Key, or without a key the request id, so two calls share
  an id exactly as `SharedExact` and its cases for keyed and unkeyed calls say. A caller that sends
  one trace id with every call, or uses a key again after each record has run out, is answered any
  number of times and billed once (`RepeatsBilledOnce`).
* A duplicate is documented as a mismatch when its key was used for another request. It is one
  exactly when the fingerprint of its body differs (`DuplicateExact`); the record does not hold the
  endpoint, so a search is answered with the result of a question that has the same key and body
  (`OtherEndpointReplayed`).
* A cached identity is documented to live five minutes. Its MAC covers no deadline, so a captured
  entry that is put back under its own name can live as long as whoever put it there says
  (`RestoredOutlives`). An entry stays fresh for as long as it is returned if and only if some answer
  for its source and identity allows its deadline (`ReadFreshExact`), and `ReadSound` keeps the bound
  wherever no entry was put back for longer than that.

Nothing is promised about what a refused request costs. It leaves both buckets as full as it found
them if and only if it finds neither with a token to take (`RefusedRequest`); one refused by its key
alone spends a token of its organization (`RefusedRequestSpends`).

## Model

| member | source | states |
|---|---|---|
| MemoryStore.MemoryStore.Live | app/services/v1_store.py:48-56 | a read returns a live value and deletes an entry whose deadline has passed, nothing else |
| MemoryStore.MemoryStore.PruneFull | app/services/v1_store.py:58-67 | below the limit nothing happens; at it expired entries go, and if that is not enough the oldest-inserted tenth |
| MemoryStore.MemoryStore.SweepExpired | app/services/v1_store.py:62-63 | the deletion loop leaves exactly the live entries, in insertion order |
| MemoryStore.MemoryStore.EvictOldest | app/services/v1_store.py:64-67 | the deletion loop leaves the dictionary without its n oldest-inserted keys |
| MemoryStore.MemoryStore.PutItem | app/services/v1_store.py:69-73 | a write keeps the old deadline or stamps a new one, before the prune that may remove the key |
| MemoryStore.MemoryStore.Add | app/services/v1_store.py:75-83 | the count goes on from the live value or from zero, keeps its deadline, and raises on a text that is no number |
| MemoryStore.MemoryStore.Incr | app/services/v1_store.py:75-78 | INCR of the specification |
| MemoryStore.MemoryStore.Decr | app/services/v1_store.py:80-83 | DECR of the specification |
| MemoryStore.MemoryStore.Expire | app/services/v1_store.py:85-89 | a live entry gets the new deadline and keeps its place; otherwise the answer is no |
| MemoryStore.MemoryStore.Get | app/services/v1_store.py:91-92 | GET of the specification |
| MemoryStore.MemoryStore.Set | app/services/v1_store.py:94-98 | SET, with NX refused exactly when a live entry exists |
| MemoryStore.MemoryStore.Delete | app/services/v1_store.py:100-101 | DELETE of the specification |
| Store.SetThenGet | app/services/v1_store.py:91-98 | what has been set is read back until its time to live is over, and without one for good |
| Store.SetOnce | app/services/v1_store.py:94-98 | a second SET NX is refused exactly while the first value is still to be read |
| Store.ExpireThenGet | app/services/v1_store.py:85-92 | an entry that is read is, after EXPIRE, read until the new deadline |
| Store.CountThenGet | app/services/v1_store.py:75-92 | INCR and DECR count from what is read, nothing or an empty text as zero, and reply what is read afterwards; a text that is no number raises and stays |
| Store.DeleteThenGet | app/services/v1_store.py:91-101 | nothing is read after a DELETE |
| ExpiringMap.StepAgrees | app/services/v1_store.py:75-101 | every command gets the reply of the plain expiring map and leaves the same live entries, given room |
| ExpiringMap.Refinement | app/services/v1_store.py:37-101 | every run of commands on a clock that does not go back gets the plain map's replies, given room for the live keys |
| ExpiringMap.PruneExact | app/services/v1_store.py:58-67 | a prune keeps every live entry if and only if fewer than MAX_KEYS entries are live |
| ExpiringMap.PruneSize | app/services/v1_store.py:58-67 | a prune leaves everything below 100,000 entries, else the live ones, and of 100,000 or more live ones all but 10,000 |
| ExpiringMap.Bounded | app/services/v1_store.py:42-73 | whatever is issued at whatever times, there are never more than 100,000 entries |
| ExpiringMap.EvictionOrder | app/services/v1_store.py:64-67 | no survivor of a prune was inserted before a live entry that it dropped |
| TokenBucket.HitStoredSame | app/services/v1_store.py:142-156 | one call: forgetting an idle record changes neither the answer nor what is kept |
| TokenBucket.ExpiryInvisibleFrom | app/services/v1_store.py:142-156 | from any stored record, for any limits, the vanishing record answers like a bucket that is never forgotten |
| TokenBucket.ExpiryInvisible | app/services/v1_store.py:142-156 | the same from no record, which is a full bucket |
| TokenBucket.LevelCompose | app/services/v1_store.py:148 | capped refills compose |
| TokenBucket.HitCharge | app/services/v1_store.py:137-156 | an admission is paid for by a token, by elapsed time or by a store failure |
| TokenBucket.WindowBound | app/services/v1_store.py:112-121 | over any calls at any clock readings no more are admitted than one bucket, the refill of the forward moves of the clock, and one per store failure |
| TokenBucket.AllowanceElapsed | app/services/v1_store.py:112-121 | on a clock that does not go back that allowance is limit + elapsed * limit / 60 |
| TokenBucket.PromptAgree | app/services/v1_store.py:140-152 | calls that read their clocks promptly meet the condition on the clocks |
| TokenBucket.RefusedInvisible | app/services/v1_store.py:139-156 | deleting any refused calls from a run changes no other answer |
| TokenBucket.RemainingExact | app/services/v1_store.py:149-156 | after n remaining, exactly n more calls at that instant are admitted and every further one is refused |
| TokenBucket.ResetExact | app/services/v1_store.py:155 | w undisturbed seconds later the next call is admitted if and only if w reaches the reset |
| TokenBucket.ResetRange | app/services/v1_store.py:155 | the reset is at most 60 and is 0 exactly when the call finds two tokens, so an admitted call is told to wait exactly when it takes the last whole one |
| TokenBucket.AllowedWithReset | app/services/v1_store.py:122-125 | an admitted call whose reset is 60 |
| RateLimiter.QueryCharge | app/routes/v1.py:99-112 | what one request takes from an organization's bucket is paid for by a token, by time or by an outage, whichever key it used and whatever limits other organizations have |
| RateLimiter.OrgBudget | app/routes/v1.py:88-124 | however many keys an organization uses and whatever others do under their own limits, its admitted requests stay within one bucket, the refill, and one per outage |
| RateLimiter.EarnElapsed | app/routes/v1.py:88-124 | on a clock that does not go back the refill is T * limit / 60 |
| RateLimiter.PromptTimely | app/services/v1_store.py:140-152 | that the wall clock agrees with the store's follows from when each call reads its clocks |
| RateLimiter.OrgWindow | app/routes/v1.py:88-124 | in terms of clock readings alone, an organization's admitted requests in a window of T seconds stay within limit + T * limit / 60, plus one per outage |
| RateLimiter.AdmittedExact | app/routes/v1.py:102-112 | a request is admitted if and only if both buckets, as it finds them, let it through: a limit above 0, and a whole token or a failing store |
| RateLimiter.RemainingRequests | app/routes/v1.py:111-117 | after a request is told how many remain, exactly that many more of its key at the same instants are admitted and every further one is refused |
| RateLimiter.FreshRequests | app/routes/v1.py:88-112 | a key and an organization not heard of before are admitted exactly as often as their limit says |
| RateLimiter.RetryAfter | app/routes/v1.py:102-123 | each bucket judged at its own moment, the reported reset suffices for both unless the call finds fewer than two tokens in both and the key has not earned its next when the organization's rounded-up wait is over |
| RateLimiter.RetryAfterFallsShort | app/routes/v1.py:112 | a tie that reports 10 seconds while the key needs 30 |
| RateLimiter.RefusedRequest | app/routes/v1.py:102-112 | a request, refused or not and whatever fails, leaves both buckets as full as it found them if and only if it finds neither with a token to take and a store that writes |
| RateLimiter.RefusedTakesNothing | app/services/v1_store.py:148-152 | an undisturbed call is admitted exactly when there is a token to take |
| RateLimiter.RefusedRequestSpends | app/routes/v1.py:102-112 | a request refused by its empty key that spends a token of its organization |
| Lifecycle.ResumeFits | app/routes/v1.py:237-374 | after every store command a request holds exactly the slots, unit and claim its program point says |
| Lifecycle.HearFits | app/routes/v1.py:257-345 | the same after the key reveal and the upstream answer |
| Lifecycle.SentFits | app/routes/v1.py:332-366 | the same after a usage event |
| Outcomes.ResumeExplained | app/routes/v1.py:237-374 | after every store command what a request holds and how it ends has its cause in its own fields and in what it was told |
| Outcomes.HearExplained | app/routes/v1.py:211-318 | the same after the checks, the key reveal and the upstream's response: 200 to 299 answers, anything else fails |
| Outcomes.NextExplained | app/routes/v1.py:189-374 | the same for every step of the whole system |
| Amounts.EventsDue | app/routes/v1.py:332-366 | the events of one answer are worth one unit of the resource and the reported input and output tokens, each under its own resource |
| Amounts.AmountNext | app/routes/v1.py:332-366 | every step keeps what has been emitted of each resource equal to what is due and has been sent |
| Slots.MoveBalanced | app/services/v1_store.py:162-197 | one command on a slot counter, failing or not, keeps counter, slots out, slots granted and failures in balance |
| Slots.MoveProtects | app/services/v1_store.py:175-183 | no command on a counter takes its deadline protection from another holder |
| Slots.PassKeeps | app/services/v1_store.py:170-172 | a counter that expires under live holders belongs only to requests whose own commands failed |
| Slots.SlotNext | app/routes/v1.py:127-144 | every step of any request keeps the balance of every slot counter |
| Quota.TurnConserved | app/services/v1_store.py:244-291 | one quota command, failing or not, conserves the units and the failure budget |
| Quota.QuotaNext | app/services/v1_store.py:244-291 | every step of any request conserves the units of every metered key |
| Quota.UnmeteredNext | app/services/v1_store.py:257-258 | no step creates a missing quota key |
| Idempotency.TakeClaim | app/services/v1_store.py:307-308 | SET NX wins only with no claim pending and every kept record run out |
| Idempotency.KeepClaim | app/services/v1_store.py:326-328 | storing a success replaces the owner's claim and nothing else |
| Idempotency.DropClaim | app/services/v1_store.py:329-330 | releasing removes the owner's claim and nothing else |
| Idempotency.AnswerReplay | app/services/v1_store.py:314-318 | what is replayed is a kept execution with the same fingerprint |
| Idempotency.OwnerAlone | app/services/v1_store.py:297-332 | the owner of a claim is alone and every kept record had run out when it claimed |
| Idempotency.IdemNext | app/services/v1_store.py:297-332 | every step of any request keeps the records of every Idempotency-Key sound |
| Billing.SentBills | app/routes/v1.py:333-366 | a send bills the call exactly when it was not billed and the event is its bill |
| Billing.BillNext | app/routes/v1.py:332-366 | every step keeps one bill per answered call that has got that far |
| Billing.UsageNext | app/services/v1_store.py:378-382 | every step of the whole system keeps the events accounted for |
| EventIds.EventsSized | app/routes/v1.py:332-366 | the events of one answer have different ids |
| EventIds.IdNext | app/routes/v1.py:332-366 | every step keeps each id emitted at most once per answered call that derives it, and at least once for each billed call whose own id it is |
| EventIds.OwnIds | app/services/v1_store.py:350-356 | when no two answered calls derive a common id every event has its own |
| EventIds.SharedId | app/services/v1_store.py:350-356 | two billed calls with one id leave two events of that id that are both worth something |
| Guarantees.InvNext | app/routes/v1.py:189-374 | all invariants together are kept by every step |
| Guarantees.QuotaConservation | app/services/v1_store.py:251-258 | at every moment counter + reserved or billed + denials not yet compensated is the starting quota; the counter is negative exactly while the last two exceed it, and no more is granted than there was |
| Guarantees.QuotaMatchesBilling | app/routes/v1.py:304-345 | when all calls have ended the quota has dropped by the number of upstream-answered calls, which is the number of billing events, each once in stream or outbox if no confirmation was lost |
| Guarantees.NoWastedQuota | app/services/v1_store.py:253-256 | without refunds n finished attempts grant exactly min(n, Q) and leave Q - min(n, Q) |
| Guarantees.NeverCreated | app/services/v1_store.py:257-258 | a missing quota key stays missing |
| Guarantees.FaultBudget | app/services/v1_store.py:260-263 | F failed commands let at most F reservations too many through, and likewise slots |
| Guarantees.SlotSafety | app/services/v1_store.py:162-174 | each counter is exactly the number of its slots out, and no more are held than the limit, through expiry |
| Guarantees.Quiescence | app/routes/v1.py:283-374 | when all calls have ended no slot is out, counters read zero, claims are kept exactly for successes, and no record is in progress |
| Guarantees.OneAtATime | app/services/v1_store.py:297-303 | at most one request per Idempotency-Key is between claim and settlement |
| Guarantees.OnePerLifetime | app/services/v1_store.py:297-328 | two kept executions under one key are at least a record lifetime apart |
| Guarantees.ReplayIsExecution | app/routes/v1.py:242-244 | every replay returns status and body of an execution of the same subject with the same key and fingerprint |
| Guarantees.DuplicateExact | app/services/v1_store.py:309-319 | a duplicate that finds a record is a mismatch if and only if the fingerprints differ, and otherwise waits or gets the result, whichever the endpoints |
| Guarantees.NothingLostNothingInvented | app/services/v1_store.py:346-363 | in every run every emitted event is in stream or outbox and nothing else is; counting ids once never overbills, and with an empty outbox bills everything if and only if the events are apart |
| Guarantees.SharedTextUnderbills | app/routes/v1.py:19 | when all calls have ended and the outbox is empty, two answered calls whose ids come from the same text leave something unbilled |
| Guarantees.ApartCallsBilled | app/routes/v1.py:19 | when no two answered calls' texts are the same or differ by a token suffix, everything is billed |
| Guarantees.BilledExactly | app/routes/v1.py:19 | token suffixes aside, everything emitted is billed if and only if no two answered calls derive their id from the same text |
| Guarantees.RetriesServedOnce | app/routes/v1.py:237-250 | corollary of OnePerLifetime: of all retries under one key at most one is answered by the upstream |
| Guarantees.RetriesBilledOnce | app/services/v1_store.py:346-348 | with any number of retries every event has its own id and, once the outbox is empty, exactly what was emitted is billed |
| Promises.KeysExact | app/services/v1_store.py:159-160 | records tell subjects and keys apart, counters tell subjects and organizations apart, quotas organizations and resources |
| Promises.OutcomeExact | app/routes/v1.py:189-374 | every ended request has its cause; it was rejected exactly when its checks said so or it has no organization |
| Promises.ChecksBind | app/routes/v1.py:214-240 | in every reached state a request that does not pass its checks ends at once, with nothing taken, stored or emitted |
| Promises.FailureIsFree | app/routes/v1.py:318-324 | a response with a status outside 200 to 299 keeps no result, bills nothing and in the end has given the unit back |
| Promises.SuccessIsCharged | app/routes/v1.py:304-345 | a response from 200 to 299 ends in an answer with that status, one unit used and billed, and its result kept unless that command failed |
| Promises.CappedHold | app/routes/v1.py:279-292 | a capped call outside test mode holds a slot of its key and one of its organization from its quota to its release, any other call none |
| Promises.CapHolds | app/routes/v1.py:127-138 | at most the limit of a key's capped calls, and of an organization's, are under way at any moment, plus one per failed command on the counter |
| Promises.QuotaCharged | app/services/v1_store.py:244-291 | when all calls have ended the quota of an organization for a resource has dropped by the number of its calls answered with 200 to 299 |
| Promises.AmountsReported | app/routes/v1.py:332-366 | and exactly one unit for each of them and the tokens the upstream reported have been emitted |
| Promises.ReplayIsOwn | app/routes/v1.py:242-244 | every replay is of what the same caller was given, by the upstream with 200 to 299 or in test mode, for the same key and body |
| Witnesses.CounterBelowZero | app/services/v1_store.py:267-278 | a run that reaches a counter of -1 |
| Witnesses.RepeatsBilledOnce | app/routes/v1.py:332 | for every n a run with n answered calls, n events and one unit billed: one trace id throughout, or one key used again after each record has run out |
| Witnesses.OtherEndpointReplayed | app/services/v1_store.py:302 | a run in which a search is given the result of a question with the same key and body |
| InProcess.SameReplies | app/services/v1_store.py:37-40 | any run of requests gets the same replies from the in-process dictionary as from the plain map, given room and no failures |
| Usage.NothingLost | app/services/v1_store.py:358-363 | any run of emits and drains keeps every emitted event in stream or outbox, exactly as often as emitted without lost confirmations |
| Usage.OldestFirst | app/services/outbox.py:75-99 | what drains take out is a prefix of what was written, in order, all of it confirmed; the table holds the rest |
| Usage.BilledExact | app/services/outbox.py:12-16 | with an empty outbox everything emitted is billed if and only if no two events worth something share an id and none follows a worthless one of its id in the stream |
| Usage.BilledExactPositive | app/services/outbox.py:12-16 | when every event is worth something, if and only if the ids are distinct |
| Usage.CountOnce | app/services/outbox.py:12-16 | over every run a consumer that counts ids once never bills more than was emitted, and exactly that under those conditions and no others |
| UsageOutbox.UsageStream.Xadd | app/services/v1_store.py:335-342 | an XADD is confirmed, refused, or taken without confirmation |
| UsageOutbox.Outbox.Write | app/services/outbox.py:56-65 | a row is added at the end |
| UsageOutbox.Outbox.DeleteOldest | app/services/outbox.py:97-98 | deleting by id removes the oldest row or, failing, none |
| UsageOutbox.Outbox.FlushOldest | app/services/outbox.py:90-99 | one turn of the loop: re-send, then delete on confirmation only; it fails only at a step that was refused |
| UsageOutbox.Outbox.Drain | app/services/outbox.py:75-102 | the count returned is the length of the prefix flushed and the table is the rest; it flushes everything, or its last step was refused and every earlier one confirmed |
| UsageOutbox.DeleteFirst | app/services/outbox.py:97-98 | deleting the oldest row by its id leaves all the others |
| UsageOutbox.EmitUsage | app/services/v1_store.py:344-382 | pending events are re-sent, all or up to a refusal, before the new one; afterwards the event is in the stream or in the outbox, and in the outbox exactly when the stream did not confirm it |
| DedupKeys.SharedExact | app/routes/v1.py:332-366 | any two calls share an id if and only if what their ids come from is the same text or differs by a token suffix |
| DedupKeys.SubjectsShareExact | app/routes/v1.py:332-366 | two keyed calls of different subjects: if and only if the longer subject extends the shorter by a colon and the keys make up the rest |
| DedupKeys.TraceSharesExact | app/routes/v1.py:332-366 | a keyed call and one without a key: if and only if the request id spells subject, colon and key, up to a token suffix |
| DedupKeys.TracesShareExact | app/routes/v1.py:332-366 | two calls without a key: if and only if they carry one request id, up to a token suffix |
| DedupKeys.TraceWitness | app/middleware/s2s.py:24 | two callers with one trace id share an id, and so do a key and a trace id that spells it |
| DedupKeys.SharedIdExact | app/routes/v1.py:332 | two subjects have keys under which their calls' own ids coincide if and only if one, with a colon, is a prefix of the other |
| DedupKeys.SameSubject | app/routes/v1.py:332 | one subject's keys never share an id |
| DedupKeys.CallerSharesExact | app/routes/v1.py:332-366 | two keyed calls of one caller share an id if and only if the keys are equal or differ by a token suffix |
| V1Store.RateStepIsHit | app/services/v1_store.py:140-156 | a rate-limit call on the store, its write failing or not, is a call of the stored token bucket |
| V1Store.RateStepMirrored | app/services/v1_store.py:140-156 | and a call on the map of all buckets, which the organization's budget is about |
| V1Store.CountAndExpire | app/services/v1_store.py:176-178 | INCR and EXPIRE count from the live level and, in one tick, leave a deadline of 300 seconds |
| V1Store.TakeAndReturn | app/services/v1_store.py:267-278 | DECR and its compensation take a unit exactly when there is one and touch nothing else, whatever fails |
| V1Store.V1Store.HitRateLimit | app/services/v1_store.py:111-156 | unless others come in between, verdict and all bucket records are those of a call of the subject's bucket with the outage that befell it; the record lives 120 seconds; failures and unreadable records admit, a limit of 0 refuses |
| V1Store.V1Store.Draw | app/services/v1_store.py:145-155 | the refill and the spending, step by step, are those of the bucket |
| V1Store.V1Store.RateLimitForOrg | app/services/v1_store.py:209-224 | the stored number when there is one, otherwise none |
| V1Store.V1Store.AcquireConcurrencySlot | app/services/v1_store.py:162-187 | calmly a slot is granted exactly when the live count is below the limit, and then counted with a deadline of 300 seconds; whatever fails, it is denied only at the limit |
| V1Store.V1Store.ReleaseConcurrencySlot | app/services/v1_store.py:189-197 | without failures the live count falls by one |
| V1Store.V1Store.AcquireConcurrencySlots | app/routes/v1.py:127-138 | calmly both slots are granted exactly when the key's and the organization's count, each as it is found, leave room; otherwise neither |
| V1Store.V1Store.ReleaseConcurrencySlots | app/routes/v1.py:141-144 | both slots are given back, by the program |
| V1Store.V1Store.ReserveQuota | app/services/v1_store.py:244-278 | calmly a unit is granted exactly when one is left; whatever fails, a refusal means there was none; a missing key is granted and not created |
| V1Store.V1Store.ReleaseQuota | app/services/v1_store.py:280-291 | undisturbed, an existing counter rises by one; a missing one is not created |
| V1Store.V1Store.IdempotencyBegin | app/services/v1_store.py:294-319 | calmly the claim is new exactly when this subject has no live record under this key, and is stored for 120 seconds; otherwise the record says what the request is told; a failure makes it new |
| V1Store.V1Store.IdempotencyFinish | app/services/v1_store.py:321-332 | a status from 200 to 299 stores the result under this subject and key, any other removes the record |
| V1Store.V1Store.Emit | app/services/v1_store.py:344-382 | one more event emitted, kept in stream or outbox |
| Handler.RateLimited | app/routes/v1.py:81-124 | both buckets are asked under the organization's own or the standard limit; unless others come in between, answer and bucket records are those of one query of the two-bucket limiter, whatever fails |
| Handler.Settle | app/routes/v1.py:262-263 | with a key, the caller's record afterwards is the answer of a call that succeeded and nothing after one that did not; without one nothing changes |
| Handler.Work | app/routes/v1.py:294-367 | a test answer in test mode; else over quota exactly when no unit is left, and otherwise as the upstream responded; record and quota afterwards accordingly |
| Handler.Forward | app/routes/v1.py:314-367 | a status from 200 to 299 is an answer, kept and billed; any other is a failure, with the unit and the claim given back |
| Handler.Refuse | app/routes/v1.py:318-324 | after a failure the unit is back and no record is left |
| Handler.Answer | app/routes/v1.py:326-367 | after an answer the unit stays used, the record holds it and its events are emitted |
| Handler.Bill | app/routes/v1.py:332-366 | one event for the call and one for each token count reported |
| Handler.BillTokens | app/routes/v1.py:354-366 | one event for each token count reported |
| Handler.Reserve | app/routes/v1.py:309-367 | without a unit the call ends in a quota denial, otherwise as the upstream answers |
| Handler.Admit | app/routes/v1.py:211-240 | a request is admitted exactly when organization, contract, rate limiter and key format let it, and the limiter is asked only after the first two |
| Handler.Run | app/routes/v1.py:279-374 | calmly busy exactly when the call is capped, outside test mode, and one of the two counts is at the limit; a capped call that goes on has counted itself on both; slots are given back however the try block ends |
| Handler.Claimed | app/routes/v1.py:257-374 | from the key reveal on the outcome has its cause, and calmly it is what the store it finds and the upstream decide |
| Handler.Reveal | app/routes/v1.py:257-277 | a call that cannot get its provider key ends so and releases its claim, whatever else |
| Handler.Keyed | app/routes/v1.py:237-250 | calmly a duplicate is told what the caller's own live record says, and the first request goes on |
| Handler.Handle | app/routes/v1.py:189-374 | rejected exactly when organization, contract, rate limiter or key format say so, and then only rate buckets change; every other outcome has its cause in request, reveal and response; calmly outcome, record and quota are determined by what is found; events are emitted exactly for an answer of the upstream |
| IamCache.Partition | app/services/iam_client.py:138 | a text is split at its first separator |
| IamCache.SealExact | app/services/iam_client.py:138-145 | exactly the sealed texts of a subject unseal, each to its body, whatever colons it contains |
| IamCache.CopyRefused | app/services/iam_client.py:142-144 | an entry copied under another name is refused |
| IamCache.SubjectUnique | app/services/iam_client.py:272-276 | no two tokens or API keys share an entry |
| IamCache.TamperTrusted | app/services/iam_client.py:36-41 | a foreign write is not trusted, or brings back what the auth service vouched for under that very name |
| IamCache.NextInv | app/services/iam_client.py:133-160 | every step, foreign writes of captured entries included, keeps each trusted entry backed by an answer of the auth service |
| IamCache.ReadSound | app/services/iam_client.py:133-258 | in any interleaving an identity read was vouched for by the auth service for that very token, no longer ago than 300 seconds, or for an API key its configured time and its token's life less 30 seconds, unless its entry was put back with a deadline that no answer allowed |
| IamCache.ReadFreshExact | app/services/iam_client.py:133-154 | an entry that is read stays fresh for as long as it will be returned if and only if some answer for its source and identity allows its deadline |
| IamCache.CacheLife | app/services/iam_client.py:149-154 | an answer that has been written is returned for 300 seconds, for an API key until the configured time or 30 seconds before the minted token runs out, and no longer |
| IamCache.RestoredOutlives | app/services/iam_client.py:138-145 | for every time a run in which an entry put back is returned then, long after its life |
| IamCache.MintedTokenAlive | app/services/iam_client.py:268-270 | a cached API key's access token is still valid when returned |
| IamCache.IamClient.Foreign | app/services/iam_client.py:36-41 | somebody else's write of an entry without a fitting MAC or of a captured one |
| IamCache.IamClient.GetCached | app/services/iam_client.py:133-147 | without a store failure the answer is that of the entry; a hit was vouched for; at most the entry that does not fit is deleted |
| IamCache.IamClient.SetCached | app/services/iam_client.py:149-154 | the sealed answer is stored for its life and no longer, or nothing when that life is over or the store fails; every entry stays backed |
| IamCache.IamClient.EvictEntry | app/services/iam_client.py:156-160 | the entry is deleted, or nothing happens when the store fails |
| IamCache.IamClient.Ask | app/services/iam_client.py:188-258 | a second request exactly after a timeout; an identity is returned exactly when the last reply is that identity, and a refusal evicts the entry |
| IamCache.IamClient.Validate | app/services/iam_client.py:165-258 | a hit is returned and nobody asked; on a miss a token that fails the local check is refused unasked, and for any other the auth service decides |
| IamCache.IamClient.ValidateApiKey | app/services/iam_client.py:310-361 | nothing without the exchange or for a text that does not start with omni_sk_; else a hit or what the auth service decides |

## Left out

- FastAPI, the proxy, the MCP server, audit, trace ids and the middleware chain: wrappers over code that is not part of this model.
- The translation of requests and responses (`app/services/literature_contract.py`, not modelled): a request may be rejected, a response is a status, a body and two optional token counts. An exception in the response translation (`app/routes/v1.py:326`), which would skip refund and release of the claim, is excluded.
- The free routes: a rate limit and a forward, nothing beyond the core.
- Text of keys, JSON, SHA-256 and HMAC: one constructor per key family and per kind of stored value, and injective functions. An idempotency record that is not JSON is not modelled.
- Redis and SQLite internals, trimming of the stream, a failing SQLite write (documented loss of the event), task cancellation, and writes by the billing service during a run.
- V1Store.V1Store.Emit: other requests change the store between the commands of a request here, but not stream and outbox during one emission; Guarantees covers every interleaving of those.
- Guarantees.BilledExactly: a token event whose id is another call's own id is bounded by DedupKeys.SharedExact and Usage.BilledExact, not by this condition on calls.
- Event fields that billing does not count by: timestamp, user, trace id, unit and metadata.
- Two interleaved token-bucket calls of one subject on Redis: each call is one step.
- Progress of drains: the lock is a thread lock held across an await, so a second drain on the same event loop can block it. Drains are mutually exclusive here and only safety is claimed.
- UsageOutbox.Outbox.Drain: a row that is deleted although the delete reports failure is not modelled, because SQLite commits or rolls back locally.
- System.NextFit: a drain is not tied to the emit that started it; drain steps may happen at any time, which covers every schedule of the source and more.
- RateLimiter.RetryAfter: for a wall clock that does not go back between the two buckets.
- RateLimiter.RefusedRequest: for a subject that is not spelled like its organization's bucket; subjects start with `api_key:` or `user:` (`app/middleware/auth.py:89`, `app/routes/v1.py:77`).
- V1Store.V1Store.AcquireConcurrencySlots: what the two counters are afterwards under other requests is stated by Guarantees.SlotSafety and Promises.CapHolds.
- Handler.Handle: HTTP status codes and wording of the replies; an outcome is which of the source's returns is taken, with the upstream's status and body.
- Guarantees.OnePerLifetime: it is for keys whose commands did not fail; after a failure the source deliberately runs the request again.
