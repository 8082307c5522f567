# klayengo: verified models

klayengo is an HTTP client with built-in resilience: it sends a request through a rate limiter and a circuit breaker,
retries it within a budget and with growing delays, caches responses, and lets identical requests in flight share one
answer. These parts are small stateful components, several of them in an original and an optimized version that is
documented as a drop-in replacement (`PERFORMANCE_OPTIMIZATIONS.md:410`). This project models them in Dafny and proves
what they promise over every run, or finds exactly where they do not keep it.

`dafny verify dfyconfig.toml` checks everything.

## How the model is laid out

| file | content |
|---|---|
| `Base.dfy` | options, sequences without duplicates, division |
| `ShardIndex.dfy` | `nextPowerOf2` and shard masks, bit by bit |
| `ShardModel.dfy` | one cache shard as a map and a recency sequence, and what these mean over every run |
| `CacheModel.dfy` | the sharded cache as values, the flat TTL map, and their agreement |
| `OptimizedCache.dfy` | the linked heap: entries, shards and cache as classes that refine the two models |
| `TtlCache.dfy` | the plain 16-shard cache as classes that refine the flat map |
| `CachePair.dfy` | both caches as objects, created and driven side by side |
| `RateLimiter.dfy` | the original token bucket, against a bucket that refills eagerly |
| `OptimizedRateLimiter.dfy` | the lock-free bucket, sequentially and at the grain of single loads and compare-and-swaps |
| `LimiterWindows.dfy` | how much several threads can take from the lock-free bucket in a window |
| `LimiterComparison.dfy` | calls that the two limiters answer differently, for every pair of arguments |
| `CircuitBreaker.dfy` | both breakers, their bisimulation, and the meaning of their counters |
| `BreakerSteps.dfy` | the optimized breaker at the grain of single atomic operations |
| `BreakerLaw.dfy` | exactly when interleaved calls open the breaker below its threshold, and what rules that out |
| `SingleFlight.dfy` | call coalescing by `Group` and by the client's older copy of it |
| `Deduplication.dfy` | the tracker of requests in flight |
| `RetryBudget.dfy` | the budget of retries per window |
| `Backoff.dfy` | delays: exponential with jitter, and decorrelated |
| `RetryLoop.dfy` | the loop of `doWithRetry` over limiter, breaker, budget and delays |
| `RetryTrace.dfy` | the log of a request, event by event: what may follow what |

Code that changes state is a class whose methods are proved against a function on values, and the properties are proved
about runs of that function. Concurrent code is a transition system: a state with a program counter for each goroutine,
and `Reach`, which folds a sequence of actions over the first state. Every interleaving is such a sequence, so a lemma
about `Reach` holds for all of them, and for any number of goroutines. `AloneCall` lemmas tie the two views together: a
call that nobody interrupts does what the sequential function does.

The clock, random draws, hashes, and the replies of the transport are parameters. Time is an integer in nanoseconds;
where a property needs a clock that does not go back, it says so.

## Where the code and its description disagree

The models follow the code. These are the places where that matters, each with a member that proves it:

* An expired cache entry is removed without lowering `size`, so every expiry takes one slot away from the shard until
  `Clear`, down to a single entry (`ShardModel.Residency`).
* `nextPowerOf2` lacks a shift by 32 bits. The result is right up to 2^32, and beyond it exactly when the argument less
  one has no run of 32 zeros below its leading one (`ShardIndex.NextPowerOf2`, `ShardIndex.MissingShift`).
* `InMemoryCache.Set` stamps the caller's entry object, so one object stored under two keys shares an expiry. `Set` acts
  on the right key alone exactly when no other key holds the object with another expiry (`TtlCache.InMemoryCache.Set`);
  `TtlCache.SharedEntry` is a run where it does not.
* The plain cache hands back the entry's own status, the optimized one that of the entry's response. They differ exactly
  if there is a response with another status (`CacheModel.StatusAgrees`).
* The optimized limiter is no drop-in replacement: whatever `maxTokens` and `refillRate` are, some calls of `Allow` at
  times that do not decrease get different answers from the two (`LimiterComparison.NeverAlike`). The original waits
  `refillRate` for each token, the optimized one `refillRate / maxTokens`; capacity and pace agree exactly if the
  arguments are positive and one of them is 1 (`OptimizedRateLimiter.SamePace`), and then a long idle time tells the two
  apart, because the batch cap lets `lastRefill` lag behind the clock.
* That lag breaks the original's bound on a window of time. For the windows that begin now, a single caller keeps it
  exactly if the tokens that a refill would not push over the cap and the periods of lag exceed the capacity by one at
  most (`OptimizedRateLimiter.WindowExact`); a full bucket keeps it until `lastRefill` is more than a batch and one
  period behind (`OptimizedRateLimiter.WindowBoundFails`). Two idle threads can take the tokens that one would lose at
  the cap: from a state with two, the bound holds over every interleaving exactly if the tokens, the pending credit and
  the periods of lag exceed the capacity by one at most (`LimiterWindows.WindowExactForThreads`).
* With two threads or more, some interleaving opens the optimized breaker below a positive failure threshold, and with
  one thread none does (`BreakerLaw.LawBreaks`). Such an opening is either the plain store of a failure that met the
  breaker half-open (`BreakerLaw.EarlyByStore`), or a swap whose thread counted its failure before the count was last
  zeroed (`BreakerLaw.EarlyBySwap`, `BreakerLaw.EarlyByDelay`, `BreakerLaw.EarlyOpenings`). `BreakerLaw.ExposedExactly`
  says from which states one can come. After a close that no other call overlaps the sequential law holds
  (`BreakerLaw.LawAfterQuietClose`). The moves of the state stay legal in any case (`BreakerSteps.AlwaysSafe`).
* The early returns of `Client.Do` on a cache hit (`client.go:220`, `client.go:227`, `client.go:244`) do not complete
  the deduplication entry that the caller owns. The entry can still be closed exactly if the lookup gives none of these
  returns (`Deduplication.ClosesUnlessCached`); otherwise it stays open and registered for good
  (`Deduplication.AbandonedForever`). `Deduplication.EarlyExit` computes the return from configuration and lookup.
* The default retry policy is documented as retrying only idempotent requests (`retry_policy.go:14-15`). It looks at the
  method of the request that a response carries, which is the last one of a chain of redirects. So it retries a request
  that is not idempotent exactly if it failed without any response, or a redirect turned it into a GET and that failed,
  or got status 429 or one from 500 up (`RetryLoop.NonIdempotentRetried`). `RetryLoop.PostRetried` gives a POST of
  either kind.
* A retry budget can grant more than its limit within less than one window length: exactly if the limit is positive and
  the window longer than one tick of the clock (`RetryBudget.OverfullWhen`). Twice the limit is then reached
  (`RetryBudget.BoundReached`) and never exceeded (`RetryBudget.IntervalBound`).

## Model

| member | source | states |
|---|---|---|
| `ShardIndex.NextPowerOf2` | cache_optimized.go:398-410 | The smearing loop gives the least power of two not below n for every n up to 2^32, and for larger n exactly when n-1 has no run of 32 zeros below its leading one |
| `ShardIndex.MissingShift` | cache_optimized.go:398-410 | 2^32 + 1 has such a run, so the rounding fails there |
| `ShardIndex.Index` | cache_optimized.go:264-269 | Masking the hash with count - 1 gives an index in range for every positive count |
| `ShardIndex.MaskIsModulo` | cache_optimized.go:264-269 | With a shard count that is a power of two, masking the hash with count - 1 is the hash modulo the count |
| `ShardIndex.IndexBits` | cache_optimized.go:264-269 | For every shard count the index has just the bits that the hash and count - 1 share |
| `ShardModel.RunConsistent` | cache_optimized.go:118-325 | In every reachable state the recency sequence lists each resident key once and nothing else |
| `ShardModel.Residency` | cache_optimized.go:312-325 | In every reachable state size is the residents plus the expired removals since Clear, and the residents are at most max(1, T - those removals) |
| `ShardModel.RecencyOrder` | cache_optimized.go:273-310 | After every run the list is the residents sorted by last touch, where a touch is a Set or a promoting hit |
| `ShardModel.EvictsLeastRecentlyTouched` | cache_optimized.go:312-325 | An eviction removes one entry, the resident whose last touch is oldest |
| `ShardModel.SetKeepsAll` | cache_optimized.go:181-230 | In every reachable state with size below T, or nothing resident, a Set leaves every other resident as it was and counts no eviction |
| `ShardModel.SetDropsOldest` | cache_optimized.go:213-230 | In every other reachable state it drops exactly one resident, the one whose last touch is oldest, and counts one eviction |
| `ShardModel.CountersMeaning` | cache_optimized.go:118-230 | After every run hits, misses and evictions count the Gets that found a live entry, the other Gets, and the Sets that found the shard full and not empty |
| `ShardModel.LastAccess` | cache_optimized.go:141-148 | A resident's lastAccess is the time of its last Set or hit |
| `ShardModel.AccessCount` | cache_optimized.go:168-173 | A resident's access count is one more than its hits since it was Set, which fixes when promotions happen |
| `CacheModel.ShardRun` | cache_optimized.go:264-269 | Each shard of the cache lives the run of its own operations, whatever happens on the others |
| `CacheModel.FlatMeaning` | cache.go:47-91 | A Get on the flat map finds the entry last Set for the key, if it was neither deleted nor cleared since, no Get found it expired, and it has not expired now; otherwise nothing |
| `CacheModel.Agreement` | cache_optimized.go:118-261 | After the same operations every optimized shard holds the flat TTL map's entries for its keys except those evicted since their last Set |
| `CacheModel.GetsAgree` | cache_optimized.go:118-178 | An optimized hit returns the body, header, tag and expiry of the flat map's hit, with the status of its response if it has one and otherwise its own, and a miss where the flat map hits happens exactly on keys evicted since their last Set |
| `CacheModel.EvictedExactly` | cache_optimized.go:212-216 | The evicted keys are exactly those that a Set of another key found least recently touched in a shard with size at least T, and that were not Set since |
| `CacheModel.NeverFullIsFlat` | cache_optimized.go:212-216 | In a run where no Set finds its shard full, every Get hits both caches or neither, with the same entry |
| `CacheModel.StatusAgrees` | cache_optimized.go:151-160 | On a hit the optimized cache shows the status of the flat map's entry exactly if the entry carries no response or one with that status |
| `CacheModel.HomeOnly` | cache_optimized.go:264-269 | A key is only ever resident in the shard its hash selects |
| `CacheModel.ShardBound` | cache_optimized.go:312-325 | No shard of the cache exceeds max(1, T - its expired removals since Clear) |
| `OptimizedCache.Entry.constructor` | cache_optimized.go:193-208 | A new entry is unlinked, with access count 1 and expiry now + ttl |
| `OptimizedCache.Shard.AddToLRU` | cache_optimized.go:273-283 | The entry becomes the head, and the next and prev chains are again inverse, acyclic and complete |
| `OptimizedCache.Shard.RemoveLRU` | cache_optimized.go:285-300 | The entry leaves the chains, the others stay in order, and the entry's own links are cleared |
| `OptimizedCache.Shard.MoveToFront` | cache_optimized.go:302-310 | Removing and adding an entry moves it to the front and keeps the order of the others |
| `OptimizedCache.Shard.PromoteHotEntry` | cache_optimized.go:302-310 | An entry that is not being promoted moves to the front, and its flag is left as it was |
| `OptimizedCache.Shard.Unlink` | cache_optimized.go:312-325 | Deleting from the map and unlinking removes the entry from map and list together |
| `OptimizedCache.Shard.EvictLRU` | cache_optimized.go:312-325 | The heap shard refines the abstract eviction: the tail leaves, size falls, evictions rises; an empty list changes nothing |
| `OptimizedCache.Shard.Get` | cache_optimized.go:118-178 | The heap shard refines the abstract Get through miss, expiry, hit and promotion, and returns its hit |
| `OptimizedCache.Shard.Expire` | cache_optimized.go:133-139 | Expiry removes the entry from map and list and leaves size alone |
| `OptimizedCache.Shard.Hit` | cache_optimized.go:141-178 | A live entry is counted and copied out, and promoted when its access count reaches a multiple of ten |
| `OptimizedCache.Shard.PromoteIfDue` | cache_optimized.go:171-173 | Only an access count divisible by ten moves the entry to the front |
| `OptimizedCache.Shard.Set` | cache_optimized.go:181-230 | The heap shard refines the abstract Set: evict when size has reached T, also when the victim is the key being set, drop an old entry, then put the key at the front |
| `OptimizedCache.Shard.MakeRoom` | cache_optimized.go:213-216 | The eviction happens exactly when size has reached the threshold, and an entry under the key leaves |
| `OptimizedCache.Shard.Delete` | cache_optimized.go:233-243 | A present key leaves map and list and size falls; an absent one changes nothing |
| `OptimizedCache.Shard.Clear` | cache_optimized.go:246-261 | Map, list and size are emptied |
| `OptimizedCache.Cache.constructor` | cache_optimized.go:91-115 | The cache starts with empty shards; their number is the least power of two not below the wanted one up to 2^32, and beyond exactly when the wanted number less one has no run of 32 zeros below its leading one |
| `OptimizedCache.Cache.GetShard` | cache_optimized.go:264-269 | The shard index comes from masking the key's hash and is in range for every shard count; for a power of two it is the hash modulo the count |
| `OptimizedCache.Cache.OnShard` | cache_optimized.go:118-268 | An operation on one shard leaves every other shard and its list untouched |
| `OptimizedCache.Cache.Get` | cache_optimized.go:118-178 | The whole cache takes the abstract step of a Get and returns its hit |
| `OptimizedCache.Cache.Set` | cache_optimized.go:181-230 | The whole cache takes the abstract step of a Set |
| `OptimizedCache.Cache.Delete` | cache_optimized.go:233-243 | The whole cache takes the abstract step of a Delete |
| `OptimizedCache.Cache.Clear` | cache_optimized.go:246-261 | The loop clears every shard, which is the abstract Clear |
| `TtlCache.InMemoryCache.constructor` | cache.go:26-38 | The sixteen shards together start as the empty flat map |
| `TtlCache.InMemoryCache.Get` | cache.go:47-63 | The sixteen shards together act as one flat TTL map: a live entry is returned, an expired one removed |
| `TtlCache.InMemoryCache.Set` | cache.go:66-73 | The key maps to the caller's object stamped now + ttl; this is the flat map's Set exactly when no other key holds the object with another expiry |
| `TtlCache.SharedEntry` | cache.go:66-73 | One object set under "a" for 1 and then under "b" for 5 is still found under "a" at time 3, where the flat map has dropped it |
| `TtlCache.InMemoryCache.Delete` | cache.go:76-82 | Delete is the flat map's Delete |
| `TtlCache.InMemoryCache.Clear` | cache.go:85-91 | Clear empties all shards |
| `CachePair.Drive` | PERFORMANCE_OPTIMIZATIONS.md:410-425 | Both caches are created and go through any operations together: every Get is answered as each cache's model answers after the operations before it, on the shard that the masked hash names; one that hits the optimized cache hits the plain one alike, and one that hits only the plain cache asks for a key evicted since its last Set |
| `CachePair.Pair.Apply` | cache_optimized.go:118-261 | One operation on both heap caches takes the step of both models, and the answers are those of the models |
| `RateLimiter.RateLimiter.RefillTokens` | rate_limiter.go:24-55 | With one caller, the loop refills the whole periods elapsed, capped, and moves lastRefill by as many periods |
| `RateLimiter.RateLimiter.ConsumeToken` | rate_limiter.go:57-68 | A token is taken exactly when there is one |
| `RateLimiter.RateLimiter.Allow` | rate_limiter.go:19-22 | Allow refills and then takes a token |
| `RateLimiter.Resting` | rate_limiter.go:24-55 | After every run lastRefill is a whole number of periods after creation and less than one period behind the last call, and the bucket is never over-full |
| `RateLimiter.LazyIsEager` | rate_limiter.go:9-68 | The lazy bucket answers every sequence of calls as a bucket does that gets one token, capped, at each multiple of the period |
| `RateLimiter.WindowBound` | rate_limiter.go:24-68 | Every window [s, t] holds at most maxTokens + (t - s)/refillRate + 1 grants |
| `RateLimiter.RunBound` | rate_limiter.go:9-68 | From creation to time t at most maxTokens + (t - created)/refillRate calls are granted |
| `RateLimiter.NoRefill` | rate_limiter.go:24-55 | Without a positive period the bucket never refills, and all grants ever fit in the first fill |
| `OptimizedRateLimiter.Configure` | rate_limiter_optimized.go:40-74 | Whatever the arguments, the configuration in force has positive capacity, period and batch |
| `OptimizedRateLimiter.OptimizedRateLimiter.FastRefill` | rate_limiter_optimized.go:116-165 | With one caller, a refill moves lastRefill by at most a batch of periods and adds as many tokens, capped |
| `OptimizedRateLimiter.OptimizedRateLimiter.ConsumeTokenFast` | rate_limiter_optimized.go:170-187 | With one caller, a token is taken exactly when there is one |
| `OptimizedRateLimiter.OptimizedRateLimiter.Allow` | rate_limiter_optimized.go:80-84 | With one caller, Allow is a refill and one token |
| `OptimizedRateLimiter.OptimizedRateLimiter.AllowN` | rate_limiter_optimized.go:88-110 | With one caller, AllowN takes all n tokens or none, and refuses outright what the bucket can never hold |
| `OptimizedRateLimiter.OptimizedRateLimiter.Reserve` | rate_limiter_optimized.go:191-205 | With one caller, Reserve takes a token exactly when one is there after the refill |
| `OptimizedRateLimiter.Conservation` | rate_limiter_optimized.go:80-187 | Over every interleaving, tokens + those that the answers handed out + credit claimed but not yet added + credit lost at the cap is maxTokens + the whole periods lastRefill has moved, with tokens in range and lastRefill not in the future |
| `OptimizedRateLimiter.GrantBound` | rate_limiter_optimized.go:80-187 | Over every interleaving, the tokens that all answers so far handed out are at most maxTokens + elapsed/refillRate |
| `OptimizedRateLimiter.AnswersMeaning` | rate_limiter_optimized.go:99-187 | Over every interleaving, a call told that it took tokens has just taken them from the bucket, and one that is refused found too few or has just lost its last swap |
| `OptimizedRateLimiter.AttemptsMeaning` | rate_limiter_optimized.go:170-205 | A thread in a call has lost fewer swaps than end it: three for Allow, one for Reserve, and none would do for AllowN |
| `OptimizedRateLimiter.ClaimsFit` | rate_limiter_optimized.go:116-145 | A refill claims a batch, or all the whole periods that had passed when its thread read the clock |
| `OptimizedRateLimiter.LostOnlyAtCap` | rate_limiter_optimized.go:147-165 | Credit is lost only by an action that leaves the bucket full |
| `OptimizedRateLimiter.GrantsFrom` | rate_limiter_optimized.go:80-187 | From any reachable state on, grants are at most its tokens, its pending credit, and the periods since its lastRefill |
| `OptimizedRateLimiter.WindowKept` | rate_limiter_optimized.go:80-187 | Over every interleaving, from a state whose tokens, pending credit and periods of lag exceed the capacity by one at most, the original's window bound holds |
| `OptimizedRateLimiter.WindowExact` | rate_limiter_optimized.go:116-165 | For a single caller of Allow, AllowN and Reserve, every window that begins now keeps the original's bound exactly if the tokens not lost to the first refill and the periods of lag exceed the capacity by one at most |
| `OptimizedRateLimiter.CallMeaning` | rate_limiter_optimized.go:80-205 | For a single caller and any operation: what is granted, what is left, and how far lastRefill moves |
| `OptimizedRateLimiter.TakenBound` | rate_limiter_optimized.go:116-165 | Any calls of a single caller take no more than the tokens not lost to the first refill and one token for each period since lastRefill |
| `OptimizedRateLimiter.TakeAll` | rate_limiter_optimized.go:88-165 | Some calls within less than a period take exactly that many, counting a begun period as a whole |
| `OptimizedRateLimiter.LagGrants` | rate_limiter_optimized.go:136-139 | While lastRefill lags k batches behind, k calls at one instant are all granted |
| `OptimizedRateLimiter.WindowBoundFails` | rate_limiter_optimized.go:136-139 | For every configuration, a full bucket keeps the original's bound for the windows that begin now exactly until lastRefill is more than a batch and one period behind |
| `OptimizedRateLimiter.FillTime` | rate_limiter_optimized.go:40-61 | Whatever the arguments, an empty bucket fills in refillRate, short of it by less than a nanosecond per token, or in one nanosecond per token when there are more tokens than nanoseconds; a refill adds a tenth of the bucket, or one token when that is less or the period is under a second |
| `OptimizedRateLimiter.SamePace` | rate_limiter_optimized.go:40-74 | Built with the same arguments, both limiters have the same capacity and pace exactly when the arguments are positive and one of them is 1 |
| `LimiterWindows.WindowExactForThreads` | rate_limiter_optimized.go:80-187 | In any reachable state with two idle threads, every window that begins now keeps the original's bound, whatever the threads do, exactly if the tokens, the pending credit and the periods of lag exceed the capacity by one at most |
| `LimiterWindows.TakeEverything` | rate_limiter_optimized.go:116-187 | From any state with two idle threads, some interleaving takes all tokens, all pending credit and one token for each period of lag, a begun one included, within less than a period |
| `LimiterWindows.Collect` | rate_limiter_optimized.go:148-165 | Threads that hold credit can add it one by one to an emptied bucket, from which it is taken each time, so none is lost at the cap |
| `LimiterWindows.Collide` | rate_limiter_optimized.go:141-165 | The thread that loses the swap of lastRefill empties the bucket before the winner adds its refill, so nothing is lost at the cap |
| `LimiterComparison.NeverAlike` | PERFORMANCE_OPTIMIZATIONS.md:410-425 | For all arguments, some calls of Allow at times that do not decrease are answered differently by the two limiters |
| `LimiterComparison.LongIdle` | rate_limiter_optimized.go:136-139 | So it is even with equal capacity and period, after a long idle time |
| `OptimizedRateLimiter.AloneCall` | rate_limiter_optimized.go:80-205 | A call whose atomic steps nobody interrupts changes the bucket as the sequential call does and returns its answer |
| `CircuitBreaker.CircuitBreaker.Allow` | circuit_breaker.go:30-51 | The original's Allow takes the specified step and gives its answer |
| `CircuitBreaker.CircuitBreaker.RecordFailure` | circuit_breaker.go:54-72 | The original's RecordFailure takes the specified step |
| `CircuitBreaker.CircuitBreaker.RecordSuccess` | circuit_breaker.go:75-89 | The original's RecordSuccess takes the specified step |
| `CircuitBreaker.OptimizedCircuitBreaker.Allow` | circuit_breaker_optimized.go:69-99 | With one caller, the optimized Allow takes the specified step and gives its answer |
| `CircuitBreaker.OptimizedCircuitBreaker.RecordFailure` | circuit_breaker_optimized.go:105-133 | With one caller, the optimized RecordFailure takes the specified step, counting failures also while open |
| `CircuitBreaker.OptimizedCircuitBreaker.RecordSuccess` | circuit_breaker_optimized.go:138-153 | With one caller, the optimized RecordSuccess takes the specified step |
| `CircuitBreaker.Bisimulation` | circuit_breaker_optimized.go:69-153 | Every event takes breakers that agree on all but the failure count of a non-closed state to breakers that do, with the same answer |
| `CircuitBreaker.Replaceable` | circuit_breaker_optimized.go:69-153 | Over every sequential run the two breakers have the same state, successes and lastFailure, and answer every Allow alike |
| `CircuitBreaker.CountersMeaning` | circuit_breaker.go:54-89 | While closed, failures counts the failures since the last close, successes between notwithstanding; while half-open, successes counts the successes since the probe began and there was no failure |
| `CircuitBreaker.OpensAtThreshold` | circuit_breaker.go:54-72 | A closed breaker opens exactly at the FailureThreshold-th failure since it last closed |
| `CircuitBreaker.ClosesAtThreshold` | circuit_breaker.go:75-89 | A half-open breaker closes exactly at the SuccessThreshold-th success since it became so, and reopens exactly at a failure |
| `CircuitBreaker.HowEntered` | circuit_breaker.go:30-89 | A half-open stretch begins with an Allow granted while open, a closed one at the start or with a success while half-open |
| `CircuitBreaker.LastFailureMeaning` | circuit_breaker.go:54-56 | lastFailure is the time of a recorded failure and no earlier than any |
| `CircuitBreaker.LastFailureIsLatest` | circuit_breaker.go:54-56 | lastFailure is the time of the last recorded failure, whatever the clock does |
| `CircuitBreaker.ProbesAfterTimeout` | circuit_breaker.go:30-51 | An open breaker grants a probe exactly when no failure was recorded within the last RecoveryTimeout |
| `CircuitBreaker.AllowMeaning` | circuit_breaker.go:30-51 | An Allow is denied exactly while the breaker is open and some failure is more recent than RecoveryTimeout, and moves an open breaker to half-open if granted, and nothing else |
| `CircuitBreaker.LeavesOpen` | circuit_breaker.go:30-89 | An open breaker stays open but for such a granted Allow |
| `CircuitBreaker.DefaultsMeaning` | circuit_breaker.go:8-27 | Zero fields stand for five failures, a minute and two successes, and other values are kept |
| `BreakerSteps.AlwaysSafe` | circuit_breaker_optimized.go:69-153 | Over every interleaving, the state never goes from open to closed or from closed to half-open, openings exceed closings by one exactly while not closed, and each move to half-open is won by exactly one Allow, which answers true |
| `BreakerSteps.StepMoves` | circuit_breaker_optimized.go:69-153 | An atomic step leaves the state alone or makes one of the legal moves, of the kind its operation allows |
| `BreakerSteps.StepWon` | circuit_breaker_optimized.go:69-99 | Each step keeps moves to half-open and winning Allows in one-to-one correspondence |
| `BreakerSteps.AnswersMeaning` | circuit_breaker_optimized.go:69-99 | Over every interleaving, an Allow that wins no probe is let through at its first look unless the breaker is open, and after a lost swap only if it is half-open; it is denied for a failure too recent at its reading of the clock, or after a lost swap |
| `BreakerSteps.EffectsMeaning` | circuit_breaker_optimized.go:69-153 | Over every interleaving, a call opens, closes or probes only as the state that it saw at its first look allows, and stamps the time that it read |
| `BreakerSteps.CountsDecide` | circuit_breaker_optimized.go:112-146 | The call whose count reaches a threshold goes on to swap, whatever the state is by then |
| `BreakerSteps.AloneCall` | circuit_breaker_optimized.go:69-153 | A call whose atomic steps nobody interrupts changes the breaker and answers as the sequential call does |
| `BreakerSteps.StaleStoreOpens` | circuit_breaker_optimized.go:124-132 | From any half-open state one success short of closing, two idle threads can close the breaker and reopen it by the plain store, at failure count 1 |
| `BreakerLaw.FailuresMeaning` | circuit_breaker_optimized.go:105-153 | Over every interleaving, the failure count is the number of count steps since the count was last zeroed |
| `BreakerLaw.EarlyOpenings` | circuit_breaker_optimized.go:105-153 | Over every interleaving, an opening of the closed breaker falls short of the threshold exactly when too few failures were counted since the last zeroing, and it is a plain store or a swap whose count step came before that zeroing |
| `BreakerLaw.ExposedExactly` | circuit_breaker_optimized.go:105-153 | From a closed breaker such an opening can come before any other move exactly if a thread still has to store a failure that met it half-open, or has a swap pending, with the count too low, or a success is about to zero the count beside another thread |
| `BreakerLaw.LawHolds` | circuit_breaker_optimized.go:105-120 | From a lawful state, while the breaker stays closed, the count is that of the failures since, a thread can open it next exactly when the count has reached the threshold, and nothing opens it earlier |
| `BreakerLaw.StartsLawful` | circuit_breaker_optimized.go:41-63 | A new breaker is lawful for any number of threads |
| `BreakerLaw.QuietClose` | circuit_breaker_optimized.go:138-153 | A close makes the breaker lawful again, with a count of zero, if no other thread is in the middle of a failure or a close |
| `BreakerLaw.LawAfterQuietClose` | circuit_breaker_optimized.go:105-153 | Over every run, after a close that no other call overlaps and until the next move, the breaker can be opened exactly when the failures since the close have reached the threshold |
| `BreakerLaw.EarlyByStore` | circuit_breaker_optimized.go:124-132 | For every threshold above 1 and two threads or more, some run from creation opens the closed breaker early by the plain store |
| `BreakerLaw.EarlyBySwap` | circuit_breaker_optimized.go:146-151 | For every positive threshold and two threads or more, some run opens it early by a swap, with the count zeroed between a failure's count and its swap |
| `BreakerLaw.EarlyByDelay` | circuit_breaker_optimized.go:112-121 | In some such run the swap was delayed over an opening and a close, opens the breaker at count zero, and no other thread is in a call |
| `BreakerLaw.LawBreaks` | circuit_breaker_optimized.go:105-153 | Some run opens the breaker below the threshold exactly if there are two threads or more and the threshold is positive |
| `SingleFlight.FlightGroup.Enter` | internal/singleflight/singleflight.go:34-46 | The lock section finds the registered call or registers a new one, whose caller is the owner |
| `SingleFlight.FlightGroup.Cleanup` | internal/singleflight/singleflight.go:54-59 | The delayed cleanup deletes the key only while it still maps to its own call |
| `SingleFlight.FlightGroup.LegacyCleanup` | client.go:697-703 | The older copy's delayed cleanup deletes the key whatever it maps to |
| `SingleFlight.FlightGroup.Do` | internal/singleflight/singleflight.go:34-63 | Alone, Do returns the outcome of the registered call, or runs the function and leaves its outcome registered |
| `SingleFlight.FlightGroup.TryDo` | internal/singleflight/singleflight.go:68-95 | Alone, TryDo refuses with ErrInProgress exactly while the key is registered, and otherwise runs the function |
| `SingleFlight.FlightGroup.ForgetKey` | internal/singleflight/singleflight.go:100-104 | The key is no longer registered and nothing else changes |
| `SingleFlight.AlwaysSound` | internal/singleflight/singleflight.go:34-104 | Over every interleaving, a call is registered exactly until its own cleanup or a ForgetKey, its function is run by its one owner, and every answer given is its call's outcome |
| `SingleFlight.StartsWhenClear` | internal/singleflight/singleflight.go:34-46 | A Do starts a new call exactly when all earlier calls on the key have been cleaned up or forgotten |
| `SingleFlight.TryDoAnswers` | internal/singleflight/singleflight.go:68-81 | Over every interleaving, a TryDo is refused at once with ErrInProgress exactly while some call on the key is neither cleaned up nor forgotten, and otherwise runs a new one |
| `SingleFlight.CleansOnlyItsOwn` | internal/singleflight/singleflight.go:54-59 | No cleanup ever removes another call, in the group always and in the older copy while nobody forgets keys |
| `SingleFlight.ForgettingNeedsTheCheck` | internal/singleflight/singleflight.go:57-59 | When a younger call stands under the key of a pending cleanup, the older one was forgotten, and only the group's check saves the younger |
| `SingleFlight.OverlapReached` | internal/singleflight/singleflight.go:54-59 | Two goroutines reach such a state in either variant, with the younger call running; the older copy's cleanup then drops it and the group's does not |
| `SingleFlight.OneAtATime` | internal/singleflight/singleflight.go:34-104 | At most one function per key runs at once, and one more for each ForgetKey on the key |
| `SingleFlight.BoundReached` | internal/singleflight/singleflight.go:100-104 | That bound is reached: with more goroutines than forgets, k calls of ForgetKey leave k + 1 functions running on the key |
| `SingleFlight.Settled` | internal/singleflight/singleflight.go:48-50 | What the owner's function returned is the outcome of its call in every later state |
| `SingleFlight.OwnerReturns` | internal/singleflight/singleflight.go:48-63 | When the function returns, its owner stores the outcome, releases the waiters, sets the timer and returns that outcome; when the timer fires the call is not registered any more |
| `SingleFlight.WaiterAnswered` | internal/singleflight/singleflight.go:36-40 | A waiter's next action answers it with the call's outcome once the call is released, and does nothing before |
| `SingleFlight.JoinerGetsItsCall` | internal/singleflight/singleflight.go:36-40 | A Do that joins waits until it is answered with the outcome of the call it joined, even when that call is forgotten or cleaned up and a younger one started meanwhile |
| `SingleFlight.LegacyIsGroup` | client.go:674-706 | Without ForgetKey the client's older copy reaches the same states as the group on every interleaving |
| `Deduplication.DeduplicationTracker.GetOrCreateEntry` | deduplication.go:37-54 | A registered entry is joined and its waiters counted; otherwise a new one is registered and the caller owns it |
| `Deduplication.DeduplicationTracker.Complete` | deduplication.go:57-77 | The entry under the key, if any, gets its outcome and its channel is closed; the caller must not let a closed one be closed again |
| `Deduplication.DeduplicationTracker.Delete` | deduplication.go:73-77 | The timer deletes the key whatever it maps to |
| `Deduplication.DeduplicationEntry.Wait` | deduplication.go:80-91 | Wait returns the entry's outcome or the context's error, the former for sure when the context is live, the latter when the channel is open |
| `Deduplication.AlwaysSound` | deduplication.go:37-91 | Over every interleaving, with owners that act as Client.Do does, an entry is registered until its own timer fires, no channel is closed twice, waiters is one more than the joiners, and every answer but a cancellation is the entry's outcome |
| `Deduplication.DeletesOnlyItsOwn` | deduplication.go:73-77 | The unconditional delete always removes the entry that set the timer and no other |
| `Deduplication.OwnsWhenClear` | deduplication.go:37-54 | A caller becomes owner exactly when the timers of all earlier entries on the key have fired |
| `Deduplication.OwnerFindsItsEntry` | deduplication.go:57-64 | Looking up its key, a completing owner finds its own entry, still open |
| `Deduplication.CompletesItsOwn` | deduplication.go:57-71 | An owner's Complete sets the outcome of its own entry, for good |
| `Deduplication.OwnerReturns` | deduplication.go:57-77 | An owner that completes stores the outcome, closes the channel and sets the timer; when the timer fires the key is free again |
| `Deduplication.JoinerAnswered` | deduplication.go:80-91 | A joiner's next action answers it with the entry's outcome once the channel is closed, and does nothing before; a cancellation answers it with its own context's error |
| `Deduplication.JoinerGetsItsEntry` | deduplication.go:80-91 | A joiner waits until it is cancelled or answered with the outcome of the entry it joined |
| `Deduplication.AbandonedForever` | client.go:202-246 | An owner that takes an early return on a cache hit leaves its entry registered and open for good, and its joiners are only ever cancelled |
| `Deduplication.ClosableUnlessAbandoned` | deduplication.go:57-77 | In every reachable state an entry is closed or can still be closed exactly if its owner has not abandoned it |
| `Deduplication.ClosesUnlessCached` | client.go:198-335 | After an owner consulted the cache its entry can be closed exactly if configuration and lookup give no early return |
| `Deduplication.EarlyExitMeaning` | client.go:198-246 | Which early return is taken, in terms of configuration, eligibility and lookup |
| `RetryBudget.RetryBudget.Allow` | retry_policy.go:237-258 | With one caller, Allow opens a new window when the old one is over and grants while the count is below the limit |
| `RetryBudget.WindowsApart` | retry_policy.go:241-247 | Window starts are at least perWindow apart |
| `RetryBudget.FirstCallsOfWindow` | retry_policy.go:237-258 | The budget grants exactly the first maxRetries calls of each window |
| `RetryBudget.RunBound` | retry_policy.go:237-258 | Over time D since creation at most maxRetries * (D/perWindow + 1) retries are granted |
| `RetryBudget.IntervalBound` | retry_policy.go:237-258 | Any half-open interval of one window length holds at most 2 * maxRetries grants |
| `RetryBudget.BoundReached` | retry_policy.go:241-247 | With a positive limit and windows longer than a tick, calls within less than one window length get 2 * maxRetries grants |
| `RetryBudget.OverfullWhen` | retry_policy.go:237-258 | Some calls within less than one window length get more than maxRetries grants exactly if maxRetries is positive and perWindow at least 2 |
| `Backoff.Pow` | internal/backoff/strategy.go:110-116 | The loop computes the power, and 1 for exponents that are not positive |
| `Backoff.PowerLaw` | internal/backoff/strategy.go:110-116 | The power is 1 at exponent 0, the base at 1, and the product of the powers at every sum of exponents |
| `Backoff.PowerOfTwo` | internal/backoff/strategy.go:110-116 | For base 2 it is the integer power of two |
| `Backoff.ClampJitter` | internal/backoff/strategy.go:98-106 | The result lies in [0, 1], is the jitter itself exactly when that does, and is otherwise the nearest number there |
| `Backoff.CalculateExponential` | internal/backoff/strategy.go:20-46 | The exponential strategy computes the specified delay |
| `Backoff.CalculateDecorrelated` | internal/backoff/strategy.go:53-95 | The decorrelated strategy computes the specified delay |
| `Backoff.ClientBackoff.CalculateBackoff` | client.go:495-508 | With or without a calculator, the strategy in force decides the client's delay |
| `Backoff.ClientBackoff.CalculateExponentialBackoff` | client.go:510-541 | The client's copy computes the same function as the exponential strategy |
| `Backoff.ClientBackoff.CalculateDecorrelatedBackoff` | client.go:543-585 | The client's copy computes the same function as the decorrelated strategy |
| `Backoff.PolicyBackoff.CalculateBackoff` | retry_policy.go:133-146 | With or without a calculator, the strategy in force decides the policy's delay |
| `Backoff.PolicyBackoff.CalculateExponentialBackoff` | retry_policy.go:148-179 | The policy's copy computes the same function as the exponential strategy |
| `Backoff.PolicyBackoff.CalculateDecorrelatedBackoff` | retry_policy.go:181-223 | The policy's copy computes the same function as the decorrelated strategy |
| `Backoff.UnjitteredGrows` | internal/backoff/strategy.go:20-33 | Before jitter the delay is initial * multiplier^min(attempt, 30) rounded down and cut off at max, at least initial, and never falls with the attempt |
| `Backoff.UnjitteredMultiplies` | internal/backoff/strategy.go:20-33 | With a whole multiplier k the delay before jitter is initial for the first attempt, then k times the one before up to max, and constant from the 30th on |
| `Backoff.ExponentialMultiplies` | internal/backoff/strategy.go:20-46 | Without jitter so is the whole delay |
| `Backoff.ExponentialRange` | internal/backoff/strategy.go:35-46 | The delay after jitter is the delay before it plus the drawn part of its clamped fraction, rounded down and cut off at max, so it only lengthens |
| `Backoff.ExponentialCapped` | internal/backoff/strategy.go:20-46 | Whatever the attempt, initial delay, multiplier and jitter, the exponential delay lies in [0, max] |
| `Backoff.DecorrelatedRange` | internal/backoff/strategy.go:53-95 | The decorrelated delay lies in [initial, max], drawn from a range whose top is initial * 3^min(attempt, 10) cut off at max |
| `Backoff.UpperTriples` | internal/backoff/strategy.go:62-83 | The top of the range is three times initial, then three times as high each attempt up to max, and constant from the 10th on |
| `Backoff.DecorrelatedCapped` | internal/backoff/strategy.go:58-60 | The decorrelated delay is within max exactly when initial is or the attempt is not the first |
| `Backoff.ExponentialMeaning` | internal/backoff/strategy.go:20-46 | An exponential delay is the one before jitter and the drawn part of the fraction of it that is jitter, up to max |
| `Backoff.DecorrelatedMeaning` | internal/backoff/strategy.go:53-95 | A decorrelated delay is initial and the drawn part of the gap up to the top of its range |
| `Backoff.StrategyDecides` | client.go:495-508 | Any strategy but the decorrelated one is exponential |
| `RetryLoop.DefaultRetryPolicy.ShouldRetry` | retry_policy.go:56-92 | The policy decides and delays as specified, preferring the server's Retry-After |
| `RetryLoop.DelayDecided` | retry_policy.go:75-91 | Under the default policy a retried response with a Retry-After is retried after just that delay; every other retry waits as the strategy says |
| `RetryLoop.DecideExamples` | retry_policy.go:56-91 | A GET answered 429 waits for its Retry-After; a POST answered 200 is not sent again |
| `RetryLoop.IdempotentMethods` | retry_policy.go:95-102 | GET, HEAD, PUT, DELETE and OPTIONS are idempotent, and no other method |
| `RetryLoop.Client.CheckRetry` | client.go:437-448 | The loop asks the policy if there is one and otherwise the retry condition, bounded by maxRetries |
| `RetryLoop.Client.AttemptOnce` | client.go:340-475 | One pass of the loop asks limiter, breaker, transport, decider and budget in this order and stops at the first refusal |
| `RetryLoop.Client.DoWithRetry` | client.go:340-475 | The recursion with real limiter, breaker and budget objects computes the specified run and terminates |
| `RetryLoop.Accounts` | client.go:340-475 | Over any sequence of requests each component answers as its own run makes it answer and stands where that would leave it, limiter grants are sends and breaker rejections together, and budget grants are the retries scheduled |
| `RetryLoop.SendsWithinRate` | client.go:343-365 | The requests a client has sent by any time are at most maxTokens + elapsed/refillRate |
| `RetryLoop.SendsWithinWindow` | client.go:343-365 | Between any two moments of a run the client sends at most maxTokens + length/refillRate + 1 requests, and one more if a request that the limiter let through was not yet sent when the window began |
| `RetryLoop.SendsBetweenRequests` | client.go:343-365 | In any window that begins and ends between two requests that one more is not needed |
| `RetryLoop.RetriesWithinBudget` | client.go:450-467 | The retries a client has scheduled by any time are at most maxRetries * (elapsed/perWindow + 1) |
| `RetryLoop.SendsBounded` | client.go:340-475 | One request is sent at most max(0, maxRetries) + 1 times |
| `RetryLoop.FailingRequest` | client.go:340-475 | That bound is reached when every reply is one that the policy retries, such as a failure without a response, for requests of any method |
| `RetryLoop.RequestPaired` | client.go:405-435 | Each send is followed at once by exactly one record at the breaker, a failure or a success as the reply asks |
| `RetryLoop.ResultExplained` | client.go:340-475 | A request ends with the refusal that stopped it or with the reply to its last send |
| `RetryTrace.RequestTraced` | client.go:340-475 | Every event of a request follows from the ones before: limiter, breaker, transport, record, then budget and retry only if the decider says so for that reply and attempt, with its delay; and the request ends with a refusal, or with a reply that the decider does not retry |
| `RetryTrace.RetriesWarranted` | client.go:437-474 | Each retry follows a reply for which the decider, asked for that attempt, gave just that delay |
| `RetryTrace.LastReply` | client.go:437-474 | A reply that the policy or the retry condition does not retry ends the request, and is its result |
| `RetryTrace.RetriesHappen` | client.go:437-474 | A reply that it does retry is followed by a retry while attempts remain, unless the budget refuses |
| `RetryLoop.RetriesRetryable` | retry_policy.go:56-78 | The policy retries, while attempts remain, exactly the failures and the statuses 429 and from 500 up that come without a response or with one whose own request is idempotent |
| `RetryLoop.FinalVerbIdempotent` | client.go:477-480 | Under the redirect rule of the HTTP client a chain of redirects ends in an idempotent request exactly if it began with one or a 301, 302 or 303 turned it into a GET |
| `RetryLoop.NonIdempotentRetried` | retry_policy.go:61-74 | A request whose method is not idempotent is retried, while attempts remain, exactly if it failed without any response, or a redirect turned it into a GET and that failed or got status 429 or one from 500 up |
| `RetryLoop.PostRetried` | retry_policy.go:61-74 | A POST is retried after an error without a response, and after a 303 that led to a GET answered with 503 |
| `RetryLoop.PoliciesCompared` | retry_policy.go:66-78 | For a reply without a response, or whose own request is idempotent, the default policy retries exactly what the default retry condition does, and status 429 besides, with the same delay unless the server asks for one |
| `RetryLoop.DelaysBounded` | retry_policy.go:86-91 | Every delay lies in [0, maxBackoff] unless it is the one the server asked for |

## Left out

- Concurrency inside the optimized cache, the original limiter, the original breaker, the retry budget and `doWithRetry`: their windows between unlocked reads and writes break the properties proved here, which hold for one caller at a time. `Get` of the optimized cache is taken as atomic though it changes locks at cache_optimized.go:168-173.
- The limiter registry (rate_limiter_registry.go): the loop has one optional limiter.
- SetRate, Reset, GetStats and MemoryFootprint: they break the accounts' starting point or only read.
- Cache providers, HTTP caching rules, date, Cache-Control and Retry-After parsing: text handling; a parsed Retry-After is part of a reply.
- Middleware, transport, metrics, logging, options, validation and error texts: a reply is an error, perhaps with a response, or a response; a transport that returns neither is excluded, as its interface demands.
- User-supplied retry policies: nothing bounds their retries. The legacy retry condition is an arbitrary function.
- The rest of Client.Do: what the cache lookup finds and what the request returns are choices of the environment.
- Hash functions and key building: any function of the key. The deduplication key computed on completion (client.go:333) is taken to be the one computed on entry (client.go:170); a key function or a middleware that changes it leaves the entry open.
- Redirects: the rule that 301, 302 and 303 turn a method other than GET and HEAD into GET, and 307 and 308 keep it, is that of the HTTP client of Go's standard library, as is that a response carries the last request of the chain.
- Machine integers are unbounded: counters that overflow, and `nextPowerOf2` for arguments above 2^62, are not modelled.
- Floating point: products and powers are exact reals; a conversion to a duration truncates, and out-of-range conversions are not modelled. The cache's eviction threshold is an integer parameter, the integer part of 0.85 * maxSize.
- The fields of a cached entry that pass through unchanged, such as staleAt, lastModified and maxAge.
- Functions that panic inside single-flight, and progress of goroutines: only safety is stated.
- OptimizedRateLimiter.OptimizedRateLimiter.Reserve: states whether a token is taken, not the waiting time returned otherwise.
- OptimizedCache.Shard.Set: an existing entry leaves the map before the new one enters, where the code overwrites the slot in one assignment; the state after the call is the same.
