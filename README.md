# Keyed lock registry, modelled in Dafny

This project models a keyed mutual-exclusion registry (package
`br.com.mateus.concurrencytransaction`). Callers lock an entity (a key) with
`block` and unlock it with `unblock`. The registry keeps one single-permit
semaphore per key, created lazily by the first thread that blocks the key.
That thread becomes the key's owner: it never blocks or fails on its own key.
In the model, where each call is one atomic step, other threads either queue
(`WAIT`) or fail at once (`ERROR`); the source's fail-fast path can queue instead
(second row under "## Findings"). Releasing a key
gives its permit back and evicts the entry when nobody is queued on it.

Each public call is one atomic transition of explicit state. The calling
thread is a `ThreadName` argument on every operation.

- `policy.dfy` (module `Policy`) holds the two enumerations `ConcurrencyAction`
  (`Wait`, `Error`) and `ConcurrencyUnblock` (`BeforeCommit`, `AfterCompletion`).
- `semaphore.dfy` (module `Semaphore`) holds one key's lock. `SemState` is its
  value: owner name, permit count and the queue of waiting threads. Thread names
  need not be unique, so the queue is a multiset of names: two queued threads with
  the same name are two entries. The functions
  `AcquireStep`, `BruteAcquireStep`, `Released` and `ResumeStep` specify the
  transitions. Class `ConcurrencySemaphore` updates those fields in place, and
  each of its methods is proved against the matching function. The permit
  count is a `nat`, so every decrement is checked against the guard before it.
  This is how the model proves that permits never go negative.
- `transaction.dfy` (module `Transaction`) holds the registry. `Table<K>` is
  its abstract value: a map from key to `SemState`. The functions `BlockStep`,
  `UnblockStep`, `BlockListStep` and `UnblockListStep` specify the operations,
  and lemmas state their properties. Class `ConcurrencyTransaction<K>` keeps the
  key → semaphore-object map as a field. Its methods are proved to move
  `Table()` exactly as the specification functions say. `Valid()` requires
  distinct keys to hold distinct semaphore objects.

A blocking `acquire` that has to wait is modelled as "the caller joins the
waiter queue, outcome `Waiting`". A separate `Resume` step wakes a queued thread
once a permit is free. The registry's single exception
(`ConcurrencyTransactionException`) is the outcome `Conflict`.

## Model

| member | source | states |
|---|---|---|
| Semaphore.AcquireStep | src/main/java/br/com/mateus/concurrencytransaction/ConcurrencySemaphore.java:17-23 | A blocking acquire never fails. The owner never waits. The caller waits exactly when it is not the owner and no permit is free, and then one entry under its name is added to the queue. Otherwise one permit is taken if one is free. |
| Semaphore.BruteAcquireStep | src/main/java/br/com/mateus/concurrencytransaction/ConcurrencySemaphore.java:25-35 | A fail-fast acquire never queues. The owner never fails. It fails exactly when the caller is not the owner and no permit is free, and a failure leaves the state unchanged. Otherwise one permit is taken if one is free. |
| Semaphore.ResumeStep | src/main/java/br/com/mateus/concurrencytransaction/ConcurrencySemaphore.java:20-22 | A queued thread gets through only when it is queued and a permit is free. It then holds one permit and one queue entry under its name is removed; otherwise nothing changes. |
| Semaphore.ReleasedTimes | src/main/java/br/com/mateus/concurrencytransaction/ConcurrencySemaphore.java:37-39 | n releases add exactly n permits with no cap and keep the owner and waiters, so releases can exceed the initial single permit. |
| Semaphore.AcquireThenRelease | src/main/java/br/com/mateus/concurrencytransaction/ConcurrencySemaphore.java:17-39 | When a permit is free, either acquire followed by one release restores the semaphore exactly. |
| Semaphore.SplitBruteAcquireInterleaving | src/main/java/br/com/mateus/concurrencytransaction/ConcurrencySemaphore.java:25-35 | Two fail-fast acquires with each non-owner's permit check and its blocking acquire as separate steps, both checks first. A call fails exactly when its caller is not the owner and no permit was free at its check. The owner never changes. |
| Semaphore.FailFastCheckRaceParks | src/main/java/br/com/mateus/concurrencytransaction/ConcurrencySemaphore.java:29-30 | With one free permit, two non-owners both pass the check. One takes the permit and the other is queued, so a fail-fast call waits instead of failing. |
| Semaphore.FailFastAtomicRefuses | src/main/java/br/com/mateus/concurrencytransaction/ConcurrencySemaphore.java:25-35 | With the check and the acquire as one step, the same two calls give one success and one conflict, and nobody is queued. |
| Semaphore.ConcurrencySemaphore.constructor | src/main/java/br/com/mateus/concurrencytransaction/ConcurrencySemaphore.java:7-15 | A new semaphore has exactly one permit, no waiters, and the constructing thread's name as owner. |
| Semaphore.ConcurrencySemaphore.IsSameThread | src/main/java/br/com/mateus/concurrencytransaction/ConcurrencySemaphore.java:45-47 | The owner test is true exactly when the caller's name equals the recorded owner name. |
| Semaphore.ConcurrencySemaphore.HasQueuedThreads | src/main/java/br/com/mateus/concurrencytransaction/ConcurrencySemaphore.java:41-43 | True exactly when at least one thread is queued. |
| Semaphore.ConcurrencySemaphore.TryAcquire | src/main/java/br/com/mateus/concurrencytransaction/ConcurrencySemaphore.java:19 | Takes a permit exactly when one is free and reports whether it did; never waits. |
| Semaphore.ConcurrencySemaphore.Acquire | src/main/java/br/com/mateus/concurrencytransaction/ConcurrencySemaphore.java:17-23 | The outcome and the new fields are those of AcquireStep on the old fields. |
| Semaphore.ConcurrencySemaphore.BruteAcquire | src/main/java/br/com/mateus/concurrencytransaction/ConcurrencySemaphore.java:25-35 | The outcome and the new fields are those of BruteAcquireStep on the old fields. |
| Semaphore.ConcurrencySemaphore.Release | src/main/java/br/com/mateus/concurrencytransaction/ConcurrencySemaphore.java:37-39 | Permits go up by exactly one and nothing else changes. There is no ownership check. |
| Semaphore.ConcurrencySemaphore.Resume | src/main/java/br/com/mateus/concurrencytransaction/ConcurrencySemaphore.java:20-22 | The outcome and the new fields are those of ResumeStep on the old fields. |
| Transaction.InsertIfAbsent | src/main/java/br/com/mateus/concurrencytransaction/ConcurrencyTransaction.java:115-126 | Afterwards the key is present. A present key leaves the table unchanged. An absent key gets a semaphore with 1 permit, no waiters and the caller as owner, and every other entry is unchanged. |
| Transaction.BlockStep | src/main/java/br/com/mateus/concurrencytransaction/ConcurrencyTransaction.java:72-93 | Only key k changes, and k is present afterwards. It fails exactly under `Error` when a non-owner finds no free permit, and a failure leaves the table unchanged. It queues exactly under `Wait` in the same situation. On an absent key it always succeeds, with the caller as owner holding the single permit. |
| Transaction.UnblockStep | src/main/java/br/com/mateus/concurrencytransaction/ConcurrencyTransaction.java:128-139 | An absent key is a no-op. A present key gets exactly one more permit and is evicted exactly when no thread is queued on it. Other keys are untouched. |
| Transaction.ResumeOnKey | src/main/java/br/com/mateus/concurrencytransaction/ConcurrencySemaphore.java:20-22 | A queued thread on key k gets through exactly when a permit is free. It takes one permit and one queue entry under its name is removed; otherwise the table is unchanged. |
| Transaction.BlockListStep | src/main/java/br/com/mateus/concurrencytransaction/ConcurrencyTransaction.java:40-43 | A list block never queues and never removes a key. Keys outside the list are untouched. On success every listed key is present. |
| Transaction.UnblockListStep | src/main/java/br/com/mateus/concurrencytransaction/ConcurrencyTransaction.java:169-172 | Keys outside the list are untouched. A listed key remains exactly when it was present with a non-empty queue. Owners and queues never change. |
| Transaction.BlockListAppend | src/main/java/br/com/mateus/concurrencytransaction/ConcurrencyTransaction.java:40-43 | Blocking xs + ys equals blocking xs and then, unless that failed, blocking ys from the resulting table. |
| Transaction.BlockListStopsAtConflict | src/main/java/br/com/mateus/concurrencytransaction/ConcurrencyTransaction.java:40-43 | A conflict at element i fails the whole call. The table is left exactly as blocking the elements before i left it, and later elements are not touched. |
| Transaction.BlockListByOwner | src/main/java/br/com/mateus/concurrencytransaction/ConcurrencyTransaction.java:40-43 | A thread blocking keys that are absent or its own with empty queues always succeeds. Every listed key is then present, owned by it, with an empty queue. |
| Transaction.UnblockListEvictsIdle | src/main/java/br/com/mateus/concurrencytransaction/ConcurrencyTransaction.java:169-172 | Unblocking keys with empty queues removes exactly those keys from the table. |
| Transaction.BlockListUnblockListRoundTrip | src/main/java/br/com/mateus/concurrencytransaction/ConcurrencyTransaction.java:40-43 | Blocking then unblocking a list of free keys (duplicates allowed) succeeds and restores the original table. |
| Transaction.BlockUnblockRoundTrip | src/main/java/br/com/mateus/concurrencytransaction/ConcurrencyTransaction.java:128-139 | Blocking a free key under either policy and then unblocking it restores the original table, so no entry is left behind. |
| Transaction.UnblockListAbsent | src/main/java/br/com/mateus/concurrencytransaction/ConcurrencyTransaction.java:169-172 | Unblocking keys that have no entry changes nothing and does not fail. |
| Transaction.OwnerNeverQueuedPreserved | src/main/java/br/com/mateus/concurrencytransaction/ConcurrencySemaphore.java:17-23 | Block, unblock, resume and list unblock all keep every key's owner out of that key's waiter queue. |
| Transaction.BlockListKeepsOwnerNeverQueued | src/main/java/br/com/mateus/concurrencytransaction/ConcurrencyTransaction.java:40-43 | List block keeps every key's owner out of that key's waiter queue. |
| Transaction.EventStep | src/main/java/br/com/mateus/concurrencytransaction/ConcurrencySemaphore.java:17-35 | One block call or wake-up on a key keeps the entry and its owner and never adds a permit; a non-owner block call that returns normally, and any wake-up that succeeds, takes exactly one permit. |
| Transaction.NonOwnerEntriesBounded | src/main/java/br/com/mateus/concurrencytransaction/ConcurrencySemaphore.java:17-35 | Mutual exclusion: in any run of events on one key with no release between them, block calls and wake-ups of queued threads alike, the non-owner threads that get in number at most the free permits at the start. |
| Transaction.FirstBlockerExcludesOthers | src/main/java/br/com/mateus/concurrencytransaction/ConcurrencyTransaction.java:76-86 | Once a thread has blocked a free key, no other thread gets in until a release: no other block call returns normally, and no queued thread wakes up. |
| Transaction.FailFastHandOver | src/main/java/br/com/mateus/concurrencytransaction/ConcurrencyTransaction.java:72-139 | The fail-fast scenario. t1 takes a free key and t2 is refused. t1's release evicts the entry, after which t2 takes the key as its new owner. |
| Transaction.WaitHandOver | src/main/java/br/com/mateus/concurrencytransaction/ConcurrencyTransaction.java:72-139 | The waiting scenario. t2 queues behind t1 and is not woken before t1 releases. The release keeps the entry because t2 is queued. t2 then gets the permit, and t2's release evicts the entry. |
| Transaction.SameNameWaitersKeepEntry | src/main/java/br/com/mateus/concurrencytransaction/ConcurrencyTransaction.java:128-139 | Two distinct queued threads that share a name are both counted. After one is woken, the next release keeps the entry because the other is still queued. |
| Transaction.SplitBlockInterleaving | src/main/java/br/com/mateus/concurrencytransaction/ConcurrencyTransaction.java:76-86 | Two fail-fast block calls with lookup and acquire as separate steps: t2's lookup, t3's lookup, t3's acquire, then t2's acquire. Neither call queues. The key's owner is the existing owner or, for a free key, the first to look it up, and the queue is unchanged. |
| Transaction.CreationRaceAdmitsTwo | src/main/java/br/com/mateus/concurrencytransaction/ConcurrencyTransaction.java:72-93 | With `block`'s lookup and acquire interleaved as the source allows, two fail-fast calls on a free key both return normally. A non-owner holds the only permit while the owner also returns. |
| Transaction.ConcurrencyTransaction.constructor | src/main/java/br/com/mateus/concurrencytransaction/ConcurrencyTransaction.java:27 | A new registry is empty. |
| Transaction.ConcurrencyTransaction.GetOrInsert | src/main/java/br/com/mateus/concurrencytransaction/ConcurrencyTransaction.java:115-126 | A present key returns its existing semaphore and leaves the map unchanged. An absent key inserts a fresh semaphore and leaves every other entry unchanged. The table moves as InsertIfAbsent says. |
| Transaction.ConcurrencyTransaction.RemoveAndRelease | src/main/java/br/com/mateus/concurrencytransaction/ConcurrencyTransaction.java:128-139 | The table moves as UnblockStep says. No semaphore object is added. |
| Transaction.ConcurrencyTransaction.Block | src/main/java/br/com/mateus/concurrencytransaction/ConcurrencyTransaction.java:72-93 | The outcome and the new table are those of BlockStep, whatever the unblock mode. |
| Transaction.ConcurrencyTransaction.AcquireEntry | src/main/java/br/com/mateus/concurrencytransaction/ConcurrencyTransaction.java:78-86 | The policy's acquire runs on key k's semaphore. Its outcome and new state are those of the selected semaphore step, and no other entry changes. |
| Transaction.ConcurrencyTransaction.BlockDefault | src/main/java/br/com/mateus/concurrencytransaction/ConcurrencyTransaction.java:56-58 | It behaves as Block with policy `Error`, so as BlockStep with `Error`. |
| Transaction.ConcurrencyTransaction.Unblock | src/main/java/br/com/mateus/concurrencytransaction/ConcurrencyTransaction.java:151-157 | It never fails, and the table moves as UnblockStep says. |
| Transaction.ConcurrencyTransaction.Resume | src/main/java/br/com/mateus/concurrencytransaction/ConcurrencySemaphore.java:20-22 | The outcome and the new table are those of ResumeOnKey. |
| Transaction.ConcurrencyTransaction.BlockList | src/main/java/br/com/mateus/concurrencytransaction/ConcurrencyTransaction.java:40-43 | The loop's outcome and final table are those of BlockListStep, so it stops at the first conflict. |
| Transaction.ConcurrencyTransaction.UnblockList | src/main/java/br/com/mateus/concurrencytransaction/ConcurrencyTransaction.java:169-172 | The loop's final table is that of UnblockListStep. |

## Left out

- Real thread suspension, parking, wake-up order and fairness are not modelled. A blocked acquire is "caller joins the waiter queue", and `Resume` is the wake-up. Any queued thread may be resumed whenever a permit is free.
- Interruption of a waiting thread (`InterruptedException`) is not modelled. In the source it becomes the registry's error.
- The `synchronized` blocks and the synchronized map are not modelled. The registry lock makes only `getOrInsert` and `removeAndRelease` atomic. `block` runs its acquire after the lock is released, yet the model treats each `block` call as one atomic step. The interleavings this rules out are listed next, after the one inside `bruteAcquire`.
- Semaphore.BruteAcquireStep: the model makes `bruteAcquire`'s permit check and its acquire one step. In the source, a fail-fast non-owner whose check passed can still be queued in the blocking acquire, because another thread took the permit in between (see the findings below).
- A `block` whose lookup finds an entry that an `unblock` evicts before the acquire is not modelled. That caller acquires the orphaned semaphore while a later caller creates a fresh entry, so both get in.
- A waiter woken by a release is not modelled as leaving the queue in the background. In the source it leaves the queue outside the registry lock, so `hasQueuedThreads` can already be false while that waiter holds the permit. The model removes a waiter only in its `Resume` step.
- Transaction.NonOwnerEntriesBounded: the mutual exclusion it proves depends on each `block` call being one atomic step. The source does not guarantee that (see the finding below).
- Transaction.FirstBlockerExcludesOthers: the same dependence on atomic `block` calls. `Transaction.CreationRaceAdmitsTwo` shows the source's split steps letting a second thread in.
- `Thread.currentThread()` is replaced by an explicit thread-name argument.
- `registerSyncronization` is not modelled. Its body is commented out, so it does nothing: the unblock mode is accepted by `Block` and ignored. The transaction framework it would call is not part of this model.
- Exception messages and the exception class itself are left out. Every failure is the single outcome `Conflict`.
- Keys are values of a generic type compared with Dafny equality. The `equals`/`hashCode` behaviour of caller entities is not part of this model.
- A `null` action is not modelled. In the source such a call inserts the entry but takes no permit. Policies here are a two-valued datatype.
- A `null` list is not modelled. Lists are sequences, and an empty sequence does nothing, as a `null` or empty list does in the source.
- The registry is an explicitly constructed object, not a process-wide static map.
- Release is unbounded. `java.util.concurrent.Semaphore` throws an `Error` when the permit count would pass the largest `int`, and that overflow is not modelled.
- Transaction.NonOwnerEntriesBounded: mutual exclusion is stated for runs of block calls and wake-ups with no release in between; a release hands a permit on, which is what lets the next thread in. Holders are not tracked, so the model does not check that the thread releasing a key is the one that holds it, and neither does the source.

## Findings

| source | as written | input that shows it | evidently intended | confidence | as-written member | corrected member |
|---|---|---|---|---|---|---|
| src/main/java/br/com/mateus/concurrencytransaction/ConcurrencyTransaction.java:76-86 | `block` looks up or creates the entry under the registry lock, then acquires outside it. | A free key k. t2's lookup creates the entry owned by t2, then t3's lookup finds it. t3's fail-fast acquire takes the only permit. t2's owner try-acquire then fails silently. Both calls return normally. | The first thread to block a free key holds it, and any other thread's fail-fast block is refused until a release. | medium, not executed | Transaction.CreationRaceAdmitsTwo | Transaction.FirstBlockerExcludesOthers |
| src/main/java/br/com/mateus/concurrencytransaction/ConcurrencySemaphore.java:29-30 | A non-owner's fail-fast acquire checks for a free permit, then calls the blocking acquire. | One free permit and two non-owners t2 and t3. Both pass the check, t3 takes the permit, and t2 is queued instead of failing. | A fail-fast call never waits: it takes a free permit or fails at once. | medium, not executed | Semaphore.FailFastCheckRaceParks | Semaphore.FailFastAtomicRefuses |
