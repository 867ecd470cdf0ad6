/** The lock registry: a table from keys to their semaphores, with the two acquisition
    policies, the conditional remove-and-release, and the list variants. */
module Transaction {
  import opened Policy
  import opened Semaphore

  /** The abstract registry: each present key with the state of its semaphore. */
  type Table<K(==)> = map<K, SemState>

  /** The outcome of one registry call together with the table it leaves behind. */
  datatype RegStep<K(==)> = RegStep(outcome: Outcome, table: Table<K>)

  /** One event on a key: a block call by a thread with a policy, or the wake-up of a
      queued thread. */
  datatype Event = Blk(thread: ThreadName, action: ConcurrencyAction) | Res(thread: ThreadName)

  // ---------------------------------------------------------------------------------------
  // Specification of single-key operations
  // ---------------------------------------------------------------------------------------

  /** Lookup-or-create: a missing key gets a new semaphore owned by the caller. */
  function InsertIfAbsent<K(==)>(tb: Table<K>, k: K, t: ThreadName): (r: Table<K>)
    ensures k in r
    ensures k in tb ==> r == tb
    ensures k !in tb ==> r[k] == SemState(t, 1, multiset{}) && r - {k} == tb
  {
    if k in tb then tb else tb[k := Created(t)]
  }

  /** The semaphore call a policy selects. */
  function PolicyStep(s: SemState, t: ThreadName, action: ConcurrencyAction): Step
  {
    match action
    case Error => BruteAcquireStep(s, t)
    case Wait => AcquireStep(s, t)
  }

  /** Block with a policy: look up or create the key's semaphore, then acquire it. */
  function BlockStep<K(==)>(tb: Table<K>, k: K, t: ThreadName, action: ConcurrencyAction): (r: RegStep<K>)
    ensures k in r.table
    ensures r.table - {k} == tb - {k}
    ensures r.outcome == Conflict <==> action == Error && k in tb && t != tb[k].owner && tb[k].permits == 0
    ensures r.outcome == Waiting <==> action == Wait && k in tb && t != tb[k].owner && tb[k].permits == 0
    ensures r.outcome == Conflict ==> r.table == tb
    ensures k !in tb ==> r.outcome == Ok && r.table[k] == SemState(t, 0, multiset{})
    ensures k in tb ==> r.table[k].owner == tb[k].owner
    ensures k in tb ==> r.table[k].permits == if tb[k].permits > 0 then tb[k].permits - 1 else 0
    ensures k in tb ==> r.table[k].waiters == if r.outcome == Waiting then tb[k].waiters + multiset{t} else tb[k].waiters
  {
    var tb1 := InsertIfAbsent(tb, k, t);
    var st := PolicyStep(tb1[k], t, action);
    RegStep(st.outcome, tb1[k := st.next])
  }

  /** Remove-and-release: a present key gets one more permit and is evicted unless a thread
      is queued on it; an absent key is left alone. */
  function UnblockStep<K(==)>(tb: Table<K>, k: K): (r: Table<K>)
    ensures k !in tb ==> r == tb
    ensures r - {k} == tb - {k}
    ensures k in tb ==> (k in r <==> tb[k].waiters != multiset{})
    ensures k in r ==> k in tb && r[k] == tb[k].(permits := tb[k].permits + 1)
  {
    if k !in tb then tb
    else
      var s := Released(tb[k]);
      if s.waiters != multiset{} then tb[k := s] else tb - {k}
  }

  /** Wake-up of thread t queued on key k. */
  function ResumeOnKey<K(==)>(tb: Table<K>, k: K, t: ThreadName): (r: RegStep<K>)
    ensures r.outcome != Conflict
    ensures r.outcome == Ok <==> k in tb && t in tb[k].waiters && tb[k].permits > 0
    ensures r.outcome == Waiting ==> r.table == tb
    ensures r.outcome == Ok ==> r.table == tb[k := SemState(tb[k].owner, tb[k].permits - 1, tb[k].waiters - multiset{t})]
  {
    if k !in tb then RegStep(Waiting, tb)
    else
      var st := ResumeStep(tb[k], t);
      if st.outcome == Ok then RegStep(Ok, tb[k := st.next]) else RegStep(Waiting, tb)
  }

  // ---------------------------------------------------------------------------------------
  // Specification of the list operations
  // ---------------------------------------------------------------------------------------

  /** Blocks every key in order with the fail-fast policy, stopping at the first conflict. */
  function BlockListStep<K(==)>(tb: Table<K>, ks: seq<K>, t: ThreadName): (r: RegStep<K>)
    ensures r.outcome != Waiting
    ensures forall k :: k in tb ==> k in r.table
    ensures forall k :: k in tb && k !in ks ==> r.table[k] == tb[k]
    ensures forall k :: k in r.table && k !in ks ==> k in tb
    ensures r.outcome == Ok ==> forall k :: k in ks ==> k in r.table
    decreases |ks|
  {
    if ks == [] then RegStep(Ok, tb)
    else
      var r := BlockStep(tb, ks[0], t, Error);
      if r.outcome == Conflict then r else BlockListStep(r.table, ks[1..], t)
  }

  /** Unblocks every key in order; never fails. */
  function UnblockListStep<K(==)>(tb: Table<K>, ks: seq<K>): (r: Table<K>)
    ensures forall k :: k in tb && k !in ks ==> k in r && r[k] == tb[k]
    ensures forall k :: k in ks ==> (k in r <==> k in tb && tb[k].waiters != multiset{})
    ensures forall k :: k in r ==> k in tb && r[k].owner == tb[k].owner && r[k].waiters == tb[k].waiters
    decreases |ks|
  {
    if ks == [] then tb else UnblockListStep(UnblockStep(tb, ks[0]), ks[1..])
  }

  // ---------------------------------------------------------------------------------------
  // Properties
  // ---------------------------------------------------------------------------------------

  /** Blocking a list in two parts is blocking the first part and, if that did not fail,
      the second part from where the first left off. */
  lemma {:induction false} BlockListAppend<K>(tb: Table<K>, xs: seq<K>, ys: seq<K>, t: ThreadName)
    ensures BlockListStep(tb, xs + ys, t) ==
      var r := BlockListStep(tb, xs, t);
      if r.outcome == Conflict then r else BlockListStep(r.table, ys, t)
    decreases |xs|
  {
    if xs == [] {
      assert xs + ys == ys;
    } else {
      assert (xs + ys)[0] == xs[0];
      assert (xs + ys)[1..] == xs[1..] + ys;
      var r := BlockStep(tb, xs[0], t, Error);
      if r.outcome != Conflict {
        BlockListAppend(r.table, xs[1..], ys, t);
      }
    }
  }

  /** A conflict at element i leaves the table exactly as blocking the elements before i
      left it: those stay blocked and the elements after i are never touched. */
  lemma BlockListStopsAtConflict<K>(tb: Table<K>, ks: seq<K>, t: ThreadName, i: nat)
    requires i < |ks|
    requires BlockListStep(tb, ks[..i], t).outcome == Ok
    requires BlockStep(BlockListStep(tb, ks[..i], t).table, ks[i], t, Error).outcome == Conflict
    ensures BlockListStep(tb, ks, t) == RegStep(Conflict, BlockListStep(tb, ks[..i], t).table)
  {
    assert ks == ks[..i] + ks[i..];
    BlockListAppend(tb, ks[..i], ks[i..], t);
  }

  /** A thread blocking keys that are absent or already its own, with nobody queued on them,
      always succeeds and leaves all of them present, owned by it, with nobody queued. */
  lemma {:induction false} BlockListByOwner<K>(tb: Table<K>, ks: seq<K>, t: ThreadName)
    requires forall k :: k in ks && k in tb ==> tb[k].owner == t && tb[k].waiters == multiset{}
    ensures BlockListStep(tb, ks, t).outcome == Ok
    ensures forall k :: k in ks ==>
      k in BlockListStep(tb, ks, t).table &&
      BlockListStep(tb, ks, t).table[k].owner == t &&
      BlockListStep(tb, ks, t).table[k].waiters == multiset{}
    decreases |ks|
  {
    if ks != [] {
      var r := BlockStep(tb, ks[0], t, Error);
      BlockListByOwner(r.table, ks[1..], t);
      var r2 := BlockListStep(r.table, ks[1..], t);
      forall k | k in ks
        ensures k in r2.table && r2.table[k].owner == t && r2.table[k].waiters == multiset{}
      {
        if k !in ks[1..] {
          assert k == ks[0];
        }
      }
    }
  }

  /** Releasing a list of keys nobody is queued on evicts exactly those keys. */
  lemma UnblockListEvictsIdle<K>(tb: Table<K>, ks: seq<K>)
    requires forall k :: k in ks && k in tb ==> tb[k].waiters == multiset{}
    ensures UnblockListStep(tb, ks) == tb - (set k | k in ks)
  {
  }

  /** Blocking then unblocking a list of free keys returns the registry to where it was:
      no entry outlives the interest in it. */
  lemma BlockListUnblockListRoundTrip<K>(tb: Table<K>, ks: seq<K>, t: ThreadName)
    requires forall k :: k in ks ==> k !in tb
    ensures BlockListStep(tb, ks, t).outcome == Ok
    ensures UnblockListStep(BlockListStep(tb, ks, t).table, ks) == tb
  {
    BlockListByOwner(tb, ks, t);
    var r := BlockListStep(tb, ks, t).table;
    UnblockListEvictsIdle(r, ks);
    var gone := set k | k in ks;
    assert (r - gone).Keys == tb.Keys;
  }

  /** Blocking a free key and unblocking it again leaves the registry as it was. */
  lemma BlockUnblockRoundTrip<K>(tb: Table<K>, k: K, t: ThreadName, action: ConcurrencyAction)
    requires k !in tb
    ensures UnblockStep(BlockStep(tb, k, t, action).table, k) == tb
  {
  }

  /** Unblocking keys that have no entry changes nothing. */
  lemma UnblockListAbsent<K>(tb: Table<K>, ks: seq<K>)
    requires forall k :: k in ks ==> k !in tb
    ensures UnblockListStep(tb, ks) == tb
  {
  }

  /** No key's owner is ever queued on its own key. */
  ghost predicate OwnerNeverQueued<K>(tb: Table<K>)
  {
    forall k :: k in tb ==> tb[k].owner !in tb[k].waiters
  }

  /** Every registry operation keeps owners out of their own queues. */
  lemma OwnerNeverQueuedPreserved<K>(tb: Table<K>, k: K, t: ThreadName, action: ConcurrencyAction, ks: seq<K>)
    requires OwnerNeverQueued(tb)
    ensures OwnerNeverQueued(BlockStep(tb, k, t, action).table)
    ensures OwnerNeverQueued(UnblockStep(tb, k))
    ensures OwnerNeverQueued(ResumeOnKey(tb, k, t).table)
    ensures OwnerNeverQueued(UnblockListStep(tb, ks))
  {
  }

  /** Blocking a list keeps owners out of their own queues. */
  lemma {:induction false} BlockListKeepsOwnerNeverQueued<K>(tb: Table<K>, ks: seq<K>, t: ThreadName)
    requires OwnerNeverQueued(tb)
    ensures OwnerNeverQueued(BlockListStep(tb, ks, t).table)
    decreases |ks|
  {
    if ks != [] {
      var r := BlockStep(tb, ks[0], t, Error);
      OwnerNeverQueuedPreserved(tb, ks[0], t, Error, []);
      if r.outcome != Conflict {
        BlockListKeepsOwnerNeverQueued(r.table, ks[1..], t);
      }
    }
  }

  /** The effect of one event on key k. */
  function EventStep<K(==)>(tb: Table<K>, k: K, e: Event): (r: RegStep<K>)
    requires k in tb
    ensures k in r.table && r.table[k].owner == tb[k].owner
    ensures r.outcome == Ok && e.thread != tb[k].owner ==> r.table[k].permits == tb[k].permits - 1
    ensures r.outcome == Ok && e.Res? ==> r.table[k].permits == tb[k].permits - 1
    ensures r.table[k].permits <= tb[k].permits
  {
    match e
    case Blk(t, action) => BlockStep(tb, k, t, action)
    case Res(t) => ResumeOnKey(tb, k, t)
  }

  /** Number of events in a run on key k, with no release in between, that let a thread
      other than the key's owner in: a block call that returns normally, or a queued thread
      that wakes up holding a permit. */
  function NonOwnerEntries<K(==)>(tb: Table<K>, k: K, events: seq<Event>): nat
    requires k in tb
    decreases |events|
  {
    if events == [] then 0
    else
      var e := events[0];
      var r := EventStep(tb, k, e);
      (if r.outcome == Ok && e.thread != tb[k].owner then 1 else 0) + NonOwnerEntries(r.table, k, events[1..])
  }

  /** Mutual exclusion among non-owners: without a release, no more threads other than the
      owner get in, by blocking or by waking up, than there were free permits. */
  lemma {:induction false} NonOwnerEntriesBounded<K>(tb: Table<K>, k: K, events: seq<Event>)
    requires k in tb
    ensures NonOwnerEntries(tb, k, events) <= tb[k].permits
    decreases |events|
  {
    if events != [] {
      var r := EventStep(tb, k, events[0]);
      NonOwnerEntriesBounded(r.table, k, events[1..]);
    }
  }

  /** Once a thread has blocked a free key, no other thread gets in, neither by blocking nor
      by waking up from the queue, until a release. */
  lemma FirstBlockerExcludesOthers<K>(tb: Table<K>, k: K, t: ThreadName, action: ConcurrencyAction, events: seq<Event>)
    requires k !in tb
    ensures NonOwnerEntries(BlockStep(tb, k, t, action).table, k, events) == 0
  {
    NonOwnerEntriesBounded(BlockStep(tb, k, t, action).table, k, events);
  }

  /** The fail-fast scenario: t1 takes a free key, t2 is refused, t1 releases and the key is
      evicted, after which t2 takes the key as its new owner. */
  lemma FailFastHandOver<K>(tb: Table<K>, k: K, t1: ThreadName, t2: ThreadName)
    requires k !in tb && t1 != t2
    ensures
      var a := BlockStep(tb, k, t1, Error);
      var b := BlockStep(a.table, k, t2, Error);
      var c := UnblockStep(b.table, k);
      var d := BlockStep(c, k, t2, Error);
      a.outcome == Ok && b.outcome == Conflict && c == tb &&
      d.outcome == Ok && d.table[k] == SemState(t2, 0, multiset{})
  {
  }

  /** The waiting scenario: t2 queues behind t1, is not woken before t1 releases, the release
      keeps the entry because t2 is queued, t2 then gets the permit, and t2's release evicts. */
  lemma WaitHandOver<K>(tb: Table<K>, k: K, t1: ThreadName, t2: ThreadName)
    requires k !in tb && t1 != t2
    ensures
      var a := BlockStep(tb, k, t1, Error);
      var b := BlockStep(a.table, k, t2, Wait);
      var early := ResumeOnKey(b.table, k, t2);
      var c := UnblockStep(b.table, k);
      var d := ResumeOnKey(c, k, t2);
      var e := UnblockStep(d.table, k);
      b.outcome == Waiting && early.outcome == Waiting &&
      k in c && c[k].permits == 1 &&
      d.outcome == Ok && k !in e && e == tb
  {
  }

  /** Two distinct threads that share a name both queue: after the owner's release one of
      them is woken, and the next release still keeps the entry for the other. */
  lemma SameNameWaitersKeepEntry<K>(tb: Table<K>, k: K, owner: ThreadName, a: ThreadName)
    requires k !in tb && owner != a
    ensures
      var held := BlockStep(tb, k, owner, Error).table;
      var q1 := BlockStep(held, k, a, Wait);
      var q2 := BlockStep(q1.table, k, a, Wait);
      var released := UnblockStep(q2.table, k);
      var woken := ResumeOnKey(released, k, a);
      var again := UnblockStep(woken.table, k);
      q1.outcome == Waiting && q2.outcome == Waiting &&
      woken.outcome == Ok && k in again && again[k].waiters == multiset{a}
  {
  }

  /** Two fail-fast block calls on a free key, interleaved as the source allows: each lookup
      runs under the registry lock and each acquire after it. t2's lookup creates the entry,
      t3's lookup finds it, t3 acquires, then t2 acquires. Gives t2's outcome, t3's outcome
      and the key's final semaphore state. */
  function SplitBlockInterleaving<K(==)>(tb: Table<K>, k: K, t2: ThreadName, t3: ThreadName): (r: (Outcome, Outcome, SemState))
    ensures r.0 != Waiting && r.1 != Waiting
    ensures r.2.owner == if k in tb then tb[k].owner else t2
    ensures r.2.waiters == if k in tb then tb[k].waiters else multiset{}
  {
    var looked := InsertIfAbsent(InsertIfAbsent(tb, k, t2), k, t3);
    var byT3 := BruteAcquireStep(looked[k], t3);
    var byT2 := BruteAcquireStep(byT3.next, t2);
    (byT2.outcome, byT3.outcome, byT2.next)
  }

  /** With lookup and acquire split, both calls return normally: t3 holds the only permit as
      a non-owner while t2, the owner, returns as if it held the key too. */
  lemma CreationRaceAdmitsTwo<K>(tb: Table<K>, k: K, t2: ThreadName, t3: ThreadName)
    requires k !in tb && t2 != t3
    ensures
      var r := SplitBlockInterleaving(tb, k, t2, t3);
      r.0 == Ok && r.1 == Ok && r.2 == SemState(t2, 0, multiset{})
  {
  }

  // ---------------------------------------------------------------------------------------
  // The registry object
  // ---------------------------------------------------------------------------------------

  /** The registry: a map from keys to semaphore objects, updated in place. */
  class ConcurrencyTransaction<K(==)> {
    var semaphores: map<K, ConcurrencySemaphore>

    /** Distinct keys never share a semaphore object. */
    ghost predicate Valid()
      reads this
    {
      forall k1, k2 :: k1 in semaphores && k2 in semaphores && k1 != k2 ==> semaphores[k1] != semaphores[k2]
    }

    /** The abstract value of the registry. */
    ghost function Table(): Table<K>
      reads this, semaphores.Values
    {
      map k | k in semaphores :: semaphores[k].State()
    }

    /** An empty registry. */
    constructor ()
      ensures Valid() && Table() == map[]
    {
      semaphores := map[];
    }

    /** Returns the key's semaphore, creating and inserting one owned by t if the key is absent. */
    method GetOrInsert(k: K, t: ThreadName) returns (sem: ConcurrencySemaphore)
      requires Valid()
      modifies this
      ensures Valid()
      ensures k in semaphores && sem == semaphores[k]
      ensures k in old(semaphores) ==> sem == old(semaphores)[k] && semaphores == old(semaphores)
      ensures k !in old(semaphores) ==> fresh(sem) && semaphores == old(semaphores)[k := sem]
      ensures Table() == InsertIfAbsent(old(Table()), k, t)
    {
      if k in semaphores {
        sem := semaphores[k];
      } else {
        sem := new ConcurrencySemaphore(t);
        semaphores := semaphores[k := sem];
      }
    }

    /** Releases a present key's semaphore and evicts the key unless a thread is queued on it. */
    method RemoveAndRelease(k: K)
      requires Valid()
      modifies this, semaphores.Values
      ensures Valid()
      ensures semaphores.Values <= old(semaphores.Values)
      ensures Table() == UnblockStep(old(Table()), k)
    {
      if k in semaphores {
        var sem := semaphores[k];
        sem.Release();
        var queued := sem.HasQueuedThreads();
        if !queued {
          semaphores := semaphores - {k};
        }
      }
    }

    /** Acquires key k for thread t under the given policy; a conflict is the registry's error.
        The unblock mode is accepted and has no effect. */
    method Block(k: K, action: ConcurrencyAction, whenUnblock: ConcurrencyUnblock, t: ThreadName)
      returns (outcome: Outcome)
      requires Valid()
      modifies this, semaphores.Values
      ensures Valid()
      ensures forall s :: s in semaphores.Values ==> s in old(semaphores.Values) || fresh(s)
      ensures RegStep(outcome, Table()) == BlockStep(old(Table()), k, t, action)
    {
      var sem := GetOrInsert(k, t);
      outcome := AcquireEntry(k, sem, action, t);
    }

    /** Runs the policy's acquire on the semaphore of key k; only that entry changes. */
    method AcquireEntry(k: K, sem: ConcurrencySemaphore, action: ConcurrencyAction, t: ThreadName)
      returns (outcome: Outcome)
      requires Valid() && k in semaphores && sem == semaphores[k]
      modifies sem
      ensures Step(outcome, sem.State()) == PolicyStep(old(sem.State()), t, action)
      ensures Table() == old(Table())[k := sem.State()]
    {
      match action {
        case Error =>
          outcome := sem.BruteAcquire(t);
        case Wait =>
          outcome := sem.Acquire(t);
      }
      forall j | j in semaphores && j != k
        ensures semaphores[j].State() == old(semaphores[j].State())
      {
        assert semaphores[j] != sem;
      }
    }

    /** Acquires key k with the default policy (fail fast) and the default unblock mode. */
    method BlockDefault(k: K, t: ThreadName) returns (outcome: Outcome)
      requires Valid()
      modifies this, semaphores.Values
      ensures Valid()
      ensures forall s :: s in semaphores.Values ==> s in old(semaphores.Values) || fresh(s)
      ensures RegStep(outcome, Table()) == BlockStep(old(Table()), k, t, Error)
    {
      outcome := Block(k, Error, AfterCompletion, t);
    }

    /** Releases key k; releasing a key with no entry does nothing and never fails. */
    method Unblock(k: K)
      requires Valid()
      modifies this, semaphores.Values
      ensures Valid()
      ensures semaphores.Values <= old(semaphores.Values)
      ensures Table() == UnblockStep(old(Table()), k)
    {
      RemoveAndRelease(k);
    }

    /** Wake-up of thread t suspended in a blocking acquire of key k. */
    method Resume(k: K, t: ThreadName) returns (outcome: Outcome)
      requires Valid()
      modifies semaphores.Values
      ensures Valid()
      ensures RegStep(outcome, Table()) == ResumeOnKey(old(Table()), k, t)
    {
      if k in semaphores {
        var sem := semaphores[k];
        outcome := sem.Resume(t);
        forall j | j in semaphores && j != k
          ensures semaphores[j].State() == old(semaphores[j].State())
        {
          assert semaphores[j] != sem;
        }
        assert Table() == old(Table())[k := sem.State()];
      } else {
        outcome := Waiting;
      }
    }

    /** Blocks every key of the list in order with the default policy, stopping at the first
        conflict; an empty list does nothing. */
    method BlockList(ks: seq<K>, t: ThreadName) returns (outcome: Outcome)
      requires Valid()
      modifies this, semaphores.Values
      ensures Valid()
      ensures RegStep(outcome, Table()) == BlockListStep(old(Table()), ks, t)
    {
      outcome := Ok;
      var i := 0;
      while i < |ks|
        invariant 0 <= i <= |ks|
        invariant Valid()
        invariant forall s :: s in semaphores.Values ==> s in old(semaphores.Values) || fresh(s)
        invariant outcome == Ok
        invariant BlockListStep(old(Table()), ks, t) == BlockListStep(Table(), ks[i..], t)
      {
        assert ks[i..][0] == ks[i] && ks[i..][1..] == ks[i + 1..];
        outcome := BlockDefault(ks[i], t);
        if outcome == Conflict {
          return;
        }
        i := i + 1;
      }
    }

    /** Unblocks every key of the list in order; an empty list does nothing. */
    method UnblockList(ks: seq<K>)
      requires Valid()
      modifies this, semaphores.Values
      ensures Valid()
      ensures Table() == UnblockListStep(old(Table()), ks)
    {
      var i := 0;
      while i < |ks|
        invariant 0 <= i <= |ks|
        invariant Valid()
        invariant semaphores.Values <= old(semaphores.Values)
        invariant UnblockListStep(old(Table()), ks) == UnblockListStep(Table(), ks[i..])
      {
        assert ks[i..][0] == ks[i] && ks[i..][1..] == ks[i + 1..];
        Unblock(ks[i]);
        i := i + 1;
      }
    }
  }
}
