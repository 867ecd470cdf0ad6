/** One key's lock: a single-permit semaphore bound to the thread that created it. */
module Semaphore {

  /** Threads are identified by name; the owner test compares names, not thread objects. */
  type ThreadName = string

  /** Number of permits a new semaphore starts with. */
  const ThreadsAllowed: nat := 1

  /** How a call returns: normally, suspended in the waiter queue, or with the registry's error. */
  datatype Outcome = Ok | Waiting | Conflict

  /** The observable state of one semaphore. Thread names need not be unique, so the queue
      is a multiset: two waiting threads with the same name are two entries. */
  datatype SemState = SemState(owner: ThreadName, permits: nat, waiters: multiset<ThreadName>)

  /** The outcome of one call together with the state it leaves behind. */
  datatype Step = Step(outcome: Outcome, next: SemState)

  /** The state of a semaphore constructed by thread t. */
  function Created(t: ThreadName): SemState
  {
    SemState(t, ThreadsAllowed, multiset{})
  }

  /** A try-acquire: takes a permit if one is free, otherwise changes nothing. */
  function AfterTryAcquire(s: SemState): SemState
  {
    if s.permits > 0 then s.(permits := s.permits - 1) else s
  }

  /** Blocking acquire by thread t. */
  function AcquireStep(s: SemState, t: ThreadName): (r: Step)
    ensures r.outcome != Conflict
    ensures t == s.owner ==> r.outcome == Ok
    ensures r.outcome == Waiting <==> t != s.owner && s.permits == 0
    ensures r.next.owner == s.owner
    ensures r.next.permits == if s.permits > 0 then s.permits - 1 else 0
    ensures r.next.waiters == if r.outcome == Waiting then s.waiters + multiset{t} else s.waiters
  {
    if t == s.owner then Step(Ok, AfterTryAcquire(s))
    else if s.permits > 0 then Step(Ok, s.(permits := s.permits - 1))
    else Step(Waiting, s.(waiters := s.waiters + multiset{t}))
  }

  /** Fail-fast acquire by thread t. */
  function BruteAcquireStep(s: SemState, t: ThreadName): (r: Step)
    ensures r.outcome != Waiting
    ensures t == s.owner ==> r.outcome == Ok
    ensures r.outcome == Conflict <==> t != s.owner && s.permits == 0
    ensures r.outcome == Conflict ==> r.next == s
    ensures r.next.owner == s.owner && r.next.waiters == s.waiters
    ensures r.next.permits == if s.permits > 0 then s.permits - 1 else 0
  {
    if t == s.owner then Step(Ok, AfterTryAcquire(s))
    else if s.permits > 0 then Step(Ok, s.(permits := s.permits - 1))
    else Step(Conflict, s)
  }

  /** Release: one more permit, whoever calls and however many permits are already free. */
  function Released(s: SemState): SemState
  {
    s.(permits := s.permits + 1)
  }

  /** Wake-up of thread t queued in a blocking acquire: it leaves the queue holding a permit
      when one is free; otherwise nothing happens and the outcome stays Waiting. */
  function ResumeStep(s: SemState, t: ThreadName): (r: Step)
    ensures r.outcome != Conflict
    ensures r.outcome == Ok <==> t in s.waiters && s.permits > 0
    ensures r.outcome == Ok ==> r.next == SemState(s.owner, s.permits - 1, s.waiters - multiset{t})
    ensures r.outcome == Waiting ==> r.next == s
  {
    if t in s.waiters && s.permits > 0 then
      Step(Ok, s.(permits := s.permits - 1, waiters := s.waiters - multiset{t}))
    else
      Step(Waiting, s)
  }

  /** Two fail-fast acquires by t2 and t3 on one semaphore, interleaved as the source allows:
      a non-owner's check for a free permit and its blocking acquire are separate steps. Both
      checks run first, then t3 acquires, then t2. Gives t2's outcome, t3's outcome and the
      final state. */
  function SplitBruteAcquireInterleaving(s: SemState, t2: ThreadName, t3: ThreadName): (r: (Outcome, Outcome, SemState))
    ensures r.0 != Conflict <==> t2 == s.owner || s.permits > 0
    ensures r.1 != Conflict <==> t3 == s.owner || s.permits > 0
    ensures r.2.owner == s.owner
  {
    var t2Passes := t2 == s.owner || s.permits > 0;
    var t3Passes := t3 == s.owner || s.permits > 0;
    var byT3 := if t3Passes then AcquireStep(s, t3) else Step(Conflict, s);
    var byT2 := if t2Passes then AcquireStep(byT3.next, t2) else Step(Conflict, byT3.next);
    (byT2.outcome, byT3.outcome, byT2.next)
  }

  /** With the check and the acquire split, a fail-fast call can end up queued: both
      non-owners see the single free permit, t3 takes it and t2 parks. */
  lemma {:induction false} FailFastCheckRaceParks(s: SemState, t2: ThreadName, t3: ThreadName)
    requires s.permits == 1 && t2 != s.owner && t3 != s.owner
    ensures
      var r := SplitBruteAcquireInterleaving(s, t2, t3);
      r.0 == Waiting && r.1 == Ok && r.2 == SemState(s.owner, 0, s.waiters + multiset{t2})
  {
  }

  /** Atomic fail-fast acquires never queue: the same two calls on a single free permit
      give one success and one conflict. */
  lemma {:induction false} FailFastAtomicRefuses(s: SemState, t2: ThreadName, t3: ThreadName)
    requires s.permits == 1 && t2 != s.owner && t3 != s.owner
    ensures
      var byT3 := BruteAcquireStep(s, t3);
      var byT2 := BruteAcquireStep(byT3.next, t2);
      byT3.outcome == Ok && byT2.outcome == Conflict && byT2.next == SemState(s.owner, 0, s.waiters)
  {
  }

  /** A permit taken by an acquire that returned normally is given back by one release. */
  lemma AcquireThenRelease(s: SemState, t: ThreadName)
    requires s.permits > 0
    ensures Released(AcquireStep(s, t).next) == s
    ensures Released(BruteAcquireStep(s, t).next) == s
  {
  }

  /** Release has no cap: n releases add exactly n permits. */
  function ReleasedTimes(s: SemState, n: nat): (r: SemState)
    ensures r.owner == s.owner && r.waiters == s.waiters
    ensures r.permits == s.permits + n
  {
    if n == 0 then s else Released(ReleasedTimes(s, n - 1))
  }

  /** One key's lock object: a fixed owner name, a permit counter and the queue of waiting threads. */
  class ConcurrencySemaphore {
    const threadName: ThreadName
    var permits: nat
    var waiters: multiset<ThreadName>

    /** The abstract value of this semaphore. */
    function State(): SemState
      reads this
    {
      SemState(threadName, permits, waiters)
    }

    /** Records the constructing thread as owner and starts with one permit and no waiters. */
    constructor (t: ThreadName)
      ensures State() == Created(t)
      ensures threadName == t && permits == 1 && waiters == multiset{}
    {
      threadName := t;
      permits := ThreadsAllowed;
      waiters := multiset{};
    }

    /** The owner test: equality of thread names. */
    method IsSameThread(t: ThreadName) returns (same: bool)
      ensures same <==> t == threadName
    {
      same := t == threadName;
    }

    /** Whether any thread is queued in a blocking acquire. */
    method HasQueuedThreads() returns (queued: bool)
      ensures queued <==> waiters != multiset{}
    {
      queued := waiters != multiset{};
    }

    /** Takes a permit if one is free and reports whether it did; never waits. */
    method TryAcquire() returns (taken: bool)
      modifies this
      ensures taken <==> old(permits) > 0
      ensures State() == AfterTryAcquire(old(State()))
    {
      taken := permits > 0;
      if taken {
        permits := permits - 1;
      }
    }

    /** Blocking acquire: the owner only tries; anyone else takes a permit or joins the queue. */
    method Acquire(t: ThreadName) returns (outcome: Outcome)
      modifies this
      ensures Step(outcome, State()) == AcquireStep(old(State()), t)
    {
      var same := IsSameThread(t);
      if same {
        var _ := TryAcquire();
        outcome := Ok;
      } else if permits > 0 {
        permits := permits - 1;
        outcome := Ok;
      } else {
        waiters := waiters + multiset{t};
        outcome := Waiting;
      }
    }

    /** Fail-fast acquire: the owner only tries; anyone else takes a free permit or fails. */
    method BruteAcquire(t: ThreadName) returns (outcome: Outcome)
      modifies this
      ensures Step(outcome, State()) == BruteAcquireStep(old(State()), t)
    {
      var same := IsSameThread(t);
      if same {
        var _ := TryAcquire();
        outcome := Ok;
      } else if permits > 0 {
        permits := permits - 1;
        outcome := Ok;
      } else {
        outcome := Conflict;
      }
    }

    /** Gives one permit back, with no ownership check and no upper bound. */
    method Release()
      modifies this
      ensures State() == Released(old(State()))
    {
      permits := permits + 1;
    }

    /** Wake-up of a thread suspended in Acquire. */
    method Resume(t: ThreadName) returns (outcome: Outcome)
      modifies this
      ensures Step(outcome, State()) == ResumeStep(old(State()), t)
    {
      if t in waiters && permits > 0 {
        permits := permits - 1;
        waiters := waiters - multiset{t};
        outcome := Ok;
      } else {
        outcome := Waiting;
      }
    }
  }
}
