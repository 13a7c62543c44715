/** The writer-preferring read/write lock (src/base3/rwlock.h), shared by any number of threads. */
module ReadWriteLock {
  import opened Words

  datatype Thread =
    | Idle
    | Reading
    | Writing
    | WaitingRead(notified: bool)
    | WaitingWrite(notified: bool)

  datatype Role = Reader | Writer | ReadWaiter | WriteWaiter

  predicate Plays(t: Thread, role: Role) {
    match role
    case Reader => t.Reading?
    case Writer => t.Writing?
    case ReadWaiter => t.WaitingRead?
    case WriteWaiter => t.WaitingWrite?
  }

  function Count(threads: seq<Thread>, role: Role): nat {
    if threads == [] then 0
    else Count(threads[..|threads| - 1], role) + (if Plays(threads[|threads| - 1], role) then 1 else 0)
  }

  /** The counters are unsigned 32-bit fields. */
  function Up(x: int): int { (x + 1) % WIDTH }

  function Down(x: int): int { (x - 1) % WIDTH }

  datatype State = State(readers: int, writers: int, readWaiters: int, writeWaiters: int, threads: seq<Thread>)

  function Init(n: nat): State {
    State(0, 0, 0, 0, seq(n, _ => Idle))
  }

  // ----- Notifications -----

  /** notify_one on cond_write_: one waiter that is still blocked, if there is one. */
  ghost predicate NotifiedOneWriter(before: seq<Thread>, after: seq<Thread>) {
    if exists w :: 0 <= w < |before| && before[w] == WaitingWrite(false)
    then exists w :: 0 <= w < |before| && before[w] == WaitingWrite(false) && after == before[w := WaitingWrite(true)]
    else after == before
  }

  /** notify_all on cond_read_. */
  function NotifyAllReaders(threads: seq<Thread>): (r: seq<Thread>)
    ensures |r| == |threads|
    ensures forall t :: 0 <= t < |r| ==>
              r[t] == if threads[t].WaitingRead? then WaitingRead(true) else threads[t]
  {
    seq(|threads|, t requires 0 <= t < |threads| =>
      if threads[t].WaitingRead? then WaitingRead(true) else threads[t])
  }

  // ----- The atomic steps -----

  // The critical sections of a monitor; a wait ends by a notification, or spuriously.

  /** ReadLock up to its return or its first wait. */
  ghost predicate ReadLockStep(s: State, s': State, t: nat) {
    && t < |s.threads| && s.threads[t].Idle?
    && s' == if s.writers != 0 || s.writeWaiters != 0
             then s.(readWaiters := Up(s.readWaiters), threads := s.threads[t := WaitingRead(false)])
             else s.(readers := Up(s.readers), threads := s.threads[t := Reading])
  }

  /** The wait in ReadLock returns: the guard is tested once more. */
  ghost predicate ReadWakeStep(s: State, s': State, t: nat) {
    && t < |s.threads| && s.threads[t].WaitingRead?
    && s' == if s.writers != 0 || s.writeWaiters != 0
             then s.(threads := s.threads[t := WaitingRead(false)])
             else s.(readWaiters := Down(s.readWaiters), readers := Up(s.readers), threads := s.threads[t := Reading])
  }

  ghost predicate ReadUnlockStep(s: State, s': State, t: nat) {
    && t < |s.threads| && s.threads[t].Reading?
    && |s'.threads| == |s.threads|
    && s' == s.(readers := Down(s.readers), threads := s'.threads)
    && if s.writeWaiters != 0 then NotifiedOneWriter(s.threads[t := Idle], s'.threads)
       else s'.threads == s.threads[t := Idle]
  }

  ghost predicate WriteLockStep(s: State, s': State, t: nat) {
    && t < |s.threads| && s.threads[t].Idle?
    && s' == if s.readers != 0 || s.writers != 0
             then s.(writeWaiters := Up(s.writeWaiters), threads := s.threads[t := WaitingWrite(false)])
             else s.(writers := 1, threads := s.threads[t := Writing])
  }

  ghost predicate WriteWakeStep(s: State, s': State, t: nat) {
    && t < |s.threads| && s.threads[t].WaitingWrite?
    && s' == if s.readers != 0 || s.writers != 0
             then s.(threads := s.threads[t := WaitingWrite(false)])
             else s.(writeWaiters := Down(s.writeWaiters), writers := 1, threads := s.threads[t := Writing])
  }

  ghost predicate WriteUnlockStep(s: State, s': State, t: nat) {
    && t < |s.threads| && s.threads[t].Writing?
    && |s'.threads| == |s.threads|
    && s' == s.(writers := 0, threads := s'.threads)
    && if s.writeWaiters != 0 then NotifiedOneWriter(s.threads[t := Idle], s'.threads)
       else s'.threads == if s.readWaiters != 0 then NotifyAllReaders(s.threads[t := Idle]) else s.threads[t := Idle]
  }

  datatype Call = ReadLock | ReadWake | ReadUnlock | WriteLock | WriteWake | WriteUnlock

  ghost predicate Step(s: State, s': State, t: nat, call: Call) {
    match call
    case ReadLock => ReadLockStep(s, s', t)
    case ReadWake => ReadWakeStep(s, s', t)
    case ReadUnlock => ReadUnlockStep(s, s', t)
    case WriteLock => WriteLockStep(s, s', t)
    case WriteWake => WriteWakeStep(s, s', t)
    case WriteUnlock => WriteUnlockStep(s, s', t)
  }

  // ----- The invariant -----

  ghost predicate CountersExact(s: State) {
    && |s.threads| < WIDTH
    && s.readers == Count(s.threads, Reader) && s.writers == Count(s.threads, Writer)
    && s.readWaiters == Count(s.threads, ReadWaiter) && s.writeWaiters == Count(s.threads, WriteWaiter)
  }

  ghost predicate Exclusion(s: State) {
    s.writers <= 1 && (s.writers == 1 ==> s.readers == 0)
  }

  /** A free lock with waiting writers has woken one of them. */
  ghost predicate WriterWakeupKept(s: State) {
    s.readers == 0 && s.writers == 0 && s.writeWaiters != 0 ==>
      exists t :: 0 <= t < |s.threads| && s.threads[t] == WaitingWrite(true)
  }

  /** When no writer holds or wants the lock, every waiting reader has been woken. */
  ghost predicate ReaderWakeupsKept(s: State) {
    s.writers == 0 && s.writeWaiters == 0 ==>
      forall t :: 0 <= t < |s.threads| && s.threads[t].WaitingRead? ==> s.threads[t].notified
  }

  ghost predicate Inv(s: State) {
    CountersExact(s) && Exclusion(s) && WriterWakeupKept(s) && ReaderWakeupsKept(s)
  }

  lemma {:induction false} CountUpdate(threads: seq<Thread>, t: nat, x: Thread, role: Role)
    requires t < |threads|
    ensures Count(threads[t := x], role)
            == Count(threads, role) - (if Plays(threads[t], role) then 1 else 0) + (if Plays(x, role) then 1 else 0)
  {
    var last := |threads| - 1;
    if t == last {
      assert threads[t := x][..last] == threads[..last];
    } else {
      assert threads[t := x][..last] == threads[..last][t := x];
      CountUpdate(threads[..last], t, x, role);
    }
  }

  lemma {:induction false} CountPositive(threads: seq<Thread>, t: nat, role: Role)
    requires t < |threads| && Plays(threads[t], role)
    ensures Count(threads, role) > 0
  {
    if t < |threads| - 1 {
      CountPositive(threads[..|threads| - 1], t, role);
    }
  }

  lemma {:induction false} CountWitness(threads: seq<Thread>, role: Role) returns (t: nat)
    requires Count(threads, role) > 0
    ensures t < |threads| && Plays(threads[t], role)
  {
    t := |threads| - 1;
    if !Plays(threads[t], role) {
      t := CountWitness(threads[..t], role);
    }
  }

  /** Waking a thread does not change which role it plays. */
  ghost predicate SameRoles(a: seq<Thread>, b: seq<Thread>) {
    |a| == |b| && forall t, role :: 0 <= t < |a| ==> Plays(a[t], role) == Plays(b[t], role)
  }

  lemma {:induction false} CountSameRoles(a: seq<Thread>, b: seq<Thread>, role: Role)
    requires SameRoles(a, b)
    ensures Count(a, role) == Count(b, role)
  {
    if a != [] {
      assert SameRoles(a[..|a| - 1], b[..|b| - 1]);
      CountSameRoles(a[..|a| - 1], b[..|b| - 1], role);
    }
  }

  lemma {:induction false} CountBound(threads: seq<Thread>, role: Role)
    ensures Count(threads, role) <= |threads|
  {
    if threads != [] {
      CountBound(threads[..|threads| - 1], role);
    }
  }

  ghost predicate Bounded(threads: seq<Thread>) {
    forall role :: Count(threads, role) <= |threads|
  }

  lemma CountsBound(threads: seq<Thread>)
    ensures Bounded(threads)
  {
    forall role
      ensures Count(threads, role) <= |threads|
    {
      CountBound(threads, role);
    }
  }

  /** The counters follow a thread that changes from one role to another. */
  lemma CountersFollow(threads: seq<Thread>, t: nat, x: Thread)
    requires t < |threads| < WIDTH
    ensures forall role :: Count(threads[t := x], role)
                           == Count(threads, role) - (if Plays(threads[t], role) then 1 else 0)
                              + (if Plays(x, role) then 1 else 0)
    ensures Bounded(threads) && Bounded(threads[t := x])
    ensures forall role :: Plays(threads[t], role) ==> Count(threads, role) > 0
  {
    CountsBound(threads);
    CountsBound(threads[t := x]);
    hide Bounded;
    forall role
      ensures Count(threads[t := x], role) == Count(threads, role) - (if Plays(threads[t], role) then 1 else 0)
                                              + (if Plays(x, role) then 1 else 0)
      ensures Plays(threads[t], role) ==> Count(threads, role) > 0
    {
      CountUpdate(threads, t, x, role);
      if Plays(threads[t], role) { CountPositive(threads, t, role); }
    }
  }

  lemma ReadLockKeeps(s: State, s': State, t: nat)
    requires Inv(s) && ReadLockStep(s, s', t)
    ensures Inv(s')
  {
    CountersFollow(s.threads, t, s'.threads[t]);
    forall u | 0 <= u < |s.threads| && s.threads[u] == WaitingWrite(true)
      ensures s'.threads[u] == WaitingWrite(true)
    {
    }
  }

  lemma ReadWakeKeeps(s: State, s': State, t: nat)
    requires Inv(s) && ReadWakeStep(s, s', t)
    ensures Inv(s')
  {
    CountersFollow(s.threads, t, s'.threads[t]);
    forall u | 0 <= u < |s.threads| && s.threads[u] == WaitingWrite(true)
      ensures s'.threads[u] == WaitingWrite(true)
    {
    }
  }

  lemma WriteLockKeeps(s: State, s': State, t: nat)
    requires Inv(s) && WriteLockStep(s, s', t)
    ensures Inv(s')
  {
    CountersFollow(s.threads, t, s'.threads[t]);
  }

  lemma WriteWakeKeeps(s: State, s': State, t: nat)
    requires Inv(s) && WriteWakeStep(s, s', t)
    ensures Inv(s')
  {
    CountersFollow(s.threads, t, s'.threads[t]);
  }

  /** Whatever notify_one picks, a waiting writer is awake afterwards and no role changes. */
  lemma NotifyOneWakes(before: seq<Thread>, after: seq<Thread>)
    requires NotifiedOneWriter(before, after) && Count(before, WriteWaiter) > 0
    ensures SameRoles(before, after)
    ensures exists t :: 0 <= t < |after| && after[t] == WaitingWrite(true)
    ensures forall t :: 0 <= t < |before| && before[t].WaitingRead? ==> after[t] == before[t]
  {
    var w := CountWitness(before, WriteWaiter);
    if before[w] != WaitingWrite(false) {
      assert before[w] == WaitingWrite(true);
    }
  }

  lemma ReadUnlockKeeps(s: State, s': State, t: nat)
    requires Inv(s) && ReadUnlockStep(s, s', t)
    ensures Inv(s') && s.readers > 0
  {
    var idle := s.threads[t := Idle];
    CountersFollow(s.threads, t, Idle);
    if s.writeWaiters != 0 {
      NotifyOneWakes(idle, s'.threads);
    }
    forall role { CountSameRoles(idle, s'.threads, role); }
  }

  lemma WriteUnlockKeeps(s: State, s': State, t: nat)
    requires Inv(s) && WriteUnlockStep(s, s', t)
    ensures Inv(s') && s.writers == 1
  {
    var idle := s.threads[t := Idle];
    CountersFollow(s.threads, t, Idle);
    if s.writeWaiters != 0 {
      NotifyOneWakes(idle, s'.threads);
    } else if s.readWaiters == 0 {
      forall u | 0 <= u < |idle| && idle[u].WaitingRead?
        ensures false
      {
        CountPositive(idle, u, ReadWaiter);
      }
    }
    assert SameRoles(idle, s'.threads);
    forall role { CountSameRoles(idle, s'.threads, role); }
  }

  /** Every atomic step of every thread keeps the invariant. */
  lemma StepKeeps(s: State, s': State, t: nat, call: Call)
    requires Inv(s) && Step(s, s', t, call)
    ensures Inv(s') && |s'.threads| == |s.threads|
  {
    match call
    case ReadLock => ReadLockKeeps(s, s', t);
    case ReadWake => ReadWakeKeeps(s, s', t);
    case ReadUnlock => ReadUnlockKeeps(s, s', t);
    case WriteLock => WriteLockKeeps(s, s', t);
    case WriteWake => WriteWakeKeeps(s, s', t);
    case WriteUnlock => WriteUnlockKeeps(s, s', t);
  }

  lemma {:induction false} InitCounts(n: nat, role: Role)
    ensures Count(seq(n, _ => Idle), role) == 0
  {
    if n > 0 {
      var all: seq<Thread> := seq(n, _ => Idle);
      assert all[..n - 1] == seq(n - 1, _ => Idle);
      InitCounts(n - 1, role);
    }
  }

  // ----- Runs -----

  datatype Event = Event(thread: nat, call: Call)

  ghost predicate Run(states: seq<State>, events: seq<Event>) {
    && |states| == |events| + 1
    && forall k :: 0 <= k < |events| ==> Step(states[k], states[k + 1], events[k].thread, events[k].call)
  }

  ghost predicate Execution(states: seq<State>, events: seq<Event>, n: nat) {
    n < WIDTH && Run(states, events) && states[0] == Init(n)
  }

  lemma {:induction false} RunKeeps(states: seq<State>, events: seq<Event>, k: nat)
    requires Run(states, events) && Inv(states[0]) && k < |states|
    ensures Inv(states[k]) && |states[k].threads| == |states[0].threads|
  {
    if k > 0 {
      RunKeeps(states, events, k - 1);
      StepKeeps(states[k - 1], states[k], events[k - 1].thread, events[k - 1].call);
    }
  }

  lemma ExecutionKeeps(states: seq<State>, events: seq<Event>, n: nat, k: nat)
    requires Execution(states, events, n) && k < |states|
    ensures Inv(states[k]) && |states[k].threads| == n
  {
    forall role
      ensures Count(Init(n).threads, role) == 0
    {
      InitCounts(n, role);
    }
    RunKeeps(states, events, k);
  }

  lemma {:induction false} CountTwo(threads: seq<Thread>, t: nat, u: nat, role: Role)
    requires t < u < |threads| && Plays(threads[t], role) && Plays(threads[u], role)
    ensures Count(threads, role) >= 2
  {
    if u == |threads| - 1 {
      CountPositive(threads[..u], t, role);
    } else {
      CountTwo(threads[..|threads| - 1], t, u, role);
    }
  }

  /** At every moment of every execution, a writing thread is alone. */
  lemma MutualExclusion(states: seq<State>, events: seq<Event>, n: nat, k: nat, t: nat, u: nat)
    requires Execution(states, events, n) && k < |states| && t < n && u < n && t != u
    requires |states[k].threads| == n && states[k].threads[t].Writing?
    ensures !states[k].threads[u].Writing? && !states[k].threads[u].Reading?
  {
    ExecutionKeeps(states, events, n, k);
    CountPositive(states[k].threads, t, Writer);
    if states[k].threads[u].Writing? {
      CountTwo(states[k].threads, if t < u then t else u, if t < u then u else t, Writer);
    }
    if states[k].threads[u].Reading? {
      CountPositive(states[k].threads, u, Reader);
    }
  }

  /** A notified thread whose loop guard is false: it will leave its wait loop with the lock. */
  ghost predicate ReadyToEnter(s: State, t: nat) {
    t < |s.threads| &&
    match s.threads[t]
    case WaitingRead(notified) => notified && s.writers == 0 && s.writeWaiters == 0
    case WaitingWrite(notified) => notified && s.readers == 0 && s.writers == 0
    case _ => false
  }

  /** No wakeup is lost: while the lock is free and somebody waits, somebody is about to enter. */
  lemma NoLostWakeup(states: seq<State>, events: seq<Event>, n: nat, k: nat, w: nat)
    requires Execution(states, events, n) && k < |states| && w < n
    requires |states[k].threads| == n && states[k].readers == 0 && states[k].writers == 0
    requires states[k].threads[w].WaitingRead? || states[k].threads[w].WaitingWrite?
    ensures exists t :: ReadyToEnter(states[k], t)
  {
    ExecutionKeeps(states, events, n, k);
    var s := states[k];
    if s.writeWaiters != 0 {
      var t :| 0 <= t < |s.threads| && s.threads[t] == WaitingWrite(true);
      assert ReadyToEnter(s, t);
    } else {
      if s.threads[w].WaitingWrite? {
        CountPositive(s.threads, w, WriteWaiter);
      }
      assert ReadyToEnter(s, w);
    }
  }

  lemma NoNewReader(s: State, s': State, e: Event, w: nat, u: nat)
    requires Inv(s) && Step(s, s', e.thread, e.call) && u < |s.threads| == |s'.threads|
    requires w < |s.threads| && s.threads[w].WaitingWrite? && s'.threads[u].Reading?
    ensures s.threads[u].Reading?
  {
    hide Count;
    CountPositive(s.threads, w, WriteWaiter);
  }

  /** Writers come first: while a writer waits, no thread becomes a reader. */
  lemma {:induction false} WriterPreference(states: seq<State>, events: seq<Event>, n: nat, i: nat, j: nat, w: nat, u: nat)
    requires Execution(states, events, n) && i <= j < |states| && w < n && u < n
    requires forall k :: i <= k <= j ==> |states[k].threads| == n && states[k].threads[w].WaitingWrite?
    requires states[j].threads[u].Reading?
    ensures states[i].threads[u].Reading?
    decreases j - i
  {
    hide Inv, Step;
    if i < j {
      ExecutionKeeps(states, events, n, j - 1);
      var e := events[j - 1];
      assert Step(states[j - 1], states[j], e.thread, e.call);
      NoNewReader(states[j - 1], states[j], e, w, u);
      WriterPreference(states, events, n, i, j - 1, w, u);
    }
  }

  // ----- Draining: nobody new arrives and nobody wakes without a notification -----

  predicate Drains(s: State, e: Event) {
    e.thread < |s.threads| &&
    match e.call
    case ReadLock => false
    case WriteLock => false
    case ReadWake => s.threads[e.thread] == WaitingRead(true)
    case WriteWake => s.threads[e.thread] == WaitingWrite(true)
    case ReadUnlock => s.threads[e.thread].Reading?
    case WriteUnlock => s.threads[e.thread].Writing?
  }

  ghost predicate DrainingRun(states: seq<State>, events: seq<Event>) {
    Run(states, events) && forall k :: 0 <= k < |events| ==> Drains(states[k], events[k])
  }

  predicate IsNotified(t: Thread) {
    t == WaitingRead(true) || t == WaitingWrite(true)
  }

  function Notified(threads: seq<Thread>): nat {
    if threads == [] then 0
    else Notified(threads[..|threads| - 1]) + (if IsNotified(threads[|threads| - 1]) then 1 else 0)
  }

  lemma {:induction false} NotifiedUpdate(threads: seq<Thread>, t: nat, x: Thread)
    requires t < |threads|
    ensures Notified(threads[t := x])
            == Notified(threads) - (if IsNotified(threads[t]) then 1 else 0) + (if IsNotified(x) then 1 else 0)
  {
    var last := |threads| - 1;
    if t == last {
      assert threads[t := x][..last] == threads[..last];
    } else {
      assert threads[t := x][..last] == threads[..last][t := x];
      NotifiedUpdate(threads[..last], t, x);
    }
  }

  lemma {:induction false} NotifiedBound(threads: seq<Thread>)
    ensures Notified(threads) <= |threads|
  {
    if threads != [] {
      NotifiedBound(threads[..|threads| - 1]);
    }
  }

  /** Calls still to be made by the threads inside the lock: two for a waiter, one for a holder. */
  function Work(s: State): int {
    2 * (s.readWaiters + s.writeWaiters) + s.readers + s.writers
  }

  function Measure(s: State): int {
    Work(s) * (|s.threads| + 1) + Notified(s.threads)
  }

  lemma WorkStep(s: State, s': State, e: Event)
    requires Inv(s) && Step(s, s', e.thread, e.call) && Drains(s, e)
    ensures Work(s') <= Work(s) - 1 || (Work(s') == Work(s) && Notified(s'.threads) < Notified(s.threads))
    ensures Inv(s') && |s'.threads| == |s.threads|
  {
    StepKeeps(s, s', e.thread, e.call);
    CountersFollow(s.threads, e.thread, s'.threads[e.thread]);
    NotifiedUpdate(s.threads, e.thread, s'.threads[e.thread]);
  }

  lemma Lexicographic(w: int, w': int, n: nat, a: nat, a': nat)
    requires a' <= n && (w' < w || (w' == w && a' < a))
    ensures w' * (n + 1) + a' < w * (n + 1) + a
  {
    if w' < w {
      var d := w - w';
      assert w * (n + 1) == w' * (n + 1) + d * (n + 1);
      assert d * (n + 1) >= n + 1;
    }
  }

  lemma MeasureStep(s: State, s': State, e: Event)
    requires Inv(s) && Step(s, s', e.thread, e.call) && Drains(s, e)
    ensures Measure(s') < Measure(s)
  {
    WorkStep(s, s', e);
    NotifiedBound(s'.threads);
    Lexicographic(Work(s), Work(s'), |s.threads|, Notified(s.threads), Notified(s'.threads));
  }

  /** Draining cannot go on for ever. */
  lemma {:induction false} DrainingIsBounded(states: seq<State>, events: seq<Event>)
    requires DrainingRun(states, events) && Inv(states[0])
    ensures |events| <= Measure(states[0]) - Measure(states[|events|])
    ensures Inv(states[|events|]) && Measure(states[|events|]) >= 0
  {
    hide Inv, Measure, Step, Drains;
    var last := |events|;
    if last > 0 {
      DrainingIsBounded(states[..last], events[..last - 1]);
      MeasureStep(states[last - 1], states[last], events[last - 1]);
      StepKeeps(states[last - 1], states[last], events[last - 1].thread, events[last - 1].call);
    }
    RunKeeps(states, events, last);
    MeasureIsNatural(states[last]);
  }

  lemma MeasureIsNatural(s: State)
    requires Inv(s)
    ensures Measure(s) >= 0
  {
    assert Work(s) >= 0;
  }

  /** A draining step that is possible can be taken. */
  lemma DrainStep(s: State, e: Event) returns (next: State)
    requires Inv(s) && Drains(s, e)
    ensures Step(s, next, e.thread, e.call)
  {
    var t := e.thread;
    var idle := s.threads[t := Idle];
    match e.call
    case ReadWake =>
      next := if s.writers != 0 || s.writeWaiters != 0 then s.(threads := s.threads[t := WaitingRead(false)])
              else s.(readWaiters := Down(s.readWaiters), readers := Up(s.readers), threads := s.threads[t := Reading]);
    case WriteWake =>
      next := if s.readers != 0 || s.writers != 0 then s.(threads := s.threads[t := WaitingWrite(false)])
              else s.(writeWaiters := Down(s.writeWaiters), writers := 1, threads := s.threads[t := Writing]);
    case ReadUnlock =>
      var after := NotifyOne(idle);
      next := s.(readers := Down(s.readers), threads := if s.writeWaiters != 0 then after else idle);
    case WriteUnlock =>
      var after := NotifyOne(idle);
      next := s.(writers := 0, threads := if s.writeWaiters != 0 then after
                                           else if s.readWaiters != 0 then NotifyAllReaders(idle) else idle);
  }

  lemma NotifyOne(threads: seq<Thread>) returns (after: seq<Thread>)
    ensures NotifiedOneWriter(threads, after) && |after| == |threads|
  {
    after := threads;
    if w :| 0 <= w < |threads| && threads[w] == WaitingWrite(false) {
      after := threads[w := WaitingWrite(true)];
    }
  }

  /** From any state there is a run that drains until nothing is left to drain. */
  lemma {:induction false} RunsDry(s: State) returns (states: seq<State>, events: seq<Event>)
    requires Inv(s)
    ensures DrainingRun(states, events) && states[0] == s
    ensures forall e :: !Drains(states[|events|], e)
    decreases Measure(s)
  {
    hide Inv, Measure, Step, Drains;
    states, events := [s], [];
    if e :| Drains(s, e) {
      var s' := DrainStep(s, e);
      MeasureStep(s, s', e);
      StepKeeps(s, s', e.thread, e.call);
      MeasureIsNatural(s');
      var rest, moves := RunsDry(s');
      states, events := [s] + rest, [e] + moves;
    }
  }

  /** When no draining step is possible any more, every thread has been served. */
  lemma DrainedMeansServed(s: State)
    requires Inv(s) && forall e :: !Drains(s, e)
    ensures forall t :: 0 <= t < |s.threads| ==> s.threads[t].Idle?
    ensures s.readers == s.writers == s.readWaiters == s.writeWaiters == 0
  {
    forall t | 0 <= t < |s.threads|
      ensures !s.threads[t].Reading? && !s.threads[t].Writing? && !IsNotified(s.threads[t])
    {
      assert !Drains(s, Event(t, ReadUnlock)) && !Drains(s, Event(t, WriteUnlock));
      assert !Drains(s, Event(t, ReadWake)) && !Drains(s, Event(t, WriteWake));
    }
    Nobody(s.threads, Reader);
    Nobody(s.threads, Writer);
    if s.writeWaiters == 0 {
      forall t | 0 <= t < |s.threads|
        ensures !s.threads[t].WaitingWrite?
      {
        if s.threads[t].WaitingWrite? { CountPositive(s.threads, t, WriteWaiter); }
      }
    }
    Nobody(s.threads, ReadWaiter);
  }

  lemma Nobody(threads: seq<Thread>, role: Role)
    requires forall t :: 0 <= t < |threads| ==> !Plays(threads[t], role)
    ensures Count(threads, role) == 0
  {
    if Count(threads, role) > 0 {
      var t := CountWitness(threads, role);
    }
  }

  ghost predicate Holds(t: Thread, asWriter: bool) {
    if asWriter then t.Writing? else t.Reading?
  }

  ghost predicate Waits(t: Thread, asWriter: bool) {
    if asWriter then t.WaitingWrite? else t.WaitingRead?
  }

  /** The only way out of a wait is to hold the lock. */
  lemma {:induction false} WaiterHolds(states: seq<State>, events: seq<Event>, t: nat, asWriter: bool) returns (k: nat)
    requires Run(states, events) && Inv(states[0]) && t < |states[0].threads|
    requires forall i :: 0 <= i < |states| ==> |states[i].threads| == |states[0].threads|
    requires Waits(states[0].threads[t], asWriter) && !Waits(states[|events|].threads[t], asWriter)
    ensures k < |states| && Holds(states[k].threads[t], asWriter)
  {
    var e := events[0];
    assert Step(states[0], states[1], e.thread, e.call);
    if Holds(states[1].threads[t], asWriter) {
      k := 1;
    } else {
      StepKeeps(states[0], states[1], e.thread, e.call);
      StaysWaiting(states[0], states[1], e, t, asWriter);
      k := WaiterHolds(states[1..], events[1..], t, asWriter);
      k := k + 1;
    }
  }

  lemma StaysWaiting(s: State, s': State, e: Event, t: nat, asWriter: bool)
    requires Inv(s) && Step(s, s', e.thread, e.call)
    requires t < |s.threads| == |s'.threads| && Waits(s.threads[t], asWriter)
    ensures Waits(s'.threads[t], asWriter) || Holds(s'.threads[t], asWriter)
  {
  }

  /**
   From any moment of any execution on, if nobody new arrives then the threads run
   dry within the measure, and whoever was waiting has held the lock meanwhile.
   */
  lemma EveryWaiterIsServed(states: seq<State>, events: seq<Event>, n: nat, k: nat,
                            rest: seq<State>, moves: seq<Event>, w: nat, asWriter: bool)
    requires Execution(states, events, n) && k < |states|
    requires DrainingRun(rest, moves) && rest[0] == states[k]
    requires w < |states[k].threads| && Waits(states[k].threads[w], asWriter)
    ensures |moves| <= Measure(states[k])
    ensures (forall e :: !Drains(rest[|moves|], e)) ==>
              exists i :: 0 <= i < |rest| && w < |rest[i].threads| && Holds(rest[i].threads[w], asWriter)
  {
    ExecutionKeeps(states, events, n, k);
    DrainingIsBounded(rest, moves);
    forall i | 0 <= i < |rest|
      ensures |rest[i].threads| == |rest[0].threads|
    {
      RunKeeps(rest, moves, i);
    }
    if forall e :: !Drains(rest[|moves|], e) {
      DrainedMeansServed(rest[|moves|]);
      var i := WaiterHolds(rest, moves, w, asWriter);
    }
  }

  /** There is such a run, from any moment of any execution on. */
  lemma EveryWaiterCanBeServed(states: seq<State>, events: seq<Event>, n: nat, k: nat, w: nat, asWriter: bool)
    returns (rest: seq<State>, moves: seq<Event>, i: nat)
    requires Execution(states, events, n) && k < |states|
    requires w < |states[k].threads| && Waits(states[k].threads[w], asWriter)
    ensures DrainingRun(rest, moves) && rest[0] == states[k] && (forall e :: !Drains(rest[|moves|], e))
    ensures i < |rest| && w < |rest[i].threads| && Holds(rest[i].threads[w], asWriter)
  {
    hide Inv, Step, Drains;
    ExecutionKeeps(states, events, n, k);
    rest, moves := RunsDry(states[k]);
    EveryWaiterIsServed(states, events, n, k, rest, moves, w, asWriter);
    i :| 0 <= i < |rest| && w < |rest[i].threads| && Holds(rest[i].threads[w], asWriter);
  }

  // ----- With a stream of writers, a reader waits for ever -----

  /** Thread 0 waits to read, unnotified, while writer h is in and all others are out. */
  function Held(n: nat, h: nat): State
    requires n >= 3 && 1 <= h <= 2
  {
    State(0, 1, 1, 0, Init(n).threads[0 := WaitingRead(false)][h := Writing])
  }

  /** The other writer comes, waits, is notified and takes over. */
  function Queued(n: nat, h: nat): State
    requires n >= 3 && 1 <= h <= 2
  {
    Held(n, h).(writeWaiters := 1, threads := Held(n, h).threads[3 - h := WaitingWrite(false)])
  }

  function Released(n: nat, h: nat): State
    requires n >= 3 && 1 <= h <= 2
  {
    Queued(n, h).(writers := 0, threads := Queued(n, h).threads[h := Idle][3 - h := WaitingWrite(true)])
  }

  predicate FirstWaits(s: State) {
    s.threads != [] && s.threads[0] == WaitingRead(false)
  }

  lemma TakeOver(n: nat, h: nat)
    requires n >= 3 && 1 <= h <= 2
    ensures Step(Held(n, h), Queued(n, h), 3 - h, WriteLock)
    ensures Step(Queued(n, h), Released(n, h), h, WriteUnlock)
    ensures Step(Released(n, h), Held(n, 3 - h), 3 - h, WriteWake)
    ensures FirstWaits(Queued(n, h)) && FirstWaits(Released(n, h)) && FirstWaits(Held(n, 3 - h))
  {
    var idle := Queued(n, h).threads[h := Idle];
    assert idle[3 - h] == WaitingWrite(false);
    assert NotifiedOneWriter(idle, Released(n, h).threads);
    assert Released(n, h).threads[3 - h := Writing] == Held(n, 3 - h).threads;
  }

  lemma RunExtended(states: seq<State>, events: seq<Event>, s: State, e: Event)
    requires Run(states, events) && Step(states[|events|], s, e.thread, e.call)
    ensures Run(states + [s], events + [e]) && |states| == |events| + 1
  {
    hide Step;
    var states', events' := states + [s], events + [e];
    forall k | 0 <= k < |events'|
      ensures Step(states'[k], states'[k + 1], events'[k].thread, events'[k].call)
    {
      if k < |events| {
        assert Step(states[k], states[k + 1], events[k].thread, events[k].call);
      }
    }
  }

  /** From the third state on, thread 0 waits, and nobody has notified it. */
  predicate ReaderWaits(states: seq<State>) {
    forall k :: 2 <= k < |states| ==> FirstWaits(states[k])
  }

  function Turn(m: nat): nat {
    1 + m % 2
  }

  /** However many writers have been served, the reader that came before them may still wait. */
  lemma {:induction false} ReaderStarves(n: nat, m: nat) returns (states: seq<State>, events: seq<Event>)
    requires 3 <= n < WIDTH
    ensures Execution(states, events, n) && |states| == |events| + 1 == 3 * m + 3 && ReaderWaits(states)
    ensures states[|events|] == Held(n, Turn(m))
    ensures forall c :: 0 <= c < m ==> events[3 * c + 4].call == WriteWake && states[3 * c + 5] == Held(n, Turn(c + 1))
  {
    hide Step, Run, Held, Queued, Released, Init, FirstWaits;
    if m == 0 {
      states, events := FirstReader(n);
    } else {
      states, events := ReaderStarves(n, m - 1);
      var h := Turn(m - 1);
      TakeOver(n, h);
      assert Turn(m) == 3 - h;
      RunExtended(states, events, Queued(n, h), Event(3 - h, WriteLock));
      states, events := states + [Queued(n, h)], events + [Event(3 - h, WriteLock)];
      RunExtended(states, events, Released(n, h), Event(h, WriteUnlock));
      states, events := states + [Released(n, h)], events + [Event(h, WriteUnlock)];
      RunExtended(states, events, Held(n, 3 - h), Event(3 - h, WriteWake));
      states, events := states + [Held(n, 3 - h)], events + [Event(3 - h, WriteWake)];
    }
  }

  lemma FirstReader(n: nat) returns (states: seq<State>, events: seq<Event>)
    requires 3 <= n < WIDTH
    ensures Execution(states, events, n) && |states| == |events| + 1 == 3 && states[2] == Held(n, 1) && FirstWaits(states[2])
  {
    var s := Init(n);
    var s1 := s.(writers := 1, threads := s.threads[1 := Writing]);
    states, events := [s, s1, Held(n, 1)], [Event(1, WriteLock), Event(0, ReadLock)];
    assert Held(n, 1).threads == s1.threads[0 := WaitingRead(false)];
    assert Step(s, s1, 1, WriteLock) && Step(s1, Held(n, 1), 0, ReadLock);
  }

  // ----- The class -----

  /**
   The lock with its four fields. Each method is one critical section: it runs
   under the mutex from entry (or from the return of wait) to the next wait or
   to the end. The field threads records where every thread of the program is.
   */
  class ReadWriteLock {
    var readers: int
    var writers: int
    var readWaiters: int
    var writeWaiters: int
    var threads: seq<Thread>

    ghost function Abs(): State
      reads this
    {
      State(readers, writers, readWaiters, writeWaiters, threads)
    }

    constructor (n: nat)
      ensures Abs() == Init(n)
    {
      readers, writers, readWaiters, writeWaiters := 0, 0, 0, 0;
      threads := seq(n, _ => Idle);
    }

    method NotifyOneWriter()
      modifies this`threads
      ensures |threads| == |old(threads)| && NotifiedOneWriter(old(threads), threads)
    {
      if w :| 0 <= w < |threads| && threads[w] == WaitingWrite(false) {
        threads := threads[w := WaitingWrite(true)];
      }
    }

    method ReadLock(t: nat) returns (acquired: bool)
      requires Inv(Abs()) && t < |threads| && threads[t].Idle?
      modifies this
      ensures ReadLockStep(old(Abs()), Abs(), t) && Inv(Abs()) && acquired == threads[t].Reading?
    {
      acquired := !(writers != 0 || writeWaiters != 0);
      if !acquired {
        readWaiters := Up(readWaiters);
        threads := threads[t := WaitingRead(false)];
      } else {
        readers := Up(readers);
        threads := threads[t := Reading];
      }
      ReadLockKeeps(old(Abs()), Abs(), t);
    }

    method ReadWake(t: nat) returns (acquired: bool)
      requires Inv(Abs()) && t < |threads| && threads[t].WaitingRead?
      modifies this
      ensures ReadWakeStep(old(Abs()), Abs(), t) && Inv(Abs()) && acquired == threads[t].Reading?
    {
      acquired := !(writers != 0 || writeWaiters != 0);
      if !acquired {
        threads := threads[t := WaitingRead(false)];
      } else {
        readWaiters := Down(readWaiters);
        readers := Up(readers);
        threads := threads[t := Reading];
      }
      ReadWakeKeeps(old(Abs()), Abs(), t);
    }

    method ReadUnlock(t: nat)
      requires Inv(Abs()) && t < |threads| && threads[t].Reading?
      modifies this
      ensures ReadUnlockStep(old(Abs()), Abs(), t) && Inv(Abs())
    {
      readers := Down(readers);
      threads := threads[t := Idle];
      if writeWaiters != 0 {
        NotifyOneWriter();
      }
      ReadUnlockKeeps(old(Abs()), Abs(), t);
      assert readers >= 0;  // ASSERT of the source
    }

    method WriteLock(t: nat) returns (acquired: bool)
      requires Inv(Abs()) && t < |threads| && threads[t].Idle?
      modifies this
      ensures WriteLockStep(old(Abs()), Abs(), t) && Inv(Abs()) && acquired == threads[t].Writing?
    {
      acquired := !(readers != 0 || writers != 0);
      if !acquired {
        writeWaiters := Up(writeWaiters);
        threads := threads[t := WaitingWrite(false)];
      } else {
        assert writers == 0;  // ASSERT of the source
        writers := 1;
        threads := threads[t := Writing];
      }
      WriteLockKeeps(old(Abs()), Abs(), t);
    }

    method WriteWake(t: nat) returns (acquired: bool)
      requires Inv(Abs()) && t < |threads| && threads[t].WaitingWrite?
      modifies this
      ensures WriteWakeStep(old(Abs()), Abs(), t) && Inv(Abs()) && acquired == threads[t].Writing?
    {
      acquired := !(readers != 0 || writers != 0);
      if !acquired {
        threads := threads[t := WaitingWrite(false)];
      } else {
        writeWaiters := Down(writeWaiters);
        assert writers == 0;  // ASSERT of the source
        writers := 1;
        threads := threads[t := Writing];
      }
      WriteWakeKeeps(old(Abs()), Abs(), t);
    }

    method WriteUnlock(t: nat)
      requires Inv(Abs()) && t < |threads| && threads[t].Writing?
      modifies this
      ensures WriteUnlockStep(old(Abs()), Abs(), t) && Inv(Abs())
    {
      CountPositive(threads, t, Writer);
      assert writers == 1;  // ASSERT of the source
      writers := 0;
      threads := threads[t := Idle];
      if writeWaiters != 0 {
        NotifyOneWriter();
      } else if readWaiters != 0 {
        threads := NotifyAllReaders(threads);
      }
      WriteUnlockKeeps(old(Abs()), Abs(), t);
    }
  }
}
