/**
 * The hand-off of finished blocking jobs from worker threads to the selector thread in
 * src/ignore/selector.c, as the interleaving of the atomic steps of selector_notify_block (any
 * number of workers) and of the selector_select loop (one thread).
 *
 * The wake-up signal is blocked except inside pselect, so a signal sent at any other time stays
 * pending; several pending signals are one. Until selector_select has stored its thread, a signal
 * is sent to nobody.
 */
module SelectorHandoff {
  import opened SelectorTable
  import opened SelectorDispatch
  import opened SelectorBlock

  datatype Owner = Free | BySelector | ByWorker(id: nat)

  /** Where a worker is inside selector_notify_block. */
  datatype WorkerAt =
    | Idle
    | Wanting(job: Job)   // the node is allocated, the mutex not yet taken
    | Holding(job: Job)   // the mutex is taken, the node not yet linked
    | Linked(job: Job)    // the node is the head of the list, the mutex still taken
    | Unsignalled(job: Job) // the mutex is released, the signal not yet sent

  /** Where the selector thread is inside its loop. */
  datatype SelectorAt =
    | Preparing                // before its thread is stored
    | Stored                   // about to enter pselect
    | Waiting                  // inside pselect
    | Dispatching              // in handle_iteration
    | Locking                  // about to take the mutex
    | Draining(next: nat)      // in the drain loop, at this node of the list
    | Cleared                  // the list is reset, the mutex still taken

  /** A finished drain loop: its list, the table it began with, what the callbacks did, and the calls made. */
  datatype Batch = Batch(jobs: seq<Job>, start: Table, answers: seq<seq<Op>>, calls: seq<BlockCall>)

  datatype State = State(
    jobs: seq<Job>, // the list, head first
    known: bool, // selector_thread was stored
    pending: bool,
    mutex: Owner,
    selector: SelectorAt,
    workers: map<nat, WorkerAt>,
    table: Table,
    nextTicket: nat,
    queued: seq<Job>, // every job ever linked, in that order
    early: set<nat>, // the jobs whose signal was sent before the thread was stored
    start: Table, // the table when the running drain loop began
    answers: seq<seq<Op>>, // what its callbacks did so far
    calls: seq<BlockCall>, // the calls it made
    batches: seq<Batch>)

  const INITIAL := State([], false, false, Free, Preparing, map[], map[], 0, [], {}, map[], [], [], [])

  /** Steps of other code the selector thread runs leave an arbitrary table; a block callback does some operations. */
  datatype Step =
    | Allocate(w: nat, fd: int)
    | WorkerLock(w: nat)
    | Link(w: nat)
    | WorkerUnlock(w: nat)
    | Signal(w: nat)
    | StoreThread
    | EnterSelect(table: Table)
    | Interrupted
    | ReturnReady(signalTaken: bool) // descriptors are ready or the timeout passed
    | Iterate(table: Table)
    | SelectorLock
    | DrainOne(ops: seq<Op>)
    | Clear
    | SelectorUnlock

  predicate IsSelectorStep(t: Step) {
    !(t.Allocate? || t.WorkerLock? || t.Link? || t.WorkerUnlock? || t.Signal?)
  }

  function At(s: State, w: nat): WorkerAt {
    if w in s.workers then s.workers[w] else Idle
  }

  predicate Enabled(s: State, t: Step) {
    match t
    case Allocate(w, _) => At(s, w) == Idle
    case WorkerLock(w) => At(s, w).Wanting? && s.mutex == Free
    case Link(w) => At(s, w).Holding?
    case WorkerUnlock(w) => At(s, w).Linked?
    case Signal(w) => At(s, w).Unsignalled?
    case StoreThread => s.selector == Preparing
    case EnterSelect(_) => s.selector == Stored
    case Interrupted => s.selector == Waiting && s.pending
    case ReturnReady(taken) => s.selector == Waiting && (taken ==> s.pending)
    case Iterate(_) => s.selector == Dispatching
    case SelectorLock => s.selector == Locking && s.mutex == Free
    case DrainOne(_) => s.selector.Draining? && s.selector.next < |s.jobs|
    case Clear => s.selector.Draining? && s.selector.next >= |s.jobs|
    case SelectorUnlock => s.selector == Cleared
  }

  function Take(s: State, t: Step): State
    requires Enabled(s, t)
  {
    match t
    case Allocate(w, fd) => s.(workers := s.workers[w := Wanting(Job(s.nextTicket, fd))], nextTicket := s.nextTicket + 1)
    case WorkerLock(w) => s.(workers := s.workers[w := Holding(At(s, w).job)], mutex := ByWorker(w))
    case Link(w) =>
      var job := At(s, w).job;
      s.(workers := s.workers[w := Linked(job)], jobs := [job] + s.jobs, queued := s.queued + [job])
    case WorkerUnlock(w) => s.(workers := s.workers[w := Unsignalled(At(s, w).job)], mutex := Free)
    case Signal(w) =>
      s.(workers := s.workers[w := Idle], pending := s.pending || s.known,
         early := if s.known then s.early else s.early + {At(s, w).job.ticket})
    case StoreThread => s.(selector := Stored, known := true)
    case EnterSelect(t) => s.(selector := Waiting, table := t)
    case Interrupted => s.(selector := Locking, pending := false)
    case ReturnReady(taken) => s.(selector := Dispatching, pending := s.pending && !taken)
    case Iterate(t) => s.(selector := Locking, table := t)
    case SelectorLock =>
      s.(selector := Draining(0), mutex := BySelector, start := s.table, answers := [], calls := [])
    case DrainOne(ops) =>
      var d := NotifyOne(Drain(s.table, s.calls), s.jobs[s.selector.next], ops);
      s.(selector := Draining(s.selector.next + 1), table := d.table, calls := d.calls, answers := s.answers + [ops])
    case Clear =>
      s.(selector := Cleared, jobs := [], batches := s.batches + [Batch(s.jobs, s.start, s.answers, s.calls)])
    case SelectorUnlock => s.(selector := Preparing, mutex := Free)
  }

  // Runs

  ghost predicate CanRun(s: State, steps: seq<Step>)
    decreases steps
  {
    steps == [] || (Enabled(s, steps[0]) && CanRun(Take(s, steps[0]), steps[1..]))
  }

  function After(s: State, steps: seq<Step>): State
    requires CanRun(s, steps)
    decreases steps
  {
    if steps == [] then s else After(Take(s, steps[0]), steps[1..])
  }

  // The invariant

  function Reversed(jobs: seq<Job>): (r: seq<Job>)
    ensures |r| == |jobs|
    ensures forall i :: 0 <= i < |r| ==> r[i] == jobs[|jobs| - 1 - i]
  {
    seq(|jobs|, i requires 0 <= i < |jobs| => jobs[|jobs| - 1 - i])
  }

  /** The jobs of all finished batches; each batch is newest first, so it is turned around. */
  function OldestFirst(batches: seq<Batch>): seq<Job> {
    if batches == [] then []
    else OldestFirst(batches[..|batches| - 1]) + Reversed(batches[|batches| - 1].jobs)
  }

  function Tickets(jobs: seq<Job>): set<nat> {
    set k | 0 <= k < |jobs| :: jobs[k].ticket
  }

  lemma TicketsAdd(jobs: seq<Job>, job: Job)
    ensures Tickets(jobs + [job]) == Tickets(jobs) + {job.ticket}
  {
    forall x | x in Tickets(jobs) + {job.ticket}
      ensures x in Tickets(jobs + [job])
    {
      if x in Tickets(jobs) {
        var k :| 0 <= k < |jobs| && jobs[k].ticket == x;
        assert (jobs + [job])[k].ticket == x;
      } else {
        assert (jobs + [job])[|jobs|].ticket == x;
      }
    }
  }

  predicate Unlinked(at: WorkerAt) {
    at.Wanting? || at.Holding?
  }

  /** The job is linked and its signal not yet sent. */
  predicate OnItsWay(at: WorkerAt) {
    at.Linked? || at.Unsignalled?
  }

  /** Some worker has linked a job and not yet sent its signal. */
  ghost predicate SignalOnItsWay(s: State) {
    exists w :: w in s.workers && OnItsWay(s.workers[w])
  }

  /** Before pselect or inside it. */
  predicate InFront(at: SelectorAt) {
    at == Preparing || at == Stored || at == Waiting
  }

  ghost predicate MutexSafe(s: State) {
    && (forall w :: w in s.workers && (s.workers[w].Holding? || s.workers[w].Linked?) ==> s.mutex == ByWorker(w))
    && (s.mutex == BySelector <==> s.selector.Draining? || s.selector == Cleared)
    && (s.mutex.ByWorker? ==> At(s, s.mutex.id).Holding? || At(s, s.mutex.id).Linked?)
  }

  /** The running drain loop has done what handle_block_notifications does with the list up to its cursor. */
  ghost predicate DrainSafe(s: State) {
    && (s.selector.Draining? ==>
          && s.selector.next == |s.answers| <= |s.jobs|
          && Drain(s.table, s.calls) == NotifyAll(s.start, s.jobs[..s.selector.next], s.answers))
    && (s.selector == Cleared ==> s.jobs == [])
  }

  /** Nothing queued is lost, repeated or reordered. */
  ghost predicate Conserved(s: State) {
    s.queued == OldestFirst(s.batches) + Reversed(s.jobs)
  }

  /** The job of a busy worker is its own: new to the queue until it is linked, and not signalled before it is. */
  ghost predicate WorkerSafe(s: State, w: nat) {
    w in s.workers && s.workers[w] != Idle ==>
      var ticket := s.workers[w].job.ticket;
      && ticket < s.nextTicket && ticket !in s.early
      && (Unlinked(s.workers[w]) ==> ticket !in Tickets(s.queued))
      && (OnItsWay(s.workers[w]) ==> ticket in Tickets(s.queued))
  }

  ghost predicate WorkersDiffer(s: State, v: nat, w: nat) {
    v in s.workers && w in s.workers && v != w && s.workers[v] != Idle && s.workers[w] != Idle
    ==> s.workers[v].job.ticket != s.workers[w].job.ticket
  }

  ghost predicate QueueSafe(s: State) {
    && AllDifferent(s.queued)
    && (forall x :: x in Tickets(s.queued) ==> x < s.nextTicket)
    && s.early <= Tickets(s.queued)
  }

  ghost predicate TicketsSafe(s: State) {
    && QueueSafe(s)
    && (forall w :: WorkerSafe(s, w))
    && (forall v, w :: WorkersDiffer(s, v, w))
  }

  /** Some worker is about to signal this job. */
  ghost predicate SignalFor(s: State, ticket: nat) {
    exists w :: w in s.workers && OnItsWay(s.workers[w]) && s.workers[w].job.ticket == ticket
  }

  /** In front of the list, every listed job was signalled too early, or its wake-up is pending or coming. */
  ghost predicate Announced(s: State) {
    InFront(s.selector) ==>
      forall k :: 0 <= k < |s.jobs| && s.jobs[k].ticket !in s.early ==> s.pending || SignalFor(s, s.jobs[k].ticket)
  }

  /** Signals that came too early can only concern the first round, and leave nothing pending. */
  ghost predicate EarlySafe(s: State) {
    && (!s.known ==> !s.pending && s.selector == Preparing && s.batches == [])
    && (s.selector == Cleared ==> s.batches != [])
    && (s.batches != [] ==> forall k :: 0 <= k < |s.jobs| ==> s.jobs[k].ticket !in s.early)
    && (InFront(s.selector) && s.batches == [] && s.pending ==> exists x :: x in Tickets(s.queued) && x !in s.early)
  }

  /** The batch's calls are those of handle_block_notifications run on its list. */
  ghost predicate Honest(b: Batch) {
    |b.answers| == |b.jobs| && b.calls == NotifyAll(b.start, b.jobs, b.answers).calls
  }

  ghost predicate AllHonest(s: State) {
    forall k :: 0 <= k < |s.batches| ==> Honest(s.batches[k])
  }

  ghost predicate Inv(s: State) {
    MutexSafe(s) && DrainSafe(s) && Conserved(s) && TicketsSafe(s) && Announced(s) && EarlySafe(s) && AllHonest(s)
  }

  lemma MutexKept(s: State, t: Step)
    requires Enabled(s, t) && MutexSafe(s)
    ensures MutexSafe(Take(s, t))
  {
    hide NotifyOne;
  }

  lemma DrainKept(s: State, t: Step)
    requires Enabled(s, t) && MutexSafe(s) && DrainSafe(s)
    ensures DrainSafe(Take(s, t))
  {
    if t.DrainOne? {
      var i := s.selector.next;
      var jobs, answers := s.jobs[..i + 1], s.answers + [t.ops];
      assert jobs[..i] == s.jobs[..i] && answers[..i] == s.answers;
      assert NotifyAll(s.start, jobs, answers) == NotifyOne(NotifyAll(s.start, jobs[..i], answers[..i]), jobs[i], answers[i]);
    } else if t.Link? {
      assert !s.selector.Draining?;
    }
    hide NotifyAll;
    hide NotifyOne;
  }

  lemma ConservedKept(s: State, t: Step)
    requires Enabled(s, t) && Conserved(s)
    ensures Conserved(Take(s, t))
  {
    hide OldestFirst;
    hide Reversed;
    hide NotifyOne;
    var s' := Take(s, t);
    if t.Link? {
      LinkKeepsOrder(OldestFirst(s.batches), s.jobs, s'.jobs[0]);
    } else if t.Clear? {
      ClearKeepsOrder(s.batches, Batch(s.jobs, s.start, s.answers, s.calls));
    } else {
      assert s'.queued == s.queued && s'.batches == s.batches && s'.jobs == s.jobs;
    }
  }

  lemma LinkKeepsOrder(drained: seq<Job>, jobs: seq<Job>, job: Job)
    ensures drained + Reversed([job] + jobs) == drained + Reversed(jobs) + [job]
  {
    assert Reversed([job] + jobs) == Reversed(jobs) + [job];
  }

  lemma ClearKeepsOrder(batches: seq<Batch>, last: Batch)
    ensures OldestFirst(batches + [last]) + Reversed([]) == OldestFirst(batches) + Reversed(last.jobs)
  {
    var all := batches + [last];
    assert all[..|all| - 1] == batches;
    assert OldestFirst(all) == OldestFirst(batches) + Reversed(last.jobs);
    assert Reversed([]) == [];
  }

  lemma HonestKept(s: State, t: Step)
    requires Enabled(s, t) && DrainSafe(s) && AllHonest(s)
    ensures AllHonest(Take(s, t))
  {
    if t.Clear? {
      assert s.jobs[..|s.jobs|] == s.jobs;
    }
    hide NotifyAll;
    hide NotifyOne;
  }

  lemma QueueKept(s: State, t: Step)
    requires Enabled(s, t) && TicketsSafe(s)
    ensures QueueSafe(Take(s, t))
  {
    hide NotifyOne;
    if t.Link? {
      assert WorkerSafe(s, t.w);
      TicketsAdd(s.queued, At(s, t.w).job);
      StillDifferent(s.queued, At(s, t.w).job);
    } else if t.Signal? {
      assert WorkerSafe(s, t.w);
    }
    hide Tickets;
    hide AllDifferent;
  }

  lemma StillDifferent(jobs: seq<Job>, job: Job)
    requires AllDifferent(jobs) && job.ticket !in Tickets(jobs)
    ensures AllDifferent(jobs + [job])
  {
    forall k | 0 <= k < |jobs|
      ensures jobs[k].ticket in Tickets(jobs)
    {
    }
  }

  lemma WorkerKept(s: State, t: Step, w: nat)
    requires Enabled(s, t) && TicketsSafe(s)
    ensures WorkerSafe(Take(s, t), w)
  {
    hide NotifyOne;
    assert WorkerSafe(s, w);
    if t.Link? {
      TicketsAdd(s.queued, At(s, t.w).job);
      assert WorkersDiffer(s, t.w, w);
    } else if t.Signal? {
      assert WorkersDiffer(s, t.w, w);
    }
    hide Tickets;
  }

  lemma DifferKept(s: State, t: Step, v: nat, w: nat)
    requires Enabled(s, t) && TicketsSafe(s)
    ensures WorkersDiffer(Take(s, t), v, w)
  {
    hide NotifyOne;
    hide Tickets;
    assert WorkersDiffer(s, v, w) && WorkerSafe(s, v) && WorkerSafe(s, w);
  }

  lemma TicketsKept(s: State, t: Step)
    requires Enabled(s, t) && TicketsSafe(s)
    ensures TicketsSafe(Take(s, t))
  {
    QueueKept(s, t);
    var s' := Take(s, t);
    forall w
      ensures WorkerSafe(s', w)
    {
      WorkerKept(s, t, w);
    }
    forall v, w
      ensures WorkersDiffer(s', v, w)
    {
      DifferKept(s, t, v, w);
    }
    hide WorkerSafe;
    hide WorkersDiffer;
    hide QueueSafe;
  }

  lemma AnnouncedKept(s: State, t: Step)
    requires Enabled(s, t) && DrainSafe(s) && Announced(s)
    ensures Announced(Take(s, t))
  {
    hide NotifyOne;
    hide NotifyAll;
    var s' := Take(s, t);
    if InFront(s'.selector) && InFront(s.selector) {
      forall k | 0 <= k < |s'.jobs| && s'.jobs[k].ticket !in s'.early
        ensures s'.pending || SignalFor(s', s'.jobs[k].ticket)
      {
        if t.Link? && k == 0 {
          assert t.w in s'.workers && OnItsWay(s'.workers[t.w]);
        } else {
          var ticket := s'.jobs[k].ticket;
          assert ticket == s.jobs[if t.Link? then k - 1 else k].ticket;
          if !s'.pending {
            var w :| w in s.workers && OnItsWay(s.workers[w]) && s.workers[w].job.ticket == ticket;
            assert w in s'.workers && OnItsWay(s'.workers[w]) && s'.workers[w].job.ticket == ticket;
          }
        }
      }
    }
  }

  lemma EarlyKept(s: State, t: Step)
    requires Enabled(s, t) && DrainSafe(s) && TicketsSafe(s) && EarlySafe(s)
    ensures EarlySafe(Take(s, t))
  {
    hide NotifyOne;
    hide NotifyAll;
    if t.Link? {
      assert WorkerSafe(s, t.w);
      TicketsAdd(s.queued, At(s, t.w).job);
    } else if t.Signal? {
      assert WorkerSafe(s, t.w);
    }
    hide Tickets;
    hide WorkersDiffer;
  }

  lemma InvKept(s: State, t: Step)
    requires Enabled(s, t) && Inv(s)
    ensures Inv(Take(s, t))
  {
    MutexKept(s, t);
    DrainKept(s, t);
    ConservedKept(s, t);
    TicketsKept(s, t);
    AnnouncedKept(s, t);
    EarlyKept(s, t);
    HonestKept(s, t);
    hide Take;
    hide MutexSafe;
    hide DrainSafe;
    hide Conserved;
    hide TicketsSafe;
    hide Announced;
    hide EarlySafe;
    hide AllHonest;
  }

  lemma {:induction false} InvAfter(s: State, steps: seq<Step>)
    requires Inv(s) && CanRun(s, steps)
    ensures Inv(After(s, steps))
    decreases steps
  {
    hide Inv;
    hide Take;
    hide Enabled;
    if steps != [] {
      InvKept(s, steps[0]);
      InvAfter(Take(s, steps[0]), steps[1..]);
    }
  }

  lemma InitialIsSafe()
    ensures Inv(INITIAL)
  {
    assert INITIAL.queued == OldestFirst(INITIAL.batches) + Reversed(INITIAL.jobs);
  }

  // What holds in every interleaving

  /** Some listed job was not signalled before selector_select stored its thread. */
  ghost predicate SomeoneInTime(s: State) {
    exists k :: 0 <= k < |s.jobs| && s.jobs[k].ticket !in s.early
  }

  /**
   * With jobs queued and the selector before or inside pselect, a wake-up is pending or coming if
   * and only if not all of them were signalled before selector_select was first called.
   */
  lemma NoLostWakeupIff(steps: seq<Step>)
    requires CanRun(INITIAL, steps)
    ensures var s := After(INITIAL, steps);
            InFront(s.selector) && s.jobs != [] ==> (s.pending || SignalOnItsWay(s) <==> SomeoneInTime(s))
  {
    InitialIsSafe();
    InvAfter(INITIAL, steps);
    var s := After(INITIAL, steps);
    hide After;
    hide CanRun;
    if InFront(s.selector) && s.jobs != [] {
      WakeupIff(s);
    }
  }

  lemma WakeupIff(s: State)
    requires Inv(s) && InFront(s.selector) && s.jobs != []
    ensures s.pending || SignalOnItsWay(s) <==> SomeoneInTime(s)
  {
    if SomeoneInTime(s) {
      var k :| 0 <= k < |s.jobs| && s.jobs[k].ticket !in s.early;
      assert s.pending || SignalFor(s, s.jobs[k].ticket);
    }
    if s.pending || SignalOnItsWay(s) {
      WakeupIsInTime(s);
    }
  }

  lemma WakeupIsInTime(s: State)
    requires Inv(s) && InFront(s.selector) && s.jobs != [] && (s.pending || SignalOnItsWay(s))
    ensures SomeoneInTime(s)
  {
    if s.batches != [] {
      assert s.jobs[0].ticket !in s.early;
    } else {
      OnlyListed(s);
      hide Tickets;
      hide WorkersDiffer;
      hide AllHonest;
      if !s.pending {
        var w :| w in s.workers && OnItsWay(s.workers[w]);
        assert WorkerSafe(s, w);
      }
    }
  }

  /** Before the first drain, whatever was queued is listed. */
  lemma OnlyListed(s: State)
    requires Conserved(s) && s.batches == []
    ensures forall x :: x in Tickets(s.queued) ==> exists k :: 0 <= k < |s.jobs| && s.jobs[k].ticket == x
  {
    assert s.queued == Reversed(s.jobs);
    hide Conserved;
    ReversedTickets(s.jobs);
  }

  lemma ReversedTickets(jobs: seq<Job>)
    ensures forall x :: x in Tickets(Reversed(jobs)) ==> exists k :: 0 <= k < |jobs| && jobs[k].ticket == x
  {
    var r := Reversed(jobs);
    hide Reversed;
    forall x | x in Tickets(r)
      ensures exists k :: 0 <= k < |jobs| && jobs[k].ticket == x
    {
      var i :| 0 <= i < |r| && r[i].ticket == x;
      assert jobs[|jobs| - 1 - i].ticket == x;
    }
  }

  lemma {:induction false} KnownStays(s: State, steps: seq<Step>)
    requires CanRun(s, steps) && s.known
    ensures After(s, steps).known && After(s, steps).early == s.early
    decreases steps
  {
    if steps != [] {
      assert Take(s, steps[0]).known && Take(s, steps[0]).early == s.early by {
        hide NotifyOne;
      }
      hide Take;
      hide Enabled;
      KnownStays(Take(s, steps[0]), steps[1..]);
    }
  }

  /** In every interleaving in which the selector stores its thread first, no wake-up is lost. */
  lemma NoLostWakeup(steps: seq<Step>)
    requires CanRun(INITIAL, steps) && steps != [] && steps[0] == StoreThread
    ensures var s := After(INITIAL, steps);
            InFront(s.selector) && s.jobs != [] ==> s.pending || SignalOnItsWay(s)
  {
    NoLostWakeupIff(steps);
    KnownStays(Take(INITIAL, StoreThread), steps[1..]);
    hide Take;
    var s := After(INITIAL, steps);
    assert s.jobs != [] ==> s.jobs[0].ticket !in s.early;
  }

  lemma StepFirst(s: State, t: Step, rest: seq<Step>)
    requires Enabled(s, t) && CanRun(Take(s, t), rest)
    ensures CanRun(s, [t] + rest) && After(s, [t] + rest) == After(Take(s, t), rest)
  {
    assert ([t] + rest)[1..] == rest;
    hide Take;
    hide Enabled;
  }

  /** The two halves of selector_notify_block, for a worker nobody gets in the way of. */
  lemma WorkerLinks(s: State, w: nat, fd: int, rest: seq<Step>)
    requires At(s, w) == Idle && s.mutex == Free
    ensures var job := Job(s.nextTicket, fd);
            var e := s.(workers := s.workers[w := Wanting(job)][w := Holding(job)][w := Linked(job)], mutex := ByWorker(w),
                        nextTicket := s.nextTicket + 1, jobs := [job] + s.jobs, queued := s.queued + [job]);
            CanRun(e, rest) ==>
              var steps := [Allocate(w, fd)] + ([WorkerLock(w)] + ([Link(w)] + rest));
              CanRun(s, steps) && After(s, steps) == After(e, rest)
  {
    var s1 := Take(s, Allocate(w, fd));
    var s2 := Take(s1, WorkerLock(w));
    var s3 := Take(s2, Link(w));
    if CanRun(s3, rest) {
      StepFirst(s2, Link(w), rest);
      StepFirst(s1, WorkerLock(w), [Link(w)] + rest);
      StepFirst(s, Allocate(w, fd), [WorkerLock(w)] + ([Link(w)] + rest));
    }
    hide CanRun;
    hide After;
  }

  lemma WorkerSignalsEarly(s: State, w: nat, rest: seq<Step>)
    requires At(s, w).Linked? && !s.known && !s.pending
    ensures var job := At(s, w).job;
            var e := s.(workers := s.workers[w := Unsignalled(job)][w := Idle], mutex := Free, early := s.early + {job.ticket});
            CanRun(e, rest) ==>
              var steps := [WorkerUnlock(w)] + ([Signal(w)] + rest);
              CanRun(s, steps) && After(s, steps) == After(e, rest)
  {
    var s1 := Take(s, WorkerUnlock(w));
    var s2 := Take(s1, Signal(w));
    if CanRun(s2, rest) {
      StepFirst(s1, Signal(w), rest);
      StepFirst(s, WorkerUnlock(w), [Signal(w)] + rest);
    }
    hide CanRun;
    hide After;
  }

  lemma SelectorGoesToSleep(s: State)
    requires s.selector == Preparing
    ensures var e, steps := s.(selector := Waiting, known := true, table := map[]), [StoreThread] + ([EnterSelect(map[])] + []);
            CanRun(s, steps) && After(s, steps) == e
  {
    var s1 := Take(s, StoreThread);
    var s2 := Take(s1, EnterSelect(map[]));
    assert CanRun(s2, []) && After(s2, []) == s2;
    hide CanRun;
    hide After;
    StepFirst(s1, EnterSelect(map[]), []);
    StepFirst(s, StoreThread, [EnterSelect(map[])] + []);
  }

  function EarlyRun(): seq<Step> {
    [Allocate(1, 5)] + ([WorkerLock(1)] + ([Link(1)] + ([WorkerUnlock(1)] + ([Signal(1)]
      + ([StoreThread] + ([EnterSelect(map[])] + []))))))
  }

  /** What the selector is left with after that run. */
  function Asleep(): State {
    var job := Job(0, 5);
    var linked := INITIAL.(workers := map[][1 := Wanting(job)][1 := Holding(job)][1 := Linked(job)], mutex := ByWorker(1),
                           nextTicket := 1, jobs := [job] + [], queued := [] + [job]);
    linked.(workers := linked.workers[1 := Unsignalled(job)][1 := Idle], mutex := Free, early := {} + {0},
            selector := Waiting, known := true)
  }

  lemma EarlyRunSleeps()
    ensures CanRun(INITIAL, EarlyRun()) && After(INITIAL, EarlyRun()) == Asleep()
  {
    var job := Job(0, 5);
    var s3 := INITIAL.(workers := map[][1 := Wanting(job)][1 := Holding(job)][1 := Linked(job)], mutex := ByWorker(1),
                       nextTicket := 1, jobs := [job] + [], queued := [] + [job]);
    var s5 := s3.(workers := s3.workers[1 := Unsignalled(job)][1 := Idle], mutex := Free, early := {} + {0});
    var sleep := [StoreThread] + ([EnterSelect(map[])] + []);
    hide CanRun;
    hide After;
    hide Take;
    hide Enabled;
    SelectorGoesToSleep(s5);
    WorkerSignalsEarly(s3, 1, sleep);
    WorkerLinks(INITIAL, 1, 5, [WorkerUnlock(1)] + ([Signal(1)] + sleep));
  }

  /** A worker that is done before the first selector_select: the selector sleeps on its job, and no signal comes. */
  lemma WakeupCanBeLost()
    ensures CanRun(INITIAL, EarlyRun())
    ensures var s := After(INITIAL, EarlyRun());
            s.selector == Waiting && s.jobs == [Job(0, 5)] && !s.pending && !SignalOnItsWay(s)
  {
    EarlyRunSleeps();
    hide After;
    hide CanRun;
    hide EarlyRun;
  }

  /** Every batch was drained as handle_block_notifications does it: see CallsFollowTheList. */
  ghost predicate CallsAreRight(b: Batch) {
    |b.answers| == |b.jobs| &&
    forall k :: 0 <= k < |b.jobs| ==>
      (Notified(b.calls, b.jobs[k]) <==> b.jobs[k].fd in TableAtTurn(b.start, b.jobs, b.answers, k))
  }

  /**
   * Exactly once, newest first: the queued jobs are all different, and they are the drained
   * batches, each read backwards, followed by what is still listed. The calls of a batch are those of
   * handle_block_notifications, so handle_block ran for a job exactly when its descriptor was
   * registered as its turn came.
   */
  lemma ExactlyOnce(steps: seq<Step>)
    requires CanRun(INITIAL, steps)
    ensures var s := After(INITIAL, steps);
            && AllDifferent(s.queued)
            && s.queued == OldestFirst(s.batches) + Reversed(s.jobs)
            && (forall k :: 0 <= k < |s.batches| ==> Honest(s.batches[k]) && CallsAreRight(s.batches[k]))
  {
    InitialIsSafe();
    InvAfter(INITIAL, steps);
    var s := After(INITIAL, steps);
    hide After;
    hide CanRun;
    DifferentPrefix(OldestFirst(s.batches), Reversed(s.jobs));
    forall k | 0 <= k < |s.batches|
      ensures CallsAreRight(s.batches[k])
    {
      assert Honest(s.batches[k]);
      BatchIsDifferent(s.batches, k);
      HonestIsRight(s.batches[k]);
    }
  }

  lemma HonestIsRight(b: Batch)
    requires Honest(b) && AllDifferent(b.jobs)
    ensures CallsAreRight(b)
  {
    forall k | 0 <= k < |b.jobs|
      ensures Notified(b.calls, b.jobs[k]) <==> b.jobs[k].fd in TableAtTurn(b.start, b.jobs, b.answers, k)
    {
      BlockCalledIff(b.start, b.jobs, b.answers, k);
    }
    hide NotifyAll;
  }

  lemma DifferentPrefix(front: seq<Job>, back: seq<Job>)
    requires AllDifferent(front + back)
    ensures AllDifferent(front) && AllDifferent(back)
  {
    var all := front + back;
    assert forall i :: 0 <= i < |front| ==> front[i] == all[i];
    assert forall i :: 0 <= i < |back| ==> back[i] == all[|front| + i];
  }

  lemma DifferentReversed(jobs: seq<Job>)
    requires AllDifferent(Reversed(jobs))
    ensures AllDifferent(jobs)
  {
    forall i, j | 0 <= i < j < |jobs|
      ensures jobs[i].ticket != jobs[j].ticket
    {
      assert Reversed(jobs)[|jobs| - 1 - i] == jobs[i] && Reversed(jobs)[|jobs| - 1 - j] == jobs[j];
    }
  }

  lemma {:induction false} BatchIsDifferent(batches: seq<Batch>, k: nat)
    requires k < |batches| && AllDifferent(OldestFirst(batches))
    ensures AllDifferent(batches[k].jobs)
    decreases |batches|
  {
    var n := |batches| - 1;
    DifferentPrefix(OldestFirst(batches[..n]), Reversed(batches[n].jobs));
    hide OldestFirst;
    hide AllDifferent;
    if k == n {
      DifferentReversed(batches[n].jobs);
    } else {
      BatchIsDifferent(batches[..n], k);
    }
  }

  // Progress

  /** Nobody but the selector gets at the list while it drains. */
  lemma StillDraining(s: State, t: Step)
    requires Inv(s) && s.selector.Draining? && Enabled(s, t) && !t.Clear?
    ensures var s' := Take(s, t); s'.selector.Draining? && s'.jobs == s.jobs && s'.batches == s.batches
  {
    hide NotifyOne;
    hide NotifyAll;
    hide TicketsSafe;
    hide Announced;
    hide EarlySafe;
    hide AllHonest;
    hide Conserved;
  }

  /** A job linked by the time the selector takes the mutex is in the batch of the next Clear, whatever the workers do. */
  lemma {:induction false} ListedJobsGetDrained(s: State, steps: seq<Step>)
    requires Inv(s) && s.selector.Draining? && CanRun(s, steps)
    requires forall i :: 0 <= i < |steps| ==> !steps[i].Clear?
    ensures var e := After(s, steps);
            && Inv(e) && e.selector.Draining? && e.jobs == s.jobs && e.batches == s.batches
    decreases steps
  {
    if steps != [] {
      var t := steps[0];
      assert After(s, steps) == After(Take(s, t), steps[1..]);
      hide *;
      InvKept(s, t);
      StillDraining(s, t);
      ListedJobsGetDrained(Take(s, t), steps[1..]);
    }
  }

  lemma LockedJobsAreInTheBatch(s: State, steps: seq<Step>)
    requires Inv(s) && Enabled(s, SelectorLock) && CanRun(Take(s, SelectorLock), steps)
    requires forall i :: 0 <= i < |steps| ==> !steps[i].Clear?
    requires Enabled(After(Take(s, SelectorLock), steps), Clear)
    ensures var e := Take(After(Take(s, SelectorLock), steps), Clear);
            |e.batches| == |s.batches| + 1 && e.batches[|s.batches|].jobs == s.jobs && Honest(e.batches[|s.batches|])
  {
    InvKept(s, SelectorLock);
    var d := Take(s, SelectorLock);
    ListedJobsGetDrained(d, steps);
    var e := After(d, steps);
    InvKept(e, Clear);
    hide After;
    hide CanRun;
    var f := Take(e, Clear);
    assert Honest(f.batches[|s.batches|]);
  }

  ghost predicate Quiet(s: State) {
    forall w :: w in s.workers ==> s.workers[w] == Idle
  }

  /** How many steps of its own the selector is at most away from an emptied list. */
  function Rank(s: State): nat {
    match s.selector
    case Preparing => |s.jobs| + 6
    case Stored => |s.jobs| + 5
    case Waiting => |s.jobs| + 4
    case Dispatching => |s.jobs| + 3
    case Locking => |s.jobs| + 2
    case Draining(i) => if i <= |s.jobs| then |s.jobs| - i + 1 else 1
    case Cleared => 0
  }

  /**
   * With jobs queued and no worker half-way, the selector is never stuck; inside pselect it is the
   * signal that wakes it, if and only if not all jobs were signalled too early.
   */
  lemma SelectorCanStep(s: State)
    requires Inv(s) && Quiet(s) && s.jobs != []
    ensures s.selector == Waiting ==> (Enabled(s, Interrupted) <==> SomeoneInTime(s))
    ensures exists t :: IsSelectorStep(t) && Enabled(s, t)
  {
    var t := SelectorMove(s);
    if s.selector == Waiting {
      WakeupIff(s);
    }
    hide Inv;
    hide SomeoneInTime;
  }

  lemma SelectorMove(s: State) returns (t: Step)
    requires MutexSafe(s) && DrainSafe(s) && Quiet(s) && s.jobs != []
    ensures IsSelectorStep(t) && Enabled(s, t)
  {
    hide NotifyAll;
    match s.selector
    case Preparing => t := StoreThread;
    case Stored => t := EnterSelect(map[]);
    case Waiting => t := ReturnReady(false);
    case Dispatching => t := Iterate(map[]);
    case Locking => t := SelectorLock;
    case Draining(i) => t := if i < |s.jobs| then DrainOne([]) else Clear;
    case Cleared => t := SelectorUnlock;
  }

  lemma SelectorStepProgresses(s: State, t: Step)
    requires Inv(s) && Quiet(s) && s.jobs != [] && IsSelectorStep(t) && Enabled(s, t)
    ensures var s' := Take(s, t);
            && Quiet(s') && Rank(s') < Rank(s) && s'.queued == s.queued
            && (s'.jobs != [] || s'.selector == Cleared)
  {
    assert DrainSafe(s);
    hide Inv;
    hide NotifyOne;
    hide NotifyAll;
  }

  ghost predicate SelectorOnly(steps: seq<Step>) {
    forall i :: 0 <= i < |steps| ==> IsSelectorStep(steps[i])
  }

  lemma OneStepMore(s: State, steps: seq<Step>, k: nat)
    requires CanRun(s, steps) && k < |steps| && CanRun(Take(s, steps[0]), steps[1..][..k])
    ensures CanRun(s, steps[..k + 1])
    ensures After(s, steps[..k + 1]) == After(Take(s, steps[0]), steps[1..][..k])
  {
    assert steps[..k + 1][1..] == steps[1..][..k];
  }

  lemma SelectorFirst(s: State, steps: seq<Step>)
    requires CanRun(s, steps) && SelectorOnly(steps) && steps != []
    ensures IsSelectorStep(steps[0]) && Enabled(s, steps[0])
    ensures CanRun(Take(s, steps[0]), steps[1..]) && SelectorOnly(steps[1..])
    ensures CanRun(Take(s, steps[0]), steps[1..][..0])
    ensures After(Take(s, steps[0]), steps[1..][..0]) == Take(s, steps[0])
  {
    assert steps[1..][..0] == [];
  }

  lemma RankIsPositive(s: State)
    requires Inv(s) && s.jobs != []
    ensures Rank(s) > 0
  {
  }

  /**
   * Once the workers are quiet, any Rank(s) steps of the selector, whatever they are, empty the
   * list on the way, and then every job ever queued has been drained.
   */
  lemma {:induction false} QueuedJobsGetDrained(s: State, steps: seq<Step>) returns (k: nat)
    requires Inv(s) && Quiet(s) && s.jobs != []
    requires CanRun(s, steps) && SelectorOnly(steps) && |steps| >= Rank(s)
    ensures k <= Rank(s) && CanRun(s, steps[..k])
    ensures var e := After(s, steps[..k]);
            e.jobs == [] && e.queued == s.queued == OldestFirst(e.batches)
    decreases steps
  {
    hide *;
    RankIsPositive(s);
    SelectorFirst(s, steps);
    var s' := Take(s, steps[0]);
    SelectorStepProgresses(s, steps[0]);
    InvKept(s, steps[0]);
    if s'.jobs == [] {
      k := 0;
      AllDrained(s');
    } else {
      k := QueuedJobsGetDrained(s', steps[1..]);
    }
    OneStepMore(s, steps, k);
    k := k + 1;
  }

  lemma AllDrained(s: State)
    requires Inv(s) && s.jobs == []
    ensures s.queued == OldestFirst(s.batches)
  {
    assert Reversed(s.jobs) == [];
  }

  // Signals and wake-ups

  /** pselect ends because of the signal, or takes it on its way out: no signal is pending then. */
  predicate Wakes(t: Step) {
    t.Interrupted? || (t.ReturnReady? && t.signalTaken)
  }

  ghost predicate NoWakeupBehind(steps: seq<Step>, i: int) {
    forall j :: i < j < |steps| && 0 <= j ==> !Wakes(steps[j])
  }

  ghost predicate StoredBefore(known: bool, steps: seq<Step>, i: nat)
    requires i <= |steps|
  {
    known || exists j :: 0 <= j < i && steps[j].StoreThread?
  }

  /** Step i sends a signal to a thread that was stored by then, and nothing takes it afterwards. */
  ghost predicate LeftPending(known: bool, steps: seq<Step>, i: nat) {
    i < |steps| && steps[i].Signal? && StoredBefore(known, steps, i) && NoWakeupBehind(steps, i)
  }

  lemma StoredLater(known: bool, steps: seq<Step>, i: nat)
    requires 0 < i <= |steps|
    ensures StoredBefore(known, steps, i) <==> StoredBefore(known || steps[0].StoreThread?, steps[1..], i - 1)
  {
    var rest := steps[1..];
    if j :| 0 <= j < i && steps[j].StoreThread? && j > 0 {
      assert rest[j - 1].StoreThread?;
    }
    if j :| 0 <= j < i - 1 && rest[j].StoreThread? {
      assert steps[j + 1].StoreThread?;
    }
  }

  lemma WakeupLater(steps: seq<Step>, i: nat)
    requires 0 < i < |steps|
    ensures NoWakeupBehind(steps, i) <==> NoWakeupBehind(steps[1..], i - 1)
  {
    var rest := steps[1..];
    if NoWakeupBehind(rest, i - 1) {
      assert forall j :: i < j < |steps| ==> steps[j] == rest[j - 1];
    }
    if NoWakeupBehind(steps, i) {
      assert forall j :: i - 1 < j < |rest| ==> rest[j] == steps[j + 1];
    }
  }

  lemma PendingLater(known: bool, steps: seq<Step>, i: nat)
    requires 0 < i < |steps|
    ensures LeftPending(known, steps, i) <==> LeftPending(known || steps[0].StoreThread?, steps[1..], i - 1)
  {
    StoredLater(known, steps, i);
    WakeupLater(steps, i);
    hide StoredBefore;
    hide NoWakeupBehind;
  }

  ghost predicate SomePending(known: bool, steps: seq<Step>) {
    exists i: nat :: LeftPending(known, steps, i)
  }

  lemma SomePendingStep(known: bool, steps: seq<Step>)
    requires steps != []
    ensures SomePending(known, steps)
            <==> (steps[0].Signal? && known && NoWakeupBehind(steps[1..], -1))
                 || SomePending(known || steps[0].StoreThread?, steps[1..])
  {
    var rest, later := steps[1..], known || steps[0].StoreThread?;
    NoWakeupShifted(steps);
    assert LeftPending(known, steps, 0) <==> steps[0].Signal? && known && NoWakeupBehind(rest, -1);
    if i: nat :| LeftPending(known, steps, i) && i > 0 {
      PendingLater(known, steps, i);
      assert LeftPending(later, rest, i - 1);
    }
    if i: nat :| LeftPending(later, rest, i) {
      PendingLater(known, steps, i + 1);
      assert LeftPending(known, steps, i + 1);
    }
  }

  lemma PendingAfter(s: State, t: Step)
    requires Enabled(s, t)
    ensures Take(s, t).known == (s.known || t.StoreThread?)
    ensures Take(s, t).pending == if t.Signal? then s.pending || s.known else s.pending && !Wakes(t)
  {
    hide NotifyOne;
  }

  lemma {:induction false} PendingFrom(s: State, steps: seq<Step>)
    requires CanRun(s, steps)
    ensures After(s, steps).pending <==> SomePending(s.known, steps) || (s.pending && NoWakeupBehind(steps, -1))
    decreases |steps|
  {
    if steps != [] {
      PendingFrom(Take(s, steps[0]), steps[1..]);
      PendingAfter(s, steps[0]);
      SomePendingStep(s.known, steps);
      NoWakeupShifted(steps);
      hide Take;
      hide Enabled;
      hide SomePending;
      hide NoWakeupBehind;
    }
  }

  lemma NoWakeupShifted(steps: seq<Step>)
    requires steps != []
    ensures NoWakeupBehind(steps, -1) <==> !Wakes(steps[0]) && NoWakeupBehind(steps[1..], -1)
    ensures NoWakeupBehind(steps, 0) <==> NoWakeupBehind(steps[1..], -1)
  {
    var rest := steps[1..];
    if NoWakeupBehind(rest, -1) {
      assert forall j :: 0 < j < |steps| ==> steps[j] == rest[j - 1];
    }
    if NoWakeupBehind(steps, 0) {
      assert forall j :: 0 <= j < |rest| ==> rest[j] == steps[j + 1];
    }
  }

  /**
   * In every interleaving a signal is pending exactly when one was sent after the thread was stored and
   * pselect did not end by it since: signals are neither kept beyond a wake-up nor made up.
   */
  lemma PendingIff(steps: seq<Step>)
    requires CanRun(INITIAL, steps)
    ensures After(INITIAL, steps).pending <==> SomePending(false, steps)
  {
    PendingFrom(INITIAL, steps);
  }
}
