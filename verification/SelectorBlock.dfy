/** selector_notify_block's list and handle_block_notifications of src/ignore/selector.c. */
module SelectorBlock {
  import opened Bytes
  import opened SelectorTable
  import opened SelectorDispatch

  /** A list node; the ticket is its identity. */
  datatype Job = Job(ticket: nat, fd: int)

  /** One call of handle_block, with the table as it was at that moment. */
  datatype BlockCall = BlockCall(job: Job, handler: nat, data: nat, table: Table)

  datatype Drain = Drain(table: Table, calls: seq<BlockCall>)

  /** One node of the list: its descriptor's callback runs if it is registered by then, and may do `ops`. */
  function NotifyOne(d: Drain, job: Job, ops: seq<Op>): Drain {
    if job.fd in d.table then
      var reg := d.table[job.fd];
      Drain(ApplyAll(d.table, ops), d.calls + [BlockCall(job, reg.handler, reg.data, d.table)])
    else d
  }

  /** The nodes in list order; the k-th callback, if it runs, does the k-th answer. */
  function NotifyAll(t: Table, jobs: seq<Job>, answers: seq<seq<Op>>): Drain
    requires |answers| == |jobs|
  {
    if jobs == [] then Drain(t, [])
    else
      var n := |jobs| - 1;
      NotifyOne(NotifyAll(t, jobs[..n], answers[..n]), jobs[n], answers[n])
  }

  /** Any behaviour of the callbacks: it may depend on the position in the list and the descriptor. */
  type BlockReact = (nat, int) -> seq<Op>

  function Answers(react: BlockReact, jobs: seq<Job>): (r: seq<seq<Op>>)
    ensures |r| == |jobs| && forall k :: 0 <= k < |r| ==> r[k] == react(k, jobs[k].fd)
  {
    seq(|jobs|, k requires 0 <= k < |jobs| => react(k, jobs[k].fd))
  }

  /** The table size after one node, None when it would look for a slot the table does not have. */
  function SizeAfterJob(t: Table, job: Job, ops: seq<Op>, size: nat): Option<nat> {
    if !(0 <= job.fd < size) then None
    else if job.fd in t then SizeAfter(ops, size)
    else Some(size)
  }

  function SizeAfterDrain(t: Table, jobs: seq<Job>, answers: seq<seq<Op>>, size: nat): Option<nat>
    requires |answers| == |jobs|
  {
    if jobs == [] then Some(size)
    else
      var n := |jobs| - 1;
      match SizeAfterDrain(t, jobs[..n], answers[..n], size)
      case None => None
      case Some(before) => SizeAfterJob(NotifyAll(t, jobs[..n], answers[..n]).table, jobs[n], answers[n], before)
  }

  class JobNode {
    const job: Job
    const next: JobNode?

    constructor (job: Job, next: JobNode?)
      ensures this.job == job && this.next == next
    {
      this.job, this.next := job, next;
    }
  }

  /** The node at a position of a chain, null behind its end. */
  ghost function NodeAt(nodes: seq<JobNode>, i: nat): JobNode? {
    if i < |nodes| then nodes[i] else null
  }

  /** resolution_jobs. */
  class JobList {
    var head: JobNode?
    ghost var nodes: seq<JobNode>

    /** The chain from the head visits exactly `nodes`. */
    ghost predicate Linked()
      reads this
    {
      && head == NodeAt(nodes, 0)
      && forall i {:trigger nodes[i].next} :: 0 <= i < |nodes| ==> nodes[i].next == NodeAt(nodes, i + 1)
    }

    ghost function Jobs(): (jobs: seq<Job>)
      reads this
      ensures |jobs| == |nodes|
    {
      seq(|nodes|, i requires 0 <= i < |nodes| reads this => nodes[i].job)
    }

    constructor ()
      ensures Linked() && Jobs() == []
    {
      head, nodes := null, [];
    }

    method Clear()
      modifies this
      ensures Linked() && Jobs() == []
    {
      head, nodes := null, [];
    }

    lemma Walk(i: nat)
      requires Linked() && i <= |nodes|
      ensures NodeAt(nodes, 0) == head && (NodeAt(nodes, i) == null <==> i == |nodes|)
      ensures i < |nodes| ==>
                nodes[i].next == NodeAt(nodes, i + 1) && NodeAt(nodes, i) == nodes[i] && Jobs()[i] == nodes[i].job
    {
    }

    /** What selector_notify_block does under the mutex. */
    method Push(job: Job)
      requires Linked()
      modifies this
      ensures Linked() && Jobs() == [job] + old(Jobs())
    {
      var node := new JobNode(job, head);
      head, nodes := node, [node] + nodes;
      assert forall i :: 0 < i < |nodes| ==> nodes[i] == old(nodes)[i - 1];
    }
  }

  /** The body of the loop: the slot of this node is looked up in the table as it is by now. */
  method NotifyNode(s: Selector, job: Job, react: BlockReact, k: nat, ghost d: Drain)
    returns (overrun: bool, ghost e: Drain)
    requires s.Valid() && s.View() == d.table
    modifies s, s.fds
    ensures s.Valid() && (s.fds == old(s.fds) || fresh(s.fds))
    ensures overrun <==> SizeAfterJob(d.table, job, react(k, job.fd), old(s.fds.Length)).None?
    ensures !overrun ==>
              && e == NotifyOne(d, job, react(k, job.fd)) && s.View() == e.table
              && SizeAfterJob(d.table, job, react(k, job.fd), old(s.fds.Length)) == Some(s.fds.Length)
  {
    hide ApplyAll;
    hide SizeAfter;
    e := NotifyOne(d, job, react(k, job.fd));
    if job.fd < 0 || job.fd >= s.fds.Length {
      return true, e;
    }
    var item := s.fds[job.fd];
    assert s.fds[..][job.fd] == item;
    overrun := false;
    if item.fd != FD_UNUSED {
      overrun := Perform(s, react(k, item.fd));
    }
  }

  /** The loop of handle_block_notifications: it looks its slot up again for every node, and empties the list. */
  method HandleBlockNotifications(s: Selector, list: JobList, react: BlockReact)
    returns (overrun: bool, ghost drain: Drain)
    requires s.Valid() && list.Linked()
    modifies s, s.fds, list
    ensures s.Valid()
    ensures SizeAfterDrain(old(s.View()), old(list.Jobs()), Answers(react, old(list.Jobs())), old(s.fds.Length))
            == if overrun then None else Some(s.fds.Length)
    ensures !overrun ==>
              && drain == NotifyAll(old(s.View()), old(list.Jobs()), Answers(react, old(list.Jobs())))
              && s.View() == drain.table && list.Linked() && list.Jobs() == []
  {
    ghost var before, size, jobs := s.View(), s.fds.Length, list.Jobs();
    ghost var answers := Answers(react, jobs);
    drain, overrun := Drain(before, []), false;
    list.Walk(0);
    hide *;
    DrainBegins(before, jobs, answers, size);
    var j, k := list.head, 0;
    while j != null
      invariant 0 <= k <= |jobs| && list.Linked() && list.Jobs() == jobs && j == NodeAt(list.nodes, k)
      invariant s.Valid() && (s.fds == old(s.fds) || fresh(s.fds)) && s.View() == drain.table
      invariant DrainedTo(before, jobs, answers, size, k, drain, s.fds.Length)
      decreases |jobs| - k
    {
      DrainStep(before, jobs, answers, size, k, drain, s.fds.Length);
      list.Walk(k);
      overrun, drain := NotifyNode(s, j.job, react, k, drain);
      if overrun {
        return;
      }
      j, k := j.next, k + 1;
    }
    list.Walk(k);
    DrainEnds(before, jobs, answers, size, drain, s.fds.Length);
    list.Clear();
  }

  /** The first k nodes are done, and led to this drain and this table size. */
  ghost predicate DrainedTo(t: Table, jobs: seq<Job>, answers: seq<seq<Op>>, size: nat, k: nat, d: Drain, now: nat)
    requires |answers| == |jobs|
  {
    && k <= |jobs| && d == NotifyAll(t, jobs[..k], answers[..k])
    && SizeAfterDrain(t, jobs[..k], answers[..k], size) == Some(now)
  }

  lemma DrainBegins(t: Table, jobs: seq<Job>, answers: seq<seq<Op>>, size: nat)
    requires |answers| == |jobs|
    ensures DrainedTo(t, jobs, answers, size, 0, Drain(t, []), size)
  {
  }

  lemma DrainEnds(t: Table, jobs: seq<Job>, answers: seq<seq<Op>>, size: nat, d: Drain, now: nat)
    requires |answers| == |jobs| && DrainedTo(t, jobs, answers, size, |jobs|, d, now)
    ensures d == NotifyAll(t, jobs, answers) && SizeAfterDrain(t, jobs, answers, size) == Some(now)
  {
    assert jobs[..|jobs|] == jobs && answers[..|jobs|] == answers;
  }

  lemma DrainStep(t: Table, jobs: seq<Job>, answers: seq<seq<Op>>, size: nat, k: nat, d: Drain, now: nat)
    requires |answers| == |jobs| && k < |jobs| && DrainedTo(t, jobs, answers, size, k, d, now)
    ensures match SizeAfterJob(d.table, jobs[k], answers[k], now)
            case None => SizeAfterDrain(t, jobs, answers, size).None?
            case Some(after) => DrainedTo(t, jobs, answers, size, k + 1, NotifyOne(d, jobs[k], answers[k]), after)
  {
    NotifyOneMore(t, jobs, answers, k, size);
    hide NotifyAll;
    hide SizeAfterDrain;
    hide NotifyOne;
    hide SizeAfterJob;
    if SizeAfterJob(d.table, jobs[k], answers[k], now).None? {
      DrainOverranStays(t, jobs, answers, k + 1, size);
    }
  }

  lemma {:induction false} DrainOverranStays(t: Table, jobs: seq<Job>, answers: seq<seq<Op>>, i: nat, size: nat)
    requires |answers| == |jobs| && i <= |jobs| && SizeAfterDrain(t, jobs[..i], answers[..i], size).None?
    ensures SizeAfterDrain(t, jobs, answers, size).None?
    decreases |jobs|
  {
    if i == |jobs| {
      assert jobs[..i] == jobs && answers[..i] == answers;
    } else {
      var n := |jobs| - 1;
      assert jobs[..n][..i] == jobs[..i] && answers[..n][..i] == answers[..i];
      DrainOverranStays(t, jobs[..n], answers[..n], i, size);
    }
  }

  lemma NotifyOneMore(t: Table, jobs: seq<Job>, answers: seq<seq<Op>>, j: nat, size: nat)
    requires |answers| == |jobs| && j < |jobs|
    ensures NotifyAll(t, jobs[..j + 1], answers[..j + 1])
            == NotifyOne(NotifyAll(t, jobs[..j], answers[..j]), jobs[j], answers[j])
    ensures SizeAfterDrain(t, jobs[..j + 1], answers[..j + 1], size)
            == match SizeAfterDrain(t, jobs[..j], answers[..j], size)
               case None => None
               case Some(before) =>
                 SizeAfterJob(NotifyAll(t, jobs[..j], answers[..j]).table, jobs[j], answers[j], before)
  {
    assert jobs[..j + 1][..j] == jobs[..j] && answers[..j + 1][..j] == answers[..j];
  }

  predicate InTable(jobs: seq<Job>) {
    forall k :: 0 <= k < |jobs| ==> 0 <= jobs[k].fd <= ITEMS_MAX_SIZE
  }

  /** With a table of full size a drain overruns if and only if some job names a descriptor out of its range. */
  lemma {:induction false} FullTableDrainsIff(t: Table, jobs: seq<Job>, answers: seq<seq<Op>>)
    requires |answers| == |jobs|
    ensures SizeAfterDrain(t, jobs, answers, ITEMS_MAX_SIZE + 1) == if InTable(jobs) then Some(ITEMS_MAX_SIZE + 1) else None
    decreases |jobs|
  {
    if jobs != [] {
      var n := |jobs| - 1;
      FullTableDrainsIff(t, jobs[..n], answers[..n]);
      FullTableStays(answers[n]);
      assert InTable(jobs) <==> InTable(jobs[..n]) && 0 <= jobs[n].fd <= ITEMS_MAX_SIZE by {
        assert forall k :: 0 <= k < n ==> jobs[k] == jobs[..n][k];
      }
      hide NotifyAll;
      hide SizeAfter;
      hide InTable;
    }
  }

  // What a drain guarantees, for any callbacks

  predicate AllDifferent(jobs: seq<Job>) {
    forall i, j :: 0 <= i < j < |jobs| ==> jobs[i].ticket != jobs[j].ticket
  }

  /** The table when the turn of the k-th node comes. */
  function TableAtTurn(t: Table, jobs: seq<Job>, answers: seq<seq<Op>>, k: nat): Table
    requires |answers| == |jobs| && k <= |jobs|
  {
    NotifyAll(t, jobs[..k], answers[..k]).table
  }

  /** The c-th call is for the k-th node, with the handler and the attachment the table has at its turn. */
  predicate CallsFor(t: Table, jobs: seq<Job>, answers: seq<seq<Op>>, call: BlockCall, k: int)
    requires |answers| == |jobs|
  {
    && 0 <= k < |jobs| && call.job == jobs[k]
    && call.table == TableAtTurn(t, jobs, answers, k)
    && jobs[k].fd in call.table
    && call.handler == call.table[jobs[k].fd].handler && call.data == call.table[jobs[k].fd].data
  }

  lemma CallsForPrefix(t: Table, jobs: seq<Job>, answers: seq<seq<Op>>, call: BlockCall, k: int, n: nat)
    requires |answers| == |jobs| && n <= |jobs| && k < n
    ensures CallsFor(t, jobs[..n], answers[..n], call, k) <==> CallsFor(t, jobs, answers, call, k)
  {
    if 0 <= k {
      assert jobs[..n][..k] == jobs[..k] && answers[..n][..k] == answers[..k];
    }
  }

  /** `at` holds the positions in the list of the nodes whose callback ran, call by call. */
  ghost predicate Follows(t: Table, jobs: seq<Job>, answers: seq<seq<Op>>, calls: seq<BlockCall>, at: seq<int>)
    requires |answers| == |jobs|
  {
    && |at| == |calls|
    && (forall c :: 0 <= c < |calls| ==> CallsFor(t, jobs, answers, calls[c], at[c]))
    && (forall c, d :: 0 <= c < d < |at| ==> at[c] < at[d])
    && (forall k :: 0 <= k < |jobs| ==> (k in at <==> jobs[k].fd in TableAtTurn(t, jobs, answers, k)))
  }

  /** The calls for the nodes in front of the last one, seen from the whole list. */
  ghost predicate FollowsFront(t: Table, jobs: seq<Job>, answers: seq<seq<Op>>, calls: seq<BlockCall>, at: seq<int>)
    requires |answers| == |jobs|
  {
    && |at| == |calls|
    && (forall c :: 0 <= c < |calls| ==> at[c] < |jobs| - 1 && CallsFor(t, jobs, answers, calls[c], at[c]))
    && (forall c, d :: 0 <= c < d < |at| ==> at[c] < at[d])
    && (forall k :: 0 <= k < |jobs| - 1 ==> (k in at <==> jobs[k].fd in TableAtTurn(t, jobs, answers, k)))
  }

  lemma FollowsOneMore(t: Table, jobs: seq<Job>, answers: seq<seq<Op>>, calls: seq<BlockCall>, at: seq<int>)
    requires |answers| == |jobs| && jobs != []
    requires Follows(t, jobs[..|jobs| - 1], answers[..|jobs| - 1], calls, at)
    ensures FollowsFront(t, jobs, answers, calls, at)
  {
    hide NotifyAll;
    var n := |jobs| - 1;
    forall c | 0 <= c < |calls|
      ensures at[c] < n && CallsFor(t, jobs, answers, calls[c], at[c])
    {
      assert CallsFor(t, jobs[..n], answers[..n], calls[c], at[c]);
      CallsForPrefix(t, jobs, answers, calls[c], at[c], n);
    }
    forall k | 0 <= k < n
      ensures k in at <==> jobs[k].fd in TableAtTurn(t, jobs, answers, k)
    {
      assert jobs[..n][..k] == jobs[..k] && answers[..n][..k] == answers[..k] && jobs[..n][k] == jobs[k];
    }
  }

  lemma LastIsCalled(t: Table, jobs: seq<Job>, answers: seq<seq<Op>>, calls: seq<BlockCall>, at: seq<int>, call: BlockCall)
    requires |answers| == |jobs| && jobs != [] && FollowsFront(t, jobs, answers, calls, at)
    requires CallsFor(t, jobs, answers, call, |jobs| - 1)
    ensures Follows(t, jobs, answers, calls + [call], at + [|jobs| - 1])
  {
    var n := |jobs| - 1;
    assert jobs[n].fd in TableAtTurn(t, jobs, answers, n);
    hide CallsFor;
    hide TableAtTurn;
    assert (at + [n])[|at|] == n;
  }

  lemma LastIsSkipped(t: Table, jobs: seq<Job>, answers: seq<seq<Op>>, calls: seq<BlockCall>, at: seq<int>)
    requires |answers| == |jobs| && jobs != [] && FollowsFront(t, jobs, answers, calls, at)
    requires jobs[|jobs| - 1].fd !in TableAtTurn(t, jobs, answers, |jobs| - 1)
    ensures Follows(t, jobs, answers, calls, at)
  {
    hide CallsFor;
    hide TableAtTurn;
  }

  /** The positions of the nodes whose callback ran ascend: each ran at most once, and in list order. */
  lemma {:induction false} CallsFollowTheList(t: Table, jobs: seq<Job>, answers: seq<seq<Op>>) returns (at: seq<int>)
    requires |answers| == |jobs|
    ensures Follows(t, jobs, answers, NotifyAll(t, jobs, answers).calls, at)
    decreases |jobs|
  {
    at := [];
    if jobs != [] {
      var n := |jobs| - 1;
      var before := NotifyAll(t, jobs[..n], answers[..n]);
      at := CallsFollowTheList(t, jobs[..n], answers[..n]);
      FollowsOneMore(t, jobs, answers, before.calls, at);
      assert NotifyAll(t, jobs, answers) == NotifyOne(before, jobs[n], answers[n]);
      assert before.table == TableAtTurn(t, jobs, answers, n);
      hide NotifyAll;
      hide ApplyAll;
      hide TableAtTurn;
      hide Follows;
      hide FollowsFront;
      if jobs[n].fd in before.table {
        var reg := before.table[jobs[n].fd];
        LastIsCalled(t, jobs, answers, before.calls, at, BlockCall(jobs[n], reg.handler, reg.data, before.table));
        at := at + [n];
      } else {
        LastIsSkipped(t, jobs, answers, before.calls, at);
      }
    }
  }

  ghost predicate Notified(calls: seq<BlockCall>, job: Job) {
    exists c :: 0 <= c < |calls| && calls[c].job == job
  }

  /** A node's callback runs if and only if its descriptor is registered when its turn comes. */
  lemma BlockCalledIff(t: Table, jobs: seq<Job>, answers: seq<seq<Op>>, k: nat)
    requires |answers| == |jobs| && k < |jobs| && AllDifferent(jobs)
    ensures Notified(NotifyAll(t, jobs, answers).calls, jobs[k]) <==> jobs[k].fd in TableAtTurn(t, jobs, answers, k)
  {
    var at := CallsFollowTheList(t, jobs, answers);
    var calls := NotifyAll(t, jobs, answers).calls;
    assert Follows(t, jobs, answers, calls, at);
    hide NotifyAll;
    hide TableAtTurn;
    if k in at {
      var c :| 0 <= c < |at| && at[c] == k;
      assert CallsFor(t, jobs, answers, calls[c], at[c]);
      assert calls[c].job == jobs[k];
    }
    if Notified(calls, jobs[k]) {
      var c :| 0 <= c < |calls| && calls[c].job == jobs[k];
      assert CallsFor(t, jobs, answers, calls[c], at[c]);
      assert at[c] == k;
    }
  }
}
