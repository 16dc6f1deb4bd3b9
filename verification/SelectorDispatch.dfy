/** handle_iteration of src/ignore/selector.c: one pass of callbacks over the table. */
module SelectorDispatch {
  import opened Bytes
  import opened SelectorTable

  datatype Kind = Read | Write

  /** What a callback may do to the selector while the pass is under way. */
  datatype Op =
    | Register(fd: int, reg: Registration)
    | Unregister(fd: int)
    | SetInterest(fd: int, interest: Interest)

  function Apply(t: Table, op: Op): Table {
    if InvalidFd(op.fd) then t
    else
      match op
      case Register(fd, reg) => if fd in t then t else t[fd := reg]
      case Unregister(fd) => t - {fd}
      case SetInterest(fd, i) => if fd in t then t[fd := t[fd].(interest := i)] else t
  }

  function ApplyAll(t: Table, ops: seq<Op>): Table {
    if ops == [] then t else Apply(ApplyAll(t, ops[..|ops| - 1]), ops[|ops| - 1])
  }

  /** Any behaviour of the callbacks: what the n-th call of a pass does may depend on n, fd and kind. */
  type React = (nat, int, Kind) -> seq<Op>

  /** One callback, with the table as it was at the moment of the call. */
  datatype Call = Call(fd: int, kind: Kind, handler: nat, data: nat, table: Table)

  datatype Pass = Pass(table: Table, calls: seq<Call>)

  function Invoke(p: Pass, react: React, fd: int, kind: Kind, data: nat): Pass
    requires fd in p.table
  {
    Pass(ApplyAll(p.table, react(|p.calls|, fd, kind)),
         p.calls + [Call(fd, kind, p.table[fd].handler, data, p.table)])
  }

  predicate Ready(t: Table, fd: int, slave: set<int>, kind: Kind) {
    fd in t && fd in slave && (if kind == Read then WantsRead(t[fd].interest) else WantsWrite(t[fd].interest))
  }

  function ReadPart(p: Pass, react: React, slaveR: set<int>, fd: int): Pass {
    if Ready(p.table, fd, slaveR, Read) then Invoke(p, react, fd, Read, p.table[fd].data) else p
  }

  /** The attachment handed to the write callback was fetched before the read callback ran. */
  function Turn(p: Pass, react: React, slaveR: set<int>, slaveW: set<int>, fd: int): Pass {
    if fd !in p.table then p
    else
      var q := ReadPart(p, react, slaveR, fd);
      if Ready(q.table, fd, slaveW, Write) then Invoke(q, react, fd, Write, p.table[fd].data) else q
  }

  /** The pass after the turns of descriptors 0 to n - 1. */
  function Turns(t: Table, react: React, slaveR: set<int>, slaveW: set<int>, n: nat): Pass
    decreases n
  {
    if n == 0 then Pass(t, [])
    else Turn(Turns(t, react, slaveR, slaveW, n - 1), react, slaveR, slaveW, n - 1)
  }

  // The size of the table, and what becomes of a pass when it changes

  /** The size of the table after an operation, None when its slot lies behind the table. */
  function SizeAfterOne(op: Op, size: nat): Option<nat> {
    if InvalidFd(op.fd) then Some(size)
    else if op.Register? then if op.fd == size then None else Some(SizeForRegister(size, op.fd))
    else if op.fd < size then Some(size) else None
  }

  function SizeAfter(ops: seq<Op>, size: nat): Option<nat> {
    if ops == [] then Some(size)
    else
      match SizeAfter(ops[..|ops| - 1], size)
      case None => None
      case Some(before) => SizeAfterOne(ops[|ops| - 1], before)
  }

  /** A turn or a pass may go behind the table, or through a pointer into an array that was moved. */
  datatype Course = Running(size: nat) | Overran | Stale

  function SizeAfterRead(p: Pass, size: nat, react: React, slaveR: set<int>, fd: int): Option<nat> {
    if Ready(p.table, fd, slaveR, Read) then SizeAfter(react(|p.calls|, fd, Read), size) else Some(size)
  }

  function TurnCourse(p: Pass, size: nat, react: React, slaveR: set<int>, slaveW: set<int>, fd: int): Course {
    if fd !in p.table then Running(size)
    else
      match SizeAfterRead(p, size, react, slaveR, fd)
      case None => Overran
      case Some(between) =>
        var q := ReadPart(p, react, slaveR, fd);
        if fd in slaveW && between != size then Stale
        else if Ready(q.table, fd, slaveW, Write) then
          match SizeAfter(react(|q.calls|, fd, Write), between)
          case None => Overran
          case Some(after) => Running(after)
        else Running(between)
  }

  function TurnsCourse(t: Table, size: nat, react: React, slaveR: set<int>, slaveW: set<int>, n: nat): Course
    decreases n
  {
    if n == 0 then Running(size)
    else
      match TurnsCourse(t, size, react, slaveR, slaveW, n - 1)
      case Running(k) => TurnCourse(Turns(t, react, slaveR, slaveW, n - 1), k, react, slaveR, slaveW, n - 1)
      case Overran => Overran
      case Stale => Stale
  }

  // The pass over the table

  method PerformOne(s: Selector, op: Op) returns (overrun: bool)
    requires s.Valid()
    modifies s, s.fds
    ensures s.Valid() && (s.fds == old(s.fds) || fresh(s.fds))
    ensures s.fds == old(s.fds) <==> s.fds.Length == old(s.fds.Length)
    ensures s.fds.Length >= old(s.fds.Length)
    ensures overrun <==> SizeAfterOne(op, old(s.fds.Length)).None?
    ensures !overrun ==>
              s.View() == Apply(old(s.View()), op) && SizeAfterOne(op, old(s.fds.Length)) == Some(s.fds.Length)
  {
    ghost var before := s.View();
    var status;
    match op {
      case Register(fd, reg) =>
        status := s.Register(fd, Some(reg.handler), reg.interest, reg.data);
        assert Registration(reg.handler, reg.interest, reg.data) == reg;
      case Unregister(fd) =>
        status := s.Unregister(fd);
        assert fd !in before ==> before - {fd} == before;
      case SetInterest(fd, interest) =>
        status := s.SetInterest(fd, interest);
    }
    overrun := status == Overrun;
  }

  /** Stops at the first operation that goes behind the table. */
  method Perform(s: Selector, ops: seq<Op>) returns (overrun: bool)
    requires s.Valid()
    modifies s, s.fds
    ensures s.Valid() && (s.fds == old(s.fds) || fresh(s.fds))
    ensures s.fds == old(s.fds) <==> s.fds.Length == old(s.fds.Length)
    ensures s.fds.Length >= old(s.fds.Length)
    ensures overrun <==> SizeAfter(ops, old(s.fds.Length)).None?
    ensures !overrun ==>
              s.View() == ApplyAll(old(s.View()), ops) && SizeAfter(ops, old(s.fds.Length)) == Some(s.fds.Length)
  {
    hide Apply;
    hide SizeAfterOne;
    ghost var before, size := s.View(), s.fds.Length;
    overrun := false;
    var i := 0;
    while i < |ops| && !overrun
      invariant 0 <= i <= |ops|
      invariant s.Valid() && (s.fds == old(s.fds) || fresh(s.fds))
      invariant s.fds == old(s.fds) <==> s.fds.Length == size
      invariant s.fds.Length >= size
      invariant overrun <==> SizeAfter(ops[..i], size).None?
      invariant !overrun ==> s.View() == ApplyAll(before, ops[..i]) && SizeAfter(ops[..i], size) == Some(s.fds.Length)
      decreases |ops| - i
    {
      overrun := PerformOne(s, ops[i]);
      assert ops[..i + 1][..i] == ops[..i];
      i := i + 1;
    }
    assert ops[..|ops|] == ops;
    if overrun {
      OverranStays(ops, i, size);
    }
  }

  lemma {:induction false} OverranStays(ops: seq<Op>, i: nat, size: nat)
    requires i <= |ops| && SizeAfter(ops[..i], size).None?
    ensures SizeAfter(ops, size).None?
  {
    if i == |ops| {
      assert ops[..i] == ops;
    } else {
      assert ops[..|ops| - 1][..i] == ops[..i];
      OverranStays(ops[..|ops| - 1], i, size);
    }
  }

  /** The table matches the pass so far; the callback of fd runs and may change both. */
  method RunCallback(s: Selector, react: React, fd: int, kind: Kind, data: nat, made: nat, ghost p: Pass)
    returns (overrun: bool, made': nat, ghost q: Pass)
    requires s.Valid()
    requires s.View() == p.table && made == |p.calls| && fd in p.table
    modifies s, s.fds
    ensures s.Valid() && (s.fds == old(s.fds) || fresh(s.fds))
    ensures s.fds == old(s.fds) <==> s.fds.Length == old(s.fds.Length)
    ensures s.fds.Length >= old(s.fds.Length)
    ensures q == Invoke(p, react, fd, kind, data) && made' == |q.calls|
    ensures overrun <==> SizeAfter(react(made, fd, kind), old(s.fds.Length)).None?
    ensures !overrun ==>
              s.View() == q.table && SizeAfter(react(made, fd, kind), old(s.fds.Length)) == Some(s.fds.Length)
  {
    q := Invoke(p, react, fd, kind, data);
    overrun := Perform(s, react(made, fd, kind));
    made' := made + 1;
  }

  /** The body of the dispatch loop. It holds on to one slot of the array the table is in as the turn begins. */
  method DispatchSlot(s: Selector, slaveR: set<int>, slaveW: set<int>, react: React, i: nat, made: nat, ghost p: Pass)
    returns (course: Course, made': nat, ghost q: Pass)
    requires s.Valid() && i < s.fds.Length
    requires s.View() == p.table && made == |p.calls|
    modifies s, s.fds
    ensures s.Valid() && (s.fds == old(s.fds) || fresh(s.fds)) && s.fds.Length >= old(s.fds.Length)
    ensures course == TurnCourse(p, old(s.fds.Length), react, slaveR, slaveW, i)
    ensures course.Running? ==>
              && q == Turn(p, react, slaveR, slaveW, i) && made' == |q.calls|
              && s.View() == q.table && s.fds.Length == course.size
  {
    hide Apply;
    hide SizeAfter;
    made', q := made, p;
    var fds := s.fds;
    var item, overrun := fds[i], false;
    assert s.fds[..][i] == item;
    if item.fd != FD_UNUSED {
      var fd, data := item.fd, item.reg.data;
      if fd in slaveR {
        if item.reg.interest & OP_READ != 0 {
          overrun, made', q := RunCallback(s, react, fd, Read, data, made', q);
          if overrun {
            return Overran, made', q;
          }
        }
      }
      assert q == ReadPart(p, react, slaveR, i);
      if i in slaveW {
        if s.fds != fds {
          return Stale, made', q;
        }
        item := fds[i];
        assert s.fds[..][i] == item;
        // a slot wiped by the read callback has no interest left
        if item.reg.interest & OP_WRITE != 0 {
          overrun, made', q := RunCallback(s, react, i, Write, data, made', q);
          if overrun {
            return Overran, made', q;
          }
        }
      }
    }
    course := Running(s.fds.Length);
  }

  /** The pass ends early where the source would go behind the table or through a moved pointer. */
  method HandleIteration(s: Selector, slaveR: set<int>, slaveW: set<int>, react: React)
    returns (course: Course, ghost pass: Pass)
    requires s.Valid()
    modifies s, s.fds
    ensures s.Valid()
    ensures course == TurnsCourse(old(s.View()), old(s.fds.Length), react, slaveR, slaveW, old(s.maxFd) + 1)
    ensures course.Running? ==>
              && pass == Turns(old(s.View()), react, slaveR, slaveW, old(s.maxFd) + 1)
              && s.View() == pass.table && s.fds.Length == course.size
  {
    hide Turn;
    hide TurnCourse;
    var n := s.maxFd;
    ghost var before, size := s.View(), s.fds.Length;
    pass := Pass(before, []);
    course := Running(s.fds.Length);
    var made := 0;
    var i := 0;
    while i <= n && course.Running?
      invariant 0 <= i <= n + 1 <= s.fds.Length
      invariant s.Valid() && (s.fds == old(s.fds) || fresh(s.fds))
      invariant course == TurnsCourse(before, size, react, slaveR, slaveW, i)
      invariant course.Running? ==>
                  && pass == Turns(before, react, slaveR, slaveW, i) && made == |pass.calls|
                  && s.View() == pass.table && s.fds.Length == course.size
      decreases n + 1 - i
    {
      course, made, pass := DispatchSlot(s, slaveR, slaveW, react, i, made, pass);
      i := i + 1;
    }
    if !course.Running? {
      StoppedStays(before, size, react, slaveR, slaveW, i, n + 1);
    }
  }

  lemma {:induction false} StoppedStays(t: Table, size: nat, react: React, slaveR: set<int>, slaveW: set<int>,
                                        m: nat, n: nat)
    requires m <= n && !TurnsCourse(t, size, react, slaveR, slaveW, m).Running?
    ensures TurnsCourse(t, size, react, slaveR, slaveW, n) == TurnsCourse(t, size, react, slaveR, slaveW, m)
    decreases n
  {
    hide TurnCourse;
    if m < n {
      StoppedStays(t, size, react, slaveR, slaveW, m, n - 1);
    }
  }

  // When a pass fails

  lemma {:induction false} SizeNeverShrinks(ops: seq<Op>, size: nat)
    ensures SizeAfter(ops, size).Some? ==> SizeAfter(ops, size).value >= size
  {
    if ops != [] {
      SizeNeverShrinks(ops[..|ops| - 1], size);
    }
  }

  /** Registers a valid descriptor behind the end of a table of this size. */
  predicate Outgrows(op: Op, size: nat) {
    op.Register? && size < op.fd < ITEMS_MAX_SIZE
  }

  ghost predicate SomeOutgrow(ops: seq<Op>, size: nat) {
    exists k :: 0 <= k < |ops| && Outgrows(ops[k], size)
  }

  /** Operations that stay in the table move it if and only if one registers a descriptor behind its first size. */
  lemma {:induction false} MovesIff(ops: seq<Op>, size: nat)
    requires SizeAfter(ops, size).Some?
    ensures SizeAfter(ops, size).value != size <==> SomeOutgrow(ops, size)
  {
    if ops != [] {
      var front, last := ops[..|ops| - 1], ops[|ops| - 1];
      SizeNeverShrinks(front, size);
      MovesIff(front, size);
      MoreOutgrow(ops, size);
    }
  }

  lemma MoreOutgrow(ops: seq<Op>, size: nat)
    requires ops != []
    ensures SomeOutgrow(ops, size) <==> SomeOutgrow(ops[..|ops| - 1], size) || Outgrows(ops[|ops| - 1], size)
  {
    var front := ops[..|ops| - 1];
    if k :| 0 <= k < |front| && Outgrows(front[k], size) {
      assert Outgrows(ops[k], size);
    }
    if k :| 0 <= k < |front| && Outgrows(ops[k], size) {
      assert Outgrows(front[k], size);
    }
  }

  /** The read callback of fd, selected for writing too, moves the table. */
  ghost predicate MovesInTurn(p: Pass, size: nat, react: React, slaveR: set<int>, slaveW: set<int>, fd: int) {
    var ops := react(|p.calls|, fd, Read);
    && Ready(p.table, fd, slaveR, Read) && fd in slaveW
    && SizeAfter(ops, size).Some? && SomeOutgrow(ops, size)
  }

  lemma TurnIsStaleIff(p: Pass, size: nat, react: React, slaveR: set<int>, slaveW: set<int>, fd: int)
    ensures TurnCourse(p, size, react, slaveR, slaveW, fd).Stale? <==> MovesInTurn(p, size, react, slaveR, slaveW, fd)
  {
    var ops := react(|p.calls|, fd, Read);
    if SizeAfter(ops, size).Some? {
      MovesIff(ops, size);
    }
    hide SizeAfter;
    hide SomeOutgrow;
  }

  /** Turn number fd is reached, and its read callback moves the table. */
  ghost predicate MovesAt(t: Table, size: nat, react: React, slaveR: set<int>, slaveW: set<int>, fd: nat) {
    var course := TurnsCourse(t, size, react, slaveR, slaveW, fd);
    course.Running? && MovesInTurn(Turns(t, react, slaveR, slaveW, fd), course.size, react, slaveR, slaveW, fd)
  }

  /**
   * A pass goes through a pointer into a moved table if and only if it reaches a descriptor selected
   * for writing whose read callback registers a descriptor behind the table as that turn found it.
   */
  lemma {:induction false} PassIsStaleIff(t: Table, size: nat, react: React, slaveR: set<int>, slaveW: set<int>, n: nat)
    ensures TurnsCourse(t, size, react, slaveR, slaveW, n).Stale?
            <==> exists fd: nat :: fd < n && MovesAt(t, size, react, slaveR, slaveW, fd)
    decreases n
  {
    hide TurnCourse;
    hide Turns;
    hide MovesInTurn;
    if n > 0 {
      PassIsStaleIff(t, size, react, slaveR, slaveW, n - 1);
      var course := TurnsCourse(t, size, react, slaveR, slaveW, n - 1);
      if course.Running? {
        TurnIsStaleIff(Turns(t, react, slaveR, slaveW, n - 1), course.size, react, slaveR, slaveW, n - 1);
        assert MovesAt(t, size, react, slaveR, slaveW, n - 1)
            <==> TurnsCourse(t, size, react, slaveR, slaveW, n).Stale?;
      } else {
        assert !MovesAt(t, size, react, slaveR, slaveW, n - 1);
      }
    }
  }

  /** A pass over a table of full size neither moves it nor leaves it, whatever the callbacks do. */
  lemma {:induction false} FullTableIsSafe(t: Table, react: React, slaveR: set<int>, slaveW: set<int>, n: nat)
    ensures TurnsCourse(t, ITEMS_MAX_SIZE + 1, react, slaveR, slaveW, n) == Running(ITEMS_MAX_SIZE + 1)
    decreases n
  {
    if n > 0 {
      FullTableIsSafe(t, react, slaveR, slaveW, n - 1);
      var p := Turns(t, react, slaveR, slaveW, n - 1);
      FullTableStays(react(|p.calls|, n - 1, Read));
      FullTableStays(react(|ReadPart(p, react, slaveR, n - 1).calls|, n - 1, Write));
      hide SizeAfter;
      hide ReadPart;
    }
  }

  lemma {:induction false} FullTableStays(ops: seq<Op>)
    ensures SizeAfter(ops, ITEMS_MAX_SIZE + 1) == Some(ITEMS_MAX_SIZE + 1)
  {
    if ops != [] {
      FullTableStays(ops[..|ops| - 1]);
    }
  }

  /** A table created for no elements, descriptor 1 in both sets, and a read callback that registers 5. */
  lemma PassCanBeStale()
    ensures var t: Table := map[1 := Registration(1, OP_READ | OP_WRITE, 10)];
            var react: React := (n: nat, fd: int, kind: Kind) => [Register(5, Registration(2, OP_READ, 20))];
            Capacity(0) == 2 && TurnsCourse(t, Capacity(0), react, {1}, {1}, 2) == Stale
  {
    var t: Table := map[1 := Registration(1, OP_READ | OP_WRITE, 10)];
    var react: React := (n: nat, fd: int, kind: Kind) => [Register(5, Registration(2, OP_READ, 20))];
    var ops := react(0, 1, Read);
    assert Turns(t, react, {1}, {1}, 0) == Pass(t, []);
    assert Turns(t, react, {1}, {1}, 1) == Pass(t, []);
    assert TurnsCourse(t, 2, react, {1}, {1}, 1) == Running(2);
    assert SizeAfter(ops, 2) == SizeAfterOne(ops[0], 2) by {
      assert ops[..0] == [];
    }
    CapacityFits(5);
    assert WantsRead(OP_READ | OP_WRITE);
    assert TurnCourse(Pass(t, []), 2, react, {1}, {1}, 1) == Stale;
  }

  // What a pass guarantees, for any callbacks

  predicate Before(a: Call, b: Call) {
    a.fd < b.fd || (a.fd == b.fd && a.kind == Read && b.kind == Write)
  }

  /** Every call is for a descriptor that is, at that moment, registered, interested and selected. */
  predicate Justified(c: Call, slaveR: set<int>, slaveW: set<int>) {
    && Ready(c.table, c.fd, if c.kind == Read then slaveR else slaveW, c.kind)
    && c.handler == c.table[c.fd].handler
  }

  /** One turn adds at most a read and then a write callback of its descriptor. */
  lemma TurnAdds(p: Pass, react: React, slaveR: set<int>, slaveW: set<int>, fd: int)
    ensures var calls := Turn(p, react, slaveR, slaveW, fd).calls;
            && |p.calls| <= |calls| <= |p.calls| + 2 && calls[..|p.calls|] == p.calls
            && (forall k :: |p.calls| <= k < |calls| ==> calls[k].fd == fd && Justified(calls[k], slaveR, slaveW))
            && (|calls| == |p.calls| + 2 ==> calls[|p.calls|].kind == Read && calls[|p.calls| + 1].kind == Write)
  {
  }

  ghost predicate Orderly(calls: seq<Call>, slaveR: set<int>, slaveW: set<int>, n: int) {
    && (forall k :: 0 <= k < |calls| ==> 0 <= calls[k].fd < n && Justified(calls[k], slaveR, slaveW))
    && (forall j, k :: 0 <= j < k < |calls| ==> Before(calls[j], calls[k]))
  }

  lemma NoCallsAreOrderly(slaveR: set<int>, slaveW: set<int>)
    ensures Orderly([], slaveR, slaveW, 0)
  {
  }

  lemma TurnStaysOrderly(p: Pass, react: React, slaveR: set<int>, slaveW: set<int>, fd: nat)
    requires Orderly(p.calls, slaveR, slaveW, fd)
    ensures Orderly(Turn(p, react, slaveR, slaveW, fd).calls, slaveR, slaveW, fd + 1)
  {
    TurnAdds(p, react, slaveR, slaveW, fd);
    hide Turn;
    hide Justified;
    var calls := Turn(p, react, slaveR, slaveW, fd).calls;
    assert forall k :: 0 <= k < |p.calls| ==> calls[k] == calls[..|p.calls|][k] == p.calls[k];
  }

  /**
   * Callbacks come in ascending order of descriptor, read before write, none twice, and only
   * for descriptors registered with that interest and selected at the moment of the call.
   */
  lemma {:induction false} CallsAreOrderly(t: Table, react: React, slaveR: set<int>, slaveW: set<int>, n: nat)
    ensures Orderly(Turns(t, react, slaveR, slaveW, n).calls, slaveR, slaveW, n)
    decreases n
  {
    hide Turn;
    hide Orderly;
    if n == 0 {
      NoCallsAreOrderly(slaveR, slaveW);
    } else {
      CallsAreOrderly(t, react, slaveR, slaveW, n - 1);
      TurnStaysOrderly(Turns(t, react, slaveR, slaveW, n - 1), react, slaveR, slaveW, n - 1);
    }
  }

  /** Whether a pass called fd back for this kind of event. */
  ghost predicate Called(calls: seq<Call>, fd: int, kind: Kind) {
    exists k :: 0 <= k < |calls| && calls[k].fd == fd && calls[k].kind == kind
  }

  /** Registered, selected, and interested by this bit. */
  predicate ReadyBy(t: Table, fd: int, slave: set<int>, bit: Interest) {
    fd in t && fd in slave && t[fd].interest & bit != 0
  }

  /** The table behind the read callback of fd, if it has one. */
  function AfterRead(p: Pass, react: React, slaveR: set<int>, fd: int): Table {
    if ReadyBy(p.table, fd, slaveR, 1) then ApplyAll(p.table, react(|p.calls|, fd, Read)) else p.table
  }

  lemma ReadyBits(p: Pass, react: React, slaveR: set<int>, slaveW: set<int>, fd: int)
    ensures Ready(p.table, fd, slaveR, Read) <==> ReadyBy(p.table, fd, slaveR, 1)
    ensures ReadPart(p, react, slaveR, fd).table == AfterRead(p, react, slaveR, fd)
    ensures Ready(AfterRead(p, react, slaveR, fd), fd, slaveW, Write)
            <==> ReadyBy(AfterRead(p, react, slaveR, fd), fd, slaveW, 4)
  {
  }

  lemma {:induction false} CalledWhenReady(t: Table, react: React, slaveR: set<int>, slaveW: set<int>, n: nat, fd: nat)
    requires fd < n
    ensures var start := Turns(t, react, slaveR, slaveW, fd);
            var calls := Turns(t, react, slaveR, slaveW, n).calls;
            && (Called(calls, fd, Read) <==> Ready(start.table, fd, slaveR, Read))
            && (Called(calls, fd, Write) <==>
                 fd in start.table && Ready(ReadPart(start, react, slaveR, fd).table, fd, slaveW, Write))
    decreases n
  {
    hide Turn;
    hide Ready;
    hide ReadPart;
    hide Called;
    hide Orderly;
    var before := Turns(t, react, slaveR, slaveW, n - 1);
    if fd == n - 1 {
      CallsAreOrderly(t, react, slaveR, slaveW, n - 1);
      LastTurn(before, react, slaveR, slaveW, fd);
    } else {
      CalledWhenReady(t, react, slaveR, slaveW, n - 1, fd);
      OtherTurn(before, react, slaveR, slaveW, n - 1, fd);
    }
  }

  /**
   * A callback happens exactly when it should: the read callback of fd, when fd is registered, selected
   * and interested by bit 0 as its turn comes; the write callback, when fd was registered as its turn
   * came and is selected and interested by bit 2 after the read callback.
   */
  lemma CalledIff(t: Table, react: React, slaveR: set<int>, slaveW: set<int>, n: nat, fd: nat)
    requires fd < n
    ensures var start := Turns(t, react, slaveR, slaveW, fd);
            var calls := Turns(t, react, slaveR, slaveW, n).calls;
            && (Called(calls, fd, Read) <==> ReadyBy(start.table, fd, slaveR, 1))
            && (Called(calls, fd, Write) <==>
                 fd in start.table && ReadyBy(AfterRead(start, react, slaveR, fd), fd, slaveW, 4))
  {
    hide *;
    CalledWhenReady(t, react, slaveR, slaveW, n, fd);
    ReadyBits(Turns(t, react, slaveR, slaveW, fd), react, slaveR, slaveW, fd);
  }

  lemma OtherTurn(p: Pass, react: React, slaveR: set<int>, slaveW: set<int>, at: int, fd: int)
    requires fd != at
    ensures forall kind :: Called(Turn(p, react, slaveR, slaveW, at).calls, fd, kind) <==> Called(p.calls, fd, kind)
  {
    var q := Turn(p, react, slaveR, slaveW, at);
    assert p.calls <= q.calls;
    forall kind | Called(p.calls, fd, kind)
      ensures Called(q.calls, fd, kind)
    {
      var k :| 0 <= k < |p.calls| && p.calls[k].fd == fd && p.calls[k].kind == kind;
      assert q.calls[k] == p.calls[k];
    }
  }

  lemma LastTurn(p: Pass, react: React, slaveR: set<int>, slaveW: set<int>, fd: int)
    requires Orderly(p.calls, slaveR, slaveW, fd)
    ensures var calls := Turn(p, react, slaveR, slaveW, fd).calls;
            && (Called(calls, fd, Read) <==> Ready(p.table, fd, slaveR, Read))
            && (Called(calls, fd, Write) <==>
                 fd in p.table && Ready(ReadPart(p, react, slaveR, fd).table, fd, slaveW, Write))
  {
    var q := ReadPart(p, react, slaveR, fd);
    var r := Turn(p, react, slaveR, slaveW, fd);
    if Ready(p.table, fd, slaveR, Read) {
      assert r.calls[|p.calls|].kind == Read && r.calls[|p.calls|].fd == fd;
    }
    if fd in p.table && Ready(q.table, fd, slaveW, Write) {
      assert r.calls[|q.calls|].kind == Write && r.calls[|q.calls|].fd == fd;
    }
  }

  // A descriptor that unregisters itself

  /** Whether the operations end with fd unregistered, starting from a table that has it. */
  function StillRegistered(ops: seq<Op>, fd: int): bool {
    if ops == [] then true
    else
      var op := ops[|ops| - 1];
      if op.fd == fd && op.Unregister? then false
      else if op.fd == fd && op.Register? then true
      else StillRegistered(ops[..|ops| - 1], fd)
  }

  lemma {:induction false} StillRegisteredMeans(t: Table, ops: seq<Op>, fd: int)
    requires fd in t && !InvalidFd(fd)
    ensures fd in ApplyAll(t, ops) <==> StillRegistered(ops, fd)
  {
    if ops != [] {
      StillRegisteredMeans(t, ops[..|ops| - 1], fd);
    }
  }

  /**
   * A read callback that unregisters its own descriptor is never followed by that descriptor's
   * write callback in the same pass, unless it registers the descriptor again.
   */
  lemma NoWriteAfterUnregister(t: Table, react: React, slaveR: set<int>, slaveW: set<int>, n: nat, fd: nat)
    requires fd < n <= ITEMS_MAX_SIZE
    requires var start := Turns(t, react, slaveR, slaveW, fd);
             && Ready(start.table, fd, slaveR, Read)
             && !StillRegistered(react(|start.calls|, fd, Read), fd)
    ensures !Called(Turns(t, react, slaveR, slaveW, n).calls, fd, Write)
  {
    var start := Turns(t, react, slaveR, slaveW, fd);
    StillRegisteredMeans(start.table, react(|start.calls|, fd, Read), fd);
    CalledIff(t, react, slaveR, slaveW, n, fd);
  }

  /** The attachment operations leave a descriptor with, None when they leave it unregistered. */
  function DataAfter(ops: seq<Op>, fd: int, data: Option<nat>): Option<nat> {
    if ops == [] then data
    else
      var before, op := DataAfter(ops[..|ops| - 1], fd, data), ops[|ops| - 1];
      if op.fd != fd then before
      else
        match op
        case Register(_, reg) => if before.None? then Some(reg.data) else before
        case Unregister(_) => None
        case SetInterest(_, _) => before
  }

  lemma {:induction false} DataAfterMeans(t: Table, ops: seq<Op>, fd: int)
    requires fd in t && !InvalidFd(fd)
    ensures DataAfter(ops, fd, Some(t[fd].data))
            == if fd in ApplyAll(t, ops) then Some(ApplyAll(t, ops)[fd].data) else None
  {
    if ops != [] {
      DataAfterMeans(t, ops[..|ops| - 1], fd);
    }
  }

  /**
   * When a descriptor gets both callbacks, each gets the attachment of the registration it runs for
   * if and only if what the read callback did leaves the descriptor with the attachment it had:
   * the source fetches it before the read callback.
   */
  lemma TurnDataIsCurrentIff(p: Pass, react: React, slaveR: set<int>, slaveW: set<int>, fd: int)
    requires fd in p.table && !InvalidFd(fd)
    requires |Turn(p, react, slaveR, slaveW, fd).calls| == |p.calls| + 2
    ensures var calls, data := Turn(p, react, slaveR, slaveW, fd).calls, p.table[fd].data;
            (forall k :: |p.calls| <= k < |calls| ==> calls[k].data == calls[k].table[fd].data)
            <==> DataAfter(react(|p.calls|, fd, Read), fd, Some(data)) == Some(data)
  {
    var ops, q := react(|p.calls|, fd, Read), Turn(p, react, slaveR, slaveW, fd);
    DataAfterMeans(p.table, ops, fd);
    hide DataAfter;
    hide ApplyAll;
    assert q.calls[|p.calls|].table == p.table && q.calls[|p.calls| + 1].table == ApplyAll(p.table, ops);
  }

  /** A single callback always gets the attachment of the registration it runs for. */
  lemma LoneCallDataIsCurrent(p: Pass, react: React, slaveR: set<int>, slaveW: set<int>, fd: int)
    requires |Turn(p, react, slaveR, slaveW, fd).calls| == |p.calls| + 1
    ensures var call := Turn(p, react, slaveR, slaveW, fd).calls[|p.calls|];
            call.data == call.table[fd].data
  {
  }

  /** A read callback that re-registers its descriptor makes the write callback see the old attachment. */
  lemma WriteCanGetAStaleAttachment()
    ensures var old1, new1 := Registration(1, OP_READ, 10), Registration(2, OP_WRITE, 20);
            var react: React := (n: nat, fd: int, kind: Kind) =>
              if kind == Read then [Unregister(3), Register(3, new1)] else [];
            var calls := Turn(Pass(map[3 := old1], []), react, {3}, {3}, 3).calls;
            |calls| == 2 && calls[1].kind == Write && calls[1].handler == 2 && calls[1].data == 10
            && calls[1].table[3].data == 20
  {
    var old1, new1 := Registration(1, OP_READ, 10), Registration(2, OP_WRITE, 20);
    var react: React := (n: nat, fd: int, kind: Kind) =>
      if kind == Read then [Unregister(3), Register(3, new1)] else [];
    var p := Pass(map[3 := old1], []);
    var ops := react(0, 3, Read);
    assert ops[..1] == [Unregister(3)] && ops[..1][..0] == [];
    assert ApplyAll(p.table, ops[..1]) == map[];
    assert ApplyAll(p.table, ops) == map[3 := new1];
  }
}
