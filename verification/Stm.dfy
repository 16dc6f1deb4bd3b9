/** src/ignore/stm.c: a state machine driven by selector events, with arrival and departure hooks. */
module Stm {
  import opened Bytes

  datatype Kind = Read | Write | Block

  /** Which callbacks a state has; a missing hook is skipped, a missing handler aborts. */
  datatype StateDefinition = StateDefinition(state: nat, onArrival: bool, onDeparture: bool, handlers: set<Kind>)

  datatype Definition = Definition(initial: nat, maxState: nat, states: seq<StateDefinition>)

  /** What stm_init checks. The initial state must lie strictly below the last one. */
  predicate WellFormed(d: Definition) {
    && |d.states| > d.maxState
    && (forall i :: 0 <= i <= d.maxState ==> d.states[i].state == i)
    && d.initial < d.maxState
  }

  datatype Call = Arrive(state: nat) | Depart(state: nat)

  /** An event with the state its handler answers, should that handler run. */
  datatype Event = Event(kind: Kind, next: nat)

  datatype Status = Status(current: Option<nat>, calls: seq<Call>, aborted: bool)

  const IDLE := Status(None, [], false)

  predicate Hooked(d: Definition, c: Call) {
    match c
    case Arrive(s) => s < |d.states| && d.states[s].onArrival
    case Depart(s) => s < |d.states| && d.states[s].onDeparture
  }

  /** The calls that really happen out of those a machine with all hooks would make. */
  function Made(d: Definition, calls: seq<Call>): seq<Call> {
    if calls == [] then []
    else Made(d, calls[..|calls| - 1]) + if Hooked(d, calls[|calls| - 1]) then calls[|calls| - 1..] else []
  }

  function First(d: Definition, s: Status): Status {
    if s.current.Some? then s else Status(Some(d.initial), s.calls + Made(d, [Arrive(d.initial)]), s.aborted)
  }

  function Jump(d: Definition, s: Status, next: nat): Status
    requires s.current.Some?
  {
    if next > d.maxState then s.(aborted := true)
    else if s.current.value == next then s
    else Status(Some(next), s.calls + Made(d, [Depart(s.current.value)]) + Made(d, [Arrive(next)]), s.aborted)
  }

  /** One event; an aborted process handles nothing more. */
  function Handle(d: Definition, s: Status, e: Event): Status {
    if s.aborted then s
    else
      var f := First(d, s);
      if f.current.value >= |d.states| || e.kind !in d.states[f.current.value].handlers then f.(aborted := true)
      else Jump(d, f, e.next)
  }

  function Close(d: Definition, s: Status): Status {
    if s.current.Some? then s.(calls := s.calls + Made(d, [Depart(s.current.value)])) else s
  }

  class StateMachine {
    const def: Definition
    var current: Option<nat>
    ghost var calls: seq<Call>
    ghost var aborted: bool

    ghost predicate Valid()
      reads this
    {
      WellFormed(def) && (current.Some? ==> current.value <= def.maxState)
    }

    ghost function View(): Status
      reads this
    {
      Status(current, calls, aborted)
    }

    constructor (def: Definition)
      ensures this.def == def && View() == IDLE
    {
      this.def := def;
      current, calls, aborted := None, [], false;
    }

    method Init() returns (ok: bool)
      requires |def.states| > def.maxState
      modifies this
      ensures ok <==> WellFormed(def)
      ensures ok ==> View() == Status(None, old(calls), old(aborted)) && Valid()
      ensures !ok ==> aborted
    {
      var i := 0;
      while i <= def.maxState
        invariant 0 <= i <= def.maxState + 1
        invariant forall k :: 0 <= k < i ==> def.states[k].state == k
        invariant View() == old(View())
      {
        if i != def.states[i].state {
          aborted := true;
          return false;
        }
        i := i + 1;
      }
      if def.initial < def.maxState {
        current := None;
        ok := true;
      } else {
        aborted := true;
        ok := false;
      }
    }

    method HandleFirst()
      requires Valid()
      modifies this
      ensures Valid() && View() == First(def, old(View())) && current.Some?
    {
      if current.None? {
        current := Some(def.initial);
        if def.states[def.initial].onArrival {
          calls := calls + [Arrive(def.initial)];
        }
        MadeOne(def, Arrive(def.initial));
      }
    }

    method JumpTo(next: nat)
      requires Valid() && current.Some? && !aborted
      modifies this
      ensures Valid() && View() == Jump(def, old(View()), next)
    {
      if next > def.maxState {
        aborted := true;
        return;
      }
      if current != Some(next) {
        MadeOne(def, Depart(current.value));
        MadeOne(def, Arrive(next));
        if def.states[current.value].onDeparture {
          calls := calls + [Depart(current.value)];
        }
        current := Some(next);
        if def.states[next].onArrival {
          calls := calls + [Arrive(next)];
        }
      }
    }

    /** The three event handlers differ only in the callback they look up. */
    method HandleEvent(e: Event) returns (ret: nat)
      requires Valid() && !aborted
      modifies this
      ensures Valid() && View() == Handle(def, old(View()), e)
      ensures !aborted ==> ret == e.next && current == Some(ret)
    {
      HandleFirst();
      ret := current.value;
      if e.kind !in def.states[current.value].handlers {
        aborted := true;
        return;
      }
      ret := e.next;
      JumpTo(ret);
    }

    method HandleClose()
      requires Valid()
      modifies this
      ensures Valid() && View() == Close(def, old(View()))
    {
      if current.Some? {
        MadeOne(def, Depart(current.value));
        if def.states[current.value].onDeparture {
          calls := calls + [Depart(current.value)];
        }
      }
    }

    method State() returns (ret: nat)
      requires Valid()
      ensures ret == CurrentState(def, View())
    {
      ret := def.initial;
      if current.Some? {
        ret := def.states[current.value].state;
      }
    }
  }

  function CurrentState(d: Definition, s: Status): nat {
    if s.current.Some? then s.current.value else d.initial
  }

  lemma MadeOne(d: Definition, c: Call)
    ensures Made(d, [c]) == if Hooked(d, c) then [c] else []
  {
    var one := [c];
    assert one[..0] == [] && one[0..] == one;
    assert Made(d, one) == Made(d, one[..0]) + if Hooked(d, c) then one[0..] else [];
  }

  // Whole runs

  function Run(d: Definition, es: seq<Event>): Status {
    if es == [] then IDLE else Handle(d, Run(d, es[..|es| - 1]), es[|es| - 1])
  }

  /** The states a run goes through when nothing aborts: repetitions are not visits. */
  function Visits(d: Definition, es: seq<Event>): (path: seq<nat>)
    ensures |path| > 0 && path[0] == d.initial
  {
    if es == [] then [d.initial]
    else
      var before, next := Visits(d, es[..|es| - 1]), es[|es| - 1].next;
      if before[|before| - 1] == next then before else before + [next]
  }

  /** Enter the first state; then, for each further one, leave the one before and enter it. */
  function Alternating(path: seq<nat>): (calls: seq<Call>)
    requires path != []
  {
    if |path| == 1 then [Arrive(path[0])]
    else
      var n := |path|;
      Alternating(path[..n - 1]) + [Depart(path[n - 2])] + [Arrive(path[n - 1])]
  }

  /** Alternating calls are matched pairs, in order, with one state left open at the end. */
  lemma {:induction false} AlternatingIsMatchedPairs(path: seq<nat>)
    requires path != []
    ensures var calls := Alternating(path);
            && |calls| == 2 * |path| - 1
            && (forall k :: 0 <= k < |path| ==> calls[2 * k] == Arrive(path[k]))
            && (forall k :: 0 <= k < |path| - 1 ==> calls[2 * k + 1] == Depart(path[k]))
  {
    if |path| > 1 {
      var shorter := path[..|path| - 1];
      AlternatingIsMatchedPairs(shorter);
    }
  }

  lemma {:induction false} VisitsAreMoves(d: Definition, es: seq<Event>)
    ensures var path := Visits(d, es);
            && (forall k :: 0 < k < |path| ==> path[k] != path[k - 1])
            && path[|path| - 1] == if es == [] then d.initial else es[|es| - 1].next
  {
    if es != [] {
      VisitsAreMoves(d, es[..|es| - 1]);
    }
  }

  lemma {:induction false} MadeConcat(d: Definition, a: seq<Call>, b: seq<Call>)
    ensures Made(d, a + b) == Made(d, a) + Made(d, b)
  {
    hide Hooked;
    if b == [] {
      assert a + b == a;
    } else {
      var n := |b|;
      MadeConcat(d, a, b[..n - 1]);
      assert (a + b)[..|a + b| - 1] == a + b[..n - 1];
      assert (a + b)[|a + b| - 1..] == b[n - 1..];
      var last := if Hooked(d, b[n - 1]) then b[n - 1..] else [];
      assert Made(d, a + b) == Made(d, a + b[..n - 1]) + last;
      assert Made(d, b) == Made(d, b[..n - 1]) + last;
      hide Made;
      assert (Made(d, a) + Made(d, b[..n - 1])) + last == Made(d, a) + (Made(d, b[..n - 1]) + last);
    }
  }

  /** The guards met along a run: the state reached has a handler for the event, the answer is a state. */
  ghost predicate Guarded(d: Definition, es: seq<Event>) {
    forall k :: 0 <= k < |es| ==> GuardAt(d, es, k)
  }

  predicate GuardAt(d: Definition, es: seq<Event>, k: nat)
    requires k < |es|
  {
    var at := if k == 0 then d.initial else es[k - 1].next;
    && at < |d.states|
    && es[k].kind in d.states[at].handlers
    && es[k].next <= d.maxState
  }

  lemma GuardedPrefix(d: Definition, es: seq<Event>)
    requires es != []
    ensures Guarded(d, es) <==> Guarded(d, es[..|es| - 1]) && GuardAt(d, es, |es| - 1)
  {
    var before := es[..|es| - 1];
    assert forall k :: 0 <= k < |before| ==> (GuardAt(d, es, k) <==> GuardAt(d, before, k));
  }

  /**
   * A run aborts exactly when some guard fails, and otherwise its hook calls are those of the
   * matched, strictly alternating trace of its visits; the machine stands in the last visit.
   */
  lemma {:induction false} RunAlternates(d: Definition, es: seq<Event>)
    requires WellFormed(d)
    ensures Run(d, es).aborted <==> !Guarded(d, es)
    ensures Guarded(d, es) && es != [] ==>
              && Run(d, es).calls == Made(d, Alternating(Visits(d, es)))
              && Run(d, es).current == Some(Visits(d, es)[|Visits(d, es)| - 1])
    ensures CurrentState(d, Run(d, es)) == Visits(d, es)[|Visits(d, es)| - 1] || Run(d, es).aborted
  {
    if es != [] {
      var before, e := es[..|es| - 1], es[|es| - 1];
      assert es == before + [e] && Run(d, es) == Handle(d, Run(d, before), e);
      assert before == [] ==> Run(d, before) == IDLE;
      assert Run(d, before).aborted ==> Run(d, es).aborted;
      hide Made;
      hide Alternating;
      hide Handle;
      hide Run;
      hide GuardAt;
      RunAlternates(d, before);
      GuardedPrefix(d, es);
      VisitsAreMoves(d, before);
      hide Guarded;
      hide Visits;
      if Guarded(d, before) {
        StepAlternates(d, before, e);
      }
    }
  }

  lemma OneMoreVisit(d: Definition, path: seq<nat>, next: nat)
    requires path != []
    ensures Made(d, Alternating(path + [next]))
            == Made(d, Alternating(path)) + Made(d, [Depart(path[|path| - 1])]) + Made(d, [Arrive(next)])
  {
    var longer, at := path + [next], path[|path| - 1];
    assert longer[..|longer| - 1] == path;
    assert Alternating(longer) == Alternating(path) + [Depart(at)] + [Arrive(next)];
    hide Made;
    hide Alternating;
    MadeConcat(d, Alternating(path) + [Depart(at)], [Arrive(next)]);
    MadeConcat(d, Alternating(path), [Depart(at)]);
  }

  /** Entering the first state, if that has not happened, makes the calls of the visits so far complete. */
  lemma FirstAlternates(d: Definition, s: Status, path: seq<nat>)
    requires path != []
    requires if s.current.None? then s.calls == [] && path == [d.initial]
             else s.calls == Made(d, Alternating(path)) && s.current == Some(path[|path| - 1])
    ensures First(d, s) == Status(Some(path[|path| - 1]), Made(d, Alternating(path)), s.aborted)
  {
    hide Made;
    assert s.current.None? ==> Alternating(path) == [Arrive(d.initial)];
    assert [] + Made(d, [Arrive(d.initial)]) == Made(d, [Arrive(d.initial)]);
  }

  lemma StepAlternates(d: Definition, before: seq<Event>, e: Event)
    requires WellFormed(d) && !Run(d, before).aborted
    requires before == [] ==> Run(d, before) == IDLE
    requires before != [] ==>
               && Run(d, before).calls == Made(d, Alternating(Visits(d, before)))
               && Run(d, before).current == Some(Visits(d, before)[|Visits(d, before)| - 1])
    requires Visits(d, before)[|Visits(d, before)| - 1] == if before == [] then d.initial else before[|before| - 1].next
    ensures var es := before + [e];
            var s, path := Handle(d, Run(d, before), e), Visits(d, es);
            && (s.aborted <==> !GuardAt(d, es, |before|))
            && (!s.aborted ==> s.calls == Made(d, Alternating(path)) && s.current == Some(path[|path| - 1]))
  {
    var es, path, s := before + [e], Visits(d, before), Run(d, before);
    assert es[..|es| - 1] == before;
    var at := path[|path| - 1];
    assert Visits(d, es) == if at == e.next then path else path + [e.next];
    assert before == [] ==> path == [d.initial];
    hide Visits;
    hide Run;
    FirstAlternates(d, s, path);
    OneMoreVisit(d, path, e.next);
    hide Made;
    hide Alternating;
    hide First;
  }

  /** Before any event nothing is open, so closing is silent; afterwards it closes the one open state. */
  lemma CloseShutsTheOpenState(d: Definition, es: seq<Event>)
    requires WellFormed(d) && Guarded(d, es)
    ensures es == [] ==> Close(d, Run(d, es)).calls == []
    ensures es != [] ==>
              var path := Visits(d, es);
              Close(d, Run(d, es)).calls == Made(d, Alternating(path) + [Depart(path[|path| - 1])])
  {
    RunAlternates(d, es);
    if es != [] {
      var path := Visits(d, es);
      MadeConcat(d, Alternating(path), [Depart(path[|path| - 1])]);
    }
  }

  /** Closing does not forget the state: a second close reports the same departure again, if it is hooked. */
  lemma SecondCloseIsSilentIff(d: Definition, es: seq<Event>)
    requires WellFormed(d) && Guarded(d, es)
    ensures var once := Close(d, Run(d, es));
            Close(d, once) == once <==> es == [] || !Hooked(d, Depart(CurrentState(d, Run(d, es))))
  {
    RunAlternates(d, es);
    if es != [] {
      var s := Run(d, es);
      MadeOne(d, Depart(s.current.value));
      assert |Close(d, Close(d, s)).calls| == |Close(d, s).calls| + |Made(d, [Depart(s.current.value)])|;
    }
  }

  /** Two states with departure hooks only; after one read event that stays in state 0, each close departs from it. */
  lemma SecondCloseCanDepartAgain()
    ensures var d := Definition(0, 1, [StateDefinition(0, false, true, {Read}), StateDefinition(1, false, true, {})]);
            var s := Handle(d, IDLE, Event(Read, 0));
            && WellFormed(d) && Close(d, s).calls == [Depart(0)]
            && Close(d, Close(d, s)).calls == [Depart(0), Depart(0)]
  {
    var d := Definition(0, 1, [StateDefinition(0, false, true, {Read}), StateDefinition(1, false, true, {})]);
    MadeOne(d, Arrive(0));
    MadeOne(d, Depart(0));
    assert Handle(d, IDLE, Event(Read, 0)) == Status(Some(0), [], false);
  }

  /** A machine needs a state behind its initial one: the single state 0 is refused, two states are accepted. */
  lemma LastStateCannotBeInitial()
    ensures var state := (n: nat) => StateDefinition(n, true, true, {Read});
            !WellFormed(Definition(0, 0, [state(0)])) && WellFormed(Definition(0, 1, [state(0), state(1)]))
            && !WellFormed(Definition(1, 1, [state(0), state(1)])) && !WellFormed(Definition(0, 1, [state(1), state(0)]))
  {
    var state := (n: nat) => StateDefinition(n, true, true, {Read});
    assert [state(1), state(0)][0].state == 1;
  }
}
