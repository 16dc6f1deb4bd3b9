/** src/shared/parser.c: runs a table of states, each a list of guarded transitions. */
module Parser {
  import opened Bytes

  /** `when` values up to 0xFF name one byte, ANY matches all, others are class masks. */
  const ANY: int := 512

  /** An action stores its event type and the byte that triggered it. */
  datatype Transition = Transition(when: int, dest: nat, act1: nat, act2: Option<nat>)

  datatype Event = Event(kind: nat, data: seq<byte>)

  type Table = seq<seq<Transition>>

  predicate TableOk(t: Table) {
    forall i, j :: 0 <= i < |t| && 0 <= j < |t[i]| ==> t[i][j].dest < |t|
  }

  predicate SharesBit(a: nat, b: nat)
    decreases a
  {
    a != 0 && ((a % 2 == 1 && b % 2 == 1) || SharesBit(a / 2, b / 2))
  }

  predicate Matches(t: Transition, kind: nat, c: byte) {
    if t.when <= 0xFF then c == t.when
    else if t.when == ANY then true
    else SharesBit(kind, t.when)
  }

  /** The first transition of a row that matches, or the length of the row. */
  function FirstMatch(row: seq<Transition>, kind: nat, c: byte): (i: nat)
    ensures i <= |row|
    ensures forall j :: 0 <= j < i ==> !Matches(row[j], kind, c)
    ensures i < |row| ==> Matches(row[i], kind, c)
  {
    if row == [] || Matches(row[0], kind, c) then 0 else 1 + FirstMatch(row[1..], kind, c)
  }

  /** The mutable part of a parser. `e2` is None when `e1` is not linked to a second event. */
  datatype Machine = Machine(state: nat, e1: Event, e2: Option<Event>)

  const NO_EVENT := Event(0, [])

  function Fresh(start: nat): Machine {
    Machine(start, NO_EVENT, None)
  }

  function Feed(t: Table, classes: seq<nat>, m: Machine, c: byte): (m': Machine)
    requires TableOk(t) && m.state < |t| && |classes| == 256
    ensures m'.state < |t|
  {
    var row := t[m.state];
    var i := FirstMatch(row, classes[c], c);
    if i == |row| then m.(e2 := None)
    else
      Machine(row[i].dest, Event(row[i].act1, [c]),
              if row[i].act2.Some? then Some(Event(row[i].act2.value, [c])) else None)
  }

  function FeedAll(t: Table, classes: seq<nat>, m: Machine, w: seq<byte>): (m': Machine)
    requires TableOk(t) && m.state < |t| && |classes| == 256
    ensures m'.state < |t|
  {
    if w == [] then m else Feed(t, classes, FeedAll(t, classes, m, w[..|w| - 1]), w[|w| - 1])
  }

  // What one byte does, by the transitions themselves

  /** Bit k of n. */
  predicate HasBit(n: nat, k: nat) {
    if k == 0 then n % 2 == 1 else HasBit(n / 2, k - 1)
  }

  ghost predicate HaveCommonBit(a: nat, b: nat) {
    exists k: nat :: HasBit(a, k) && HasBit(b, k)
  }

  lemma CommonBitHalves(a: nat, b: nat)
    ensures HaveCommonBit(a, b) <==> (a % 2 == 1 && b % 2 == 1) || HaveCommonBit(a / 2, b / 2)
  {
    if k: nat :| HasBit(a, k) && HasBit(b, k) && k > 0 {
      assert HasBit(a / 2, k - 1) && HasBit(b / 2, k - 1);
    }
    if k: nat :| HasBit(a / 2, k) && HasBit(b / 2, k) {
      assert HasBit(a, k + 1) && HasBit(b, k + 1);
    }
    if a % 2 == 1 && b % 2 == 1 {
      assert HasBit(a, 0) && HasBit(b, 0);
    }
  }

  lemma {:induction false} SharesBitIff(a: nat, b: nat)
    ensures SharesBit(a, b) <==> HaveCommonBit(a, b)
    decreases a
  {
    if a == 0 {
      forall k: nat
        ensures !HasBit(a, k)
      {
        ZeroHasNoBit(k);
      }
    } else {
      SharesBitIff(a / 2, b / 2);
      CommonBitHalves(a, b);
      hide HaveCommonBit;
    }
  }

  lemma {:induction false} ZeroHasNoBit(k: nat)
    ensures !HasBit(0, k)
  {
    if k > 0 {
      ZeroHasNoBit(k - 1);
    }
  }

  /** A transition is for one byte, or with 512 for all, or for the bytes whose class shares a bit with it. */
  lemma MatchesIff(t: Transition, kind: nat, c: byte)
    ensures t.when <= 255 ==> (Matches(t, kind, c) <==> t.when == c)
    ensures t.when == 512 ==> Matches(t, kind, c)
    ensures t.when > 255 && t.when != 512 ==>
              (Matches(t, kind, c) <==> HaveCommonBit(kind, t.when))
  {
    if t.when > 255 {
      SharesBitIff(kind, t.when);
    }
  }

  lemma {:induction false} FirstMatchIs(row: seq<Transition>, kind: nat, c: byte, i: nat)
    requires i <= |row| && (forall j :: 0 <= j < i ==> !Matches(row[j], kind, c))
    requires i < |row| ==> Matches(row[i], kind, c)
    ensures FirstMatch(row, kind, c) == i
    decreases i
  {
    if i > 0 {
      FirstMatchIs(row[1..], kind, c, i - 1);
    }
  }

  /**
   * One byte takes the first transition that matches it: the state it leads to, its event with the
   * byte, and the second event if it has one. Without any, state and first event stay.
   */
  lemma FeedTakesFirst(t: Table, classes: seq<nat>, m: Machine, c: byte, i: nat)
    requires TableOk(t) && m.state < |t| && |classes| == 256 && i <= |t[m.state]|
    requires forall j :: 0 <= j < i ==> !Matches(t[m.state][j], classes[c], c)
    requires i < |t[m.state]| ==> Matches(t[m.state][i], classes[c], c)
    ensures var row, m' := t[m.state], Feed(t, classes, m, c);
            if i < |row| then
              && m'.state == row[i].dest && m'.e1 == Event(row[i].act1, [c])
              && (row[i].act2.None? ==> m'.e2 == None)
              && (row[i].act2.Some? ==> m'.e2 == Some(Event(row[i].act2.value, [c])))
            else m'.state == m.state && m'.e1 == m.e1 && m'.e2 == None
  {
    FirstMatchIs(t[m.state], classes[c], c, i);
    hide FirstMatch;
    hide Matches;
  }

  function NoClasses(): (classes: seq<nat>)
    ensures |classes| == 256
    ensures forall i :: 0 <= i < 256 ==> classes[i] == 0
  {
    seq(256, _ => 0)
  }

  /**
   * A definition as the C code lays it out: every state names a run of `statesN` transitions
   * that starts at offset `states` of one shared array.
   */
  datatype Definition = Definition(start: nat, states: array<nat>, statesN: array<nat>, transitions: array<Transition>)

  predicate LaidOut(states: seq<nat>, statesN: seq<nat>, transitions: seq<Transition>) {
    && |states| == |statesN|
    && forall i :: 0 <= i < |states| ==> states[i] + statesN[i] <= |transitions|
  }

  function Rows(states: seq<nat>, statesN: seq<nat>, transitions: seq<Transition>): (t: Table)
    requires LaidOut(states, statesN, transitions)
    ensures |t| == |states|
    ensures forall i :: 0 <= i < |t| ==> t[i] == transitions[states[i]..states[i] + statesN[i]]
  {
    seq(|states|, i requires 0 <= i < |states| => transitions[states[i]..states[i] + statesN[i]])
  }

  ghost predicate DefinitionOk(d: Definition)
    reads d.states, d.statesN, d.transitions
  {
    && LaidOut(d.states[..], d.statesN[..], d.transitions[..])
    && d.start < d.states.Length
    && TableOk(TableOf(d))
  }

  ghost function TableOf(d: Definition): Table
    requires LaidOut(d.states[..], d.statesN[..], d.transitions[..])
    reads d.states, d.statesN, d.transitions
  {
    Rows(d.states[..], d.statesN[..], d.transitions[..])
  }

  class Parser {
    const classes: seq<nat>
    const def: Definition
    var state: nat
    var e1: Event
    var e2: Event
    var linked: bool

    ghost predicate Valid()
      reads this, def.states, def.statesN, def.transitions
    {
      && |classes| == 256
      && DefinitionOk(def)
      && state < def.states.Length
    }

    ghost function View(): Machine
      reads this
    {
      Machine(state, e1, if linked then Some(e2) else None)
    }

    constructor (classes: seq<nat>, def: Definition)
      requires |classes| == 256 && DefinitionOk(def)
      ensures Valid() && this.classes == classes && this.def == def
      ensures View() == Fresh(def.start)
    {
      this.classes, this.def := classes, def;
      state := def.start;
      e1, e2, linked := NO_EVENT, NO_EVENT, false;
    }

    method Reset()
      requires Valid()
      modifies this
      ensures Valid()
      ensures state == def.start && unchanged(`e1) && unchanged(`e2) && unchanged(`linked)
    {
      state := def.start;
    }

    method FeedByte(c: byte) returns (e: Event)
      requires Valid()
      modifies this
      ensures Valid()
      ensures View() == Feed(TableOf(def), classes, old(View()), c)
      ensures e == e1
    {
      ghost var table, was := TableOf(def), View();
      var kind := classes[c];
      linked := false;
      var first := def.states[state];
      var n := def.statesN[state];
      ghost var row := table[state];
      var i := 0;
      while i < n
        invariant 0 <= i <= n == |row|
        invariant forall j :: 0 <= j < i ==> !Matches(row[j], kind, c)
        invariant View() == was.(e2 := None)
      {
        var t := def.transitions[first + i];
        assert t == row[i];
        if Matches(t, kind, c) {
          e1 := Event(t.act1, [c]);
          if t.act2.Some? {
            linked := true;
            e2 := Event(t.act2.value, [c]);
          }
          state := t.dest;
          break;
        }
        i := i + 1;
      }
      assert i == FirstMatch(row, kind, c);
      e := e1;
    }
  }

  /** Feeding a word in two pieces is feeding it whole. */
  lemma {:induction false} FeedAllConcat(t: Table, classes: seq<nat>, m: Machine, v: seq<byte>, w: seq<byte>)
    requires TableOk(t) && m.state < |t| && |classes| == 256
    ensures FeedAll(t, classes, m, v + w) == FeedAll(t, classes, FeedAll(t, classes, m, v), w)
  {
    if w == [] {
      assert v + w == v;
    } else {
      FeedAllConcat(t, classes, m, v, w[..|w| - 1]);
      assert (v + w)[..|v + w| - 1] == v + w[..|w| - 1];
    }
  }

  // Reset

  ghost predicate MatchesSomething(t: Table, classes: seq<nat>, state: nat, c: byte)
    requires state < |t| && |classes| == 256
  {
    exists i :: 0 <= i < |t[state]| && Matches(t[state][i], classes[c], c)
  }

  /**
   * A reset parser reports what a fresh one would exactly when its first byte matches some
   * transition of the start state or no event was stored before: the reset keeps the old event,
   * and a byte that matches nothing reports it again.
   */
  lemma ResetIsFreshIff(t: Table, classes: seq<nat>, start: nat, m: Machine, c: byte)
    requires TableOk(t) && start < |t| && |classes| == 256
    ensures Feed(t, classes, m.(state := start), c) == Feed(t, classes, Fresh(start), c)
            <==> MatchesSomething(t, classes, start, c) || m.e1 == NO_EVENT
  {
    var i := FirstMatch(t[start], classes[c], c);
    if i < |t[start]| {
      assert Matches(t[start][i], classes[c], c);
    }
  }

  /** A one-rule table shows the stale event: after "a" and a reset, "b" still reports the "a". */
  lemma ResetCanReportAStaleEvent()
    ensures var t: Table := [[Transition(0x61, 0, 7, None)]];
            && TableOk(t)
            && var m := FeedAll(t, NoClasses(), Fresh(0), [0x61]).(state := 0);
               Feed(t, NoClasses(), m, 0x62).e1 == Event(7, [0x61])
               && Feed(t, NoClasses(), Fresh(0), 0x62).e1 == NO_EVENT
  {
    var t: Table := [[Transition(0x61, 0, 7, None)]];
    var w: seq<byte> := [0x61];
    assert w[..|w| - 1] == [];
    assert Matches(t[0][0], 0, 0x61) && !Matches(t[0][0], 0, 0x62);
    assert FeedAll(t, NoClasses(), Fresh(0), w) == Feed(t, NoClasses(), Fresh(0), 0x61);
  }

  /** In a table where every state accepts every byte, a reset forgets the whole past. */
  lemma {:induction false} ResetForgets(t: Table, classes: seq<nat>, start: nat, m: Machine, w: seq<byte>)
    requires TableOk(t) && start < |t| && |classes| == 256 && w != []
    requires forall s, c: byte :: 0 <= s < |t| ==> MatchesSomething(t, classes, s, c)
    ensures FeedAll(t, classes, m.(state := start), w) == FeedAll(t, classes, Fresh(start), w)
  {
    if |w| == 1 {
      ResetIsFreshIff(t, classes, start, m, w[0]);
      assert w[..0] == [];
      assert MatchesSomething(t, classes, start, w[0]);
    } else {
      ResetForgets(t, classes, start, m, w[..|w| - 1]);
    }
  }
}
