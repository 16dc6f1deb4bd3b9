/** src/ignore/parser_utils.c: compiles a string into an automaton that compares ignoring case. */
module ParserUtils {
  import opened Bytes
  import opened Parser

  const MAYEQ: nat := 0
  const EQ: nat := 1
  const NEQ: nat := 2

  /** `tolower` and `toupper` of the C locale. */
  function Lower(c: byte): byte {
    if 0x41 <= c <= 0x5A then c + 32 else c
  }

  function Upper(c: byte): byte {
    if 0x61 <= c <= 0x7A then c - 32 else c
  }

  predicate Ascii(s: seq<byte>) {
    forall i :: 0 <= i < |s| ==> s[i] < 128
  }

  function Row(s: seq<byte>, i: nat): seq<Transition>
    requires i < |s| + 2
  {
    if i < |s| then
      var act := if i + 1 == |s| then EQ else MAYEQ;
      [Transition(Lower(s[i]), i + 1, act, None),
       Transition(Upper(s[i]), i + 1, act, None),
       Transition(ANY, |s| + 1, NEQ, None)]
    else
      [Transition(ANY, |s| + 1, NEQ, None)]
  }

  function StrCmpITable(s: seq<byte>): (t: Table)
    ensures |t| == |s| + 2 && TableOk(t)
    ensures forall i :: 0 <= i < |t| ==> t[i] == Row(s, i)
  {
    seq(|s| + 2, i requires 0 <= i < |s| + 2 => Row(s, i))
  }

  /** The arrays describe the first m rows of the table for s. */
  ghost predicate Filled(states: seq<nat>, nstates: seq<nat>, transitions: seq<Transition>, s: seq<byte>, m: nat) {
    && |states| == |nstates| == |s| + 2 && |transitions| == 3 * (|s| + 2) && m <= |s| + 2
    && forall k :: 0 <= k < m ==> RowFilled(states, nstates, transitions, s, k)
  }

  ghost predicate RowFilled(states: seq<nat>, nstates: seq<nat>, transitions: seq<Transition>, s: seq<byte>, k: nat)
    requires |states| == |nstates| == |s| + 2 && |transitions| == 3 * (|s| + 2) && k < |s| + 2
  {
    && states[k] == k * 3
    && nstates[k] == |Row(s, k)|
    && forall j :: 0 <= j < |Row(s, k)| ==> transitions[k * 3 + j] == Row(s, k)[j]
  }

  lemma FilledIsTable(states: seq<nat>, nstates: seq<nat>, transitions: seq<Transition>, s: seq<byte>)
    requires Filled(states, nstates, transitions, s, |s| + 2)
    ensures LaidOut(states, nstates, transitions) && Rows(states, nstates, transitions) == StrCmpITable(s)
  {
    forall k | 0 <= k < |s| + 2
      ensures states[k] + nstates[k] <= |transitions|
      ensures transitions[states[k]..states[k] + nstates[k]] == Row(s, k)
    {
      assert RowFilled(states, nstates, transitions, s, k);
    }
  }

  /** Overwriting slots of row m leaves the rows before it as they were. */
  lemma FilledStays(st: seq<nat>, ns: seq<nat>, tr: seq<Transition>, st': seq<nat>, ns': seq<nat>, tr': seq<Transition>,
                    s: seq<byte>, m: nat)
    requires Filled(st, ns, tr, s, m) && m < |s| + 2
    requires |st'| == |st| && |ns'| == |ns| && |tr'| == |tr|
    requires st'[..m] == st[..m] && ns'[..m] == ns[..m] && tr'[..3 * m] == tr[..3 * m]
    requires RowFilled(st', ns', tr', s, m)
    ensures Filled(st', ns', tr', s, m + 1)
  {
    forall k | 0 <= k < m
      ensures RowFilled(st', ns', tr', s, k)
    {
      assert RowFilled(st, ns, tr, s, k);
      assert st'[..m][k] == st[..m][k] && ns'[..m][k] == ns[..m][k];
      forall j | 0 <= j < |Row(s, k)|
        ensures tr'[k * 3 + j] == Row(s, k)[j]
      {
        assert tr'[..3 * m][k * 3 + j] == tr[..3 * m][k * 3 + j];
      }
    }
  }

  /** Fills the three arrays in place; state |s| means "equal so far and complete", |s| + 1 is the sink. */
  method StrCmpI(s: seq<byte>) returns (def: Definition)
    requires NulFree(s) && Ascii(s)
    ensures DefinitionOk(def) && TableOf(def) == StrCmpITable(s) && def.start == 0
    ensures fresh(def.states) && fresh(def.statesN) && fresh(def.transitions)
  {
    var n := |s|;
    var states := new nat[n + 2](_ => 0);
    var nstates := new nat[n + 2](_ => 0);
    var transitions := new Transition[3 * (n + 2)](_ => Transition(0, 0, MAYEQ, None));
    var stEq, stNeq := n, n + 1;
    var i := 0;
    while i < n
      invariant 0 <= i <= n
      invariant Filled(states[..], nstates[..], transitions[..], s, i)
    {
      var dest := if i + 1 == n then stEq else i + 1;
      var act := if i + 1 == n then EQ else MAYEQ;
      FillRow(states, nstates, transitions, s, i,
              [Transition(Lower(s[i]), dest, act, None),
               Transition(Upper(s[i]), dest, act, None),
               Transition(ANY, stNeq, NEQ, None)]);
      i := i + 1;
    }
    FillRow(states, nstates, transitions, s, n, [Transition(ANY, stNeq, NEQ, None)]);
    FillRow(states, nstates, transitions, s, n + 1, [Transition(ANY, stNeq, NEQ, None)]);
    def := Definition(0, states, nstates, transitions);
    FilledIsTable(states[..], nstates[..], transitions[..], s);
  }

  /** The assignments for one state: its transitions, where they start and how many they are. */
  method FillRow(states: array<nat>, nstates: array<nat>, transitions: array<Transition>, s: seq<byte>, m: nat,
                 row: seq<Transition>)
    requires states != nstates && m < |s| + 2 && row == Row(s, m)
    requires Filled(states[..], nstates[..], transitions[..], s, m)
    modifies states, nstates, transitions
    ensures Filled(states[..], nstates[..], transitions[..], s, m + 1)
  {
    ghost var st, ns, tr := states[..], nstates[..], transitions[..];
    forall j | 0 <= j < |row| {
      transitions[m * 3 + j] := row[j];
    }
    states[m] := m * 3;
    nstates[m] := |row|;
    FilledStays(st, ns, tr, states[..], nstates[..], transitions[..], s, m);
  }

  // What the automaton decides

  /** The same byte, or an ASCII letter in both cases: A to Z are 65 to 90, a to z 97 to 122. */
  predicate SameLetter(a: byte, b: byte) {
    a == b || (65 <= a <= 90 && b == a + 32) || (65 <= b <= 90 && a == b + 32)
  }

  predicate SameIgnoringCase(a: seq<byte>, b: seq<byte>) {
    |a| == |b| && forall i :: 0 <= i < |a| ==> SameLetter(a[i], b[i])
  }

  predicate StrictPrefixIgnoringCase(w: seq<byte>, s: seq<byte>) {
    |w| < |s| && SameIgnoringCase(w, s[..|w|])
  }

  function Verdict(s: seq<byte>, w: seq<byte>): nat {
    if SameIgnoringCase(w, s) then EQ
    else if StrictPrefixIgnoringCase(w, s) then MAYEQ
    else NEQ
  }

  function Compare(s: seq<byte>, w: seq<byte>): Machine {
    FeedAll(StrCmpITable(s), NoClasses(), Fresh(0), w)
  }

  /** One byte: from state i < |s| the automaton advances exactly on s[i] ignoring case. */
  lemma StepOfTable(s: seq<byte>, m: Machine, c: byte)
    requires Ascii(s) && m.state < |s| + 2
    ensures Feed(StrCmpITable(s), NoClasses(), m, c) ==
            if m.state < |s| && SameLetter(c, s[m.state])
            then Machine(m.state + 1, Event(if m.state + 1 == |s| then EQ else MAYEQ, [c]), None)
            else Machine(|s| + 1, Event(NEQ, [c]), None)
  {
    var row := Row(s, m.state);
    var i := FirstMatch(row, 0, c);
    assert Matches(row[|row| - 1], 0, c);
    if m.state < |s| {
      assert Matches(row[0], 0, c) <==> c == Lower(s[m.state]);
      assert Matches(row[1], 0, c) <==> c == Upper(s[m.state]);
    }
  }

  /** w without its last byte, and how that byte decides whether w is still a prefix of s. */
  lemma PrefixGrows(s: seq<byte>, w: seq<byte>)
    requires 0 < |w| <= |s|
    ensures var v := w[..|w| - 1];
            SameIgnoringCase(w, s[..|w|]) <==>
            SameIgnoringCase(v, s[..|v|]) && SameLetter(w[|v|], s[|v|])
  {
    var v := w[..|w| - 1];
    if SameIgnoringCase(w, s[..|w|]) {
      forall i | 0 <= i < |v|
        ensures SameLetter(v[i], s[..|v|][i])
      {
        assert SameLetter(w[i], s[..|w|][i]);
      }
      assert SameLetter(w[|v|], s[..|w|][|v|]);
    }
    if SameIgnoringCase(v, s[..|v|]) && SameLetter(w[|v|], s[|v|]) {
      forall i | 0 <= i < |w|
        ensures SameLetter(w[i], s[..|w|][i])
      {
        if i < |v| {
          assert SameLetter(v[i], s[..|v|][i]);
        }
      }
    }
  }

  /** After w the automaton is in state |w| while w is a prefix of s, and in the sink otherwise. */
  lemma {:induction false} StateAfter(s: seq<byte>, w: seq<byte>)
    requires Ascii(s)
    ensures Compare(s, w).state ==
            if |w| <= |s| && SameIgnoringCase(w, s[..|w|]) then |w| else |s| + 1
  {
    if w != [] {
      var v := w[..|w| - 1];
      StateAfter(s, v);
      StepOfTable(s, Compare(s, v), w[|w| - 1]);
      if |w| <= |s| {
        PrefixGrows(s, w);
      }
    }
  }

  /** The event follows from the state the last byte leads to. */
  lemma EventTellsState(s: seq<byte>, w: seq<byte>)
    requires Ascii(s) && w != []
    ensures var m := Compare(s, w);
            && m.e1 == Event(if m.state == |s| + 1 then NEQ else if m.state == |s| then EQ else MAYEQ, [w[|w| - 1]])
            && m.e2 == None
  {
    StepOfTable(s, Compare(s, w[..|w| - 1]), w[|w| - 1]);
  }

  /**
   * The generated automaton decides case-insensitive equality: the event reported for the last
   * byte of w says whether w is s, a strict prefix of s, or neither, ignoring case.
   */
  lemma LastEventDecides(s: seq<byte>, w: seq<byte>)
    requires Ascii(s) && w != []
    ensures Compare(s, w).e1 == Event(Verdict(s, w), [w[|w| - 1]])
    ensures Compare(s, w).e2 == None
  {
    StateAfter(s, w);
    EventTellsState(s, w);
    assert s[..|s|] == s;
  }

  /** After any input and a reset the automaton compares as if it were new. */
  lemma ResetComparesAfresh(s: seq<byte>, v: seq<byte>, w: seq<byte>)
    requires Ascii(s) && w != []
    ensures FeedAll(StrCmpITable(s), NoClasses(), Compare(s, v).(state := 0), w) == Compare(s, w)
  {
    var t := StrCmpITable(s);
    forall i, c: byte | 0 <= i < |t|
      ensures MatchesSomething(t, NoClasses(), i, c)
    {
      assert Matches(t[i][|t[i]| - 1], NoClasses()[c], c);
    }
    ResetForgets(t, NoClasses(), 0, Compare(s, v), w);
  }
}
