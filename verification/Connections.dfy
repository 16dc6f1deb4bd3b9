/** src/server/main.c: the parallel arrays of clients and poll entries, and the loop that serves them. */
module Connections {
  import opened Bytes
  import opened Modes

  const MAX_CLIENTS: nat := 1022
  const MAX_EVENTS: nat := 1024

  /** A client slot: its socket, its session mode and the incomplete line it has sent so far. */
  datatype Client = Client(sock: int, mode: Mode, leftover: seq<byte>)

  const EMPTY_SLOT := Client(0, Authorization, [])

  /** `total` is total_historic_connections, `most` is max_consecutive_connections. */
  datatype Table = Table(clients: seq<Client>, fds: seq<int>, count: nat, total: nat, most: nat)

  function Live(t: Table): seq<Client>
    requires t.count <= |t.clients|
  {
    t.clients[..t.count]
  }

  /** Poll entry k + 2 belongs to client k; entries 0 and 1 are the listeners; later ones are unused. */
  ghost predicate Aligned(t: Table) {
    && |t.clients| == MAX_CLIENTS && |t.fds| == MAX_EVENTS && t.count <= MAX_CLIENTS
    && (forall k :: 0 <= k < t.count ==> t.fds[k + 2] == t.clients[k].sock)
    && (forall k :: t.count + 2 <= k < MAX_EVENTS ==> t.fds[k] == -1)
  }

  datatype Outcome = Added | Refused | Overrun

  /** What the guard of add_client lets through, given that the arrays end where they do. */
  function Admission(count: nat): Outcome {
    if count < MAX_CLIENTS + 1 then (if count < MAX_CLIENTS then Added else Overrun) else Refused
  }

  datatype Event =
    | Accept(sock: int, manager: bool)
    | Serve(k: nat, mode: Mode, leftover: seq<byte>)
    | Remove(k: nat)
    | Rebind(fd: int)

  predicate Possible(t: Table, e: Event) {
    match e
    case Accept(_, _) => t.count < MAX_CLIENTS
    case Serve(k, _, _) => k < t.count
    case Remove(k) => k < t.count
    case Rebind(_) => true
  }

  /** The slot keeps the leftover of whoever was in it before. */
  function Step(t: Table, e: Event): (t': Table)
    requires Aligned(t) && Possible(t, e)
    ensures Aligned(t')
  {
    match e
    case Accept(sock, manager) =>
      Table(t.clients[t.count := Client(sock, if manager then Manager else Authorization, t.clients[t.count].leftover)],
            t.fds[t.count + 2 := sock], t.count + 1, t.total + 1, if t.count > t.most then t.count else t.most)
    case Serve(k, mode, leftover) =>
      t.(clients := t.clients[k := Client(t.clients[k].sock, mode, leftover)])
    case Remove(k) =>
      var last := t.count - 1;
      t.(fds := t.fds[k + 2 := t.fds[last + 2]][last + 2 := -1],
         clients := t.clients[k := t.clients[last]][last := Client(-1, Error, t.clients[last].leftover)],
         count := last)
    case Rebind(fd) => t.(fds := t.fds[0 := fd])
  }

  class Server {
    const clients: array<Client>
    const fds: array<int>
    /** The POLLIN flag of each poll entry. */
    const ready: array<bool>
    var count: nat
    var total: nat
    var most: nat
    var serverSocket: int
    const managerSocket: int

    ghost function View(): Table
      reads this, clients, fds
    {
      Table(clients[..], fds[..], count, total, most)
    }

    ghost predicate Valid()
      reads this, clients, fds
    {
      && fds.Length == MAX_EVENTS == ready.Length
      && Aligned(View())
      && fds[1] == managerSocket
      && (fds[0] == serverSocket || fds[0] == -1)
      && 0 <= serverSocket && 0 <= managerSocket
    }

    constructor (serverSocket: int, managerSocket: int)
      requires 0 <= serverSocket && 0 <= managerSocket
      ensures Valid() && count == 0 && total == 0 && most == 0
      ensures fds[0] == serverSocket == this.serverSocket && this.managerSocket == managerSocket
      ensures fresh(clients) && fresh(fds) && fresh(ready)
    {
      clients := new Client[MAX_CLIENTS](_ => EMPTY_SLOT);
      fds := new int[MAX_EVENTS](i => if i == 0 then serverSocket else if i == 1 then managerSocket else -1);
      ready := new bool[MAX_EVENTS](_ => false);
      count, total, most := 0, 0, 0;
      this.serverSocket, this.managerSocket := serverSocket, managerSocket;
    }

    /** add_client followed by what the accept branch does with a new client. */
    method AddClient(sock: int, manager: bool) returns (outcome: Outcome)
      requires Valid()
      modifies this`count, this`total, this`most, clients, fds
      ensures Valid()
      ensures outcome == Admission(old(count)) && outcome != Refused
      ensures outcome == Overrun <==> old(count) == MAX_CLIENTS
      ensures View() == if outcome == Added then Step(old(View()), Accept(sock, manager)) else old(View())
    {
      if count < MAX_CLIENTS + 1 {
        if count == MAX_CLIENTS {
          return Overrun; // entry 1024 and client 1022 do not exist
        }
        fds[count + 2] := sock;
        total := total + 1;
        most := if count > most then count else most;
        clients[count] := Client(sock, if manager then Manager else Authorization, clients[count].leftover);
        count := count + 1;
        outcome := Added;
        assert View() == Step(old(View()), Accept(sock, manager));
      } else {
        outcome := Refused;
      }
    }

    method CloseClient(index: nat)
      requires Valid() && 2 <= index < count + 2
      modifies this`count, clients, fds
      ensures Valid() && View() == Step(old(View()), Remove(index - 2))
    {
      fds[index] := fds[count + 1];
      fds[count + 1] := -1;
      clients[index - 2] := clients[count - 1];
      clients[count - 1] := clients[count - 1].(sock := -1, mode := Error);
      count := count - 1;
      assert View() == Step(old(View()), Remove(index - 2));
    }
  }

  // Runs of accepts, service and removals

  ghost predicate PossibleRun(t: Table, es: seq<Event>)
    requires Aligned(t)
    decreases es
  {
    es == [] || (Possible(t, es[0]) && PossibleRun(Step(t, es[0]), es[1..]))
  }

  ghost function Run(t: Table, es: seq<Event>): (t': Table)
    requires Aligned(t) && PossibleRun(t, es)
    ensures Aligned(t')
    decreases es
  {
    if es == [] then t else Run(Step(t, es[0]), es[1..])
  }

  function Accepts(es: seq<Event>): nat {
    if es == [] then 0 else (if es[0].Accept? then 1 else 0) + Accepts(es[1..])
  }

  /** The accepts among some events, in order. */
  function Admissions(es: seq<Event>): seq<Event> {
    if es == [] then [] else (if es[0].Accept? then [es[0]] else []) + Admissions(es[1..])
  }

  lemma AdmissionsFirst(e: Event, rest: seq<Event>)
    ensures Admissions([e] + rest) == (if e.Accept? then [e] else []) + Admissions(rest)
  {
    assert ([e] + rest)[1..] == rest;
  }

  lemma Regroup(a: seq<Event>, b: seq<Event>, c: seq<Event>)
    ensures a + (b + c) == (a + b) + c
  {
  }

  lemma {:induction false} AdmissionsConcat(a: seq<Event>, b: seq<Event>)
    ensures Admissions(a + b) == Admissions(a) + Admissions(b)
    decreases |a|
  {
    if a == [] {
      assert a + b == b && Admissions(a) == [];
      var rest := Admissions(b);
      assert [] + rest == rest;
    } else {
      var first := if a[0].Accept? then [a[0]] else [];
      hide *;
      AdmissionsConcat(a[1..], b);
      AdmissionsFirst(a[0], a[1..]);
      AdmissionsFirst(a[0], a[1..] + b);
      assert a == [a[0]] + a[1..];
      Regroup([a[0]], a[1..], b);
      Regroup(first, Admissions(a[1..]), Admissions(b));
    }
  }

  /** The sockets of the clients a run serves, in order. */
  ghost function ServedSockets(t: Table, es: seq<Event>): seq<int>
    requires Aligned(t) && PossibleRun(t, es)
    decreases es
  {
    if es == [] then []
    else (if es[0].Serve? then [t.clients[es[0].k].sock] else []) + ServedSockets(Step(t, es[0]), es[1..])
  }

  /** The sockets of the clients that swap-removals put in another client's place. */
  ghost function MovedSockets(t: Table, es: seq<Event>): set<int>
    requires Aligned(t) && PossibleRun(t, es)
    decreases es
  {
    if es == [] then {}
    else
      (if es[0].Remove? && es[0].k != t.count - 1 then {t.clients[t.count - 1].sock} else {})
      + MovedSockets(Step(t, es[0]), es[1..])
  }

  /** The modes in which a served client is removed. */
  predicate Ended(m: Mode) {
    m == Error || m == Closing
  }

  predicate NobodyEnded(live: seq<Client>) {
    forall k :: 0 <= k < |live| ==> !Ended(live[k].mode)
  }

  /** Whoever a run removes had ended by then. */
  ghost predicate OnlyEndedLeave(t: Table, es: seq<Event>)
    requires Aligned(t) && PossibleRun(t, es)
    decreases es
  {
    es == [] ||
    ((es[0].Remove? ==> Ended(t.clients[es[0].k].mode)) && OnlyEndedLeave(Step(t, es[0]), es[1..]))
  }

  lemma {:induction false} RunConcat(t: Table, a: seq<Event>, b: seq<Event>)
    requires Aligned(t) && PossibleRun(t, a) && PossibleRun(Run(t, a), b)
    ensures PossibleRun(t, a + b) && Run(t, a + b) == Run(Run(t, a), b)
    decreases a
  {
    hide Step;
    hide Possible;
    hide Aligned;
    if a == [] {
      assert a + b == b;
    } else {
      RunConcat(Step(t, a[0]), a[1..], b);
      assert (a + b)[1..] == a[1..] + b && (a + b)[0] == a[0];
    }
  }

  lemma {:induction false} ServedConcat(t: Table, a: seq<Event>, b: seq<Event>)
    requires Aligned(t) && PossibleRun(t, a) && PossibleRun(Run(t, a), b) && PossibleRun(t, a + b)
    ensures ServedSockets(t, a + b) == ServedSockets(t, a) + ServedSockets(Run(t, a), b)
    decreases a
  {
    hide Step;
    hide Possible;
    hide Aligned;
    if a == [] {
      assert a + b == b;
    } else {
      assert (a + b)[1..] == a[1..] + b && (a + b)[0] == a[0];
      ServedConcat(Step(t, a[0]), a[1..], b);
    }
  }

  lemma {:induction false} MovedConcat(t: Table, a: seq<Event>, b: seq<Event>)
    requires Aligned(t) && PossibleRun(t, a) && PossibleRun(Run(t, a), b) && PossibleRun(t, a + b)
    ensures MovedSockets(t, a + b) == MovedSockets(t, a) + MovedSockets(Run(t, a), b)
    decreases a
  {
    hide Step;
    hide Possible;
    hide Aligned;
    if a == [] {
      assert a + b == b;
    } else {
      assert (a + b)[1..] == a[1..] + b && (a + b)[0] == a[0];
      MovedConcat(Step(t, a[0]), a[1..], b);
    }
  }

  lemma {:induction false} LeaveConcat(t: Table, a: seq<Event>, b: seq<Event>)
    requires Aligned(t) && PossibleRun(t, a) && PossibleRun(Run(t, a), b) && PossibleRun(t, a + b)
    ensures OnlyEndedLeave(t, a + b) <==> OnlyEndedLeave(t, a) && OnlyEndedLeave(Run(t, a), b)
    decreases a
  {
    hide Step;
    hide Possible;
    hide Aligned;
    if a == [] {
      assert a + b == b;
    } else {
      assert (a + b)[1..] == a[1..] + b && (a + b)[0] == a[0];
      LeaveConcat(Step(t, a[0]), a[1..], b);
    }
  }

  lemma RunOne(t: Table, e: Event)
    requires Aligned(t) && Possible(t, e)
    ensures PossibleRun(t, [e]) && Run(t, [e]) == Step(t, e)
    ensures ServedSockets(t, [e]) == if e.Serve? then [t.clients[e.k].sock] else []
    ensures MovedSockets(t, [e]) == if e.Remove? && e.k != t.count - 1 then {t.clients[t.count - 1].sock} else {}
    ensures OnlyEndedLeave(t, [e]) <==> (e.Remove? ==> Ended(t.clients[e.k].mode))
  {
    var t' := Step(t, e);
    assert [e][1..] == [];
    assert PossibleRun(t', []) && Run(t', []) == t' && ServedSockets(t', []) == [] && MovedSockets(t', []) == {};
    assert OnlyEndedLeave(t', []);
  }

  lemma RunNone(t: Table)
    requires Aligned(t)
    ensures PossibleRun(t, []) && Run(t, []) == t && OnlyEndedLeave(t, [])
  {
  }

  lemma {:induction false} OnlyAccepts(t: Table, es: seq<Event>)
    requires Aligned(t) && t.count + |es| <= MAX_CLIENTS && forall j :: 0 <= j < |es| ==> es[j].Accept?
    ensures PossibleRun(t, es) && Run(t, es).count == t.count + |es|
    decreases es
  {
    if es != [] {
      OnlyAccepts(Step(t, es[0]), es[1..]);
    }
  }

  /** 1022 accepts fill both arrays; the guard still admits the next client, whose entries they do not have. */
  lemma Client1023IsLetThrough(t: Table)
    requires Aligned(t) && t.count == 0
    ensures var es := seq(1022, (j: nat) => Accept(j + 5, false));
            && PossibleRun(t, es)
            && var u := Run(t, es);
               Admission(u.count) == Overrun && u.count == |u.clients| && u.count + 2 == |u.fds|
  {
    var es := seq(1022, (j: nat) => Accept(j + 5, false));
    OnlyAccepts(t, es);
    hide PossibleRun;
  }

  /** The largest number of simultaneous clients at any point of a run. */
  ghost function Peak(t: Table, es: seq<Event>): nat
    requires Aligned(t) && PossibleRun(t, es)
    decreases es
  {
    if es == [] then t.count
    else
      var later := Peak(Step(t, es[0]), es[1..]);
      if t.count > later then t.count else later
  }

  /**
   * Over every run of a table that starts empty, total_historic_connections counts the accepts,
   * and max_consecutive_connections is one less than the peak number of clients (0 without any).
   */
  lemma RunMetrics(t: Table, es: seq<Event>)
    requires Aligned(t) && PossibleRun(t, es)
    requires t.count == 0 && t.total == 0 && t.most == 0
    ensures Run(t, es).total == Accepts(es)
    ensures Run(t, es).most == if Peak(t, es) == 0 then 0 else Peak(t, es) - 1
  {
    MetricsFrom(t, es);
  }

  lemma {:induction false} MetricsFrom(t: Table, es: seq<Event>)
    requires Aligned(t) && PossibleRun(t, es)
    requires t.count <= t.most + 1
    ensures Run(t, es).total == t.total + Accepts(es)
    ensures var p := Peak(t, es); Run(t, es).most == if p > t.most + 1 then p - 1 else t.most
    decreases es
  {
    if es != [] {
      MetricsFrom(Step(t, es[0]), es[1..]);
    }
  }

  /** Entry k gives way to the last one. */
  function SwapRemoved(live: seq<Client>, k: nat): (r: seq<Client>)
    requires k < |live|
  {
    live[k := live[|live| - 1]][..|live| - 1]
  }

  lemma LiveAfterRemove(t: Table, k: nat)
    requires Aligned(t) && k < t.count
    ensures Live(Step(t, Remove(k))) == SwapRemoved(Live(t), k)
  {
  }

  lemma SwapRemovedParts(live: seq<Client>, k: nat)
    requires k < |live|
    ensures var front, back, r := live[..k], live[k + 1..], SwapRemoved(live, k);
            && live == front + [live[k]] + back
            && if k == |live| - 1 then r == front && back == []
               else r == front + ([live[|live| - 1]] + live[k + 1..|live| - 1])
                    && back == live[k + 1..|live| - 1] + [live[|live| - 1]]
  {
  }

  /** Swap-removal takes out exactly one client and keeps every other one once. */
  lemma RemoveKeepsOthers(t: Table, k: nat)
    requires Aligned(t) && k < t.count
    ensures multiset(Live(Step(t, Remove(k)))) == multiset(Live(t)) - multiset{t.clients[k]}
  {
    var live := Live(t);
    assert live[k] == t.clients[k];
    LiveAfterRemove(t, k);
    SwapRemovedParts(live, k);
    hide *;
    var last := live[|live| - 1];
    if k < |live| - 1 {
      var middle := live[k + 1..|live| - 1];
      assert multiset([last] + middle) == multiset{last} + multiset(middle) == multiset(middle + [last]);
    }
    assert multiset(live) == multiset(live[..k]) + multiset{live[k]} + multiset(live[k + 1..]);
  }

  lemma AcceptKeepsOthers(t: Table, sock: int, manager: bool)
    requires Aligned(t) && t.count < MAX_CLIENTS
    ensures var t' := Step(t, Accept(sock, manager));
            Live(t') == Live(t) + [t'.clients[t.count]]
            && t'.clients[t.count].sock == sock
            && t'.clients[t.count].mode == if manager then Manager else Authorization
  {
  }

  // What a new client inherits

  /** The table in front of event j. */
  ghost function TableAt(t: Table, es: seq<Event>, j: nat): (u: Table)
    requires Aligned(t) && PossibleRun(t, es) && j <= |es|
    ensures Aligned(u)
    decreases j
  {
    if j == 0 then t else TableAt(Step(t, es[0]), es[1..], j - 1)
  }

  /** Event j takes a client away and so frees slot m, the last one in use. */
  ghost predicate Frees(t: Table, es: seq<Event>, m: nat, j: nat)
    requires Aligned(t) && PossibleRun(t, es)
  {
    j < |es| && es[j].Remove? && TableAt(t, es, j).count == m + 1
  }

  /** Event j was the last to free slot m, and it moved out a client that was in the middle of a line. */
  ghost predicate LeftMidLine(t: Table, es: seq<Event>, m: nat, j: nat)
    requires Aligned(t) && PossibleRun(t, es) && m < MAX_CLIENTS
  {
    && Frees(t, es, m, j) && (forall i :: j < i < |es| ==> !Frees(t, es, m, i))
    && es[j].k != m && TableAt(t, es, j).clients[m].leftover != []
  }

  /** What handle_client guarantees: a session that ends keeps no partial line. */
  predicate EndsClean(es: seq<Event>) {
    forall j :: 0 <= j < |es| && es[j].Serve? && Ended(es[j].mode) ==> es[j].leftover == []
  }

  ghost predicate EndedAreClean(t: Table)
    requires Aligned(t)
  {
    forall k :: 0 <= k < t.count && Ended(t.clients[k].mode) ==> t.clients[k].leftover == []
  }

  lemma StepKeepsClean(t: Table, e: Event)
    requires Aligned(t) && Possible(t, e) && EndedAreClean(t)
    requires e.Serve? && Ended(e.mode) ==> e.leftover == []
    ensures EndedAreClean(Step(t, e))
  {
  }

  /** A free slot only changes when it is freed. */
  lemma FreeSlotAfter(t: Table, e: Event, m: nat)
    requires Aligned(t) && Possible(t, e) && m < MAX_CLIENTS && Step(t, e).count <= m
    ensures t.count <= m || (e.Remove? && t.count == m + 1)
    ensures Step(t, e).clients[m].leftover == t.clients[m].leftover
  {
  }

  lemma LaterFrees(t: Table, es: seq<Event>, m: nat, j: nat)
    requires Aligned(t) && PossibleRun(t, es) && 0 < j <= |es|
    ensures (Frees(t, es, m, j) <==> Frees(Step(t, es[0]), es[1..], m, j - 1))
    ensures j < |es| ==> TableAt(t, es, j) == TableAt(Step(t, es[0]), es[1..], j - 1)
  {
    hide Step;
    hide Possible;
    hide Aligned;
  }

  ghost predicate NeverFreed(t: Table, es: seq<Event>, m: nat)
    requires Aligned(t) && PossibleRun(t, es)
  {
    forall j :: 0 <= j < |es| ==> !Frees(t, es, m, j)
  }

  /** The partial line of a free slot is the one the last removal left there, or it was there all along. */
  lemma {:induction false} FreeSlotHolds(t: Table, es: seq<Event>, m: nat)
    requires Aligned(t) && PossibleRun(t, es) && Run(t, es).count <= m < MAX_CLIENTS
    requires EndedAreClean(t) && OnlyEndedLeave(t, es) && EndsClean(es)
    ensures NeverFreed(t, es, m) ==> t.count <= m
    ensures Run(t, es).clients[m].leftover != []
            <==> (exists j: nat :: LeftMidLine(t, es, m, j)) || (NeverFreed(t, es, m) && t.clients[m].leftover != [])
    decreases es
  {
    if es != [] {
      var e, t', rest := es[0], Step(t, es[0]), es[1..];
      StepKeepsClean(t, e);
      assert EndsClean(rest);
      FreeSlotHolds(t', rest, m);
      FreedFirstOrLater(t, es, m);
      if NeverFreed(t', rest, m) {
        FreeSlotAfter(t, e, m);
        assert t.count == m + 1 ==> Frees(t, es, m, 0) && t.clients[es[0].k].leftover == [];
      }
      hide Step;
      hide LeftMidLine;
      hide NeverFreed;
      hide EndedAreClean;
      hide OnlyEndedLeave;
    }
  }

  lemma AllLaterFrees(t: Table, es: seq<Event>, m: nat)
    requires Aligned(t) && PossibleRun(t, es) && es != []
    ensures forall j: nat :: 0 < j <= |es| ==> (Frees(t, es, m, j) <==> Frees(Step(t, es[0]), es[1..], m, j - 1))
    ensures NeverFreed(t, es, m) <==> !Frees(t, es, m, 0) && NeverFreed(Step(t, es[0]), es[1..], m)
  {
    hide Step;
    hide Possible;
    hide Aligned;
    var t', rest := Step(t, es[0]), es[1..];
    forall j: nat | 0 < j <= |es|
      ensures Frees(t, es, m, j) <==> Frees(t', rest, m, j - 1)
    {
      LaterFrees(t, es, m, j);
    }
    hide Frees;
    if NeverFreed(t, es, m) {
      forall j: nat | j < |rest|
        ensures !Frees(t', rest, m, j)
      {
        assert !Frees(t, es, m, j + 1);
      }
    }
  }

  lemma LeftLater(t: Table, es: seq<Event>, m: nat, j: nat)
    requires Aligned(t) && PossibleRun(t, es) && m < MAX_CLIENTS && 0 < j < |es|
    ensures LeftMidLine(t, es, m, j) <==> LeftMidLine(Step(t, es[0]), es[1..], m, j - 1)
  {
    hide Step;
    hide Possible;
    hide Aligned;
    var t', rest := Step(t, es[0]), es[1..];
    AllLaterFrees(t, es, m);
    LaterFrees(t, es, m, j);
    hide Frees;
    if LeftMidLine(t, es, m, j) {
      forall i: nat | j - 1 < i < |rest|
        ensures !Frees(t', rest, m, i)
      {
        assert !Frees(t, es, m, i + 1);
      }
    }
  }

  /** The last removal to free the slot is the first event or a later one. */
  lemma FreedFirstOrLater(t: Table, es: seq<Event>, m: nat)
    requires Aligned(t) && PossibleRun(t, es) && es != [] && m < MAX_CLIENTS
    ensures var t', rest := Step(t, es[0]), es[1..];
            && (NeverFreed(t, es, m) <==> !Frees(t, es, m, 0) && NeverFreed(t', rest, m))
            && ((exists j: nat :: LeftMidLine(t, es, m, j))
                <==> (exists j: nat :: LeftMidLine(t', rest, m, j))
                     || (NeverFreed(t', rest, m) && Frees(t, es, m, 0) && es[0].k != m && t.clients[m].leftover != []))
  {
    hide Step;
    hide Possible;
    hide Aligned;
    var t', rest := Step(t, es[0]), es[1..];
    AllLaterFrees(t, es, m);
    LeftFirst(t, es, m);
    hide Frees;
    hide NeverFreed;
    if j: nat :| LeftMidLine(t, es, m, j) && j > 0 {
      LeftLater(t, es, m, j);
      assert LeftMidLine(t', rest, m, j - 1);
    }
    if j: nat :| LeftMidLine(t', rest, m, j) {
      LeftLater(t, es, m, j + 1);
      assert LeftMidLine(t, es, m, j + 1);
    }
  }

  lemma LeftFirst(t: Table, es: seq<Event>, m: nat)
    requires Aligned(t) && PossibleRun(t, es) && es != [] && m < MAX_CLIENTS
    ensures LeftMidLine(t, es, m, 0)
            <==> NeverFreed(Step(t, es[0]), es[1..], m)
                 && Frees(t, es, m, 0) && es[0].k != m && t.clients[m].leftover != []
  {
    hide Step;
    hide Possible;
    hide Aligned;
    var t', rest := Step(t, es[0]), es[1..];
    AllLaterFrees(t, es, m);
    hide Frees;
    if LeftMidLine(t, es, m, 0) {
      forall j: nat | j < |rest|
        ensures !Frees(t', rest, m, j)
      {
        assert !Frees(t, es, m, j + 1);
      }
    }
    if NeverFreed(t', rest, m) {
      forall j: nat | 0 < j < |es|
        ensures !Frees(t, es, m, j)
      {
        assert !Frees(t', rest, m, j - 1);
      }
    }
  }

  predicate NoPartialLines(t: Table) {
    forall k :: 0 <= k < |t.clients| ==> t.clients[k].leftover == []
  }

  /**
   * From a table without partial lines, when sessions that end keep none: a new client starts in the
   * middle of a line if and only if the last removal that freed its slot moved out of it a client
   * that was in the middle of one.
   */
  lemma NewClientStartsMidLineIff(t: Table, es: seq<Event>, sock: int, manager: bool)
    requires Aligned(t) && PossibleRun(t, es) && NoPartialLines(t)
    requires OnlyEndedLeave(t, es) && EndsClean(es) && Run(t, es).count < MAX_CLIENTS
    ensures var u := Run(t, es);
            Step(u, Accept(sock, manager)).clients[u.count].leftover != []
            <==> exists j: nat :: LeftMidLine(t, es, u.count, j)
  {
    FreeSlotHolds(t, es, Run(t, es).count);
  }

  lemma RunFirst(t: Table, e: Event, rest: seq<Event>)
    requires Aligned(t) && Possible(t, e) && PossibleRun(Step(t, e), rest)
    ensures PossibleRun(t, [e] + rest) && Run(t, [e] + rest) == Run(Step(t, e), rest)
    ensures OnlyEndedLeave(t, [e] + rest)
            <==> (e.Remove? ==> Ended(t.clients[e.k].mode)) && OnlyEndedLeave(Step(t, e), rest)
  {
    assert ([e] + rest)[1..] == rest;
    hide Step;
    hide Possible;
  }

  lemma TwoCome(t: Table, half: seq<byte>)
    requires Aligned(t) && t.count == 0
    ensures Possible(t, Accept(7, false))
    ensures var t1 := Step(t, Accept(7, false));
            && Possible(t1, Accept(8, false))
            && var t2 := Step(t1, Accept(8, false));
               && Possible(t2, Serve(1, Authorization, half))
               && var t3 := Step(t2, Serve(1, Authorization, half));
                  t3.count == 2 && |t3.clients| == MAX_CLIENTS && t3.clients[1] == Client(8, Authorization, half)
  {
  }

  lemma OneQuits(t: Table, half: seq<byte>)
    requires Aligned(t) && t.count == 2 && t.clients[1] == Client(8, Authorization, half)
    ensures Possible(t, Serve(0, Closing, []))
    ensures var t1 := Step(t, Serve(0, Closing, []));
            && Possible(t1, Remove(0)) && |t1.clients| == MAX_CLIENTS && Ended(t1.clients[0].mode)
            && var t2 := Step(t1, Remove(0));
               && Possible(t2, Accept(9, false))
               && var t3 := Step(t2, Accept(9, false));
                  |t3.clients| == MAX_CLIENTS && t3.clients[1] == Client(9, Authorization, half)
  {
  }

  /** Two clients, the second in the middle of a line; the first quits and goes, and a third begins mid-line. */
  lemma NewClientCanStartMidLine(t: Table, half: seq<byte>)
    requires Aligned(t) && t.count == 0 && half != []
    ensures var es := [Accept(7, false), Accept(8, false), Serve(1, Authorization, half),
                       Serve(0, Closing, []), Remove(0), Accept(9, false)];
            && PossibleRun(t, es) && OnlyEndedLeave(t, es) && EndsClean(es)
            && Run(t, es).clients[1] == Client(9, Authorization, half)
  {
    var es := [Accept(7, false), Accept(8, false), Serve(1, Authorization, half),
               Serve(0, Closing, []), Remove(0), Accept(9, false)];
    assert EndsClean(es);
    hide *;
    TwoCome(t, half);
    var t1 := Step(t, es[0]);
    var t2 := Step(t1, es[1]);
    var t3 := Step(t2, es[2]);
    OneQuits(t3, half);
    var t4 := Step(t3, es[3]);
    var t5 := Step(t4, es[4]);
    var last3 := [es[3]] + ([es[4]] + ([es[5]] + []));
    RunNone(Step(t5, es[5]));
    RunFirst(t5, es[5], []);
    RunFirst(t4, es[4], [es[5]] + []);
    RunFirst(t3, es[3], [es[4]] + ([es[5]] + []));
    RunFirst(t2, es[2], last3);
    RunFirst(t1, es[1], [es[2]] + last3);
    RunFirst(t, es[0], [es[1]] + ([es[2]] + last3));
    assert es == [es[0]] + ([es[1]] + ([es[2]] + last3));
  }
}
