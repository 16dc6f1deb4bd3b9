/**
 * One pass of main in src/server/main.c over the poll entries, as a function of the table, the
 * flags poll raised and what accept and handle_client answer.
 */
module PollTurns {
  import opened Bytes
  import opened Modes
  import opened Connections

  /**
   * What the PORT and IPV6 lines of one handle_client did: nothing, or they left the server socket
   * with another number or with the one it had, and the poll entry with it, or with -1 if the last
   * of them failed.
   */
  datatype Listener = Untouched | Updated(socket: Option<nat>, up: bool)

  /** What serving a client leaves: its mode and partial line, and the first listener. */
  datatype Served = Served(mode: Mode, leftover: seq<byte>, listener: Listener)

  function ServerSocket(l: Listener, server: int): int {
    if l.Updated? && l.socket.Some? then l.socket.value else server
  }

  function ListenerEntry(l: Listener, server: int): int
    requires l.Updated?
  {
    if l.up then ServerSocket(l, server) else -1
  }

  /**
   * The system during a pass. `accept` answers the n-th accept with a socket or a negative
   * number; `serve` is the n-th handle_client, for the client in the given state. Both know the
   * sockets in use.
   */
  datatype System = System(accept: (nat, set<int>) -> int, serve: (nat, Client, set<int>) -> Served)

  /**
   * Open sockets have different numbers. A server socket that is replaced twice in one call can come
   * back to the number it had.
   */
  ghost predicate GivesNewSockets(os: System) {
    && (forall n, used :: os.accept(n, used) >= 0 ==> os.accept(n, used) !in used)
    && (forall n, c, used :: GivesNewListener(os.serve(n, c, used).listener, used))
  }

  predicate GivesNewListener(l: Listener, used: set<int>) {
    l.Updated? && l.socket.Some? ==> l.socket.value !in used
  }

  function Used(clients: seq<Client>, serverSocket: int, managerSocket: int): set<int> {
    (set k | 0 <= k < |clients| :: clients[k].sock) + {serverSocket, managerSocket}
  }

  ghost predicate DistinctSockets(live: seq<Client>, serverSocket: int, managerSocket: int) {
    && serverSocket != managerSocket
    && (forall k :: 0 <= k < |live| ==> 0 <= live[k].sock && live[k].sock != serverSocket && live[k].sock != managerSocket)
    && (forall j, k :: 0 <= j < k < |live| ==> live[j].sock != live[k].sock)
  }

  // The pass

  /**
   * Where a pass stands: the table, the flags, the first listener, how many accepts and services
   * there were, the entry it looks at, and the table events so far. An overrun ends it.
   */
  datatype Place = Place(t: Table, ready: seq<bool>, server: int, accepts: nat, serves: nat,
                         i: nat, overrun: bool, es: seq<Event>)

  ghost predicate InRange(p: Place) {
    Aligned(p.t) && |p.ready| == MAX_EVENTS
  }

  function SocketsAt(manager: int, p: Place): set<int>
    requires InRange(p)
  {
    Used(Live(p.t), p.server, manager)
  }

  /** A flagged listener: the n-th accept brings a client, fails, or brings one client too many. */
  function ListenerTurn(os: System, manager: int, p: Place): (q: Place)
    requires InRange(p) && p.i < 2
    ensures InRange(q)
  {
    var sock := os.accept(p.accepts, SocketsAt(manager, p));
    var q := p.(ready := p.ready[p.i := false], accepts := p.accepts + 1, i := p.i + 1);
    if sock < 0 then q
    else if p.t.count == MAX_CLIENTS then q.(overrun := true)
    else
      var e := Accept(sock, p.t.fds[p.i] == manager);
      q.(t := Step(p.t, e), es := p.es + [e])
  }

  /** What the n-th handle_client makes of the client at this entry. */
  function ServedAt(os: System, manager: int, p: Place): Served
    requires InRange(p) && 2 <= p.i < p.t.count + 2
  {
    os.serve(p.serves, p.t.clients[p.i - 2], SocketsAt(manager, p))
  }

  /** The client was served; PORT and IPV6 may have replaced the first listener, or left none. */
  function AfterService(os: System, manager: int, p: Place): (q: Place)
    requires InRange(p) && 2 <= p.i < p.t.count + 2
    ensures InRange(q) && q.t.count == p.t.count && q.i == p.i
  {
    var r := ServedAt(os, manager, p);
    var e := Serve(p.i - 2, r.mode, r.leftover);
    var q := p.(t := Step(p.t, e), ready := p.ready[p.i := false], serves := p.serves + 1, es := p.es + [e]);
    if r.listener.Untouched? then q
    else
      var bind := Rebind(ListenerEntry(r.listener, p.server));
      q.(t := Step(q.t, bind), es := q.es + [bind], server := ServerSocket(r.listener, p.server))
  }

  /** What a service leaves of the first listener, by number and by poll entry. */
  lemma ListenerAfterService(os: System, manager: int, p: Place)
    requires InRange(p) && 2 <= p.i < p.t.count + 2
    ensures var q := AfterService(os, manager, p);
            match ServedAt(os, manager, p).listener
            case Untouched => q.server == p.server && q.t.fds[0] == p.t.fds[0]
            case Updated(None, up) => q.server == p.server && q.t.fds[0] == if up then p.server else -1
            case Updated(Some(socket), up) => q.server == socket && q.t.fds[0] == if up then socket else -1
  {
  }

  /** A client whose session ended is removed, and the entry is looked at again. */
  function ClientTurn(os: System, manager: int, p: Place): (q: Place)
    requires InRange(p) && 2 <= p.i < p.t.count + 2
    ensures InRange(q)
    ensures q.t.count + 2 - q.i < p.t.count + 2 - p.i && q.i >= 2 && q.overrun == p.overrun
  {
    var q := AfterService(os, manager, p);
    if Ended(q.t.clients[p.i - 2].mode) then q.(t := Step(q.t, Remove(p.i - 2)), es := q.es + [Remove(p.i - 2)])
    else q.(i := p.i + 1)
  }

  function Turn(os: System, manager: int, p: Place): (q: Place)
    requires InRange(p) && p.i < p.t.count + 2
    ensures InRange(q)
  {
    if !p.ready[p.i] then p.(i := p.i + 1)
    else if p.i < 2 then ListenerTurn(os, manager, p)
    else ClientTurn(os, manager, p)
  }

  predicate Over(p: Place) {
    p.overrun || p.i >= p.t.count + 2
  }

  /** The turns until all entries were looked at: the table may grow at entries 0 and 1 and shrink at the others. */
  function Pass(os: System, manager: int, p: Place): (q: Place)
    requires InRange(p)
    ensures InRange(q) && Over(q)
    decreases !p.overrun, if p.i < 2 then 2 - p.i else 0, if p.i < p.t.count + 2 then p.t.count + 2 - p.i else 0
  {
    if Over(p) then p else Pass(os, manager, Turn(os, manager, p))
  }

  function Start(t: Table, ready: seq<bool>, server: int): Place {
    Place(t, ready, server, 0, 0, 0, false, [])
  }

  lemma Concat(t: Table, a: seq<Event>, b: seq<Event>)
    requires Aligned(t) && PossibleRun(t, a) && PossibleRun(Run(t, a), b)
    ensures PossibleRun(t, a + b) && Run(t, a + b) == Run(Run(t, a), b)
    ensures ServedSockets(t, a + b) == ServedSockets(t, a) + ServedSockets(Run(t, a), b)
    ensures MovedSockets(t, a + b) == MovedSockets(t, a) + MovedSockets(Run(t, a), b)
    ensures OnlyEndedLeave(t, a + b) <==> OnlyEndedLeave(t, a) && OnlyEndedLeave(Run(t, a), b)
  {
    RunConcat(t, a, b);
    ServedConcat(t, a, b);
    MovedConcat(t, a, b);
    LeaveConcat(t, a, b);
  }

  lemma RunSnoc(t: Table, es: seq<Event>, e: Event)
    requires Aligned(t) && PossibleRun(t, es) && Possible(Run(t, es), e)
    ensures PossibleRun(t, es + [e]) && Run(t, es + [e]) == Step(Run(t, es), e)
    ensures ServedSockets(t, es + [e]) ==
            ServedSockets(t, es) + if e.Serve? then [Run(t, es).clients[e.k].sock] else []
    ensures MovedSockets(t, es + [e]) ==
            MovedSockets(t, es)
            + if e.Remove? && e.k != Run(t, es).count - 1 then {Run(t, es).clients[Run(t, es).count - 1].sock} else {}
    ensures OnlyEndedLeave(t, es + [e]) <==>
              OnlyEndedLeave(t, es) && (e.Remove? ==> Ended(Run(t, es).clients[e.k].mode))
  {
    hide OnlyEndedLeave;
    hide Step;
    hide Run;
    hide PossibleRun;
    hide ServedSockets;
    hide MovedSockets;
    hide Aligned;
    RunOne(Run(t, es), e);
    Concat(t, es, [e]);
  }

  lemma ServeKeepsSockets(live: seq<Client>, k: nat, c: Client, serverSocket: int, managerSocket: int)
    requires k < |live| && c.sock == live[k].sock
    ensures Used(live[k := c], serverSocket, managerSocket) == Used(live, serverSocket, managerSocket)
    ensures DistinctSockets(live, serverSocket, managerSocket)
            ==> DistinctSockets(live[k := c], serverSocket, managerSocket)
  {
    forall j | 0 <= j < |live|
      ensures live[k := c][j].sock == live[j].sock
    {
    }
    assert forall x :: x in Used(live, serverSocket, managerSocket) ==> x in Used(live[k := c], serverSocket, managerSocket);
  }

  // Where a pass stands. `cursor` is the client the pass looks at next, negative while it is at the listeners.

  /** Nobody from the cursor on was served yet, and who was moved is not served any more in this pass. */
  ghost predicate ServedOnce(live: seq<Client>, ready: seq<bool>, served: seq<int>, moved: set<int>, cursor: int)
    requires |live| + 2 <= |ready|
  {
    && (forall j, k :: 0 <= j < k < |served| ==> served[j] != served[k])
    && (forall k :: 0 <= k < |served| ==> served[k] !in moved)
    && (forall k :: 0 <= k < |live| && cursor <= k ==> live[k].sock !in served)
    && (forall k :: 0 <= k < |live| && cursor <= k && live[k].sock in moved ==> k == cursor && !ready[k + 2])
  }

  /** Whoever was lined up for a flagged slot was served or moved, or still waits there, flag up. */
  ghost predicate Accounted(lineup: seq<int>, ready0: seq<bool>, live: seq<Client>, ready: seq<bool>,
                            served: seq<int>, moved: set<int>, cursor: int)
    requires |ready0| == |ready| == MAX_EVENTS && |lineup| <= MAX_CLIENTS
    requires |live| <= MAX_CLIENTS
  {
    forall k :: 0 <= k < |lineup| && ready0[k + 2] ==>
      || lineup[k] in served
      || lineup[k] in moved
      || (cursor <= k < |live| && live[k].sock == lineup[k] && ready[k + 2])
  }

  ghost predicate Progress(lineup: seq<int>, ready0: seq<bool>, live: seq<Client>, ready: seq<bool>,
                           served: seq<int>, moved: set<int>, cursor: int)
    requires |ready0| == |ready| == MAX_EVENTS && |lineup| <= MAX_CLIENTS
    requires |live| <= MAX_CLIENTS
  {
    && ServedOnce(live, ready, served, moved, cursor)
    && Accounted(lineup, ready0, live, ready, served, moved, cursor)
  }

  lemma ProgressPastListener(lineup: seq<int>, ready0: seq<bool>, live: seq<Client>, ready: seq<bool>,
                             ready': seq<bool>, cursor: int)
    requires |ready0| == |ready| == |ready'| == MAX_EVENTS && |lineup| <= MAX_CLIENTS
    requires |live| <= MAX_CLIENTS && -2 <= cursor < 0
    requires Progress(lineup, ready0, live, ready, [], {}, cursor)
    requires ready' == ready || ready' == ready[cursor + 2 := false]
    ensures Progress(lineup, ready0, live, ready', [], {}, cursor + 1)
  {
  }

  lemma ProgressAfterAccept(lineup: seq<int>, ready0: seq<bool>, live: seq<Client>, ready: seq<bool>, c: Client, cursor: int)
    requires |ready0| == |ready| == MAX_EVENTS && |lineup| == |live| < MAX_CLIENTS
    requires ready0[|live| + 2] ==> ready[|live| + 2]
    requires cursor < 0 && Progress(lineup, ready0, live, ready, [], {}, cursor)
    ensures Progress(lineup + [c.sock], ready0, live + [c], ready, [], {}, cursor)
  {
  }

  lemma ProgressPastIdle(lineup: seq<int>, ready0: seq<bool>, live: seq<Client>, ready: seq<bool>,
                         served: seq<int>, moved: set<int>, cursor: nat)
    requires |ready0| == |ready| == MAX_EVENTS && |lineup| <= MAX_CLIENTS
    requires cursor < |live| <= MAX_CLIENTS && !ready[cursor + 2]
    requires Progress(lineup, ready0, live, ready, served, moved, cursor)
    ensures Progress(lineup, ready0, live, ready, served, moved, cursor + 1)
  {
  }

  /** The cursor's client was served: same socket, other clients untouched. */
  lemma ProgressAfterServe(lineup: seq<int>, ready0: seq<bool>, live: seq<Client>, live': seq<Client>, ready: seq<bool>,
                           served: seq<int>, moved: set<int>, cursor: nat)
    requires |ready0| == |ready| == MAX_EVENTS && |lineup| <= MAX_CLIENTS
    requires cursor < |live| == |live'| <= MAX_CLIENTS && ready[cursor + 2]
    requires forall k :: 0 <= k < |live| ==> live'[k].sock == live[k].sock
    requires forall j, k :: 0 <= j < k < |live| ==> live[j].sock != live[k].sock
    requires Progress(lineup, ready0, live, ready, served, moved, cursor)
    ensures Progress(lineup, ready0, live', ready[cursor + 2 := false], served + [live[cursor].sock], moved, cursor + 1)
    ensures forall k :: cursor <= k < |live| ==> live'[k].sock !in moved
  {
    assert live[cursor].sock !in moved;
    var served' := served + [live[cursor].sock];
    forall k | 0 <= k < |live'| && cursor + 1 <= k
      ensures live'[k].sock !in served'
    {
      assert live[k].sock !in served && live[cursor].sock != live[k].sock;
    }
    forall k | 0 <= k < |lineup| && ready0[k + 2]
      ensures lineup[k] in served' || lineup[k] in moved
              || (cursor + 1 <= k < |live'| && live'[k].sock == lineup[k] && ready[cursor + 2 := false][k + 2])
    {
      if lineup[k] in served {
        assert lineup[k] in served';
      }
    }
  }

  /** The served client left and the last one took its place; the cursor looks at that place again. */
  lemma ProgressAfterRemove(lineup: seq<int>, ready0: seq<bool>, live: seq<Client>, ready: seq<bool>,
                            served: seq<int>, moved: set<int>, at: nat)
    requires |ready0| == |ready| == MAX_EVENTS && |lineup| <= MAX_CLIENTS
    requires at < |live| <= MAX_CLIENTS && !ready[at + 2]
    requires forall j, k :: 0 <= j < k < |live| ==> live[j].sock != live[k].sock
    requires forall k :: at <= k < |live| ==> live[k].sock !in moved
    requires live[at].sock in served
    requires Progress(lineup, ready0, live, ready, served, moved, at + 1)
    ensures Progress(lineup, ready0, SwapRemoved(live, at), ready, served,
                     if at == |live| - 1 then moved else moved + {live[|live| - 1].sock}, at)
  {
    var n := |live| - 1;
    var live' := SwapRemoved(live, at);
    assert forall k :: 0 <= k < n && k != at ==> live'[k] == live[k];
    if at < n {
      assert live'[at] == live[n];
      assert live[n].sock !in served;
    }
  }

  lemma RemoveKeepsDistinct(live: seq<Client>, k: nat, serverSocket: int, managerSocket: int)
    requires k < |live| && DistinctSockets(live, serverSocket, managerSocket)
    ensures DistinctSockets(SwapRemoved(live, k), serverSocket, managerSocket)
  {
  }

  /** Serving one client and removing it if it ended leaves only clients that have not. */
  lemma StillNobodyEnded(live: seq<Client>, after: seq<Client>, k: nat)
    requires k < |live| == |after|
    requires forall j :: 0 <= j < |live| && j != k ==> after[j] == live[j]
    ensures NobodyEnded(live) ==> NobodyEnded(if Ended(after[k].mode) then SwapRemoved(after, k) else after)
  {
  }

  // Who is in line

  function SocketsOf(live: seq<Client>): (r: seq<int>)
    ensures |r| == |live| && forall k :: 0 <= k < |r| ==> r[k] == live[k].sock
  {
    seq(|live|, k requires 0 <= k < |live| => live[k].sock)
  }

  /** The sockets a pass accepted. */
  function Newcomers(es: seq<Event>): seq<int> {
    if es == [] then []
    else Newcomers(es[..|es| - 1]) + if es[|es| - 1].Accept? then [es[|es| - 1].sock] else []
  }

  lemma NewcomersSnoc(es: seq<Event>, e: Event)
    ensures Newcomers(es + [e]) == Newcomers(es) + if e.Accept? then [e.sock] else []
  {
    assert (es + [e])[..|es|] == es;
  }

  /** The sockets of the clients at the start of the pass and of those it accepted, by slot. */
  function Lineup(t0: Table, es: seq<Event>): seq<int>
    requires t0.count <= |t0.clients|
  {
    SocketsOf(Live(t0)) + Newcomers(es)
  }

  /** The flag of this slot was up when the pass began, and this socket was lined up for the slot. */
  predicate WasFlagged(lineup: seq<int>, ready0: seq<bool>, sock: int, k: int) {
    0 <= k < |lineup| && k + 2 < |ready0| && lineup[k] == sock && ready0[k + 2]
  }

  ghost predicate HadFlag(lineup: seq<int>, ready0: seq<bool>, sock: int) {
    exists k :: WasFlagged(lineup, ready0, sock, k)
  }

  ghost predicate AllFlagged(lineup: seq<int>, ready0: seq<bool>, served: seq<int>) {
    forall j :: 0 <= j < |served| ==> HadFlag(lineup, ready0, served[j])
  }

  /** Flags only ever go down; whoever still has one is in its place. */
  ghost predicate InLine(lineup: seq<int>, ready0: seq<bool>, live: seq<Client>, ready: seq<bool>, cursor: int)
    requires |ready0| == |ready| == MAX_EVENTS && |live| <= MAX_CLIENTS
  {
    && |live| <= |lineup|
    && (cursor < 0 ==> SocketsOf(live) == lineup && forall k :: 2 <= k < MAX_EVENTS ==> ready[k] == ready0[k])
    && (forall k :: 0 <= k < MAX_EVENTS && ready[k] ==> ready0[k])
    && (forall k :: 0 <= k < |live| && cursor <= k && ready[k + 2] ==> live[k].sock == lineup[k])
  }

  lemma InLineAfterAccept(lineup: seq<int>, ready0: seq<bool>, live: seq<Client>, ready: seq<bool>, c: Client, cursor: int)
    requires |ready0| == |ready| == MAX_EVENTS && |live| < MAX_CLIENTS && cursor < 0
    requires InLine(lineup, ready0, live, ready, cursor)
    ensures InLine(lineup + [c.sock], ready0, live + [c], ready, cursor)
  {
    assert SocketsOf(live + [c]) == SocketsOf(live) + [c.sock];
  }

  lemma InLineAfterServe(lineup: seq<int>, ready0: seq<bool>, live: seq<Client>, live': seq<Client>, ready: seq<bool>,
                         cursor: nat)
    requires |ready0| == |ready| == MAX_EVENTS && cursor < |live| == |live'| <= MAX_CLIENTS && ready[cursor + 2]
    requires forall k :: 0 <= k < |live| ==> live'[k].sock == live[k].sock
    requires InLine(lineup, ready0, live, ready, cursor)
    ensures InLine(lineup, ready0, live', ready[cursor + 2 := false], cursor)
    ensures WasFlagged(lineup, ready0, live[cursor].sock, cursor)
  {
  }

  lemma InLineAfterRemove(lineup: seq<int>, ready0: seq<bool>, live: seq<Client>, ready: seq<bool>, at: nat)
    requires |ready0| == |ready| == MAX_EVENTS && at < |live| <= MAX_CLIENTS && !ready[at + 2]
    requires InLine(lineup, ready0, live, ready, at)
    ensures InLine(lineup, ready0, SwapRemoved(live, at), ready, at)
  {
  }

  // What a pass keeps

  /** Sockets are told apart, and the first two entries are the listeners. */
  ghost predicate Healthy(manager: int, p: Place) {
    && InRange(p) && DistinctSockets(Live(p.t), p.server, manager)
    && 0 <= p.server && 0 <= manager
    && p.t.fds[1] == manager && (p.t.fds[0] == p.server || p.t.fds[0] == -1)
    && (p.i == 0 && p.ready[0] ==> p.t.fds[0] != -1)
  }

  /** A pass from t0 and ready0 can have come to this table and these flags, entry and events. */
  ghost predicate CameTo(t0: Table, ready0: seq<bool>, t: Table, ready: seq<bool>, i: nat, es: seq<Event>) {
    && Aligned(t0) && |ready0| == MAX_EVENTS && Aligned(t) && |ready| == MAX_EVENTS
    && PossibleRun(t0, es) && t == Run(t0, es) && OnlyEndedLeave(t0, es)
    && (i < 2 ==> ServedSockets(t0, es) == [] && MovedSockets(t0, es) == {})
    && |Lineup(t0, es)| <= MAX_CLIENTS
    && Progress(Lineup(t0, es), ready0, Live(t), ready, ServedSockets(t0, es), MovedSockets(t0, es), i - 2)
    && InLine(Lineup(t0, es), ready0, Live(t), ready, i - 2)
    && AllFlagged(Lineup(t0, es), ready0, ServedSockets(t0, es))
  }

  ghost predicate Reached(t0: Table, ready0: seq<bool>, p: Place) {
    CameTo(t0, ready0, p.t, p.ready, p.i, p.es)
  }

  lemma PassBegins(t: Table, ready: seq<bool>, server: int)
    requires Aligned(t) && |ready| == MAX_EVENTS
    ensures Reached(t, ready, Start(t, ready, server))
  {
    assert Lineup(t, []) == SocketsOf(Live(t));
  }

  lemma LiveAfter(t: Table, e: Event)
    requires Aligned(t) && Possible(t, e)
    ensures e.Accept? ==> Live(Step(t, e)) == Live(t) + [Step(t, e).clients[t.count]]
                          && Step(t, e).clients[t.count].sock == e.sock && !Ended(Step(t, e).clients[t.count].mode)
    ensures e.Serve? ==> Live(Step(t, e)) == Live(t)[e.k := Client(t.clients[e.k].sock, e.mode, e.leftover)]
    ensures e.Rebind? ==> Live(Step(t, e)) == Live(t)
    ensures e.Serve? || e.Rebind? ==> Step(t, e).count == t.count
    ensures e.Remove? ==> Live(Step(t, e)) == SwapRemoved(Live(t), e.k)
  {
  }

  /** One more table event: what it adds to the services, the moves and the line-up. */
  lemma EventReached(t0: Table, es: seq<Event>, t: Table, e: Event)
    requires Aligned(t0) && PossibleRun(t0, es) && t == Run(t0, es) && Possible(t, e)
    requires OnlyEndedLeave(t0, es) && (e.Remove? ==> Ended(t.clients[e.k].mode))
    ensures PossibleRun(t0, es + [e]) && Run(t0, es + [e]) == Step(t, e) && OnlyEndedLeave(t0, es + [e])
    ensures ServedSockets(t0, es + [e]) == ServedSockets(t0, es) + if e.Serve? then [t.clients[e.k].sock] else []
    ensures MovedSockets(t0, es + [e])
            == MovedSockets(t0, es) + if e.Remove? && e.k != t.count - 1 then {t.clients[t.count - 1].sock} else {}
    ensures Lineup(t0, es + [e]) == Lineup(t0, es) + if e.Accept? then [e.sock] else []
  {
    hide Step;
    hide Run;
    hide PossibleRun;
    hide ServedSockets;
    hide MovedSockets;
    hide OnlyEndedLeave;
    hide Newcomers;
    hide Possible;
    RunSnoc(t0, es, e);
    NewcomersSnoc(es, e);
  }

  lemma IdleReaches(t0: Table, ready0: seq<bool>, p: Place)
    requires Reached(t0, ready0, p) && p.i < p.t.count + 2 && !p.ready[p.i]
    ensures Reached(t0, ready0, p.(i := p.i + 1))
  {
    hide PossibleRun;
    hide Run;
    hide OnlyEndedLeave;
    hide ServedSockets;
    hide MovedSockets;
    hide Lineup;
    hide AllFlagged;
    hide Accounted;
    hide ServedOnce;
    if p.i < 2 {
      ProgressPastListener(Lineup(t0, p.es), ready0, Live(p.t), p.ready, p.ready, p.i - 2);
    } else {
      ProgressPastIdle(Lineup(t0, p.es), ready0, Live(p.t), p.ready, ServedSockets(t0, p.es), MovedSockets(t0, p.es), p.i - 2);
    }
  }

  /** A listener's flag goes down. */
  lemma FlagLowered(t0: Table, ready0: seq<bool>, p: Place)
    requires Reached(t0, ready0, p) && p.i < 2
    ensures Reached(t0, ready0, p.(ready := p.ready[p.i := false], i := p.i + 1))
  {
    hide PossibleRun;
    hide Run;
    hide OnlyEndedLeave;
    hide ServedSockets;
    hide MovedSockets;
    hide Lineup;
    hide AllFlagged;
    hide Accounted;
    hide ServedOnce;
    ProgressPastListener(Lineup(t0, p.es), ready0, Live(p.t), p.ready, p.ready[p.i := false], p.i - 2);
  }

  lemma AcceptReaches(t0: Table, ready0: seq<bool>, p: Place, e: Event)
    requires Reached(t0, ready0, p) && p.i < 2 && e.Accept? && p.t.count < MAX_CLIENTS
    ensures Reached(t0, ready0, p.(t := Step(p.t, e), es := p.es + [e]))
  {
    hide PossibleRun;
    hide Run;
    hide OnlyEndedLeave;
    hide ServedSockets;
    hide MovedSockets;
    hide Lineup;
    hide Accounted;
    hide ServedOnce;
    hide Step;
    LiveAfter(p.t, e);
    EventReached(t0, p.es, p.t, e);
    var c := Step(p.t, e).clients[p.t.count];
    assert ServedSockets(t0, p.es + [e]) == [] && MovedSockets(t0, p.es + [e]) == {};
    ProgressAfterAccept(Lineup(t0, p.es), ready0, Live(p.t), p.ready, c, p.i - 2);
    InLineAfterAccept(Lineup(t0, p.es), ready0, Live(p.t), p.ready, c, p.i - 2);
  }

  /** One more service: it was flagged. */
  lemma OneMoreFlagged(lineup: seq<int>, ready0: seq<bool>, served: seq<int>, sock: int, k: int)
    requires AllFlagged(lineup, ready0, served) && WasFlagged(lineup, ready0, sock, k)
    ensures AllFlagged(lineup, ready0, served + [sock])
  {
    assert HadFlag(lineup, ready0, sock);
    hide HadFlag;
  }

  ghost predicate Distinct(live: seq<Client>) {
    forall j, k :: 0 <= j < k < |live| ==> live[j].sock != live[k].sock
  }

  ghost predicate NoneMoved(live: seq<Client>, moved: set<int>, from: int) {
    forall k :: 0 <= k < |live| && from <= k ==> live[k].sock !in moved
  }

  /** The flagged client at the cursor is served. */
  lemma ServeReaches(t0: Table, ready0: seq<bool>, p: Place, e: Event)
    requires Reached(t0, ready0, p) && 2 <= p.i < p.t.count + 2 && p.ready[p.i] && e.Serve? && e.k == p.i - 2
    requires Distinct(Live(p.t))
    ensures var q := p.(t := Step(p.t, e), ready := p.ready[p.i := false], es := p.es + [e], i := p.i + 1);
            && Reached(t0, ready0, q)
            && ServedSockets(t0, q.es) == ServedSockets(t0, p.es) + [p.t.clients[p.i - 2].sock]
            && NoneMoved(Live(q.t), MovedSockets(t0, q.es), p.i - 2)
  {
    hide PossibleRun;
    hide Run;
    hide OnlyEndedLeave;
    hide ServedSockets;
    hide MovedSockets;
    hide Lineup;
    hide Accounted;
    hide ServedOnce;
    hide Step;
    hide AllFlagged;
    var cursor, live, sock := p.i - 2, Live(p.t), p.t.clients[p.i - 2].sock;
    LiveAfter(p.t, e);
    EventReached(t0, p.es, p.t, e);
    var live' := Live(Step(p.t, e));
    assert MovedSockets(t0, p.es) + {} == MovedSockets(t0, p.es) && Lineup(t0, p.es) + [] == Lineup(t0, p.es);
    ProgressAfterServe(Lineup(t0, p.es), ready0, live, live', p.ready, ServedSockets(t0, p.es), MovedSockets(t0, p.es), cursor);
    InLineAfterServe(Lineup(t0, p.es), ready0, live, live', p.ready, cursor);
    OneMoreFlagged(Lineup(t0, p.es), ready0, ServedSockets(t0, p.es), sock, cursor);
  }

  lemma RebindReaches(t0: Table, ready0: seq<bool>, p: Place, e: Event)
    requires Reached(t0, ready0, p) && e.Rebind?
    ensures Reached(t0, ready0, p.(t := Step(p.t, e), es := p.es + [e]))
    ensures ServedSockets(t0, p.es + [e]) == ServedSockets(t0, p.es) && MovedSockets(t0, p.es + [e]) == MovedSockets(t0, p.es)
  {
    hide PossibleRun;
    hide Run;
    hide OnlyEndedLeave;
    hide ServedSockets;
    hide MovedSockets;
    hide Lineup;
    hide Accounted;
    hide ServedOnce;
    hide Step;
    hide AllFlagged;
    LiveAfter(p.t, e);
    EventReached(t0, p.es, p.t, e);
    assert MovedSockets(t0, p.es) + {} == MovedSockets(t0, p.es) && Lineup(t0, p.es) + [] == Lineup(t0, p.es);
    assert ServedSockets(t0, p.es) + [] == ServedSockets(t0, p.es);
  }

  /** The client before the cursor, just served, is removed; the cursor goes back to its slot. */
  lemma RemoveReaches(t0: Table, ready0: seq<bool>, p: Place, at: nat)
    requires at < p.t.count && p.i == at + 3 && Reached(t0, ready0, p) && !p.ready[at + 2]
    requires Ended(p.t.clients[at].mode) && p.t.clients[at].sock in ServedSockets(t0, p.es)
    requires Distinct(Live(p.t))
    requires NoneMoved(Live(p.t), MovedSockets(t0, p.es), at)
    ensures Reached(t0, ready0, p.(t := Step(p.t, Remove(at)), es := p.es + [Remove(at)], i := at + 2))
  {
    hide PossibleRun;
    hide Run;
    hide OnlyEndedLeave;
    hide ServedSockets;
    hide MovedSockets;
    hide Lineup;
    hide Accounted;
    hide ServedOnce;
    hide Step;
    hide AllFlagged;
    var e, live := Remove(at), Live(p.t);
    LiveAfter(p.t, e);
    EventReached(t0, p.es, p.t, e);
    assert MovedSockets(t0, p.es) + {} == MovedSockets(t0, p.es) && Lineup(t0, p.es) + [] == Lineup(t0, p.es);
    assert ServedSockets(t0, p.es) + [] == ServedSockets(t0, p.es);
    ProgressAfterRemove(Lineup(t0, p.es), ready0, live, p.ready, ServedSockets(t0, p.es), MovedSockets(t0, p.es), at);
    InLineAfterRemove(Lineup(t0, p.es), ready0, live, p.ready, at);
  }

  lemma ListenerReaches(os: System, manager: int, t0: Table, ready0: seq<bool>, p: Place)
    requires InRange(p) && Reached(t0, ready0, p) && p.i < 2
    ensures Reached(t0, ready0, ListenerTurn(os, manager, p))
  {
    hide CameTo;
    hide Step;
    hide Aligned;
    var sock := os.accept(p.accepts, SocketsAt(manager, p));
    FlagLowered(t0, ready0, p);
    if sock >= 0 && p.t.count != MAX_CLIENTS {
      ThereIsRoom(p);
      var e := Accept(sock, p.t.fds[p.i] == manager);
      AcceptReaches(t0, ready0, p, e);
      FlagLowered(t0, ready0, p.(t := Step(p.t, e), es := p.es + [e]));
    }
  }

  lemma ThereIsRoom(p: Place)
    requires InRange(p)
    ensures p.t.count <= MAX_CLIENTS == |p.t.clients| && |p.t.fds| == MAX_EVENTS
  {
  }

  /** Where a removal of the client just served can take place. */
  ghost predicate JustServed(t0: Table, ready0: seq<bool>, t: Table, ready: seq<bool>, i: nat, es: seq<Event>) {
    && CameTo(t0, ready0, t, ready, i + 1, es) && 2 <= i < t.count + 2 && Aligned(t) && |ready| == MAX_EVENTS
    && Distinct(Live(t)) && !ready[i]
    && Live(t)[i - 2].sock in ServedSockets(t0, es)
    && NoneMoved(Live(t), MovedSockets(t0, es), i - 2)
  }

  lemma CameByEvents(t0: Table, ready0: seq<bool>, t: Table, ready: seq<bool>, i: nat, es: seq<Event>)
    requires CameTo(t0, ready0, t, ready, i, es)
    ensures Aligned(t0) && PossibleRun(t0, es)
  {
  }

  lemma ServeLeads(t0: Table, ready0: seq<bool>, p: Place, e: Event)
    requires InRange(p) && Reached(t0, ready0, p) && 2 <= p.i < p.t.count + 2 && p.ready[p.i] && Distinct(Live(p.t))
    requires e.Serve? && e.k == p.i - 2
    ensures JustServed(t0, ready0, Step(p.t, e), p.ready[p.i := false], p.i, p.es + [e])
  {
    hide Step;
    hide CameTo;
    hide Distinct;
    hide NoneMoved;
    hide ServedSockets;
    hide MovedSockets;
    hide Aligned;
    ThereIsRoom(p);
    CameByEvents(t0, ready0, p.t, p.ready, p.i, p.es);
    var sock, served := p.t.clients[p.i - 2].sock, ServedSockets(t0, p.es);
    var c := Client(sock, e.mode, e.leftover);
    LiveAfter(p.t, e);
    ServeReaches(t0, ready0, p, e);
    SameSockets(Live(p.t), c, p.i - 2);
    LastIsIn(served, sock);
  }

  lemma LastIsIn(served: seq<int>, sock: int)
    ensures sock in served + [sock]
  {
    assert (served + [sock])[|served|] == sock;
  }

  lemma RebindLeads(t0: Table, ready0: seq<bool>, p: Place, e: Event)
    requires JustServed(t0, ready0, p.t, p.ready, p.i, p.es) && e.Rebind?
    ensures JustServed(t0, ready0, Step(p.t, e), p.ready, p.i, p.es + [e])
  {
    hide Step;
    hide CameTo;
    hide Distinct;
    hide NoneMoved;
    hide ServedSockets;
    hide MovedSockets;
    hide Aligned;
    LiveAfter(p.t, e);
    RebindReaches(t0, ready0, p.(i := p.i + 1), e);
  }

  /** The service of the flagged client at entry i, seen from the entry behind it. */
  lemma ServiceReaches(os: System, manager: int, t0: Table, ready0: seq<bool>, p: Place)
    requires InRange(p) && Reached(t0, ready0, p) && 2 <= p.i < p.t.count + 2 && p.ready[p.i] && Distinct(Live(p.t))
    ensures var q := AfterService(os, manager, p); JustServed(t0, ready0, q.t, q.ready, p.i, q.es)
  {
    hide JustServed;
    hide Step;
    hide Reached;
    var r := ServedAt(os, manager, p);
    var e := Serve(p.i - 2, r.mode, r.leftover);
    ServeLeads(t0, ready0, p, e);
    if r.listener.Updated? {
      var q := p.(t := Step(p.t, e), ready := p.ready[p.i := false], es := p.es + [e]);
      RebindLeads(t0, ready0, q, Rebind(ListenerEntry(r.listener, p.server)));
    }
  }

  lemma SameSockets(live: seq<Client>, c: Client, at: nat)
    requires at < |live| && Distinct(live) && c.sock == live[at].sock
    ensures Distinct(live[at := c])
  {
  }

  lemma ClientReaches(os: System, manager: int, t0: Table, ready0: seq<bool>, p: Place)
    requires InRange(p) && Reached(t0, ready0, p) && 2 <= p.i < p.t.count + 2 && p.ready[p.i] && Distinct(Live(p.t))
    ensures Reached(t0, ready0, ClientTurn(os, manager, p))
  {
    ServiceReaches(os, manager, t0, ready0, p);
    var q, at := AfterService(os, manager, p), p.i - 2;
    hide AfterService;
    hide Step;
    hide CameTo;
    hide Distinct;
    hide NoneMoved;
    hide ServedSockets;
    hide MovedSockets;
    if Ended(q.t.clients[at].mode) {
      RemoveReaches(t0, ready0, q.(i := p.i + 1), at);
    }
  }

  lemma TurnReaches(os: System, manager: int, t0: Table, ready0: seq<bool>, p: Place)
    requires InRange(p) && Reached(t0, ready0, p) && p.i < p.t.count + 2 && Distinct(Live(p.t))
    ensures Reached(t0, ready0, Turn(os, manager, p))
  {
    hide ListenerTurn;
    hide ClientTurn;
    hide CameTo;
    hide Distinct;
    if !p.ready[p.i] {
      IdleReaches(t0, ready0, p);
    } else if p.i < 2 {
      ListenerReaches(os, manager, t0, ready0, p);
    } else {
      ClientReaches(os, manager, t0, ready0, p);
    }
  }

  // Sockets stay apart

  lemma NewSocketIsNew(live: seq<Client>, server: int, manager: int, c: Client)
    requires DistinctSockets(live, server, manager) && c.sock >= 0 && c.sock !in Used(live, server, manager)
    ensures DistinctSockets(live + [c], server, manager)
  {
    forall k | 0 <= k < |live|
      ensures live[k].sock in Used(live, server, manager)
    {
    }
  }

  lemma NewListenerIsNew(live: seq<Client>, server: int, manager: int, fd: int)
    requires DistinctSockets(live, server, manager) && fd >= 0 && fd !in Used(live, server, manager)
    ensures DistinctSockets(live, fd, manager)
  {
    forall k | 0 <= k < |live|
      ensures live[k].sock in Used(live, server, manager)
    {
    }
  }

  lemma ListenerKeepsHealthy(os: System, manager: int, p: Place)
    requires Healthy(manager, p) && GivesNewSockets(os) && p.i < 2
    ensures Healthy(manager, ListenerTurn(os, manager, p))
  {
    var sock := os.accept(p.accepts, SocketsAt(manager, p));
    hide DistinctSockets;
    hide Used;
    if sock >= 0 && p.t.count < MAX_CLIENTS {
      var e := Accept(sock, p.t.fds[p.i] == manager);
      LiveAfter(p.t, e);
      NewSocketIsNew(Live(p.t), p.server, manager, Step(p.t, e).clients[p.t.count]);
    }
  }

  lemma ServiceKeepsHealthy(os: System, manager: int, p: Place)
    requires Healthy(manager, p) && GivesNewSockets(os) && 2 <= p.i < p.t.count + 2
    ensures Healthy(manager, AfterService(os, manager, p))
  {
    var r, at := ServedAt(os, manager, p), p.i - 2;
    var e := Serve(at, r.mode, r.leftover);
    var t := Step(p.t, e);
    LiveAfter(p.t, e);
    ServeKeepsSockets(Live(p.t), at, Client(p.t.clients[at].sock, r.mode, r.leftover), p.server, manager);
    hide DistinctSockets;
    hide Used;
    if r.listener.Updated? {
      LiveAfter(t, Rebind(ListenerEntry(r.listener, p.server)));
      assert GivesNewListener(r.listener, SocketsAt(manager, p));
      if r.listener.socket.Some? {
        NewListenerIsNew(Live(t), p.server, manager, r.listener.socket.value);
      }
    }
  }

  lemma RemovalKeepsHealthy(manager: int, q: Place, at: nat)
    requires Healthy(manager, q) && at < q.t.count && q.i >= 2
    ensures Healthy(manager, q.(t := Step(q.t, Remove(at)), es := q.es + [Remove(at)]))
  {
    LiveAfter(q.t, Remove(at));
    RemoveKeepsDistinct(Live(q.t), at, q.server, manager);
    hide DistinctSockets;
    hide SwapRemoved;
  }

  lemma TurnKeepsHealthy(os: System, manager: int, p: Place)
    requires Healthy(manager, p) && GivesNewSockets(os) && p.i < p.t.count + 2
    ensures Healthy(manager, Turn(os, manager, p))
  {
    if p.ready[p.i] {
      if p.i < 2 {
        ListenerKeepsHealthy(os, manager, p);
        hide *;
      } else {
        ServiceKeepsHealthy(os, manager, p);
        var q := AfterService(os, manager, p);
        if Ended(q.t.clients[p.i - 2].mode) {
          RemovalKeepsHealthy(manager, q, p.i - 2);
        }
        hide AfterService;
        hide DistinctSockets;
        hide Step;
        hide GivesNewSockets;
      }
    }
  }

  // What a whole pass guarantees

  lemma {:induction false} PassReaches(os: System, manager: int, t0: Table, ready0: seq<bool>, p: Place)
    requires Healthy(manager, p) && GivesNewSockets(os) && Reached(t0, ready0, p)
    ensures var q := Pass(os, manager, p); Healthy(manager, q) && Reached(t0, ready0, q)
    decreases !p.overrun, if p.i < 2 then 2 - p.i else 0, if p.i < p.t.count + 2 then p.t.count + 2 - p.i else 0
  {
    if !Over(p) {
      HealthyIsDistinct(manager, p);
      hide Healthy;
      hide CameTo;
      hide Turn;
      hide GivesNewSockets;
      TurnKeepsHealthy(os, manager, p);
      TurnReaches(os, manager, t0, ready0, p);
      TurnIsLess(os, manager, p);
      PassReaches(os, manager, t0, ready0, Turn(os, manager, p));
    }
  }

  /** The measure of a pass: listener entries left, then entries left. */
  lemma TurnIsLess(os: System, manager: int, p: Place)
    requires InRange(p) && !Over(p)
    ensures var q := Turn(os, manager, p);
            || (q.overrun && !p.overrun)
            || (q.overrun == p.overrun && p.i < 2 && (q.i == p.i + 1))
            || (q.overrun == p.overrun && p.i >= 2 && q.i >= 2 && q.t.count + 2 - q.i < p.t.count + 2 - p.i)
  {
    hide ClientTurn;
  }

  lemma HealthyIsDistinct(manager: int, p: Place)
    requires Healthy(manager, p)
    ensures InRange(p) && Distinct(Live(p.t))
  {
  }

  lemma ListenerLeavesNobodyEnded(os: System, manager: int, p: Place)
    requires InRange(p) && p.i < 2 && NobodyEnded(Live(p.t))
    ensures NobodyEnded(Live(ListenerTurn(os, manager, p).t))
  {
    var sock := os.accept(p.accepts, SocketsAt(manager, p));
    if sock >= 0 && p.t.count != MAX_CLIENTS {
      LiveAfter(p.t, Accept(sock, p.t.fds[p.i] == manager));
    }
    hide Step;
  }

  lemma ClientLeavesNobodyEnded(os: System, manager: int, p: Place)
    requires InRange(p) && 2 <= p.i < p.t.count + 2 && NobodyEnded(Live(p.t))
    ensures NobodyEnded(Live(ClientTurn(os, manager, p).t))
  {
    ServiceOnlyChangesOne(os, manager, p);
    var q, at := AfterService(os, manager, p), p.i - 2;
    hide AfterService;
    hide Step;
    StillNobodyEnded(Live(p.t), Live(q.t), at);
    LiveAfter(q.t, Remove(at));
    hide NobodyEnded;
    hide Aligned;
  }

  /** A turn leaves nobody behind whose session ended. */
  lemma TurnLeavesNobodyEnded(os: System, manager: int, p: Place)
    requires InRange(p) && p.i < p.t.count + 2 && NobodyEnded(Live(p.t))
    ensures NobodyEnded(Live(Turn(os, manager, p).t))
  {
    hide ListenerTurn;
    hide ClientTurn;
    hide NobodyEnded;
    if p.ready[p.i] {
      if p.i < 2 {
        ListenerLeavesNobodyEnded(os, manager, p);
      } else {
        ClientLeavesNobodyEnded(os, manager, p);
      }
    }
  }

  lemma ServiceOnlyChangesOne(os: System, manager: int, p: Place)
    requires InRange(p) && 2 <= p.i < p.t.count + 2
    ensures var r := ServedAt(os, manager, p);
            Live(AfterService(os, manager, p).t)
            == Live(p.t)[p.i - 2 := Client(p.t.clients[p.i - 2].sock, r.mode, r.leftover)]
  {
    var r := ServedAt(os, manager, p);
    var e := Serve(p.i - 2, r.mode, r.leftover);
    LiveAfter(p.t, e);
    if r.listener.Updated? {
      LiveAfter(Step(p.t, e), Rebind(ListenerEntry(r.listener, p.server)));
    }
  }

  lemma {:induction false} PassLeavesNobodyEnded(os: System, manager: int, p: Place)
    requires InRange(p) && NobodyEnded(Live(p.t))
    ensures NobodyEnded(Live(Pass(os, manager, p).t))
    decreases !p.overrun, if p.i < 2 then 2 - p.i else 0, if p.i < p.t.count + 2 then p.t.count + 2 - p.i else 0
  {
    if !Over(p) {
      TurnLeavesNobodyEnded(os, manager, p);
      hide NobodyEnded;
      PassLeavesNobodyEnded(os, manager, Turn(os, manager, p));
    }
  }

  lemma {:induction false} OverrunIsFull(os: System, manager: int, p: Place)
    requires InRange(p) && (p.overrun ==> p.t.count == MAX_CLIENTS)
    ensures var q := Pass(os, manager, p); q.overrun ==> q.t.count == MAX_CLIENTS
    decreases !p.overrun, if p.i < 2 then 2 - p.i else 0, if p.i < p.t.count + 2 then p.t.count + 2 - p.i else 0
  {
    if !Over(p) {
      OverrunIsFull(os, manager, Turn(os, manager, p));
    }
  }

  /** Of those no removal moved, exactly the ones lined up for a flagged slot are served. */
  ghost predicate ServedIffFlagged(lineup: seq<int>, ready0: seq<bool>, served: seq<int>, moved: set<int>) {
    forall k :: 0 <= k < |lineup| && lineup[k] !in moved ==>
      (lineup[k] in served <==> HadFlag(lineup, ready0, lineup[k]))
  }

  /** Whether a pass that began like this served everybody it should, and nobody else. */
  ghost predicate ServesWell(t0: Table, ready0: seq<bool>, q: Place)
    requires Aligned(t0) && |ready0| == MAX_EVENTS && PossibleRun(t0, q.es)
  {
    var served, moved := ServedSockets(t0, q.es), MovedSockets(t0, q.es);
    && (forall j, k :: 0 <= j < k < |served| ==> served[j] != served[k])
    && (forall k :: 0 <= k < |served| ==> served[k] !in moved)
    && (!q.overrun ==> forall k :: 0 <= k < t0.count && ready0[k + 2] ==>
          t0.clients[k].sock in served || t0.clients[k].sock in moved)
    && (!q.overrun ==> ServedIffFlagged(Lineup(t0, q.es), ready0, served, moved))
    && AllFlagged(Lineup(t0, q.es), ready0, served)
  }

  /**
   * A pass serves nobody twice; it serves every client whose flag was up unless a swap-removal
   * moved it, and nobody else but newcomers in slots whose flag had been left up. Whoever leaves had
   * ended, and nobody who ended stays.
   */
  lemma PassGuarantees(os: System, manager: int, t: Table, ready: seq<bool>, server: int)
    requires Healthy(manager, Start(t, ready, server)) && GivesNewSockets(os)
    ensures var q := Pass(os, manager, Start(t, ready, server));
            && Healthy(manager, q) && PossibleRun(t, q.es) && q.t == Run(t, q.es)
            && ServesWell(t, ready, q) && OnlyEndedLeave(t, q.es)
            && (NobodyEnded(Live(t)) ==> NobodyEnded(Live(q.t)))
            && (q.overrun ==> q.t.count == MAX_CLIENTS)
  {
    var p := Start(t, ready, server);
    PassBegins(t, ready, server);
    PassReaches(os, manager, t, ready, p);
    OverrunIsFull(os, manager, p);
    if NobodyEnded(Live(t)) {
      PassLeavesNobodyEnded(os, manager, p);
    }
    var q := Pass(os, manager, p);
    hide Pass;
    hide Healthy;
    hide PossibleRun;
    hide Run;
    hide OnlyEndedLeave;
    hide NobodyEnded;
    hide AllFlagged;
    hide Lineup;
    hide InLine;
    ReachedServesWell(t, ready, q);
  }

  lemma ReachedServesWell(t0: Table, ready0: seq<bool>, q: Place)
    requires Reached(t0, ready0, q) && Over(q)
    ensures ServesWell(t0, ready0, q)
  {
    var lineup, served, moved := Lineup(t0, q.es), ServedSockets(t0, q.es), MovedSockets(t0, q.es);
    assert forall k :: 0 <= k < t0.count ==> lineup[k] == t0.clients[k].sock;
    if !q.overrun {
      FlaggedAreServed(lineup, ready0, Live(q.t), q.ready, served, moved, q.i - 2);
    }
    hide PossibleRun;
    hide Run;
    hide OnlyEndedLeave;
    hide ServedSockets;
    hide MovedSockets;
    hide AllFlagged;
    hide Lineup;
    hide InLine;
    hide ServedIffFlagged;
  }

  lemma FlaggedAreServed(lineup: seq<int>, ready0: seq<bool>, live: seq<Client>, ready: seq<bool>,
                         served: seq<int>, moved: set<int>, cursor: int)
    requires |ready0| == |ready| == MAX_EVENTS && |lineup| <= MAX_CLIENTS && |live| <= MAX_CLIENTS
    requires Progress(lineup, ready0, live, ready, served, moved, cursor) && cursor >= |live|
    requires AllFlagged(lineup, ready0, served)
    ensures ServedIffFlagged(lineup, ready0, served, moved)
    ensures forall k :: 0 <= k < |lineup| && ready0[k + 2] ==> lineup[k] in served || lineup[k] in moved
  {
    forall k | 0 <= k < |lineup| && lineup[k] !in moved
      ensures lineup[k] in served <==> HadFlag(lineup, ready0, lineup[k])
    {
      if HadFlag(lineup, ready0, lineup[k]) {
        var j :| WasFlagged(lineup, ready0, lineup[k], j);
        assert lineup[j] in served;
      }
    }
  }

  lemma PassStep(os: System, manager: int, p: Place)
    requires InRange(p) && !Over(p)
    ensures Pass(os, manager, p) == Pass(os, manager, Turn(os, manager, p))
  {
  }

  lemma PassOver(os: System, manager: int, p: Place)
    requires InRange(p) && Over(p)
    ensures Pass(os, manager, p) == p
  {
  }

  /** The accept at a flagged listener brings a client more than the arrays hold. */
  ghost predicate OneTooMany(os: System, manager: int, p: Place)
    requires InRange(p) && p.i < 2
  {
    p.ready[p.i] && p.t.count == MAX_CLIENTS && os.accept(p.accepts, SocketsAt(manager, p)) >= 0
  }

  lemma {:induction false} NoOverrunBehindListeners(os: System, manager: int, p: Place)
    requires InRange(p) && !p.overrun && p.i >= 2
    ensures !Pass(os, manager, p).overrun
    decreases if p.i < p.t.count + 2 then p.t.count + 2 - p.i else 0
  {
    if !Over(p) {
      var q := Turn(os, manager, p);
      assert !q.overrun && q.i >= 2;
      hide Turn;
      NoOverrunBehindListeners(os, manager, q);
    }
  }

  /**
   * A pass overruns the arrays if and only if a flagged listener's accept succeeds when they are full:
   * the first one's, or the second one's with the client the first may have brought.
   */
  lemma PassOverrunsIff(os: System, manager: int, t: Table, ready: seq<bool>, server: int)
    requires Aligned(t) && |ready| == MAX_EVENTS
    ensures var first := Start(t, ready, server);
            var second := Turn(os, manager, first);
            Pass(os, manager, first).overrun
            <==> OneTooMany(os, manager, first) || (second.i == 1 && OneTooMany(os, manager, second))
  {
    var first := Start(t, ready, server);
    var second := Turn(os, manager, first);
    PassStep(os, manager, first);
    assert second.overrun <==> OneTooMany(os, manager, first);
    assert second.i == 1;
    if second.overrun {
      PassOver(os, manager, second);
    } else {
      var third := Turn(os, manager, second);
      PassStep(os, manager, second);
      assert third.overrun <==> OneTooMany(os, manager, second);
      assert third.i == 2;
      hide Turn;
      if third.overrun {
        PassOver(os, manager, third);
      } else {
        NoOverrunBehindListeners(os, manager, third);
      }
    }
  }

  // Who is let in

  lemma AddsOne(es: seq<Event>, e: Event)
    ensures Admissions(es + [e]) == Admissions(es) + if e.Accept? then [e] else []
  {
    AdmissionsConcat(es, [e]);
    assert [e][1..] == [] && Admissions([e]) == if e.Accept? then [e] else [];
  }

  /** What an accept at a listener brings: at entry 0 a user, at entry 1 a manager, or nobody. */
  ghost function Brought(os: System, manager: int, p: Place): seq<Event>
    requires InRange(p) && p.i < 2
  {
    var sock := os.accept(p.accepts, SocketsAt(manager, p));
    if p.ready[p.i] && sock >= 0 && p.t.count < MAX_CLIENTS then [Accept(sock, p.i == 1)] else []
  }

  /** A client accepted at entry 0 is a user before login, one accepted at entry 1 is a manager. */
  lemma AcceptedAs(os: System, manager: int, p: Place)
    requires Healthy(manager, p) && p.i < 2
    ensures var q, one := Turn(os, manager, p), Brought(os, manager, p);
            && q.es == p.es + one && q.t.count == p.t.count + |one| && q.i == p.i + 1
            && (one != [] ==>
                 && q.t.clients[p.t.count].sock == one[0].sock
                 && q.t.clients[p.t.count].mode == if p.i == 0 then Authorization else Manager)
  {
    assert p.es + [] == p.es;
  }

  lemma ServiceAcceptsNobody(os: System, manager: int, p: Place)
    requires InRange(p) && 2 <= p.i < p.t.count + 2
    ensures Admissions(AfterService(os, manager, p).es) == Admissions(p.es)
  {
    var r := ServedAt(os, manager, p);
    var e := Serve(p.i - 2, r.mode, r.leftover);
    AddsOne(p.es, e);
    if r.listener.Updated? {
      AddsOne(p.es + [e], Rebind(ListenerEntry(r.listener, p.server)));
    }
    hide Admissions;
    hide Step;
    hide ServedAt;
  }

  lemma NobodyAcceptedAtClients(os: System, manager: int, p: Place)
    requires InRange(p) && !Over(p) && p.i >= 2
    ensures var q := Turn(os, manager, p);
            q.i >= 2 && !q.overrun && Admissions(q.es) == Admissions(p.es)
  {
    if p.ready[p.i] {
      ServiceAcceptsNobody(os, manager, p);
      AddsOne(AfterService(os, manager, p).es, Remove(p.i - 2));
      TurnIsLess(os, manager, p);
    }
    hide Admissions;
    hide Step;
    hide AfterService;
    hide InRange;
  }

  lemma {:induction false} NobodyAcceptedBehindListeners(os: System, manager: int, p: Place)
    requires InRange(p) && !p.overrun && p.i >= 2
    ensures Admissions(Pass(os, manager, p).es) == Admissions(p.es)
    decreases if p.i < p.t.count + 2 then p.t.count + 2 - p.i else 0
  {
    if !Over(p) {
      NobodyAcceptedAtClients(os, manager, p);
      TurnIsLess(os, manager, p);
      hide Turn;
      hide Admissions;
      NobodyAcceptedBehindListeners(os, manager, Turn(os, manager, p));
    }
  }

  /**
   * Whom a pass lets in: at most one user, by the first listener, and then at most one manager, by the
   * second, each exactly when its entry is flagged, accept gives a socket and there is room.
   */
  lemma PassAdmits(os: System, manager: int, t: Table, ready: seq<bool>, server: int)
    requires Healthy(manager, Start(t, ready, server)) && GivesNewSockets(os)
    ensures var first := Start(t, ready, server);
            var second := Turn(os, manager, first);
            && second.i == 1
            && Admissions(Pass(os, manager, first).es)
               == Brought(os, manager, first) + if second.overrun then [] else Brought(os, manager, second)
  {
    var first := Start(t, ready, server);
    var second := Turn(os, manager, first);
    AcceptedAs(os, manager, first);
    TurnKeepsHealthy(os, manager, first);
    AcceptedAs(os, manager, second);
    PassStep(os, manager, first);
    AdmissionsConcat(first.es, Brought(os, manager, first));
    AdmissionsConcat(second.es, Brought(os, manager, second));
    BroughtAreAccepts(os, manager, first);
    BroughtAreAccepts(os, manager, second);
    assert Admissions(first.es) == [];
    if second.overrun {
      PassOver(os, manager, second);
    } else {
      var third := Turn(os, manager, second);
      PassStep(os, manager, second);
      hide Turn;
      hide Admissions;
      hide Brought;
      if third.overrun {
        PassOver(os, manager, third);
      } else {
        NobodyAcceptedBehindListeners(os, manager, third);
      }
    }
  }

  lemma BroughtAreAccepts(os: System, manager: int, p: Place)
    requires InRange(p) && p.i < 2
    ensures Admissions(Brought(os, manager, p)) == Brought(os, manager, p)
  {
    var one := Brought(os, manager, p);
    if one != [] {
      assert one[1..] == [] && one == [one[0]];
    }
  }

  /** When nobody calls at the second listener, everybody a pass lets in is a user. */
  lemma OnlyUsersAdmitted(os: System, manager: int, t: Table, ready: seq<bool>, server: int)
    requires Healthy(manager, Start(t, ready, server)) && GivesNewSockets(os) && !ready[1]
    ensures var admitted := Admissions(Pass(os, manager, Start(t, ready, server)).es);
            forall j :: 0 <= j < |admitted| ==> admitted[j].Accept? && !admitted[j].manager
  {
    PassAdmits(os, manager, t, ready, server);
    hide Pass;
    hide Admissions;
  }

  // A flag left up

  /** poll writes the flags of the entries it is given, the first count + 2, and no others. */
  function Polled(ready: seq<bool>, count: nat, reported: set<int>): (r: seq<bool>)
    ensures |r| == |ready|
    ensures forall k :: 0 <= k < |r| ==> r[k] == if k < count + 2 then k in reported else ready[k]
  {
    seq(|ready|, k requires 0 <= k < |ready| => if k < count + 2 then k in reported else ready[k])
  }

  /** Client 7 quits and client 8 goes on; connections get socket 9. */
  function QuitAndAccept(): System {
    System((n: nat, used: set<int>) => if 9 in used then -1 else 9,
           (n: nat, c: Client, used: set<int>) => Served(if c.sock == 7 then Closing else Authorization, [], Untouched))
  }

  /** Both clients have input; the first one leaves, the second takes its slot, and its own flag stays up. */
  lemma FlagIsLeftUp(t: Table, ready: seq<bool>)
    requires Aligned(t) && t.count == 2 && t.clients[0].sock == 7 && t.clients[1].sock == 8
    requires |ready| == MAX_EVENTS && !ready[0] && !ready[1] && ready[2] && ready[3]
    ensures var q := Pass(QuitAndAccept(), 4, Start(t, ready, 3));
            && q.t.count == 1 && q.t.clients[0].sock == 8 && q.ready[3] && !q.overrun
            && q.t.fds[0] == t.fds[0] && q.t.fds[1] == t.fds[1]
  {
    var os := QuitAndAccept();
    var p0 := Start(t, ready, 3);
    var p1 := Turn(os, 4, p0);
    var p2 := Turn(os, 4, p1);
    assert p2 == p0.(i := 2);
    var p3 := Turn(os, 4, p2);
    assert p3.i == 2 && p3.t.count == 1 && p3.ready == ready[2 := false] && p3.t.clients[0].sock == 8;
    assert !p3.overrun && p3.t.fds[0] == t.fds[0] && p3.t.fds[1] == t.fds[1];
    var p4 := Turn(os, 4, p3);
    assert p4 == p3.(i := 3);
    hide Turn;
    PassStep(os, 4, p0);
    PassStep(os, 4, p1);
    PassStep(os, 4, p2);
    PassStep(os, 4, p3);
    PassOver(os, 4, p4);
  }

  /** The first listener has a connection: the newcomer finds the flag up and is served, though poll did not report it. */
  lemma NewcomerFindsFlag(t: Table, ready: seq<bool>)
    requires Aligned(t) && t.count == 1 && t.clients[0].sock == 8 && t.fds[0] == 3 && t.fds[1] == 4
    requires |ready| == MAX_EVENTS && ready[0] && !ready[1] && !ready[2] && ready[3]
    ensures var q := Pass(QuitAndAccept(), 4, Start(t, ready, 3));
            Serve(1, Authorization, []) in q.es && q.t.clients[1].sock == 9
  {
    var os := QuitAndAccept();
    var p0 := Start(t, ready, 3);
    var p1 := Turn(os, 4, p0);
    assert 9 !in SocketsAt(4, p0);
    assert p1.i == 1 && p1.t.count == 2 && p1.t.clients[1].sock == 9 && p1.ready == ready[0 := false] && !p1.overrun;
    var p2 := Turn(os, 4, p1);
    var p3 := Turn(os, 4, p2);
    assert p3 == p1.(i := 3);
    var p4 := Turn(os, 4, p3);
    assert p4.i == 4 && p4.t.count == 2 && !p4.overrun && p4.t.clients[1].sock == 9;
    assert p4.es[|p4.es| - 1] == Serve(1, Authorization, []);
    hide Turn;
    PassStep(os, 4, p0);
    PassStep(os, 4, p1);
    PassStep(os, 4, p2);
    PassStep(os, 4, p3);
    PassOver(os, 4, p4);
  }

  /** Two polls: the second reports only the first listener, and the client it brings is served in the same pass. */
  lemma NewcomerCanBeServedUnasked(t: Table, ready: seq<bool>)
    requires Aligned(t) && t.count == 2 && t.clients[0].sock == 7 && t.clients[1].sock == 8
    requires t.fds[0] == 3 && t.fds[1] == 4
    requires |ready| == MAX_EVENTS && !ready[0] && !ready[1] && ready[2] && ready[3]
    ensures var first := Pass(QuitAndAccept(), 4, Start(t, ready, 3));
            var second := Pass(QuitAndAccept(), 4, Start(first.t, Polled(first.ready, first.t.count, {0}), 3));
            second.t.clients[1].sock == 9 && Serve(1, Authorization, []) in second.es
  {
    FlagIsLeftUp(t, ready);
    var first := Pass(QuitAndAccept(), 4, Start(t, ready, 3));
    hide Pass;
    NewcomerFindsFlag(first.t, Polled(first.ready, first.t.count, {0}));
  }
}
