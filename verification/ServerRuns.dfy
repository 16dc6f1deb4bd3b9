/**
 * The whole server of src/server: the table of connections and the sessions of its clients, which
 * share the settings and the counters. Every session in it is a run of its own, and what the table
 * and the sessions guarantee apart they guarantee together.
 */
module ServerRuns {
  import opened Bytes
  import opened Modes
  import opened Mailbox
  import opened Session
  import opened SessionRuns
  import opened SessionStream
  import Connections
  import PollTurns

  /**
   * A connection and, to reason about it, its history: the session it began with, the partial line
   * it found in its slot, and the calls of handle_client for it between the changes others made.
   */
  datatype Connection = Connection(now: State, start: State, found: seq<byte>, calls: seq<Call>)

  /** `live` are the connections in table order, `gone` the removed ones, `sent` all replies to all clients. */
  datatype Server = Server(table: Connections.Table, live: seq<Connection>, gone: seq<Connection>,
                           config: Config, counters: Counters, sent: seq<Reply>)

  /** What a pass over the poll entries can come to: an accepted connection, or a client to be served. */
  datatype Happening =
    | Arrives(sock: int, manager: bool)
    | HasInput(k: nat, received: Received, disk: Disk, entry: int)

  ghost predicate Fits(sv: Server) {
    && Connections.Aligned(sv.table) && |sv.live| == sv.table.count
    && forall k :: 0 <= k < |sv.live| ==> Sound(sv.live[k].now)
  }

  /** An aborted session took the process with it. */
  ghost predicate CanHappen(sv: Server, h: Happening) {
    && (forall k :: 0 <= k < |sv.live| ==> !sv.live[k].now.aborted)
    && match h
       case Arrives(_, _) => sv.table.count < Connections.MAX_CLIENTS
       case HasInput(k, _, _, _) => k < |sv.live|
  }

  // The table after a service

  function EventsOfService(k: nat, mode: Mode, rest: seq<byte>, moved: bool, entry: int): seq<Connections.Event> {
    [Connections.Serve(k, mode, rest)]
    + (if moved then [Connections.Rebind(entry)] else [])
    + (if Connections.Ended(mode) then [Connections.Remove(k)] else [])
  }

  /** handle_client, the first listener if it moved, and handle_close_client if the session ended. */
  ghost function TableAfter(t: Connections.Table, k: nat, mode: Mode, rest: seq<byte>, moved: bool, entry: int)
    : (u: Connections.Table)
    requires Connections.Aligned(t) && k < t.count
    ensures Connections.Aligned(u) && u.count == t.count - if Connections.Ended(mode) then 1 else 0
  {
    var served := Connections.Step(t, Connections.Serve(k, mode, rest));
    var bound := if moved then Connections.Step(served, Connections.Rebind(entry)) else served;
    if Connections.Ended(mode) then Connections.Step(bound, Connections.Remove(k)) else bound
  }

  // One happening

  function Told(c: Connection, config: Config, counters: Counters): Connection {
    c.(now := c.now.(config := config, counters := counters), calls := c.calls + [Changed(config, counters)])
  }

  function AllTold(live: seq<Connection>, config: Config, counters: Counters): (r: seq<Connection>)
    ensures |r| == |live| && forall j :: 0 <= j < |r| ==> r[j] == Told(live[j], config, counters)
  {
    seq(|live|, j requires 0 <= j < |live| => Told(live[j], config, counters))
  }

  function NewSession(manager: bool, config: Config, counters: Counters): State {
    State(if manager then Manager else Authorization, None, None, config, counters, [], [], false)
  }

  /** The last one takes the place of the k-th, as in the table. */
  function Without(live: seq<Connection>, k: nat): seq<Connection>
    requires k < |live|
  {
    live[k := live[|live| - 1]][..|live| - 1]
  }

  ghost function Arrive(sv: Server, sock: int, manager: bool): (sv': Server)
    requires Fits(sv) && sv.table.count < Connections.MAX_CLIENTS
    ensures Fits(sv')
  {
    var table := Connections.Step(sv.table, Connections.Accept(sock, manager));
    var counters := sv.counters.(total := table.total, most := table.most);
    var start := NewSession(manager, sv.config, counters);
    var newcomer := Connection(start, start, sv.table.clients[sv.table.count].leftover, []);
    sv.(table := table, counters := counters, live := AllTold(sv.live, sv.config, counters) + [newcomer])
  }

  /** What handle_client makes of the session, what it says, and the partial line it leaves. */
  ghost function Answered(accounts: seq<Account>, sv: Server, k: nat, received: Received, disk: Disk)
    : (a: (State, seq<Reply>, seq<byte>))
    requires Fits(sv) && k < |sv.live|
    ensures Sound(a.0)
  {
    CallKeepsSound(accounts, sv.live[k].now, sv.table.clients[k].leftover, Call.Call(received, disk));
    HandleReceived(accounts, sv.live[k].now, sv.table.clients[k].leftover, received, disk)
  }

  /** What a service makes of the connections, given what handle_client made of the k-th session. */
  ghost function Service(sv: Server, k: nat, call: Call, t: State, said: seq<Reply>, rest: seq<byte>, entry: int)
    : (sv': Server)
    requires Fits(sv) && k < |sv.live| && Sound(t)
    ensures Fits(sv')
  {
    var c := sv.live[k];
    var served := c.(now := t, calls := c.calls + [call]);
    var live := AllTold(sv.live, t.config, t.counters)[k := served];
    var over := Connections.Ended(t.mode);
    Server(TableAfter(sv.table, k, t.mode, rest, t.rebinds != c.now.rebinds, entry),
           if over then Without(live, k) else live,
           if over then sv.gone + [served] else sv.gone,
           t.config, t.counters, sv.sent + said)
  }

  ghost function Step(accounts: seq<Account>, sv: Server, h: Happening): (sv': Server)
    requires Fits(sv) && CanHappen(sv, h)
    ensures Fits(sv')
  {
    match h
    case Arrives(sock, manager) => Arrive(sv, sock, manager)
    case HasInput(k, received, disk, entry) =>
      var (t, said, rest) := Answered(accounts, sv, k, received, disk);
      Service(sv, k, Call.Call(received, disk), t, said, rest, entry)
  }

  ghost function TableEvents(accounts: seq<Account>, sv: Server, h: Happening): seq<Connections.Event>
    requires Fits(sv) && CanHappen(sv, h)
  {
    match h
    case Arrives(sock, manager) => [Connections.Accept(sock, manager)]
    case HasInput(k, received, disk, entry) =>
      var (t, said, rest) := Answered(accounts, sv, k, received, disk);
      EventsOfService(k, t.mode, rest, t.rebinds != sv.live[k].now.rebinds, entry)
  }

  // Runs

  ghost predicate PossibleRun(accounts: seq<Account>, sv: Server, hs: seq<Happening>)
    requires Fits(sv)
    decreases |hs|
  {
    hs == [] ||
    (CanHappen(sv, hs[0]) && PossibleRun(accounts, Step(accounts, sv, hs[0]), hs[1..]))
  }

  /** The server after a run. */
  ghost function After(accounts: seq<Account>, sv: Server, hs: seq<Happening>): (sv': Server)
    requires Fits(sv) && PossibleRun(accounts, sv, hs)
    ensures Fits(sv')
    decreases |hs|
  {
    if hs == [] then sv else After(accounts, Step(accounts, sv, hs[0]), hs[1..])
  }

  /** What the run does to the table of connections. */
  ghost function TableRun(accounts: seq<Account>, sv: Server, hs: seq<Happening>): seq<Connections.Event>
    requires Fits(sv) && PossibleRun(accounts, sv, hs)
    decreases |hs|
  {
    if hs == [] then []
    else TableEvents(accounts, sv, hs[0]) + TableRun(accounts, Step(accounts, sv, hs[0]), hs[1..])
  }

  // What the commands of one client do to what all share

  /** The messages a sequence of replies announces, one "octets" line for each. */
  function MessagesSent(said: seq<Reply>): int {
    if said == [] then 0 else MessagesSent(said[..|said| - 1]) + if said[|said| - 1].Octets? then 1 else 0
  }

  function OctetsSent(said: seq<Reply>): int {
    if said == [] then 0
    else OctetsSent(said[..|said| - 1]) + if said[|said| - 1].Octets? then said[|said| - 1].size else 0
  }

  lemma {:induction false} SentConcat(a: seq<Reply>, b: seq<Reply>)
    ensures MessagesSent(a + b) == MessagesSent(a) + MessagesSent(b)
    ensures OctetsSent(a + b) == OctetsSent(a) + OctetsSent(b)
    decreases |b|
  {
    if b == [] {
      assert a + b == a;
    } else {
      assert (a + b)[..|a + b| - 1] == a + b[..|b| - 1];
      SentConcat(a, b[..|b| - 1]);
    }
  }

  predicate NothingSent(said: seq<Reply>) {
    forall i :: 0 <= i < |said| ==> !said[i].Octets?
  }

  lemma {:induction false} NothingIsNone(said: seq<Reply>)
    requires NothingSent(said)
    ensures MessagesSent(said) == 0 && OctetsSent(said) == 0
  {
    if said != [] {
      NothingIsNone(said[..|said| - 1]);
    }
  }

  /** An "octets" line is the first of two, and comes from RETR alone. */
  lemma OctetsComeFirst(accounts: seq<Account>, s: State, ev: Event)
    requires Sound(s)
    ensures var said := Deliver(accounts, s, ev).1;
            if Serves(said) then |said| == 2 && said[1].Contents? else NothingSent(said)
  {
    hide VerbOf;
    hide FindAccount;
    hide Delete;
    hide Retrieve;
    hide RemovedFiles;
    hide Loaded;
    hide AllCleared;
    hide Atoi;
    hide ListAll;
  }

  lemma SentByOne(said: seq<Reply>)
    requires if Serves(said) then |said| == 2 && said[1].Contents? else NothingSent(said)
    ensures MessagesSent(said) == MessagesIn(said) && OctetsSent(said) == OctetsIn(said)
  {
    if Serves(said) {
      assert said[..1][..0] == [];
      assert MessagesSent(said[..1]) == 1 && OctetsSent(said[..1]) == said[0].size;
    } else {
      NothingIsNone(said);
    }
  }

  lemma DeliverNeverErrs(accounts: seq<Account>, s: State, ev: Event)
    requires Sound(s) && s.mode != Error
    ensures Deliver(accounts, s, ev).0.mode != Error
  {
    hide VerbOf;
    hide FindAccount;
  }

  /** No mode Error, no counter but those of what was sent, and no setting or listener unless it is a manager. */
  predicate OwnEffect(s: State, t: State, said: seq<Reply>) {
    && (s.mode != Error ==> t.mode != Error)
    && t.counters == s.counters.(messages := s.counters.messages + MessagesSent(said),
                                 octets := s.counters.octets + OctetsSent(said))
    && (s.mode != Manager ==> t.mode != Manager && t.config == s.config && t.rebinds == s.rebinds)
  }

  predicate OwnEvents(es: seq<Event>) {
    forall i :: 0 <= i < |es| ==> !es[i].Others?
  }

  lemma DeliverOwn(accounts: seq<Account>, s: State, ev: Event)
    requires Sound(s) && !ev.Others?
    ensures var (t, said) := Deliver(accounts, s, ev); OwnEffect(s, t, said)
  {
    CountersAfter(accounts, s, ev);
    SettingsAfter(accounts, s, ev);
    OctetsComeFirst(accounts, s, ev);
    SentByOne(Deliver(accounts, s, ev).1);
    if s.mode != Error {
      DeliverNeverErrs(accounts, s, ev);
    }
    hide Deliver;
    hide IsVerb;
    hide MessagesSent;
    hide OctetsSent;
  }

  lemma {:induction false} PlayOwn(accounts: seq<Account>, s: State, es: seq<Event>)
    requires Sound(s) && OwnEvents(es)
    ensures var (t, said) := Play(accounts, s, es); OwnEffect(s, t, said)
    decreases |es|
  {
    if es != [] {
      var (t, said) := Deliver(accounts, s, es[0]);
      DeliverOwn(accounts, s, es[0]);
      PlayOwn(accounts, t, es[1..]);
      SentConcat(said, Play(accounts, t, es[1..]).1);
      hide Deliver;
      hide MessagesSent;
      hide OctetsSent;
    }
  }

  lemma ReceivedOwn(accounts: seq<Account>, s: State, leftover: seq<byte>, received: Received, disk: Disk)
    requires Sound(s) && !Stopped(s)
    ensures var (t, said, rest) := HandleReceived(accounts, s, leftover, received, disk); OwnEffect(s, t, said)
  {
    var call := Call.Call(received, disk);
    CallIsEvents(accounts, s, leftover, call);
    PlayOwn(accounts, s, EventsOfCall(leftover, call));
    hide Play;
    hide HandleReceived;
    hide OwnEffect;
  }

  // Every connection is a run of its session

  /** The session is where its history leads it. */
  ghost predicate IsRun(accounts: seq<Account>, c: Connection) {
    Starts(c.start) && HandleCalls(accounts, c.start, c.found, c.calls).0 == c.now
  }

  /** What a live connection, its slot in the table and the shared settings and counters owe each other. */
  ghost predicate Alive(accounts: seq<Account>, c: Connection, slot: Connections.Client,
                        config: Config, counters: Counters) {
    && IsRun(accounts, c) && slot.mode == c.now.mode && !Connections.Ended(c.now.mode)
    && c.now.config == config && c.now.counters == counters
    && (!c.now.aborted ==> slot.leftover == LeftoverAfter(c.found, c.calls))
  }

  ghost predicate AllAlive(accounts: seq<Account>, live: seq<Connection>, slots: seq<Connections.Client>,
                           config: Config, counters: Counters) {
    |live| <= |slots| && forall k :: 0 <= k < |live| ==> Alive(accounts, live[k], slots[k], config, counters)
  }

  ghost predicate AllOver(accounts: seq<Account>, gone: seq<Connection>) {
    forall i :: 0 <= i < |gone| ==> IsRun(accounts, gone[i]) && gone[i].now.mode == Closing
  }

  ghost predicate Good(accounts: seq<Account>, sv: Server) {
    && Fits(sv)
    && AllAlive(accounts, sv.live, sv.table.clients, sv.config, sv.counters)
    && AllOver(accounts, sv.gone)
    && sv.counters.total == sv.table.total && sv.counters.most == sv.table.most
  }

  lemma RunIsSound(accounts: seq<Account>, c: Connection)
    requires IsRun(accounts, c)
    ensures Sound(c.start) && Sound(c.now)
  {
    hide HandleCalls;
  }

  lemma ToldIsAlive(accounts: seq<Account>, c: Connection, slot: Connections.Client, was: Config, before: Counters,
                    config: Config, counters: Counters)
    requires Alive(accounts, c, slot, was, before) && !c.now.aborted
    ensures Alive(accounts, Told(c, config, counters), slot, config, counters)
  {
    RunIsSound(accounts, c);
    OneMoreCall(accounts, c.start, c.found, c.calls, Changed(config, counters));
    hide HandleCalls;
    hide LeftoverAfter;
  }

  lemma ServedIsRun(accounts: seq<Account>, c: Connection, slot: Connections.Client, config: Config, counters: Counters,
                    received: Received, disk: Disk)
    requires Alive(accounts, c, slot, config, counters) && !c.now.aborted && Sound(c.now)
    ensures var (t, said, rest) := HandleReceived(accounts, c.now, slot.leftover, received, disk);
            var served := c.(now := t, calls := c.calls + [Call.Call(received, disk)]);
            && IsRun(accounts, served) && OwnEffect(c.now, t, said) && t.mode != Error
            && (!Stopped(t) ==> rest == LeftoverAfter(served.found, served.calls))
            && (t.mode == Closing ==> rest == [])
  {
    RunIsSound(accounts, c);
    var call := Call.Call(received, disk);
    OneMoreCall(accounts, c.start, c.found, c.calls, call);
    CallIsEvents(accounts, c.now, slot.leftover, call);
    ReceivedOwn(accounts, c.now, slot.leftover, received, disk);
    EndedKeepsNothing(accounts, c.now, slot.leftover, received, disk);
    hide HandleCalls;
    hide LeftoverAfter;
    hide HandleReceived;
    hide EventsOfCall;
    hide LeftoverOf;
    hide Play;
  }

  /** The last of n slots moves to the k-th. */
  ghost predicate Closes(before: seq<Connections.Client>, after: seq<Connections.Client>, k: nat, n: nat) {
    && n <= |before| == |after|
    && forall j :: 0 <= j < n - 1 ==> after[j] == if j == k then before[n - 1] else before[j]
  }

  lemma SlotsAfter(t: Connections.Table, k: nat, mode: Mode, rest: seq<byte>, moved: bool, entry: int)
    requires Connections.Aligned(t) && k < t.count
    ensures var u := TableAfter(t, k, mode, rest, moved, entry);
            && u.total == t.total && u.most == t.most
            && (!Connections.Ended(mode) ==>
                 u.clients == t.clients[k := Connections.Client(t.clients[k].sock, mode, rest)])
            && (Connections.Ended(mode) ==> Closes(t.clients, u.clients, k, t.count))
  {
  }

  ghost predicate NoneAborted(live: seq<Connection>) {
    forall k :: 0 <= k < |live| ==> !live[k].now.aborted
  }

  lemma AllAreTold(accounts: seq<Account>, live: seq<Connection>, slots: seq<Connections.Client>,
                   was: Config, before: Counters,
                   config: Config, counters: Counters)
    requires AllAlive(accounts, live, slots, was, before) && NoneAborted(live)
    ensures AllAlive(accounts, AllTold(live, config, counters), slots, config, counters)
  {
    forall k | 0 <= k < |live|
      ensures Alive(accounts, Told(live[k], config, counters), slots[k], config, counters)
    {
      ToldIsAlive(accounts, live[k], slots[k], was, before, config, counters);
    }
    hide Alive;
    hide Told;
  }

  lemma OneIsServed(accounts: seq<Account>, live: seq<Connection>, slots: seq<Connections.Client>,
                    config: Config, counters: Counters,
                    k: nat, c: Connection, slot: Connections.Client)
    requires AllAlive(accounts, live, slots, config, counters) && k < |live| && Alive(accounts, c, slot, config, counters)
    ensures AllAlive(accounts, live[k := c], slots[k := slot], config, counters)
  {
    hide Alive;
  }

  lemma OneLeaves(accounts: seq<Account>, live: seq<Connection>, slots: seq<Connections.Client>,
                  config: Config, counters: Counters,
                  k: nat, c: Connection, left: seq<Connections.Client>)
    requires AllAlive(accounts, live, slots, config, counters) && k < |live| && Closes(slots, left, k, |live|)
    ensures AllAlive(accounts, Without(live[k := c], k), left, config, counters)
  {
    hide Alive;
  }

  lemma ArriveKeepsGood(accounts: seq<Account>, sv: Server, sock: int, manager: bool)
    requires Good(accounts, sv) && CanHappen(sv, Arrives(sock, manager))
    ensures Good(accounts, Arrive(sv, sock, manager))
  {
    var sv' := Arrive(sv, sock, manager);
    var n, told := |sv.live|, AllTold(sv.live, sv.config, sv'.counters);
    assert Alive(accounts, sv'.live[n], sv'.table.clients[n], sv'.config, sv'.counters);
    assert sv'.live[..n] == told;
    AllAreTold(accounts, sv.live, sv.table.clients, sv.config, sv.counters, sv.config, sv'.counters);
    hide Alive;
    hide IsRun;
    hide AllTold;
  }

  lemma ServiceKeepsGood(accounts: seq<Account>, sv: Server, k: nat, call: Call, t: State, said: seq<Reply>,
                         rest: seq<byte>, entry: int)
    requires Good(accounts, sv) && NoneAborted(sv.live) && k < |sv.live| && Sound(t)
    requires var c := sv.live[k].(now := t, calls := sv.live[k].calls + [call]);
             && IsRun(accounts, c) && t.mode != Error && (!Stopped(t) ==> rest == LeftoverAfter(c.found, c.calls))
    requires t.counters.total == sv.counters.total && t.counters.most == sv.counters.most
    ensures Good(accounts, Service(sv, k, call, t, said, rest, entry))
  {
    var c := sv.live[k].(now := t, calls := sv.live[k].calls + [call]);
    var slot := Connections.Client(sv.table.clients[k].sock, t.mode, rest);
    var moved := t.rebinds != sv.live[k].now.rebinds;
    hide *;
    var told := AllTold(sv.live, t.config, t.counters);
    GoodWhen(accounts, sv);
    ServiceParts(accounts, sv, k, call, t, said, rest, entry);
    SlotsAfter(sv.table, k, t.mode, rest, moved, entry);
    AllAreTold(accounts, sv.live, sv.table.clients, sv.config, sv.counters, t.config, t.counters);
    if Connections.Ended(t.mode) {
      OneMoreOver(accounts, sv.gone, c);
      OneLeaves(accounts, told, sv.table.clients, t.config, t.counters, k, c,
                TableAfter(sv.table, k, t.mode, rest, moved, entry).clients);
    } else {
      OneIsServed(accounts, told, sv.table.clients, t.config, t.counters, k, c, slot);
    }
    GoodWhen(accounts, Service(sv, k, call, t, said, rest, entry));
  }

  lemma ServiceParts(accounts: seq<Account>, sv: Server, k: nat, call: Call, t: State, said: seq<Reply>,
                     rest: seq<byte>, entry: int)
    requires Fits(sv) && k < |sv.live| && Sound(t) && t.mode != Error
    requires var c := sv.live[k].(now := t, calls := sv.live[k].calls + [call]);
             IsRun(accounts, c) && (!Stopped(t) ==> rest == LeftoverAfter(c.found, c.calls))
    ensures var c := sv.live[k].(now := t, calls := sv.live[k].calls + [call]);
            var told, over := AllTold(sv.live, t.config, t.counters), Connections.Ended(t.mode);
            var slot := Connections.Client(sv.table.clients[k].sock, t.mode, rest);
            var sv' := Service(sv, k, call, t, said, rest, entry);
            && Connections.Aligned(sv.table) && |sv.live| == sv.table.count <= |sv.table.clients|
            && |sv'.table.clients| == |sv.table.clients|
            && sv'.live == (if over then Without(told[k := c], k) else told[k := c])
            && sv'.gone == (if over then sv.gone + [c] else sv.gone)
            && sv'.table == TableAfter(sv.table, k, t.mode, rest, t.rebinds != sv.live[k].now.rebinds, entry)
            && sv'.config == t.config && sv'.counters == t.counters && Fits(sv')
            && (over ==> t.mode == Closing) && (!over ==> Alive(accounts, c, slot, t.config, t.counters))
  {
    hide IsRun;
    hide LeftoverAfter;
    hide TableAfter;
    hide AllTold;
  }

  lemma OneMoreOver(accounts: seq<Account>, gone: seq<Connection>, c: Connection)
    requires AllOver(accounts, gone) && IsRun(accounts, c) && c.now.mode == Closing
    ensures AllOver(accounts, gone + [c])
  {
    hide IsRun;
  }

  lemma GoodWhen(accounts: seq<Account>, sv: Server)
    ensures Good(accounts, sv)
            <==> Fits(sv) && AllAlive(accounts, sv.live, sv.table.clients, sv.config, sv.counters)
                 && AllOver(accounts, sv.gone)
                 && sv.counters.total == sv.table.total && sv.counters.most == sv.table.most
  {
    hide AllAlive;
    hide AllOver;
    hide Fits;
  }

  /** One service, seen from the server: its session, the table and what all share. */
  lemma ServiceOf(accounts: seq<Account>, sv: Server, h: Happening)
    requires Good(accounts, sv) && CanHappen(sv, h) && h.HasInput?
    ensures var (t, said, rest) := Answered(accounts, sv, h.k, h.received, h.disk);
            var c := sv.live[h.k];
            var served := c.(now := t, calls := c.calls + [Call.Call(h.received, h.disk)]);
            && IsRun(accounts, served) && OwnEffect(c.now, t, said) && t.mode != Error
            && (!Stopped(t) ==> rest == LeftoverAfter(served.found, served.calls)) && (t.mode == Closing ==> rest == [])
            && c.now.counters == sv.counters && c.now.config == sv.config
  {
    var c, slot := sv.live[h.k], sv.table.clients[h.k];
    assert Alive(accounts, c, slot, sv.config, sv.counters);
    ServedIsRun(accounts, c, slot, sv.config, sv.counters, h.received, h.disk);
    hide IsRun;
    hide OwnEffect;
    hide LeftoverAfter;
    hide HandleReceived;
  }

  lemma StepKeepsGood(accounts: seq<Account>, sv: Server, h: Happening)
    requires Good(accounts, sv) && CanHappen(sv, h)
    ensures Good(accounts, Step(accounts, sv, h))
  {
    hide AllAlive;
    hide AllOver;
    match h
    case Arrives(sock, manager) =>
      ArriveKeepsGood(accounts, sv, sock, manager);
    case HasInput(k, received, disk, entry) =>
      var (t, said, rest) := Answered(accounts, sv, k, received, disk);
      ServiceOf(accounts, sv, h);
      hide Answered;
      hide IsRun;
      hide LeftoverAfter;
      hide Service;
      ServiceKeepsGood(accounts, sv, k, Call.Call(received, disk), t, said, rest, entry);
  }

  lemma {:induction false} RunKeepsGood(accounts: seq<Account>, sv: Server, hs: seq<Happening>)
    requires Good(accounts, sv) && PossibleRun(accounts, sv, hs)
    ensures Good(accounts, After(accounts, sv, hs))
    decreases |hs|
  {
    if hs != [] {
      StepKeepsGood(accounts, sv, hs[0]);
      hide Good;
      hide Step;
      hide CanHappen;
      RunKeepsGood(accounts, Step(accounts, sv, hs[0]), hs[1..]);
    }
  }

  // What the whole server guarantees

  /** No client yet. */
  ghost predicate Begins(sv: Server) {
    && Connections.Aligned(sv.table) && sv.table.count == 0 && sv.live == [] && sv.gone == [] && sv.sent == []
    && sv.counters.total == sv.table.total && sv.counters.most == sv.table.most
  }

  lemma BeginsGood(accounts: seq<Account>, sv: Server)
    requires Begins(sv)
    ensures Good(accounts, sv)
  {
  }

  ghost function SessionRun(accounts: seq<Account>, c: Connection): Run {
    Run(accounts, c.start, EventsOf(c.found, c.calls))
  }

  /**
   * Every session there is or was is where a run over the commands it received ends; they are the
   * commands in its own bytes if and only if it found no partial line or did not end it first.
   */
  lemma EverySessionIsARun(accounts: seq<Account>, sv: Server, hs: seq<Happening>, c: Connection)
    requires Begins(sv) && PossibleRun(accounts, sv, hs)
    requires c in After(accounts, sv, hs).live || c in After(accounts, sv, hs).gone
    ensures var r := SessionRun(accounts, c);
            && Starts(r.start) && Before(r, |r.events|) == c.now
            && (r.events == EventsOf([], c.calls) <==> c.found == [] || !ContinuesLine(c.calls))
  {
    BeginsGood(accounts, sv);
    RunKeepsGood(accounts, sv, hs);
    RunOfConnection(accounts, After(accounts, sv, hs), c);
    assert SessionRun(accounts, c).events == EventsOf(c.found, c.calls);
    hide *;
    RunIsSound(accounts, c);
    HistoryIsRun(accounts, c);
    if c.found != [] {
      OwnCommandsIff(c.found, c.calls);
    }
  }

  lemma RunOfConnection(accounts: seq<Account>, sv: Server, c: Connection)
    requires Good(accounts, sv) && (c in sv.live || c in sv.gone)
    ensures IsRun(accounts, c) && (c in sv.gone ==> c.now.mode == Closing)
  {
    if c in sv.live {
      var k :| 0 <= k < |sv.live| && sv.live[k] == c;
      assert Alive(accounts, sv.live[k], sv.table.clients[k], sv.config, sv.counters);
    }
  }

  lemma HistoryIsRun(accounts: seq<Account>, c: Connection)
    requires IsRun(accounts, c)
    ensures var r := SessionRun(accounts, c); Starts(r.start) && Sound(r.start) && Before(r, |r.events|) == c.now
  {
    var r := SessionRun(accounts, c);
    assert r.events[..|r.events|] == r.events;
    hide HandleCalls;
    hide EventsOf;
    hide Play;
    CallsAreARun(accounts, c.start, c.found, c.calls);
    PlayIsRun(r, |r.events|);
  }

  /** In the whole server files are removed by a QUIT in a transaction and nothing else, and only pending messages. */
  lemma ServerRemovesByQuit(accounts: seq<Account>, sv: Server, hs: seq<Happening>, c: Connection)
    requires Begins(sv) && PossibleRun(accounts, sv, hs)
    requires c in After(accounts, sv, hs).live || c in After(accounts, sv, hs).gone
    ensures var r := SessionRun(accounts, c);
            && Starts(r.start)
            && ((forall q :: 0 <= q < |r.events| ==> !QuitsInTransaction(r, q)) ==> c.now.removed == [])
            && (forall q {:trigger QuitsInTransaction(r, q)} :: 0 <= q < |r.events| && QuitsInTransaction(r, q) ==>
                  exists ns :: RemovesPending(r, q, ns))
  {
    EverySessionIsARun(accounts, sv, hs, c);
    hide *;
    OnlyQuitRemoves(SessionRun(accounts, c));
  }

  // The table under the sessions

  /** What a possible run of the table that ends sessions properly amounts to. */
  ghost predicate LeadsTo(t: Connections.Table, es: seq<Connections.Event>, u: Connections.Table)
    requires Connections.Aligned(t)
  {
    && Connections.PossibleRun(t, es) && Connections.Run(t, es) == u
    && Connections.OnlyEndedLeave(t, es) && Connections.EndsClean(es)
  }

  lemma LeadsOn(t: Connections.Table, a: seq<Connections.Event>, u: Connections.Table,
                b: seq<Connections.Event>, v: Connections.Table)
    requires Connections.Aligned(t) && LeadsTo(t, a, u) && Connections.Aligned(u) && LeadsTo(u, b, v)
    ensures LeadsTo(t, a + b, v)
  {
    Connections.RunConcat(t, a, b);
    Connections.LeaveConcat(t, a, b);
    hide Connections.PossibleRun;
    hide Connections.Run;
    hide Connections.OnlyEndedLeave;
  }

  lemma LeadsOne(t: Connections.Table, e: Connections.Event)
    requires Connections.Aligned(t) && Connections.Possible(t, e)
    requires e.Remove? ==> Connections.Ended(t.clients[e.k].mode)
    requires e.Serve? && Connections.Ended(e.mode) ==> e.leftover == []
    ensures LeadsTo(t, [e], Connections.Step(t, e))
  {
    Connections.RunOne(t, e);
    hide Connections.PossibleRun;
    hide Connections.Run;
    hide Connections.OnlyEndedLeave;
    hide Connections.Step;
  }

  lemma ServiceIsTableRun(t: Connections.Table, k: nat, mode: Mode, rest: seq<byte>, moved: bool, entry: int)
    requires Connections.Aligned(t) && k < t.count && (Connections.Ended(mode) ==> rest == [])
    ensures LeadsTo(t, EventsOfService(k, mode, rest, moved, entry), TableAfter(t, k, mode, rest, moved, entry))
  {
    var serve, bind, remove := Connections.Serve(k, mode, rest), Connections.Rebind(entry), Connections.Remove(k);
    var served := Connections.Step(t, serve);
    var bound := if moved then Connections.Step(served, bind) else served;
    assert served.clients[k].mode == mode == bound.clients[k].mode;
    LeadsOne(t, serve);
    if moved {
      LeadsOne(served, bind);
      LeadsOn(t, [serve], served, [bind], bound);
    }
    var es := if moved then [serve] + [bind] else [serve];
    if Connections.Ended(mode) {
      LeadsOne(bound, remove);
      LeadsOn(t, es, bound, [remove], Connections.Step(bound, remove));
    }
    hide LeadsTo;
    hide Connections.Step;
    hide Connections.Aligned;
    assert EventsOfService(k, mode, rest, moved, entry) == es + if Connections.Ended(mode) then [remove] else [];
    assert es + [] == es;
  }

  lemma StepIsTableRun(accounts: seq<Account>, sv: Server, h: Happening)
    requires Good(accounts, sv) && CanHappen(sv, h)
    ensures LeadsTo(sv.table, TableEvents(accounts, sv, h), Step(accounts, sv, h).table)
  {
    match h
    case Arrives(sock, manager) =>
      Connections.RunOne(sv.table, Connections.Accept(sock, manager));
      hide Connections.Step;
      hide Good;
    case HasInput(k, received, disk, entry) =>
      var (t, said, rest) := Answered(accounts, sv, k, received, disk);
      ServiceOf(accounts, sv, h);
      ServiceIsTableRun(sv.table, k, t.mode, rest, t.rebinds != sv.live[k].now.rebinds, entry);
      hide Connections.Step;
      hide Good;
      hide IsRun;
      hide OwnEffect;
      hide Answered;
      hide TableAfter;
      hide EventsOfService;
      hide LeftoverAfter;
  }

  /** The server's table is a run of the table in which whoever leaves had ended, and left no partial line. */
  lemma {:induction false} ServerIsATableRun(accounts: seq<Account>, sv: Server, hs: seq<Happening>)
    requires Good(accounts, sv) && PossibleRun(accounts, sv, hs)
    ensures LeadsTo(sv.table, TableRun(accounts, sv, hs), After(accounts, sv, hs).table)
    decreases |hs|
  {
    if hs == [] {
      Connections.RunNone(sv.table);
    } else {
      var next := Step(accounts, sv, hs[0]);
      StepKeepsGood(accounts, sv, hs[0]);
      StepIsTableRun(accounts, sv, hs[0]);
      hide Good;
      hide Step;
      hide CanHappen;
      hide TableEvents;
      hide LeadsTo;
      ServerIsATableRun(accounts, next, hs[1..]);
      LeadsOn(sv.table, TableEvents(accounts, sv, hs[0]), next.table,
              TableRun(accounts, next, hs[1..]), After(accounts, next, hs[1..]).table);
    }
  }

  /**
   * Over every run of the server, what the next client finds in its slot is a partial line if and only
   * if the last removal that freed the slot moved out of it a client in the middle of one.
   */
  lemma NewSessionStartsMidLineIff(accounts: seq<Account>, sv: Server, hs: seq<Happening>, sock: int, manager: bool)
    requires Begins(sv) && Connections.NoPartialLines(sv.table) && PossibleRun(accounts, sv, hs)
    requires CanHappen(After(accounts, sv, hs), Arrives(sock, manager))
    ensures var u, es := After(accounts, sv, hs), TableRun(accounts, sv, hs);
            var live := Step(accounts, u, Arrives(sock, manager)).live;
            && Connections.PossibleRun(sv.table, es)
            && live != [] && live[|live| - 1].calls == []
            && (live[|live| - 1].found != [] <==> exists j: nat :: Connections.LeftMidLine(sv.table, es, u.table.count, j))
  {
    BeginsGood(accounts, sv);
    ServerIsATableRun(accounts, sv, hs);
    Connections.NewClientStartsMidLineIff(sv.table, TableRun(accounts, sv, hs), sock, manager);
    hide Connections.LeftMidLine;
    hide Connections.PossibleRun;
    hide Connections.OnlyEndedLeave;
    hide Connections.Run;
  }

  // Settings, listener and counters of the whole server

  ghost predicate NobodyManages(live: seq<Connection>) {
    forall k :: 0 <= k < |live| ==> live[k].now.mode != Manager
  }

  ghost predicate OnlyUsersArrive(hs: seq<Happening>) {
    forall i :: 0 <= i < |hs| && hs[i].Arrives? ==> !hs[i].manager
  }

  lemma EntryKept(t: Connections.Table, k: nat, mode: Mode, rest: seq<byte>, entry: int)
    requires Connections.Aligned(t) && k < t.count
    ensures TableAfter(t, k, mode, rest, false, entry).fds[0] == t.fds[0]
  {
  }

  lemma UsersAreTold(live: seq<Connection>, config: Config, counters: Counters, k: nat, c: Connection)
    requires NobodyManages(live) && k < |live| && c.now.mode != Manager
    ensures var told := AllTold(live, config, counters)[k := c];
            NobodyManages(told) && NobodyManages(Without(told, k))
  {
  }

  lemma UsersStep(accounts: seq<Account>, sv: Server, h: Happening)
    requires Good(accounts, sv) && CanHappen(sv, h) && NobodyManages(sv.live) && (h.Arrives? ==> !h.manager)
    ensures var sv' := Step(accounts, sv, h);
            NobodyManages(sv'.live) && sv'.config == sv.config && sv'.table.fds[0] == sv.table.fds[0]
  {
    match h
    case Arrives(_, _) =>
      hide Alive;
    case HasInput(k, received, disk, entry) =>
      var (t, said, rest) := Answered(accounts, sv, k, received, disk);
      var c := sv.live[k].(now := t, calls := sv.live[k].calls + [Call.Call(received, disk)]);
      ServiceOf(accounts, sv, h);
      EntryKept(sv.table, k, t.mode, rest, entry);
      hide Good;
      hide IsRun;
      hide Answered;
      hide TableAfter;
      hide AllTold;
      hide LeftoverAfter;
      assert sv.live[k].now.mode != Manager;
      hide NobodyManages;
      UsersAreTold(sv.live, t.config, t.counters, k, c);
  }

  /** Without a manager no setting of the server changes and its first listener stays, whatever users send. */
  lemma {:induction false} UsersConfigureNothing(accounts: seq<Account>, sv: Server, hs: seq<Happening>)
    requires Good(accounts, sv) && PossibleRun(accounts, sv, hs) && NobodyManages(sv.live) && OnlyUsersArrive(hs)
    ensures var sv' := After(accounts, sv, hs);
            NobodyManages(sv'.live) && sv'.config == sv.config && sv'.table.fds[0] == sv.table.fds[0]
    decreases |hs|
  {
    if hs != [] {
      StepKeepsGood(accounts, sv, hs[0]);
      UsersStep(accounts, sv, hs[0]);
      hide Good;
      hide Step;
      hide CanHappen;
      hide NobodyManages;
      UsersConfigureNothing(accounts, Step(accounts, sv, hs[0]), hs[1..]);
    }
  }

  /** The accepts of a run of the server. */
  function Arrivals(hs: seq<Happening>): seq<Connections.Event> {
    if hs == [] then []
    else (if hs[0].Arrives? then [Connections.Accept(hs[0].sock, hs[0].manager)] else []) + Arrivals(hs[1..])
  }

  lemma NoArrivalInService(k: nat, mode: Mode, rest: seq<byte>, moved: bool, entry: int)
    ensures Connections.Admissions(EventsOfService(k, mode, rest, moved, entry)) == []
  {
    var serve := [Connections.Serve(k, mode, rest)];
    var bind := if moved then [Connections.Rebind(entry)] else [];
    var remove := if Connections.Ended(mode) then [Connections.Remove(k)] else [];
    Connections.AdmissionsConcat(serve, bind);
    Connections.AdmissionsConcat(serve + bind, remove);
    assert serve[1..] == [] && (moved ==> bind[1..] == []) && (Connections.Ended(mode) ==> remove[1..] == []);
  }

  lemma AdmissionsOfStep(accounts: seq<Account>, sv: Server, h: Happening)
    requires Fits(sv) && CanHappen(sv, h)
    ensures Connections.Admissions(TableEvents(accounts, sv, h))
            == if h.Arrives? then [Connections.Accept(h.sock, h.manager)] else []
  {
    match h
    case Arrives(sock, manager) =>
      assert [Connections.Accept(sock, manager)][1..] == [];
    case HasInput(k, received, disk, entry) =>
      var (t, said, rest) := Answered(accounts, sv, k, received, disk);
      NoArrivalInService(k, t.mode, rest, t.rebinds != sv.live[k].now.rebinds, entry);
  }

  lemma {:induction false} ArrivalsAreAdmissions(accounts: seq<Account>, sv: Server, hs: seq<Happening>)
    requires Fits(sv) && PossibleRun(accounts, sv, hs)
    ensures Connections.Admissions(TableRun(accounts, sv, hs)) == Arrivals(hs)
    decreases |hs|
  {
    if hs != [] {
      var h, next := hs[0], Step(accounts, sv, hs[0]);
      AdmissionsOfStep(accounts, sv, h);
      hide Step;
      hide CanHappen;
      hide TableEvents;
      hide Connections.Admissions;
      ArrivalsAreAdmissions(accounts, next, hs[1..]);
      Connections.AdmissionsConcat(TableEvents(accounts, sv, h), TableRun(accounts, next, hs[1..]));
    }
  }

  lemma {:induction false} ArrivalIn(hs: seq<Happening>, i: nat)
    requires i < |hs| && hs[i].Arrives?
    ensures Connections.Accept(hs[i].sock, hs[i].manager) in Arrivals(hs)
    decreases |hs|
  {
    if i > 0 {
      ArrivalIn(hs[1..], i - 1);
    }
  }

  /**
   * A poll pass in which nobody calls at the second listener brings users only, and so changes no
   * setting and leaves the first listener, unless a manager was there before.
   */
  lemma PassOfUsersConfiguresNothing(accounts: seq<Account>, sv: Server, hs: seq<Happening>, os: PollTurns.System,
                                     managerSocket: int, ready: seq<bool>, serverSocket: int)
    requires Good(accounts, sv) && PossibleRun(accounts, sv, hs) && NobodyManages(sv.live)
    requires var start := PollTurns.Start(sv.table, ready, serverSocket);
             && PollTurns.Healthy(managerSocket, start) && PollTurns.GivesNewSockets(os) && !ready[1]
             && TableRun(accounts, sv, hs) == PollTurns.Pass(os, managerSocket, start).es
    ensures var sv' := After(accounts, sv, hs);
            NobodyManages(sv'.live) && sv'.config == sv.config && sv'.table.fds[0] == sv.table.fds[0]
  {
    PollTurns.OnlyUsersAdmitted(os, managerSocket, sv.table, ready, serverSocket);
    ArrivalsAreAdmissions(accounts, sv, hs);
    hide PollTurns.Pass;
    hide PollTurns.Healthy;
    hide PollTurns.GivesNewSockets;
    hide TableRun;
    hide PossibleRun;
    hide After;
    hide Arrivals;
    hide NobodyManages;
    forall i | 0 <= i < |hs| && hs[i].Arrives?
      ensures !hs[i].manager
    {
      ArrivalIn(hs, i);
    }
    hide Good;
    UsersConfigureNothing(accounts, sv, hs);
  }

  /** What the counters show beyond what was sent. */
  function Surplus(sv: Server): (int, int) {
    (sv.counters.messages - MessagesSent(sv.sent), sv.counters.octets - OctetsSent(sv.sent))
  }

  lemma SurplusOf(sv: Server, was: Server, said: seq<Reply>, s: State, t: State)
    requires OwnEffect(s, t, said) && s.counters == was.counters
    requires sv.counters == t.counters && sv.sent == was.sent + said
    ensures Surplus(sv) == Surplus(was)
  {
    SentConcat(was.sent, said);
    hide MessagesSent;
    hide OctetsSent;
  }

  lemma SurplusStep(accounts: seq<Account>, sv: Server, h: Happening)
    requires Good(accounts, sv) && CanHappen(sv, h)
    ensures Surplus(Step(accounts, sv, h)) == Surplus(sv)
  {
    match h
    case Arrives(_, _) =>
      hide Good;
      hide MessagesSent;
      hide OctetsSent;
    case HasInput(k, received, disk, entry) =>
      var (t, said, rest) := Answered(accounts, sv, k, received, disk);
      var sv' := Service(sv, k, Call.Call(received, disk), t, said, rest, entry);
      assert sv'.counters == t.counters && sv'.sent == sv.sent + said;
      assert Step(accounts, sv, h) == sv';
      ServiceOf(accounts, sv, h);
      hide *;
      SurplusOf(sv', sv, said, sv.live[k].now, t);
  }

  lemma {:induction false} SurplusStays(accounts: seq<Account>, sv: Server, hs: seq<Happening>)
    requires Good(accounts, sv) && PossibleRun(accounts, sv, hs)
    ensures Surplus(After(accounts, sv, hs)) == Surplus(sv)
    decreases |hs|
  {
    if hs != [] {
      StepKeepsGood(accounts, sv, hs[0]);
      SurplusStep(accounts, sv, hs[0]);
      hide Good;
      hide Step;
      hide CanHappen;
      hide Surplus;
      SurplusStays(accounts, Step(accounts, sv, hs[0]), hs[1..]);
    }
  }

  /**
   * Over every run of a server that starts with its counters at zero, METR's figures are the messages
   * and octets announced to all clients together, the number of connections accepted, and one less
   * than the largest number of connections there were at once.
   */
  lemma CountersAreWhatWasSent(accounts: seq<Account>, sv: Server, hs: seq<Happening>)
    requires Begins(sv) && PossibleRun(accounts, sv, hs) && sv.counters == Counters(0, 0, 0, 0)
    ensures var sv', es := After(accounts, sv, hs), TableRun(accounts, sv, hs);
            && Connections.PossibleRun(sv.table, es)
            && var peak := Connections.Peak(sv.table, es);
               sv'.counters == Counters(MessagesSent(sv'.sent), OctetsSent(sv'.sent),
                                        Connections.Accepts(es), if peak == 0 then 0 else peak - 1)
  {
    BeginsGood(accounts, sv);
    SurplusStays(accounts, sv, hs);
    ServerIsATableRun(accounts, sv, hs);
    RunKeepsGood(accounts, sv, hs);
    Connections.RunMetrics(sv.table, TableRun(accounts, sv, hs));
    hide PossibleRun;
    hide After;
    hide TableRun;
    hide Connections.PossibleRun;
    hide Connections.OnlyEndedLeave;
    hide Connections.Run;
    hide Connections.Peak;
    hide AllAlive;
    hide AllOver;
  }
}
