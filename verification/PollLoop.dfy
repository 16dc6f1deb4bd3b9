/** The loop of main in src/server/main.c over the poll entries, on the arrays themselves. */
module PollLoop {
  import opened Modes
  import opened Connections
  import opened PollTurns

  /** The arrays hold what the pass has come to. */
  ghost predicate Matches(s: Server, p: Place)
    reads s, s.clients, s.fds, s.ready
  {
    s.Valid() && s.View() == p.t && s.ready[..] == p.ready && s.serverSocket == p.server
  }

  function InUse(s: Server): set<int>
    requires s.count <= s.clients.Length
    reads s, s.clients
  {
    Used(s.clients[..s.count], s.serverSocket, s.managerSocket)
  }

  /** A listener with a pending connection: accept, then add_client. */
  method AcceptOn(s: Server, os: System, accepts: nat, i: nat, ghost p: Place) returns (overrun: bool, ghost q: Place)
    requires Matches(s, p) && i < 2 && p.i == i && p.accepts == accepts && !p.overrun
    modifies s`count, s`total, s`most, s.clients, s.fds, s.ready
    ensures q == ListenerTurn(os, s.managerSocket, p) && Matches(s, q) && overrun == q.overrun
    ensures q.i == i + 1 && q.accepts == accepts + 1 && q.serves == p.serves
    ensures old(s.count) <= s.count <= old(s.count) + 1
    ensures Healthy(s.managerSocket, p) && p.ready[i] && s.count > old(s.count) ==>
              s.clients[old(s.count)].mode == if i == 0 then Authorization else Manager
  {
    q := ListenerTurn(os, s.managerSocket, p);
    if Healthy(s.managerSocket, p) && p.ready[i] {
      AcceptedAs(os, s.managerSocket, p);
    }
    hide Step;
    s.ready[i] := false;
    assert s.ready[..] == p.ready[i := false];
    overrun := false;
    var sock := os.accept(accepts, InUse(s));
    if sock >= 0 {
      var outcome := s.AddClient(sock, s.fds[i] == s.managerSocket);
      overrun := outcome == Overrun;
    }
  }

  /** PORT or IPV6 lines replaced the first listener, or failed and left none in its entry. */
  method UpdateListener(s: Server, listener: Listener)
    requires s.Valid() && listener.Updated?
    modifies s.fds, s`serverSocket
    ensures s.Valid() && s.View() == Step(old(s.View()), Rebind(ListenerEntry(listener, old(s.serverSocket))))
    ensures s.serverSocket == ServerSocket(listener, old(s.serverSocket))
  {
    ghost var t := s.View();
    if listener.socket.Some? {
      s.serverSocket := listener.socket.value;
    }
    s.fds[0] := if listener.up then s.serverSocket else -1;
    assert s.View() == Step(t, Rebind(s.fds[0]));
  }

  /** handle_client for the client at entry i. */
  method ServeClient(s: Server, os: System, serves: nat, i: nat, ghost p: Place) returns (ghost q: Place)
    requires Matches(s, p) && 2 <= i < s.count + 2 && p.i == i && p.serves == serves
    modifies s.clients, s.fds, s`serverSocket, s.ready
    ensures q == AfterService(os, s.managerSocket, p) && Matches(s, q)
    ensures var served := os.serve(serves, old(s.clients[i - 2]), old(InUse(s)));
            && s.clients[i - 2] == Client(old(s.clients[i - 2].sock), served.mode, served.leftover)
            && match served.listener
               case Untouched => s.serverSocket == old(s.serverSocket) && s.fds[0] == old(s.fds[0])
               case Updated(None, up) =>
                 s.serverSocket == old(s.serverSocket) && s.fds[0] == if up then s.serverSocket else -1
               case Updated(Some(socket), up) => s.serverSocket == socket && s.fds[0] == if up then socket else -1
  {
    q := AfterService(os, s.managerSocket, p);
    ListenerAfterService(os, s.managerSocket, p);
    s.ready[i] := false;
    assert s.ready[..] == p.ready[i := false];
    var c := s.clients[i - 2];
    var served := os.serve(serves, c, InUse(s));
    s.clients[i - 2] := Client(c.sock, served.mode, served.leftover);
    assert s.View() == Step(p.t, Serve(i - 2, served.mode, served.leftover));
    if served.listener.Updated? {
      UpdateListener(s, served.listener);
    }
  }

  /** Serving the client at entry i, and handle_close_client if that ended its session. */
  method ServeAt(s: Server, os: System, serves: nat, i: nat, ghost p: Place) returns (removed: bool, ghost q: Place)
    requires Matches(s, p) && 2 <= i < s.count + 2 && p.i == i && p.serves == serves
    modifies s`count, s.clients, s.fds, s`serverSocket, s.ready
    ensures q == ClientTurn(os, s.managerSocket, p) && Matches(s, q)
    ensures q.i == (if removed then i else i + 1) && q.serves == serves + 1
    ensures q.accepts == p.accepts && q.overrun == p.overrun
    ensures s.count == old(s.count) - if removed then 1 else 0
    ensures var served := os.serve(serves, old(s.clients[i - 2]), old(InUse(s)));
            && (removed <==> served.mode == Error || served.mode == Closing)
            && (!removed ==> s.clients[i - 2] == Client(old(s.clients[i - 2].sock), served.mode, served.leftover))
  {
    q := ClientTurn(os, s.managerSocket, p);
    ghost var r := ServeClient(s, os, serves, i, p);
    hide AfterService;
    hide Step;
    removed := false;
    if s.clients[i - 2].mode == Error || s.clients[i - 2].mode == Closing {
      s.CloseClient(i);
      removed := true;
    }
  }

  /** The test for a listener by socket number tells the two kinds of entries apart. */
  lemma EntryKind(s: Server, p: Place)
    requires Matches(s, p) && Healthy(s.managerSocket, p) && p.i < s.count + 2 && p.ready[p.i]
    ensures s.fds[p.i] == s.serverSocket || s.fds[p.i] == s.managerSocket <==> p.i < 2
  {
    if p.i >= 2 {
      var live := Live(p.t);
      assert live[p.i - 2] == p.t.clients[p.i - 2] && p.t.fds[p.i] == live[p.i - 2].sock;
    }
  }

  /**
   * One pass over the poll entries, `i--` included. It makes exactly the turns of Pass, with the n-th
   * accept and the n-th handle_client as the system answers them; PassGuarantees says what that is worth.
   */
  method PollPass(s: Server, os: System) returns (overrun: bool, ghost pass: Place)
    requires s.Valid() && GivesNewSockets(os)
    requires Healthy(s.managerSocket, Start(s.View(), s.ready[..], s.serverSocket))
    modifies s, s.clients, s.fds, s.ready
    ensures pass == Pass(os, s.managerSocket, Start(old(s.View()), old(s.ready[..]), old(s.serverSocket)))
    ensures Matches(s, pass) && overrun == pass.overrun
  {
    ghost var start := Start(s.View(), s.ready[..], s.serverSocket);
    ghost var p := start;
    overrun := false;
    var accepts, serves, i := 0, 0, 0;
    hide ListenerTurn;
    hide ClientTurn;
    hide Healthy;
    hide Pass;
    hide GivesNewSockets;
    hide Aligned;
    hide Step;
    while i <= s.count + 1
      invariant 0 <= i && Matches(s, p) && Healthy(s.managerSocket, p)
      invariant p.i == i && p.accepts == accepts && p.serves == serves && !p.overrun
      invariant Pass(os, s.managerSocket, p) == Pass(os, s.managerSocket, start)
      decreases if i < 2 then 2 - i else 0, s.count + 2 - i
    {
      PassStep(os, s.managerSocket, p);
      TurnKeepsHealthy(os, s.managerSocket, p);
      if s.ready[i] {
        EntryKind(s, p);
        if s.fds[i] == s.serverSocket || s.fds[i] == s.managerSocket {
          overrun, p := AcceptOn(s, os, accepts, i, p);
          accepts := accepts + 1;
          if overrun {
            PassOver(os, s.managerSocket, p);
            pass := p;
            return;
          }
        } else {
          var removed;
          removed, p := ServeAt(s, os, serves, i, p);
          serves := serves + 1;
          if removed {
            i := i - 1;
          }
        }
      } else {
        p := Turn(os, s.managerSocket, p);
      }
      i := i + 1;
    }
    PassOver(os, s.managerSocket, p);
    pass := p;
  }
}
