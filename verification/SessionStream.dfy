/** From the received bytes to a run: what successive handle_client calls do is one run over the lines of the stream. */
module SessionStream {
  import opened Bytes
  import opened Modes
  import opened Framing
  import opened Session
  import opened SessionRuns

  /**
   * One call of handle_client, with what recv gave and the folders on disk at that time, or a change
   * of the shared settings and counters by another session.
   */
  datatype Call = Call(received: Received, disk: Disk) | Changed(config: Config, counters: Counters)

  /** The state, the replies and the leftover after one call. */
  function HandleCall(accounts: seq<Account>, s: State, leftover: seq<byte>, call: Call): (State, seq<Reply>, seq<byte>)
    requires Sound(s)
  {
    match call
    case Call(received, disk) => HandleReceived(accounts, s, leftover, received, disk)
    case Changed(config, counters) => (s.(config := config, counters := counters), [], leftover)
  }

  /** Calls one after the other, until the session stops. */
  ghost function HandleCalls(accounts: seq<Account>, s: State, leftover: seq<byte>, calls: seq<Call>): (a: Answer)
    requires Sound(s)
    ensures Sound(a.0)
    decreases |calls|
  {
    if calls == [] || Stopped(s) then (s, [])
    else
      CallKeepsSound(accounts, s, leftover, calls[0]);
      var (t, said, rest) := HandleCall(accounts, s, leftover, calls[0]);
      var (u, more) := HandleCalls(accounts, t, rest, calls[1..]);
      (u, said + more)
  }

  lemma CallKeepsSound(accounts: seq<Account>, s: State, leftover: seq<byte>, call: Call)
    requires Sound(s)
    ensures Sound(HandleCall(accounts, s, leftover, call).0)
  {
    hide HandleLines;
    hide Extract;
  }

  /** Events one after the other: the final state and all replies. */
  ghost function Play(accounts: seq<Account>, s: State, es: seq<Event>): (a: Answer)
    requires Sound(s)
    ensures Sound(a.0)
    decreases |es|
  {
    if es == [] then (s, [])
    else
      var (t, said) := Deliver(accounts, s, es[0]);
      var (u, more) := Play(accounts, t, es[1..]);
      (u, said + more)
  }

  lemma {:induction false} PlayConcat(accounts: seq<Account>, s: State, a: seq<Event>, b: seq<Event>)
    requires Sound(s)
    ensures var (t, said) := Play(accounts, s, a);
            var (u, more) := Play(accounts, t, b);
            Play(accounts, s, a + b) == (u, said + more)
    decreases |a|
  {
    hide Deliver;
    if a == [] {
      assert a + b == b;
      var more := Play(accounts, s, b).1;
      assert [] + more == more;
    } else {
      var (t, first) := Deliver(accounts, s, a[0]);
      PlayConcat(accounts, t, a[1..], b);
      assert (a + b)[1..] == a[1..] + b;
      var (u, said) := Play(accounts, t, a[1..]);
      var more := Play(accounts, u, b).1;
      assert first + (said + more) == (first + said) + more;
    }
  }

  lemma RunSoFar(r: Run, k: nat)
    requires Sound(r.start) && k <= |r.events|
    ensures k == 0 ==> Play(r.accounts, r.start, r.events[..k]) == (Before(r, k), AllReplies(r, k))
    ensures k > 0 ==>
              && r.events[..k] == r.events[..k - 1] + [r.events[k - 1]]
              && AllReplies(r, k) == AllReplies(r, k - 1) + Replies(r, k - 1)
  {
    hide Replies;
    hide Deliver;
  }

  /** Playing the events of a run ends where the run ends. */
  lemma {:induction false} PlayIsRun(r: Run, k: nat)
    requires Sound(r.start) && k <= |r.events|
    ensures Play(r.accounts, r.start, r.events[..k]) == (Before(r, k), AllReplies(r, k))
    decreases k
  {
    hide *;
    RunSoFar(r, k);
    if k > 0 {
      var s, ev := Before(r, k - 1), r.events[k - 1];
      PlayIsRun(r, k - 1);
      PlayConcat(r.accounts, r.start, r.events[..k - 1], [ev]);
      PlayOne(r.accounts, s, ev);
      StepOfRun(r, k - 1);
    }
  }

  lemma PlayOne(accounts: seq<Account>, s: State, ev: Event)
    requires Sound(s)
    ensures Play(accounts, s, [ev]) == Deliver(accounts, s, ev)
  {
    var (t, said) := Deliver(accounts, s, ev);
    hide Deliver;
    assert Play(accounts, t, [ev][1..]) == (t, []);
    assert said + [] == said;
  }

  lemma {:induction false} PlayStopped(accounts: seq<Account>, s: State, es: seq<Event>)
    requires Sound(s) && Stopped(s)
    ensures Play(accounts, s, es) == (s, [])
    decreases |es|
  {
    if es != [] {
      assert Deliver(accounts, s, es[0]) == (s, []);
      PlayStopped(accounts, s, es[1..]);
      hide Deliver;
      assert [] + Play(accounts, s, es[1..]).1 == [];
    }
  }

  function Commands(lines: seq<Line>, disk: Disk): (es: seq<Event>)
    ensures |es| == |lines| && forall i :: 0 <= i < |es| ==> es[i] == Command(lines[i], disk)
  {
    seq(|lines|, i requires 0 <= i < |lines| => Command(lines[i], disk))
  }

  lemma {:induction false} LinesAreEvents(accounts: seq<Account>, s: State, lines: seq<Line>, disk: Disk)
    requires Sound(s)
    ensures HandleLines(accounts, s, lines, disk) == Play(accounts, s, Commands(lines, disk))
    decreases |lines|
  {
    if Stopped(s) {
      PlayStopped(accounts, s, Commands(lines, disk));
    } else if lines != [] {
      HandleKeepsSound(accounts, s, lines[0], disk);
      LinesAreEvents(accounts, Handle(accounts, s, lines[0], disk).0, lines[1..], disk);
      assert Commands(lines, disk)[1..] == Commands(lines[1..], disk);
      hide Handle;
    }
  }

  /** The events of successive calls. */
  ghost function EventsOf(leftover: seq<byte>, calls: seq<Call>): seq<Event>
    decreases |calls|
  {
    if calls == [] then []
    else EventsOfCall(leftover, calls[0]) + EventsOf(LeftoverOf(leftover, calls[0]), calls[1..])
  }

  ghost function EventsOfCall(leftover: seq<byte>, call: Call): seq<Event> {
    match call
    case Call(Bytes(chunk), disk) => Commands(Extract(leftover, chunk).lines, disk)
    case Call(Nothing, _) => []
    case Call(Closed, _) => [HangUp]
    case Changed(config, counters) => [Others(config, counters)]
  }

  /** Only received bytes leave something over; a change by another session touches nothing of it. */
  function LeftoverOf(leftover: seq<byte>, call: Call): seq<byte> {
    match call
    case Call(Bytes(chunk), _) => Extract(leftover, chunk).leftover
    case Call(_, _) => []
    case Changed(_, _) => leftover
  }

  /** The partial line after successive calls. */
  function LeftoverAfter(found: seq<byte>, calls: seq<Call>): seq<byte>
    decreases |calls|
  {
    if calls == [] then found else LeftoverAfter(LeftoverOf(found, calls[0]), calls[1..])
  }

  lemma CallIsEvents(accounts: seq<Account>, s: State, leftover: seq<byte>, call: Call)
    requires Sound(s) && !Stopped(s)
    ensures var (t, said, rest) := HandleCall(accounts, s, leftover, call);
            && (t, said) == Play(accounts, s, EventsOfCall(leftover, call))
            && (!Stopped(t) ==> rest == LeftoverOf(leftover, call))
  {
    match call
    case Call(Bytes(chunk), disk) =>
      LinesAreEvents(accounts, s, Extract(leftover, chunk).lines, disk);
      hide Extract;
      hide HandleLines;
      hide Play;
    case Call(Nothing, _) =>
    case Call(Closed, _) =>
      PlayOne(accounts, s, HangUp);
    case Changed(config, counters) =>
      PlayOne(accounts, s, Others(config, counters));
  }

  lemma FirstCallGoesOn(accounts: seq<Account>, s: State, found: seq<byte>, calls: seq<Call>)
    requires Sound(s) && calls != [] && !Stopped(HandleCalls(accounts, s, found, calls).0)
    ensures !Stopped(s) && !Stopped(HandleCall(accounts, s, found, calls[0]).0)
  {
    CallKeepsSound(accounts, s, found, calls[0]);
    hide HandleCall;
  }

  /** One call more continues where the calls so far ended, if they did not end the session. */
  lemma {:induction false} OneMoreCall(accounts: seq<Account>, s: State, found: seq<byte>, calls: seq<Call>, call: Call)
    requires Sound(s) && !Stopped(HandleCalls(accounts, s, found, calls).0)
    ensures LeftoverAfter(found, calls + [call]) == LeftoverOf(LeftoverAfter(found, calls), call)
    ensures HandleCalls(accounts, s, found, calls + [call]).0
            == HandleCall(accounts, HandleCalls(accounts, s, found, calls).0, LeftoverAfter(found, calls), call).0
    decreases |calls|
  {
    var longer := calls + [call];
    if calls == [] {
      assert longer[1..] == [];
      hide LeftoverOf;
      hide HandleCall;
    } else {
      assert longer[0] == calls[0] && longer[1..] == calls[1..] + [call];
      CallKeepsSound(accounts, s, found, calls[0]);
      CallIsEvents(accounts, s, found, calls[0]);
      var (t, said, rest) := HandleCall(accounts, s, found, calls[0]);
      FirstCallGoesOn(accounts, s, found, calls);
      hide LeftoverOf;
      hide HandleCall;
      hide Play;
      OneMoreCall(accounts, t, rest, calls[1..], call);
    }
  }

  /**
   * Whatever recv returns, and whatever other sessions change in between, successive calls are a run
   * over the commands extracted from the bytes.
   */
  lemma {:induction false} CallsAreARun(accounts: seq<Account>, s: State, leftover: seq<byte>, calls: seq<Call>)
    requires Sound(s)
    ensures HandleCalls(accounts, s, leftover, calls) == Play(accounts, s, EventsOf(leftover, calls))
    decreases |calls|
  {
    if Stopped(s) {
      PlayStopped(accounts, s, EventsOf(leftover, calls));
    } else if calls != [] {
      var call, later := calls[0], calls[1..];
      CallKeepsSound(accounts, s, leftover, call);
      var (t, said, rest) := HandleCall(accounts, s, leftover, call);
      CallIsEvents(accounts, s, leftover, call);
      CallsAreARun(accounts, t, rest, later);
      hide EventsOfCall;
      hide LeftoverOf;
      hide HandleCall;
      hide Deliver;
      PlayConcat(accounts, s, EventsOfCall(leftover, call), EventsOf(LeftoverOf(leftover, call), later));
      if Stopped(t) {
        PlayStopped(accounts, t, EventsOf(LeftoverOf(leftover, call), later));
        PlayStopped(accounts, t, EventsOf(rest, later));
      }
    }
  }

  // The stream without its cuts

  /** What reaches a session, byte by byte: the folders on disk are those of the moment the byte is received. */
  datatype Input = Byte(b: byte, disk: Disk) | End | Change(config: Config, counters: Counters)

  function Tagged(chunk: seq<byte>, disk: Disk): (r: seq<Input>)
    ensures |r| == |chunk| && forall i :: 0 <= i < |r| ==> r[i] == Byte(chunk[i], disk)
  {
    seq(|chunk|, i requires 0 <= i < |chunk| => Byte(chunk[i], disk))
  }

  function InputsOf(call: Call): seq<Input> {
    match call
    case Call(Bytes(chunk), disk) => Tagged(chunk, disk)
    case Call(Nothing, _) => []
    case Call(Closed, _) => [End]
    case Changed(config, counters) => [Change(config, counters)]
  }

  ghost function Inputs(calls: seq<Call>): seq<Input>
    decreases |calls|
  {
    if calls == [] then [] else InputsOf(calls[0]) + Inputs(calls[1..])
  }

  /** What a session that knows nothing of recv does: it collects bytes, and handles a line when its line feed comes. */
  ghost function Listen(accounts: seq<Account>, s: State, line: seq<byte>, inputs: seq<Input>): (a: Answer)
    requires Sound(s)
    ensures Stopped(s) ==> a == (s, [])
    decreases |inputs|
  {
    if inputs == [] || Stopped(s) then (s, [])
    else
      match inputs[0]
      case Byte(b, disk) =>
        if b != LF then Listen(accounts, s, line + [b], inputs[1..])
        else
          HandleKeepsSound(accounts, s, StripCr(line), disk);
          var (t, said) := Handle(accounts, s, StripCr(line), disk);
          var (u, more) := Listen(accounts, t, [], inputs[1..]);
          (u, said + more)
      case End => (s.(mode := Closing), [])
      case Change(config, counters) => Listen(accounts, s.(config := config, counters := counters), line, inputs[1..])
  }

  /** Every call made before the session ends treats the stream as it should. */
  ghost predicate SmoothCalls(leftover: seq<byte>, calls: seq<Call>)
    decreases |calls|
  {
    calls == [] ||
    match calls[0]
    case Call(Bytes(chunk), _) =>
      var e := Extract(leftover, chunk);
      Smooth(leftover, chunk) && (HasFinal(e.lines) || SmoothCalls(e.leftover, calls[1..]))
    case Call(Nothing, _) => leftover == [] && SmoothCalls([], calls[1..])
    case Call(Closed, _) => true
    case Changed(_, _) => SmoothCalls(leftover, calls[1..])
  }

  /** A chunk byte by byte is its lines one by one, followed by what the rest continues. */
  ghost predicate HeardAsLines(accounts: seq<Account>, s: State, line: seq<byte>, chunk: seq<byte>,
                               disk: Disk, later: seq<Input>)
    requires Sound(s)
  {
    var e := Split(line + chunk);
    var done := HandleLines(accounts, s, e.lines, disk);
    var rest := Listen(accounts, done.0, e.leftover, later);
    Listen(accounts, s, line, Tagged(chunk, disk) + later) == (rest.0, done.1 + rest.1)
  }

  lemma HearNothing(accounts: seq<Account>, s: State, line: seq<byte>, disk: Disk, later: seq<Input>)
    requires Sound(s) && LF !in line
    ensures HeardAsLines(accounts, s, line, [], disk, later)
  {
    assert line + [] == line && Tagged([], disk) + later == later;
    SplitWithoutLf(line);
    hide Split;
    hide Listen;
    var more := Listen(accounts, s, line, later).1;
    assert [] + more == more;
  }

  lemma HearNoMore(accounts: seq<Account>, s: State, line: seq<byte>, chunk: seq<byte>, disk: Disk, later: seq<Input>)
    requires Sound(s) && Stopped(s)
    ensures HeardAsLines(accounts, s, line, chunk, disk, later)
  {
    hide Split;
    var none := Listen(accounts, s, Split(line + chunk).leftover, later).1;
    assert none == [] && none + none == none;
  }

  lemma HearByte(accounts: seq<Account>, s: State, line: seq<byte>, b: byte, chunk: seq<byte>,
                 disk: Disk, later: seq<Input>)
    requires Sound(s) && !Stopped(s) && b != LF && HeardAsLines(accounts, s, line + [b], chunk, disk, later)
    ensures HeardAsLines(accounts, s, line, [b] + chunk, disk, later)
  {
    var inputs := Tagged([b] + chunk, disk) + later;
    assert line + ([b] + chunk) == (line + [b]) + chunk;
    assert inputs[0] == Byte(b, disk) && inputs[1..] == Tagged(chunk, disk) + later;
    hide Split;
    hide HandleLines;
  }

  lemma ListenToFeed(accounts: seq<Account>, s: State, line: seq<byte>, chunk: seq<byte>, disk: Disk, later: seq<Input>)
    requires Sound(s) && !Stopped(s) && Sound(Handle(accounts, s, StripCr(line), disk).0)
    ensures var done := Handle(accounts, s, StripCr(line), disk);
            var rest := Listen(accounts, done.0, [], Tagged(chunk, disk) + later);
            Listen(accounts, s, line, Tagged([LF] + chunk, disk) + later) == (rest.0, done.1 + rest.1)
  {
    var inputs := Tagged([LF] + chunk, disk) + later;
    assert inputs[0] == Byte(LF, disk) && inputs[1..] == Tagged(chunk, disk) + later;
    hide Handle;
    hide StripCr;
  }

  lemma FirstLine(accounts: seq<Account>, s: State, first: Line, lines: seq<Line>, disk: Disk)
    requires Sound(s) && !Stopped(s) && Sound(Handle(accounts, s, first, disk).0)
    ensures var done := Handle(accounts, s, first, disk);
            var rest := HandleLines(accounts, done.0, lines, disk);
            HandleLines(accounts, s, [first] + lines, disk) == (rest.0, done.1 + rest.1)
  {
    assert ([first] + lines)[1..] == lines;
    hide Handle;
  }

  lemma SplitAtFeed(line: seq<byte>, chunk: seq<byte>)
    requires LF !in line
    ensures var e := Split([] + chunk);
            Split(line + ([LF] + chunk)) == Extraction([StripCr(line)] + e.lines, e.leftover)
  {
    var whole := line + ([LF] + chunk);
    assert whole[..|line|] == line && whole[|line|] == LF && whole[|line| + 1..] == chunk == [] + chunk;
    hide Split;
    SplitStep(whole, |line|);
  }

  lemma HearLine(accounts: seq<Account>, s: State, line: seq<byte>, chunk: seq<byte>, disk: Disk, later: seq<Input>)
    requires Sound(s) && !Stopped(s) && LF !in line && Sound(Handle(accounts, s, StripCr(line), disk).0)
    requires HeardAsLines(accounts, Handle(accounts, s, StripCr(line), disk).0, [], chunk, disk, later)
    ensures HeardAsLines(accounts, s, line, [LF] + chunk, disk, later)
  {
    var first, e := Handle(accounts, s, StripCr(line), disk), Split([] + chunk);
    hide *;
    SplitAtFeed(line, chunk);
    ListenToFeed(accounts, s, line, chunk, disk, later);
    FirstLine(accounts, s, StripCr(line), e.lines, disk);
    var next := HandleLines(accounts, first.0, e.lines, disk);
    var rest := Listen(accounts, next.0, e.leftover, later);
    HeardWhen(accounts, first.0, [], chunk, disk, later, e, next, rest);
    Regroup(first.1, next.1, rest.1);
    var whole := Split(line + ([LF] + chunk));
    HeardWhen(accounts, s, line, [LF] + chunk, disk, later, whole, (next.0, first.1 + next.1), rest);
  }

  lemma Regroup(a: seq<Reply>, b: seq<Reply>, c: seq<Reply>)
    ensures a + (b + c) == (a + b) + c
  {
  }

  lemma HeardWhen(accounts: seq<Account>, s: State, line: seq<byte>, chunk: seq<byte>, disk: Disk, later: seq<Input>,
                  e: Extraction, done: Answer, rest: Answer)
    requires Sound(s) && Sound(done.0) && e == Split(line + chunk)
    requires done == HandleLines(accounts, s, e.lines, disk) && rest == Listen(accounts, done.0, e.leftover, later)
    ensures HeardAsLines(accounts, s, line, chunk, disk, later)
            <==> Listen(accounts, s, line, Tagged(chunk, disk) + later) == (rest.0, done.1 + rest.1)
  {
    hide Split;
    hide HandleLines;
    hide Listen;
  }

  lemma {:induction false} ListenToChunk(accounts: seq<Account>, s: State, line: seq<byte>, chunk: seq<byte>, disk: Disk,
                                         later: seq<Input>)
    requires Sound(s) && LF !in line
    ensures HeardAsLines(accounts, s, line, chunk, disk, later)
    decreases |chunk|
  {
    hide *;
    if chunk == [] {
      HearNothing(accounts, s, line, disk, later);
    } else if Stopped(s) {
      HearNoMore(accounts, s, line, chunk, disk, later);
    } else {
      assert chunk == [chunk[0]] + chunk[1..];
      if chunk[0] != LF {
        ListenToChunk(accounts, s, line + [chunk[0]], chunk[1..], disk, later);
        HearByte(accounts, s, line, chunk[0], chunk[1..], disk, later);
      } else {
        HandleKeepsSound(accounts, s, StripCr(line), disk);
        ListenToChunk(accounts, Handle(accounts, s, StripCr(line), disk).0, [], chunk[1..], disk, later);
        HearLine(accounts, s, line, chunk[1..], disk, later);
      }
    }
  }

  lemma NothingMore(later: seq<Input>, replies: seq<Reply>)
    ensures [] + later == later && [] + replies == replies
  {
  }

  /**
   * However a stream of bytes is cut into calls, whatever is on disk as they come and whatever other
   * sessions change in between: as long as every call is smooth, the session ends in the same state
   * and gives the same replies as one that handles each line when its line feed comes.
   */
  lemma {:induction false} StreamIsHandledLineByLine(accounts: seq<Account>, s: State, leftover: seq<byte>, calls: seq<Call>)
    requires Sound(s) && Incomplete(leftover) && SmoothCalls(leftover, calls)
    ensures HandleCalls(accounts, s, leftover, calls) == Listen(accounts, s, leftover, Inputs(calls))
    decreases |calls|
  {
    hide Split;
    hide Extract;
    hide Smooth;
    hide HasFinal;
    hide HandleLines;
    if calls != [] && !Stopped(s) {
      var later := Inputs(calls[1..]);
      match calls[0]
      case Call(Bytes(chunk), disk) =>
        var e := Extract(leftover, chunk);
        CallIsFaithfulIff(leftover, chunk);
        ExtractKeepsIncomplete(leftover, chunk);
        ListenToChunk(accounts, s, leftover, chunk, disk, later);
        LinesAfterFinalAreIgnored(accounts, s, e.lines, disk);
        var t := HandleLines(accounts, s, e.lines, disk).0;
        if !Stopped(t) {
          StreamIsHandledLineByLine(accounts, t, e.leftover, calls[1..]);
        }
      case Call(Nothing, _) =>
        StreamIsHandledLineByLine(accounts, s, [], calls[1..]);
        NothingMore(later, HandleCalls(accounts, s, [], calls[1..]).1);
      case Call(Closed, _) =>
        NothingMore(later, HandleCalls(accounts, s.(mode := Closing), [], calls[1..]).1);
        assert ([End] + later)[0] == End;
      case Changed(config, counters) =>
        var t := s.(config := config, counters := counters);
        StreamIsHandledLineByLine(accounts, t, leftover, calls[1..]);
        NothingMore(later, HandleCalls(accounts, t, leftover, calls[1..]).1);
        assert ([Change(config, counters)] + later)[1..] == later;
    }
  }

  /** Two ways of cutting the same stream, both smooth, are told apart by nothing. */
  lemma CutsDoNotMatter(accounts: seq<Account>, s: State, calls: seq<Call>, others: seq<Call>)
    requires Sound(s) && Inputs(calls) == Inputs(others) && SmoothCalls([], calls) && SmoothCalls([], others)
    ensures HandleCalls(accounts, s, [], calls) == HandleCalls(accounts, s, [], others)
  {
    StreamIsHandledLineByLine(accounts, s, [], calls);
    StreamIsHandledLineByLine(accounts, s, [], others);
  }

  // A session that begins with somebody else's partial line

  /** The first thing received is bytes, with a line feed in what the scan sees of them. */
  ghost predicate ContinuesLine(calls: seq<Call>)
    decreases |calls|
  {
    calls != [] &&
    match calls[0]
    case Call(Bytes(chunk), _) => LF in CString(chunk)
    case Call(_, _) => false
    case Changed(_, _) => ContinuesLine(calls[1..])
  }

  /**
   * A session that begins with a partial line in its slot runs exactly the commands of its own bytes,
   * unless the first thing it receives ends that line.
   */
  lemma {:induction false} OwnCommandsIff(leftover: seq<byte>, calls: seq<Call>)
    requires leftover != []
    ensures EventsOf(leftover, calls) == EventsOf([], calls) <==> !ContinuesLine(calls)
    decreases |calls|
  {
    if calls != [] {
      match calls[0]
      case Call(Bytes(chunk), disk) =>
        var c := CString(chunk);
        LfAtIncomplete(c);
        if LF in c {
          var line := StripCr(c[..LfAt(c)]);
          assert |leftover + line| > |[] + line|;
          assert Extract(leftover, chunk).lines[0] == leftover + line && Extract([], chunk).lines[0] == [] + line;
          assert EventsOf(leftover, calls)[0] == Command(leftover + line, disk);
          assert EventsOf([], calls)[0] == Command([] + line, disk);
        }
      case Call(Nothing, _) =>
      case Call(Closed, _) =>
      case Changed(config, counters) =>
        var ev := Others(config, counters);
        OwnCommandsIff(leftover, calls[1..]);
        assert ([ev] + EventsOf(leftover, calls[1..]))[1..] == EventsOf(leftover, calls[1..]);
        assert ([ev] + EventsOf([], calls[1..]))[1..] == EventsOf([], calls[1..]);
    }
  }
}
