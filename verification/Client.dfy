/** handle_client of src/server/pop3.c: the session kept in objects and changed in place. */
module Client {
  import opened Bytes
  import opened ByteBuffer
  import opened Modes
  import opened Framing
  import opened MailList
  import opened Mailbox
  import opened Session

  const RECV_MAX: nat := 1023 // BUFFER_SIZE - 1
  const COMMAND_SIZE: nat := 2048

  // The argument of a command, through the byte buffer

  /** The command array: the line, its terminator, and whatever else. */
  function Memory(line: Line): (mem: seq<byte>)
    requires |line| < COMMAND_SIZE
    ensures |mem| == COMMAND_SIZE && mem[..|line|] == line && mem[|line|] == NUL
  {
    line + Zeros(COMMAND_SIZE - |line|)
  }

  /** A buffer over the command array, right after the four bytes of the command word were skipped. */
  method LoadCommand(line: Line) returns (b: Buffer)
    requires NulFree(line) && 4 <= |line| < COMMAND_SIZE
    ensures fresh(b) && fresh(b.data) && PastWord(b, line)
  {
    var mem := Memory(line);
    hide Memory;
    var command := new byte[COMMAND_SIZE](i requires 0 <= i < COMMAND_SIZE => mem[i]);
    assert command[..] == mem;
    b := new Buffer(command);
    b.WriteAdv(|line|);
    assert b.data[0..|line|] == mem[..|line|];
    assert b.Abs() == Fifo(line, |line|);
    SkipWord(b, line);
  }

  method SkipWord(b: Buffer, line: Line)
    requires b.Valid() && b.data.Length == COMMAND_SIZE && NulFree(line) && 4 <= |line| < COMMAND_SIZE
    requires b.Abs() == Fifo(line, |line|) && b.data[..][..|line|] == line && b.data[|line|] == NUL
    modifies b, b.data
    ensures PastWord(b, line)
  {
    ghost var mem := b.data[..];
    b.ReadAdv(4);
    assert b.Abs() == Drop(Fifo(line, |line|), 4);
    assert |b.Abs().queue| == b.write - b.read;
    assert |line| > 4 ==> b.data[..] == mem && b.data[|line|] == mem[|line|];
  }

  /** The unread part is what follows the word; in memory it is still there, with its terminator, or all is zero. */
  ghost predicate PastWord(b: Buffer, line: Line)
    reads b, b.data
  {
    && b.Valid() && b.data.Length == COMMAND_SIZE && NulFree(line) && 4 <= |line| < COMMAND_SIZE
    && b.Abs().queue == line[4..]
    && (if |line| == 4 then b.data[..] == Zeros(COMMAND_SIZE)
        else b.read == 4 && b.write == |line| && b.data[..][..|line|] == line && b.data[|line|] == NUL)
  }

  lemma TextInMemory(mem: seq<byte>, line: Line, from: nat)
    requires from <= |line| < |mem| && mem[..|line|] == line && mem[|line|] == NUL && NulFree(line)
    ensures CString(mem[from..]) == line[from..]
  {
    assert mem[from..] == line[from..] + mem[|line|..];
    CStringOfStored(line[from..], mem[|line|..]);
  }

  lemma TextInZeros(from: nat)
    requires from <= COMMAND_SIZE
    ensures CString(Zeros(COMMAND_SIZE)[from..]) == []
  {
    hide CString;
    var rest := Zeros(COMMAND_SIZE)[from..];
    CStringOfStored([], rest);
    assert [] + rest == rest;
  }

  /** The buffer after the fifth byte was read: drained and wiped, or the text is next in memory. */
  ghost predicate PastFifth(b: Buffer, line: Line)
    reads b, b.data
  {
    && b.Valid() && b.data.Length == COMMAND_SIZE && NulFree(line) && 4 < |line| < COMMAND_SIZE
    && (if |line| == 5 then b.read == b.write == 0 && b.data[..] == Zeros(COMMAND_SIZE)
        else b.read == 5 && b.write == |line| && b.data[..][..|line|] == line && b.data[|line|] == NUL)
  }

  /** buffer_read(b) == 0 exactly when the line was only a word. */
  method ReadFifth(b: Buffer, ghost line: Line) returns (missing: bool)
    requires PastWord(b, line)
    modifies b, b.data
    ensures missing <==> |line| == 4
    ensures !missing ==> PastFifth(b, line)
  {
    assert |b.Abs().queue| == |line| - 4;
    assert |line| > 4 ==> line[4] in line && b.Abs().queue[0] == line[4] && line[4] != NUL;
    var c := b.Read();
    missing := c == NUL;
    if |line| > 5 {
      assert b.Abs() == Drop(Fifo(line[4..], |line|), 1);
    } else if |line| == 5 {
      assert b.Abs() == Fifo([], 0) && b.data[..] == Zeros(COMMAND_SIZE);
      assert b.write - b.read == |b.Abs().queue|;
    }
  }

  /** The C string at the read pointer; afterwards the buffer is drained. */
  method TakeText(b: Buffer, ghost line: Line) returns (text: seq<byte>)
    requires PastFifth(b, line)
    modifies b, b.data
    ensures text == line[5..]
  {
    hide CString;
    ghost var mem := b.data[..];
    if |line| == 5 {
      TextInZeros(b.read);
    } else {
      TextInMemory(mem, line, 5);
    }
    assert b.data[b.read..] == mem[b.read..];
    text := CString(b.data[b.read..]);
    b.ReadAdv(b.write - b.read);
  }

  /** The argument of USER, PASS, LIST, RETR and DELE. */
  method TakeArgument(b: Buffer, ghost line: Line) returns (arg: Option<seq<byte>>)
    requires PastWord(b, line)
    modifies b, b.data
    ensures arg == Argument(line)
  {
    var missing := ReadFifth(b, line);
    if missing {
      arg := None;
    } else {
      var text := TakeText(b, line);
      arg := Some(text);
    }
  }

  /** What the configuration commands read at command + 5, past any terminator at command + 4. */
  method TextAfterWord(b: Buffer, ghost line: Line) returns (text: seq<byte>)
    requires PastWord(b, line)
    ensures text == Session.Tail(line)
  {
    if |line| == 4 {
      TextInZeros(5);
    } else {
      TextInMemory(b.data[..], line, 5);
    }
    assert b.data[5..] == b.data[..][5..];
    text := CString(b.data[5..]);
  }

  /** Both readings of a line, each through a command buffer of its own. */
  method ParseLine(line: Line) returns (arg: Option<seq<byte>>, text: seq<byte>)
    requires NulFree(line) && 4 <= |line| < COMMAND_SIZE
    ensures arg == Argument(line) && text == Session.Tail(line)
  {
    hide Session.Tail;
    hide Argument;
    var b := LoadCommand(line);
    text := TextAfterWord(b, line);
    b := LoadCommand(line);
    arg := TakeArgument(b, line);
  }

  // The scan over a received chunk

  /**
   * Where the scan stands in the receive buffer: from `auxInit` on it is as received, and the line
   * being collected has no line feed yet. What came before was ended with a NUL.
   */
  ghost predicate Scanned(chunk: seq<byte>, buff: seq<byte>, aux: nat, auxInit: nat) {
    var seen := CString(chunk);
    && |buff| == |chunk| + 1 && auxInit <= aux <= |seen|
    && buff[auxInit..] == (chunk + [NUL])[auxInit..]
    && (auxInit > 0 ==> buff[auxInit - 1] == NUL)
    && LF !in seen[auxInit..aux]
  }

  predicate LinesFit(lines: seq<Line>) {
    forall i :: 0 <= i < |lines| ==> NulFree(lines[i]) && |lines[i]| < COMMAND_SIZE
  }

  lemma SeenAgain(chunk: seq<byte>)
    ensures CString(CString(chunk)) == CString(chunk)
  {
    var seen := CString(chunk);
    CStringOfStored(seen, []);
    assert seen + [] == seen;
  }

  lemma ScanStarts(leftover: seq<byte>, chunk: seq<byte>)
    requires Incomplete(leftover) && |leftover| <= RECV_MAX && |chunk| <= RECV_MAX
    ensures var seen := CString(chunk);
            && Scanned(chunk, chunk + [NUL], 0, 0)
            && seen[0..] == seen
            && Extract(leftover, seen) == Extract(leftover, chunk)
            && LinesFit(Extract(leftover, seen).lines)
  {
    SeenAgain(chunk);
    ExtractFits(leftover, chunk);
    ExtractIsNulFree(leftover, chunk);
  }

  lemma BuffIsSeen(chunk: seq<byte>, buff: seq<byte>, aux: nat, auxInit: nat)
    requires Scanned(chunk, buff, aux, auxInit)
    ensures var seen := CString(chunk);
            && (forall k :: auxInit <= k < |seen| ==> buff[k] == seen[k] && buff[k] != NUL)
            && buff[|seen|] == NUL
  {
    var seen, all := CString(chunk), chunk + [NUL];
    forall k | auxInit <= k < |buff|
      ensures buff[k] == all[k]
    {
      assert buff[auxInit..][k - auxInit] == all[auxInit..][k - auxInit];
    }
    forall k | auxInit <= k < |seen|
      ensures buff[k] == seen[k] && buff[k] != NUL
    {
      assert seen[k] in seen;
    }
  }

  /** The receive buffer once the line end at `aux` is overwritten with NUL bytes. */
  function Ended(buff: seq<byte>, aux: nat): seq<byte>
    requires aux < |buff|
  {
    (if aux != 0 && buff[aux - 1] == CR then buff[aux - 1 := NUL] else buff)[aux := NUL]
  }

  lemma SegmentReceived(chunk: seq<byte>, buff: seq<byte>, aux: nat, auxInit: nat)
    requires Scanned(chunk, buff, aux, auxInit)
    ensures buff[auxInit..aux] == CString(chunk)[auxInit..aux] && NulFree(CString(chunk)[auxInit..aux])
  {
    BuffIsSeen(chunk, buff, aux, auxInit);
    hide CString;
  }

  /** The text the scan cuts out of the buffer at a line feed. */
  lemma SegmentText(segment: seq<byte>, before: seq<byte>, aux: nat, auxInit: nat)
    requires auxInit <= aux < |before| && before[auxInit..aux] == segment && NulFree(segment)
    requires auxInit > 0 ==> before[auxInit - 1] == NUL
    ensures CString(Ended(before, aux)[auxInit..]) == StripCr(segment)
  {
    hide CString;
    var text, buff := StripCr(segment), Ended(before, aux);
    var tail := buff[auxInit..][|text|..];
    assert |segment| == aux - auxInit;
    assert segment != [] ==> segment[|segment| - 1] == before[aux - 1];
    assert buff[auxInit..] == text + tail;
    assert tail[0] == NUL;
    CStringOfStored(text, tail);
  }

  /** Behind the overwritten line end the buffer is as received. */
  lemma ScanGoesOn(chunk: seq<byte>, buff: seq<byte>, aux: nat, auxInit: nat)
    requires Scanned(chunk, buff, aux, auxInit) && aux < |CString(chunk)|
    ensures Scanned(chunk, Ended(buff, aux), aux + 1, aux + 1)
  {
    var seen, all := CString(chunk), chunk + [NUL];
    hide CString;
    assert Ended(buff, aux)[aux + 1..] == buff[auxInit..][aux + 1 - auxInit..];
    assert all[aux + 1..] == all[auxInit..][aux + 1 - auxInit..];
    assert seen[aux + 1..aux + 1] == [];
  }

  /** A line feed was found: the line it ends is the first one to come, and the scan goes on behind it. */
  lemma LineFound(chunk: seq<byte>, aux: nat, auxInit: nat, command: seq<byte>)
    requires auxInit <= aux < |CString(chunk)| && CString(chunk)[aux] == LF && LF !in CString(chunk)[auxInit..aux]
    ensures var seen := CString(chunk);
            var now, later := Extract(command, seen[auxInit..]), Extract([], seen[aux + 1..]);
            && now.lines == [command + StripCr(seen[auxInit..aux])] + later.lines
            && now.leftover == later.leftover
  {
    var seen := CString(chunk);
    hide CString;
    var t, k := seen[auxInit..], aux - auxInit;
    assert t[..k] == seen[auxInit..aux] && t[k + 1..] == seen[aux + 1..] && t[k] == LF;
    assert NulFree(t) && NulFree(seen[aux + 1..]);
    WholeCString(t);
    LfAtIs(t, k);
    ExtractFresh(seen[aux + 1..]);
    hide Split;
    hide StripCr;
  }

  lemma ScanEnds(chunk: seq<byte>, aux: nat, auxInit: nat, command: seq<byte>)
    requires auxInit <= aux == |CString(chunk)| && LF !in CString(chunk)[auxInit..aux]
    ensures var rest := CString(chunk)[auxInit..];
            Extract(command, rest) == Extraction([], rest) && Incomplete(rest)
  {
    var seen := CString(chunk);
    var rest := seen[auxInit..];
    assert rest == seen[auxInit..aux];
    assert NulFree(rest);
    CallWithoutLf(command, rest);
  }

  /** What the scan knows about the byte it looks at. */
  lemma ScanSees(chunk: seq<byte>, buff: seq<byte>, aux: nat, auxInit: nat)
    requires Scanned(chunk, buff, aux, auxInit)
    ensures var seen := CString(chunk);
            && LF !in seen[auxInit..aux]
            && (aux < |seen| ==> buff[aux] == seen[aux] != NUL)
            && (aux == |seen| ==> buff[aux] == NUL && CString(buff[auxInit..]) == seen[auxInit..])
  {
    BuffIsSeen(chunk, buff, aux, auxInit);
    var seen := CString(chunk);
    if aux == |seen| {
      hide CString;
      var rest := seen[auxInit..];
      assert NulFree(rest);
      var tail := buff[|seen|..];
      assert buff[auxInit..] == rest + tail && tail[0] == NUL;
      CStringOfStored(rest, tail);
    }
  }

  lemma NoLineYet(chunk: seq<byte>, buff: seq<byte>, aux: nat, auxInit: nat)
    requires Scanned(chunk, buff, aux, auxInit) && aux < |CString(chunk)| && buff[aux] != LF
    ensures Scanned(chunk, buff, aux + 1, auxInit)
  {
    ScanSees(chunk, buff, aux, auxInit);
    hide CString;
    var seen := CString(chunk);
    assert seen[auxInit..aux + 1] == seen[auxInit..aux] + [seen[aux]];
  }

  lemma FirstFits(lines: seq<Line>)
    requires LinesFit(lines) && lines != []
    ensures NulFree(lines[0]) && |lines[0]| < COMMAND_SIZE && LinesFit(lines[1..])
  {
  }

  /** The text in front of an overwritten line end completes the first line still to come. */
  lemma LineIsCut(chunk: seq<byte>, buff: seq<byte>, aux: nat, auxInit: nat, command: seq<byte>, e: Extraction)
    requires Scanned(chunk, buff, aux, auxInit) && aux < |CString(chunk)| && buff[aux] == LF
    requires Extract(command, CString(chunk)[auxInit..]) == e
    ensures Scanned(chunk, Ended(buff, aux), aux + 1, aux + 1)
    ensures e.lines != [] && e.lines[0] == command + CString(Ended(buff, aux)[auxInit..])
    ensures Extract([], CString(chunk)[aux + 1..]) == Extraction(e.lines[1..], e.leftover)
  {
    ScanSees(chunk, buff, aux, auxInit);
    ScanGoesOn(chunk, buff, aux, auxInit);
    SegmentReceived(chunk, buff, aux, auxInit);
    SegmentText(CString(chunk)[auxInit..aux], buff, aux, auxInit);
    hide Scanned;
    hide Extract;
    hide StripCr;
    hide Ended;
    LineFound(chunk, aux, auxInit, command);
  }

  /** The scan, with the lines and the rest that are still to come from what it has not passed yet. */
  ghost predicate Scanning(chunk: seq<byte>, buff: seq<byte>, aux: nat, auxInit: nat, command: seq<byte>, e: Extraction) {
    Scanned(chunk, buff, aux, auxInit) && LinesFit(e.lines) && Extract(command, CString(chunk)[auxInit..]) == e
  }

  lemma ScanBegins(leftover: seq<byte>, chunk: seq<byte>)
    requires Incomplete(leftover) && |leftover| <= RECV_MAX && |chunk| <= RECV_MAX
    ensures Scanning(chunk, chunk + [NUL], 0, 0, leftover, Extract(leftover, chunk))
  {
    hide Extract;
    ScanStarts(leftover, chunk);
  }

  lemma ScanStaysInside(chunk: seq<byte>, buff: seq<byte>, aux: nat, auxInit: nat, command: seq<byte>, e: Extraction)
    requires Scanning(chunk, buff, aux, auxInit, command, e)
    ensures auxInit <= aux <= |chunk| && |buff| == |chunk| + 1
    ensures buff[aux] != NUL ==> aux < |chunk|
  {
    ScanSees(chunk, buff, aux, auxInit);
  }

  lemma ScanPasses(chunk: seq<byte>, buff: seq<byte>, aux: nat, auxInit: nat, command: seq<byte>, e: Extraction)
    requires Scanning(chunk, buff, aux, auxInit, command, e) && aux < |buff| && buff[aux] != NUL && buff[aux] != LF
    ensures Scanning(chunk, buff, aux + 1, auxInit, command, e)
  {
    ScanSees(chunk, buff, aux, auxInit);
    NoLineYet(chunk, buff, aux, auxInit);
  }

  lemma ScanCuts(chunk: seq<byte>, buff: seq<byte>, aux: nat, auxInit: nat, command: seq<byte>, e: Extraction)
    requires Scanning(chunk, buff, aux, auxInit, command, e) && aux < |buff| && buff[aux] == LF
    ensures e.lines != [] && e.lines[0] == command + CString(Ended(buff, aux)[auxInit..])
    ensures NulFree(e.lines[0]) && |e.lines[0]| < COMMAND_SIZE
    ensures Scanning(chunk, Ended(buff, aux), aux + 1, aux + 1, [], Extraction(e.lines[1..], e.leftover))
  {
    ScanSees(chunk, buff, aux, auxInit);
    LineIsCut(chunk, buff, aux, auxInit, command, e);
    FirstFits(e.lines);
  }

  /** At the terminating NUL: what the buffer holds from `auxInit` on is the new leftover. */
  ghost predicate ScanResult(chunk: seq<byte>, buff: seq<byte>, aux: nat, auxInit: nat, rest: seq<byte>) {
    && auxInit <= |buff| && rest == CString(buff[auxInit..])
    && Incomplete(rest) && |rest| <= |chunk|
    && (aux == auxInit ==> rest == [])
  }

  lemma ScanIsOver(chunk: seq<byte>, buff: seq<byte>, aux: nat, auxInit: nat, command: seq<byte>, e: Extraction)
    requires Scanning(chunk, buff, aux, auxInit, command, e) && aux < |buff| && buff[aux] == NUL
    ensures e.lines == [] && ScanResult(chunk, buff, aux, auxInit, e.leftover)
  {
    ScanSees(chunk, buff, aux, auxInit);
    ScanEnds(chunk, aux, auxInit, command);
  }

  // The objects

  class Pop3 {
    const accounts: seq<Account>
    var baseDir: seq<byte>
    var host: seq<byte>
    var transform: bool

    ghost function View(): Config
      reads this
    {
      Config(baseDir, host, transform)
    }
  }

  class MetricsData {
    var messages: int
    var octets: int
    var total: int
    var most: int

    ghost function View(): Counters
      reads this
    {
      Counters(messages, octets, total, most)
    }
  }

  class ClientData {
    const pop3: Pop3
    const metrics: MetricsData
    var mode: Mode
    var user: Option<Account>
    var maildir: Mailbox?
    var recvBuffer: seq<byte>
    var aborted: bool
    ghost var removed: seq<Path>
    ghost var rebinds: seq<Rebind>

    ghost function Repr(): set<object>
      reads this, if maildir == null then {} else {maildir.inNew, maildir.inCur, maildir.inTmp}
    {
      {this, pop3, metrics} + if maildir == null then {} else maildir.Repr()
    }

    ghost predicate Valid()
      reads Repr()
      ensures Valid() ==> Sound(View())
    {
      && (maildir != null ==> maildir.Valid())
      && Sound(View())
    }

    ghost function View(): State
      reads Repr()
    {
      State(mode, user, if maildir == null then None else Some(maildir.View()),
            pop3.View(), metrics.View(), removed, rebinds, aborted)
    }

    /**
     * A client slot as add_client hands it out: mode and user are set, the partial line of whoever had
     * the slot stays. The old maildir pointer stays too, but is not followed before PASS replaces it.
     */
    constructor (pop3: Pop3, metrics: MetricsData, manager: bool, leftover: seq<byte>)
      ensures Valid() && this.pop3 == pop3 && this.metrics == metrics && recvBuffer == leftover
      ensures View() == State(if manager then Manager else Authorization, None, None,
                              pop3.View(), metrics.View(), [], [], false)
    {
      this.pop3, this.metrics := pop3, metrics;
      mode := if manager then Manager else Authorization;
      user, maildir, recvBuffer, aborted := None, null, leftover, false;
      removed, rebinds := [], [];
    }

    /** client_validation: the first account whose name starts with the text becomes the user. */
    method ClientValidation(text: seq<byte>) returns (failed: bool)
      modifies this`user
      ensures failed == FindAccount(pop3.accounts, text).None?
      ensures user == if failed then old(user) else FindAccount(pop3.accounts, text)
    {
      var i := 0;
      while i < |pop3.accounts|
        invariant 0 <= i <= |pop3.accounts| && user == old(user)
        invariant FindAccount(pop3.accounts, text) == FindAccount(pop3.accounts[i..], text)
      {
        var aux := pop3.accounts[i];
        assert pop3.accounts[i..][1..] == pop3.accounts[i + 1..];
        if text <= aux.name {
          user := Some(aux);
          return false;
        }
        i := i + 1;
      }
      failed := true;
    }

    /** password_validation: equal lengths, then byte by byte from the end. */
    method PasswordValidation(text: seq<byte>) returns (failed: bool)
      requires Valid()
      ensures failed == !PasswordMatches(View(), text)
    {
      if user.None? || user.value.pass.None? {
        return true;
      }
      var pass := user.value.pass.value;
      if |pass| != |text| {
        return true;
      }
      var left := |pass|;
      while left > 0
        invariant 0 <= left <= |pass|
        invariant forall i :: left <= i < |pass| ==> pass[i] == text[i]
      {
        left := left - 1;
        if pass[left] != text[left] {
          return true;
        }
      }
      assert pass == text;
      failed := false;
    }

    method HandleUser(arg: Option<seq<byte>>) returns (replies: seq<Reply>)
      requires Valid()
      modifies Repr()
      ensures Valid() && (View(), replies) == OnUser(pop3.accounts, old(View()), arg)
      ensures recvBuffer == old(recvBuffer) && (forall o :: o in Repr() ==> o in old(Repr()) || fresh(o))
    {
      hide FileList.Valid;
      hide FileList.Linked;
      hide FileList.Entries;
      hide Mailbox.Valid;
      hide Mailbox.View;
      hide Mailbox.Repr;
      hide FindAccount;
      if mode != Authorization && mode != Manager {
        mode := Authorization;
      }
      replies := [MissingUsername];
      if arg.Some? {
        var failed := ClientValidation(arg.value);
        replies := if failed then [UserNotFound] else [UserAccepted];
      }
      if maildir != null {
        MailStays(maildir);
      }
    }

    method HandlePass(arg: Option<seq<byte>>, disk: Disk) returns (replies: seq<Reply>)
      requires Valid()
      modifies Repr()
      ensures Valid() && (View(), replies) == OnPass(old(View()), arg, disk)
      ensures recvBuffer == old(recvBuffer) && (forall o :: o in Repr() ==> o in old(Repr()) || fresh(o))
    {
      hide FileList.Valid;
      hide FileList.Linked;
      hide FileList.Entries;
      hide Mailbox.Valid;
      hide Mailbox.View;
      hide Mailbox.Repr;
      if mode != Authorization {
        replies := [AlreadyLoggedOn];
      } else if arg.None? {
        replies := [MissingPassword];
      } else {
        var failed := PasswordValidation(arg.value);
        if failed {
          replies := [PasswordIncorrect];
          if maildir != null {
            MailStays(maildir);
          }
        } else {
          mode := Transaction;
          maildir := Mailbox.Load(disk(pop3.baseDir, user.value.name));
          replies := [PasswordAccepted];
        }
      }
    }

    method StatHandler() returns (reply: Reply)
      requires Valid() && mode == Transaction
      ensures Valid() && View() == old(View()) && Repr() == old(Repr())
      ensures reply == TotalsOf(View().mail.value)
    {
      hide FileList.Valid;
      hide FileList.Linked;
      hide FileList.Entries;
      hide Mailbox.Valid;
      hide Mailbox.View;
      hide Mailbox.Repr;
      var count, octets := maildir.Stat();
      SessionStays();
      reply := Totals(count, octets);
    }

    /** list_messages(-1) */
    method ListEverything() returns (lines: seq<(int, int)>)
      requires Valid() && mode == Transaction
      ensures Valid() && View() == old(View()) && Repr() == old(Repr())
      ensures lines == ListAll(View().mail.value)
    {
      hide FileList.Valid;
      hide FileList.Linked;
      hide FileList.Entries;
      hide Mailbox.Valid;
      hide Mailbox.View;
      hide Mailbox.Repr;
      hide ListAll;
      lines := maildir.ListEverything();
      SessionStays();
    }

    method ListMessage(number: int) returns (line: Option<(int, int)>)
      requires Valid() && mode == Transaction && number > 0
      ensures Valid() && View() == old(View()) && Repr() == old(Repr())
      ensures line == ListOne(View().mail.value, number)
    {
      hide FileList.Valid;
      hide FileList.Linked;
      hide FileList.Entries;
      hide Mailbox.Valid;
      hide Mailbox.View;
      hide Mailbox.Repr;
      hide ListOne;
      line := maildir.ListMessage(number);
      SessionStays();
    }

    method ListMessages(number: int) returns (replies: seq<Reply>)
      requires Valid() && mode == Transaction
      ensures Valid() && View() == old(View()) && Repr() == old(Repr())
      ensures replies == ListReplies(View().mail.value, number)
    {
      hide ClientData.Repr;
      hide ClientData.Valid;
      hide ClientData.View;
      hide ListAll;
      hide ListOne;
      replies := [];
      if number == -1 {
        var totals := StatHandler();
        var lines := ListEverything();
        replies := [totals] + ScanReplies(lines) + [EndOfList];
      } else if number > 0 {
        var line := ListMessage(number);
        if line.Some? {
          replies := [Scan(line.value.0, line.value.1)];
        }
      }
    }

    method HandleList(arg: Option<seq<byte>>) returns (replies: seq<Reply>)
      requires Valid()
      modifies Repr()
      ensures Valid() && (View(), replies) == OnList(old(View()), arg)
      ensures recvBuffer == old(recvBuffer) && (forall o :: o in Repr() ==> o in old(Repr()) || fresh(o))
    {
      ghost var m := View().mode;
      assert m == mode;
      hide ClientData.Repr;
      hide ClientData.Valid;
      hide ClientData.View;
      hide ListReplies;
      if mode != Transaction {
        return [MustLogIn];
      }
      if arg.None? {
        replies := ListMessages(-1);
      } else {
        var number := Atoi(arg.value);
        if number == 0 {
          return [ArgumentError];
        }
        replies := ListMessages(number);
      }
    }

    method HandleRetr(arg: Option<seq<byte>>) returns (replies: seq<Reply>)
      requires Valid()
      modifies Repr()
      ensures Valid() && (View(), replies) == OnRetr(old(View()), arg)
      ensures recvBuffer == old(recvBuffer) && (forall o :: o in Repr() ==> o in old(Repr()) || fresh(o))
    {
      hide FileList.Valid;
      hide FileList.Linked;
      hide FileList.Entries;
      hide Mailbox.Valid;
      hide Mailbox.View;
      hide Mailbox.Repr;
      hide Retrieve;
      if mode != Transaction {
        return [MustLogIn];
      }
      if arg.None? {
        return [ArgumentError];
      }
      var number := Atoi(arg.value);
      if number == 0 {
        return [ArgumentError];
      }
      var found := maildir.ViewMessage(number);
      MailStays(maildir);
      if found.None? {
        replies := [MessageNotFound];
      } else {
        var (folder, entry) := found.value;
        metrics.octets := metrics.octets + entry.size;
        metrics.messages := metrics.messages + 1;
        replies := [Octets(entry.size),
                    Contents(Path(pop3.baseDir, user.value.name, folder, entry.name), pop3.transform)];
      }
      MailStays(maildir);
    }

    method HandleDele(arg: Option<seq<byte>>) returns (replies: seq<Reply>)
      requires Valid()
      modifies Repr()
      ensures Valid() && (View(), replies) == OnDele(old(View()), arg)
      ensures recvBuffer == old(recvBuffer) && (forall o :: o in Repr() ==> o in old(Repr()) || fresh(o))
    {
      hide FileList.Valid;
      hide FileList.Linked;
      hide FileList.Entries;
      hide Mailbox.Valid;
      hide Mailbox.View;
      if mode != Transaction {
        return [MustLogIn];
      }
      if arg.None? {
        return [ArgumentError];
      }
      var number := Atoi(arg.value);
      if number == 0 {
        return [ArgumentError];
      }
      var ok := maildir.DeleteMessage(number);
      if ok {
        replies := [MessageDeleted(number)];
      } else {
        replies := if number < 1 then [InvalidNumber] else [MessageNotFound];
      }
    }

    method HandleRset() returns (replies: seq<Reply>)
      requires Valid()
      modifies Repr()
      ensures Valid() && (View(), replies) == OnRset(old(View()))
      ensures recvBuffer == old(recvBuffer) && (forall o :: o in Repr() ==> o in old(Repr()) || fresh(o))
    {
      hide FileList.Valid;
      hide FileList.Linked;
      hide FileList.Entries;
      hide Mailbox.Valid;
      hide Mailbox.View;
      if mode != Transaction {
        return [MustLogIn];
      }
      maildir.UnmarkAll();
      label Unmarked:
      var totals := StatHandler();
      MailStays@Unmarked(maildir);
      replies := [totals];
    }

    method HandleStat() returns (replies: seq<Reply>)
      requires Valid()
      modifies Repr()
      ensures Valid() && (View(), replies) == OnStat(old(View()))
      ensures recvBuffer == old(recvBuffer) && (forall o :: o in Repr() ==> o in old(Repr()) || fresh(o))
    {
      ghost var m := View().mode;
      assert m == mode;
      hide ClientData.Repr;
      hide ClientData.Valid;
      hide ClientData.View;
      if mode != Transaction {
        return [MustLogIn];
      }
      var totals := StatHandler();
      replies := [totals];
    }

    /** QUIT: delete_marked and destroy_maildir, but only in a transaction. */
    method HandleQuit() returns (replies: seq<Reply>)
      requires Valid()
      modifies Repr()
      ensures Valid() && (View(), replies) == OnQuit(old(View()))
      ensures recvBuffer == old(recvBuffer) && (forall o :: o in Repr() ==> o in old(Repr()) || fresh(o))
    {
      hide FileList.Valid;
      hide FileList.Linked;
      hide FileList.Entries;
      hide Mailbox.Valid;
      hide Mailbox.View;
      hide RemovedFiles;
      hide Paths;
      hide LeftBehind;
      if mode == Transaction {
        var files := maildir.DeleteMarked();
        removed := removed + Paths(pop3.baseDir, user.value.name, files);
        maildir := null;
      }
      mode := Closing;
      replies := [Goodbye];
      if maildir != null {
        MailStays(maildir);
      }
    }

    /** PORT and IPV6: update_server_address is asked to move the listener. */
    method MoveListener(request: Rebind)
      requires Valid()
      modifies Repr()
      ensures Valid() && View() == old(View()).(rebinds := old(View()).rebinds + [request])
      ensures recvBuffer == old(recvBuffer) && Repr() == old(Repr())
    {
      hide FileList.Valid;
      hide FileList.Linked;
      hide FileList.Entries;
      hide Mailbox.Valid;
      hide Mailbox.View;
      hide Mailbox.Repr;
      rebinds := rebinds + [request];
      if maildir != null {
        MailStays(maildir);
      }
    }

    /** HOST, DIRR and TRAN change one setting each. */
    method ChangeSetting(v: Verb, text: seq<byte>)
      requires Valid() && mode == Manager && v in {Host, Dirr, Tran}
      modifies Repr()
      ensures Valid() && View() == OnManage(old(View()), v, text).0
      ensures recvBuffer == old(recvBuffer) && Repr() == old(Repr())
    {
      hide FileList.Valid;
      hide FileList.Linked;
      hide FileList.Entries;
      hide Mailbox.Valid;
      hide Mailbox.View;
      hide Mailbox.Repr;
      hide Atoi;
      match v {
        case Host => pop3.host := text;
        case Dirr => pop3.baseDir := text;
        case Tran => pop3.transform := Atoi(text) == 1;
      }
      if maildir != null {
        MailStays(maildir);
      }
    }

    /** The commands of a manager. */
    method HandleManage(v: Verb, text: seq<byte>) returns (replies: seq<Reply>)
      requires Valid()
      requires v in {Info, Metr, Logg, Port, Host, Dirr, Tran, Ipv6}
      modifies Repr()
      ensures Valid() && (View(), replies) == OnManage(old(View()), v, text)
      ensures recvBuffer == old(recvBuffer) && (forall o :: o in Repr() ==> o in old(Repr()) || fresh(o))
    {
      ghost var s := View();
      assert s.mode == mode && s.config == Config(pop3.baseDir, pop3.host, pop3.transform);
      assert s.counters == Counters(metrics.messages, metrics.octets, metrics.total, metrics.most);
      hide ClientData.Repr;
      hide ClientData.Valid;
      hide ClientData.View;
      hide Atoi;
      if mode != Manager {
        return [LackPrivilege];
      }
      replies := [Session.Done];
      match v {
        case Port => MoveListener(ToPort(Atoi(text)));
        case Ipv6 => MoveListener(ToAddress(text));
        case Info => replies := [Settings(Config(pop3.baseDir, pop3.host, pop3.transform))];
        case Metr => replies := [Metrics(Counters(metrics.messages, metrics.octets, metrics.total, metrics.most))];
        case Logg => replies := [LogFile];
        case Host => ChangeSetting(v, text);
        case Dirr => ChangeSetting(v, text);
        case Tran => ChangeSetting(v, text);
      }
    }

    /** Reading the socket and the command buffer does not touch the session. */
    twostate lemma SessionStays()
      requires old(Valid()) && unchanged(this) && unchanged(pop3) && unchanged(metrics)
      requires maildir != null ==>
                 && unchanged(maildir.inNew) && unchanged(maildir.inCur) && unchanged(maildir.inTmp)
                 && (forall i :: 0 <= i < |maildir.inNew.nodes| ==> unchanged(maildir.inNew.nodes[i]))
                 && (forall i :: 0 <= i < |maildir.inCur.nodes| ==> unchanged(maildir.inCur.nodes[i]))
                 && (forall i :: 0 <= i < |maildir.inTmp.nodes| ==> unchanged(maildir.inTmp.nodes[i]))
      ensures Valid() && View() == old(View()) && Repr() == old(Repr())
    {
      if maildir != null {
        MailStays(maildir);
      }
    }

    /** The commands with an argument. */
    method WithArgument(v: Verb, arg: Option<seq<byte>>, disk: Disk, ghost line: Line) returns (replies: seq<Reply>)
      requires Valid() && |line| >= 4 && VerbOf(line) == v && arg == Argument(line)
      requires v in {User, Pass, List, Retr, Dele}
      modifies Repr()
      ensures Valid() && (View(), replies) == Handle(pop3.accounts, old(View()), line, disk)
      ensures recvBuffer == old(recvBuffer) && (forall o :: o in Repr() ==> o in old(Repr()) || fresh(o))
    {
      hide ClientData.Repr;
      hide ClientData.Valid;
      hide ClientData.View;
      hide OnUser;
      hide OnPass;
      hide OnList;
      hide OnRetr;
      hide OnDele;
      hide VerbOf;
      match v {
        case User => replies := HandleUser(arg);
        case Pass => replies := HandlePass(arg, disk);
        case List => replies := HandleList(arg);
        case Retr => replies := HandleRetr(arg);
        case Dele => replies := HandleDele(arg);
      }
    }

    method Parse(line: Line) returns (arg: Option<seq<byte>>, text: seq<byte>)
      requires Valid() && NulFree(line) && 4 <= |line| < COMMAND_SIZE
      ensures arg == Argument(line) && text == Session.Tail(line)
      ensures Valid() && View() == old(View()) && Repr() == old(Repr())
    {
      hide ClientData.Repr;
      hide ClientData.Valid;
      hide ClientData.View;
      arg, text := ParseLine(line);
      SessionStays();
    }

    /** The assertion in buffer_read_adv fails. */
    method Abort()
      requires Valid()
      modifies Repr()
      ensures Valid() && View() == old(View()).(aborted := true)
      ensures recvBuffer == old(recvBuffer) && Repr() == old(Repr())
    {
      hide FileList.Valid;
      hide FileList.Linked;
      hide FileList.Entries;
      hide Mailbox.Valid;
      hide Mailbox.View;
      hide Mailbox.Repr;
      aborted := true;
      if maildir != null {
        MailStays(maildir);
      }
    }

    /** The commands that ignore the rest of the line. */
    method WithoutArgument(v: Verb, ghost line: Line, ghost disk: Disk) returns (replies: seq<Reply>)
      requires Valid() && |line| >= 4 && VerbOf(line) == v
      requires v in {Noop, Unknown, Stat, Rset, Quit}
      modifies Repr()
      ensures Valid() && (View(), replies) == Handle(pop3.accounts, old(View()), line, disk)
      ensures recvBuffer == old(recvBuffer) && (forall o :: o in Repr() ==> o in old(Repr()) || fresh(o))
    {
      hide ClientData.Repr;
      hide ClientData.Valid;
      hide ClientData.View;
      hide VerbOf;
      hide OnStat;
      hide OnRset;
      hide OnQuit;
      match v {
        case Noop => replies := [Session.Done];
        case Unknown => replies := [UnknownCommand];
        case Stat => replies := HandleStat();
        case Rset => replies := HandleRset();
        case Quit => replies := HandleQuit();
      }
    }

    /** The manager commands. */
    method WithText(v: Verb, text: seq<byte>, ghost line: Line, ghost disk: Disk) returns (replies: seq<Reply>)
      requires Valid() && |line| >= 4 && VerbOf(line) == v && text == Session.Tail(line)
      requires v in {Info, Metr, Logg, Port, Host, Dirr, Tran, Ipv6}
      modifies Repr()
      ensures Valid() && (View(), replies) == Handle(pop3.accounts, old(View()), line, disk)
      ensures recvBuffer == old(recvBuffer) && (forall o :: o in Repr() ==> o in old(Repr()) || fresh(o))
    {
      hide ClientData.Repr;
      hide ClientData.Valid;
      hide ClientData.View;
      hide VerbOf;
      hide OnManage;
      replies := HandleManage(v, text);
    }

    /** The switch of handle_client, for one complete line. */
    method Dispatch(line: Line, disk: Disk) returns (replies: seq<Reply>)
      requires Valid() && NulFree(line) && |line| < COMMAND_SIZE
      modifies Repr()
      ensures Valid() && (View(), replies) == Handle(pop3.accounts, old(View()), line, disk)
      ensures recvBuffer == old(recvBuffer) && (forall o :: o in Repr() ==> o in old(Repr()) || fresh(o))
    {
      hide ClientData.Repr;
      hide ClientData.Valid;
      hide ClientData.View;
      hide VerbOf;
      hide Handle;
      hide Argument;
      hide Session.Tail;
      if |line| < 4 {
        ShortLineAborts(pop3.accounts, View(), line, disk);
        Abort();
        replies := [];
      } else {
        var arg, text := Parse(line);
        var v := VerbOf(line);
        match v {
          case User => replies := WithArgument(v, arg, disk, line);
          case Pass => replies := WithArgument(v, arg, disk, line);
          case List => replies := WithArgument(v, arg, disk, line);
          case Retr => replies := WithArgument(v, arg, disk, line);
          case Dele => replies := WithArgument(v, arg, disk, line);
          case Noop => replies := WithoutArgument(v, line, disk);
          case Unknown => replies := WithoutArgument(v, line, disk);
          case Stat => replies := WithoutArgument(v, line, disk);
          case Rset => replies := WithoutArgument(v, line, disk);
          case Quit => replies := WithoutArgument(v, line, disk);
          case _ => replies := WithText(v, text, line, disk);
        }
      }
    }

    /** handle_client */
    method HandleClient(received: Received, disk: Disk) returns (replies: seq<Reply>)
      requires Valid() && !Stopped(View())
      requires Incomplete(recvBuffer) && |recvBuffer| <= RECV_MAX
      requires received.Bytes? ==> |received.chunk| <= RECV_MAX
      modifies Repr()
      ensures Valid() && Incomplete(recvBuffer) && |recvBuffer| <= RECV_MAX
      ensures (View(), replies, recvBuffer)
              == HandleReceived(pop3.accounts, old(View()), old(recvBuffer), received, disk)
    {
      hide ClientData.Repr;
      hide ClientData.Valid;
      hide ClientData.View;
      var command := recvBuffer;
      Forget();
      replies := [];
      match received {
        case Bytes(chunk) =>
          replies := ScanChunk(command, chunk, disk);
        case Nothing =>
        case Closed =>
          HangUp();
      }
    }

    method Forget()
      requires Valid()
      modifies Repr()
      ensures Valid() && View() == old(View()) && Repr() == old(Repr()) && recvBuffer == []
    {
      hide FileList.Valid;
      hide FileList.Linked;
      hide FileList.Entries;
      hide Mailbox.Valid;
      hide Mailbox.View;
      hide Mailbox.Repr;
      recvBuffer := [];
      if maildir != null {
        MailStays(maildir);
      }
    }

    /** recv returned 0: the connection is over. */
    method HangUp()
      requires Valid()
      modifies Repr()
      ensures Valid() && View() == old(View()).(mode := Closing) && recvBuffer == old(recvBuffer)
    {
      hide FileList.Valid;
      hide FileList.Linked;
      hide FileList.Entries;
      hide Mailbox.Valid;
      hide Mailbox.View;
      hide Mailbox.Repr;
      mode := Closing;
      if maildir != null {
        MailStays(maildir);
      }
    }

    method Keep(rest: seq<byte>)
      requires Valid()
      modifies Repr()
      ensures Valid() && View() == old(View()) && recvBuffer == rest
    {
      hide FileList.Valid;
      hide FileList.Linked;
      hide FileList.Entries;
      hide Mailbox.Valid;
      hide Mailbox.View;
      hide Mailbox.Repr;
      recvBuffer := rest;
      if maildir != null {
        MailStays(maildir);
      }
    }

    /** Runs one extracted line; true when nothing more of the chunk is looked at. */
    method RunLine(line: Line, disk: Disk,
                   ghost start: State, ghost all: seq<Line>, ghost said: seq<Reply>, ghost lines: seq<Line>)
      returns (more: seq<Reply>, stopped: bool)
      requires Valid() && !Stopped(View()) && lines != [] && line == lines[0] && NulFree(line) && |line| < COMMAND_SIZE
      requires HandledSoFar(pop3.accounts, start, all, disk, View(), said, lines)
      modifies Repr()
      ensures Valid() && recvBuffer == old(recvBuffer) && (forall o :: o in Repr() ==> o in old(Repr()) || fresh(o))
      ensures HandledSoFar(pop3.accounts, start, all, disk, View(), said + more, lines[1..])
      ensures stopped <==> Stopped(View())
    {
      hide Handle;
      hide HandleLines;
      OneLineHandled(pop3.accounts, start, all, disk, View(), said, lines);
      hide HandledSoFar;
      hide ClientData.Repr;
      hide ClientData.Valid;
      more := Dispatch(line, disk);
      stopped := aborted || mode == Closing;
    }

    /** At a line feed: cuts the line out of the receive buffer and runs it. */
    method TakeLine(chunk: seq<byte>, buff: seq<byte>, aux: nat, auxInit: nat, command: seq<byte>, disk: Disk,
                    ghost start: State, ghost all: seq<Line>, ghost said: seq<Reply>, ghost e: Extraction)
      returns (buff': seq<byte>, more: seq<Reply>, stopped: bool)
      requires Valid() && !Stopped(View())
      requires Scanning(chunk, buff, aux, auxInit, command, e) && aux < |buff| && buff[aux] == LF
      requires HandledSoFar(pop3.accounts, start, all, disk, View(), said, e.lines)
      modifies Repr()
      ensures Valid() && recvBuffer == old(recvBuffer) && (forall o :: o in Repr() ==> o in old(Repr()) || fresh(o))
      ensures e.lines != [] && Scanning(chunk, buff', aux + 1, aux + 1, [], Extraction(e.lines[1..], e.leftover))
      ensures HandledSoFar(pop3.accounts, start, all, disk, View(), said + more, e.lines[1..])
      ensures stopped <==> Stopped(View())
    {
      ScanStaysInside(chunk, buff, aux, auxInit, command, e);
      ScanCuts(chunk, buff, aux, auxInit, command, e);
      buff' := buff;
      if aux != 0 && buff'[aux - 1] == CR {
        buff' := buff'[aux - 1 := NUL];
      }
      buff' := buff'[aux := NUL];
      assert buff' == Ended(buff, aux);
      var line := command + CString(buff'[auxInit..]);
      hide *;
      more, stopped := RunLine(line, disk, start, all, said, e.lines);
    }

    /** The loop of handle_client over the received bytes; line ends are overwritten as they are found. */
    method ScanLoop(leftover: seq<byte>, chunk: seq<byte>, disk: Disk)
      returns (replies: seq<Reply>, buff: seq<byte>, aux: nat, auxInit: nat, command: seq<byte>, stopped: bool,
               ghost e: Extraction)
      requires Valid() && !Stopped(View())
      requires Incomplete(leftover) && |leftover| <= RECV_MAX && |chunk| <= RECV_MAX
      modifies Repr()
      ensures Valid() && recvBuffer == old(recvBuffer) && (forall o :: o in Repr() ==> o in old(Repr()) || fresh(o))
      ensures stopped <==> Stopped(View())
      ensures HandledSoFar(pop3.accounts, old(View()), Extract(leftover, chunk).lines, disk, View(), replies, e.lines)
      ensures e.leftover == Extract(leftover, chunk).leftover
      ensures !stopped ==> Scanning(chunk, buff, aux, auxInit, command, e) && aux < |buff| && buff[aux] == NUL
    {
      assert Sound(View());
      hide *;
      ghost var start, all, rest := View(), Extract(leftover, chunk).lines, Extract(leftover, chunk).leftover;
      ScanBegins(leftover, chunk);
      NothingHandledYet(pop3.accounts, start, all, disk);
      buff, replies, stopped := chunk + [NUL], [], false;
      aux, auxInit, command, e := 0, 0, leftover, Extract(leftover, chunk);
      ScanStaysInside(chunk, buff, aux, auxInit, command, e);
      while buff[aux] != NUL
        invariant 0 <= aux <= |chunk| && |buff| == |chunk| + 1
        invariant Scanning(chunk, buff, aux, auxInit, command, e) && e.leftover == rest
        invariant Valid() && !Stopped(View()) && recvBuffer == old(recvBuffer) && !stopped
        invariant forall o :: o in Repr() ==> o in old(Repr()) || fresh(o)
        invariant HandledSoFar(pop3.accounts, start, all, disk, View(), replies, e.lines)
        decreases |chunk| - aux
      {
        if buff[aux] == LF {
          var more;
          buff, more, stopped := TakeLine(chunk, buff, aux, auxInit, command, disk, start, all, replies, e);
          replies := replies + more;
          e := Extraction(e.lines[1..], e.leftover);
          if stopped {
            return;
          }
          command := [];
          auxInit := aux + 1;
        } else {
          ScanPasses(chunk, buff, aux, auxInit, command, e);
        }
        aux := aux + 1;
        ScanStaysInside(chunk, buff, aux, auxInit, command, e);
      }
    }

    /** The bytes of one recv call: every line in them is run, what is left is kept. */
    method ScanChunk(leftover: seq<byte>, chunk: seq<byte>, disk: Disk) returns (replies: seq<Reply>)
      requires Valid() && !Stopped(View()) && recvBuffer == []
      requires Incomplete(leftover) && |leftover| <= RECV_MAX && |chunk| <= RECV_MAX
      modifies Repr()
      ensures Valid() && Incomplete(recvBuffer) && |recvBuffer| <= RECV_MAX
      ensures (View(), replies, recvBuffer) == HandleChunk(pop3.accounts, old(View()), leftover, chunk, disk)
    {
      assert Incomplete([]) && Sound(View());
      ghost var start, rest := View(), Extract(leftover, chunk).leftover;
      hide ClientData.Repr;
      hide ClientData.Valid;
      hide ClientData.View;
      hide Stopped;
      hide HandleChunk;
      hide HandleLines;
      hide Extract;
      hide Incomplete;
      hide CString;
      var buff, aux, auxInit, command, stopped;
      ghost var e;
      replies, buff, aux, auxInit, command, stopped, e := ScanLoop(leftover, chunk, disk);
      if !stopped {
        ScanIsOver(chunk, buff, aux, auxInit, command, e);
      }
      AllHandled(pop3.accounts, start, Extract(leftover, chunk).lines, disk, View(), replies, e.lines);
      ChunkIsHandled(pop3.accounts, start, leftover, chunk, disk, View(), replies);
      if !stopped && auxInit != aux {
        assert [] + rest == rest;
        Keep(recvBuffer + CString(buff[auxInit..]));
      }
    }
  }
}
