/** The session of one client in src/server/pop3.c, as a function from command lines to states and replies. */
module Session {
  import opened Bytes
  import opened Modes
  import opened Framing
  import opened Mailbox

  // Command lines

  datatype Verb =
    | User | Quit | Pass | Stat | List | Retr | Dele | Noop | Rset
    | Info | Metr | Logg | Port | Host | Dirr | Tran | Ipv6
    | Unknown

  function Word(v: Verb): seq<byte> {
    match v
    case User => [0x55, 0x53, 0x45, 0x52]
    case Quit => QUIT_WORD
    case Pass => [0x50, 0x41, 0x53, 0x53]
    case Stat => [0x53, 0x54, 0x41, 0x54]
    case List => [0x4C, 0x49, 0x53, 0x54]
    case Retr => [0x52, 0x45, 0x54, 0x52]
    case Dele => [0x44, 0x45, 0x4C, 0x45]
    case Noop => [0x4E, 0x4F, 0x4F, 0x50]
    case Rset => [0x52, 0x53, 0x45, 0x54]
    case Info => [0x49, 0x4E, 0x46, 0x4F]
    case Metr => [0x4D, 0x45, 0x54, 0x52]
    case Logg => [0x4C, 0x4F, 0x47, 0x47]
    case Port => [0x50, 0x4F, 0x52, 0x54]
    case Host => [0x48, 0x4F, 0x53, 0x54]
    case Dirr => [0x44, 0x49, 0x52, 0x52]
    case Tran => [0x54, 0x52, 0x41, 0x4E]
    case Ipv6 => [0x49, 0x50, 0x56, 0x36]
    case Unknown => []
  }

  /** get_command_value: the first four bytes decide, case included. */
  function VerbOf(line: Line): Verb
    requires |line| >= 4
  {
    var w := line[..4];
    if w == Word(User) then User
    else if w == Word(Quit) then Quit
    else if w == Word(Pass) then Pass
    else if w == Word(Stat) then Stat
    else if w == Word(List) then List
    else if w == Word(Retr) then Retr
    else if w == Word(Dele) then Dele
    else if w == Word(Noop) then Noop
    else if w == Word(Rset) then Rset
    else if w == Word(Info) then Info
    else if w == Word(Metr) then Metr
    else if w == Word(Logg) then Logg
    else if w == Word(Port) then Port
    else if w == Word(Host) then Host
    else if w == Word(Dirr) then Dirr
    else if w == Word(Tran) then Tran
    else if w == Word(Ipv6) then Ipv6
    else Unknown
  }

  /** None of the seventeen commands. */
  predicate UnknownWord(w: seq<byte>) {
    && w != [0x55, 0x53, 0x45, 0x52] // USER
    && w != [0x51, 0x55, 0x49, 0x54] // QUIT
    && w != [0x50, 0x41, 0x53, 0x53] // PASS
    && w != [0x53, 0x54, 0x41, 0x54] // STAT
    && w != [0x4C, 0x49, 0x53, 0x54] // LIST
    && w != [0x52, 0x45, 0x54, 0x52] // RETR
    && w != [0x44, 0x45, 0x4C, 0x45] // DELE
    && w != [0x4E, 0x4F, 0x4F, 0x50] // NOOP
    && w != [0x52, 0x53, 0x45, 0x54] // RSET
    && w != [0x49, 0x4E, 0x46, 0x4F] // INFO
    && w != [0x4D, 0x45, 0x54, 0x52] // METR
    && w != [0x4C, 0x4F, 0x47, 0x47] // LOGG
    && w != [0x50, 0x4F, 0x52, 0x54] // PORT
    && w != [0x48, 0x4F, 0x53, 0x54] // HOST
    && w != [0x44, 0x49, 0x52, 0x52] // DIRR
    && w != [0x54, 0x52, 0x41, 0x4E] // TRAN
    && w != [0x49, 0x50, 0x56, 0x36] // IPV6
  }

  lemma FourBytes(w: seq<byte>, a: byte, b: byte, c: byte, d: byte)
    requires |w| == 4
    ensures w == [a, b, c, d] <==> w[0] == a && w[1] == b && w[2] == c && w[3] == d
  {
  }

  /** Which four bytes, in ASCII, are which command; a line that begins with none of them is unknown. */
  lemma VerbIs(line: Line)
    requires |line| >= 4
    ensures VerbOf(line) == User <==> line[..4] == [0x55, 0x53, 0x45, 0x52] // USER
    ensures VerbOf(line) == Quit <==> line[..4] == [0x51, 0x55, 0x49, 0x54] // QUIT
    ensures VerbOf(line) == Pass <==> line[..4] == [0x50, 0x41, 0x53, 0x53] // PASS
    ensures VerbOf(line) == Stat <==> line[..4] == [0x53, 0x54, 0x41, 0x54] // STAT
    ensures VerbOf(line) == List <==> line[..4] == [0x4C, 0x49, 0x53, 0x54] // LIST
    ensures VerbOf(line) == Retr <==> line[..4] == [0x52, 0x45, 0x54, 0x52] // RETR
    ensures VerbOf(line) == Dele <==> line[..4] == [0x44, 0x45, 0x4C, 0x45] // DELE
    ensures VerbOf(line) == Noop <==> line[..4] == [0x4E, 0x4F, 0x4F, 0x50] // NOOP
    ensures VerbOf(line) == Rset <==> line[..4] == [0x52, 0x53, 0x45, 0x54] // RSET
    ensures VerbOf(line) == Info <==> line[..4] == [0x49, 0x4E, 0x46, 0x4F] // INFO
    ensures VerbOf(line) == Metr <==> line[..4] == [0x4D, 0x45, 0x54, 0x52] // METR
    ensures VerbOf(line) == Logg <==> line[..4] == [0x4C, 0x4F, 0x47, 0x47] // LOGG
    ensures VerbOf(line) == Port <==> line[..4] == [0x50, 0x4F, 0x52, 0x54] // PORT
    ensures VerbOf(line) == Host <==> line[..4] == [0x48, 0x4F, 0x53, 0x54] // HOST
    ensures VerbOf(line) == Dirr <==> line[..4] == [0x44, 0x49, 0x52, 0x52] // DIRR
    ensures VerbOf(line) == Tran <==> line[..4] == [0x54, 0x52, 0x41, 0x4E] // TRAN
    ensures VerbOf(line) == Ipv6 <==> line[..4] == [0x49, 0x50, 0x56, 0x36] // IPV6
    ensures VerbOf(line) == Unknown <==> UnknownWord(line[..4])
  {
    var w := line[..4];
    FourBytes(w, 0x55, 0x53, 0x45, 0x52);
    FourBytes(w, 0x51, 0x55, 0x49, 0x54);
    FourBytes(w, 0x50, 0x41, 0x53, 0x53);
    FourBytes(w, 0x53, 0x54, 0x41, 0x54);
    FourBytes(w, 0x4C, 0x49, 0x53, 0x54);
    FourBytes(w, 0x52, 0x45, 0x54, 0x52);
    FourBytes(w, 0x44, 0x45, 0x4C, 0x45);
    FourBytes(w, 0x4E, 0x4F, 0x4F, 0x50);
    FourBytes(w, 0x52, 0x53, 0x45, 0x54);
    FourBytes(w, 0x49, 0x4E, 0x46, 0x4F);
    FourBytes(w, 0x4D, 0x45, 0x54, 0x52);
    FourBytes(w, 0x4C, 0x4F, 0x47, 0x47);
    FourBytes(w, 0x50, 0x4F, 0x52, 0x54);
    FourBytes(w, 0x48, 0x4F, 0x53, 0x54);
    FourBytes(w, 0x44, 0x49, 0x52, 0x52);
    FourBytes(w, 0x54, 0x52, 0x41, 0x4E);
    FourBytes(w, 0x49, 0x50, 0x56, 0x36);
  }

  /** Every word is recognised as itself, whatever follows it. */
  lemma VerbOfWord(v: Verb, rest: seq<byte>)
    requires v != Unknown
    ensures |Word(v)| == 4 && VerbOf(Word(v) + rest) == v
  {
    var line := Word(v) + rest;
    assert line[..4] == Word(v);
    VerbIs(line);
    hide VerbOf;
  }

  /** The argument of USER, PASS, LIST, RETR and DELE: what follows the fifth byte, whatever that is. */
  function Argument(line: Line): Option<seq<byte>>
    requires |line| >= 4
  {
    if |line| == 4 then None else Some(line[5..])
  }

  /** The text after the fifth byte, empty when there is none, for the configuration commands. */
  function Tail(line: Line): seq<byte> {
    if |line| > 5 then line[5..] else []
  }

  // atoi

  predicate IsSpace(c: byte) { c == 32 || 9 <= c <= 13 }

  predicate IsDigit(c: byte) { 48 <= c <= 57 }

  function SkipSpace(s: seq<byte>): seq<byte> {
    if s != [] && IsSpace(s[0]) then SkipSpace(s[1..]) else s
  }

  function Digits(s: seq<byte>, value: nat): nat {
    if s != [] && IsDigit(s[0]) then
      var digit: nat := s[0] - 48;
      Digits(s[1..], 10 * value + digit)
    else value
  }

  /** A long is clamped by strtol and then cut down to 32 bits. */
  function ToInt(v: int): int {
    var long := if v > 0x7FFF_FFFF_FFFF_FFFF then 0x7FFF_FFFF_FFFF_FFFF
                else if v < -0x8000_0000_0000_0000 then -0x8000_0000_0000_0000 else v;
    (long + 0x8000_0000) % 0x1_0000_0000 - 0x8000_0000
  }

  function Atoi(s: seq<byte>): int {
    var t := SkipSpace(s);
    if t != [] && t[0] == 45 then
      var magnitude: int := Digits(t[1..], 0);
      ToInt(-magnitude)
    else if t != [] && t[0] == 43 then ToInt(Digits(t[1..], 0))
    else ToInt(Digits(t, 0))
  }

  /** The decimal digits of a number, the most significant first. */
  function Decimal(n: nat): seq<byte> {
    (if n < 10 then [] else Decimal(n / 10)) + [48 + n % 10]
  }

  lemma {:induction false} DigitsOfDecimal(n: nat, rest: seq<byte>)
    ensures Digits(Decimal(n) + rest, 0) == Digits(rest, n)
    ensures 48 <= Decimal(n)[0] <= 57
    decreases n
  {
    var last: seq<byte> := [48 + n % 10];
    assert Digits(last + rest, n / 10) == Digits(rest, n) by {
      assert (last + rest)[1..] == rest;
    }
    if n < 10 {
      assert [] + last == last;
    } else {
      DigitsOfDecimal(n / 10, last + rest);
      assert Decimal(n) + rest == Decimal(n / 10) + (last + rest);
    }
  }

  /** r is v, cut off at the smallest and the largest long, wrapped to 32 bits. */
  predicate WrapsTo(v: int, r: int) {
    && -0x8000_0000 <= r <= 0x7FFF_FFFF
    && (v > 0x7FFF_FFFF_FFFF_FFFF ==> r == -1)
    && (v < -0x8000_0000_0000_0000 ==> r == 0)
    && (-0x8000_0000_0000_0000 <= v <= 0x7FFF_FFFF_FFFF_FFFF ==> (r - v) % 0x1_0000_0000 == 0)
    && (-0x8000_0000 <= v <= 0x7FFF_FFFF ==> r == v)
  }

  lemma ToIntWraps(v: int)
    ensures WrapsTo(v, ToInt(v))
  {
  }

  lemma AtoiReads(n: int, rest: seq<byte>)
    requires n >= 0 && (rest == [] || rest[0] < 48 || rest[0] > 57)
    ensures var digits := Decimal(n) + rest;
            Atoi(digits) == Atoi([43] + digits) == ToInt(n) && Atoi([45] + digits) == ToInt(-n)
  {
    var digits := Decimal(n) + rest;
    DigitsOfDecimal(n, rest);
    assert Digits(rest, n) == n;
    assert ([45] + digits)[1..] == digits && ([43] + digits)[1..] == digits;
    assert digits[0] == Decimal(n)[0];
    hide Decimal;
    hide Digits;
    hide ToInt;
  }

  /**
   * Reading the decimal digits of n gives n, with a minus its negative, whatever follows them that is
   * no digit: the number itself while it fits 32 bits.
   */
  lemma AtoiOfDecimal(n: int, rest: seq<byte>)
    requires n >= 0 && (rest == [] || rest[0] < 48 || rest[0] > 57)
    ensures var digits := Decimal(n) + rest;
            WrapsTo(n, Atoi(digits)) && WrapsTo(n, Atoi([43] + digits)) && WrapsTo(-n, Atoi([45] + digits))
  {
    hide *;
    AtoiReads(n, rest);
    ToIntWraps(n);
    ToIntWraps(-n);
  }

  /** White space in front does not count, and text that begins with no number reads as 0. */
  lemma AtoiOfOther(c: byte, s: seq<byte>)
    ensures c == 32 || 9 <= c <= 13 ==> Atoi([c] + s) == Atoi(s)
    ensures c != 32 && !(9 <= c <= 13) && c != 43 && c != 45 && !(48 <= c <= 57) ==> Atoi([c] + s) == 0
    ensures Atoi([]) == 0
  {
    assert ([c] + s)[1..] == s;
  }

  // States

  datatype Account = Account(name: seq<byte>, pass: Option<seq<byte>>)

  /** The settings the manager commands change. */
  datatype Config = Config(baseDir: seq<byte>, host: seq<byte>, transform: bool)

  datatype Counters = Counters(messages: int, octets: int, total: int, most: int)

  datatype Path = Path(baseDir: seq<byte>, account: seq<byte>, folder: Folder, name: seq<byte>)

  /** A request to move the listening socket. */
  datatype Rebind = ToPort(port: int) | ToAddress(address: seq<byte>)

  datatype State = State(
    mode: Mode,
    account: Option<Account>,
    mail: Option<Maildir>,
    config: Config,
    counters: Counters,
    removed: seq<Path>, // every remove() call of this session
    rebinds: seq<Rebind>,
    aborted: bool) // the process hit the assertion on lines shorter than a command word

  /** The contents of an account's folders under a base directory. */
  type Disk = (seq<byte>, seq<byte>) -> Listing

  datatype Reply =
    | MissingUsername | UserNotFound | UserAccepted
    | AlreadyLoggedOn | MissingPassword | PasswordIncorrect | PasswordAccepted
    | MustLogIn
    | Totals(count: int, octets: int) | Scan(number: int, size: int) | EndOfList
    | ArgumentError | MessageNotFound | InvalidNumber
    | Octets(size: int) | Contents(path: Path, transformed: bool)
    | MessageDeleted(number: int)
    | Done
    | LackPrivilege
    | Settings(config: Config) | Metrics(counters: Counters) | LogFile
    | Goodbye
    | UnknownCommand

  type Answer = (State, seq<Reply>)

  /** What the mode and the pointers of a session owe each other. */
  predicate Sound(s: State) {
    s.mode == Transaction ==> s.account.Some? && s.mail.Some?
  }

  // The commands

  /** The first account whose name starts with the given text. */
  function FindAccount(accounts: seq<Account>, text: seq<byte>): Option<Account> {
    if accounts == [] then None
    else if text <= accounts[0].name then Some(accounts[0])
    else FindAccount(accounts[1..], text)
  }

  function OnUser(accounts: seq<Account>, s: State, arg: Option<seq<byte>>): Answer {
    var t := if s.mode != Authorization && s.mode != Manager then s.(mode := Authorization) else s;
    if arg.None? then (t, [MissingUsername])
    else
      var found := FindAccount(accounts, arg.value);
      if found.None? then (t, [UserNotFound]) else (t.(account := found), [UserAccepted])
  }

  predicate PasswordMatches(s: State, pass: seq<byte>) {
    s.account.Some? && s.account.value.pass == Some(pass)
  }

  function OnPass(s: State, arg: Option<seq<byte>>, disk: Disk): Answer {
    if s.mode != Authorization then (s, [AlreadyLoggedOn])
    else if arg.None? then (s, [MissingPassword])
    else if !PasswordMatches(s, arg.value) then (s, [PasswordIncorrect])
    else
      (s.(mode := Transaction, mail := Some(Loaded(disk(s.config.baseDir, s.account.value.name)))), [PasswordAccepted])
  }

  function TotalsOf(m: Maildir): Reply {
    Totals(StatCount(m), StatOctets(m))
  }

  function ScanReplies(lines: seq<(int, int)>): (r: seq<Reply>)
    ensures |r| == |lines|
    ensures forall i :: 0 <= i < |r| ==> r[i] == Scan(lines[i].0, lines[i].1)
  {
    seq(|lines|, i requires 0 <= i < |lines| => Scan(lines[i].0, lines[i].1))
  }

  /** list_messages; a number it refuses gets no reply at all. */
  function ListReplies(m: Maildir, number: int): seq<Reply> {
    if number == -1 then [TotalsOf(m)] + ScanReplies(ListAll(m)) + [EndOfList]
    else if number > 0 && ListOne(m, number).Some? then
      var line := ListOne(m, number).value;
      [Scan(line.0, line.1)]
    else []
  }

  function OnList(s: State, arg: Option<seq<byte>>): Answer
    requires Sound(s)
  {
    if s.mode != Transaction then (s, [MustLogIn])
    else if arg.None? then (s, ListReplies(s.mail.value, -1))
    else
      var number := Atoi(arg.value);
      if number == 0 then (s, [ArgumentError]) else (s, ListReplies(s.mail.value, number))
  }

  function OnRetr(s: State, arg: Option<seq<byte>>): Answer
    requires Sound(s)
  {
    if s.mode != Transaction then (s, [MustLogIn])
    else if arg.None? || Atoi(arg.value) == 0 then (s, [ArgumentError])
    else
      var found := Retrieve(s.mail.value, Atoi(arg.value));
      if found.None? then (s, [MessageNotFound])
      else
        var (folder, entry) := found.value;
        (s.(counters := s.counters.(messages := s.counters.messages + 1, octets := s.counters.octets + entry.size)),
         [Octets(entry.size),
          Contents(Path(s.config.baseDir, s.account.value.name, folder, entry.name), s.config.transform)])
  }

  function OnDele(s: State, arg: Option<seq<byte>>): Answer
    requires Sound(s)
  {
    if s.mode != Transaction then (s, [MustLogIn])
    else if arg.None? || Atoi(arg.value) == 0 then (s, [ArgumentError])
    else
      var number := Atoi(arg.value);
      if number < 1 then (s, [InvalidNumber])
      else if Delete(s.mail.value, number).None? then (s, [MessageNotFound])
      else (s.(mail := Delete(s.mail.value, number)), [MessageDeleted(number)])
  }

  function OnRset(s: State): Answer
    requires Sound(s)
  {
    if s.mode != Transaction then (s, [MustLogIn])
    else
      var m := AllCleared(s.mail.value);
      (s.(mail := Some(m)), [TotalsOf(m)])
  }

  function OnStat(s: State): Answer
    requires Sound(s)
  {
    if s.mode != Transaction then (s, [MustLogIn]) else (s, [TotalsOf(s.mail.value)])
  }

  function Paths(baseDir: seq<byte>, account: seq<byte>, files: seq<(Folder, seq<byte>)>): (r: seq<Path>)
    ensures |r| == |files|
    ensures forall i :: 0 <= i < |r| ==> r[i] == Path(baseDir, account, files[i].0, files[i].1)
  {
    seq(|files|, i requires 0 <= i < |files| => Path(baseDir, account, files[i].0, files[i].1))
  }

  function OnQuit(s: State): Answer
    requires Sound(s)
  {
    var t := if s.mode != Transaction then s
             else s.(mail := None,
                     removed := s.removed + Paths(s.config.baseDir, s.account.value.name, RemovedFiles(s.mail.value)));
    (t.(mode := Closing), [Goodbye])
  }

  /** The commands that need the manager mode. */
  function OnManage(s: State, v: Verb, text: seq<byte>): Answer {
    if s.mode != Manager then (s, [LackPrivilege])
    else
      match v
      case Port => (s.(rebinds := s.rebinds + [ToPort(Atoi(text))]), [Done])
      case Ipv6 => (s.(rebinds := s.rebinds + [ToAddress(text)]), [Done])
      case Host => (s.(config := s.config.(host := text)), [Done])
      case Dirr => (s.(config := s.config.(baseDir := text)), [Done])
      case Tran => (s.(config := s.config.(transform := Atoi(text) == 1)), [Done])
      case Info => (s, [Settings(s.config)])
      case Metr => (s, [Metrics(s.counters)])
      case _ => (s, [LogFile])
  }

  /** One command line. */
  function Handle(accounts: seq<Account>, s: State, line: Line, disk: Disk): Answer
    requires Sound(s)
  {
    if |line| < 4 then (s.(aborted := true), [])
    else
      match VerbOf(line)
      case User => OnUser(accounts, s, Argument(line))
      case Pass => OnPass(s, Argument(line), disk)
      case Stat => OnStat(s)
      case List => OnList(s, Argument(line))
      case Retr => OnRetr(s, Argument(line))
      case Dele => OnDele(s, Argument(line))
      case Noop => (s, [Done])
      case Rset => OnRset(s)
      case Quit => OnQuit(s)
      case Unknown => (s, [UnknownCommand])
      case v => OnManage(s, v, Tail(line))
  }

  lemma ShortLineAborts(accounts: seq<Account>, s: State, line: Line, disk: Disk)
    requires Sound(s) && |line| < 4
    ensures Handle(accounts, s, line, disk) == (s.(aborted := true), [])
  {
  }

  lemma HandleKeepsSound(accounts: seq<Account>, s: State, line: Line, disk: Disk)
    requires Sound(s)
    ensures Sound(Handle(accounts, s, line, disk).0)
  {
    hide VerbOf;
    hide Delete;
    hide FindAccount;
    hide RemovedFiles;
  }

  predicate Stopped(s: State) {
    s.aborted || s.mode == Closing
  }

  /** Lines one after the other, until the session stops. */
  function HandleLines(accounts: seq<Account>, s: State, lines: seq<Line>, disk: Disk): (a: Answer)
    requires Sound(s)
    ensures Sound(a.0)
    decreases lines
  {
    if lines == [] || Stopped(s) then (s, [])
    else
      HandleKeepsSound(accounts, s, lines[0], disk);
      var (s1, r1) := Handle(accounts, s, lines[0], disk);
      var (s2, r2) := HandleLines(accounts, s1, lines[1..], disk);
      (s2, r1 + r2)
  }

  /** Part of the lines is handled: state and replies so far, continued by the rest, give the whole. */
  ghost predicate HandledSoFar(accounts: seq<Account>, start: State, lines: seq<Line>, disk: Disk,
                               now: State, replies: seq<Reply>, rest: seq<Line>) {
    && Sound(start) && Sound(now)
    && HandleLines(accounts, start, lines, disk)
       == (HandleLines(accounts, now, rest, disk).0, replies + HandleLines(accounts, now, rest, disk).1)
  }

  lemma NothingHandledYet(accounts: seq<Account>, start: State, lines: seq<Line>, disk: Disk)
    requires Sound(start)
    ensures HandledSoFar(accounts, start, lines, disk, start, [], lines)
  {
    hide HandleLines;
    var a := HandleLines(accounts, start, lines, disk);
    assert [] + a.1 == a.1;
  }

  lemma OneLineHandled(accounts: seq<Account>, start: State, lines: seq<Line>, disk: Disk,
                       now: State, replies: seq<Reply>, rest: seq<Line>)
    requires HandledSoFar(accounts, start, lines, disk, now, replies, rest) && rest != [] && !Stopped(now)
    ensures var (next, more) := Handle(accounts, now, rest[0], disk);
            HandledSoFar(accounts, start, lines, disk, next, replies + more, rest[1..])
  {
    hide Handle;
    HandleKeepsSound(accounts, now, rest[0], disk);
    var (next, more) := Handle(accounts, now, rest[0], disk);
    var later := HandleLines(accounts, next, rest[1..], disk);
    assert HandleLines(accounts, now, rest, disk) == (later.0, more + later.1);
    assert replies + (more + later.1) == (replies + more) + later.1;
  }

  lemma AllHandled(accounts: seq<Account>, start: State, lines: seq<Line>, disk: Disk,
                   now: State, replies: seq<Reply>, rest: seq<Line>)
    requires HandledSoFar(accounts, start, lines, disk, now, replies, rest) && (rest == [] || Stopped(now))
    ensures HandleLines(accounts, start, lines, disk) == (now, replies)
  {
    assert replies + [] == replies;
  }

  /** handle_client for a received chunk: the new state, the replies and the new leftover. */
  function HandleChunk(accounts: seq<Account>, s: State, leftover: seq<byte>, chunk: seq<byte>, disk: Disk)
    : (State, seq<Reply>, seq<byte>)
    requires Sound(s)
  {
    var e := Extract(leftover, chunk);
    var (t, replies) := HandleLines(accounts, s, e.lines, disk);
    (t, replies, if Stopped(t) then [] else e.leftover)
  }

  lemma ChunkIsHandled(accounts: seq<Account>, s: State, leftover: seq<byte>, chunk: seq<byte>, disk: Disk,
                       t: State, replies: seq<Reply>)
    requires Sound(s) && HandleLines(accounts, s, Extract(leftover, chunk).lines, disk) == (t, replies)
    ensures HandleChunk(accounts, s, leftover, chunk, disk)
            == (t, replies, if Stopped(t) then [] else Extract(leftover, chunk).leftover)
  {
  }

  lemma QuitIsQuit(line: Line)
    requires |line| >= 4
    ensures VerbOf(line) == Quit <==> line[..4] == QUIT_WORD
  {
  }

  /** What a recv call gave: some bytes, nothing, or the end of the connection. */
  datatype Received = Bytes(chunk: seq<byte>) | Nothing | Closed

  /** handle_client for any outcome of recv; without bytes it still drops the leftover. */
  function HandleReceived(accounts: seq<Account>, s: State, leftover: seq<byte>, received: Received, disk: Disk)
    : (State, seq<Reply>, seq<byte>)
    requires Sound(s)
  {
    match received
    case Bytes(chunk) => HandleChunk(accounts, s, leftover, chunk, disk)
    case Nothing => (s, [], [])
    case Closed => (s.(mode := Closing), [], [])
  }

  /** A session that is over keeps no partial line. */
  lemma EndedKeepsNothing(accounts: seq<Account>, s: State, leftover: seq<byte>, received: Received, disk: Disk)
    requires Sound(s)
    ensures var (t, replies, rest) := HandleReceived(accounts, s, leftover, received, disk);
            t.mode == Closing ==> rest == []
  {
    hide HandleLines;
    hide Extract;
  }

  /** QUIT is the only line that ends a session, and too short a line the only one that aborts. */
  lemma StopsOnFinalLine(accounts: seq<Account>, s: State, line: Line, disk: Disk)
    requires Sound(s) && !Stopped(s)
    ensures Stopped(Handle(accounts, s, line, disk).0) <==> Final(line)
  {
    if |line| >= 4 {
      QuitIsQuit(line);
      hide VerbOf;
      hide Delete;
      hide FindAccount;
      hide RemovedFiles;
    }
  }

  /** A call handles the lines of its chunk up to the first final one, which is what Handled assumes. */
  lemma {:induction false} LinesAfterFinalAreIgnored(accounts: seq<Account>, s: State, lines: seq<Line>, disk: Disk)
    requires Sound(s) && !Stopped(s)
    ensures HandleLines(accounts, s, lines, disk) == HandleLines(accounts, s, UpToFinal(lines), disk)
    ensures Stopped(HandleLines(accounts, s, lines, disk).0) <==> HasFinal(lines)
    decreases lines
  {
    if lines != [] {
      var t := Handle(accounts, s, lines[0], disk).0;
      HandleKeepsSound(accounts, s, lines[0], disk);
      StopsOnFinalLine(accounts, s, lines[0], disk);
      hide Handle;
      hide Final;
      if Final(lines[0]) {
        assert UpToFinal(lines)[1..] == [];
      } else {
        LinesAfterFinalAreIgnored(accounts, t, lines[1..], disk);
        assert UpToFinal(lines)[1..] == UpToFinal(lines[1..]);
        if i :| 0 <= i < |lines[1..]| && Final(lines[1..][i]) {
          assert Final(lines[i + 1]);
        }
        if i :| 0 <= i < |lines| && Final(lines[i]) {
          assert Final(lines[1..][i - 1]);
        }
      }
    }
  }
}
