/**
 * What the bytes of one command line do: for each command of src/server/pop3.c the replies and the
 * new state, by message numbers and settings instead of by branches.
 */
module Commands {
  import opened Bytes
  import opened Modes
  import opened MailList
  import opened Mailbox
  import opened Session
  import opened SessionRuns

  /** Commands of the transaction: what they are answered outside of it. */
  predicate NeedsLogin(v: Verb) {
    v in {Stat, List, Retr, Dele, Rset}
  }

  predicate NeedsManager(v: Verb) {
    v in {Info, Metr, Logg, Port, Host, Dirr, Tran, Ipv6}
  }

  /** A session that handles an event: it is not over, and the event is a line with this command. */
  ghost predicate Hears(s: State, ev: Event, v: Verb) {
    Sound(s) && !Stopped(s) && IsVerb(ev, v)
  }

  lemma HeardIs(accounts: seq<Account>, s: State, ev: Event, v: Verb)
    requires Hears(s, ev, v)
    ensures |ev.line| >= 4 && Deliver(accounts, s, ev) == Handle(accounts, s, ev.line, ev.disk)
    ensures v == Stat ==> Deliver(accounts, s, ev) == OnStat(s)
    ensures v == List ==> Deliver(accounts, s, ev) == OnList(s, Argument(ev.line))
    ensures v == Retr ==> Deliver(accounts, s, ev) == OnRetr(s, Argument(ev.line))
    ensures v == Dele ==> Deliver(accounts, s, ev) == OnDele(s, Argument(ev.line))
    ensures v == Rset ==> Deliver(accounts, s, ev) == OnRset(s)
    ensures NeedsManager(v) ==> Deliver(accounts, s, ev) == OnManage(s, v, Tail(ev.line))
  {
    hide VerbOf;
    hide OnStat;
    hide OnList;
    hide OnRetr;
    hide OnDele;
    hide OnRset;
    hide OnManage;
  }

  /** Without login, or without being a manager, a command is refused and changes nothing. */
  lemma RefusedOutside(accounts: seq<Account>, s: State, ev: Event, v: Verb)
    requires Hears(s, ev, v)
    ensures NeedsLogin(v) && s.mode != Transaction ==> Deliver(accounts, s, ev) == (s, [MustLogIn])
    ensures NeedsManager(v) && s.mode != Manager ==> Deliver(accounts, s, ev) == (s, [LackPrivilege])
  {
    HeardIs(accounts, s, ev, v);
    hide Deliver;
    hide VerbOf;
    hide Handle;
  }

  /** NOOP and unknown words change nothing; a manager's INFO and METR show the settings and the counters. */
  lemma AsksOnly(accounts: seq<Account>, s: State, ev: Event, v: Verb)
    requires Hears(s, ev, v)
    ensures v == Noop ==> Deliver(accounts, s, ev) == (s, [Done])
    ensures v == Unknown ==> Deliver(accounts, s, ev) == (s, [UnknownCommand])
    ensures s.mode == Manager && v == Info ==> Deliver(accounts, s, ev) == (s, [Settings(s.config)])
    ensures s.mode == Manager && v == Metr ==> Deliver(accounts, s, ev) == (s, [Metrics(s.counters)])
    ensures s.mode == Manager && v == Logg ==> Deliver(accounts, s, ev) == (s, [LogFile])
  {
    hide VerbOf;
    hide Atoi;
  }

  /** USER takes the session out of a transaction, and picks an account or none. */
  lemma UserAnswers(accounts: seq<Account>, s: State, ev: Event)
    requires Hears(s, ev, User)
    ensures var (t, said) := Deliver(accounts, s, ev);
            && t == s.(mode := if s.mode == Manager then Manager else Authorization, account := t.account)
            && (if Chooses(accounts, s, ev) then t.account == FindAccount(accounts, ev.line[5..]) && said == [UserAccepted]
                else t.account == s.account && said == [if |ev.line| == 4 then MissingUsername else UserNotFound])
  {
    if |ev.line| > 4 {
      FirstByPrefix(accounts, ev.line[5..]);
    }
    hide VerbOf;
    hide FindAccount;
  }

  /** PASS is refused outside of the login, without text, and with anything but the stored password. */
  lemma PassAnswers(accounts: seq<Account>, s: State, ev: Event)
    requires Hears(s, ev, Pass)
    ensures var (t, said) := Deliver(accounts, s, ev);
            if LogsIn(s, ev) then
              && t == s.(mode := Transaction, mail := Some(Loaded(ev.disk(s.config.baseDir, s.account.value.name))))
              && said == [PasswordAccepted]
            else
              && t == s
              && said == [if s.mode != Authorization then AlreadyLoggedOn
                          else if |ev.line| == 4 then MissingPassword else PasswordIncorrect]
  {
    hide VerbOf;
    hide Loaded;
  }

  /** Number and octets of all messages, marked or not. */
  function Summary(m: Maildir): Reply {
    Totals(|All(m)|, Total(All(m)))
  }

  lemma SummaryIs(m: Maildir)
    ensures TotalsOf(m) == Summary(m)
  {
    ListAllMatchesStat(m);
    hide All;
    hide ListAll;
    hide StatCount;
    hide StatOctets;
  }

  /** STAT tells how many messages there are, and the sum of their sizes. */
  lemma StatTells(accounts: seq<Account>, s: State, ev: Event)
    requires Hears(s, ev, Stat) && s.mode == Transaction
    ensures Deliver(accounts, s, ev) == (s, [Summary(s.mail.value)])
  {
    HeardIs(accounts, s, ev, Stat);
    SummaryIs(s.mail.value);
    hide Deliver;
    hide Handle;
    hide VerbOf;
    hide TotalsOf;
    hide Summary;
  }

  /** RSET takes back every mark, and nothing else, and answers as STAT does. */
  lemma RsetClears(accounts: seq<Account>, s: State, ev: Event)
    requires Hears(s, ev, Rset) && s.mode == Transaction
    ensures var (t, said) := Deliver(accounts, s, ev);
            && t == s.(mail := t.mail) && t.mail.Some? && All(t.mail.value) == Cleared(All(s.mail.value))
            && said == [Summary(t.mail.value)]
  {
    HeardIs(accounts, s, ev, Rset);
    SummaryIs(AllCleared(s.mail.value));
    ClearedIsUnmarkedEverywhere(s.mail.value);
    hide Deliver;
    hide Handle;
    hide VerbOf;
    hide TotalsOf;
    hide Summary;
    hide AllCleared;
    hide All;
  }

  /** The answer to LIST without a number: the totals, one line for each message in order, and the end. */
  ghost predicate IsListing(said: seq<Reply>, m: Maildir) {
    && |said| == |All(m)| + 2 && said[0] == Summary(m) && said[|said| - 1] == EndOfList
    && forall i :: 0 <= i < |All(m)| ==> said[i + 1] == Scan(i + 1, All(m)[i].size)
  }

  lemma ListingIs(m: Maildir)
    ensures IsListing(ListReplies(m, -1), m)
  {
    SummaryIs(m);
    ListAllMatchesStat(m);
    var scans := ScanReplies(ListAll(m));
    assert ListReplies(m, -1) == [Summary(m)] + scans + [EndOfList];
    hide *;
    ListingOf(Summary(m), scans, m);
  }

  lemma ListingOf(first: Reply, scans: seq<Reply>, m: Maildir)
    requires first == Summary(m) && |scans| == |All(m)|
    requires forall i :: 0 <= i < |scans| ==> scans[i] == Scan(i + 1, All(m)[i].size)
    ensures IsListing([first] + scans + [EndOfList], m)
  {
    hide All;
    hide Summary;
  }

  /** LIST shows all messages, with a number the message of that number; -1 counts as no number. */
  lemma ListShows(accounts: seq<Account>, s: State, ev: Event)
    requires Hears(s, ev, List) && s.mode == Transaction
    ensures var (t, said) := Deliver(accounts, s, ev);
            var m := s.mail.value;
            && t == s
            && (|ev.line| == 4 || NumberIn(ev) == -1 ==> IsListing(said, m))
            && (|ev.line| > 4 && NumberIn(ev) == 0 ==> said == [ArgumentError])
            && (1 <= NumberIn(ev) <= |All(m)| ==> said == [Scan(NumberIn(ev), All(m)[NumberIn(ev) - 1].size)])
  {
    HeardIs(accounts, s, ev, List);
    ListingIs(s.mail.value);
    if NumberIn(ev) > 0 {
      ListOneIsLineOfListAll(s.mail.value, NumberIn(ev));
    }
    hide Deliver;
    hide Handle;
    hide VerbOf;
    hide Atoi;
    hide All;
    hide ListAll;
    hide ListOne;
    hide IsListing;
  }

  /** The transaction's RETR with a number. */
  ghost predicate Retrieves(s: State, ev: Event, n: int) {
    Hears(s, ev, Retr) && s.mode == Transaction && |ev.line| > 4 && Atoi(ev.line[5..]) == n && n != 0
  }

  /** The answer to RETR: the size, then the file under that path, transformed if the settings say so. */
  function FileReplies(size: int, path: Path, config: Config): seq<Reply> {
    [Octets(size), Contents(path, config.transform)]
  }

  /** RETR n serves what is in place n of the first list that has one, from the account's folder under the base directory. */
  lemma RetrServes(accounts: seq<Account>, s: State, ev: Event, n: int)
    requires Retrieves(s, ev, n)
    ensures var (t, said) := Deliver(accounts, s, ev);
            match RetrievedPlace(s.mail.value, n)
            case None => said == [MessageNotFound] && t == s
            case Some(place) =>
              && EntryAt(s.mail.value, place).Some?
              && var e := EntryAt(s.mail.value, place).value;
                 && said == FileReplies(e.size, Path(s.config.baseDir, s.account.value.name, place.0, e.name), s.config)
                 && t == s.(counters := s.counters.(messages := s.counters.messages + 1,
                                                    octets := s.counters.octets + e.size))
  {
    HeardIs(accounts, s, ev, Retr);
    RetrieveIsAt(s.mail.value, n);
    hide Deliver;
    hide Handle;
    hide VerbOf;
    hide Atoi;
    hide Retrieve;
    hide RetrievedPlace;
    hide EntryAt;
  }

  lemma RetrieveIsAt(m: Maildir, n: int)
    ensures match RetrievedPlace(m, n)
            case None => Retrieve(m, n) == None
            case Some(place) =>
              EntryAt(m, place).Some? && Retrieve(m, n) == Some((place.0, EntryAt(m, place).value))
  {
  }

  /** No two files of a folder have the same name. */
  predicate NamesDiffer(es: seq<Entry>) {
    forall i, j :: 0 <= i < j < |es| ==> es[i].name != es[j].name
  }

  /**
   * RETR n answers with message n, its size and its file, if and only if the lists searched before
   * its own are empty, given that the names in a folder are different.
   */
  lemma RetrServesMessageIff(accounts: seq<Account>, s: State, ev: Event, n: int)
    requires Retrieves(s, ev, n) && 1 <= n <= |All(s.mail.value)|
    requires var m := s.mail.value; NamesDiffer(m.inNew) && NamesDiffer(m.inCur) && NamesDiffer(m.inTmp)
    ensures var m := s.mail.value;
            Deliver(accounts, s, ev).1 == FileReplies(All(m)[n - 1].size, MessagePath(s, n), s.config)
            <==> n <= |m.inNew| || (m.inNew == [] && (n <= |m.inCur| || m.inCur == []))
  {
    var m := s.mail.value;
    RetrServes(accounts, s, ev, n);
    RetrieveIsMessageIff(m, n);
    OtherPlaceOtherFile(m, n);
    hide Deliver;
    hide VerbOf;
    hide Atoi;
    hide RetrievedPlace;
    hide EntryAt;
    hide Place;
    hide Retrieve;
    hide All;
  }

  /** Where RETR finds something else than message n, it has another folder or another name. */
  lemma OtherPlaceOtherFile(m: Maildir, n: int)
    requires 1 <= n <= |All(m)| && NamesDiffer(m.inNew) && NamesDiffer(m.inCur) && NamesDiffer(m.inTmp)
    ensures var found, place := RetrievedPlace(m, n), Place(m, n);
            && EntryAt(m, place) == Some(All(m)[n - 1])
            && (found.Some? && found != Some(place) ==>
                 && EntryAt(m, found.value).Some?
                 && (found.value.0 != place.0 || EntryAt(m, found.value).value.name != All(m)[n - 1].name))
  {
    RetrieveIsMessageIff(m, n);
  }

  /** "DELE " and the digits of n mark message n and no other, or are refused without effect. */
  lemma DeleOfDigits(accounts: seq<Account>, s: State, n: nat, disk: Disk)
    requires Sound(s) && !Stopped(s) && s.mode == Transaction && n <= 0x7FFF_FFFF
    ensures var line := [0x44, 0x45, 0x4C, 0x45, 0x20] + Decimal(n); // "DELE "
            var (t, said) := Deliver(accounts, s, Command(line, disk));
            var all := All(s.mail.value);
            if 1 <= n <= |all| then
              && t == s.(mail := t.mail) && t.mail.Some? && said == [MessageDeleted(n)]
              && All(t.mail.value) == all[n - 1 := all[n - 1].(deleted := true)]
            else t == s && said == [if n == 0 then ArgumentError else MessageNotFound]
  {
    var line := [0x44, 0x45, 0x4C, 0x45, 0x20] + Decimal(n);
    var ev := Command(line, disk);
    assert line[..4] == [0x44, 0x45, 0x4C, 0x45] && line[5..] == Decimal(n) && |line| > 5;
    VerbIs(line);
    assert Decimal(n) + [] == Decimal(n);
    AtoiOfDecimal(n, []);
    HeardIs(accounts, s, ev, Dele);
    DeleteMarksOneMessage(s.mail.value, n);
    hide Deliver;
    hide Handle;
    hide VerbOf;
    hide Atoi;
    hide Decimal;
    hide Delete;
    hide All;
  }
}
