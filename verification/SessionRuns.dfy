/** Whole runs of a session: what no sequence of commands, disconnects and other sessions' changes can break. */
module SessionRuns {
  import opened Bytes
  import opened Modes
  import opened Framing
  import opened MailList
  import opened Mailbox
  import opened Session

  /**
   * What can happen to a session: a command line, the end of the connection, or a change other
   * sessions make to the settings and counters they all share.
   */
  datatype Event =
    | Command(line: Line, disk: Disk)
    | HangUp
    | Others(config: Config, counters: Counters)

  datatype Run = Run(accounts: seq<Account>, start: State, events: seq<Event>)

  /** A new connection, by a user or by a manager. */
  ghost predicate Starts(s: State) {
    && (s.mode == Authorization || s.mode == Manager)
    && s.account == None && s.mail == None && s.removed == [] && s.rebinds == [] && !s.aborted
  }

  lemma StartIsSound(s: State)
    requires Starts(s)
    ensures Sound(s)
  {
  }

  ghost function Deliver(accounts: seq<Account>, s: State, ev: Event): (a: Answer)
    requires Sound(s)
    ensures Sound(a.0)
  {
    if Stopped(s) then (s, [])
    else
      match ev
      case Command(line, disk) =>
        HandleKeepsSound(accounts, s, line, disk);
        Handle(accounts, s, line, disk)
      case HangUp => (s.(mode := Closing), [])
      case Others(config, counters) => (s.(config := config, counters := counters), [])
  }

  /** The state in front of event k. */
  ghost function Before(r: Run, k: nat): (s: State)
    requires Sound(r.start) && k <= |r.events|
    ensures Sound(s)
    decreases k
  {
    if k == 0 then r.start else Deliver(r.accounts, Before(r, k - 1), r.events[k - 1]).0
  }

  lemma RunBegins(r: Run)
    requires Starts(r.start)
    ensures Sound(r.start) && Before(r, 0) == r.start
    ensures r.start.mail == None && r.start.removed == [] && r.start.rebinds == [] && r.start.mode != Transaction
  {
  }

  ghost function Replies(r: Run, k: nat): seq<Reply>
    requires Sound(r.start) && k < |r.events|
  {
    Deliver(r.accounts, Before(r, k), r.events[k]).1
  }

  ghost function AllReplies(r: Run, k: nat): seq<Reply>
    requires Sound(r.start) && k <= |r.events|
    decreases k
  {
    if k == 0 then [] else AllReplies(r, k - 1) + Replies(r, k - 1)
  }

  ghost predicate IsVerb(ev: Event, v: Verb) {
    ev.Command? && |ev.line| >= 4 && VerbOf(ev.line) == v
  }

  // What the lines of a run do

  /** The number a command carries, as atoi reads it; 0 without one. */
  ghost function NumberIn(ev: Event): int {
    if ev.Command? && |ev.line| > 4 then Atoi(ev.line[5..]) else 0
  }

  /** PASS with the stored password of the chosen account, byte for byte, before login. */
  ghost predicate LogsIn(s: State, ev: Event) {
    && !s.aborted && s.mode == Authorization && IsVerb(ev, Pass)
    && |ev.line| > 4 && s.account.Some? && s.account.value.pass == Some(ev.line[5..])
  }

  /** DELE in a transaction with the number of a message. */
  ghost predicate Deletes(s: State, ev: Event, n: int)
    requires Sound(s)
  {
    && !s.aborted && s.mode == Transaction && IsVerb(ev, Dele)
    && |ev.line| > 4 && Atoi(ev.line[5..]) == n && 1 <= n <= |All(s.mail.value)|
  }

  /** RSET in a transaction. */
  ghost predicate Resets(s: State, ev: Event) {
    !s.aborted && s.mode == Transaction && IsVerb(ev, Rset)
  }

  ghost predicate LoggedIn(r: Run, k: nat)
    requires Sound(r.start)
  {
    k < |r.events| && LogsIn(Before(r, k), r.events[k])
  }

  ghost predicate Deleted(r: Run, k: nat, n: int)
    requires Sound(r.start)
  {
    k < |r.events| && Deletes(Before(r, k), r.events[k], n)
  }

  ghost predicate WasReset(r: Run, k: nat)
    requires Sound(r.start)
  {
    k < |r.events| && Resets(Before(r, k), r.events[k])
  }

  /** PASS is accepted exactly when the line holds the stored password of the chosen account, byte for byte. */
  lemma LoginIff(accounts: seq<Account>, s: State, ev: Event)
    requires Sound(s)
    ensures Deliver(accounts, s, ev).1 == [PasswordAccepted]
            <==> !s.aborted && s.mode == Authorization && IsVerb(ev, Pass)
                 && |ev.line| > 4 && s.account.Some? && s.account.value.pass == Some(ev.line[5..])
  {
    hide VerbOf;
    hide FindAccount;
    hide Delete;
    hide Retrieve;
    hide RemovedFiles;
    hide Loaded;
    hide AllCleared;
    hide Atoi;
  }

  /** DELE on its own: what it answers, and the one mark it sets. */
  lemma DeleAnswers(s: State, arg: Option<seq<byte>>, n: int)
    requires Sound(s)
    ensures var accepted := s.mode == Transaction && arg.Some? && 1 <= Atoi(arg.value) <= |All(s.mail.value)|;
            && (OnDele(s, arg).1 == [MessageDeleted(n)] <==> accepted && Atoi(arg.value) == n)
            && (accepted ==> Delete(s.mail.value, Atoi(arg.value)).Some?)
            && OnDele(s, arg).0.mail == if accepted then Delete(s.mail.value, Atoi(arg.value)) else s.mail
  {
    if s.mode == Transaction && arg.Some? {
      DeleteMarksOneMessage(s.mail.value, Atoi(arg.value));
    }
    hide All;
    hide Delete;
    hide Atoi;
  }

  lemma ListDeletesNothing(m: Maildir, number: int, n: int)
    ensures ListReplies(m, number) != [MessageDeleted(n)]
  {
    hide ListAll;
    hide ListOne;
    hide ScanReplies;
  }

  lemma OthersDeleteNothing(accounts: seq<Account>, s: State, ev: Event, n: int)
    requires Sound(s) && !IsVerb(ev, Dele)
    ensures Deliver(accounts, s, ev).1 != [MessageDeleted(n)]
  {
    hide OnDele;
    hide ListReplies;
    hide VerbOf;
    hide FindAccount;
    hide Retrieve;
    hide RemovedFiles;
    hide Loaded;
    hide AllCleared;
    hide Atoi;
    hide Paths;
    hide PasswordMatches;
    if IsVerb(ev, List) && s.mail.Some? {
      ListDeletesNothing(s.mail.value, -1, n);
      ListDeletesNothing(s.mail.value, NumberIn(ev), n);
    }
  }

  lemma DeleDelivered(accounts: seq<Account>, s: State, ev: Event)
    requires Sound(s) && IsVerb(ev, Dele)
    ensures Deliver(accounts, s, ev) == if Stopped(s) then (s, []) else OnDele(s, Argument(ev.line))
  {
    hide OnDele;
    hide VerbOf;
  }

  /** The deletion of message n is confirmed exactly when the line asks for it and there is such a message. */
  lemma DeleIff(accounts: seq<Account>, s: State, ev: Event, n: int)
    requires Sound(s)
    ensures Deliver(accounts, s, ev).1 == [MessageDeleted(n)]
            <==> !s.aborted && s.mode == Transaction && IsVerb(ev, Dele)
                 && |ev.line| > 4 && Atoi(ev.line[5..]) == n && 1 <= n <= |All(s.mail.value)|
  {
    if IsVerb(ev, Dele) {
      DeleDelivered(accounts, s, ev);
      DeleAnswers(s, Argument(ev.line), n);
    } else {
      OthersDeleteNothing(accounts, s, ev, n);
    }
    hide All;
    hide OnDele;
    hide Deliver;
    hide VerbOf;
    hide Atoi;
    hide Delete;
  }

  /** RSET is answered with the totals exactly in a transaction. */
  lemma RsetIff(accounts: seq<Account>, s: State, ev: Event)
    requires Sound(s) && IsVerb(ev, Rset)
    ensures (exists count, octets :: Deliver(accounts, s, ev).1 == [Totals(count, octets)])
            <==> !s.aborted && s.mode == Transaction
  {
    hide VerbOf;
    hide FindAccount;
    hide Delete;
    hide Retrieve;
    hide RemovedFiles;
    hide Loaded;
    hide AllCleared;
    hide Atoi;
    if Resets(s, ev) {
      var m := AllCleared(s.mail.value);
      assert Deliver(accounts, s, ev).1 == [Totals(StatCount(m), StatOctets(m))];
    }
  }

  /** A DELE n that neither a later login nor a later RSET undid, before event k. */
  ghost predicate PendingSince(r: Run, k: nat, n: int, j: nat)
    requires Sound(r.start)
  {
    j < k && Deleted(r, j, n) && forall i :: j < i < k ==> !LoggedIn(r, i) && !WasReset(r, i)
  }

  ghost predicate Pending(r: Run, k: nat, n: int)
    requires Sound(r.start)
  {
    exists j :: PendingSince(r, k, n, j)
  }

  /** QUIT reaches the session while it is in its transaction. */
  ghost predicate QuitsInTransaction(r: Run, k: nat)
    requires Sound(r.start)
  {
    k < |r.events| && IsVerb(r.events[k], Quit) && Before(r, k).mode == Transaction && !Before(r, k).aborted
  }

  // One event

  lemma MailAfterOthers(accounts: seq<Account>, s: State, ev: Event)
    requires Sound(s) && !IsVerb(ev, Dele)
    ensures var t := Deliver(accounts, s, ev).0;
            if LogsIn(s, ev) then t.mail == Some(Loaded(ev.disk(s.config.baseDir, s.account.value.name)))
            else if Resets(s, ev) then t.mail == Some(AllCleared(s.mail.value))
            else t.mail == s.mail || t.mail == None
  {
    hide OnDele;
    hide ListReplies;
    hide VerbOf;
    hide FindAccount;
    hide Retrieve;
    hide RemovedFiles;
    hide Loaded;
    hide AllCleared;
    hide Atoi;
    hide Paths;
    hide TotalsOf;
  }

  /** Only PASS, RSET, DELE and QUIT touch the maildir: a DELE marks the message its line names. */
  lemma MailAfter(accounts: seq<Account>, s: State, ev: Event)
    requires Sound(s)
    ensures var t := Deliver(accounts, s, ev).0;
            if LogsIn(s, ev) then t.mail == Some(Loaded(ev.disk(s.config.baseDir, s.account.value.name)))
            else if Resets(s, ev) then t.mail == Some(AllCleared(s.mail.value))
            else if Deletes(s, ev, NumberIn(ev)) then
              Delete(s.mail.value, NumberIn(ev)).Some? && t.mail == Delete(s.mail.value, NumberIn(ev))
            else t.mail == s.mail || t.mail == None
  {
    if IsVerb(ev, Dele) {
      DeleDelivered(accounts, s, ev);
      DeleAnswers(s, Argument(ev.line), 0);
    } else {
      MailAfterOthers(accounts, s, ev);
    }
    hide All;
    hide OnDele;
    hide Deliver;
    hide VerbOf;
    hide Atoi;
    hide Delete;
    hide Loaded;
    hide AllCleared;
  }

  // Deletion marks

  lemma PendingStep(r: Run, k: nat, n: int)
    requires Sound(r.start) && k < |r.events|
    ensures Pending(r, k + 1, n) <==> Deleted(r, k, n) || (Pending(r, k, n) && !LoggedIn(r, k) && !WasReset(r, k))
  {
    hide Deleted;
    hide LoggedIn;
    hide WasReset;
    if Deleted(r, k, n) {
      assert PendingSince(r, k + 1, n, k);
    }
    if Pending(r, k, n) && !LoggedIn(r, k) && !WasReset(r, k) {
      var j :| PendingSince(r, k, n, j);
      assert PendingSince(r, k + 1, n, j);
    }
    if Pending(r, k + 1, n) {
      var j :| PendingSince(r, k + 1, n, j);
      assert j == k || PendingSince(r, k, n, j);
    }
  }

  lemma MarksAfter(accounts: seq<Account>, s: State, ev: Event, n: int)
    requires Sound(s) && Deliver(accounts, s, ev).0.mail.Some?
    ensures IsMarked(Deliver(accounts, s, ev).0.mail.value, n)
            <==> Deletes(s, ev, n) || (s.mail.Some? && IsMarked(s.mail.value, n) && !LogsIn(s, ev) && !Resets(s, ev))
  {
    MailAfter(accounts, s, ev);
    hide Deliver;
    hide Delete;
    hide All;
    hide Atoi;
    hide VerbOf;
    if LogsIn(s, ev) {
      NothingLoadedIsMarked(ev.disk(s.config.baseDir, s.account.value.name), n);
    } else if Resets(s, ev) {
      ClearedIsUnmarkedEverywhere(s.mail.value);
    } else if Deletes(s, ev, NumberIn(ev)) {
      MarkedAfterDelete(s.mail.value, NumberIn(ev), n);
    }
  }

  lemma MarksStep(r: Run, k: nat, n: int)
    requires Sound(r.start) && k < |r.events| && Before(r, k + 1).mail.Some?
    ensures var s, t := Before(r, k), Before(r, k + 1);
            && (s.mail.None? ==> LoggedIn(r, k))
            && !(LoggedIn(r, k) && Deleted(r, k, n))
            && (IsMarked(t.mail.value, n)
                <==> Deleted(r, k, n)
                     || (s.mail.Some? && IsMarked(s.mail.value, n) && !LoggedIn(r, k) && !WasReset(r, k)))
  {
    var s, ev, said := Before(r, k), r.events[k], Replies(r, k);
    assert Deliver(r.accounts, s, ev) == (Before(r, k + 1), said);
    hide Before;
    hide Replies;
    hide Deliver;
    hide IsMarked;
    hide Atoi;
    hide VerbOf;
    MarksAfter(r.accounts, s, ev, n);
    MailAfter(r.accounts, s, ev);
  }

  lemma NothingLoadedIsMarked(listing: Listing, n: int)
    ensures !IsMarked(Loaded(listing), n)
  {
  }

  /** The marks in the maildir are exactly the messages that lines asked to delete and that nothing undid. */
  lemma {:induction false} MarkedIffPending(r: Run, k: nat, n: int)
    requires Starts(r.start) && k <= |r.events| && Before(r, k).mail.Some?
    ensures Pending(r, k, n) <==> IsMarked(Before(r, k).mail.value, n)
    decreases k
  {
    hide *;
    RunBegins(r);
    if k > 0 {
      PendingStep(r, k - 1, n);
      MarksStep(r, k - 1, n);
      if Before(r, k - 1).mail.Some? {
        MarkedIffPending(r, k - 1, n);
      }
    }
  }

  predicate IsMarked(m: Maildir, n: int) {
    1 <= n <= |All(m)| && All(m)[n - 1].deleted
  }

  lemma MarkedAfterDelete(m: Maildir, number: int, n: int)
    requires Delete(m, number).Some?
    ensures IsMarked(Delete(m, number).value, n) <==> n == number || IsMarked(m, n)
  {
    DeleteMarksOneMessage(m, number);
  }

  // Removal

  /** The numbers of the marked entries of one list, whose first entry has number offset + 1. */
  function NumbersFrom(es: seq<Entry>, offset: nat): (ns: seq<int>)
    decreases |es|
  {
    if es == [] then []
    else NumbersFrom(es[..|es| - 1], offset) + if es[|es| - 1].deleted then [offset + |es|] else []
  }

  predicate Ascending(ns: seq<int>) {
    forall i, j :: 0 <= i < j < |ns| ==> ns[i] < ns[j]
  }

  /** Number n belongs to a marked entry of this name. */
  predicate Numbers(es: seq<Entry>, offset: nat, n: int, name: seq<byte>) {
    offset < n <= offset + |es| && es[n - offset - 1].deleted && es[n - offset - 1].name == name
  }

  lemma NumbersOneMore(es: seq<Entry>, offset: nat)
    requires es != []
    ensures var front, last := es[..|es| - 1], es[|es| - 1];
            && NumbersFrom(es, offset) == NumbersFrom(front, offset) + (if last.deleted then [offset + |es|] else [])
            && Marked(es) == Marked(front) + (if last.deleted then [last.name] else [])
            && (forall n, name :: Numbers(front, offset, n, name) ==> Numbers(es, offset, n, name))
            && (last.deleted ==> Numbers(es, offset, offset + |es|, last.name))
  {
  }

  lemma {:induction false} NumbersOfMarked(es: seq<Entry>, offset: nat)
    ensures var ns := NumbersFrom(es, offset);
            |ns| == |Marked(es)| && forall i :: 0 <= i < |ns| ==> Numbers(es, offset, ns[i], Marked(es)[i])
    decreases |es|
  {
    if es != [] {
      NumbersOneMore(es, offset);
      NumbersOfMarked(es[..|es| - 1], offset);
      hide NumbersFrom;
      hide Marked;
      hide Numbers;
    }
  }

  lemma {:induction false} NumbersAscend(es: seq<Entry>, offset: nat)
    ensures Ascending(NumbersFrom(es, offset))
    decreases |es|
  {
    if es != [] {
      var front := es[..|es| - 1];
      NumbersOneMore(es, offset);
      NumbersOfMarked(front, offset);
      NumbersAscend(front, offset);
      hide NumbersFrom;
      hide Marked;
    }
  }

  lemma {:induction false} MarkedHasNumber(es: seq<Entry>, offset: nat, n: int)
    requires offset < n <= offset + |es| && es[n - offset - 1].deleted
    ensures n in NumbersFrom(es, offset)
    decreases |es|
  {
    NumbersOneMore(es, offset);
    if n < offset + |es| {
      MarkedHasNumber(es[..|es| - 1], offset, n);
    }
    hide NumbersFrom;
    hide Marked;
  }

  /** Where message n of a session lies on disk. */
  ghost function MessagePath(s: State, n: int): Path
    requires s.mail.Some? && s.account.Some? && 1 <= n <= |All(s.mail.value)|
  {
    Path(s.config.baseDir, s.account.value.name, Place(s.mail.value, n).0, All(s.mail.value)[n - 1].name)
  }

  /** The paths of some messages, in the given order. */
  ghost predicate ArePathsOf(paths: seq<Path>, s: State, ns: seq<int>)
    requires s.mail.Some? && s.account.Some?
  {
    |paths| == |ns| &&
    forall i :: 0 <= i < |ns| ==> 1 <= ns[i] <= |All(s.mail.value)| && paths[i] == MessagePath(s, ns[i])
  }

  ghost function MarkedNumbers(m: Maildir): seq<int> {
    NumbersFrom(m.inNew, 0) + NumbersFrom(m.inCur, |m.inNew|) + NumbersFrom(m.inTmp, |m.inNew| + |m.inCur|)
  }

  lemma MarkedNumbersByList(m: Maildir)
    ensures var a, b := |m.inNew|, |m.inNew| + |m.inCur|;
            var x, y, z := NumbersFrom(m.inNew, 0), NumbersFrom(m.inCur, a), NumbersFrom(m.inTmp, b);
            && (forall i :: 0 <= i < |x| ==> 0 < x[i] <= a)
            && (forall i :: 0 <= i < |y| ==> a < y[i] <= b)
            && (forall i :: 0 <= i < |z| ==> b < z[i] <= |All(m)|)
            && Ascending(x) && Ascending(y) && Ascending(z)
            && |MarkedNumbers(m)| == |x| + |y| + |z| == |RemovedFiles(m)|
  {
    var a, b := |m.inNew|, |m.inNew| + |m.inCur|;
    hide Marked;
    hide NumbersFrom;
    hide Ascending;
    assert |All(m)| == b + |m.inTmp|;
    NumbersInRange(m.inNew, 0);
    NumbersInRange(m.inCur, a);
    NumbersInRange(m.inTmp, b);
    NumbersAscend(m.inNew, 0);
    NumbersAscend(m.inCur, a);
    NumbersAscend(m.inTmp, b);
  }

  lemma NumbersInRange(es: seq<Entry>, offset: nat)
    ensures var ns := NumbersFrom(es, offset);
            |ns| == |Marked(es)| && forall i :: 0 <= i < |ns| ==> offset < ns[i] <= offset + |es|
  {
    NumbersOfMarked(es, offset);
    hide NumbersFrom;
    hide Marked;
    var ns := NumbersFrom(es, offset);
    forall i | 0 <= i < |ns|
      ensures offset < ns[i] <= offset + |es|
    {
      assert Numbers(es, offset, ns[i], Marked(es)[i]);
    }
  }

  lemma MarkedNumbersAscend(m: Maildir)
    ensures Ascending(MarkedNumbers(m))
  {
    MarkedNumbersByList(m);
    var a, b := |m.inNew|, |m.inNew| + |m.inCur|;
    var x, y, z := NumbersFrom(m.inNew, 0), NumbersFrom(m.inCur, a), NumbersFrom(m.inTmp, b);
    hide NumbersFrom;
    forall i, j | 0 <= i < j < |x + y + z|
      ensures (x + y + z)[i] < (x + y + z)[j]
    {
      InThree(x, y, z, i);
      InThree(x, y, z, j);
    }
  }

  /** Three lists side by side: which of them holds position i. */
  lemma InThree<T>(x: seq<T>, y: seq<T>, z: seq<T>, i: nat)
    requires i < |x| + |y| + |z|
    ensures (x + y + z)[i] == if i < |x| then x[i] else if i < |x| + |y| then y[i - |x|] else z[i - |x| - |y|]
  {
  }

  lemma AsManyNumbers(es: seq<Entry>, offset: nat)
    ensures |NumbersFrom(es, offset)| == |Marked(es)|
  {
    NumbersOfMarked(es, offset);
  }

  lemma NumberAt(es: seq<Entry>, offset: nat, i: nat)
    requires i < |NumbersFrom(es, offset)| == |Marked(es)|
    ensures var n := NumbersFrom(es, offset)[i];
            offset < n <= offset + |es| && es[n - offset - 1].deleted && Marked(es)[i] == es[n - offset - 1].name
  {
    NumbersOfMarked(es, offset);
  }

  /** Position i of the removed files names position i of the marked numbers. */
  ghost predicate NamesMarked(m: Maildir, n: int, file: (Folder, seq<byte>)) {
    IsMarked(m, n) && file == (Place(m, n).0, All(m)[n - 1].name)
  }

  lemma MarkedInNew(m: Maildir, i: nat)
    requires i < |NumbersFrom(m.inNew, 0)| == |Marked(m.inNew)|
    ensures NamesMarked(m, NumbersFrom(m.inNew, 0)[i], (NewFolder, Marked(m.inNew)[i]))
  {
    NumberAt(m.inNew, 0, i);
    InThree(m.inNew, m.inCur, m.inTmp, NumbersFrom(m.inNew, 0)[i] - 1);
    hide NumbersFrom;
    hide Marked;
  }

  lemma MarkedInCur(m: Maildir, i: nat)
    requires i < |NumbersFrom(m.inCur, |m.inNew|)| == |Marked(m.inCur)|
    ensures NamesMarked(m, NumbersFrom(m.inCur, |m.inNew|)[i], (CurFolder, Marked(m.inCur)[i]))
  {
    NumberAt(m.inCur, |m.inNew|, i);
    InThree(m.inNew, m.inCur, m.inTmp, NumbersFrom(m.inCur, |m.inNew|)[i] - 1);
    hide NumbersFrom;
    hide Marked;
  }

  lemma MarkedInTmp(m: Maildir, i: nat)
    requires i < |NumbersFrom(m.inTmp, |m.inNew| + |m.inCur|)| == |Marked(m.inTmp)|
    ensures NamesMarked(m, NumbersFrom(m.inTmp, |m.inNew| + |m.inCur|)[i], (TmpFolder, Marked(m.inTmp)[i]))
  {
    NumberAt(m.inTmp, |m.inNew| + |m.inCur|, i);
    InThree(m.inNew, m.inCur, m.inTmp, NumbersFrom(m.inTmp, |m.inNew| + |m.inCur|)[i] - 1);
    hide NumbersFrom;
    hide Marked;
  }

  lemma MarkedNumberAt(m: Maildir, i: nat)
    requires i < |MarkedNumbers(m)|
    ensures i < |RemovedFiles(m)| && NamesMarked(m, MarkedNumbers(m)[i], RemovedFiles(m)[i])
  {
    var a, b := |m.inNew|, |m.inNew| + |m.inCur|;
    var x, y, z := NumbersFrom(m.inNew, 0), NumbersFrom(m.inCur, a), NumbersFrom(m.inTmp, b);
    var p, q, r := Marked(m.inNew), Marked(m.inCur), Marked(m.inTmp);
    hide Marked;
    hide NumbersFrom;
    hide NamesMarked;
    AsManyNumbers(m.inNew, 0);
    AsManyNumbers(m.inCur, a);
    AsManyNumbers(m.inTmp, b);
    InThree(x, y, z, i);
    InThree(InFolder(NewFolder, p), InFolder(CurFolder, q), InFolder(TmpFolder, r), i);
    if i < |x| {
      MarkedInNew(m, i);
    } else if i < |x| + |y| {
      MarkedInCur(m, i - |x|);
    } else {
      MarkedInTmp(m, i - |x| - |y|);
    }
  }

  lemma MarkedIsNumbered(m: Maildir, n: int)
    requires IsMarked(m, n)
    ensures n in MarkedNumbers(m)
  {
    var a, b := |m.inNew|, |m.inNew| + |m.inCur|;
    hide NumbersFrom;
    InThree(m.inNew, m.inCur, m.inTmp, n - 1);
    if n <= a {
      MarkedHasNumber(m.inNew, 0, n);
    } else if n <= b {
      MarkedHasNumber(m.inCur, a, n);
    } else {
      MarkedHasNumber(m.inTmp, b, n);
    }
  }

  /** What QUIT hands to remove(): every marked message once, by ascending number. */
  lemma QuitRemovesTheMarked(s: State)
    requires s.mail.Some? && s.account.Some?
    ensures var m := s.mail.value;
            var ns := MarkedNumbers(m);
            && Ascending(ns) && (forall n :: n in ns <==> IsMarked(m, n))
            && ArePathsOf(Paths(s.config.baseDir, s.account.value.name, RemovedFiles(m)), s, ns)
  {
    var m := s.mail.value;
    MarkedNumbersAscend(m);
    MarkedNumbersByList(m);
    forall i | 0 <= i < |MarkedNumbers(m)|
      ensures i < |RemovedFiles(m)| && NamesMarked(m, MarkedNumbers(m)[i], RemovedFiles(m)[i])
    {
      MarkedNumberAt(m, i);
    }
    forall n | IsMarked(m, n)
      ensures n in MarkedNumbers(m)
    {
      MarkedIsNumbered(m, n);
    }
    hide MarkedNumbers;
    hide RemovedFiles;
    hide All;
    hide Place;
  }

  /** remove() is called by QUIT in a transaction, and by nothing else. */
  lemma RemovedAfter(accounts: seq<Account>, s: State, ev: Event)
    requires Sound(s)
    ensures var t := Deliver(accounts, s, ev).0;
            if !Stopped(s) && IsVerb(ev, Quit) && s.mode == Transaction then
              && Stopped(t)
              && t.removed == s.removed + Paths(s.config.baseDir, s.account.value.name, RemovedFiles(s.mail.value))
            else t.removed == s.removed
  {
    hide VerbOf;
    hide FindAccount;
    hide Delete;
    hide Retrieve;
    hide RemovedFiles;
    hide Loaded;
    hide AllCleared;
    hide Atoi;
  }

  lemma {:induction false} StoppedStays(r: Run, j: nat, k: nat)
    requires Sound(r.start) && j <= k <= |r.events| && Stopped(Before(r, j))
    ensures Before(r, k) == Before(r, j)
    decreases k
  {
    if j < k {
      StoppedStays(r, j, k - 1);
    }
  }

  lemma NothingRemovedAfter(r: Run, j: nat, k: nat)
    requires Sound(r.start) && j <= k <= |r.events| && Stopped(Before(r, j))
    ensures Before(r, k).removed == Before(r, j).removed
  {
    StoppedStays(r, j, k);
  }

  lemma {:induction false} NothingRemovedBefore(r: Run, k: nat)
    requires Starts(r.start) && k <= |r.events|
    requires forall q :: 0 <= q < k ==> !QuitsInTransaction(r, q)
    ensures Before(r, k).removed == []
    decreases k
  {
    if k > 0 {
      var s, ev := Before(r, k - 1), r.events[k - 1];
      assert Before(r, k) == Deliver(r.accounts, s, ev).0;
      assert !QuitsInTransaction(r, k - 1);
      RemovedAfter(r.accounts, s, ev);
      NothingRemovedBefore(r, k - 1);
      hide Deliver;
      hide IsVerb;
      hide RemovedFiles;
    }
  }

  /**
   * Over every run, files are removed by a QUIT in a transaction and by nothing else, and that QUIT
   * removes exactly the messages whose deletion is pending: each once, by ascending number.
   */
  lemma OnlyQuitRemoves(r: Run)
    requires Starts(r.start)
    ensures (forall q :: 0 <= q < |r.events| ==> !QuitsInTransaction(r, q)) ==> Before(r, |r.events|).removed == []
    ensures forall q {:trigger QuitsInTransaction(r, q)} :: 0 <= q < |r.events| && QuitsInTransaction(r, q) ==>
              exists ns :: RemovesPending(r, q, ns)
  {
    if forall q :: 0 <= q < |r.events| ==> !QuitsInTransaction(r, q) {
      NothingRemovedBefore(r, |r.events|);
    }
    forall q: nat | q < |r.events| && QuitsInTransaction(r, q)
      ensures exists ns :: RemovesPending(r, q, ns)
    {
      QuitRemovesThePending(r, q);
      assert RemovesPending(r, q, MarkedNumbers(Before(r, q).mail.value));
    }
  }

  /** After the whole run the removed files are those of the given numbers, which are the pending ones at event q. */
  ghost predicate RemovesPending(r: Run, q: nat, ns: seq<int>)
    requires Sound(r.start)
  {
    && q < |r.events| && Before(r, q).mail.Some? && Before(r, q).account.Some?
    && Ascending(ns) && (forall n :: n in ns <==> Pending(r, q, n))
    && ArePathsOf(Before(r, |r.events|).removed, Before(r, q), ns)
  }

  lemma QuitInOneStep(r: Run, q: nat)
    requires Sound(r.start) && QuitsInTransaction(r, q)
    ensures var s, t := Before(r, q), Before(r, q + 1);
            && s.mail.Some? && s.account.Some? && !Stopped(s) && Stopped(t)
            && t.removed == s.removed + Paths(s.config.baseDir, s.account.value.name, RemovedFiles(s.mail.value))
  {
    assert Before(r, q + 1) == Deliver(r.accounts, Before(r, q), r.events[q]).0;
    RemovedAfter(r.accounts, Before(r, q), r.events[q]);
    hide Deliver;
    hide IsVerb;
    hide RemovedFiles;
  }

  lemma QuitRemovesOnce(r: Run, q: nat)
    requires Starts(r.start) && q < |r.events| && QuitsInTransaction(r, q)
    ensures var s := Before(r, q);
            && s.mail.Some? && s.account.Some?
            && Before(r, |r.events|).removed
               == Paths(s.config.baseDir, s.account.value.name, RemovedFiles(s.mail.value))
  {
    var s, t := Before(r, q), Before(r, q + 1);
    hide *;
    QuitInOneStep(r, q);
    NothingRemovedAfter(r, q + 1, |r.events|);
    NotQuitBefore(r, q);
    NothingRemovedBefore(r, q);
    AfterNothing(Paths(s.config.baseDir, s.account.value.name, RemovedFiles(s.mail.value)));
  }

  lemma QuitRemovesThePending(r: Run, q: nat)
    requires Starts(r.start) && q < |r.events| && QuitsInTransaction(r, q)
    ensures var s := Before(r, q);
            && s.mail.Some? && s.account.Some?
            && Ascending(MarkedNumbers(s.mail.value))
            && (forall n :: n in MarkedNumbers(s.mail.value) <==> Pending(r, q, n))
            && ArePathsOf(Before(r, |r.events|).removed, s, MarkedNumbers(s.mail.value))
  {
    var s := Before(r, q);
    QuitRemovesOnce(r, q);
    hide *;
    QuitRemovesTheMarked(s);
    forall n
      ensures Pending(r, q, n) <==> IsMarked(s.mail.value, n)
    {
      MarkedIffPending(r, q, n);
    }
  }

  lemma AfterNothing(paths: seq<Path>)
    ensures [] + paths == paths
  {
  }

  lemma NotQuitBefore(r: Run, q: nat)
    requires Sound(r.start) && q < |r.events| && QuitsInTransaction(r, q)
    ensures forall j :: 0 <= j < q ==> !QuitsInTransaction(r, j)
  {
    hide *;
    QuitInOneStep(r, q);
    forall j: nat | j < q
      ensures !QuitsInTransaction(r, j)
    {
      if QuitsInTransaction(r, j) {
        QuitInOneStep(r, j);
        StoppedStays(r, j + 1, q);
      }
    }
  }

  // Modes

  /** Events that end a transaction. */
  ghost predicate Leaves(ev: Event) {
    ev.HangUp? || IsVerb(ev, User) || IsVerb(ev, Quit) || (ev.Command? && |ev.line| < 4)
  }

  ghost predicate InTransaction(s: State) {
    s.mode == Transaction && !s.aborted
  }

  /** A transaction begins with an accepted PASS and lasts until an event that leaves it. */
  lemma ModeAfter(accounts: seq<Account>, s: State, ev: Event)
    requires Sound(s)
    ensures var t := Deliver(accounts, s, ev).0;
            && (InTransaction(t) <==> LogsIn(s, ev) || (InTransaction(s) && !Leaves(ev)))
            && (InTransaction(t) ==> t.account == s.account)
  {
    hide VerbOf;
    hide FindAccount;
    hide Delete;
    hide Retrieve;
    hide RemovedFiles;
    hide Loaded;
    hide AllCleared;
    hide Atoi;
  }

  /** What a session holds of a maildir, marks aside. */
  ghost function Messages(s: State): Maildir
    requires s.mail.Some?
  {
    AllCleared(s.mail.value)
  }

  lemma DeleteKeepsMessages(m: Maildir, number: int)
    requires Delete(m, number).Some?
    ensures AllCleared(Delete(m, number).value) == AllCleared(m)
  {
  }

  lemma ClearingTwice(m: Maildir)
    ensures AllCleared(AllCleared(m)) == AllCleared(m)
  {
  }

  lemma LoadedIsCleared(listing: Listing)
    ensures AllCleared(Loaded(listing)) == Loaded(listing)
  {
  }

  /** Within a transaction the messages stay those PASS loaded. */
  lemma MessagesAfter(accounts: seq<Account>, s: State, ev: Event)
    requires Sound(s) && InTransaction(Deliver(accounts, s, ev).0)
    ensures var t := Deliver(accounts, s, ev).0;
            if LogsIn(s, ev) then Messages(t) == Loaded(ev.disk(s.config.baseDir, s.account.value.name))
            else s.mail.Some? && Messages(t) == Messages(s)
  {
    ModeAfter(accounts, s, ev);
    MailAfter(accounts, s, ev);
    hide Deliver;
    hide Delete;
    hide AllCleared;
    hide Loaded;
    hide VerbOf;
    hide Atoi;
    hide All;
    if LogsIn(s, ev) {
      LoadedIsCleared(ev.disk(s.config.baseDir, s.account.value.name));
    } else if Resets(s, ev) {
      ClearingTwice(s.mail.value);
    } else if Deletes(s, ev, NumberIn(ev)) {
      DeleteKeepsMessages(s.mail.value, NumberIn(ev));
    }
  }

  /** PASS was accepted at event p and nothing left the transaction since. */
  ghost predicate LoggedInSince(r: Run, k: nat, p: nat)
    requires Sound(r.start)
  {
    p < k <= |r.events| && LoggedIn(r, p) && forall i :: p < i < k ==> !Leaves(r.events[i])
  }

  lemma StepOfRun(r: Run, k: nat)
    requires Sound(r.start) && k < |r.events|
    ensures Deliver(r.accounts, Before(r, k), r.events[k]) == (Before(r, k + 1), Replies(r, k))
    ensures LoggedIn(r, k) <==> LogsIn(Before(r, k), r.events[k])
  {
  }

  ghost predicate LoggedInBefore(r: Run, k: nat)
    requires Sound(r.start)
  {
    exists p :: LoggedInSince(r, k, p)
  }

  lemma LoggedInStep(r: Run, k: nat)
    requires Sound(r.start) && k < |r.events|
    ensures LoggedInBefore(r, k + 1) <==> LoggedIn(r, k) || (LoggedInBefore(r, k) && !Leaves(r.events[k]))
  {
    hide LoggedIn;
    hide Leaves;
    if LoggedIn(r, k) {
      assert LoggedInSince(r, k + 1, k);
    }
    if LoggedInBefore(r, k) && !Leaves(r.events[k]) {
      var p :| LoggedInSince(r, k, p);
      assert LoggedInSince(r, k + 1, p);
    }
    if LoggedInBefore(r, k + 1) {
      var p :| LoggedInSince(r, k + 1, p);
      assert p == k || LoggedInSince(r, k, p);
    }
  }

  lemma NotYetLoggedIn(r: Run)
    requires Starts(r.start)
    ensures !InTransaction(r.start) && !LoggedInBefore(r, 0)
  {
  }

  lemma ModeStep(r: Run, k: nat)
    requires Sound(r.start) && k < |r.events|
    ensures InTransaction(Before(r, k + 1))
            <==> LoggedIn(r, k) || (InTransaction(Before(r, k)) && !Leaves(r.events[k]))
  {
    hide *;
    StepOfRun(r, k);
    ModeAfter(r.accounts, Before(r, k), r.events[k]);
  }

  /** Over every run: the session is in its transaction if and only if a PASS was accepted and nothing left it since. */
  lemma {:induction false} InTransactionIff(r: Run, k: nat)
    requires Starts(r.start) && k <= |r.events|
    ensures InTransaction(Before(r, k)) <==> LoggedInBefore(r, k)
    decreases k
  {
    hide *;
    RunBegins(r);
    NotYetLoggedIn(r);
    if k > 0 {
      ModeStep(r, k - 1);
      LoggedInStep(r, k - 1);
      InTransactionIff(r, k - 1);
    }
  }

  /** The account is the one whose stored password PASS carried at event p, the messages are those it found on disk. */
  ghost predicate EarnedBy(r: Run, now: State, p: nat)
    requires Sound(r.start) && p < |r.events|
  {
    var s, ev := Before(r, p), r.events[p];
    && InTransaction(now) && now.account.Some? && now.account == s.account
    && IsVerb(ev, Pass) && |ev.line| > 4 && now.account.value.pass == Some(ev.line[5..])
    && now.mail.Some? && Messages(now) == Loaded(ev.disk(s.config.baseDir, now.account.value.name))
  }

  lemma SinceShrinks(r: Run, k: nat, p: nat)
    requires Sound(r.start) && LoggedInSince(r, k, p)
    ensures p < k <= |r.events| && LoggedInBefore(r, k) && LoggedIn(r, p)
    ensures p < k - 1 ==> LoggedInSince(r, k - 1, p)
  {
    hide LoggedIn;
    hide Leaves;
  }

  lemma EarnedAtLogin(r: Run, p: nat)
    requires Sound(r.start) && p < |r.events| && LoggedIn(r, p)
    ensures EarnedBy(r, Before(r, p + 1), p)
  {
    var s, ev := Before(r, p), r.events[p];
    StepOfRun(r, p);
    hide Deliver;
    hide IsVerb;
    hide Loaded;
    hide AllCleared;
    ModeAfter(r.accounts, s, ev);
    MessagesAfter(r.accounts, s, ev);
  }

  lemma StillEarned(r: Run, k: nat, p: nat)
    requires Sound(r.start) && p < k < |r.events| && EarnedBy(r, Before(r, k), p) && InTransaction(Before(r, k + 1))
    ensures EarnedBy(r, Before(r, k + 1), p)
  {
    var s, ev := Before(r, k), r.events[k];
    StepOfRun(r, k);
    hide Deliver;
    hide IsVerb;
    hide Loaded;
    hide AllCleared;
    ModeAfter(r.accounts, s, ev);
    MessagesAfter(r.accounts, s, ev);
  }

  /**
   * Over every run: in a transaction the account is still the one whose stored password the last
   * accepted PASS carried, and the messages are still the ones that PASS found on disk.
   */
  lemma {:induction false} TransactionIsEarned(r: Run, k: nat, p: nat)
    requires Starts(r.start) && p < k <= |r.events| && LoggedInSince(r, k, p)
    ensures EarnedBy(r, Before(r, k), p)
    decreases k
  {
    hide *;
    StartIsSound(r.start);
    SinceShrinks(r, k, p);
    if p < k - 1 {
      TransactionIsEarned(r, k - 1, p);
      InTransactionIff(r, k);
      StillEarned(r, k - 1, p);
    } else {
      EarnedAtLogin(r, p);
    }
  }

  lemma SamePlaces(m: Maildir, listing: Listing, n: int)
    requires AllCleared(m) == Loaded(listing) && 1 <= n <= |All(m)|
    ensures n <= |AllFiles(listing)| == |All(Loaded(listing))| && Place(m, n) == Place(Loaded(listing), n)
    ensures All(m)[n - 1].name == AllFiles(listing)[n - 1].name
  {
    ClearedIsUnmarkedEverywhere(m);
    assert All(Loaded(listing)) == Listed(AllFiles(listing));
  }

  /**
   * A file QUIT removes is the one PASS listed under that message number if and only if the base
   * directory is still the one of that PASS.
   */
  lemma RemovedIsListedIff(r: Run, q: nat, p: nat, n: int)
    requires Starts(r.start) && LoggedInSince(r, q, p) && 1 <= n
    requires Before(r, q).mail.Some? && Before(r, q).account.Some? && n <= |All(Before(r, q).mail.value)|
    ensures r.events[p].Command? && Before(r, p).account.Some?
    ensures var login := Before(r, p);
            var listing := r.events[p].disk(login.config.baseDir, login.account.value.name);
            && n <= |AllFiles(listing)|
            && (MessagePath(Before(r, q), n)
                == Path(login.config.baseDir, login.account.value.name,
                        Place(Loaded(listing), n).0, AllFiles(listing)[n - 1].name)
                <==> Before(r, q).config.baseDir == login.config.baseDir)
  {
    StartIsSound(r.start);
    SinceShrinks(r, q, p);
    TransactionIsEarned(r, q, p);
    var s, now := Before(r, p), Before(r, q);
    hide Before;
    hide LoggedInSince;
    hide LoggedInBefore;
    hide InTransaction;
    hide Starts;
    hide IsVerb;
    SamePlaces(now.mail.value, r.events[p].disk(s.config.baseDir, now.account.value.name), n);
    hide AllCleared;
    hide Loaded;
    hide All;
  }

  /** The files of a listing, in the order of message numbers. */
  function AllFiles(l: Listing): seq<File> {
    l.inNew + l.inCur + l.inTmp
  }

  /** A command line: the word, a space and the text. */
  function Say(v: Verb, text: seq<byte>): Line {
    Word(v) + [0x20] + text
  }

  lemma Said(v: Verb, text: seq<byte>)
    requires v in {User, Quit, Pass, Dele}
    ensures var line := Say(v, text); |line| >= 4 && VerbOf(line) == v && Argument(line) == Some(text)
  {
    VerbOfWord(v, [0x20] + text);
    assert Say(v, text) == Word(v) + ([0x20] + text);
    assert Say(v, text)[5..] == text;
    hide VerbOf;
    hide Word;
  }

  const ANNA := Account([0x61], Some([0x78]))

  /** USER a, PASS x, DELE 1; another session moves the base directory; QUIT. */
  ghost function MovedRun(base: seq<byte>, moved: seq<byte>, file: File): Run {
    var counters := Counters(0, 0, 0, 0);
    var disk: Disk := (_: seq<byte>, _: seq<byte>) => Listing([file], [], []);
    Run([ANNA],
        State(Authorization, None, None, Config(base, [], false), counters, [], [], false),
        [Command(Say(User, [0x61]), disk), Command(Say(Pass, [0x78]), disk), Command(Say(Dele, [0x31]), disk),
         Others(Config(moved, [], false), counters), Command(Say(Quit, []), disk)])
  }

  lemma AnnaComesIn(s: State, disk: Disk)
    requires s.mode == Authorization && !s.aborted
    ensures Deliver([ANNA], s, Command(Say(User, [0x61]), disk)).0 == s.(account := Some(ANNA))
  {
    Said(User, [0x61]);
    hide VerbOf;
    hide Say;
    hide Argument;
  }

  lemma AnnaLogsIn(s: State, disk: Disk)
    requires s.mode == Authorization && !s.aborted && s.account == Some(ANNA)
    ensures Deliver([ANNA], s, Command(Say(Pass, [0x78]), disk)).0
            == s.(mode := Transaction, mail := Some(Loaded(disk(s.config.baseDir, ANNA.name))))
  {
    Said(Pass, [0x78]);
    hide VerbOf;
    hide Say;
    hide Argument;
    hide Loaded;
  }

  lemma AnnaDeletesOne(s: State, disk: Disk, e: Entry)
    requires Sound(s) && s.mode == Transaction && !s.aborted && s.mail == Some(Maildir([e], [], []))
    ensures Deliver([ANNA], s, Command(Say(Dele, [0x31]), disk)).0
            == s.(mail := Some(Maildir([e.(deleted := true)], [], [])))
  {
    Said(Dele, [0x31]);
    AtoiOfOne();
    assert MarkAt([e], 1) == [e.(deleted := true)];
    hide VerbOf;
    hide Say;
    hide Argument;
    hide Atoi;
    hide MarkAt;
  }

  lemma AtoiOfOne()
    ensures Atoi([0x31]) == 1
  {
    assert Digits([0x31], 0) == Digits([0x31][1..], 1);
  }

  lemma UpToQuit(base: seq<byte>, moved: seq<byte>, file: File)
    ensures var r := MovedRun(base, moved, file);
            Before(r, 4) == State(Transaction, Some(ANNA), Some(Maildir([Entry(file.name, file.size, true)], [], [])),
                                  Config(moved, [], false), Counters(0, 0, 0, 0), [], [], false)
  {
    var r := MovedRun(base, moved, file);
    var disk, e := r.events[0].disk, Entry(file.name, file.size, false);
    var s0 := r.start;
    var s1 := s0.(account := Some(ANNA));
    var s2 := s1.(mode := Transaction, mail := Some(Maildir([e], [], [])));
    var s3 := s2.(mail := Some(Maildir([e.(deleted := true)], [], [])));
    assert r.events[3] == Others(Config(moved, [], false), Counters(0, 0, 0, 0));
    assert Loaded(Listing([file], [], [])) == Maildir([e], [], []);
    assert Before(r, 0) == s0;
    hide Before;
    hide Say;
    AnnaComesIn(s0, disk);
    AnnaLogsIn(s1, disk);
    AnnaDeletesOne(s2, disk, e);
    OthersChange(s3, r.events[3]);
    hide Deliver;
    hide Loaded;
    StepOfRun(r, 0);
    StepOfRun(r, 1);
    StepOfRun(r, 2);
    StepOfRun(r, 3);
  }

  lemma OthersChange(s: State, ev: Event)
    requires Sound(s) && !Stopped(s) && ev.Others?
    ensures Deliver([ANNA], s, ev).0 == s.(config := ev.config, counters := ev.counters)
  {
  }

  /** The file PASS listed under the old directory is asked to be removed under the new one. */
  lemma MovedBaseDirRemovesElsewhere(base: seq<byte>, moved: seq<byte>, file: File)
    ensures var r := MovedRun(base, moved, file);
            Before(r, 5).removed == [Path(moved, [0x61], NewFolder, file.name)]
  {
    var r := MovedRun(base, moved, file);
    UpToQuit(base, moved, file);
    Said(Quit, []);
    hide VerbOf;
    hide Say;
    var es := [Entry(file.name, file.size, true)];
    assert es[..0] == [] && Marked(es) == [file.name] && Marked([]) == [];
    assert RemovedFiles(Maildir(es, [], [])) == [(NewFolder, file.name)];
    assert Before(r, 5) == Deliver(r.accounts, Before(r, 4), r.events[4]).0;
    hide Before;
  }

  // Managers and settings

  /** Only a manager's HOST, DIRR and TRAN change settings, only a manager's PORT and IPV6 move the listener. */
  lemma SettingsAfter(accounts: seq<Account>, s: State, ev: Event)
    requires Sound(s)
    ensures var t := Deliver(accounts, s, ev).0;
            && (t.mode == Manager ==> s.mode == Manager)
            && (s.mode == Manager ==> t.mode == Manager || t.mode == Closing)
            && (t.config != s.config ==>
                  ev.Others? || (s.mode == Manager && (IsVerb(ev, Host) || IsVerb(ev, Dirr) || IsVerb(ev, Tran))))
            && (t.rebinds != s.rebinds ==> s.mode == Manager && (IsVerb(ev, Port) || IsVerb(ev, Ipv6)))
            && (ev.Others? && !Stopped(s) ==> t.config == ev.config)
  {
    hide VerbOf;
    hide FindAccount;
    hide Delete;
    hide Retrieve;
    hide RemovedFiles;
    hide Loaded;
    hide AllCleared;
    hide Atoi;
  }

  /** What the configuration commands read of a line: the text from its sixth byte on, none in a shorter line. */
  function TextOf(line: Line): seq<byte> {
    if |line| > 5 then line[5..] else []
  }

  /** Each command of a manager changes exactly its own setting, or adds exactly its own request. */
  lemma ManagerSets(accounts: seq<Account>, s: State, ev: Event)
    requires Sound(s) && !s.aborted && s.mode == Manager && ev.Command?
    ensures var (t, said) := Deliver(accounts, s, ev);
            var text := TextOf(ev.line);
            && (IsVerb(ev, Dirr) ==> said == [Done] && t == s.(config := Config(text, s.config.host, s.config.transform)))
            && (IsVerb(ev, Host) ==> said == [Done] && t == s.(config := Config(s.config.baseDir, text, s.config.transform)))
            && (IsVerb(ev, Tran) ==>
                 said == [Done] && t == s.(config := Config(s.config.baseDir, s.config.host, Atoi(text) == 1)))
            && (IsVerb(ev, Port) ==> said == [Done] && t == s.(rebinds := s.rebinds + [ToPort(Atoi(text))]))
            && (IsVerb(ev, Ipv6) ==> said == [Done] && t == s.(rebinds := s.rebinds + [ToAddress(text)]))
  {
    hide VerbOf;
    hide Atoi;
  }

  datatype Field = BaseDirectory | HostName | Transformation

  function VerbFor(f: Field): Verb {
    match f
    case BaseDirectory => Dirr
    case HostName => Host
    case Transformation => Tran
  }

  predicate SameField(a: Config, b: Config, f: Field) {
    match f
    case BaseDirectory => a.baseDir == b.baseDir
    case HostName => a.host == b.host
    case Transformation => a.transform == b.transform
  }

  /** The event gives the setting a value: the command for it from a manager, or a change by another session. */
  ghost predicate Sets(s: State, ev: Event, f: Field) {
    !Stopped(s) && (ev.Others? || (s.mode == Manager && IsVerb(ev, VerbFor(f))))
  }

  /** The setting is what that event gave it. */
  ghost predicate IsGiven(c: Config, ev: Event, f: Field) {
    match ev
    case Others(config, _) => SameField(c, config, f)
    case HangUp => false
    case Command(line, _) =>
      match f
      case BaseDirectory => c.baseDir == TextOf(line)
      case HostName => c.host == TextOf(line)
      case Transformation => c.transform == (Atoi(TextOf(line)) == 1)
  }

  lemma SettingAfter(accounts: seq<Account>, s: State, ev: Event, f: Field)
    requires Sound(s)
    ensures var t := Deliver(accounts, s, ev).0;
            if Sets(s, ev, f) then IsGiven(t.config, ev, f) else SameField(t.config, s.config, f)
  {
    SettingsAfter(accounts, s, ev);
    if !Stopped(s) && s.mode == Manager && ev.Command? {
      ManagerSets(accounts, s, ev);
    }
    hide Deliver;
    hide VerbOf;
    hide Atoi;
    hide TextOf;
  }

  /** The last event before k that gave the setting a value, as far as there was one. */
  ghost predicate IsLastSet(r: Run, k: nat, f: Field, u: Option<nat>)
    requires Sound(r.start) && k <= |r.events|
  {
    && (u.Some? ==> u.value < k && Sets(Before(r, u.value), r.events[u.value], f))
    && (forall i: nat :: (u.Some? ==> u.value < i) && i < k ==> !Sets(Before(r, i), r.events[i], f))
  }

  ghost predicate HoldsLast(r: Run, k: nat, f: Field, u: Option<nat>)
    requires Sound(r.start) && k <= |r.events|
  {
    && IsLastSet(r, k, f, u)
    && match u
       case None => SameField(Before(r, k).config, r.start.config, f)
       case Some(j) => IsGiven(Before(r, k).config, r.events[j], f)
  }

  lemma NothingSetYet(r: Run, f: Field)
    requires Starts(r.start)
    ensures Sound(r.start) && HoldsLast(r, 0, f, None)
  {
  }

  lemma SameFieldGiven(a: Config, b: Config, c: Config, ev: Event, f: Field)
    requires SameField(a, b, f)
    ensures IsGiven(b, ev, f) ==> IsGiven(a, ev, f)
    ensures SameField(b, c, f) ==> SameField(a, c, f)
  {
  }

  lemma LastSetGrows(r: Run, k: nat, f: Field, u: Option<nat>)
    requires Sound(r.start) && k < |r.events| && IsLastSet(r, k, f, u)
    ensures IsLastSet(r, k + 1, f, if Sets(Before(r, k), r.events[k], f) then Some(k) else u)
  {
    hide Sets;
    hide Before;
  }

  lemma LastSetStep(r: Run, k: nat, f: Field, u: Option<nat>)
    requires Sound(r.start) && k < |r.events| && HoldsLast(r, k, f, u)
    ensures HoldsLast(r, k + 1, f, if Sets(Before(r, k), r.events[k], f) then Some(k) else u)
  {
    var s, t := Before(r, k), Before(r, k + 1);
    assert u.Some? ==> u.value < k by {
      hide Sets;
    }
    LastSetGrows(r, k, f, u);
    hide IsLastSet;
    hide Before;
    hide Sets;
    hide Deliver;
    StepOfRun(r, k);
    SettingAfter(r.accounts, s, r.events[k], f);
    hide SameField;
    hide IsGiven;
    if SameField(t.config, s.config, f) {
      SameFieldGiven(t.config, s.config, r.start.config, if u.Some? then r.events[u.value] else HangUp, f);
    }
  }

  /**
   * Over every run each setting is the text, or for the transformation the number, of the last line
   * that set it, or what the last change by another session left, whichever came later.
   */
  lemma {:induction false} SettingIsLastSet(r: Run, k: nat, f: Field) returns (u: Option<nat>)
    requires Starts(r.start) && k <= |r.events|
    ensures Sound(r.start) && HoldsLast(r, k, f, u)
    decreases k
  {
    hide *;
    NothingSetYet(r, f);
    u := None;
    if k > 0 {
      u := SettingIsLastSet(r, k - 1, f);
      LastSetStep(r, k - 1, f, u);
      u := if Sets(Before(r, k - 1), r.events[k - 1], f) then Some(k - 1) else u;
    }
  }

  /** The request one event makes to move the listener. */
  ghost function RequestBy(s: State, ev: Event): seq<Rebind> {
    if Stopped(s) || s.mode != Manager then []
    else if IsVerb(ev, Port) then [ToPort(Atoi(TextOf(ev.line)))]
    else if IsVerb(ev, Ipv6) then [ToAddress(TextOf(ev.line))]
    else []
  }

  ghost function RequestsBy(r: Run, k: nat): seq<Rebind>
    requires Sound(r.start) && k <= |r.events|
    decreases k
  {
    if k == 0 then [] else RequestsBy(r, k - 1) + RequestBy(Before(r, k - 1), r.events[k - 1])
  }

  lemma RequestsAfter(accounts: seq<Account>, s: State, ev: Event)
    requires Sound(s)
    ensures Deliver(accounts, s, ev).0.rebinds == s.rebinds + RequestBy(s, ev)
  {
    SettingsAfter(accounts, s, ev);
    if !Stopped(s) && s.mode == Manager && ev.Command? {
      ManagerSets(accounts, s, ev);
    }
    hide Deliver;
    hide VerbOf;
    hide Atoi;
    hide TextOf;
  }

  /** Over every run the listener is asked to move by a manager's PORT and IPV6 lines, each once and in order. */
  lemma {:induction false} RequestsAreTheLines(r: Run, k: nat)
    requires Starts(r.start) && k <= |r.events|
    ensures Before(r, k).rebinds == RequestsBy(r, k)
    decreases k
  {
    RunBegins(r);
    if k > 0 {
      RequestsAreTheLines(r, k - 1);
      RequestsAfter(r.accounts, Before(r, k - 1), r.events[k - 1]);
      hide Deliver;
      hide RequestBy;
    }
  }

  lemma SettingsStep(r: Run, k: nat)
    requires Sound(r.start) && k < |r.events|
    ensures var s, t, ev := Before(r, k), Before(r, k + 1), r.events[k];
            && (t.mode == Manager ==> s.mode == Manager)
            && (s.mode == Manager ==> t.mode == Manager || t.mode == Closing)
            && (s.mode != Manager ==> t.rebinds == s.rebinds)
            && (s.mode == Closing ==> t.mode == Closing)
            && (s.mode != Manager && !Stopped(t) ==>
                  !Stopped(s) && t.config == if ev.Others? then ev.config else s.config)
  {
    StepOfRun(r, k);
    SettingsAfter(r.accounts, Before(r, k), r.events[k]);
    if Stopped(Before(r, k)) {
      StoppedStays(r, k, k + 1);
    }
    hide Before;
    hide Deliver;
    hide IsVerb;
  }

  /** Over every run a manager stays one until the session ends, and so never sees a transaction. */
  lemma {:induction false} ManagerForLife(r: Run, k: nat)
    requires Starts(r.start) && k <= |r.events|
    ensures r.start.mode == Manager ==> Before(r, k).mode == Manager || Before(r, k).mode == Closing
    ensures r.start.mode != Manager ==> Before(r, k).mode != Manager
    decreases k
  {
    hide *;
    RunBegins(r);
    if k > 0 {
      SettingsStep(r, k - 1);
      ManagerForLife(r, k - 1);
    }
  }

  /** The settings as the other sessions left them before event k. */
  ghost function SetByOthers(r: Run, k: nat): Config
    requires k <= |r.events|
    decreases k
  {
    if k == 0 then r.start.config
    else if r.events[k - 1].Others? then r.events[k - 1].config
    else SetByOthers(r, k - 1)
  }

  /** A user's session: it has moved no listener and, while it goes on, sees the given settings. */
  ghost predicate SeesOnly(s: State, c: Config) {
    s.mode != Manager && s.rebinds == [] && (!Stopped(s) ==> s.config == c)
  }

  lemma SeesOnlyStep(r: Run, k: nat, c: Config)
    requires Sound(r.start) && k < |r.events| && SeesOnly(Before(r, k), c)
    ensures var ev := r.events[k];
            SeesOnly(Before(r, k + 1), if ev.Others? then ev.config else c)
  {
    SettingsStep(r, k);
    hide Before;
    hide Stopped;
  }

  /** Over every run that does not start as a manager's, the session changes no setting and moves no listener. */
  lemma {:induction false} OnlyManagersConfigure(r: Run, k: nat)
    requires Starts(r.start) && r.start.mode != Manager && k <= |r.events|
    ensures SeesOnly(Before(r, k), SetByOthers(r, k))
    decreases k
  {
    RunBegins(r);
    hide Before;
    hide Sound;
    hide Starts;
    if k > 0 {
      OnlyManagersConfigure(r, k - 1);
      hide SeesOnly;
      SeesOnlyStep(r, k - 1, SetByOthers(r, k - 1));
    }
  }

  // Counters

  ghost predicate Serves(said: seq<Reply>) {
    said != [] && said[0].Octets?
  }

  /** RETR counts what it serves, and nothing else counts. */
  lemma CountersAfter(accounts: seq<Account>, s: State, ev: Event)
    requires Sound(s)
    ensures var (t, said) := Deliver(accounts, s, ev);
            var c := s.counters;
            t.counters == if Serves(said) then c.(messages := c.messages + 1, octets := c.octets + said[0].size)
                          else if ev.Others? && !Stopped(s) then ev.counters
                          else c
  {
    hide VerbOf;
    hide FindAccount;
    hide Delete;
    hide Retrieve;
    hide RemovedFiles;
    hide Loaded;
    hide AllCleared;
    hide Atoi;
  }

  ghost function MessagesIn(said: seq<Reply>): int { if Serves(said) then 1 else 0 }

  ghost function OctetsIn(said: seq<Reply>): int { if Serves(said) then said[0].size else 0 }

  /** Another session changes the shared state while this one goes on. */
  ghost predicate Changes(r: Run, k: nat)
    requires Sound(r.start) && k < |r.events|
  {
    r.events[k].Others? && !Stopped(Before(r, k))
  }

  /** The counters as the last change by another session left them. */
  ghost function CountersBase(r: Run, k: nat): Counters
    requires Sound(r.start) && k <= |r.events|
    decreases k
  {
    if k == 0 then r.start.counters
    else if Changes(r, k - 1) then r.events[k - 1].counters
    else CountersBase(r, k - 1)
  }

  /** The messages served since then. */
  ghost function MessagesServed(r: Run, k: nat): int
    requires Sound(r.start) && k <= |r.events|
    decreases k
  {
    if k == 0 || Changes(r, k - 1) then 0 else MessagesServed(r, k - 1) + MessagesIn(Replies(r, k - 1))
  }

  ghost function OctetsServed(r: Run, k: nat): int
    requires Sound(r.start) && k <= |r.events|
    decreases k
  {
    if k == 0 || Changes(r, k - 1) then 0 else OctetsServed(r, k - 1) + OctetsIn(Replies(r, k - 1))
  }

  lemma CountersStep(r: Run, k: nat)
    requires Sound(r.start) && k < |r.events|
    ensures var c, said := Before(r, k).counters, Replies(r, k);
            Before(r, k + 1).counters
            == if Changes(r, k) then r.events[k].counters
               else c.(messages := c.messages + MessagesIn(said), octets := c.octets + OctetsIn(said))
  {
    StepOfRun(r, k);
    var said := Replies(r, k);
    CountersAfter(r.accounts, Before(r, k), r.events[k]);
    if r.events[k].Others? {
      OthersSayNothing(r.accounts, Before(r, k), r.events[k]);
    }
    hide Before;
    hide Replies;
    hide Deliver;
    hide Stopped;
  }

  lemma OthersSayNothing(accounts: seq<Account>, s: State, ev: Event)
    requires Sound(s) && ev.Others?
    ensures Deliver(accounts, s, ev).1 == []
  {
  }

  /**
   * Over every run METR tells what RETR served since the last change by another session, message by
   * message and octet by octet, on top of what that change left.
   */
  lemma {:induction false} CountersAreWhatWasServed(r: Run, k: nat)
    requires Starts(r.start) && k <= |r.events|
    ensures var c := CountersBase(r, k);
            Before(r, k).counters
            == c.(messages := c.messages + MessagesServed(r, k), octets := c.octets + OctetsServed(r, k))
    decreases k
  {
    hide *;
    RunBegins(r);
    ServedStep(r, k);
    if k > 0 {
      CountersStep(r, k - 1);
      CountersAreWhatWasServed(r, k - 1);
    }
  }

  lemma ServedStep(r: Run, k: nat)
    requires Sound(r.start) && k <= |r.events|
    ensures var change := k > 0 && Changes(r, k - 1);
            && CountersBase(r, k) == (if k == 0 then r.start.counters
                                      else if change then r.events[k - 1].counters else CountersBase(r, k - 1))
            && MessagesServed(r, k) == (if k == 0 || change then 0
                                        else MessagesServed(r, k - 1) + MessagesIn(Replies(r, k - 1)))
            && OctetsServed(r, k) == (if k == 0 || change then 0
                                      else OctetsServed(r, k - 1) + OctetsIn(Replies(r, k - 1)))
  {
    hide Replies;
    hide Changes;
  }

  // Silence

  /**
   * Every complete command is answered, with one exception: LIST with a number outside the messages,
   * 0 and -1 aside, gets no reply at all.
   */
  lemma UnansweredIff(accounts: seq<Account>, s: State, line: Line, disk: Disk)
    requires Sound(s) && !Stopped(s) && |line| >= 4
    ensures Handle(accounts, s, line, disk).1 == []
            <==> VerbOf(line) == List && s.mode == Transaction && |line| > 4
                 && Atoi(line[5..]) != 0 && Atoi(line[5..]) != -1
                 && !(1 <= Atoi(line[5..]) <= |All(s.mail.value)|)
  {
    hide VerbOf;
    hide FindAccount;
    hide Delete;
    hide Retrieve;
    hide RemovedFiles;
    hide Loaded;
    hide AllCleared;
    hide Atoi;
    hide ListAll;
  }

  /** LIST 1 in an empty maildir. */
  lemma ListCanBeSilent(accounts: seq<Account>, s: State, disk: Disk)
    requires s.mode == Transaction && !s.aborted && s.account.Some? && s.mail == Some(Maildir([], [], []))
    ensures Handle(accounts, s, Say(List, [0x31]), disk) == (s, [])
  {
    var line := Say(List, [0x31]);
    VerbOfWord(List, [0x20] + [0x31]);
    assert line == Word(List) + ([0x20] + [0x31]) && line[5..] == [0x31];
    AtoiOfOne();
    hide VerbOf;
    hide Atoi;
    UnansweredIff(accounts, s, line, disk);
    hide ListReplies;
  }

  // Accounts

  /** USER takes the first account the text is a prefix of. */
  lemma {:induction false} FirstByPrefix(accounts: seq<Account>, text: seq<byte>)
    ensures FindAccount(accounts, text).None? ==> forall i :: 0 <= i < |accounts| ==> !(text <= accounts[i].name)
    ensures FindAccount(accounts, text).Some? ==> exists i :: IsFirstByPrefix(accounts, text, i)
    ensures forall i {:trigger IsFirstByPrefix(accounts, text, i)} ::
              IsFirstByPrefix(accounts, text, i) ==> FindAccount(accounts, text) == Some(accounts[i])
    decreases accounts
  {
    if accounts != [] {
      var rest := accounts[1..];
      FirstByPrefix(rest, text);
      if text <= accounts[0].name {
        assert IsFirstByPrefix(accounts, text, 0);
      } else {
        if i :| IsFirstByPrefix(rest, text, i) {
          assert IsFirstByPrefix(accounts, text, i + 1);
        }
        forall i | IsFirstByPrefix(accounts, text, i)
          ensures FindAccount(accounts, text) == Some(accounts[i])
        {
          assert IsFirstByPrefix(rest, text, i - 1);
        }
      }
    }
  }

  ghost predicate IsFirstByPrefix(accounts: seq<Account>, text: seq<byte>, i: int) {
    0 <= i < |accounts| && text <= accounts[i].name && forall j :: 0 <= j < i ==> !(text <= accounts[j].name)
  }

  /** USER picks the account of that very name if and only if there is one and no earlier name starts with the text. */
  lemma UserPicksItsNameIff(accounts: seq<Account>, text: seq<byte>)
    ensures (FindAccount(accounts, text).Some? && FindAccount(accounts, text).value.name == text)
            <==> exists i :: 0 <= i < |accounts| && accounts[i].name == text
                             && forall j :: 0 <= j < i ==> !(text <= accounts[j].name)
  {
    FirstByPrefix(accounts, text);
    if i :| 0 <= i < |accounts| && accounts[i].name == text && forall j :: 0 <= j < i ==> !(text <= accounts[j].name) {
      assert IsFirstByPrefix(accounts, text, i);
    }
  }

  /** With accounts "ab" and "a", USER a picks "ab". */
  lemma UserCanPickALongerName()
    ensures FindAccount([Account([0x61, 0x62], None), Account([0x61], None)], [0x61]) == Some(Account([0x61, 0x62], None))
  {
  }

  /** USER with a text some account's name starts with. */
  ghost predicate Chooses(accounts: seq<Account>, s: State, ev: Event) {
    && !Stopped(s) && IsVerb(ev, User) && |ev.line| > 4
    && exists i :: 0 <= i < |accounts| && ev.line[5..] <= accounts[i].name
  }

  /** USER is accepted exactly when some account's name starts with its text, and only then the account changes. */
  lemma AccountAfter(accounts: seq<Account>, s: State, ev: Event)
    requires Sound(s)
    ensures var (t, said) := Deliver(accounts, s, ev);
            && (said == [UserAccepted] <==> Chooses(accounts, s, ev))
            && (if Chooses(accounts, s, ev) then t.account.Some? && t.account == FindAccount(accounts, ev.line[5..])
                else t.account == s.account)
  {
    if IsVerb(ev, User) && |ev.line| > 4 {
      FirstByPrefix(accounts, ev.line[5..]);
    }
    hide VerbOf;
    hide FindAccount;
    hide Delete;
    hide Retrieve;
    hide RemovedFiles;
    hide Loaded;
    hide AllCleared;
    hide Atoi;
  }

  ghost predicate Chose(r: Run, k: nat)
    requires Sound(r.start)
  {
    k < |r.events| && Chooses(r.accounts, Before(r, k), r.events[k])
  }

  /** The last accepted USER before event k, as far as there was one. */
  ghost predicate IsLastUser(r: Run, k: nat, u: Option<nat>)
    requires Sound(r.start)
  {
    && (u.Some? ==> u.value < k && Chose(r, u.value))
    && (forall i: nat :: (u.Some? ==> u.value < i) && i < k ==> !Chose(r, i))
  }

  /** The account is the first one by prefix for the text of that USER. */
  ghost predicate ChosenBy(r: Run, now: State, u: Option<nat>) {
    if u.None? then now.account == None
    else
      && u.value < |r.events| && IsVerb(r.events[u.value], User) && |r.events[u.value].line| > 4
      && now.account.Some? && now.account == FindAccount(r.accounts, r.events[u.value].line[5..])
  }

  ghost predicate LastChoice(r: Run, k: nat, u: Option<nat>)
    requires Sound(r.start) && k <= |r.events|
  {
    IsLastUser(r, k, u) && ChosenBy(r, Before(r, k), u)
  }

  lemma NobodyChosenYet(r: Run)
    requires Starts(r.start)
    ensures Sound(r.start) && LastChoice(r, 0, None)
  {
    RunBegins(r);
  }

  lemma LastUserStep(r: Run, k: nat, u: Option<nat>)
    requires Sound(r.start) && IsLastUser(r, k, u)
    ensures IsLastUser(r, k + 1, if Chose(r, k) then Some(k) else u)
  {
    hide Chose;
  }

  lemma ChoiceStep(r: Run, k: nat, u: Option<nat>)
    requires Sound(r.start) && k < |r.events| && LastChoice(r, k, u)
    ensures LastChoice(r, k + 1, if Chose(r, k) then Some(k) else u)
  {
    StepOfRun(r, k);
    AccountAfter(r.accounts, Before(r, k), r.events[k]);
    LastUserStep(r, k, u);
    hide IsLastUser;
    hide Before;
    hide Replies;
    hide Deliver;
    hide IsVerb;
    hide FindAccount;
  }

  /** Over every run the account is the one the last accepted USER chose, and none before that. */
  lemma {:induction false} AccountIsLastChosen(r: Run, k: nat) returns (u: Option<nat>)
    requires Starts(r.start) && k <= |r.events|
    ensures Sound(r.start) && LastChoice(r, k, u)
    decreases k
  {
    hide *;
    NobodyChosenYet(r);
    u := None;
    if k > 0 {
      u := AccountIsLastChosen(r, k - 1);
      ChoiceStep(r, k - 1, u);
      u := if Chose(r, k - 1) then Some(k - 1) else u;
    }
  }
}
