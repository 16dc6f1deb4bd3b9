/** The maildir of a session in src/server/pop3.c: the three lists and the message numbers over them. */
module Mailbox {
  import opened Bytes
  import opened MailList

  datatype Folder = NewFolder | CurFolder | TmpFolder

  /** A maildir by its entries. */
  datatype Maildir = Maildir(inNew: seq<Entry>, inCur: seq<Entry>, inTmp: seq<Entry>)

  /** What a directory read of the three folders returned. */
  datatype Listing = Listing(inNew: seq<File>, inCur: seq<File>, inTmp: seq<File>)

  function Loaded(l: Listing): Maildir {
    Maildir(Listed(l.inNew), Listed(l.inCur), Listed(l.inTmp))
  }

  /** Message n is entry n - 1 of this. */
  function All(m: Maildir): seq<Entry> {
    m.inNew + m.inCur + m.inTmp
  }

  function AllCleared(m: Maildir): Maildir {
    Maildir(Cleared(m.inNew), Cleared(m.inCur), Cleared(m.inTmp))
  }

  // The operations, by the branches the code takes

  function StatCount(m: Maildir): int {
    |m.inNew| + |m.inCur| + |m.inTmp|
  }

  function StatOctets(m: Maildir): int {
    Total(m.inNew) + Total(m.inCur) + Total(m.inTmp)
  }

  /** One numbered line per entry, as list_directory prints them, counting on from `index`. */
  function Lines(es: seq<Entry>, index: int): (lines: seq<(int, int)>)
    ensures |lines| == |es|
    ensures forall i :: 0 <= i < |lines| ==> lines[i] == (index + i, es[i].size)
  {
    seq(|es|, i requires 0 <= i < |es| => (index + i, es[i].size))
  }

  function ListAll(m: Maildir): seq<(int, int)> {
    Lines(m.inNew, 1) + Lines(m.inCur, 1 + |m.inNew|) + Lines(m.inTmp, 1 + |m.inNew| + |m.inCur|)
  }

  /** list_messages for a positive number. */
  function ListOne(m: Maildir, n: int): Option<(int, int)>
    requires n > 0
  {
    var a, b, c := |m.inNew|, |m.inCur|, |m.inTmp|;
    if n <= a then Some((n, m.inNew[n - 1].size))
    else if n <= a + b then Some((n, m.inCur[n - a - 1].size))
    else if n <= a + b + c then Some((n, m.inTmp[n - a - b - 1].size))
    else None
  }

  function MarkAt(es: seq<Entry>, n: int): seq<Entry>
    requires 1 <= n <= |es|
  {
    es[n - 1 := es[n - 1].(deleted := true)]
  }

  /** delete_message: the maildir after marking, None when the number is refused. */
  function Delete(m: Maildir, n: int): Option<Maildir> {
    var a, b, c := |m.inNew|, |m.inCur|, |m.inTmp|;
    if n < 1 || n > a + b + c then None
    else if n <= a then Some(m.(inNew := MarkAt(m.inNew, n)))
    else if n <= a + b then Some(m.(inCur := MarkAt(m.inCur, n - a)))
    else Some(m.(inTmp := MarkAt(m.inTmp, n - a - b)))
  }

  /** view_message: the same number is looked up in one list after the other. */
  function Retrieve(m: Maildir, n: int): Option<(Folder, Entry)> {
    if 1 <= n <= |m.inNew| then Some((NewFolder, m.inNew[n - 1]))
    else if 1 <= n <= |m.inCur| then Some((CurFolder, m.inCur[n - 1]))
    else if 1 <= n <= |m.inTmp| then Some((TmpFolder, m.inTmp[n - 1]))
    else None
  }

  /** The files delete_marked removes: folder and name, in order. */
  function RemovedFiles(m: Maildir): seq<(Folder, seq<byte>)> {
    InFolder(NewFolder, Marked(m.inNew)) + InFolder(CurFolder, Marked(m.inCur)) + InFolder(TmpFolder, Marked(m.inTmp))
  }

  function InFolder(f: Folder, names: seq<seq<byte>>): (r: seq<(Folder, seq<byte>)>)
    ensures |r| == |names|
    ensures forall i :: 0 <= i < |r| ==> r[i] == (f, names[i])
  {
    seq(|names|, i requires 0 <= i < |names| => (f, names[i]))
  }

  ghost function NodesOf(list: FileList): set<FileNode>
    reads list
  {
    set i | 0 <= i < |list.nodes| :: list.nodes[i]
  }

  ghost predicate Disjoint(a: seq<FileNode>, b: seq<FileNode>) {
    forall i, j :: 0 <= i < |a| && 0 <= j < |b| ==> a[i] != b[j]
  }

  /** A list nobody wrote to is what it was. */
  twostate lemma ListStays(l: FileList)
    requires old(l.Valid()) && unchanged(l) && forall i :: 0 <= i < |l.nodes| ==> unchanged(l.nodes[i])
    ensures l.Valid() && l.Entries() == old(l.Entries())
  {
  }

  /** A maildir nobody wrote to is what it was. */
  twostate lemma MailStays(m: Mailbox)
    requires old(m.Valid()) && unchanged(m.inNew) && unchanged(m.inCur) && unchanged(m.inTmp)
    requires forall i :: 0 <= i < |m.inNew.nodes| ==> unchanged(m.inNew.nodes[i])
    requires forall i :: 0 <= i < |m.inCur.nodes| ==> unchanged(m.inCur.nodes[i])
    requires forall i :: 0 <= i < |m.inTmp.nodes| ==> unchanged(m.inTmp.nodes[i])
    ensures m.Valid() && m.View() == old(m.View()) && m.Repr() == old(m.Repr())
  {
    ListStays(m.inNew);
    ListStays(m.inCur);
    ListStays(m.inTmp);
  }

  twostate lemma ChainStays(l: FileList)
    requires old(l.Linked()) && unchanged(l) && forall i :: 0 <= i < |l.nodes| ==> unchanged(l.nodes[i])
    ensures l.Linked() && l.Entries() == old(l.Entries())
  {
  }

  class Mailbox {
    const inNew: FileList
    const inCur: FileList
    const inTmp: FileList

    ghost function Repr(): set<object>
      reads inNew, inCur, inTmp
    {
      {inNew, inCur, inTmp} + Nodes()
    }

    ghost function Nodes(): set<FileNode>
      reads inNew, inCur, inTmp
    {
      NodesOf(inNew) + NodesOf(inCur) + NodesOf(inTmp)
    }

    ghost predicate Apart()
      reads inNew, inCur, inTmp
    {
      && inNew != inCur && inNew != inTmp && inCur != inTmp
      && Disjoint(inNew.nodes, inCur.nodes) && Disjoint(inNew.nodes, inTmp.nodes) && Disjoint(inCur.nodes, inTmp.nodes)
    }

    ghost predicate Valid()
      reads Repr()
    {
      Apart() && inNew.Valid() && inCur.Valid() && inTmp.Valid()
    }

    ghost function View(): Maildir
      reads Repr()
    {
      Maildir(inNew.Entries(), inCur.Entries(), inTmp.Entries())
    }

    /** One folder of load_user_structure: the size is counted again once the list is built. */
    static method LoadFolder(files: seq<File>) returns (list: FileList)
      ensures fresh(list) && fresh(list.nodes) && list.Valid() && list.Entries() == Listed(files)
    {
      list := FileList.Create(files);
      var n := list.Count();
      list.size := n;
    }

    constructor (inNew: FileList, inCur: FileList, inTmp: FileList)
      ensures this.inNew == inNew && this.inCur == inCur && this.inTmp == inTmp
    {
      this.inNew, this.inCur, this.inTmp := inNew, inCur, inTmp;
    }

    /** load_user_structure */
    static method Load(l: Listing) returns (m: Mailbox)
      ensures m.Valid() && m.View() == Loaded(l)
      ensures fresh(m) && fresh(m.Repr())
    {
      hide FileList.Valid;
      hide FileList.Linked;
      hide FileList.Entries;
      var a, b := LoadTwoFolders(l.inNew, l.inCur);
      hide Listed;
      label A:
      var c := LoadFolder(l.inTmp);
      ListStays@A(a);
      ListStays@A(b);
      m := new Mailbox(a, b, c);
    }

    static method LoadTwoFolders(first: seq<File>, second: seq<File>) returns (a: FileList, b: FileList)
      ensures fresh(a) && fresh(a.nodes) && a.Valid() && a.Entries() == Listed(first)
      ensures fresh(b) && fresh(b.nodes) && b.Valid() && b.Entries() == Listed(second)
      ensures a != b && Disjoint(a.nodes, b.nodes)
    {
      hide FileList.Valid;
      hide FileList.Linked;
      hide FileList.Entries;
      a := LoadFolder(first);
      label A:
      b := LoadFolder(second);
      ListStays@A(a);
    }

    method Stat() returns (count: int, octets: int)
      requires Valid()
      ensures count == StatCount(View()) && octets == StatOctets(View())
    {
      var a := inNew.SumSizes();
      var b := inCur.SumSizes();
      var c := inTmp.SumSizes();
      octets := a + b + c;
      count := inNew.size + inCur.size + inTmp.size;
    }

    method ListEverything() returns (lines: seq<(int, int)>)
      requires Valid()
      ensures lines == ListAll(View())
    {
      hide FileList.Valid;
      hide FileList.Linked;
      hide FileList.Entries;
      var index := 1;
      var a, b, c;
      a, index := inNew.Directory(index);
      b, index := inCur.Directory(index);
      c, index := inTmp.Directory(index);
      lines := a + b + c;
      assert a == Lines(View().inNew, 1);
      assert b == Lines(View().inCur, 1 + |View().inNew|);
      assert c == Lines(View().inTmp, 1 + |View().inNew| + |View().inCur|);
    }

    method ListMessage(n: int) returns (line: Option<(int, int)>)
      requires Valid() && n > 0
      ensures line == ListOne(View(), n)
    {
      var remaining := n;
      var list: FileList;
      if remaining <= inNew.size {
        list := inNew;
      } else if remaining <= inNew.size + inCur.size {
        remaining := remaining - inNew.size;
        list := inCur;
      } else if remaining <= inNew.size + inCur.size + inTmp.size {
        remaining := remaining - (inNew.size + inCur.size);
        list := inTmp;
      } else {
        return None;
      }
      var current := list.Walk(remaining);
      if current != null {
        line := Some((n, current.size));
      } else {
        line := None;
      }
    }

    method DeleteMessage(n: int) returns (ok: bool)
      requires Valid()
      modifies Nodes()`deleted
      ensures Valid()
      ensures ok == Delete(old(View()), n).Some?
      ensures View() == if ok then Delete(old(View()), n).value else old(View())
    {
      hide FileList.Linked;
      hide FileList.Entries;
      if n < 1 || n > inNew.size + inCur.size + inTmp.size {
        return false;
      } else if n <= inNew.size {
        inNew.Mark(n);
        ListStays(inCur);
        ListStays(inTmp);
      } else if n <= inNew.size + inCur.size {
        inCur.Mark(n - inNew.size);
        ListStays(inNew);
        ListStays(inTmp);
      } else {
        inTmp.Mark(n - (inNew.size + inCur.size));
        ListStays(inNew);
        ListStays(inCur);
      }
      ok := true;
    }

    method UnmarkAll()
      requires Valid()
      modifies Nodes()`deleted
      ensures Valid() && View() == AllCleared(old(View()))
    {
      hide FileList.Valid;
      hide FileList.Linked;
      hide FileList.Entries;
      inNew.UnmarkAll();
      ListStays(inCur);
      ListStays(inTmp);
      label A:
      inCur.UnmarkAll();
      ListStays@A(inNew);
      ListStays@A(inTmp);
      label B:
      inTmp.UnmarkAll();
      ListStays@B(inNew);
      ListStays@B(inCur);
    }

    method ViewMessage(n: int) returns (found: Option<(Folder, Entry)>)
      requires Valid()
      ensures found == Retrieve(View(), n)
    {
      var file := inNew.Search(n);
      var folder := NewFolder;
      if file == null {
        file := inCur.Search(n);
        folder := CurFolder;
        if file == null {
          file := inTmp.Search(n);
          folder := TmpFolder;
          if file == null {
            return None;
          }
        }
      }
      found := Some((folder, Entry(file.name, file.size, file.deleted)));
    }

    /** delete_marked: what is removed, and what it leaves of each list. */
    method DeleteMarked() returns (removed: seq<(Folder, seq<byte>)>)
      requires Valid()
      modifies inNew, inCur, inTmp
      ensures removed == RemovedFiles(old(View()))
      ensures inNew.Linked() && inCur.Linked() && inTmp.Linked()
      ensures LeftBehind(old(View()).inNew, inNew.Entries(), inNew.size)
      ensures LeftBehind(old(View()).inCur, inCur.Entries(), inCur.size)
      ensures LeftBehind(old(View()).inTmp, inTmp.Entries(), inTmp.size)
    {
      hide FileList.Valid;
      hide FileList.Linked;
      hide FileList.Entries;
      hide LeftBehind;
      hide Marked;
      var a := inNew.DeleteMarked();
      ListStays(inCur);
      ListStays(inTmp);
      label A:
      var b := inCur.DeleteMarked();
      ChainStays@A(inNew);
      ListStays@A(inTmp);
      label B:
      var c := inTmp.DeleteMarked();
      ChainStays@B(inNew);
      ChainStays@B(inCur);
      removed := InFolder(NewFolder, a) + InFolder(CurFolder, b) + InFolder(TmpFolder, c);
    }
  }

  // Message numbers

  lemma {:induction false} TotalConcat(a: seq<Entry>, b: seq<Entry>, p: nat)
    requires p <= |b|
    ensures Total((a + b)[..|a| + p]) == Total(a) + Total(b[..p])
  {
    NoEntries(b);
    hide Total;
    if p == 0 {
      assert (a + b)[..|a|] == a;
    } else {
      TotalConcat(a, b, p - 1);
      OneMore(a + b, |a| + p - 1);
      OneMore(b, p - 1);
    }
  }

  /** LIST without a number prints line n for message n; STAT counts and sums exactly those lines. */
  lemma ListAllMatchesStat(m: Maildir)
    ensures |ListAll(m)| == |All(m)| == StatCount(m)
    ensures forall i :: 0 <= i < |All(m)| ==> ListAll(m)[i] == (i + 1, All(m)[i].size)
    ensures Total(All(m)) == StatOctets(m)
  {
    hide Total;
    var ab := m.inNew + m.inCur;
    TotalConcat(ab, m.inTmp, |m.inTmp|);
    TotalConcat(m.inNew, m.inCur, |m.inCur|);
    assert ab[..|ab|] == ab && All(m)[..|All(m)|] == All(m);
    assert m.inCur[..|m.inCur|] == m.inCur && m.inTmp[..|m.inTmp|] == m.inTmp;
  }

  /** LIST n names message n, on the line LIST prints n-th. */
  lemma ListOneIsLineOfListAll(m: Maildir, n: int)
    requires n > 0
    ensures ListOne(m, n).Some? <==> n <= |All(m)|
    ensures n <= |All(m)| ==> ListOne(m, n) == Some(ListAll(m)[n - 1]) && ListAll(m)[n - 1] == (n, All(m)[n - 1].size)
  {
    ListAllMatchesStat(m);
  }

  /** DELE n marks message n and nothing else; it is refused exactly outside 1..STAT's count. */
  lemma DeleteMarksOneMessage(m: Maildir, n: int)
    ensures Delete(m, n).Some? <==> 1 <= n <= |All(m)|
    ensures Delete(m, n).Some? ==>
              All(Delete(m, n).value) == All(m)[n - 1 := All(m)[n - 1].(deleted := true)]
  {
    if Delete(m, n).Some? {
      var after := Delete(m, n).value;
      assert |All(after)| == |All(m)|;
      forall i | 0 <= i < |All(m)|
        ensures All(after)[i] == All(m)[n - 1 := All(m)[n - 1].(deleted := true)][i]
      {
      }
    }
  }

  /** A loaded maildir holds the files of the three folders in order, each with its name and size, unmarked. */
  lemma LoadedHoldsTheFiles(l: Listing)
    ensures var files, all := l.inNew + l.inCur + l.inTmp, All(Loaded(l));
            && |all| == |files|
            && forall i :: 0 <= i < |all| ==>
                 all[i].name == files[i].name && all[i].size == files[i].size && !all[i].deleted
  {
  }

  lemma ClearedIsUnmarkedEverywhere(m: Maildir)
    ensures All(AllCleared(m)) == Cleared(All(m))
  {
  }

  /** Where message n is kept. */
  function Place(m: Maildir, n: int): (Folder, int)
    requires 1 <= n <= |All(m)|
  {
    var a, b := |m.inNew|, |m.inCur|;
    if n <= a then (NewFolder, n - 1) else if n <= a + b then (CurFolder, n - a - 1) else (TmpFolder, n - a - b - 1)
  }

  /** Where RETR n looks. */
  function RetrievedPlace(m: Maildir, n: int): Option<(Folder, int)> {
    if 1 <= n <= |m.inNew| then Some((NewFolder, n - 1))
    else if 1 <= n <= |m.inCur| then Some((CurFolder, n - 1))
    else if 1 <= n <= |m.inTmp| then Some((TmpFolder, n - 1))
    else None
  }

  function EntryAt(m: Maildir, place: (Folder, int)): Option<Entry> {
    var es := match place.0 case NewFolder => m.inNew case CurFolder => m.inCur case TmpFolder => m.inTmp;
    if 0 <= place.1 < |es| then Some(es[place.1]) else None
  }

  /**
   * RETR n serves the very file LIST n and DELE n talk about if and only if the lists searched
   * before it are empty: it does not subtract their sizes.
   */
  lemma RetrieveIsMessageIff(m: Maildir, n: int)
    requires 1 <= n <= |All(m)|
    ensures EntryAt(m, Place(m, n)) == Some(All(m)[n - 1])
    ensures Retrieve(m, n).Some? <==> RetrievedPlace(m, n).Some?
    ensures Retrieve(m, n).Some? ==>
              var place := RetrievedPlace(m, n).value;
              Retrieve(m, n).value.0 == place.0 && EntryAt(m, place) == Some(Retrieve(m, n).value.1)
    ensures RetrievedPlace(m, n) == Some(Place(m, n))
            <==> n <= |m.inNew| || (m.inNew == [] && (n <= |m.inCur| || m.inCur == []))
  {
  }

  /** One message in each of new and cur: LIST 2 shows the second, RETR 2 finds nothing. */
  lemma RetrieveCanMissAListedMessage()
    ensures var m := Maildir([Entry([0x61], 5, false)], [Entry([0x62], 7, false)], []);
            ListOne(m, 2) == Some((2, 7)) && Retrieve(m, 2) == None
  {
  }

  /** Message numbers beyond the last are refused by all three commands. */
  lemma NoSuchMessage(m: Maildir, n: int)
    requires n > |All(m)|
    ensures n > 0 ==> ListOne(m, n) == None
    ensures Delete(m, n) == None && Retrieve(m, n) == None
  {
  }
}
