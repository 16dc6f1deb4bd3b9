/** The linked lists of mail files in src/server/pop3.c: one per directory of a maildir. */
module MailList {
  import opened Bytes

  datatype File = File(name: seq<byte>, size: int)

  /** A list node by its value. */
  datatype Entry = Entry(name: seq<byte>, size: int, deleted: bool)

  // What the operations mean for the sequence of entries

  function Listed(files: seq<File>): (es: seq<Entry>)
    ensures |es| == |files|
    ensures forall i :: 0 <= i < |es| ==> es[i] == Entry(files[i].name, files[i].size, false)
  {
    seq(|files|, i requires 0 <= i < |files| => Entry(files[i].name, files[i].size, false))
  }

  function Cleared(es: seq<Entry>): (r: seq<Entry>)
    ensures |r| == |es|
    ensures forall i :: 0 <= i < |es| ==> r[i] == es[i].(deleted := false)
  {
    seq(|es|, i requires 0 <= i < |es| => es[i].(deleted := false))
  }

  function Total(es: seq<Entry>): int {
    if es == [] then 0 else Total(es[..|es| - 1]) + es[|es| - 1].size
  }

  /** The names of the marked entries, in list order. */
  function Marked(es: seq<Entry>): seq<seq<byte>> {
    if es == [] then []
    else Marked(es[..|es| - 1]) + if es[|es| - 1].deleted then [es[|es| - 1].name] else []
  }

  function Unmarked(es: seq<Entry>): seq<Entry> {
    if es == [] then []
    else Unmarked(es[..|es| - 1]) + if es[|es| - 1].deleted then [] else es[|es| - 1..]
  }

  /** The position of the first unmarked entry, or the length. */
  function FirstUnmarked(es: seq<Entry>): (k: nat)
    ensures k <= |es|
    ensures forall i :: 0 <= i < k ==> es[i].deleted
    ensures k < |es| ==> !es[k].deleted
  {
    if es == [] || !es[0].deleted then 0 else 1 + FirstUnmarked(es[1..])
  }

  /**
   * What delete_marked leaves of a list: the chain starts at the first unmarked entry, and the
   * size counts the unmarked ones.
   */
  predicate LeftBehind(before: seq<Entry>, chain: seq<Entry>, size: int) {
    chain == before[FirstUnmarked(before)..] && size == |Unmarked(before)|
  }

  lemma {:induction false} MarkedAndUnmarkedCount(es: seq<Entry>)
    ensures |Marked(es)| + |Unmarked(es)| == |es|
  {
    if es != [] {
      MarkedAndUnmarkedCount(es[..|es| - 1]);
    }
  }

  lemma MarkedOneMore(es: seq<Entry>, p: nat)
    requires p < |es|
    ensures Marked(es[..p + 1]) == Marked(es[..p]) + if es[p].deleted then [es[p].name] else []
  {
    OneMore(es, p);
  }

  /** One more entry: what it adds to the marked names and to the unmarked entries. */
  lemma OneMore(es: seq<Entry>, p: nat)
    requires p < |es|
    ensures Marked(es[..p + 1]) == Marked(es[..p]) + if es[p].deleted then [es[p].name] else []
    ensures Unmarked(es[..p + 1]) == Unmarked(es[..p]) + if es[p].deleted then [] else [es[p]]
    ensures Total(es[..p + 1]) == Total(es[..p]) + es[p].size
  {
    var here := es[..p + 1];
    assert here[..p] == es[..p] && here[p] == es[p] && here[p..] == [es[p]];
  }

  lemma NoEntries(es: seq<Entry>)
    ensures es[..0] == [] && Marked(es[..0]) == [] && Unmarked(es[..0]) == [] && Total(es[..0]) == 0
  {
  }

  lemma ListedOneMore(files: seq<File>, i: nat)
    requires i < |files|
    ensures Listed(files[..i + 1]) == Listed(files[..i]) + [Entry(files[i].name, files[i].size, false)]
  {
  }

  class FileNode {
    const name: seq<byte>
    const size: int
    var deleted: bool
    var next: FileNode?

    constructor (name: seq<byte>, size: int)
      ensures this.name == name && this.size == size && !deleted && next == null
    {
      this.name, this.size, deleted, next := name, size, false, null;
    }
  }

  ghost function EntryOf(n: FileNode): Entry
    reads n
  {
    Entry(n.name, n.size, n.deleted)
  }

  ghost function EntriesOf(nodes: seq<FileNode>): (es: seq<Entry>)
    reads nodes
    ensures |es| == |nodes|
    ensures forall i :: 0 <= i < |es| ==> es[i] == EntryOf(nodes[i])
  {
    seq(|nodes|, i requires 0 <= i < |nodes| reads nodes => EntryOf(nodes[i]))
  }

  /** The node at a position of a chain, null behind its end. */
  ghost function NodeAt(nodes: seq<FileNode>, i: nat): FileNode? {
    if i < |nodes| then nodes[i] else null
  }

  class FileList {
    var head: FileNode?
    var size: int
    ghost var nodes: seq<FileNode>

    /** The chain from the head visits exactly `nodes`, each once. */
    ghost predicate Linked()
      reads this, nodes
    {
      && head == NodeAt(nodes, 0)
      && (forall i {:trigger nodes[i].next} :: 0 <= i < |nodes| ==> nodes[i].next == NodeAt(nodes, i + 1))
      && (forall i, j :: 0 <= i < j < |nodes| ==> nodes[i] != nodes[j])
    }

    ghost predicate Valid()
      reads this, nodes
    {
      Linked() && size == |nodes|
    }

    ghost function Entries(): (es: seq<Entry>)
      reads this, nodes
      ensures |es| == |nodes|
      ensures forall i :: 0 <= i < |es| ==> es[i] == EntryOf(nodes[i])
    {
      EntriesOf(nodes)
    }

    constructor Empty()
      ensures Valid() && nodes == []
    {
      head, size, nodes := null, 0, [];
    }

    /** create_file_list, for the regular files found by reading the directory. */
    static method Create(files: seq<File>) returns (header: FileList)
      ensures fresh(header) && fresh(header.nodes) && header.Valid() && header.Entries() == Listed(files)
    {
      header := new FileList.Empty();
      hide FileList.Valid;
      hide FileList.Linked;
      var i := 0;
      while i < |files|
        invariant 0 <= i <= |files|
        invariant fresh(header) && fresh(header.nodes) && header.Valid()
        invariant header.Entries() == Listed(files[..i])
      {
        header.Append(files[i].name, files[i].size);
        ListedOneMore(files, i);
        i := i + 1;
      }
      assert files[..|files|] == files;
    }

    /** Inserts at the end, by walking there. */
    method Append(name: seq<byte>, fileSize: int)
      requires Valid()
      modifies this, nodes
      ensures Valid() && Entries() == old(Entries()) + [Entry(name, fileSize, false)]
      ensures |nodes| == |old(nodes)| + 1 && nodes[..|old(nodes)|] == old(nodes) && fresh(nodes[|old(nodes)|])
    {
      var node := new FileNode(name, fileSize);
      Attach(node);
    }

    method Attach(node: FileNode)
      requires Valid() && node !in nodes && node.next == null
      modifies this, nodes`next
      ensures Valid() && nodes == old(nodes) + [node]
    {
      if head == null {
        head := node;
      } else {
        var temp := Last();
        temp.next := node;
      }
      nodes := nodes + [node];
      size := size + 1;
    }

    method Last() returns (temp: FileNode)
      requires Valid() && head != null
      ensures nodes != [] && temp == nodes[|nodes| - 1]
    {
      temp := head;
      ghost var at := 0;
      while temp.next != null
        invariant at < |nodes| && temp == nodes[at]
        decreases |nodes| - at
      {
        temp := temp.next;
        at := at + 1;
      }
    }

    /** amount_mails */
    method Count() returns (i: int)
      requires Valid()
      ensures i == |nodes|
    {
      i := 0;
      var aux := head;
      while aux != null
        invariant 0 <= i <= |nodes| && aux == NodeAt(nodes, i)
        decreases |nodes| - i
      {
        i := i + 1;
        aux := aux.next;
      }
    }

    method SumSizes() returns (total: int)
      requires Valid()
      ensures total == Total(Entries())
    {
      total := 0;
      var aux := head;
      ghost var i := 0;
      ghost var es := Entries();
      while aux != null
        invariant 0 <= i <= |nodes| && aux == NodeAt(nodes, i)
        invariant total == Total(es[..i])
        decreases |nodes| - i
      {
        OneMore(es, i);
        total := total + aux.size;
        aux := aux.next;
        i := i + 1;
      }
      assert es[..|es|] == es;
    }

    /** list_directory: one numbered line per entry, counting on from `index`. */
    method Directory(index: int) returns (lines: seq<(int, int)>, index': int)
      requires Valid()
      ensures |lines| == |nodes| && index' == index + |nodes|
      ensures forall i :: 0 <= i < |lines| ==> lines[i] == (index + i, Entries()[i].size)
    {
      lines, index' := [], index;
      var current := head;
      while current != null
        invariant |lines| <= |nodes| && index' == index + |lines| && current == NodeAt(nodes, |lines|)
        invariant forall i :: 0 <= i < |lines| ==> lines[i] == (index + i, Entries()[i].size)
        decreases |nodes| - |lines|
      {
        lines := lines + [(index', current.size)];
        index' := index' + 1;
        current := current.next;
      }
    }

    /** search_file: the entry with this number, null when there is none (or the number is not positive). */
    method Search(number: int) returns (found: FileNode?)
      requires Valid()
      ensures found == if 1 <= number <= |nodes| then nodes[number - 1] else null
    {
      var remaining := number;
      var current := head;
      ghost var i := 0;
      while current != null
        invariant 0 <= i <= |nodes| && current == NodeAt(nodes, i) && remaining == number - i
        invariant !(1 <= number <= i)
        decreases |nodes| - i
      {
        remaining := remaining - 1;
        if remaining == 0 {
          return current;
        }
        current := current.next;
        i := i + 1;
      }
      found := null;
    }

    /** The walk of list_messages: `remaining` is decremented before every look. */
    method Walk(number: int) returns (current: FileNode?)
      requires Valid() && number >= 1
      ensures current == NodeAt(nodes, number - 1)
    {
      var remaining := number - 1;
      current := head;
      ghost var i := 0;
      while remaining != 0 && current != null
        invariant 0 <= i && 0 <= remaining == number - 1 - i && current == NodeAt(nodes, i)
        decreases remaining
      {
        current := current.next;
        i := i + 1;
        remaining := remaining - 1;
      }
    }

    /** mark_del_in_list */
    method Mark(number: int)
      requires Valid() && 1 <= number <= size
      modifies nodes`deleted
      ensures Valid() && nodes == old(nodes)
      ensures Entries() == old(Entries())[number - 1 := old(Entries())[number - 1].(deleted := true)]
    {
      var aux: FileNode;
      if number == 1 {
        aux := head;
      } else {
        aux := Advance(number);
      }
      aux.deleted := true;
    }

    method Advance(number: int) returns (aux: FileNode)
      requires Valid() && 1 < number <= size
      ensures aux == nodes[number - 1]
    {
      aux := head;
      var left := number - 1;
      ghost var i := 0;
      while left > 0
        invariant 0 <= left == number - 1 - i && i < |nodes| && aux == nodes[i]
      {
        aux := aux.next;
        i := i + 1;
        left := left - 1;
      }
    }

    /**
     * The loop of unmark_all for one list. It looks at a node again after clearing it, so its
     * measure counts a marked node twice.
     */
    method UnmarkAll()
      requires Valid()
      modifies nodes`deleted
      ensures Valid() && nodes == old(nodes)
      ensures Entries() == Cleared(old(Entries()))
    {
      var aux := head;
      ghost var i := 0;
      while aux != null
        invariant 0 <= i <= |nodes| && aux == NodeAt(nodes, i)
        invariant forall k :: 0 <= k < i ==> !nodes[k].deleted
        decreases 2 * (|nodes| - i) + if aux != null && aux.deleted then 1 else 0
      {
        if aux.deleted {
          aux.deleted := false;
        } else {
          aux := aux.next;
          i := i + 1;
        }
      }
    }

    /**
     * The loop of delete_marked for one list: removes the file of every marked entry, in order,
     * but takes the node out of the chain only while no unmarked one came before it.
     */
    method DeleteMarked() returns (removed: seq<seq<byte>>)
      requires Valid()
      modifies this
      ensures removed == Marked(old(Entries()))
      ensures Linked() && nodes == old(nodes)[FirstUnmarked(old(Entries()))..]
      ensures LeftBehind(old(Entries()), Entries(), size)
    {
      hide Marked;
      hide Unmarked;
      ghost var es := Entries();
      removed := Sweep(es);
      MarkedAndUnmarkedCount(es);
      Unlink(FirstUnmarked(es));
    }

    method Sweep(ghost es: seq<Entry>) returns (removed: seq<seq<byte>>)
      requires Valid() && es == Entries()
      modifies this`head, this`size
      ensures removed == Marked(es) && size == |nodes| - |removed|
      ensures head == NodeAt(nodes, FirstUnmarked(es))
    {
      hide Marked;
      hide Unmarked;
      hide Total;
      hide FirstUnmarked;
      removed := [];
      ghost var first, ns := FirstUnmarked(es), nodes;
      ghost var p := 0;
      var aux := head;
      var i := 0;
      NoEntries(es);
      assert Linked() && size == |ns| && |es| == |ns|;
      assert forall k :: 0 <= k < |ns| ==> es[k] == EntryOf(ns[k]);
      hide FileList.Valid;
      hide FileList.Entries;
      while aux != null
        invariant 0 <= p <= |ns| && aux == NodeAt(ns, p) && 0 <= i
        invariant removed == Marked(es[..p]) && size == |ns| - |removed|
        invariant i == 0 <==> p <= first
        invariant head == if i == 0 then aux else NodeAt(ns, first)
        decreases |ns| - p
      {
        MarkedOneMore(es, p);
        var next, marked, name := aux.next, aux.deleted, aux.name;
        assert next == old(ns[p].next) == NodeAt(ns, p + 1);
        assert es[p] == old(EntryOf(ns[p]));
        if marked {
          removed := removed + [name];
          if i == 0 {
            head := next;
          }
          size := size - 1;
        } else {
          i := i + 1;
        }
        aux := next;
        p := p + 1;
      }
      assert es[..p] == es;
    }

    /** The chain now starts at node k. */
    ghost method Unlink(k: nat)
      requires k <= |nodes| && head == NodeAt(nodes, k)
      requires forall i {:trigger nodes[i].next} :: 0 <= i < |nodes| ==> nodes[i].next == NodeAt(nodes, i + 1)
      requires forall i, j :: 0 <= i < j < |nodes| ==> nodes[i] != nodes[j]
      modifies this`nodes
      ensures Linked() && nodes == old(nodes)[k..] && Entries() == old(Entries())[k..]
    {
      nodes := nodes[k..];
    }
  }

  // What remains after delete_marked

  lemma {:induction false} AllMarked(es: seq<Entry>, p: nat)
    requires p <= |es| && forall i :: 0 <= i < p ==> es[i].deleted
    ensures Unmarked(es[..p]) == []
  {
    NoEntries(es);
    hide Unmarked;
    if p > 0 {
      AllMarked(es, p - 1);
      OneMore(es, p - 1);
    }
  }

  lemma {:induction false} NoneMarked(es: seq<Entry>, p: nat)
    requires p <= |es| && forall i :: 0 <= i < p ==> !es[i].deleted
    ensures Unmarked(es[..p]) == es[..p]
  {
    NoEntries(es);
    hide Unmarked;
    if p > 0 {
      NoneMarked(es, p - 1);
      OneMore(es, p - 1);
      assert es[..p] == es[..p - 1] + [es[p - 1]];
    }
  }

  lemma {:induction false} SomeMarked(es: seq<Entry>, p: nat, at: nat)
    requires at < p <= |es| && es[at].deleted
    ensures |Unmarked(es[..p])| < p
  {
    hide Unmarked;
    OneMore(es, p - 1);
    if at < p - 1 {
      SomeMarked(es, p - 1, at);
    } else {
      MarkedAndUnmarkedCount(es[..p - 1]);
    }
  }

  lemma {:induction false} UnmarkedConcat(a: seq<Entry>, b: seq<Entry>, p: nat)
    requires p <= |b|
    ensures Unmarked((a + b)[..|a| + p]) == Unmarked(a) + Unmarked(b[..p])
  {
    NoEntries(b);
    hide Unmarked;
    if p == 0 {
      assert (a + b)[..|a|] == a;
    } else {
      UnmarkedConcat(a, b, p - 1);
      OneMore(a + b, |a| + p - 1);
      OneMore(b, p - 1);
    }
  }

  /** Marked entries come before all unmarked ones. */
  predicate MarksLead(es: seq<Entry>) {
    forall i, j :: 0 <= i < j < |es| && es[j].deleted ==> es[i].deleted
  }

  /**
   * The chain delete_marked leaves holds exactly the unmarked entries if and only if all marked
   * entries were in front of the unmarked ones. Only then does it match the size kept beside it.
   */
  lemma ChainIsUnmarkedIff(es: seq<Entry>, chain: seq<Entry>, size: int)
    requires LeftBehind(es, chain, size)
    ensures chain == Unmarked(es) <==> MarksLead(es)
    ensures |chain| == size <==> MarksLead(es)
  {
    hide Unmarked;
    hide FirstUnmarked;
    var k := FirstUnmarked(es);
    UnmarkedOfChain(es);
    if MarksLead(es) {
      ChainWithoutMarks(es);
    } else {
      ChainWithMark(es);
    }
  }

  /** The entries in front of the chain are all marked. */
  lemma UnmarkedOfChain(es: seq<Entry>)
    ensures Unmarked(es) == Unmarked(es[FirstUnmarked(es)..])
  {
    hide Unmarked;
    hide FirstUnmarked;
    var k := FirstUnmarked(es);
    var tail := es[k..];
    assert es == es[..k] + tail && es[..|es|] == es && tail[..|tail|] == tail;
    UnmarkedConcat(es[..k], tail, |tail|);
    AllMarked(es, k);
  }

  lemma ChainWithoutMarks(es: seq<Entry>)
    requires MarksLead(es)
    ensures var chain := es[FirstUnmarked(es)..]; Unmarked(chain) == chain
  {
    hide FirstUnmarked;
    hide Unmarked;
    var k := FirstUnmarked(es);
    var chain := es[k..];
    forall i | 0 <= i < |chain|
      ensures !chain[i].deleted
    {
      assert chain[i] == es[k + i];
    }
    NoneMarked(chain, |chain|);
    assert chain[..|chain|] == chain;
  }

  lemma ChainWithMark(es: seq<Entry>)
    requires !MarksLead(es)
    ensures var chain := es[FirstUnmarked(es)..]; |Unmarked(chain)| < |chain|
  {
    hide FirstUnmarked;
    hide Unmarked;
    var k := FirstUnmarked(es);
    var chain := es[k..];
    var i, j :| 0 <= i < j < |es| && es[j].deleted && !es[i].deleted;
    assert k <= i && chain[j - k] == es[j];
    SomeMarked(chain, |chain|, j - k);
    assert chain[..|chain|] == chain;
  }

  /** Marking only the second of two entries: its node stays linked although the size says one. */
  lemma RemovedEntryCanStayLinked()
    ensures var es := [Entry([0x61], 5, false), Entry([0x62], 7, true)];
            Marked(es) == [[0x62]] && LeftBehind(es, es, 1)
  {
    var es := [Entry([0x61], 5, false), Entry([0x62], 7, true)];
    assert es[..1] == [es[0]] && es[..1][..0] == [] && es[..1][0..] == [es[0]];
    assert Marked(es[..1]) == [] && Unmarked(es[..1]) == [es[0]];
    assert FirstUnmarked(es) == 0 && es[0..] == es;
    assert Marked(es) == Marked(es[..1]) + [es[1].name] && Unmarked(es) == Unmarked(es[..1]) + [];
  }
}
