/** src/ignore/selector.c: the growable table of registered file descriptors and its derived indexes. */
module SelectorTable {
  import opened Bytes

  const ITEMS_MAX_SIZE: nat := 1024
  const FD_UNUSED := -1

  type Interest = bv8
  const OP_NOOP: Interest := 0
  const OP_READ: Interest := 1
  const OP_WRITE: Interest := 4

  predicate WantsRead(i: Interest) { i & OP_READ != 0 }

  predicate WantsWrite(i: Interest) { i & OP_WRITE != 0 }

  /** Overrun is not a status of the source: it reads or writes behind its table, and the model ends there. */
  datatype Status = Success | MaxFd | IllegalArgs | FdInUse | Overrun

  /** Handlers and attachments by their address. */
  datatype Registration = Registration(handler: nat, interest: Interest, data: nat)

  datatype Item = Item(fd: int, reg: Registration)

  const UNUSED := Item(FD_UNUSED, Registration(0, OP_NOOP, 0))

  predicate InvalidFd(fd: int) {
    fd < 0 || fd >= ITEMS_MAX_SIZE
  }

  // Capacity

  function Pow2(k: nat): (p: nat)
    ensures p >= 1
  {
    if k == 0 then 1 else 2 * Pow2(k - 1)
  }

  ghost predicate LeastPow2Above(p: nat, n: nat) {
    && (exists k: nat :: p == Pow2(k))
    && p > n
    && forall j: nat :: Pow2(j) > n ==> p <= Pow2(j)
  }

  function Pow2Above(n: nat): (p: nat)
    ensures p > n
  {
    if n == 0 then 1 else 2 * Pow2Above(n / 2)
  }

  lemma {:induction false} Pow2AboveIsLeast(n: nat)
    ensures LeastPow2Above(Pow2Above(n), n)
  {
    if n == 0 {
      assert Pow2(0) == 1;
    } else {
      Pow2AboveIsLeast(n / 2);
      var k: nat :| Pow2Above(n / 2) == Pow2(k);
      assert Pow2Above(n) == Pow2(k + 1);
      forall j: nat | Pow2(j) > n
        ensures Pow2Above(n) <= Pow2(j)
      {
        assert j > 0 && Pow2(j) == 2 * Pow2(j - 1);
        assert Pow2(j - 1) > n / 2;
      }
    }
  }

  function Capacity(n: nat): nat {
    (if Pow2Above(n) > ITEMS_MAX_SIZE then ITEMS_MAX_SIZE else Pow2Above(n)) + 1
  }

  lemma CapacityFits(n: nat)
    requires n <= ITEMS_MAX_SIZE
    ensures n < Capacity(n) <= ITEMS_MAX_SIZE + 1
  {
  }

  /** The size of the table by the time Register picks the slot for a valid descriptor. */
  function SizeForRegister(size: nat, fd: nat): nat
    requires fd < ITEMS_MAX_SIZE
  {
    if fd > size then Capacity(fd) else size
  }

  lemma LeastPow2AboveIsUnique(p: nat, n: nat)
    requires LeastPow2Above(p, n)
    ensures p == Pow2Above(n)
  {
    Pow2AboveIsLeast(n);
    var j: nat :| p == Pow2(j);
    var k: nat :| Pow2Above(n) == Pow2(k);
  }

  /** x doubled k times. */
  function Doubled(k: nat, x: nat): nat {
    if k == 0 then x else Doubled(k - 1, 2 * x)
  }

  lemma {:induction false} DoubledPow2(k: nat, j: nat)
    ensures Doubled(k, Pow2(j)) == Pow2(j + k)
  {
    if k > 0 {
      DoubledPow2(k - 1, j + 1);
    }
  }

  /** One more than the least power of two above n, cut off at the platform's limit. */
  method NextCapacity(n: nat) returns (capacity: nat)
    ensures forall p: nat :: LeastPow2Above(p, n) ==>
              capacity == (if p > ITEMS_MAX_SIZE then ITEMS_MAX_SIZE else p) + 1
    ensures capacity == Capacity(n)
  {
    var bits: nat := 0;
    var tmp: nat := n;
    while tmp != 0
      invariant Doubled(bits, Pow2Above(tmp)) == Pow2Above(n)
      decreases tmp
    {
      tmp := tmp / 2;
      bits := bits + 1;
    }
    tmp := Pow2(bits);
    DoubledPow2(bits, 0);
    if tmp > ITEMS_MAX_SIZE {
      tmp := ITEMS_MAX_SIZE;
    }
    capacity := tmp + 1;
    forall p: nat | LeastPow2Above(p, n)
      ensures p == Pow2Above(n)
    {
      LeastPow2AboveIsUnique(p, n);
    }
  }

  // The table as a value

  type Table = map<int, Registration>

  function TableOf(items: seq<Item>): (t: Table)
    ensures forall fd :: fd in t <==> 0 <= fd < |items| && items[fd].fd != FD_UNUSED
    ensures forall fd :: fd in t ==> t[fd] == items[fd].reg
  {
    map fd | 0 <= fd < |items| && items[fd].fd != FD_UNUSED :: items[fd].reg
  }

  /** Bit 0 of an interest is reading, bit 2 writing. */
  function Readers(t: Table): set<int> {
    set fd | fd in t && t[fd].interest & 1 != 0
  }

  function Writers(t: Table): set<int> {
    set fd | fd in t && t[fd].interest & 4 != 0
  }

  /** The largest registered descriptor, 0 when there is none. */
  predicate IsMaxFd(m: int, t: Table) {
    && (forall fd :: fd in t ==> fd <= m)
    && (if t == map[] then m == 0 else m in t)
  }

  /** Every slot is wiped or holds the descriptor that is its index. */
  predicate SlotsOk(items: seq<Item>) {
    forall i :: 0 <= i < |items| ==> items[i] == UNUSED || items[i].fd == i
  }

  class Selector {
    var fds: array<Item>
    var maxFd: int
    var masterR: set<int>
    var masterW: set<int>
    /** The calls made to handle_close, oldest first. */
    ghost var closed: seq<(int, nat)>

    ghost function View(): Table
      reads this, fds
    {
      TableOf(fds[..])
    }

    ghost predicate Valid()
      reads this, fds
    {
      && 2 <= fds.Length <= ITEMS_MAX_SIZE + 1
      && SlotsOk(fds[..])
      && 0 <= maxFd < fds.Length
      && IsMaxFd(maxFd, View())
      && masterR == Readers(View())
      && masterW == Writers(View())
    }

    constructor (initialElements: nat)
      requires initialElements <= ITEMS_MAX_SIZE
      ensures Valid() && View() == map[] && closed == []
      ensures fds.Length == Capacity(initialElements) && fresh(fds)
    {
      var size := NextCapacity(initialElements);
      CapacityFits(initialElements);
      fds := new Item[size](_ => UNUSED);
      maxFd, masterR, masterW, closed := 0, {}, {}, [];
    }

    static method New(initialElements: nat) returns (s: Selector?)
      ensures s == null <==> initialElements > ITEMS_MAX_SIZE
      ensures s != null ==> fresh(s) && s.Valid() && s.View() == map[] && s.fds.Length == Capacity(initialElements)
    {
      if initialElements > ITEMS_MAX_SIZE {
        s := null;
      } else {
        s := new Selector(initialElements);
      }
    }

    method ItemsMaxFd() returns (max: int)
      requires SlotsOk(fds[..]) && 0 <= maxFd < fds.Length
      requires forall fd :: fd in View() ==> fd <= maxFd
      ensures IsMaxFd(max, View()) && 0 <= max <= maxFd
    {
      max := 0;
      var i := 0;
      while i <= maxFd
        invariant 0 <= i <= maxFd + 1 && 0 <= max <= maxFd
        invariant forall fd :: 0 <= fd < i && fd in View() ==> fd <= max
        invariant max in View() || (max == 0 && forall fd :: 0 < fd < i ==> fd !in View())
      {
        var item := fds[i];
        assert fds[..][i] == item;
        if item.fd != FD_UNUSED {
          if item.fd > max {
            max := item.fd;
          }
        }
        i := i + 1;
      }
      if max !in View() {
        assert forall fd :: fd in View() ==> 0 <= fd <= maxFd;
        assert View() == map[];
      }
    }

    method UpdateFdSets(fd: int, item: Item)
      modifies this`masterR, this`masterW
      ensures masterR == old(masterR) - {fd} + if item.fd != FD_UNUSED && WantsRead(item.reg.interest) then {fd} else {}
      ensures masterW == old(masterW) - {fd} + if item.fd != FD_UNUSED && WantsWrite(item.reg.interest) then {fd} else {}
    {
      masterR := masterR - {fd};
      masterW := masterW - {fd};
      if item.fd != FD_UNUSED {
        if item.reg.interest & OP_READ != 0 {
          masterR := masterR + {fd};
        }
        if item.reg.interest & OP_WRITE != 0 {
          masterW := masterW + {fd};
        }
      }
    }

    /** Success means slot n exists; nothing registered is lost and new slots are unused. */
    method EnsureCapacity(n: nat) returns (ret: Status)
      requires Valid()
      modifies this`fds
      ensures Valid() && View() == old(View())
      ensures ret == if n < old(fds.Length) || n <= ITEMS_MAX_SIZE then Success else MaxFd
      ensures ret == Success ==> n < fds.Length
      ensures old(fds.Length) <= fds.Length && fds[..old(fds.Length)] == old(fds[..])
      ensures forall i :: old(fds.Length) <= i < fds.Length ==> fds[i] == UNUSED
      ensures fds == old(fds) || fresh(fds)
      ensures n < old(fds.Length) || ret == MaxFd ==> fds == old(fds)
      ensures old(fds.Length) <= n <= ITEMS_MAX_SIZE ==> fds.Length == Capacity(n)
    {
      ret := Success;
      if n < fds.Length {
      } else if n > ITEMS_MAX_SIZE {
        ret := MaxFd;
      } else {
        Grow(n);
      }
    }

    method Grow(n: nat)
      requires Valid() && fds.Length <= n <= ITEMS_MAX_SIZE
      modifies this`fds
      ensures Valid() && View() == old(View())
      ensures fds.Length == Capacity(n) && n < fds.Length
      ensures fds[..old(fds.Length)] == old(fds[..])
      ensures forall i :: old(fds.Length) <= i < fds.Length ==> fds[i] == UNUSED
      ensures fresh(fds)
    {
      hide SlotsOk;
      hide TableOf;
      hide Readers;
      hide Writers;
      hide IsMaxFd;
      hide Capacity;
      ghost var before := fds[..];
      var newSize := NextCapacity(n);
      CapacityFits(n);
      var tmp := new Item[newSize](_ => UNUSED);
      forall i | 0 <= i < fds.Length {
        tmp[i] := fds[i];
      }
      assert tmp[..|before|] == before;
      GrownTable(before, tmp[..]);
      fds := tmp;
      assert View() == old(View());
    }

    /** A slot exactly at the end of the table is not made room for; see SlotExistsIff. Growing moves the table. */
    method Register(fd: int, handler: Option<nat>, interest: Interest, data: nat) returns (ret: Status)
      requires Valid()
      modifies this, fds
      ensures Valid()
      ensures ret == if InvalidFd(fd) || handler.None? then IllegalArgs
                     else if fd == old(fds.Length) then Overrun
                     else if fd in old(View()) then FdInUse else Success
      ensures View() == if ret == Success then old(View())[fd := Registration(handler.value, interest, data)]
                        else old(View())
      ensures fds == old(fds) || fresh(fds)
      ensures fds.Length == if InvalidFd(fd) || handler.None? then old(fds.Length)
                            else SizeForRegister(old(fds.Length), fd)
      ensures fds == old(fds) <==> fds.Length == old(fds.Length)
      ensures closed == old(closed)
    {
      ret := Success;
      if InvalidFd(fd) || handler.None? {
        return IllegalArgs;
      }
      CapacityFits(fd);
      if fd > fds.Length {
        ret := EnsureCapacity(fd);
      }
      if fd >= fds.Length {
        return Overrun;
      }
      assert fds[..][fd] == fds[fd];
      if fds[fd].fd != FD_UNUSED {
        return FdInUse;
      }
      Place(fd, Item(fd, Registration(handler.value, interest, data)));
    }

    /** Fills an unused slot and brings the derived indexes up to date. */
    method Place(fd: nat, item: Item)
      requires Valid() && fd < fds.Length && fd !in View() && item.fd == fd
      modifies this`maxFd, this`masterR, this`masterW, fds
      ensures Valid() && View() == old(View())[fd := item.reg]
    {
      ghost var before := View();
      SetSlot(fd, item);
      if fd > maxFd {
        maxFd := fd;
      }
      UpdateFdSets(fd, item);
      IndexesAfterUpdate(before, fd, item.reg);
    }

    method SetSlot(fd: nat, item: Item)
      requires fd < fds.Length && (item == UNUSED || item.fd == fd) && SlotsOk(fds[..])
      modifies fds
      ensures fds[..] == old(fds[..])[fd := item] && SlotsOk(fds[..])
      ensures item.fd == FD_UNUSED ==> View() == old(View()) - {fd}
      ensures item.fd == fd ==> View() == old(View())[fd := item.reg]
    {
      fds[fd] := item;
      assert fds[..] == old(fds[..])[fd := item];
    }

    method Unregister(fd: int) returns (ret: Status)
      requires Valid()
      modifies this, fds
      ensures Valid() && fds == old(fds)
      ensures ret == if InvalidFd(fd) then IllegalArgs
                     else if fd >= fds.Length then Overrun
                     else if fd in old(View()) then Success else IllegalArgs
      ensures View() == if ret == Success then old(View()) - {fd} else old(View())
      ensures closed == old(closed) + if ret == Success then [(fd, old(View())[fd].data)] else []
    {
      ret := Success;
      if InvalidFd(fd) {
        return IllegalArgs;
      }
      if fd >= fds.Length {
        return Overrun;
      }
      var item := fds[fd];
      assert fds[..][fd] == item;
      if item.fd == FD_UNUSED {
        return IllegalArgs;
      }
      closed := closed + [(item.fd, item.reg.data)];
      UpdateFdSets(fd, item.(reg := item.reg.(interest := OP_NOOP)));
      SetSlot(fd, UNUSED);
      maxFd := ItemsMaxFd();
    }

    method SetInterest(fd: int, i: Interest) returns (ret: Status)
      requires Valid()
      modifies this, fds
      ensures Valid() && fds == old(fds) && closed == old(closed)
      ensures ret == if InvalidFd(fd) then IllegalArgs
                     else if fd >= fds.Length then Overrun
                     else if fd in old(View()) then Success else IllegalArgs
      ensures View() == if ret == Success then old(View())[fd := old(View())[fd].(interest := i)] else old(View())
    {
      ret := Success;
      if InvalidFd(fd) {
        return IllegalArgs;
      }
      if fd >= fds.Length {
        return Overrun;
      }
      var item := fds[fd];
      assert fds[..][fd] == item;
      if item.fd == FD_UNUSED {
        return IllegalArgs;
      }
      ghost var before := View();
      item := item.(reg := item.reg.(interest := i));
      SetSlot(fd, item);
      UpdateFdSets(fd, item);
      IndexesAfterUpdate(before, fd, item.reg);
    }
  }

  lemma GrownTable(small: seq<Item>, large: seq<Item>)
    requires |small| <= |large| && large[..|small|] == small
    requires forall i :: |small| <= i < |large| ==> large[i] == UNUSED
    ensures TableOf(large) == TableOf(small)
    ensures SlotsOk(small) ==> SlotsOk(large)
  {
    forall i | 0 <= i < |small|
      ensures large[i] == small[i]
    {
      assert large[..|small|][i] == small[i];
    }
  }

  lemma IndexesAfterUpdate(t: Table, fd: int, reg: Registration)
    ensures Readers(t[fd := reg]) == Readers(t) - {fd} + if WantsRead(reg.interest) then {fd} else {}
    ensures Writers(t[fd := reg]) == Writers(t) - {fd} + if WantsWrite(reg.interest) then {fd} else {}
  {
  }

  // The slot at the end of the table

  /** Register's slot exists for every valid descriptor but the one equal to the table size. */
  lemma SlotExistsIff(size: nat, fd: nat)
    requires fd < ITEMS_MAX_SIZE
    ensures fd < SizeForRegister(size, fd) <==> fd != size
  {
    CapacityFits(fd);
  }

  /** A table created for no elements has two slots, and descriptor 2 falls just behind them. */
  lemma SlotCanBeMissing()
    ensures Capacity(0) == 2 && !(2 < SizeForRegister(Capacity(0), 2))
  {
  }

  /**
   * A new table takes any valid descriptor as its first registration exactly when it was created
   * for at least 512 elements.
   */
  lemma NewTableTakesAnyFdIff(initialElements: nat)
    requires initialElements <= ITEMS_MAX_SIZE
    ensures (forall fd: nat :: fd < ITEMS_MAX_SIZE ==> fd < SizeForRegister(Capacity(initialElements), fd))
            <==> initialElements >= 512
  {
    var size := Capacity(initialElements);
    Pow2AboveIsLeast(initialElements);
    assert Pow2(9) == 512 && Pow2(10) == 1024;
    if initialElements >= 512 {
      var k: nat :| Pow2Above(initialElements) == Pow2(k);
      if k < 10 {
        Pow2Monotone(k, 9);
      } else {
        Pow2Monotone(10, k);
      }
      assert size == 1025;
      forall fd: nat | fd < ITEMS_MAX_SIZE
        ensures fd < SizeForRegister(size, fd)
      {
        SlotExistsIff(size, fd);
      }
    } else {
      assert Pow2Above(initialElements) <= 512;
      SlotExistsIff(size, size);
      assert !(size < SizeForRegister(size, size));
    }
  }

  lemma {:induction false} Pow2Monotone(a: nat, b: nat)
    requires a <= b
    ensures Pow2(a) <= Pow2(b)
    decreases b
  {
    if a < b {
      Pow2Monotone(a, b - 1);
    }
  }
}
