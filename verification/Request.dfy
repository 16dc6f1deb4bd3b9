/** src/ignore/request.c: the SOCKS5 request, section 4 of RFC 1928. */
module Request {
  import opened Bytes
  import opened ByteBuffer
  import opened ByteMachine

  datatype Phase =
    | Version | Cmd | Rsv | Atyp | AddrLength | Addr | Port
    | Done
    | UnsupportedVersion | UnsupportedAtyp

  const IPV4: byte := 1
  const DOMAIN: byte := 3
  const IPV6: byte := 4
  const FQDN_SIZE := 255

  /**
   * The parser's fields and the request it fills. `addr` is the address area of the request (the
   * union of the three address kinds, by its address bytes); `wild` records that a byte was
   * stored outside of it.
   */
  datatype Progress = Progress(phase: Phase, i: byte, n: byte, cmd: byte, atyp: byte,
                               addr: seq<byte>, port: seq<byte>, wild: bool)

  const START := Progress(Version, 0, 0, 0, 0, Zeros(FQDN_SIZE), [0, 0], false)

  predicate Finished(p: Phase) {
    p == Done || Errored(p)
  }

  predicate Errored(p: Phase) {
    p == UnsupportedVersion || p == UnsupportedAtyp
  }

  /** The counters stay inside the arrays. */
  predicate Ok(p: Progress) {
    && |p.addr| == FQDN_SIZE && |p.port| == 2
    && (p.phase == Addr ==> p.i < FQDN_SIZE && p.i < Width(p.n))
    && (p.phase == Port ==> p.n == 2 && p.i < 2)
  }

  /** How many address bytes follow, given the announced number: a zero still costs one byte. */
  function Width(n: byte): byte {
    if n == 0 then 1 else n
  }

  /** A store at an index of an array of the request; outside of it only `wild` remembers it. */
  function Store(p: Progress, index: int, c: byte): Progress {
    if 0 <= index < |p.addr| then p.(addr := p.addr[index := c]) else p.(wild := true)
  }

  function StorePort(p: Progress, index: int, c: byte): Progress {
    if 0 <= index < |p.port| then p.(port := p.port[index := c]) else p.(wild := true)
  }

  function Cleared(addr: seq<byte>, n: nat): seq<byte> {
    if n <= |addr| then Zeros(n) + addr[n..] else Zeros(|addr|)
  }

  function Next(i: byte): byte {
    (i + 1) % 256
  }

  function Feed(p: Progress, c: byte): Progress {
    match p.phase
    case Version => p.(phase := if c == 5 then Cmd else UnsupportedVersion)
    case Cmd => p.(cmd := c, phase := Rsv)
    case Rsv => p.(phase := Atyp)
    case Atyp => FeedAtyp(p, c)
    case AddrLength => Store(p, c - 1, 0).(i := 0, n := c, phase := Addr)
    case Addr => FeedAddress(p, c)
    case Port => StorePort(p, p.i, c).(i := Next(p.i), phase := if Next(p.i) >= p.n then Done else Port)
    case _ => p
  }

  function FeedAtyp(p: Progress, c: byte): Progress {
    if c == IPV4 then p.(atyp := c, i := 0, n := 4, addr := Cleared(p.addr, 4), phase := Addr)
    else if c == IPV6 then p.(atyp := c, i := 0, n := 16, addr := Cleared(p.addr, 16), phase := Addr)
    else if c == DOMAIN then p.(atyp := c, phase := AddrLength)
    else p.(atyp := c, phase := UnsupportedAtyp)
  }

  function FeedAddress(p: Progress, c: byte): Progress {
    var q := Store(p, p.i, c);
    if Next(p.i) >= p.n then q.(i := 0, n := 2, port := [0, 0], phase := Port)
    else q.(i := Next(p.i))
  }

  const REQUEST: Machine<Progress> := Machine(Feed, (p: Progress) => Finished(p.phase))

  class Parser {
    var state: Phase
    var i: byte
    var n: byte
    var cmd: byte
    var atyp: byte
    const addr: array<byte>
    const port: array<byte>
    ghost var wild: bool

    ghost predicate Valid()
      reads this, addr, port
    {
      addr != port && Ok(View())
    }

    ghost function View(): Progress
      reads this, addr, port
    {
      Progress(state, i, n, cmd, atyp, addr[..], port[..], wild)
    }

    constructor ()
      ensures Valid() && View() == START && fresh(addr) && fresh(port)
    {
      state, i, n, cmd, atyp, wild := Version, 0, 0, 0, 0, false;
      addr := new byte[FQDN_SIZE](_ => 0);
      port := new byte[2](_ => 0);
    }

    method RemainingSet(count: byte)
      modifies this`i, this`n
      ensures i == 0 && n == count
    {
      i, n := 0, count;
    }

    method FeedByte(c: byte) returns (st: Phase)
      requires Valid()
      modifies this, addr, port
      ensures Valid() && View() == Feed(old(View()), c) && st == state
    {
      match state {
        case Version =>
          state := if c == 5 then Cmd else UnsupportedVersion;
        case Cmd =>
          cmd := c;
          state := Rsv;
        case Rsv =>
          state := Atyp;
        case Atyp =>
          FeedAtyp(c);
        case AddrLength =>
          RemainingSet(c);
          if n == 0 {
            wild := true;
          } else {
            addr[n - 1] := 0;
          }
          state := Addr;
        case Addr =>
          FeedDstAddr(c);
        case Port =>
          port[i] := c;
          i := i + 1;
          if i >= n {
            state := Done;
          }
        case _ =>
      }
      st := state;
    }

    method FeedDstAddr(c: byte)
      requires Valid() && state == Addr
      modifies this, addr, port
      ensures Valid() && View() == Feed(old(View()), c)
    {
      addr[i] := c;
      i := i + 1;
      if i >= n {
        RemainingSet(2);
        port[0], port[1] := 0, 0;
        assert port[..] == [0, 0];
        state := Port;
      }
    }

    method FeedAtyp(c: byte)
      requires Valid() && state == Atyp
      modifies this, addr
      ensures Valid() && View() == Feed(old(View()), c)
    {
      atyp := c;
      if c == IPV4 || c == IPV6 {
        RemainingSet(if c == IPV4 then 4 else 16);
        ghost var was := addr[..];
        forall k | 0 <= k < n {
          addr[k] := 0;
        }
        assert addr[..] == Zeros(n) + was[n..];
        state := Addr;
      } else if c == DOMAIN {
        state := AddrLength;
      } else {
        state := UnsupportedAtyp;
      }
    }

    method ConsumeBuffer(b: Buffer, errored: bool) returns (st: Phase, errored': bool)
      requires Valid() && b.Valid() && b.data != addr && b.data != port
      modifies this, addr, port, b, b.data
      ensures Valid() && b.Valid()
      ensures (View(), b.Abs().queue) == Consume(REQUEST, old(View()), old(b.Abs()).queue)
      ensures st == state
      ensures errored' == (errored || (Errored(st) && old(b.Abs()).queue != []))
    {
      st := state;
      errored' := errored;
      ghost var p, input := View(), b.Abs().queue;
      while b.CanRead()
        invariant Valid() && b.Valid() && st == state
        invariant Consume(REQUEST, View(), b.Abs().queue) == Consume(REQUEST, p, input)
        invariant errored' == errored && |b.Abs().queue| <= |input|
        invariant |b.Abs().queue| < |input| ==> !Finished(state)
        decreases |b.Abs().queue|
      {
        var c := b.Read();
        st := FeedByte(c);
        if Finished(st) {
          errored' := errored' || Errored(st);
          break;
        }
      }
    }
  }

  /** ChunkingIff for this parser: requests are independent of chunking while unfinished, and only then. */
  lemma RequestChunkingIff(p: Progress, a: seq<byte>, b: seq<byte>)
    ensures var (p1, rest) := Consume(REQUEST, p, a);
            Consume(REQUEST, p1, rest + b) == Consume(REQUEST, p, a + b)
            <==> a == [] || !Finished(p1.phase) || rest + b == []
  {
    ChunkingIff(REQUEST, p, a, b);
  }

  // What a request means

  datatype Message = Message(cmd: byte, atyp: byte, address: seq<byte>, port: seq<byte>)

  /**
   * What a complete reading of the wire bytes gives, straight from the layout in RFC 1928: address
   * type 1 is IPv4, 3 a domain name, 4 IPv6.
   */
  datatype Reading =
    | Incomplete
    | BadVersion(rest: seq<byte>)
    | BadAtyp(rest: seq<byte>)
    | EmptyDomain
    | Complete(message: Message, reserved: byte, rest: seq<byte>)

  predicate WellSized(m: Message) {
    && |m.port| == 2
    && (m.atyp == 1 ==> |m.address| == 4)
    && (m.atyp == 4 ==> |m.address| == 16)
    && (m.atyp == 3 ==> |m.address| <= 255)
    && m.atyp in {1, 4, 3}
  }

  function Encode(m: Message, reserved: byte): seq<byte>
    requires WellSized(m)
  {
    [5, m.cmd, reserved, m.atyp] + (if m.atyp == 3 then [|m.address|] else []) + m.address + m.port
  }

  function Decode(input: seq<byte>): Reading {
    if |input| < 1 then Incomplete
    else if input[0] != 5 then BadVersion(input[1..])
    else if |input| < 4 then Incomplete
    else if input[3] == 1 then DecodeAt(input, 4, 4)
    else if input[3] == 4 then DecodeAt(input, 4, 16)
    else if input[3] != 3 then BadAtyp(input[4..])
    else if |input| < 5 then Incomplete
    else if input[4] == 0 then EmptyDomain
    else DecodeAt(input, 5, input[4])
  }

  /** The address has `size` bytes and starts at `from`; the port follows it. */
  function DecodeAt(input: seq<byte>, from: nat, size: nat): Reading
    requires 4 <= from <= |input|
  {
    if |input| < from + size + 2 then Incomplete
    else
      Complete(Message(input[1], input[3], input[from..from + size], input[from + size..from + size + 2]),
               input[2], input[from + size + 2..])
  }

  /** The request fields after a message was parsed into a zeroed request. */
  predicate Stores(p: Progress, m: Message) {
    && p.phase == Done && !p.wild
    && p.cmd == m.cmd && p.atyp == m.atyp && p.port == m.port
    && |m.address| <= FQDN_SIZE
    && p.addr == m.address + Zeros(FQDN_SIZE - |m.address|)
  }

  /** One turn of the consuming loop. */
  lemma Step(p: Progress, input: seq<byte>)
    requires input != []
    ensures var q := Feed(p, input[0]);
            Consume(REQUEST, p, input) == if Finished(q.phase) then (q, input[1..]) else Consume(REQUEST, q, input[1..])
  {
    hide Feed;
  }

  lemma NothingToRead(p: Progress)
    ensures Consume(REQUEST, p, []) == (p, [])
  {
  }

  /** The state once k more address bytes complete the address. */
  function AfterAddress(p: Progress, octets: seq<byte>): Progress
    requires p.i + |octets| <= |p.addr|
  {
    p.(i := 0, n := 2, port := [0, 0], phase := Port, addr := p.addr[..p.i] + octets + p.addr[p.i + |octets|..])
  }

  /** The state after one of several address bytes. */
  function AfterOctet(p: Progress, c: byte): Progress
    requires p.i < |p.addr|
  {
    p.(i := Next(p.i), addr := p.addr[..p.i] + [c] + p.addr[p.i + 1..])
  }

  lemma AddressByte(p: Progress, c: byte)
    requires Ok(p) && p.phase == Addr
    ensures Feed(p, c) == if p.i + 1 == Width(p.n) then AfterAddress(p, [c]) else AfterOctet(p, c)
  {
    Spliced(p.addr, p.i, c);
  }

  lemma Spliced(addr: seq<byte>, i: nat, c: byte)
    requires i < |addr|
    ensures addr[i := c] == addr[..i] + [c] + addr[i + 1..]
  {
  }

  lemma {:induction false} AddressRead(p: Progress, input: seq<byte>)
    requires Ok(p) && p.phase == Addr
    ensures var k := Width(p.n) - p.i;
            if |input| < k then Consume(REQUEST, p, input).0.phase == Addr && Consume(REQUEST, p, input).1 == []
                                && Consume(REQUEST, p, input).0.wild == p.wild
            else Consume(REQUEST, p, input) == Consume(REQUEST, AfterAddress(p, input[..k]), input[k..])
    decreases input
  {
    hide Feed;
    hide Consume;
    if input == [] {
      NothingToRead(p);
    } else {
      var k := Width(p.n) - p.i;
      var c, tail := input[0], input[1..];
      AddressByte(p, c);
      Step(p, input);
      if k == 1 {
        assert input[..1] == [c];
      } else {
        AddressRead(AfterOctet(p, c), tail);
        if |input| >= k {
          assert tail[k - 1..] == input[k..];
          OctetThenRest(p, c, tail[..k - 1]);
          assert [c] + tail[..k - 1] == input[..k];
        }
      }
    }
  }

  lemma OctetThenRest(p: Progress, c: byte, more: seq<byte>)
    requires Ok(p) && p.phase == Addr && p.i + 1 + |more| == Width(p.n)
    ensures AfterAddress(AfterOctet(p, c), more) == AfterAddress(p, [c] + more)
  {
    assert Next(p.i) == p.i + 1 && |[c] + more| == 1 + |more|;
    hide Next;
    hide Width;
    JoinOctets(p.addr, p.i, c, more);
  }

  lemma JoinOctets(addr: seq<byte>, i: nat, c: byte, more: seq<byte>)
    requires i + 1 + |more| <= |addr|
    ensures var a := addr[..i] + [c] + addr[i + 1..];
            a[..i + 1] + more + a[i + 1 + |more|..] == addr[..i] + ([c] + more) + addr[i + |[c] + more|..]
  {
    var a := addr[..i] + [c] + addr[i + 1..];
    assert a[..i + 1] == addr[..i] + [c];
    assert a[i + 1 + |more|..] == addr[i + 1 + |more|..];
    assert addr[..i] + [c] + more == addr[..i] + ([c] + more);
  }

  lemma PortRead(p: Progress, input: seq<byte>)
    requires Ok(p) && p.phase == Port && p.i == 0
    ensures var (q, rest) := Consume(REQUEST, p, input);
            if |input| < 2 then q.phase == Port && rest == [] && q.wild == p.wild
            else q == p.(i := 2, port := input[..2], phase := Done) && rest == input[2..]
  {
    if input == [] {
      NothingToRead(p);
    } else {
      var q := Feed(p, input[0]);
      assert q == p.(i := 1, port := p.port[0 := input[0]]);
      Step(p, input);
      if |input| == 1 {
        NothingToRead(q);
        assert input[1..] == [];
      } else {
        var r, tail := Feed(q, input[1]), input[1..];
        assert p.port[0 := input[0]][1 := input[1]] == input[..2];
        assert r == p.(i := 2, port := input[..2], phase := Done);
        Step(q, tail);
        assert tail[0] == input[1] && tail[1..] == input[2..];
      }
    }
    hide Feed;
    hide Consume;
  }

  const AFTER_RESERVED := START.(phase := Atyp)

  /** The state after the four fixed bytes. */
  function AfterHeader(cmd: byte, atyp: byte): Progress {
    Feed(AFTER_RESERVED.(cmd := cmd), atyp)
  }

  /** What the fourth byte leads to; the clearing of the address area changes nothing here. */
  lemma AfterHeaderIs(cmd: byte, atyp: byte)
    ensures var p := AFTER_RESERVED.(cmd := cmd, atyp := atyp);
            AfterHeader(cmd, atyp) ==
            if atyp == IPV4 then p.(n := 4, phase := Addr)
            else if atyp == IPV6 then p.(n := 16, phase := Addr)
            else if atyp == DOMAIN then p.(phase := AddrLength)
            else p.(phase := UnsupportedAtyp)
  {
    assert Zeros(4) + Zeros(FQDN_SIZE)[4..] == Zeros(FQDN_SIZE);
    assert Zeros(16) + Zeros(FQDN_SIZE)[16..] == Zeros(FQDN_SIZE);
  }

  lemma ThreeFixedBytes(cmd: byte, reserved: byte)
    ensures var p1 := Feed(START, 5);
            var p2 := Feed(p1, cmd);
            var p3 := Feed(p2, reserved);
            && !Finished(p1.phase) && !Finished(p2.phase) && !Finished(p3.phase)
            && p3 == AFTER_RESERVED.(cmd := cmd)
  {
  }

  lemma HeaderRead(input: seq<byte>)
    requires |input| >= 4 && input[0] == 5
    ensures var p := AfterHeader(input[1], input[3]);
            Consume(REQUEST, START, input) == if Finished(p.phase) then (p, input[4..]) else Consume(REQUEST, p, input[4..])
  {
    ThreeFixedBytes(input[1], input[2]);
    hide Consume;
    hide Feed;
    var p1 := Feed(START, 5);
    var p2 := Feed(p1, input[1]);
    var p3 := Feed(p2, input[2]);
    var in1, in2, in3 := input[1..], input[2..], input[3..];
    assert in1[1..] == in2 && in2[1..] == in3 && in3[1..] == input[4..];
    Step(START, input);
    Step(p1, in1);
    Step(p2, in2);
    Step(p3, in3);
  }

  lemma ShortInput(input: seq<byte>)
    requires |input| < 4
    ensures var (p, rest) := Consume(REQUEST, START, input);
            && (input != [] && input[0] != 5 ==> p.phase == UnsupportedVersion && rest == input[1..])
            && (input == [] || input[0] == 5 ==> !Finished(p.phase) && rest == [])
            && !p.wild
  {
    if input != [] {
      var p1 := Feed(START, input[0]);
      Step(START, input);
      if input[0] == 5 && |input| > 1 {
        var p2 := Feed(p1, input[1]);
        Step(p1, input[1..]);
        if |input| > 2 {
          var p3 := Feed(p2, input[2]);
          assert input[1..][1..] == input[2..];
          Step(p2, input[2..]);
        }
      }
    }
  }

  lemma AddressFromZeros(p: Progress, octets: seq<byte>)
    requires Ok(p) && p.i == 0 && p.addr == Zeros(FQDN_SIZE) && |octets| <= FQDN_SIZE
    ensures AfterAddress(p, octets).addr == octets + Zeros(FQDN_SIZE - |octets|)
  {
  }

  lemma TwoAfter(input: seq<byte>, k: nat)
    requires k <= |input|
    ensures |input| >= k + 2 ==> input[k..][..2] == input[k..k + 2] && input[k..][2..] == input[k + 2..]
  {
  }

  /** From the address on: the bytes land in order in the address area, then the port, then done. */
  lemma AddressAndPort(p: Progress, input: seq<byte>)
    requires Ok(p) && p.phase == Addr && p.i == 0 && p.addr == Zeros(FQDN_SIZE)
    ensures var k := Width(p.n);
            var (q, rest) := Consume(REQUEST, p, input);
            && q.wild == p.wild
            && if |input| < k + 2 then !Finished(q.phase) && rest == []
               else && q.phase == Done && q.cmd == p.cmd && q.atyp == p.atyp
                    && q.port == input[k..k + 2] && rest == input[k + 2..]
                    && q.addr == input[..k] + Zeros(FQDN_SIZE - k)
  {
    hide Feed;
    hide Consume;
    hide Store;
    var k := Width(p.n);
    AddressRead(p, input);
    if |input| >= k {
      var octets, tail := input[..k], input[k..];
      var q := AfterAddress(p, octets);
      AddressFromZeros(p, octets);
      TwoAfter(input, k);
      hide AfterAddress;
      PortRead(q, tail);
    }
  }

  /** The verdict and the fields a parser should end with for a reading of the input. */
  predicate Agrees(r: Reading, length: nat, end: (Progress, seq<byte>)) {
    var (p, rest) := end;
    match r
    case Incomplete => !Finished(p.phase) && rest == [] && !p.wild
    case BadVersion(after) => p.phase == UnsupportedVersion && rest == after && !p.wild
    case BadAtyp(after) => p.phase == UnsupportedAtyp && rest == after && !p.wild
    case EmptyDomain => p.wild && (Finished(p.phase) <==> length >= 8)
    case Complete(m, _, after) => Stores(p, m) && rest == after
  }

  /** Reading an address of known size, then the port. */
  lemma ReadAt(p: Progress, input: seq<byte>, from: nat, size: byte)
    requires 4 <= from <= |input| && 0 < size
    requires Ok(p) && p.phase == Addr && p.i == 0 && p.n == size && p.addr == Zeros(FQDN_SIZE)
    requires !p.wild && p.cmd == input[1] && p.atyp == input[3]
    ensures Agrees(DecodeAt(input, from, size), |input|, Consume(REQUEST, p, input[from..]))
  {
    hide Feed;
    hide Consume;
    AddressAndPort(p, input[from..]);
    SlicesOfSlice(input, from, size);
  }

  /**
   * The parser agrees with the reference reading of every input: same verdict, same fields, same
   * unread rest. The exception is a domain of length 0, where it stores outside the address area
   * and then takes the first port byte for an address byte.
   */
  lemma ConsumeAgreesWithDecode(input: seq<byte>)
    ensures Agrees(Decode(input), |input|, Consume(REQUEST, START, input))
  {
    hide Feed;
    hide Consume;
    if |input| < 4 {
      ShortInput(input);
    } else if input[0] != 5 {
      BadVersionRead(input);
    } else if input[3] == IPV4 || input[3] == IPV6 {
      FixedSizeRead(input);
    } else if input[3] != DOMAIN || |input| == 4 {
      AtypRead(input);
    } else if input[4] == 0 {
      EmptyDomainRead(input);
    } else {
      DomainRead(input);
    }
  }

  /**
   * What follows each address type on the wire: 4 address bytes and a request of 10 bytes for type 1,
   * 16 and 22 for type 4, for type 3 as many as the length byte says; every other type is an error
   * after its own byte.
   */
  lemma AddressTypes(input: seq<byte>)
    requires |input| >= 4 && input[0] == 5
    ensures var (p, rest) := Consume(REQUEST, START, input);
            && (input[3] == 1 ==> Takes(p, rest, input, 4, 4))
            && (input[3] == 4 ==> Takes(p, rest, input, 4, 16))
            && (input[3] == 3 && |input| == 4 ==> !Finished(p.phase) && rest == [])
            && (input[3] == 3 && |input| > 4 && input[4] > 0 ==> Takes(p, rest, input, 5, input[4]))
            && (input[3] != 1 && input[3] != 3 && input[3] != 4 ==> p.phase == UnsupportedAtyp && rest == input[4..])
  {
    ConsumeAgreesWithDecode(input);
    hide Consume;
    hide Feed;
  }

  /** The parser takes `size` address bytes and two port bytes, is then done, and not before. */
  predicate Takes(p: Progress, rest: seq<byte>, input: seq<byte>, from: nat, size: nat)
    requires 4 <= from <= |input|
  {
    var end := from + size + 2;
    if |input| < end then !Finished(p.phase) && rest == []
    else
      && p.phase == Done && p.cmd == input[1] && p.atyp == input[3] && rest == input[end..]
      && p.port == input[end - 2..end]
      && size <= |p.addr| && p.addr[..size] == input[from..end - 2]
  }

  /** The parser reads exactly this request, and is done with the last byte of the wire. */
  predicate ParsesTo(wire: seq<byte>, cmd: byte, address: seq<byte>, port: seq<byte>) {
    var (p, rest) := Consume(REQUEST, START, wire);
    p.phase == Done && rest == [] && p.cmd == cmd && address <= p.addr && p.port == port
  }

  lemma TakesAll(wire: seq<byte>, from: nat, size: nat)
    requires 4 <= from && |wire| == from + size + 2
    requires var (p, rest) := Consume(REQUEST, START, wire); Takes(p, rest, wire, from, size)
    ensures ParsesTo(wire, wire[1], wire[from..from + size], wire[from + size..])
  {
    hide Consume;
  }

  /** CONNECT to 127.0.0.1, to ::1 and to the host "a", each at port 80. */
  lemma ThreeRequests()
    ensures ParsesTo([5, 1, 0, 1, 127, 0, 0, 1, 0, 80], 1, [127, 0, 0, 1], [0, 80])
    ensures ParsesTo([5, 1, 0, 4] + Zeros(15) + [1, 0, 80], 1, Zeros(15) + [1], [0, 80])
    ensures ParsesTo([5, 1, 0, 3, 1, 97, 0, 80], 1, [97], [0, 80])
  {
    hide ParsesTo;
    hide Consume;
    hide Takes;
    var v4: seq<byte>, v6, host: seq<byte> :=
      [5, 1, 0, 1, 127, 0, 0, 1, 0, 80], [5, 1, 0, 4] + Zeros(15) + [1, 0, 80], [5, 1, 0, 3, 1, 97, 0, 80];
    AddressTypes(v4);
    AddressTypes(v6);
    AddressTypes(host);
    TakesAll(v4, 4, 4);
    TakesAll(v6, 4, 16);
    TakesAll(host, 5, 1);
    assert v4[4..8] == [127, 0, 0, 1] && v4[8..] == [0, 80];
    assert v6[4..20] == Zeros(15) + [1] && v6[20..] == [0, 80];
    assert host[5..6] == [97] && host[6..] == [0, 80];
  }

  lemma BadVersionRead(input: seq<byte>)
    requires input != [] && input[0] != 5
    ensures Agrees(Decode(input), |input|, Consume(REQUEST, START, input))
  {
    Step(START, input);
  }

  lemma AtypRead(input: seq<byte>)
    requires |input| >= 4 && input[0] == 5 && input[3] !in {IPV4, IPV6}
    requires input[3] == DOMAIN ==> |input| == 4
    ensures Agrees(Decode(input), |input|, Consume(REQUEST, START, input))
  {
    HeaderRead(input);
    AfterHeaderIs(input[1], input[3]);
    hide Feed;
  }

  /** The state in which the octets of an IPv4 or IPv6 address are read. */
  function FixedSizeState(cmd: byte, atyp: byte): Progress {
    AFTER_RESERVED.(cmd := cmd, atyp := atyp, n := if atyp == IPV4 then 4 else 16, phase := Addr)
  }

  lemma FixedSizeHeaderRead(input: seq<byte>)
    requires |input| >= 4 && input[0] == 5 && input[3] in {IPV4, IPV6}
    ensures Consume(REQUEST, START, input) == Consume(REQUEST, FixedSizeState(input[1], input[3]), input[4..])
  {
    hide Feed;
    hide Consume;
    HeaderRead(input);
    AfterHeaderIs(input[1], input[3]);
  }

  lemma FixedSizeRead(input: seq<byte>)
    requires |input| >= 4 && input[0] == 5 && input[3] in {IPV4, IPV6}
    ensures Agrees(Decode(input), |input|, Consume(REQUEST, START, input))
  {
    hide Feed;
    hide Consume;
    hide Agrees;
    FixedSizeHeaderRead(input);
    ReadAt(FixedSizeState(input[1], input[3]), input, 4, if input[3] == IPV4 then 4 else 16);
  }

  /** The state in which the bytes of a domain of length n are read. */
  function DomainState(cmd: byte, n: byte): Progress {
    AFTER_RESERVED.(cmd := cmd, atyp := DOMAIN, n := n, phase := Addr, wild := n == 0)
  }

  lemma DomainHeaderRead(input: seq<byte>)
    requires |input| >= 5 && input[0] == 5 && input[3] == DOMAIN
    ensures Consume(REQUEST, START, input) == Consume(REQUEST, DomainState(input[1], input[4]), input[5..])
  {
    HeaderRead(input);
    AfterHeaderIs(input[1], input[3]);
    var p := AfterHeader(input[1], input[3]);
    LengthRead(p, input[4]);
    hide Feed;
    hide Consume;
    var tail := input[4..];
    assert tail[1..] == input[5..] && tail[0] == input[4];
    Step(p, tail);
  }

  lemma EmptyDomainRead(input: seq<byte>)
    requires |input| >= 5 && input[0] == 5 && input[3] == DOMAIN && input[4] == 0
    ensures Agrees(Decode(input), |input|, Consume(REQUEST, START, input))
  {
    hide Feed;
    hide Consume;
    DomainHeaderRead(input);
    AddressAndPort(DomainState(input[1], 0), input[5..]);
  }

  lemma DomainRead(input: seq<byte>)
    requires |input| >= 5 && input[0] == 5 && input[3] == DOMAIN && input[4] != 0
    ensures Agrees(Decode(input), |input|, Consume(REQUEST, START, input))
  {
    hide Feed;
    hide Consume;
    hide Agrees;
    DomainHeaderRead(input);
    ReadAt(DomainState(input[1], input[4]), input, 5, input[4]);
  }

  lemma LengthRead(p: Progress, n: byte)
    requires p.phase == AddrLength && p.addr == Zeros(FQDN_SIZE) && p.i == 0 && !p.wild
    ensures Feed(p, n) == p.(n := n, phase := Addr, wild := n == 0)
  {
    assert n != 0 ==> Zeros(FQDN_SIZE)[n - 1 := 0] == Zeros(FQDN_SIZE);
  }

  lemma SlicesOfSlice(s: seq<byte>, from: nat, k: nat)
    requires from <= |s|
    ensures |s| >= from + k + 2 ==>
              && s[from..][..k] == s[from..from + k]
              && s[from..][k..k + 2] == s[from + k..from + k + 2]
              && s[from..][k + 2..] == s[from + k + 2..]
  {
  }

  /** Reading what was written gives the message back, whatever follows it on the wire. */
  lemma DecodeEncode(m: Message, reserved: byte, rest: seq<byte>)
    requires WellSized(m)
    ensures Decode(Encode(m, reserved) + rest)
            == if m.atyp == DOMAIN && m.address == [] then EmptyDomain else Complete(m, reserved, rest)
  {
    var head := [5, m.cmd, reserved, m.atyp] + (if m.atyp == DOMAIN then [|m.address|] else []);
    var wire := Encode(m, reserved) + rest;
    assert wire == head + m.address + m.port + rest;
    PartsOfConcat(head, m.address, m.port, rest);
    assert wire[0] == 5 && wire[1] == m.cmd && wire[2] == reserved && wire[3] == m.atyp;
    assert m.atyp == DOMAIN ==> wire[4] == |m.address|;
    assert |wire| == |head| + |m.address| + 2 + |rest|;
    hide Encode;
  }

  lemma PartsOfConcat(a: seq<byte>, b: seq<byte>, c: seq<byte>, d: seq<byte>)
    ensures var s, i, j := a + b + c + d, |a| + |b|, |a| + |b| + |c|;
            s[..|a|] == a && s[|a|..i] == b && s[i..j] == c && s[j..] == d
  {
  }

  /** Only encodings are accepted: a complete reading is the encoding of what was read. */
  lemma EncodeDecode(input: seq<byte>)
    requires Decode(input).Complete?
    ensures var Complete(m, reserved, rest) := Decode(input);
            WellSized(m) && Encode(m, reserved) + rest == input
  {
    var Complete(m, reserved, rest) := Decode(input);
    var from: nat, size := if m.atyp == DOMAIN then 5 else 4, |m.address|;
    assert m.cmd == input[1] && reserved == input[2] && m.atyp == input[3] && input[0] == 5;
    assert m.atyp == DOMAIN ==> input[4] == size;
    assert from + size + 2 <= |input| && rest == input[from + size + 2..];
    assert m.address == input[from..from + size] && m.port == input[from + size..from + size + 2];
    assert WellSized(m);
    hide Decode;
    FourParts(input, from, size);
    FirstBytes(input);
  }

  lemma FirstBytes(s: seq<byte>)
    ensures |s| >= 4 ==> s[..4] == [s[0], s[1], s[2], s[3]]
    ensures |s| >= 5 ==> s[..5] == [s[0], s[1], s[2], s[3]] + [s[4]]
  {
  }

  lemma FourParts(s: seq<byte>, from: nat, size: nat)
    requires from + size + 2 <= |s|
    ensures s == s[..from] + s[from..from + size] + s[from + size..from + size + 2] + s[from + size + 2..]
  {
  }

  /**
   * The round trip of section 4: feeding the encoding of a request to an initialised parser
   * stores exactly that request and leaves what follows it unread, if and only if the request
   * does not carry an empty domain.
   */
  lemma RoundTripIff(m: Message, reserved: byte, rest: seq<byte>)
    requires WellSized(m)
    ensures var (p, unread) := Consume(REQUEST, START, Encode(m, reserved) + rest);
            Stores(p, m) && unread == rest <==> !(m.atyp == DOMAIN && m.address == [])
  {
    DecodeEncode(m, reserved, rest);
    ConsumeAgreesWithDecode(Encode(m, reserved) + rest);
  }

  /** The parser is done on the last byte of an encoding and not before. */
  lemma DoneOnLastByte(m: Message, reserved: byte, k: nat)
    requires WellSized(m) && !(m.atyp == DOMAIN && m.address == [])
    requires k < |Encode(m, reserved)|
    ensures !Finished(Consume(REQUEST, START, Encode(m, reserved)[..k]).0.phase)
  {
    var wire := Encode(m, reserved);
    if k > 0 && Finished(Consume(REQUEST, START, wire[..k]).0.phase) {
      ConsumeFinished(REQUEST, START, wire[..k], wire[k..]);
      assert wire[..k] + wire[k..] == wire && wire + [] == wire;
      RoundTripIff(m, reserved, []);
      assert false;
    }
  }

  /** The empty domain of a request for port 80: after its last byte the parser still waits. */
  lemma EmptyDomainNeverDone()
    ensures var p := Consume(REQUEST, START, Encode(Message(1, DOMAIN, [], [0, 80]), 0)).0;
            p.wild && !Finished(p.phase)
  {
    var m := Message(1, DOMAIN, [], [0, 80]);
    DecodeEncode(m, 0, []);
    assert Encode(m, 0) + [] == Encode(m, 0);
    ConsumeAgreesWithDecode(Encode(m, 0));
  }

  /** 262 bytes finish any request: the longest domain takes exactly that many. */
  lemma FinishesWithin262(input: seq<byte>)
    requires |input| >= 262
    ensures Finished(Consume(REQUEST, START, input).0.phase)
  {
    ConsumeAgreesWithDecode(input);
  }

  /**
   * The stored domain can be read back as a C string inside its array exactly when it has no NUL
   * of its own and is shorter than the array.
   */
  lemma DomainIsTerminatedIff(p: Progress, m: Message)
    requires Stores(p, m)
    ensures (CString(p.addr) == m.address && |CString(p.addr)| < FQDN_SIZE)
            <==> NulFree(m.address) && |m.address| < FQDN_SIZE
  {
    if NulFree(m.address) {
      CStringOfStored(m.address, Zeros(FQDN_SIZE - |m.address|));
    }
  }
}
