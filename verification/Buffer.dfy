/** src/shared/buffer.c: a fixed array with a read and a write offset. */
module ByteBuffer {
  import opened Bytes

  /**
   * What a buffer is to its users: the unread bytes, oldest first, and how much of the array is
   * used up. Space in front of the read offset is not reusable until the queue drains.
   */
  datatype Fifo = Fifo(queue: seq<byte>, used: nat)

  predicate WellFormed(f: Fifo, limit: nat) {
    && |f.queue| <= f.used <= limit
    && (f.queue == [] ==> f.used == 0)
  }

  function Put(f: Fifo, limit: nat, c: byte): Fifo {
    if f.used < limit then Fifo(f.queue + [c], f.used + 1) else f
  }

  function Drop(f: Fifo, n: nat): Fifo
    requires n <= |f.queue|
  {
    if n == |f.queue| then Fifo([], 0) else Fifo(f.queue[n..], f.used)
  }

  /** What an explicit compaction leaves: the moved bytes are wiped together with the rest. */
  function Compacted(f: Fifo): Fifo {
    Fifo(Zeros(|f.queue|), |f.queue|)
  }

  class Buffer {
    const data: array<byte>
    var read: nat
    var write: nat

    ghost predicate Valid()
      reads this
    {
      && read <= write <= data.Length
      && (read == write ==> write == 0)
    }

    ghost function Abs(): Fifo
      requires Valid()
      reads this, data
    {
      Fifo(data[read..write], write)
    }

    constructor (store: array<byte>)
      ensures Valid() && data == store && Abs() == Fifo([], 0)
    {
      data := store;
      read, write := 0, 0;
    }

    method Reset()
      modifies this
      ensures Valid() && Abs() == Fifo([], 0)
    {
      read, write := 0, 0;
    }

    predicate CanWrite()
      reads this
    {
      data.Length - write > 0
    }

    predicate CanRead()
      reads this
    {
      write - read > 0
    }

    /** Claims `bytes` bytes the caller already stored at the write offset. */
    method WriteAdv(bytes: int)
      requires Valid()
      requires bytes <= data.Length - write
      modifies this
      ensures Valid()
      ensures bytes <= 0 ==> Abs() == old(Abs())
      ensures bytes > 0 ==> Abs() == Fifo(old(Abs()).queue + data[old(write)..old(write) + bytes], old(write) + bytes)
    {
      if bytes > -1 {
        write := write + bytes;
        assert data[read..write] == data[read..write - bytes] + data[write - bytes..write];
      }
    }

    method ReadAdv(bytes: int)
      requires Valid()
      requires bytes <= write - read
      modifies this, data
      ensures Valid()
      ensures bytes < 0 ==> Abs() == old(Abs()) && data[..] == old(data[..])
      ensures bytes >= 0 ==> Abs() == Drop(old(Abs()), bytes)
      ensures if bytes >= 0 && bytes == old(write - read)
              then data[..] == Zeros(data.Length)
              else data[..] == old(data[..]) && write == old(write)
    {
      if bytes > -1 {
        read := read + bytes;
        if read == write {
          Compact();
        }
      }
    }

    method Read() returns (ret: byte)
      requires Valid()
      modifies this, data
      ensures Valid()
      ensures old(Abs()).queue == [] ==> ret == NUL && Abs() == old(Abs()) && data[..] == old(data[..])
      ensures old(Abs()).queue != [] ==> ret == old(Abs()).queue[0] && Abs() == Drop(old(Abs()), 1)
      ensures if |old(Abs()).queue| == 1
              then data[..] == Zeros(data.Length)
              else data[..] == old(data[..]) && write == old(write)
    {
      if CanRead() {
        ret := data[read];
        ReadAdv(1);
      } else {
        ret := NUL;
      }
    }

    method Write(c: byte)
      requires Valid()
      modifies this, data
      ensures Valid()
      ensures Abs() == Put(old(Abs()), data.Length, c)
    {
      if CanWrite() {
        data[write] := c;
        WriteAdv(1);
      }
    }

    method Compact()
      requires read <= write <= data.Length
      modifies this, data
      ensures Valid()
      ensures read == 0 && write == old(write - read)
      ensures data[..] == Zeros(data.Length)
      ensures Abs() == Fifo(Zeros(old(write - read)), old(write - read))
    {
      if read == 0 {
      } else if read == write {
        read, write := 0, 0;
      } else {
        var n := write - read;
        // memmove copies as if through a temporary
        var moved := data[read..write];
        forall i | 0 <= i < n {
          data[i] := moved[i];
        }
        read, write := 0, n;
      }
      forall i | 0 <= i < data.Length {
        data[i] := NUL;
      }
    }
  }

  // Whole runs

  /** Claim is buffer_write_adv, with the bytes the caller had stored at the write offset. */
  datatype Op = Write(c: byte) | Claim(bytes: seq<byte>) | Read | Advance(n: nat)

  predicate Allowed(f: Fifo, limit: nat, op: Op) {
    && (op.Advance? ==> op.n <= |f.queue|)
    && (op.Claim? ==> f.used + |op.bytes| <= limit)
  }

  /** One operation: the new state, the bytes it stored and the bytes it took out. */
  function Apply(f: Fifo, limit: nat, op: Op): (Fifo, seq<byte>, seq<byte>)
    requires Allowed(f, limit, op)
  {
    match op
    case Write(c) => (Put(f, limit, c), if f.used < limit then [c] else [], [])
    case Claim(bytes) => (Fifo(f.queue + bytes, f.used + |bytes|), bytes, [])
    case Read => if f.queue == [] then (f, [], []) else (Drop(f, 1), [], f.queue[..1])
    case Advance(n) => (Drop(f, n), [], f.queue[..n])
  }

  ghost predicate AllowedRun(f: Fifo, limit: nat, ops: seq<Op>)
    decreases ops
  {
    ops == [] || (Allowed(f, limit, ops[0]) && AllowedRun(Apply(f, limit, ops[0]).0, limit, ops[1..]))
  }

  function Run(f: Fifo, limit: nat, ops: seq<Op>): (Fifo, seq<byte>, seq<byte>)
    requires AllowedRun(f, limit, ops)
    decreases ops
  {
    if ops == [] then (f, [], [])
    else
      var (f1, in1, out1) := Apply(f, limit, ops[0]);
      var (f2, in2, out2) := Run(f1, limit, ops[1..]);
      (f2, in1 + in2, out1 + out2)
  }

  /**
   * No byte is lost, duplicated or reordered by any run: what was queued and what was stored is
   * exactly what came out followed by what is still queued. The offsets stay in range, and a
   * drained buffer always has its whole capacity back.
   */
  lemma {:induction false} RunConserves(f: Fifo, limit: nat, ops: seq<Op>)
    requires WellFormed(f, limit)
    requires AllowedRun(f, limit, ops)
    ensures var (g, stored, taken) := Run(f, limit, ops);
            && f.queue + stored == taken + g.queue
            && WellFormed(g, limit)
    decreases ops
  {
    if ops != [] {
      StepConserves(f, limit, ops[0]);
      var (f1, in1, out1) := Apply(f, limit, ops[0]);
      var (f2, in2, out2) := Run(f1, limit, ops[1..]);
      assert Run(f, limit, ops) == (f2, in1 + in2, out1 + out2);
      hide Apply;
      hide Run;
      hide WellFormed;
      RunConserves(f1, limit, ops[1..]);
      Chained(f.queue, in1, out1, f1.queue, in2, out2, f2.queue);
    }
  }

  lemma Chained(a: seq<byte>, in1: seq<byte>, out1: seq<byte>, b: seq<byte>, in2: seq<byte>, out2: seq<byte>, c: seq<byte>)
    requires a + in1 == out1 + b && b + in2 == out2 + c
    ensures a + (in1 + in2) == (out1 + out2) + c
  {
    assert a + (in1 + in2) == (a + in1) + in2;
    assert (out1 + b) + in2 == out1 + (b + in2);
    assert out1 + (out2 + c) == (out1 + out2) + c;
  }

  lemma StepConserves(f: Fifo, limit: nat, op: Op)
    requires WellFormed(f, limit) && Allowed(f, limit, op)
    ensures var (g, stored, taken) := Apply(f, limit, op);
            && f.queue + stored == taken + g.queue
            && WellFormed(g, limit)
  {
  }

  /** A write is dropped exactly when the write offset is at the limit, however little is unread. */
  lemma WriteDroppedIff(f: Fifo, limit: nat, c: byte)
    requires WellFormed(f, limit)
    ensures Put(f, limit, c).queue == f.queue + [c] <==> f.used < limit
    ensures Put(f, limit, c).queue == f.queue <==> f.used == limit
  {
    assert |f.queue + [c]| == |f.queue| + 1;
  }

  /** The header's picture of compaction fails: three unread bytes come back as zeros. */
  lemma CompactLosesUnreadBytes()
    ensures var f := Fifo([0x41, 0x20, 0x4D], 6);
            && WellFormed(f, 6)
            && Compacted(f) == Fifo([0, 0, 0], 3)
            && Compacted(f).queue != f.queue
  {
    var f := Fifo([0x41, 0x20, 0x4D], 6);
    assert Compacted(f).queue[0] != f.queue[0];
  }

  /**
   * Exactly when an explicit compaction keeps the unread bytes: they were all NUL already. For
   * text that means there were none.
   */
  lemma CompactKeepsUnreadIff(f: Fifo)
    ensures |Compacted(f).queue| == |f.queue|
    ensures Compacted(f).queue == f.queue <==> forall i :: 0 <= i < |f.queue| ==> f.queue[i] == NUL
    ensures NulFree(f.queue) ==> (Compacted(f).queue == f.queue <==> f.queue == [])
  {
    if f.queue != [] {
      assert f.queue[0] in f.queue;
      assert Compacted(f).queue[0] == NUL;
    }
  }
}
