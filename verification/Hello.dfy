/** src/stash/hello.c: the SOCKS5 method-selection message, section 3 of RFC 1928. */
module Hello {
  import opened Bytes
  import opened ByteBuffer
  import opened ByteMachine

  datatype Phase = Version | NMethods | Methods | Done | UnsupportedVersion

  /** A parser's private fields together with the bytes its method callback has received. */
  datatype Progress = Progress(phase: Phase, remaining: byte, called: seq<byte>)

  const START := Progress(Version, 0, [])

  predicate Finished(p: Phase) {
    p == Done || p == UnsupportedVersion
  }

  function Feed(p: Progress, b: byte): Progress {
    match p.phase
    case Version => p.(phase := if b == 5 then NMethods else UnsupportedVersion)
    case NMethods => p.(phase := if b == 0 then Done else Methods, remaining := b)
    case Methods =>
      var left := (p.remaining + 255) % 256; // a uint8_t decrement
      p.(phase := if left == 0 then Done else Methods, remaining := left, called := p.called + [b])
    case _ => p
  }

  const HELLO: Machine<Progress> := Machine(Feed, (p: Progress) => Finished(p.phase))

  class Parser {
    var state: Phase
    var remaining: byte
    /** The calls made to on_authentication_method, oldest first. */
    ghost var called: seq<byte>

    ghost function View(): Progress
      reads this
    {
      Progress(state, remaining, called)
    }

    constructor ()
      ensures View() == START
    {
      state, remaining, called := Version, 0, [];
    }

    method Init()
      modifies this
      ensures View() == START.(called := old(called))
    {
      state, remaining := Version, 0;
    }

    method FeedByte(b: byte) returns (st: Phase)
      modifies this
      ensures View() == Feed(old(View()), b) && st == state
    {
      match state {
        case Version =>
          state := if b == 5 then NMethods else UnsupportedVersion;
        case NMethods =>
          remaining := b;
          state := Methods;
          if remaining <= 0 {
            state := Done;
          }
        case Methods =>
          called := called + [b];
          remaining := if remaining == 0 then 255 else remaining - 1;
          if remaining <= 0 {
            state := Done;
          }
        case _ =>
      }
      st := state;
    }

    /** `errored` is only ever raised; the caller's value survives otherwise. */
    method ConsumeBuffer(b: Buffer, errored: bool) returns (st: Phase, errored': bool)
      requires b.Valid()
      modifies this, b, b.data
      ensures b.Valid()
      ensures (View(), b.Abs().queue) == Consume(HELLO, old(View()), old(b.Abs()).queue)
      ensures st == state
      ensures errored' == (errored || (st == UnsupportedVersion && old(b.Abs()).queue != []))
    {
      st := state;
      errored' := errored;
      ghost var p, input := View(), b.Abs().queue;
      while b.CanRead()
        invariant b.Valid() && st == state
        invariant Consume(HELLO, View(), b.Abs().queue) == Consume(HELLO, p, input)
        invariant errored' == errored && |b.Abs().queue| <= |input|
        invariant |b.Abs().queue| < |input| ==> !Finished(state)
        decreases |b.Abs().queue|
      {
        var c := b.Read();
        st := FeedByte(c);
        if Finished(st) {
          errored' := errored' || st == UnsupportedVersion;
          break;
        }
      }
    }
  }

  /** ChunkingIff for this parser: hellos are independent of chunking while unfinished, and only then. */
  lemma HelloChunkingIff(p: Progress, a: seq<byte>, b: seq<byte>)
    ensures var (p1, rest) := Consume(HELLO, p, a);
            Consume(HELLO, p1, rest + b) == Consume(HELLO, p, a + b)
            <==> a == [] || !Finished(p1.phase) || rest + b == []
  {
    ChunkingIff(HELLO, p, a, b);
  }

  /** A hello without methods, then one more byte: asked again, the finished parser swallows it. */
  lemma DoneParserSwallowsAByte()
    ensures var done := Progress(Done, 0, []);
            && Consume(HELLO, START, [5, 0]) == (done, [])
            && Consume(HELLO, done, [7]) == (done, [])
            && Consume(HELLO, START, [5, 0, 7]) == (done, [7])
  {
    var none: seq<byte>, more: seq<byte> := [], [7];
    HelloRoundTrip(none, none);
    HelloRoundTrip(none, more);
    assert Encode(none) + none == [5, 0] && Encode(none) + more == [5, 0, 7];
    var done := Progress(Done, 0, []);
    assert more[1..] == [];
    Step(done, more);
    hide Consume;
  }

  // What a hello means

  function Encode(methods: seq<byte>): (wire: seq<byte>)
    requires |methods| <= 255
  {
    [5, |methods|] + methods
  }

  lemma {:induction false} ConsumeMethods(done: seq<byte>, methods: seq<byte>, rest: seq<byte>)
    requires 0 < |methods| <= 255
    ensures Consume(HELLO, Progress(Methods, |methods|, done), methods + rest) == (Progress(Done, 0, done + methods), rest)
    decreases methods
  {
    var p := Progress(Methods, |methods|, done);
    var q := Feed(p, methods[0]);
    assert (methods + rest)[1..] == methods[1..] + rest;
    if |methods| == 1 {
      assert methods == [methods[0]];
      assert methods[1..] + rest == rest;
    } else {
      assert q == Progress(Methods, |methods| - 1, done + [methods[0]]);
      ConsumeMethods(done + [methods[0]], methods[1..], rest);
      assert done + [methods[0]] + methods[1..] == done + methods;
    }
  }

  /** Every hello is accepted; each method is reported once and in order; what follows it stays unread. */
  lemma HelloRoundTrip(methods: seq<byte>, rest: seq<byte>)
    requires |methods| <= 255
    ensures Consume(HELLO, START, Encode(methods) + rest) == (Progress(Done, 0, methods), rest)
  {
    var wire := Encode(methods) + rest;
    var p1 := Feed(START, 5);
    var p2 := Feed(p1, |methods|);
    assert wire[1..] == [|methods|] + (methods + rest) && wire[1..][1..] == methods + rest;
    assert Consume(HELLO, START, wire) == Consume(HELLO, p1, wire[1..]);
    if methods == [] {
      assert methods + rest == rest;
      assert Consume(HELLO, p1, wire[1..]) == (p2, wire[1..][1..]);
    } else {
      assert Consume(HELLO, p1, wire[1..]) == Consume(HELLO, p2, methods + rest);
      ConsumeMethods([], methods, rest);
      assert [] + methods == methods;
    }
  }

  lemma {:induction false} MethodsRead(done: seq<byte>, n: byte, input: seq<byte>)
    requires 0 < n
    ensures var (p, rest) := Consume(HELLO, Progress(Methods, n, done), input);
            if |input| < n then p == Progress(Methods, n - |input|, done + input) && rest == []
            else p == Progress(Done, 0, done + input[..n]) && rest == input[n..]
    decreases input
  {
    if |input| < n {
      if input == [] {
        assert done + input == done;
      } else {
        MethodsRead(done + [input[0]], n - 1, input[1..]);
        assert done + [input[0]] + input[1..] == done + input;
      }
    } else {
      assert input == input[..n] + input[n..];
      ConsumeMethods(done, input[..n], input[n..]);
    }
  }

  /**
   * For any input at all: what the parser has made of it. It reports exactly the announced number
   * of methods, never reads past them, and any 257 bytes are enough to finish.
   */
  lemma ConsumeAnything(input: seq<byte>)
    ensures var (p, rest) := Consume(HELLO, START, input);
            if input == [] then p == START
            else if input[0] != 5 then p.phase == UnsupportedVersion && p.called == [] && rest == input[1..]
            else if |input| == 1 then p.phase == NMethods && rest == []
            else
              var n := input[1];
              if |input| - 2 < n
              then p == Progress(Methods, n - (|input| - 2), input[2..]) && rest == []
              else p == Progress(Done, 0, input[2..2 + n]) && rest == input[2 + n..]
    ensures |input| >= 257 ==> Finished(Consume(HELLO, START, input).0.phase)
  {
    if input == [] {
      return;
    }
    Step(START, input);
    if input[0] == 5 {
      var p1, n := Feed(START, 5), if |input| > 1 then input[1] else 0;
      if |input| == 1 {
        assert input[1..] == [] && Consume(HELLO, p1, []) == (p1, []);
      } else {
        Step(p1, input[1..]);
        assert input[1..][1..] == input[2..] && input[1..][0] == n;
        if n == 0 {
          assert input[2..2] == [];
        } else {
          MethodsRead([], n, input[2..]);
          MethodsOfInput(input, n);
        }
      }
    }
    hide Consume;
  }

  lemma MethodsOfInput(input: seq<byte>, n: byte)
    requires |input| >= 2
    ensures [] + input[2..] == input[2..]
    ensures |input| - 2 >= n ==>
              && [] + input[2..][..n] == input[2..2 + n]
              && input[2..][n..] == input[2 + n..]
  {
  }

  /** One turn of the consuming loop. */
  lemma Step(p: Progress, input: seq<byte>)
    requires input != []
    ensures var q := Feed(p, input[0]);
            Consume(HELLO, p, input) == if Finished(q.phase) then (q, input[1..]) else Consume(HELLO, q, input[1..])
  {
    hide Feed;
  }
}
