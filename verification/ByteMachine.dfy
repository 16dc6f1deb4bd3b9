/**
 * The loop shared by hello_consume and request_consume: feed unread bytes one at a time until the
 * message is finished or the input runs out.
 */
module ByteMachine {
  import opened Bytes

  datatype Machine<!S> = Machine(feed: (S, byte) -> S, finished: S -> bool)

  /** The state after the loop and the bytes it left unread. */
  function Consume<S>(m: Machine<S>, s: S, input: seq<byte>): (S, seq<byte>)
    decreases input
  {
    if input == [] then (s, [])
    else
      var t := m.feed(s, input[0]);
      if m.finished(t) then (t, input[1..]) else Consume(m, t, input[1..])
  }

  /** As long as the message is not finished, consuming in two pieces is consuming at once. */
  lemma {:induction false} ConsumeUnfinished<S>(m: Machine<S>, s: S, a: seq<byte>, b: seq<byte>)
    requires a == [] || !m.finished(Consume(m, s, a).0)
    ensures Consume(m, s, a).1 == []
    ensures Consume(m, s, a + b) == Consume(m, Consume(m, s, a).0, b)
    decreases a
  {
    if a == [] {
      assert a + b == b;
    } else {
      ConsumeUnfinished(m, m.feed(s, a[0]), a[1..], b);
      assert (a + b)[1..] == a[1..] + b;
    }
  }

  /** Once it is finished, whatever follows stays unread. */
  lemma {:induction false} ConsumeFinished<S>(m: Machine<S>, s: S, a: seq<byte>, b: seq<byte>)
    requires a != [] && m.finished(Consume(m, s, a).0)
    ensures Consume(m, s, a + b) == (Consume(m, s, a).0, Consume(m, s, a).1 + b)
    decreases a
  {
    assert (a + b)[1..] == a[1..] + b;
    var t := m.feed(s, a[0]);
    if !m.finished(t) {
      assert a[1..] == [] ==> Consume(m, s, a).0 == t;
      ConsumeFinished(m, t, a[1..], b);
    }
  }

  /**
   * Consuming A, then whatever is unread together with B, equals consuming A ++ B, unless A
   * finished the message and unread bytes remain: a finished parser still swallows one byte.
   */
  lemma ChunkingIff<S>(m: Machine<S>, s: S, a: seq<byte>, b: seq<byte>)
    requires forall t, c: byte :: m.finished(t) ==> m.feed(t, c) == t
    ensures var (s1, rest) := Consume(m, s, a);
            Consume(m, s1, rest + b) == Consume(m, s, a + b)
            <==> a == [] || !m.finished(s1) || rest + b == []
  {
    var (s1, rest) := Consume(m, s, a);
    if a == [] || !m.finished(s1) {
      ConsumeUnfinished(m, s, a, b);
      assert rest + b == b;
    } else {
      ConsumeFinished(m, s, a, b);
      if rest + b != [] {
        assert m.feed(s1, (rest + b)[0]) == s1;
        assert Consume(m, s1, rest + b).1 == (rest + b)[1..];
      }
    }
  }
}
