/** Bytes, C strings and the small helpers every component shares. */
module Bytes {

  /** A C `char` or `uint8_t`, by its unsigned value. */
  type byte = x: int | 0 <= x < 256

  datatype Option<+T> = None | Some(value: T)

  const NUL: byte := 0
  const LF: byte := 10
  const CR: byte := 13

  predicate NulFree(s: seq<byte>) {
    NUL !in s
  }

  /** The C string that starts at the first byte of `mem`: everything before the first NUL. */
  function CString(mem: seq<byte>): (s: seq<byte>)
    ensures s <= mem
    ensures NulFree(s)
    ensures |s| < |mem| ==> mem[|s|] == NUL
  {
    if mem == [] || mem[0] == NUL then [] else [mem[0]] + CString(mem[1..])
  }

  /** Reading back a NUL-free string stored in front of a NUL gives that string. */
  lemma {:induction false} CStringOfStored(s: seq<byte>, tail: seq<byte>)
    requires NulFree(s)
    requires tail == [] || tail[0] == NUL
    ensures CString(s + tail) == s
  {
    if s == [] {
      assert s + tail == tail;
    } else {
      CStringOfStored(s[1..], tail);
      assert (s + tail)[1..] == s[1..] + tail;
    }
  }

  function Zeros(n: nat): (z: seq<byte>)
    ensures |z| == n
    ensures forall i :: 0 <= i < n ==> z[i] == NUL
  {
    seq(n, _ => NUL)
  }
}
