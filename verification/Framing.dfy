/**
 * The line framing of handle_client in src/server/pop3.c: how the bytes of successive recv calls
 * become command lines.
 */
module Framing {
  import opened Bytes

  type Line = seq<byte>

  /** What one call extracts, and what it keeps for the next one. */
  datatype Extraction = Extraction(lines: seq<Line>, leftover: seq<byte>)

  function StripCr(s: seq<byte>): seq<byte> {
    if s != [] && s[|s| - 1] == CR then s[..|s| - 1] else s
  }

  /** The offset of the first line feed, or the length when there is none. */
  function LfAt(s: seq<byte>): (k: nat)
    ensures k <= |s|
    ensures LF !in s[..k]
    ensures k < |s| ==> s[k] == LF
  {
    if s == [] || s[0] == LF then 0
    else
      var k := 1 + LfAt(s[1..]);
      assert s[..k] == [s[0]] + s[1..][..k - 1];
      k
  }

  /** The lines of a stream: ended by LF or CR LF, the rest still incomplete. */
  function Split(s: seq<byte>): Extraction {
    var k := LfAt(s);
    if k == |s| then Extraction([], s)
    else
      var rest := Split(s[k + 1..]);
      Extraction([StripCr(s[..k])] + rest.lines, rest.leftover)
  }

  /**
   * What one call does with the leftover of the one before and a received chunk. Only the part of
   * the chunk in front of the first NUL is seen. Without a line feed the old leftover is gone.
   * The search for a CR stops at the start of the chunk.
   */
  function Extract(leftover: seq<byte>, chunk: seq<byte>): Extraction {
    var c := CString(chunk);
    var k := LfAt(c);
    if k == |c| then Extraction([], c)
    else
      var rest := Split(c[k + 1..]);
      Extraction([leftover + StripCr(c[..k])] + rest.lines, rest.leftover)
  }

  /** The invariant of leftovers: no line feed and no NUL ever stays in one. */
  predicate Incomplete(leftover: seq<byte>) {
    NulFree(leftover) && LF !in leftover
  }

  // Facts about splitting

  lemma {:induction false} LfAtIs(s: seq<byte>, k: nat)
    requires k <= |s| && LF !in s[..k] && (k < |s| ==> s[k] == LF)
    ensures LfAt(s) == k
    decreases k
  {
    if k > 0 {
      assert s[..k][0] == s[0];
      assert s[1..][..k - 1] == s[..k][1..];
      LfAtIs(s[1..], k - 1);
    }
  }

  /** Splitting off the first line. */
  lemma SplitStep(s: seq<byte>, k: nat)
    requires k < |s| && LF !in s[..k] && s[k] == LF
    ensures Split(s) == Extraction([StripCr(s[..k])] + Split(s[k + 1..]).lines, Split(s[k + 1..]).leftover)
  {
    LfAtIs(s, k);
  }

  lemma LfAtIncomplete(s: seq<byte>)
    ensures LfAt(s) == |s| <==> LF !in s
  {
    assert s[..|s|] == s;
  }

  lemma SplitWithoutLf(s: seq<byte>)
    requires LF !in s
    ensures Split(s) == Extraction([], s)
  {
    LfAtIncomplete(s);
  }

  /** Splitting can be done piecewise: the rest of the first piece is continued by the second. */
  lemma {:induction false} SplitConcat(s: seq<byte>, t: seq<byte>)
    ensures Split(s + t) == Extraction(Split(s).lines + Split(Split(s).leftover + t).lines,
                                       Split(Split(s).leftover + t).leftover)
    decreases |s|
  {
    var k := LfAt(s);
    hide Split;
    hide StripCr;
    if k == |s| {
      LfAtIncomplete(s);
      SplitWithoutLf(s);
    } else {
      assert (s + t)[..k] == s[..k] && (s + t)[k] == s[k];
      assert (s + t)[k + 1..] == s[k + 1..] + t;
      SplitStep(s, k);
      SplitStep(s + t, k);
      SplitConcat(s[k + 1..], t);
    }
  }

  lemma {:induction false} SplitLeavesIncomplete(s: seq<byte>)
    ensures LF !in Split(s).leftover
    ensures |Split(s).leftover| <= |s|
    ensures forall i :: 0 <= i < |Split(s).lines| ==> |Split(s).lines[i]| <= |s|
    decreases |s|
  {
    var k := LfAt(s);
    if k == |s| {
      LfAtIncomplete(s);
    } else {
      SplitLeavesIncomplete(s[k + 1..]);
    }
  }

  /** Nothing disappears but line ends: a NUL in the stream shows up in a line or in the rest. */
  lemma {:induction false} SplitShowsNul(s: seq<byte>)
    requires NUL in s
    ensures ShowsNul(Split(s))
    decreases |s|
  {
    hide Split;
    hide ShowsNul;
    var k := LfAt(s);
    if k == |s| {
      LfAtIncomplete(s);
      SplitWithoutLf(s);
      ShowsNulInRest(s);
    } else {
      SplitStep(s, k);
      if NUL in s[k + 1..] {
        SplitShowsNul(s[k + 1..]);
        ShowsNulAfter(StripCr(s[..k]), Split(s[k + 1..]));
      } else {
        NulBeforeLf(s, k);
        ShowsNulFirst(StripCr(s[..k]), Split(s[k + 1..]));
      }
    }
  }

  lemma NulBeforeLf(s: seq<byte>, k: nat)
    requires k < |s| && s[k] == LF && NUL in s && NUL !in s[k + 1..]
    ensures NUL in StripCr(s[..k])
  {
    assert s == s[..k] + [LF] + s[k + 1..];
    assert NUL in s[..k];
    var j :| 0 <= j < k && s[..k][j] == NUL;
    assert StripCr(s[..k])[j] == NUL;
  }

  lemma ShowsNulInRest(s: seq<byte>)
    requires NUL in s
    ensures ShowsNul(Extraction([], s))
  {
  }

  lemma ShowsNulFirst(line: Line, e: Extraction)
    requires NUL in line
    ensures ShowsNul(Extraction([line] + e.lines, e.leftover))
  {
    assert ([line] + e.lines)[0] == line;
  }

  predicate ShowsNul(e: Extraction) {
    NUL in e.leftover || exists i :: 0 <= i < |e.lines| && NUL in e.lines[i]
  }

  lemma ShowsNulAfter(line: Line, e: Extraction)
    requires ShowsNul(e)
    ensures ShowsNul(Extraction([line] + e.lines, e.leftover))
  {
    if NUL !in e.leftover {
      var i :| 0 <= i < |e.lines| && NUL in e.lines[i];
      assert ([line] + e.lines)[i + 1] == e.lines[i];
    }
  }

  lemma {:induction false} SplitOfNulFree(s: seq<byte>)
    requires NulFree(s)
    ensures NulFree(Split(s).leftover)
    ensures forall i :: 0 <= i < |Split(s).lines| ==> NulFree(Split(s).lines[i])
    decreases |s|
  {
    var k := LfAt(s);
    if k < |s| {
      assert NulFree(s[..k]) && NulFree(s[k + 1..]);
      assert NulFree(StripCr(s[..k]));
      SplitOfNulFree(s[k + 1..]);
    }
  }

  lemma ExtractIsNulFree(leftover: seq<byte>, chunk: seq<byte>)
    requires NulFree(leftover)
    ensures var e := Extract(leftover, chunk);
            && NulFree(e.leftover)
            && forall i :: 0 <= i < |e.lines| ==> NulFree(e.lines[i])
  {
    var c := CString(chunk);
    var k := LfAt(c);
    if k < |c| {
      assert NulFree(c[..k]) && NulFree(c[k + 1..]);
      assert NulFree(leftover + StripCr(c[..k]));
      SplitOfNulFree(c[k + 1..]);
    }
  }

  lemma ExtractKeepsIncomplete(leftover: seq<byte>, chunk: seq<byte>)
    requires Incomplete(leftover)
    ensures Incomplete(Extract(leftover, chunk).leftover)
  {
    ExtractIsNulFree(leftover, chunk);
    var c := CString(chunk);
    var k := LfAt(c);
    LfAtIncomplete(c);
    if k < |c| {
      SplitLeavesIncomplete(c[k + 1..]);
    }
  }

  // Sizes

  /**
   * With recv's 1023 bytes at a time, the leftover stays within 1023 bytes and every command,
   * with its terminator, fits the 2048 bytes it is built in.
   */
  lemma ExtractFits(leftover: seq<byte>, chunk: seq<byte>)
    requires |leftover| <= 1023 && |chunk| <= 1023
    ensures var e := Extract(leftover, chunk);
            && |e.leftover| <= 1023
            && forall i :: 0 <= i < |e.lines| ==> |e.lines[i]| < 2048
  {
    var c := CString(chunk);
    var k := LfAt(c);
    if k < |c| {
      var first, rest := leftover + StripCr(c[..k]), Split(c[k + 1..]);
      var e := Extract(leftover, chunk);
      assert e == Extraction([first] + rest.lines, rest.leftover) && |first| <= |leftover| + k;
      hide *;
      SplitLeavesIncomplete(c[k + 1..]);
      forall i | 0 <= i < |e.lines|
        ensures |e.lines[i]| < 2048
      {
        assert i > 0 ==> e.lines[i] == rest.lines[i - 1];
      }
    }
  }

  // One call against the stream

  /** When one call treats the stream as it should: nothing of the old leftover or of a line end is missed. */
  predicate Smooth(leftover: seq<byte>, chunk: seq<byte>) {
    && NulFree(chunk)
    && (leftover == [] || LF in chunk)
    && !(leftover != [] && leftover[|leftover| - 1] == CR && chunk != [] && chunk[0] == LF)
  }

  lemma WholeCString(s: seq<byte>)
    ensures NulFree(s) <==> CString(s) == s
  {
    if NulFree(s) {
      CStringOfStored(s, []);
      assert s + [] == s;
    }
  }

  /** One call extracts from leftover and chunk what the stream contains if and only if it is smooth. */
  lemma CallIsFaithfulIff(leftover: seq<byte>, chunk: seq<byte>)
    requires Incomplete(leftover)
    ensures Extract(leftover, chunk) == Split(leftover + chunk) <==> Smooth(leftover, chunk)
  {
    WholeCString(chunk);
    if !NulFree(chunk) {
      ExtractIsNulFree(leftover, chunk);
      SplitShowsNul(leftover + chunk);
    } else {
      FaithfulWithoutNul(leftover, chunk);
    }
  }

  lemma FaithfulWithoutNul(leftover: seq<byte>, chunk: seq<byte>)
    requires Incomplete(leftover) && CString(chunk) == chunk && NulFree(chunk)
    ensures Extract(leftover, chunk) == Split(leftover + chunk) <==> Smooth(leftover, chunk)
  {
    var k := LfAt(chunk);
    LfAtIncomplete(chunk);
    if k == |chunk| {
      SplitWithoutLf(leftover + chunk);
      assert leftover != [] ==> |leftover + chunk| != |chunk|;
      assert leftover == [] ==> leftover + chunk == chunk;
    } else {
      CallWithLf(leftover, chunk, k);
      hide Split;
      hide Extract;
      hide StripCr;
      assert chunk[k] in chunk;
      StripAcross(leftover, chunk[..k]);
      assert chunk[0] == LF <==> chunk[..k] == [];
      SameRest(StripCr(leftover + chunk[..k]), leftover + StripCr(chunk[..k]), Split(chunk[k + 1..]).lines);
    }
  }

  /** The call and the stream differ at most in the first line. */
  lemma CallWithLf(leftover: seq<byte>, chunk: seq<byte>, k: nat)
    requires Incomplete(leftover) && CString(chunk) == chunk && LfAt(chunk) == k < |chunk|
    ensures var rest := Split(chunk[k + 1..]);
            && Extract(leftover, chunk) == Extraction([leftover + StripCr(chunk[..k])] + rest.lines, rest.leftover)
            && Split(leftover + chunk) == Extraction([StripCr(leftover + chunk[..k])] + rest.lines, rest.leftover)
  {
    var s, j := leftover + chunk, |leftover| + k;
    assert s[..j] == leftover + chunk[..k] && s[j] == LF;
    assert s[j + 1..] == chunk[k + 1..];
    hide Split;
    hide StripCr;
    SplitStep(s, j);
  }

  lemma SameRest(a: Line, b: Line, rest: seq<Line>)
    ensures [a] + rest == [b] + rest <==> a == b
  {
    assert ([a] + rest)[0] == a && ([b] + rest)[0] == b;
  }

  /** Stripping the CR of a joined line is stripping its second half, unless that half is empty. */
  lemma StripAcross(a: seq<byte>, b: seq<byte>)
    ensures StripCr(a + b) == a + StripCr(b) <==> !(b == [] && a != [] && a[|a| - 1] == CR)
  {
    if b == [] {
      assert a + b == a;
    } else {
      assert b[|b| - 1] == CR ==> (a + b)[..|a + b| - 1] == a + b[..|b| - 1];
    }
  }

  /** With nothing left over, a call splits its chunk. */
  lemma ExtractFresh(chunk: seq<byte>)
    requires NulFree(chunk)
    ensures Extract([], chunk) == Split(chunk)
  {
    CallIsFaithfulIff([], chunk);
    assert [] + chunk == chunk;
  }

  // Runs of calls

  function Joined(chunks: seq<seq<byte>>): seq<byte> {
    if chunks == [] then [] else chunks[0] + Joined(chunks[1..])
  }

  const QUIT_WORD: seq<byte> := [0x51, 0x55, 0x49, 0x54]

  /** Lines after which nothing more is read: QUIT, and lines too short to hold a command word. */
  predicate Final(line: Line) {
    |line| < 4 || line[..4] == QUIT_WORD
  }

  predicate HasFinal(lines: seq<Line>) {
    exists i :: 0 <= i < |lines| && Final(lines[i])
  }

  function UpToFinal(lines: seq<Line>): seq<Line> {
    if lines == [] then []
    else if Final(lines[0]) then lines[..1]
    else [lines[0]] + UpToFinal(lines[1..])
  }

  /** The lines handled by successive calls, ending with the first final one. */
  function Handled(leftover: seq<byte>, chunks: seq<seq<byte>>): seq<Line>
    decreases chunks
  {
    if chunks == [] then []
    else
      var e := Extract(leftover, chunks[0]);
      if HasFinal(e.lines) then UpToFinal(e.lines) else e.lines + Handled(e.leftover, chunks[1..])
  }

  /** Every call made before the stream ends is smooth. */
  predicate SmoothRun(leftover: seq<byte>, chunks: seq<seq<byte>>)
    decreases chunks
  {
    chunks == [] ||
    (Smooth(leftover, chunks[0]) &&
     (HasFinal(Extract(leftover, chunks[0]).lines) || SmoothRun(Extract(leftover, chunks[0]).leftover, chunks[1..])))
  }

  lemma {:induction false} UpToFinalConcat(a: seq<Line>, b: seq<Line>)
    ensures UpToFinal(a + b) == if HasFinal(a) then UpToFinal(a) else a + UpToFinal(b)
  {
    hide Final;
    if a == [] {
      assert a + b == b;
    } else {
      assert (a + b)[1..] == a[1..] + b;
      UpToFinalConcat(a[1..], b);
      if Final(a[0]) {
        assert (a + b)[..1] == a[..1];
      } else {
        assert HasFinal(a) <==> HasFinal(a[1..]) by {
          if HasFinal(a[1..]) {
            var i :| 0 <= i < |a[1..]| && Final(a[1..][i]);
            assert Final(a[i + 1]);
          }
          if HasFinal(a) {
            var i :| 0 <= i < |a| && Final(a[i]);
            assert Final(a[1..][i - 1]);
          }
        }
      }
    }
  }

  /**
   * However the stream is cut into chunks, as long as the calls are smooth the lines handled are
   * the lines of the whole stream, up to the first final one.
   */
  lemma {:induction false} ChunkingDoesNotMatter(leftover: seq<byte>, chunks: seq<seq<byte>>)
    requires Incomplete(leftover) && SmoothRun(leftover, chunks)
    ensures Handled(leftover, chunks) == UpToFinal(Split(leftover + Joined(chunks)).lines)
    decreases chunks
  {
    hide Split;
    hide Extract;
    hide Smooth;
    hide HasFinal;
    if chunks == [] {
      assert leftover + Joined(chunks) == leftover;
      SplitWithoutLf(leftover);
    } else {
      var e := Extract(leftover, chunks[0]);
      var later := Joined(chunks[1..]);
      CallIsFaithfulIff(leftover, chunks[0]);
      assert leftover + Joined(chunks) == (leftover + chunks[0]) + later;
      SplitConcat(leftover + chunks[0], later);
      UpToFinalConcat(e.lines, Split(e.leftover + later).lines);
      ExtractKeepsIncomplete(leftover, chunks[0]);
      if !HasFinal(e.lines) {
        ChunkingDoesNotMatter(e.leftover, chunks[1..]);
      }
    }
  }

  /** A line of the stream ends at byte 10, and loses one byte 13 in front of it. */
  lemma LineEnds(s: seq<byte>, later: seq<byte>)
    requires 10 !in s
    ensures Split(s) == Extraction([], s)
    ensures var rest := Split(later);
            Split(s + [10] + later)
            == Extraction([if s != [] && s[|s| - 1] == 13 then s[..|s| - 1] else s] + rest.lines, rest.leftover)
  {
    var whole := s + [10] + later;
    assert whole[..|s|] == s && whole[|s|] == 10 && whole[|s| + 1..] == later;
    SplitWithoutLf(s);
    hide Split;
    SplitStep(whole, |s|);
  }

  /** A received chunk ends at its first byte 0. */
  lemma ChunkEnds(leftover: seq<byte>, s: seq<byte>, later: seq<byte>)
    requires 0 !in s
    ensures Extract(leftover, s + [0] + later) == Extract(leftover, s)
  {
    var stored := [0] + later;
    assert s + [0] + later == s + stored && stored[0] == 0;
    assert NulFree(s);
    WholeCString(s);
    CStringOfStored(s, stored);
    hide *;
    SameChunk(leftover, s + stored, s);
  }

  lemma SameChunk(leftover: seq<byte>, a: seq<byte>, b: seq<byte>)
    requires CString(a) == CString(b)
    ensures Extract(leftover, a) == Extract(leftover, b)
  {
    hide CString;
    hide Split;
  }

  /** The first byte 10 of a chunk ends the line left over; a chunk without one replaces it. */
  lemma ChunkContinues(leftover: seq<byte>, s: seq<byte>, later: seq<byte>)
    requires 0 !in s && 10 !in s && 0 !in later
    ensures Extract(leftover, s) == Extraction([], s)
    ensures var rest := Split(later);
            Extract(leftover, s + [10] + later)
            == Extraction([leftover + if s != [] && s[|s| - 1] == 13 then s[..|s| - 1] else s] + rest.lines, rest.leftover)
  {
    var whole := s + [10] + later;
    assert whole[..|s|] == s && whole[|s|] == 10 && whole[|s| + 1..] == later;
    CallWithoutLf(leftover, s);
    WholeCString(whole);
    LfAtIs(whole, |s|);
    hide Split;
    hide LfAt;
    hide CString;
  }

  /** "NO", then "OP": no line feed in the second chunk, so the first one is lost. */
  lemma SplitWordIsLost()
    ensures var no: seq<byte>, op: seq<byte>, end: seq<byte> := [0x4E, 0x4F], [0x4F, 0x50], [LF];
            && Extract([], no) == Extraction([], no)
            && Extract(no, op) == Extraction([], op)
            && Extract(op, end) == Extraction([op], [])
            && Split(no + op + end) == Extraction([no + op], [])
  {
    var no: seq<byte>, op: seq<byte>, end: seq<byte> := [0x4E, 0x4F], [0x4F, 0x50], [LF];
    CallWithoutLf([], no);
    CallWithoutLf(no, op);
    WholeCString(end);
    LfAtIs(end, 0);
    SplitWithoutLf([]);
    var s := no + op + end;
    assert s[..4] == no + op && s[5..] == [] && end[1..] == [] && end[..0] == [];
    hide Split;
    SplitStep(s, 4);
    CallWithLf(op, end, 0);
    assert op + StripCr([]) == op;
  }

  /** "OK" and a CR, then the LF: the line keeps the CR that the stream's line does not have. */
  lemma SplitCrStays()
    ensures var ok: seq<byte>, end: seq<byte> := [0x4F, 0x4B, CR], [LF];
            && Extract([], ok) == Extraction([], ok)
            && Extract(ok, end) == Extraction([[0x4F, 0x4B, CR]], [])
            && Split(ok + end) == Extraction([[0x4F, 0x4B]], [])
  {
    var ok: seq<byte>, end: seq<byte> := [0x4F, 0x4B, CR], [LF];
    CallWithoutLf([], ok);
    WholeCString(end);
    LfAtIs(end, 0);
    SplitWithoutLf([]);
    hide Split;
    CallWithLf(ok, end, 0);
    assert ok + end[..0] == ok && end[1..] == [] && ok[..2] == [0x4F, 0x4B];
    assert ok + StripCr([]) == ok;
  }

  lemma CallWithoutLf(leftover: seq<byte>, chunk: seq<byte>)
    requires NulFree(chunk) && LF !in chunk
    ensures Extract(leftover, chunk) == Extraction([], chunk)
  {
    WholeCString(chunk);
    LfAtIncomplete(chunk);
  }
}
