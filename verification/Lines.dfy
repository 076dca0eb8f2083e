/**
 What the lines of a byte stream are, for a reader whose lines hold at most LINE_MAX bytes: each maximal
 run of bytes without CR and LF, cut into pieces. The streaming form takes one byte at a time.
 */
module Lines {

  type Byte = b: int | 0 <= b < 256

  const NUL: Byte := 0
  const LF: Byte := 10
  const CR: Byte := 13

  const BUFFER_SIZE: nat := 4096
  const LINE_MAX: nat := 4095

  type Line = seq<Byte>

  predicate Eol(b: Byte) {
    b == LF || b == CR
  }

  predicate NoEol(s: seq<Byte>) {
    forall i :: 0 <= i < |s| ==> !Eol(s[i])
  }

  predicate NulFree(s: seq<Byte>) {
    forall i :: 0 <= i < |s| ==> s[i] != NUL
  }

  // The declarative form

  function RunLength(s: seq<Byte>): (n: nat)
    ensures n <= |s| && NoEol(s[..n]) && (n < |s| ==> Eol(s[n]))
  {
    if s == [] || Eol(s[0]) then 0 else 1 + RunLength(s[1..])
  }

  /** A run in pieces of LINE_MAX bytes and, unless it divides evenly, a non-empty remainder. */
  function Pieces(run: seq<Byte>): (lines: seq<Line>)
    ensures forall l :: l in lines ==> 0 < |l| <= LINE_MAX
  {
    if run == [] then []
    else if |run| <= LINE_MAX then [run]
    else [run[..LINE_MAX]] + Pieces(run[LINE_MAX..])
  }

  function LinesOf(s: seq<Byte>): seq<Line>
    decreases |s|
  {
    if s == [] then []
    else if Eol(s[0]) then LinesOf(s[1..])
    else Pieces(s[..RunLength(s)]) + LinesOf(s[RunLength(s)..])
  }

  // The streaming form

  datatype Acc = Acc(lines: seq<Line>, cur: Line)

  function Feed(a: Acc, b: Byte): Acc {
    if Eol(b) then (if a.cur == [] then a else Acc(a.lines + [a.cur], []))
    else if |a.cur| == LINE_MAX then Acc(a.lines + [a.cur], [b])
    else a.(cur := a.cur + [b])
  }

  function FeedAll(a: Acc, s: seq<Byte>): Acc
    decreases |s|
  {
    if s == [] then a else FeedAll(Feed(a, s[0]), s[1..])
  }

  function Finish(a: Acc): seq<Line> {
    if a.cur == [] then a.lines else a.lines + [a.cur]
  }

  lemma {:induction false} FeedAllConcat(a: Acc, s: seq<Byte>, t: seq<Byte>)
    ensures FeedAll(a, s + t) == FeedAll(FeedAll(a, s), t)
    decreases |s|
  {
    if s == [] {
      assert s + t == t;
    } else {
      assert (s + t)[1..] == s[1..] + t;
      FeedAllConcat(Feed(a, s[0]), s[1..], t);
    }
  }

  /** A run that fits is collected as it is. */
  lemma {:induction false} FeedRun(lines: seq<Line>, cur: Line, run: seq<Byte>)
    requires NoEol(run) && |cur| + |run| <= LINE_MAX
    ensures FeedAll(Acc(lines, cur), run) == Acc(lines, cur + run)
    decreases |run|
  {
    if run == [] {
      assert cur + run == cur;
    } else {
      FeedRun(lines, cur + [run[0]], run[1..]);
      assert cur + [run[0]] + run[1..] == cur + run;
    }
  }

  /** A whole run in pieces: the last piece stays open. */
  lemma {:induction false} FeedLongRun(lines: seq<Line>, run: seq<Byte>)
    requires NoEol(run) && run != []
    ensures var a := FeedAll(Acc(lines, []), run); a.cur != [] && Finish(a) == lines + Pieces(run)
    decreases |run|
  {
    if |run| <= LINE_MAX {
      FeedRun(lines, [], run);
      assert [] + run == run;
    } else {
      var head, tail := run[..LINE_MAX], run[LINE_MAX..];
      FeedRun(lines, [], head);
      assert [] + head == head && head + tail == run;
      FeedAllConcat(Acc(lines, []), head, tail);
      assert FeedAll(Acc(lines, head), tail) == FeedAll(Acc(lines + [head], []), tail) by {
        assert Feed(Acc(lines, head), tail[0]) == Feed(Acc(lines + [head], []), tail[0]);
      }
      FeedLongRun(lines + [head], tail);
      assert lines + [head] + Pieces(tail) == lines + ([head] + Pieces(tail));
    }
  }

  lemma LinesUnfold(s: seq<Byte>)
    ensures s == [] ==> LinesOf(s) == []
    ensures s != [] && Eol(s[0]) ==> LinesOf(s) == LinesOf(s[1..])
    ensures s != [] && !Eol(s[0]) ==> RunLength(s) > 0 && LinesOf(s) == Pieces(s[..RunLength(s)]) + LinesOf(s[RunLength(s)..])
  {}

  lemma FeedUnfold(a: Acc, s: seq<Byte>)
    ensures FeedAll(a, s) == if s == [] then a else FeedAll(Feed(a, s[0]), s[1..])
  {}

  /** Both forms agree. */
  lemma {:induction false} StreamingIsDeclarative(lines: seq<Line>, s: seq<Byte>)
    ensures Finish(FeedAll(Acc(lines, []), s)) == lines + LinesOf(s)
    decreases |s|
  {
    hide LinesOf, FeedAll, RunLength, Pieces;
    LinesUnfold(s);
    FeedUnfold(Acc(lines, []), s);
    if s == [] {
    } else if Eol(s[0]) {
      StreamingIsDeclarative(lines, s[1..]);
    } else {
      var n := RunLength(s);
      var run, rest := s[..n], s[n..];
      assert run + rest == s;
      FeedLongRun(lines, run);
      FeedAllConcat(Acc(lines, []), run, rest);
      var a := FeedAll(Acc(lines, []), run);
      LinesUnfold(rest);
      FeedUnfold(a, rest);
      assert lines + Pieces(run) + LinesOf(rest) == lines + (Pieces(run) + LinesOf(rest));
      if rest != [] {
        StreamingIsDeclarative(Finish(a), rest[1..]);
        assert Feed(a, rest[0]) == Acc(Finish(a), []);
      }
    }
  }

  lemma {:induction false} FeedKeepsShape(a: Acc, s: seq<Byte>)
    requires NoEol(a.cur) && |a.cur| <= LINE_MAX
    ensures NoEol(FeedAll(a, s).cur) && |FeedAll(a, s).cur| <= LINE_MAX
    decreases |s|
  {
    if s != [] { FeedKeepsShape(Feed(a, s[0]), s[1..]); }
  }

  // Nothing is lost and nothing invented

  function Concat(lines: seq<Line>): seq<Byte> {
    if lines == [] then [] else lines[0] + Concat(lines[1..])
  }

  function WithoutEols(s: seq<Byte>): seq<Byte> {
    if s == [] then [] else if Eol(s[0]) then WithoutEols(s[1..]) else [s[0]] + WithoutEols(s[1..])
  }

  lemma {:induction false} ConcatAppends(xs: seq<Line>, ys: seq<Line>)
    ensures Concat(xs + ys) == Concat(xs) + Concat(ys)
  {
    if xs == [] {
      assert xs + ys == ys;
    } else {
      assert (xs + ys)[1..] == xs[1..] + ys;
      ConcatAppends(xs[1..], ys);
    }
  }

  lemma {:induction false} PiecesConcat(run: seq<Byte>)
    ensures Concat(Pieces(run)) == run
  {
    if run != [] && |run| > LINE_MAX {
      PiecesConcat(run[LINE_MAX..]);
      assert Pieces(run)[1..] == Pieces(run[LINE_MAX..]);
      assert run[..LINE_MAX] + run[LINE_MAX..] == run;
    } else if run != [] {
      assert Concat([run]) == run + Concat([]);
    }
  }

  /** Only the last piece of a run may hold less than a full buffer. */
  lemma {:induction false} PiecesAreFull(run: seq<Byte>)
    ensures Concat(Pieces(run)) == run
    ensures forall i :: 0 <= i < |Pieces(run)| - 1 ==> |Pieces(run)[i]| == LINE_MAX
  {
    PiecesConcat(run);
    if |run| > LINE_MAX {
      PiecesAreFull(run[LINE_MAX..]);
      assert Pieces(run)[1..] == Pieces(run[LINE_MAX..]);
    }
  }

  /** A line end ends the run before it, whatever follows, and leaves no trace itself. */
  lemma LinesEndAtEol(run: seq<Byte>, end: Byte, rest: seq<Byte>)
    requires NoEol(run) && Eol(end)
    ensures LinesOf(run) == Pieces(run)
    ensures LinesOf(run + [end] + rest) == Pieces(run) + LinesOf(rest)
  {
    hide LinesOf, Pieces;
    var s := run + [end] + rest;
    LinesUnfold(run);
    LinesUnfold([]);
    NoPieces();
    LinesUnfold(s);
    RunIs(run, 0);
    if run == [] {
      assert s[1..] == rest;
      assert [] + LinesOf(rest) == LinesOf(rest);
    } else {
      RunIs(s, |run|);
      assert run[..|run|] == run && run[|run|..] == [] && Pieces(run) + [] == Pieces(run);
      var tail := s[|run|..];
      assert s[..|run|] == run && tail[0] == end && tail[1..] == rest;
      LinesUnfold(tail);
    }
  }

  lemma NoPieces()
    ensures Pieces([]) == []
  {}

  /** Where the first line end is, or that there is none. */
  lemma RunIs(s: seq<Byte>, n: nat)
    ensures NoEol(s) ==> RunLength(s) == |s|
    ensures n < |s| && NoEol(s[..n]) && Eol(s[n]) ==> RunLength(s) == n
  {
    var k := RunLength(s);
    assert forall i :: 0 <= i < k ==> s[i] == s[..k][i];
    if n <= |s| { assert forall i :: 0 <= i < n ==> s[i] == s[..n][i]; }
  }

  lemma {:induction false} WithoutEolsOfRun(run: seq<Byte>, rest: seq<Byte>)
    requires NoEol(run)
    ensures WithoutEols(run + rest) == run + WithoutEols(rest)
  {
    if run == [] {
      assert run + rest == rest;
    } else {
      WithoutEolsOfRun(run[1..], rest);
      assert (run + rest)[1..] == run[1..] + rest;
    }
  }

  /** The lines, put together, are the stream without its line ends; no line is empty or too long. */
  lemma {:induction false} LinesHoldTheStream(s: seq<Byte>)
    ensures Concat(LinesOf(s)) == WithoutEols(s)
    ensures forall l :: l in LinesOf(s) ==> 0 < |l| <= LINE_MAX
    decreases |s|
  {
    if s != [] {
      if Eol(s[0]) {
        LinesHoldTheStream(s[1..]);
      } else {
        var n := RunLength(s);
        LinesHoldTheStream(s[n..]);
        PiecesConcat(s[..n]);
        ConcatAppends(Pieces(s[..n]), LinesOf(s[n..]));
        WithoutEolsOfRun(s[..n], s[n..]);
        assert s[..n] + s[n..] == s;
      }
    }
  }
}
