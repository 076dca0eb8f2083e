/**
 What the lines of a log are: the text between newlines, without one carriage return before the
 newline, empty lines left out; and the text after the last newline, which is not a line yet.
 */
module LogText {
  import opened Text

  function Strip(l: string): string {
    if l != "" && l[|l| - 1] == '\r' then l[..|l| - 1] else l
  }

  function Kept(l: string): seq<string> {
    if Strip(l) == "" then [] else [Strip(l)]
  }

  function LogLines(t: string): seq<string>
    decreases |t|
  {
    var k := FirstOf(t, '\n');
    if k == |t| then [] else Kept(t[..k]) + LogLines(t[k + 1..])
  }

  function Rest(t: string): (r: string)
    ensures '\n' !in r && |r| <= |t|
    decreases |t|
  {
    var k := FirstOf(t, '\n');
    if k == |t| then t else Rest(t[k + 1..])
  }

  lemma RestOfPlain(t: string)
    requires '\n' !in t
    ensures LogLines(t) == [] && Rest(t) == t
  {
    FirstOfIs(t, '\n', |t|);
    assert t[..|t|] == t;
  }

  lemma LinesOfLine(l: string, rest: string)
    requires '\n' !in l
    ensures LogLines(l + "\n" + rest) == Kept(l) + LogLines(rest) && Rest(l + "\n" + rest) == Rest(rest)
  {
    var t := l + "\n" + rest;
    assert t[..|l|] == l && t[|l|] == '\n' && t[|l| + 1..] == rest;
    FirstOfIs(t, '\n', |l|);
  }

  /** Cutting the text anywhere: the unfinished line of the first part continues in the second. */
  lemma {:induction false} LinesCompose(a: string, b: string)
    ensures LogLines(a + b) == LogLines(a) + LogLines(Rest(a) + b)
    ensures Rest(a + b) == Rest(Rest(a) + b)
    decreases |a|
  {
    hide LogLines, Rest, Kept, FirstOf;
    var k := FirstOf(a, '\n');
    if k == |a| {
      RestOfPlain(a);
      assert [] + LogLines(a + b) == LogLines(a + b);
    } else {
      var l, a' := a[..k], a[k + 1..];
      LinesCompose(a', b);
      ComposeStep(l, a', b);
      assert a == l + "\n" + a';
    }
  }

  lemma ComposeStep(l: string, a: string, b: string)
    requires '\n' !in l
    requires LogLines(a + b) == LogLines(a) + LogLines(Rest(a) + b) && Rest(a + b) == Rest(Rest(a) + b)
    ensures LogLines(l + "\n" + a + b) == LogLines(l + "\n" + a) + LogLines(Rest(l + "\n" + a) + b)
    ensures Rest(l + "\n" + a + b) == Rest(Rest(l + "\n" + a) + b)
  {
    hide LogLines, Rest, Kept;
    assert l + "\n" + a + b == l + "\n" + (a + b);
    LinesOfLine(l, a);
    LinesOfLine(l, a + b);
    assert Kept(l) + (LogLines(a) + LogLines(Rest(a) + b)) == Kept(l) + LogLines(a) + LogLines(Rest(a) + b);
  }

  // ---------------------------------------------------------------------------------------------
  // The same, said of the segments between the newlines
  // ---------------------------------------------------------------------------------------------

  function Terminated(segs: seq<string>): string {
    if segs == [] then "" else segs[0] + "\n" + Terminated(segs[1..])
  }

  /** The text is these segments, each ended by a newline, and a tail; none of them holds a newline. */
  predicate Segmented(t: string, segs: seq<string>, tail: string) {
    && t == Terminated(segs) + tail && '\n' !in tail
    && forall i :: 0 <= i < |segs| ==> '\n' !in segs[i]
  }

  /** The lines are the segments in order, those left out that are empty but for one carriage return. */
  predicate ReadAs(segs: seq<string>, lines: seq<string>)
    decreases |segs|
  {
    if segs == [] then lines == []
    else if segs[0] == "" || segs[0] == "\r" then ReadAs(segs[1..], lines)
    else lines != [] && ReadAsLine(segs[0], lines[0]) && ReadAs(segs[1..], lines[1..])
  }

  /** Exactly one carriage return at the end goes, if there is one. */
  predicate ReadAsLine(seg: string, line: string) {
    seg == line + "\r" || (seg == line && (line == "" || line[|line| - 1] != '\r'))
  }

  lemma KeptIsRead(seg: string, lines: seq<string>, more: seq<string>)
    ensures Kept(seg) + more == lines <==>
              if seg == "" || seg == "\r" then more == lines
              else lines != [] && ReadAsLine(seg, lines[0]) && more == lines[1..]
  {
    if seg == "" || seg == "\r" {
      assert Kept(seg) + more == more;
    } else {
      assert Kept(seg) == [Strip(seg)] && ([Strip(seg)] + more)[1..] == more;
      if lines != [] {
        assert [lines[0]] + lines[1..] == lines;
        if seg == lines[0] + "\r" { assert Strip(seg) == lines[0]; }
        if seg[|seg| - 1] == '\r' { assert seg == Strip(seg) + "\r"; }
      }
    }
  }

  /** The handled lines are exactly the segments without their final carriage return, the empty ones left out. */
  lemma {:induction false} LinesAreSegments(t: string, segs: seq<string>, tail: string, lines: seq<string>)
    requires Segmented(t, segs, tail)
    ensures LogLines(t) == lines <==> ReadAs(segs, lines)
    ensures Rest(t) == tail
    decreases |segs|
  {
    hide LogLines, Rest, Kept, ReadAsLine;
    if segs == [] {
      assert t == tail;
      RestOfPlain(t);
    } else {
      var t' := Terminated(segs[1..]) + tail;
      assert t == segs[0] + "\n" + t';
      LinesOfLine(segs[0], t');
      KeptIsRead(segs[0], lines, LogLines(t'));
      if segs[0] == "" || segs[0] == "\r" {
        LinesAreSegments(t', segs[1..], tail, lines);
      } else {
        LinesAreSegments(t', segs[1..], tail, if lines == [] then [] else lines[1..]);
      }
    }
  }

  /** Lines written with either line ending, one by one, are read back as they are. */
  lemma {:induction false} LinesReadBack(lines: seq<string>, segs: seq<string>)
    requires |segs| == |lines|
    requires forall i :: 0 <= i < |lines| ==>
               && '\n' !in lines[i] && lines[i] != "" && lines[i][|lines[i]| - 1] != '\r'
               && (segs[i] == lines[i] || segs[i] == lines[i] + "\r")
    ensures LogLines(Terminated(segs)) == lines
  {
    hide LogLines, Rest, Kept;
    EachIsRead(lines, segs);
    assert Terminated(segs) == Terminated(segs) + "";
    LinesAreSegments(Terminated(segs), segs, "", lines);
  }

  lemma {:induction false} EachIsRead(lines: seq<string>, segs: seq<string>)
    requires |segs| == |lines|
    requires forall i :: 0 <= i < |lines| ==>
               lines[i] != "" && lines[i][|lines[i]| - 1] != '\r' && (segs[i] == lines[i] || segs[i] == lines[i] + "\r")
    ensures ReadAs(segs, lines)
    decreases |segs|
  {
    if segs != [] {
      assert |segs[0]| == 1 ==> segs[0] == lines[0];
      EachIsRead(lines[1..], segs[1..]);
    }
  }

  // The amount of text in lines and rest

  function Total(lines: seq<string>): nat {
    if lines == [] then 0 else |lines[0]| + Total(lines[1..])
  }

  lemma {:induction false} TotalOf(xs: seq<string>, ys: seq<string>)
    ensures Total(xs + ys) == Total(xs) + Total(ys)
  {
    if xs == [] {
      assert xs + ys == ys;
    } else {
      assert (xs + ys)[1..] == xs[1..] + ys;
      TotalOf(xs[1..], ys);
    }
  }

  function Weight(t: string): nat {
    Total(LogLines(t)) + |Rest(t)|
  }

  /** Text put before other text takes nothing away, and adds all but a carriage return. */
  lemma WeightOfPrefix(r: string, t: string)
    requires '\n' !in r
    ensures Weight(t) <= Weight(r + t) && |r| <= Weight(r + t) + 1
  {
    hide LogLines, Rest, FirstOf;
    var k := FirstOf(t, '\n');
    if k == |t| {
      assert t[..k] == t;
      assert '\n' !in r + t;
      RestOfPlain(t);
      RestOfPlain(r + t);
    } else {
      var l, t' := t[..k], t[k + 1..];
      assert t == l + "\n" + t' && r + t == r + l + "\n" + t';
      assert '\n' !in r + l;
      LinesOfLine(l, t');
      LinesOfLine(r + l, t');
      TotalOf(Kept(l), LogLines(t'));
      TotalOf(Kept(r + l), LogLines(t'));
      assert |Strip(r + l)| >= |Strip(l)| && |Strip(r + l)| + 1 >= |r|;
      assert Total(Kept(l)) == |Strip(l)| && Total(Kept(r + l)) == |Strip(r + l)|;
    }
  }

  lemma WeightCompose(a: string, b: string)
    ensures Weight(a + b) == Total(LogLines(a)) + Weight(Rest(a) + b)
  {
    LinesCompose(a, b);
    TotalOf(LogLines(a), LogLines(Rest(a) + b));
  }
}
