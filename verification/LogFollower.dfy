/**
 The log monitor's reassembly of lines from the chunks it reads, and the following of a log that only
 grows. Chunks hold no NUL.
 */
module LogFollower {
  import opened LogText
  import opened T = Text

  const SIZE_LIMIT: nat := 500 * 1024

  /** BUFSIZ of the C library: a read returns at most that much. */
  predicate BufferSize(bufsiz: nat) {
    0 < bufsiz <= SIZE_LIMIT - 2
  }

  datatype Pending = NoText | Text(text: string)

  function TextOf(p: Pending): string {
    if p.Text? then p.text else ""
  }

  datatype Feed = Feed(handled: seq<string>, pending: Pending)

  /** The pending text and the chunk together are too long: both are dropped. */
  predicate Overflows(p: Pending, chunk: string) {
    p.Text? && |p.text| + |chunk| + 1 > SIZE_LIMIT
  }

  /** The state after a chunk. */
  function Fed(f: Feed, chunk: string): Feed {
    if Overflows(f.pending, chunk) then f.(pending := NoText)
    else Assembled(f.handled, TextOf(f.pending) + chunk)
  }

  function Assembled(handled: seq<string>, text: string): Feed {
    Feed(handled + LogLines(text), if '\n' in text && Rest(text) == "" then NoText else Text(Rest(text)))
  }

  function FedAll(f: Feed, chunks: seq<string>): Feed
    decreases |chunks|
  {
    if chunks == [] then f else FedAll(Fed(f, chunks[0]), chunks[1..])
  }

  /**
   Two chunks in a row do what the two as one chunk do, wherever the text is cut (between a carriage
   return and its newline as well), as long as they fit together with the pending text.
   */
  lemma FeedComposes(f: Feed, a: string, b: string)
    requires b != "" && !Overflows(f.pending, a + b) && (f.pending.NoText? ==> |a| + |b| + 1 <= SIZE_LIMIT)
    ensures Fed(Fed(f, a), b) == Fed(f, a + b)
  {
    hide LogLines, Rest;
    var p := TextOf(f.pending);
    assert p + (a + b) == p + a + b;
    LinesCompose(p + a, b);
    var lines, r := LogLines(p + a), Rest(p + a);
    assert f.handled + lines + LogLines(r + b) == f.handled + (lines + LogLines(r + b));
    if '\n' !in b {
      RestOfPlain(r + b);
      assert Rest(p + a + b) == r + b != "";
    } else {
      assert '\n' in r + b && '\n' in p + a + b;
    }
  }

  /** Beyond the limit it does matter how the text is cut: a line that is handled in two chunks is lost in one. */
  lemma CutsMatterBeyondTheLimit(p: string)
    requires '\n' !in p && |p| == SIZE_LIMIT - 3
    ensures var f := Feed([], Text(p));
            && Fed(Fed(f, "\n"), "xx") == Feed([Strip(p)], Text("xx"))
            && Fed(f, "\n" + "xx") == Feed([], NoText)
  {
    hide LogLines, Rest;
    assert p + "\n" == p + "\n" + "";
    AssembleLine([], p, "");
    AssemblePlain([Strip(p)], "xx");
    assert [] + Kept(p) == [Strip(p)] && "" + "xx" == "xx";
  }

  function Joined(chunks: seq<string>): string {
    if chunks == [] then "" else chunks[0] + Joined(chunks[1..])
  }

  /** At some chunk, the unfinished line of everything before it no longer fits. */
  predicate SomeOverflow(read: string, chunks: seq<string>)
    decreases |chunks|
  {
    chunks != [] &&
    ((Rest(read) != "" && |Rest(read)| + |chunks[0]| + 1 > SIZE_LIMIT) || SomeOverflow(read + chunks[0], chunks[1..]))
  }

  /** The state agrees with the text read: its complete lines were handled, its unfinished one is pending. */
  predicate UpToDate(f: Feed, read: string) {
    f.handled == LogLines(read) && TextOf(f.pending) == Rest(read) && f.pending != Text("")
  }

  /** What that means of the segments of the text between its newlines. */
  lemma UpToDateMeans(f: Feed, read: string, segs: seq<string>, tail: string)
    requires Segmented(read, segs, tail)
    ensures UpToDate(f, read) <==> ReadAs(segs, f.handled) && f.pending == (if tail == "" then NoText else Text(tail))
  {
    hide LogLines, Rest, Terminated, ReadAs;
    LinesAreSegments(read, segs, tail, f.handled);
  }

  lemma UpToDateStep(f: Feed, read: string, chunk: string)
    requires UpToDate(f, read) && chunk != "" && !Overflows(f.pending, chunk)
    ensures UpToDate(Fed(f, chunk), read + chunk)
  {
    hide LogLines, Rest;
    LinesCompose(read, chunk);
    var r := Rest(read);
    if '\n' !in r + chunk { RestOfPlain(r + chunk); }
  }

  lemma {:induction false} NoOverflowIsExact(f: Feed, read: string, chunks: seq<string>)
    requires UpToDate(f, read) && "" !in chunks && !SomeOverflow(read, chunks)
    ensures UpToDate(FedAll(f, chunks), read + Joined(chunks))
    decreases |chunks|
  {
    hide LogLines, Rest;
    if chunks == [] {
      assert read + "" == read;
    } else {
      UpToDateStep(f, read, chunks[0]);
      NoOverflowIsExact(Fed(f, chunks[0]), read + chunks[0], chunks[1..]);
      assert read + chunks[0] + Joined(chunks[1..]) == read + (chunks[0] + Joined(chunks[1..]));
    }
  }

  /** How much text the state accounts for, if t is what is still to come. */
  function Account(f: Feed, t: string): nat {
    Total(f.handled) + Weight(TextOf(f.pending) + t)
  }

  /** A chunk that fits changes no account; a chunk that overflows leaves a gap that never closes. */
  lemma AccountStep(f: Feed, chunk: string, t: string, bufsiz: nat)
    requires BufferSize(bufsiz) && '\n' !in TextOf(f.pending)
    ensures Account(Fed(f, chunk), t) <= Account(f, chunk + t)
    ensures Overflows(f.pending, chunk) && |chunk| <= bufsiz ==> Account(Fed(f, chunk), t) < Account(f, chunk + t)
  {
    hide LogLines, Rest, Weight;
    var p := TextOf(f.pending);
    assert p + (chunk + t) == p + chunk + t;
    if Overflows(f.pending, chunk) {
      assert "" + t == t;
      OverflowLoses(p, chunk, t);
    } else {
      WeightCompose(p + chunk, t);
      TotalOf(f.handled, LogLines(p + chunk));
    }
  }

  lemma OverflowLoses(p: string, chunk: string, t: string)
    requires '\n' !in p
    ensures Weight(t) <= Weight(p + chunk + t)
    ensures |p| > 1 ==> Weight(t) < Weight(p + chunk + t)
  {
    hide LogLines, Rest, Weight;
    WeightCompose(p + chunk, t);
    WeightOfPrefix(Rest(p + chunk), t);
    if |p| > 1 {
      RestKeepsWeight(p, chunk);
      if Total(LogLines(p + chunk)) == 0 { LongRestCounts(Rest(p + chunk), t); }
    }
  }

  /** Text of more than one byte without newline leaves a line, or a rest that starts with it. */
  lemma RestKeepsWeight(p: string, chunk: string)
    requires '\n' !in p && |p| > 1
    ensures Total(LogLines(p + chunk)) > 0 || Rest(p + chunk) == p + chunk
  {
    hide LogLines, Rest, Weight;
    var k := FirstOf(chunk, '\n');
    if k == |chunk| {
      RestOfPlain(p + chunk);
    } else {
      var l, rest := chunk[..k], chunk[k + 1..];
      assert p + chunk == p + l + "\n" + rest && '\n' !in p + l;
      LinesOfLine(p + l, rest);
      TotalOf(Kept(p + l), LogLines(rest));
    }
  }

  /** A longer unfinished line makes whatever follows weigh more. */
  lemma LongRestCounts(r: string, t: string)
    requires '\n' !in r && |r| > 1
    ensures Weight(t) < Weight(r + t)
  {
    hide LogLines, Rest, FirstOf;
    var k := FirstOf(t, '\n');
    if k == |t| {
      RestOfPlain(t);
      RestOfPlain(r + t);
    } else {
      var l, t' := t[..k], t[k + 1..];
      assert t == l + "\n" + t' && r + t == r + l + "\n" + t' && '\n' !in r + l;
      LinesOfLine(l, t');
      LinesOfLine(r + l, t');
      TotalOf(Kept(l), LogLines(t'));
      TotalOf(Kept(r + l), LogLines(t'));
      assert |Strip(r + l)| > |Strip(l)|;
      assert Total(Kept(l)) == |Strip(l)| && Total(Kept(r + l)) == |Strip(r + l)|;
    }
  }

  lemma {:induction false} AccountNeverGrows(f: Feed, chunks: seq<string>)
    requires '\n' !in TextOf(f.pending)
    ensures Account(FedAll(f, chunks), "") <= Account(f, Joined(chunks))
    ensures '\n' !in TextOf(FedAll(f, chunks).pending)
    decreases |chunks|
  {
    hide LogLines, Rest, Weight;
    if chunks != [] {
      AccountStep(f, chunks[0], Joined(chunks[1..]), 1);
      AccountNeverGrows(Fed(f, chunks[0]), chunks[1..]);
    }
  }

  lemma {:induction false} OverflowShows(f: Feed, read: string, chunks: seq<string>, bufsiz: nat)
    requires BufferSize(bufsiz) && UpToDate(f, read) && SomeOverflow(read, chunks)
    requires forall c :: c in chunks ==> 0 < |c| <= bufsiz
    ensures Account(FedAll(f, chunks), "") < Account(f, Joined(chunks))
    decreases |chunks|
  {
    hide LogLines, Rest, Weight;
    var c, rest := chunks[0], Joined(chunks[1..]);
    AccountStep(f, c, rest, bufsiz);
    if Overflows(f.pending, c) {
      AccountNeverGrows(Fed(f, c), chunks[1..]);
    } else {
      UpToDateStep(f, read, c);
      OverflowShows(Fed(f, c), read + c, chunks[1..], bufsiz);
    }
  }

  /**
   Following a log that only grows, in chunks of at most bufsiz bytes: every completed non-empty
   line is handled exactly once and in order, with the unfinished line pending, if and only if no
   unfinished line ever grew too long for the next chunk.
   */
  lemma ExactUnlessOverflow(chunks: seq<string>, bufsiz: nat)
    requires BufferSize(bufsiz) && forall c :: c in chunks ==> 0 < |c| <= bufsiz
    ensures UpToDate(FedAll(Feed([], NoText), chunks), Joined(chunks)) <==> !SomeOverflow("", chunks)
  {
    hide LogLines, Rest, Weight;
    var f, all := Feed([], NoText), Joined(chunks);
    RestOfPlain("");
    assert "" + all == all;
    if SomeOverflow("", chunks) {
      OverflowShows(f, "", chunks, bufsiz);
      var g := FedAll(f, chunks);
      assert TextOf(g.pending) + "" == TextOf(g.pending);
      if UpToDate(g, all) {
        RestOfPlain(Rest(all));
        assert Weight(Rest(all)) == |Rest(all)| by { assert Weight(Rest(all)) == Total([]) + |Rest(all)| by { UnfoldWeight(Rest(all)); } }
        UnfoldWeight(all);
        assert false;
      }
    } else {
      NoOverflowIsExact(f, "", chunks);
    }
  }

  function Repeated(chunk: string, n: nat): (chunks: seq<string>)
    ensures |chunks| == n && forall i :: 0 <= i < n ==> chunks[i] == chunk
  {
    seq(n, _ => chunk)
  }

  lemma {:induction false} GrowsTooLong(read: string, chunk: string, n: nat)
    requires '\n' !in read && '\n' !in chunk && read != "" && n > 0 && |read| + n * |chunk| + 1 > SIZE_LIMIT
    ensures SomeOverflow(read, Repeated(chunk, n))
    decreases n
  {
    hide Rest;
    RestOfPlain(read);
    var chunks := Repeated(chunk, n);
    if |read| + |chunk| + 1 <= SIZE_LIMIT {
      assert chunks[1..] == Repeated(chunk, n - 1);
      assert n * |chunk| == |chunk| + (n - 1) * |chunk|;
      GrowsTooLong(read + chunk, chunk, n - 1);
    }
  }

  /**
   It does happen: a line long enough is lost, whatever the buffer size. With a buffer of 8192 bytes,
   63 full buffers without a newline are enough.
   */
  lemma LongLineIsLost(chunk: string)
    requires '\n' !in chunk && BufferSize(|chunk|)
    ensures var chunks := Repeated(chunk, SIZE_LIMIT / |chunk| + 1);
            SomeOverflow("", chunks) && !UpToDate(FedAll(Feed([], NoText), chunks), Joined(chunks))
    ensures |chunk| == 8192 ==> SIZE_LIMIT / |chunk| + 1 == 63
  {
    hide Rest, LogLines, FedAll, UpToDate;
    var b := |chunk|;
    var n := SIZE_LIMIT / b + 1;
    EnoughChunks(b);
    var chunks := Repeated(chunk, n);
    assert chunks[1..] == Repeated(chunk, n - 1) && "" + chunk == chunk;
    GrowsTooLong(chunk, chunk, n - 1);
    ExactUnlessOverflow(chunks, b);
  }

  lemma EnoughChunks(b: nat)
    requires BufferSize(b)
    ensures SIZE_LIMIT / b > 0 && b + (SIZE_LIMIT / b) * b > SIZE_LIMIT
  {
    assert SIZE_LIMIT == (SIZE_LIMIT / b) * b + SIZE_LIMIT % b;
  }

  lemma UnfoldWeight(t: string)
    ensures Weight(t) == Total(LogLines(t)) + |Rest(t)|
  {}

  lemma {:induction false} FedAllAppends(f: Feed, chunks: seq<string>, c: string)
    ensures FedAll(f, chunks + [c]) == Fed(FedAll(f, chunks), c)
    ensures Joined(chunks + [c]) == Joined(chunks) + c
    decreases |chunks|
  {
    if chunks == [] {
      assert [] + [c] == [c] && "" + c == c && c + "" == c;
    } else {
      assert (chunks + [c])[1..] == chunks[1..] + [c];
      FedAllAppends(Fed(f, chunks[0]), chunks[1..], c);
      assert chunks[0] + (Joined(chunks[1..]) + c) == chunks[0] + Joined(chunks[1..]) + c;
    }
  }

  lemma AssemblePlain(handled: seq<string>, t: string)
    requires '\n' !in t
    ensures Assembled(handled, t) == Feed(handled, Text(t))
  {
    RestOfPlain(t);
    assert handled + [] == handled;
  }

  lemma AssembleLine(handled: seq<string>, line: string, rest: string)
    requires '\n' !in line
    ensures Assembled(handled, line + "\n" + rest) ==
            if rest == "" then Feed(handled + Kept(line), NoText) else Assembled(handled + Kept(line), rest)
  {
    hide LogLines, Rest;
    LinesOfLine(line, rest);
    assert handled + Kept(line) + LogLines(rest) == handled + (Kept(line) + LogLines(rest));
    if '\n' !in rest { RestOfPlain(rest); }
  }

  // ---------------------------------------------------------------------------------------------
  // In place
  // ---------------------------------------------------------------------------------------------

  class MonitoredFile {
    var pending: Pending
    var handled: seq<string>     // the lines passed on, in order

    function State(): Feed
      reads this
    {
      Feed(handled, pending)
    }

    constructor ()
      ensures State() == Feed([], NoText)
    {
      pending, handled := NoText, [];
    }

    method HandleRead(buf: string)
      modifies this
      ensures State() == Fed(old(State()), buf)
      ensures |buf| < SIZE_LIMIT && old(|TextOf(pending)|) < SIZE_LIMIT ==> |TextOf(pending)| < SIZE_LIMIT
      decreases |TextOf(pending)| + |buf|
    {
      hide LogLines, Rest, Assembled;
      var work;
      if pending.Text? {
        if |pending.text| + |buf| + 1 > SIZE_LIMIT {
          pending := NoText;
          return;
        }
        work := pending.text + buf;
        pending := NoText;
      } else {
        work := buf;
        assert "" + buf == buf;
      }
      var eol := FindNewline(work);
      if eol < |work| {
        var line, nextLine := work[..eol], work[eol + 1..];
        assert work == line + "\n" + nextLine;
        AssembleLine(handled, line, nextLine);
        HandleLine(line);
        if nextLine != "" {
          assert "" + nextLine == nextLine;
          HandleRead(nextLine);
        }
      } else {
        AssemblePlain(handled, work);
        pending := Text(work);
      }
    }

    /** Passes a line on, without the carriage return at its end, unless nothing is left of it. */
    method HandleLine(line: string)
      modifies this`handled
      ensures handled == old(handled) + Kept(line)
    {
      var l := line;
      if l != "" && l[|l| - 1] == '\r' { l := l[..|l| - 1]; }
      if l != "" { handled := handled + [l]; }
    }

    /**
     One poll: reads and handles the content from pos on until a read finds nothing more. The file may grow
     before each read, by the pieces of growth from next on.
     */
    method ReadToEnd(content0: string, pos: nat, growth: seq<string>, next0: nat, bufsiz: nat, ghost past: seq<string>)
      returns (content: string, next: nat, chunks: seq<string>)
      requires pos <= |content0| && content0[..pos] == Joined(past) && next0 <= |growth| && BufferSize(bufsiz)
      requires State() == FedAll(Feed([], NoText), past) && |TextOf(pending)| < SIZE_LIMIT
      modifies this
      ensures next0 <= next <= |growth| && (next0 < |growth| ==> next0 < next)
      ensures content == content0 + Joined(growth[next0..next]) == Joined(past + chunks)
      ensures forall c :: c in chunks ==> 0 < |c| <= bufsiz
      ensures State() == FedAll(Feed([], NoText), past + chunks) && |TextOf(pending)| < SIZE_LIMIT
    {
      hide FedAll, Fed, Joined;
      content, next, chunks := content0, next0, [];
      var at: nat := pos;
      JoinedNothing();
      assert past + chunks == past && growth[next0..next] == [] && content0 + "" == content0;
      while true
        invariant next0 <= next <= |growth| && content == content0 + Joined(growth[next0..next])
        invariant at <= |content| && content[..at] == Joined(past + chunks)
        invariant forall c :: c in chunks ==> 0 < |c| <= bufsiz
        invariant State() == FedAll(Feed([], NoText), past + chunks) && |TextOf(pending)| < SIZE_LIMIT
        decreases |growth| - next, |content| - at
      {
        if next < |growth| {
          GrowthJoins(content0, growth, next0, next);
          assert (content + growth[next])[..at] == content[..at];
          content, next := content + growth[next], next + 1;
        }
        var nread: nat := if |content| - at <= bufsiz then |content| - at else bufsiz;
        if nread <= 0 { break; }
        var chunk := content[at..at + nread];
        FedAllAppends(Feed([], NoText), past + chunks, chunk);
        assert past + chunks + [chunk] == past + (chunks + [chunk]);
        assert content[..at + nread] == content[..at] + chunk;
        HandleRead(chunk);
        chunks := chunks + [chunk];
        at := at + nread;
      }
      assert content[..at] == content;
    }
  }

  lemma JoinedNothing()
    ensures Joined([]) == ""
  {}

  lemma GrowthJoins(content0: string, growth: seq<string>, from: nat, to: nat)
    requires from <= to < |growth|
    ensures content0 + Joined(growth[from..to]) + growth[to] == content0 + Joined(growth[from..to + 1])
  {
    assert growth[from..to + 1] == growth[from..to] + [growth[to]];
    FedAllAppends(Feed([], NoText), growth[from..to], growth[to]);
  }

  method FindNewline(t: string) returns (eol: nat)
    ensures eol <= |t| && '\n' !in t[..eol] && (eol < |t| ==> t[eol] == '\n')
    ensures eol == |t| ==> '\n' !in t
  {
    eol := 0;
    while eol < |t| && t[eol] != '\n'
      invariant eol <= |t| && '\n' !in t[..eol]
    {
      eol := eol + 1;
    }
    if eol == |t| { assert t[..eol] == t; }
  }

  /**
   The polling loop over a log that grows by the given pieces, one before each read, within a poll as
   well as between polls. The chunks are what the reads returned. Every completed non-empty line of the
   log is handled exactly once and in order if and only if no unfinished line grew too long for the next
   chunk; said of the segments between its newlines, without the definition of the lines, as well.
   */
  method FollowLog(growth: seq<string>, bufsiz: nat) returns (mf: MonitoredFile, chunks: seq<string>)
    requires BufferSize(bufsiz)
    ensures Joined(chunks) == Joined(growth) && forall c :: c in chunks ==> 0 < |c| <= bufsiz
    ensures mf.State() == FedAll(Feed([], NoText), chunks)
    ensures UpToDate(mf.State(), Joined(growth)) <==> !SomeOverflow("", chunks)
    ensures forall segs, tail :: Segmented(Joined(growth), segs, tail) ==>
              (!SomeOverflow("", chunks) <==>
                 ReadAs(segs, mf.handled) && mf.pending == (if tail == "" then NoText else Text(tail)))
    ensures |TextOf(mf.pending)| < SIZE_LIMIT
  {
    hide FedAll, Fed, LogLines, Rest, Joined, UpToDate, SomeOverflow, Segmented, ReadAs;
    mf := new MonitoredFile();
    chunks := [];
    var content, next: nat := "", 0;
    FedAllOfNothing(Feed([], NoText));
    JoinedNothing();
    assert growth[..0] == [];
    while next < |growth|
      invariant fresh(mf) && next <= |growth| && content == Joined(growth[..next]) == Joined(chunks)
      invariant forall c :: c in chunks ==> 0 < |c| <= bufsiz
      invariant mf.State() == FedAll(Feed([], NoText), chunks) && |TextOf(mf.pending)| < SIZE_LIMIT
    {
      var before := next;
      assert content[..|content|] == content;
      var more;
      content, next, more := mf.ReadToEnd(content, |content|, growth, next, bufsiz, chunks);
      chunks := chunks + more;
      JoinedAppends(growth[..before], growth[before..next]);
      assert growth[..next] == growth[..before] + growth[before..next];
    }
    assert growth[..next] == growth;
    ExactUnlessOverflow(chunks, bufsiz);
    forall segs, tail | Segmented(Joined(growth), segs, tail)
      ensures UpToDate(mf.State(), Joined(growth)) <==>
              ReadAs(segs, mf.handled) && mf.pending == (if tail == "" then NoText else Text(tail))
    {
      UpToDateMeans(mf.State(), Joined(growth), segs, tail);
    }
  }

  lemma {:induction false} JoinedAppends(a: seq<string>, b: seq<string>)
    ensures Joined(a + b) == Joined(a) + Joined(b)
  {
    if a == [] {
      assert a + b == b;
    } else {
      JoinedAppends(a[1..], b);
      assert (a + b)[1..] == a[1..] + b;
      assert a[0] + (Joined(a[1..]) + Joined(b)) == a[0] + Joined(a[1..]) + Joined(b);
    }
  }

  lemma FedAllOfNothing(f: Feed)
    ensures FedAll(f, []) == f
  {}
}
