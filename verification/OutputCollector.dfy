/**
 The collector of a command's output: the lines of its standard output, joined by newlines in a buffer
 that is the caller's or grows as needed.
 */
module OutputCollector {
  import opened Text
  import opened StringOps

  const MAX_MEMORY: nat := 1048576

  datatype Errno = NoError | E2BIG | ENOMEM | ENOBUFS

  function Max(a: nat, b: nat): nat {
    if a >= b then a else b
  }

  /** The size after growing for a line. */
  function Grown(bufsize: nat, len: nat): nat {
    Max(bufsize + 1024, bufsize + len + 1)
  }

  function Output(lines: seq<string>): string {
    if lines == [] then "" else Join(lines, '\n')
  }

  lemma NoOutput()
    ensures Output([]) == ""
  {}

  lemma OutputOneMore(lines: seq<string>, line: string)
    ensures Output(lines + [line]) == if lines == [] then line else Output(lines) + "\n" + line
  {
    if lines != [] { JoinOneMore(lines, line, '\n'); }
  }

  method StrCat(a: array<char>, t: string, ghost s: string)
    requires Holds(a, 0, s, |s|) && NUL !in t && |s| + |t| < a.Length
    modifies a
    ensures Holds(a, 0, s + t, |s + t|)
  {
    var n := StrLen(a, s);
    forall i | 0 <= i < |t| {
      a[n + i] := t[i];
    }
    a[n + |t|] := NUL;
    assert a[0..|s|] == old(a[0..|s|]);
    assert a[0..|s| + |t|] == a[0..|s|] + t;
  }

  class Collector {
    const ownBuf: bool        // the buffer is the collector's own and may grow
    var err: Errno
    var numLines: nat
    var buf: array?<char>
    var bufsize: nat
    ghost var lines: seq<string> // the lines accepted

    ghost predicate Valid()
      reads this, buf
    {
      && numLines == |lines| && (forall l :: l in lines ==> NUL !in l)
      && (err == NoError ==>
            && (if buf == null then bufsize == 0 && ownBuf && lines == [] else buf.Length == bufsize > 0)
            && (ownBuf ==> bufsize <= MAX_MEMORY)
            && (lines != [] ==> |Output(lines)| < bufsize && Holds(buf, 0, Output(lines), |Output(lines)|)))
    }

    /** The caller's buffer, or none. */
    constructor (given: array?<char>)
      requires given != null ==> given.Length > 0
      ensures Valid() && err == NoError && lines == [] && buf == given && ownBuf == (given == null)
    {
      ownBuf := given == null;
      buf, bufsize := given, if given == null then 0 else given.Length;
      err, numLines, lines := NoError, 0, [];
    }

    /** Makes the buffer larger, keeping the string in it. */
    method Grow(size: nat, ghost s: string)
      requires size > bufsize && (if buf == null then s == "" else Holds(buf, 0, s, |s|) && buf.Length == bufsize)
      modifies this`buf, this`bufsize
      ensures fresh(buf) && buf != null && buf.Length == size == bufsize && Holds(buf, 0, s, |s|)
    {
      var newBuf := new char[size](_ => NUL);
      if buf != null {
        forall i | 0 <= i < buf.Length {
          newBuf[i] := buf[i];
        }
        assert newBuf[0..|s|] == buf[0..|s|];
      } else {
        newBuf[0] := NUL;
      }
      buf, bufsize := newBuf, size;
    }

    /** Puts a line after those accepted, where there is room for it. */
    method Append(line: string, ghost s: string)
      requires numLines == |lines| && s == Output(lines) && NUL !in line && forall l :: l in lines ==> NUL !in l
      requires buf != null && Holds(buf, 0, s, |s|) && |Output(lines + [line])| < buf.Length
      modifies this`numLines, this`lines, buf
      ensures lines == old(lines) + [line] && numLines == |lines|
      ensures Holds(buf, 0, Output(lines), |Output(lines)|)
    {
      OutputOneMore(lines, line);
      if numLines > 0 {
        StrCat(buf, "\n", s);
        StrCat(buf, line, s + "\n");
      } else {
        StrCat(buf, line, s);
        assert s + line == line;
      }
      numLines, lines := numLines + 1, lines + [line];
    }

    /**
     One line of output. A line of standard output is accepted when it fits, with a newline before it
     unless it is the first, or when the collector's own buffer can grow to fit it; growing once is
     always enough. Otherwise the error is recorded, and nothing is accepted any more.
     */
    method ProcessLine(line: string, stdout: bool, memoryLeft: bool)
      requires Valid() && NUL !in line
      modifies this, buf
      ensures Valid() && (buf == old(buf) || fresh(buf))
      ensures !stdout || old(err) != NoError ==> err == old(err) && lines == old(lines) && bufsize == old(bufsize)
      ensures stdout && old(err) == NoError ==>
                var fits := |Output(old(lines) + [line])| < old(bufsize);
                var size := Grown(old(bufsize), |line|);
                if fits || (ownBuf && size <= MAX_MEMORY && memoryLeft)
                then err == NoError && lines == old(lines) + [line] && bufsize == if fits then old(bufsize) else size
                else
                  && lines == old(lines)
                  && err == if !ownBuf then ENOBUFS else if size > MAX_MEMORY then E2BIG else ENOMEM
    {
      hide Output;
      NoOutput();
      if !stdout || err != NoError { return; }
      if numLines == 0 && buf != null {
        buf[0] := NUL;
        assert buf[0..0] == "";
      }
      ghost var s := Output(lines);
      OutputOneMore(lines, line);
      var bufLen := 0;
      if buf != null { bufLen := StrLen(buf, s); }
      var nlCharNeeded := if numLines > 0 then 1 else 0;
      if bufLen + |line| + nlCharNeeded >= bufsize {
        if !ownBuf {
          err := ENOBUFS;
          return;
        }
        var size := Max(bufsize + 1024, bufsize + |line| + 1);
        if size > MAX_MEMORY {
          bufsize, err := size, E2BIG;
          return;
        }
        if !memoryLeft {
          bufsize, err := size, ENOMEM;
          return;
        }
        Grow(size, s);
      }
      Append(line, s);
    }
  }
}
