/**
 The string routines that rewrite the caller's buffer. A string is given by its position in the buffer.
 */
module StringOps {
  import opened Text

  const NUL: char := '\0'

  /**
   At lo stands the string s, and every byte from its end up to and including term is NUL. At first
   term is the terminator of the string; when the string shrinks, term stays where it was.
   */
  ghost predicate Holds(a: array<char>, lo: nat, s: string, term: nat)
    reads a
  {
    && NUL !in s && lo + |s| <= term < a.Length && a[lo..lo + |s|] == s
    && forall i :: lo + |s| <= i <= term ==> a[i] == NUL
  }

  /** Nothing outside lo..=term differs from before. */
  twostate predicate OutsideUnchanged(a: array<char>, lo: nat, term: nat)
    reads a
    requires lo <= term < a.Length
  {
    a[..lo] == old(a[..lo]) && a[term + 1..] == old(a[term + 1..])
  }

  method StrLen(a: array<char>, ghost s: string) returns (n: nat)
    requires Holds(a, 0, s, |s|)
    ensures n == |s|
  {
    assert forall k :: 0 <= k < |s| ==> a[k] == s[k] by { assert forall k :: 0 <= k < |s| ==> a[0..|s|][k] == s[k]; }
    n := 0;
    while a[n] != NUL
      invariant n <= |s|
      decreases |s| - n
    {
      n := n + 1;
    }
  }

  /** Moves the string one byte to the left, over its first byte. */
  method ShiftLeft(a: array<char>, lo: nat, ghost s: string, ghost term: nat)
    requires Holds(a, lo, s, term) && s != ""
    modifies a
    ensures Holds(a, lo, s[1..], term) && OutsideUnchanged(a, lo, term)
  {
    ghost var n := |s|;
    assert forall k :: lo <= k < lo + n ==> a[k] == s[k - lo] by { assert forall k :: 0 <= k < n ==> a[lo..lo + n][k] == s[k]; }
    var i := lo;
    while a[i] != NUL
      invariant lo <= i <= lo + n
      invariant forall k :: lo <= k < i ==> a[k] == old(a[k + 1])
      invariant forall k :: i <= k <= term ==> a[k] == old(a[k])
      invariant OutsideUnchanged(a, lo, term)
      decreases lo + n - i
    {
      a[i] := a[i + 1];
      i := i + 1;
    }
    forall k | 0 <= k < n - 1 ensures a[lo..lo + n - 1][k] == s[1..][k] {
      assert a[lo + k] == old(a[lo + k + 1]);
    }
  }

  /** Within term, whatever shrinks: also the second recursive call stays below the old terminator. */
  method RemoveAllChar(a: array<char>, lo: nat, c: char, ghost s: string, ghost term: nat)
    requires Holds(a, lo, s, term)
    modifies a
    ensures Holds(a, lo, DropAll(s, c), term) && OutsideUnchanged(a, lo, term)
    decreases |s|
  {
    if a[lo] == NUL { return; }
    ghost var t := s;
    if a[lo] == c {
      ShiftLeft(a, lo, s, term);
      RemoveAllChar(a, lo, c, s[1..], term);
      t := DropAll(s[1..], c);
      DropAllKeeps(t, c);
    }
    ghost var tail := if t == "" then "" else t[1..];
    Tail(a, lo, t, term);
    label before:
    RemoveAllChar(a, lo + 1, c, tail, term);
    assert a[lo] == old@before(a[lo]) by { assert a[..lo + 1][lo] == old@before(a[..lo + 1])[lo]; }
    if t != "" { assert t[0] != c; }
    Untail(a, lo, if t == "" then "" else [t[0]] + DropAll(tail, c), term);
  }

  /** The string from the second byte on, or nothing again when there is none. */
  lemma Tail(a: array<char>, lo: nat, t: string, term: nat)
    requires Holds(a, lo, t, term) && lo < term
    ensures Holds(a, lo + 1, if t == "" then "" else t[1..], term) && a[lo] == if t == "" then NUL else t[0]
  {
    if t != "" {
      assert a[lo..lo + |t|][0] == t[0];
      assert a[lo + 1..lo + |t|] == a[lo..lo + |t|][1..];
    }
  }

  lemma Untail(a: array<char>, lo: nat, t: string, term: nat)
    requires lo < term && Holds(a, lo + 1, if t == "" then "" else t[1..], term) && a[lo] == if t == "" then NUL else t[0]
    requires t != "" ==> t[0] != NUL
    ensures Holds(a, lo, t, term)
  {
    if t != "" { assert a[lo..lo + |t|] == [a[lo]] + a[lo + 1..lo + |t|]; }
  }

  lemma Prepend(a: array<char>, lo: nat, x: char, t: string, term: nat)
    requires lo < term && Holds(a, lo + 1, t, term) && a[lo] == x != NUL
    ensures Holds(a, lo, [x] + t, term)
  {
    assert a[lo..lo + 1 + |t|] == [a[lo]] + a[lo + 1..lo + 1 + |t|];
  }

  /** NUL stands in no string: nothing is removed, nothing is split. */
  lemma NulDoesNothing(s: string)
    requires NUL !in s
    ensures DropAll(s, NUL) == s && Collapse(s, NUL) == s && Tokens(s, NUL) == [s]
  {
    DropAllKeeps(s, NUL);
    CollapseIsExact(s, NUL);
    FirstOfIs(s, NUL, |s|);
  }

  lemma CollapseUnfold(s: string, c: char)
    ensures s == "" ==> Collapse(s, c) == ""
    ensures s != "" ==> Collapse(s, c) == (if |s| >= 2 && s[0] == s[1] == c then "" else [s[0]]) + Collapse(s[1..], c)
  {
    if |s| >= 2 && s[0] == s[1] == c { assert "" + Collapse(s[1..], c) == Collapse(s[1..], c); }
  }

  lemma Collapsed(s: string, c: char)
    requires s != ""
    ensures var t := Collapse(s, c); t != "" && t == [t[0]] + Collapse(t[1..], c)
  {
    hide Collapse;
    var t := Collapse(s, c);
    CollapseIsExact(s, c);
    CollapseIsExact(t, c);
    CollapseUnfold(t, c);
  }

  method RemoveDuplicatedChar(a: array<char>, lo: nat, c: char, ghost s: string, ghost term: nat)
    requires Holds(a, lo, s, term)
    modifies a
    ensures Holds(a, lo, Collapse(s, c), term) && OutsideUnchanged(a, lo, term)
    decreases |s|
  {
    hide Collapse, Holds;
    HeldAt(a, lo, s, term);
    CollapseUnfold(s, c);
    if a[lo] == NUL { return; }
    ghost var t := s;
    if a[lo] == a[lo + 1] && a[lo] == c {
      ShiftLeft(a, lo, s, term);
      RemoveDuplicatedChar(a, lo, c, s[1..], term);
      t := Collapse(s[1..], c);
      Collapsed(s[1..], c);
      assert Collapse(s, c) == t;
      HeldAt(a, lo, t, term);
    }
    ghost var tail := t[1..];
    Tail(a, lo, t, term);
    label before:
    RemoveDuplicatedChar(a, lo + 1, c, tail, term);
    assert a[lo] == old@before(a[lo]) by { assert a[..lo + 1][lo] == old@before(a[..lo + 1])[lo]; }
    assert Collapse(s, c) == [t[0]] + Collapse(tail, c);
    Prepend(a, lo, t[0], Collapse(tail, c), term);
  }

  /** The first two bytes of the string, or its terminator. */
  lemma HeldAt(a: array<char>, lo: nat, s: string, term: nat)
    requires Holds(a, lo, s, term)
    ensures lo <= term < a.Length && (a[lo] == NUL <==> s == "")
    ensures s != "" ==> lo < term && a[lo] == s[0] != NUL && a[lo + 1] == if |s| > 1 then s[1] else NUL
  {
    assert |s| > 0 ==> a[lo..lo + |s|][0] == s[0];
    assert |s| > 1 ==> a[lo..lo + |s|][1] == s[1];
  }

  /** What isspace() accepts in the C locale. */
  predicate IsSpace(c: char) {
    c == ' ' || '\t' <= c <= '\r'
  }

  /** Cuts the white space at the end. */
  method TrimTail(a: array<char>, ghost s: string) returns (l: nat)
    requires Holds(a, 0, s, |s|)
    modifies a
    ensures l == End(s, IsSpace) && Holds(a, 0, s[..l], l) && a[|s| + 1..] == old(a[|s| + 1..])
  {
    l := StrLen(a, s);
    assert forall i :: 0 <= i < |s| ==> a[i] == s[i] by { assert forall i :: 0 <= i < |s| ==> a[0..|s|][i] == s[i]; }
    while l > 0 && IsSpace(a[l - 1])
      invariant l <= |s| && a[l] == NUL && a[|s| + 1..] == old(a[|s| + 1..])
      invariant forall i :: 0 <= i < l ==> a[i] == s[i]
      invariant forall i :: l <= i < |s| ==> IsSpace(s[i])
    {
      l := l - 1;
      a[l] := NUL;
    }
    EndIs(s, IsSpace, l);
    assert a[0..l] == s[..l];
  }

  /** Cuts the white space at both ends and moves the rest to the start of the buffer. */
  method TrimInPlace(a: array<char>, ghost s: string)
    requires Holds(a, 0, s, |s|)
    modifies a
    ensures Holds(a, 0, Trim(s, IsSpace), |Trim(s, IsSpace)|) && a[|s| + 1..] == old(a[|s| + 1..])
  {
    hide Start, End;
    var l := TrimTail(a, s);
    ghost var u := s[..l];
    assert forall i :: 0 <= i < l ==> a[i] == u[i] by { assert forall i :: 0 <= i < l ==> a[0..l][i] == u[i]; }
    var p := 0;
    while a[p] != NUL && IsSpace(a[p])
      invariant p <= l && forall i :: 0 <= i < p ==> IsSpace(u[i])
      decreases l - p
    {
      p := p + 1;
    }
    StartIs(u, IsSpace, p);
    MoveDown(a, p, l, u);
  }

  /** Moves what stands from p on, with its terminator at l, to the start of the buffer. */
  method MoveDown(a: array<char>, p: nat, l: nat, ghost u: string)
    requires Holds(a, 0, u, l) && p <= l == |u|
    modifies a
    ensures Holds(a, 0, u[p..], |u[p..]|) && forall i :: l < i < a.Length ==> a[i] == old(a[i])
  {
    ghost var buf := a[..];
    assert buf[0..l] == u;
    forall i | 0 <= i <= l - p {
      a[i] := a[p + i];
    }
    assert a[0..l - p] == buf[p..l] == buf[0..l][p..];
  }

  /** A token stands at p, with its terminator. */
  predicate TokenAt(buf: seq<char>, p: nat, t: string) {
    p + |t| < |buf| && buf[p..p + |t|] == t && buf[p + |t|] == NUL
  }

  method CountDelimiters(a: array<char>, c: char, ghost u: string, ghost term: nat) returns (n: nat)
    requires Holds(a, 0, u, term)
    ensures n == Count(u, c)
  {
    n := 0;
    var i := 0;
    assert u[0..] == u;
    assert forall k :: 0 <= k < |u| ==> a[k] == u[k] by { assert forall k :: 0 <= k < |u| ==> a[0..|u|][k] == u[k]; }
    while a[i] != NUL
      invariant i <= |u| && n + Count(u[i..], c) == Count(u, c)
      decreases |u| - i
    {
      assert u[i..][1..] == u[i + 1..];
      if a[i] == c { n := n + 1; }
      i := i + 1;
    }
    assert u[i..] == "";
  }

  /** The first delimiter or terminator from p on. */
  method FindDelimiter(a: array<char>, p: nat, c: char, ghost rest: string, ghost term: nat) returns (e: nat)
    requires Holds(a, p, rest, term)
    ensures e < a.Length && (e < p + |rest| ==> e + 1 < a.Length)
    ensures e == p + FirstOf(rest, c) && a[e] == if e < p + |rest| then c else NUL
  {
    e := p;
    while a[e] != NUL && a[e] != c
      invariant p <= e <= p + |rest| && forall i :: 0 <= i < e - p ==> rest[i] != c
      decreases p + |rest| - e
    {
      assert e < p + |rest| ==> a[e] == a[p..p + |rest|][e - p] == rest[e - p];
      e := e + 1;
    }
    assert e < p + |rest| ==> a[e] == a[p..p + |rest|][e - p] == rest[e - p];
  }

  /** The tokens stand at their places, all of them below the limit. */
  ghost predicate Placed(buf: seq<char>, starts: seq<nat>, ts: seq<string>, limit: nat) {
    |starts| == |ts| && forall k :: 0 <= k < |ts| ==> starts[k] + |ts[k]| < limit && TokenAt(buf, starts[k], ts[k])
  }

  lemma PlacedStays(buf: seq<char>, buf': seq<char>, starts: seq<nat>, ts: seq<string>, limit: nat)
    requires Placed(buf, starts, ts, limit) && limit <= |buf| == |buf'| && buf[..limit] == buf'[..limit]
    ensures Placed(buf', starts, ts, limit)
  {
    forall k | 0 <= k < |ts| ensures TokenAt(buf', starts[k], ts[k]) {
      var lo, hi := starts[k], starts[k] + |ts[k]|;
      assert buf'[lo..hi] == buf'[..limit][lo..hi] == buf[..limit][lo..hi] == buf[lo..hi];
      assert buf'[hi] == buf'[..limit][hi] == buf[..limit][hi];
    }
  }

  lemma PlacedOneMore(buf: seq<char>, starts: seq<nat>, ts: seq<string>, limit: nat, p: nat, t: string, limit': nat)
    requires Placed(buf, starts, ts, limit) && TokenAt(buf, p, t) && limit <= limit' && p + |t| < limit'
    ensures Placed(buf, starts + [p], ts + [t], limit')
  {}

  lemma HeldParts(buf: seq<char>, p: nat, e: nat, rest: string)
    requires p <= e < p + |rest| < |buf| && buf[p..p + |rest|] == rest
    ensures buf[p..e] == rest[..e - p] && buf[e + 1..p + |rest|] == rest[e - p + 1..]
    ensures e + 1 < p + |rest| ==> buf[e + 1] == rest[e - p + 1]
  {
    assert buf[p..e] == buf[p..p + |rest|][..e - p];
    assert buf[e + 1..p + |rest|] == buf[p..p + |rest|][e - p + 1..];
    assert e + 1 < p + |rest| ==> buf[e + 1] == buf[p..p + |rest|][e - p + 1];
  }

  /** Ends the token at p by overwriting the delimiter at e. */
  method CutToken(a: array<char>, p: nat, e: nat, ghost rest: string, ghost term: nat, ghost starts: seq<nat>, ghost done: seq<string>)
    requires Holds(a, p, rest, term) && p <= e < p + |rest| && Placed(a[..], starts, done, p)
    modifies a
    ensures a[e] == NUL && forall i :: 0 <= i < a.Length && i != e ==> a[i] == old(a[i])
    ensures Holds(a, e + 1, rest[e - p + 1..], term)
    ensures a[e + 1] == NUL <==> rest[e - p + 1..] == ""
    ensures a[term + 1..] == old(a[term + 1..])
    ensures Placed(a[..], starts + [p], done + [rest[..e - p]], e + 1)
  {
    hide Placed;
    ghost var buf := a[..];
    HeldParts(buf, p, e, rest);
    a[e] := NUL;
    assert a[p..e] == a[..][p..e] == buf[p..e] == rest[..e - p];
    assert a[e + 1..p + |rest|] == buf[e + 1..p + |rest|];
    assert a[e + 1] == buf[e + 1] && a[p + |rest|] == buf[p + |rest|];
    PlacedStays(buf, a[..], starts, done, p);
    PlacedOneMore(a[..], starts, done, p, p, rest[..e - p], e + 1);
  }

  lemma TokensUnfold(s: string, c: char)
    ensures var k := FirstOf(s, c);
            Tokens(s, c) == if k == |s| then [s] else if k + 1 == |s| then [s[..k]] else [s[..k]] + Tokens(s[k + 1..], c)
  {
    hide FirstOf;
  }

  lemma TokensStep(s: string, c: char, done: seq<string>)
    ensures var k := FirstOf(s, c);
            && (k == |s| ==> Tokens(s, c) == [s])
            && (k + 1 == |s| ==> Tokens(s, c) == [s[..k]])
            && (k + 1 < |s| ==> done + Tokens(s, c) == done + [s[..k]] + Tokens(s[k + 1..], c))
  {
    hide Tokens, FirstOf;
    var k := FirstOf(s, c);
    TokensUnfold(s, c);
    if k + 1 < |s| { assert done + ([s[..k]] + Tokens(s[k + 1..], c)) == done + [s[..k]] + Tokens(s[k + 1..], c); }
  }

  /** Fills the vector with the places of the tokens, ending each of them with NUL. */
  method FillVector(a: array<char>, vector: array<nat>, ofs: nat, c: char, ghost u: string, ghost term: nat) returns (len: nat)
    requires Holds(a, 0, u, term) && ofs + |Tokens(u, c)| <= vector.Length
    modifies a, vector
    ensures ofs <= len <= vector.Length && a[term + 1..] == old(a[term + 1..]) && vector[..ofs] == old(vector[..ofs])
    ensures Placed(a[..], vector[ofs..len], Tokens(u, c), a.Length)
  {
    hide Tokens, FirstOf, Placed, TokenAt, Holds;
    HeldAt(a, 0, u, term);
    var p: nat := 0;
    AppendEntry(vector, ofs, ofs, p);
    len := ofs + 1;
    ghost var done: seq<string>, rest, last := [], u, "";
    ghost var starts: seq<nat> := [];
    assert [] + Tokens(u, c) == Tokens(u, c);
    PlacedNothing(a[..], p);
    while true
      invariant Holds(a, p, rest, term) && a[term + 1..] == old(a[term + 1..]) && vector[..ofs] == old(vector[..ofs])
      invariant len == ofs + |done| + 1 <= vector.Length
      invariant vector[ofs..len] == starts + [p] && Placed(a[..], starts, done, p)
      invariant Tokens(u, c) == done + Tokens(rest, c)
      decreases |rest|
    {
      var e := FindDelimiter(a, p, c, rest, term);
      TokensStep(rest, c, done);
      last := rest[..FirstOf(rest, c)];
      if a[e] == NUL {
        HeldFree(a, p, rest, term);
        assert rest == last;
        HeldToken(a, p, rest, term);
        PlacedOneMore(a[..], starts, done, p, p, last, a.Length);
        break;
      }
      CutToken(a, p, e, rest, term, starts, done);
      if a[e + 1] == NUL {
        PlacedBelow(a[..], starts + [p], done + [last], e + 1, a.Length);
        break;
      }
      done, rest, starts := done + [last], rest[|last| + 1..], starts + [p];
      p := e + 1;
      AppendEntry(vector, ofs, len, p);
      len := len + 1;
    }
  }

  lemma HeldFree(a: array<char>, p: nat, rest: string, term: nat)
    requires Holds(a, p, rest, term)
    ensures NUL !in rest
  {}

  lemma HeldToken(a: array<char>, p: nat, rest: string, term: nat)
    requires Holds(a, p, rest, term)
    ensures TokenAt(a[..], p, rest) && p + |rest| < a.Length
  {
    assert a[..][p..p + |rest|] == a[p..p + |rest|];
  }

  method AppendEntry(vector: array<nat>, ofs: nat, len: nat, p: nat)
    requires ofs <= len < vector.Length
    modifies vector
    ensures vector[ofs..len + 1] == old(vector[ofs..len]) + [p] && vector[..ofs] == old(vector[..ofs])
  {
    vector[len] := p;
  }

  lemma PlacedNothing(buf: seq<char>, limit: nat)
    ensures Placed(buf, [], [], limit)
  {}

  lemma PlacedBelow(buf: seq<char>, starts: seq<nat>, ts: seq<string>, limit: nat, limit': nat)
    requires Placed(buf, starts, ts, limit) && limit <= limit'
    ensures Placed(buf, starts, ts, limit')
  {}

  /**
   Splits the string at the start of the buffer into its tokens, in place. The vector gets room for as
   many entries as there are delimiters, one and plus; the first ofs of them are left alone.
   */
  method Split(a: array<char>, c: char, plus: nat, ofs: nat, ghost s: string) returns (vector: array<nat>, len: nat)
    requires Holds(a, 0, s, |s|) && ofs <= plus
    modifies a
    ensures a[|s| + 1..] == old(a[|s| + 1..]) && fresh(vector)
    ensures vector.Length == 1 + Count(Collapse(s, c), c) + plus && ofs <= len <= vector.Length
    ensures Placed(a[..], vector[ofs..len], Tokens(Collapse(s, c), c), a.Length)
  {
    ghost var u, term := Collapse(s, c), |s|;
    RemoveDuplicatedChar(a, 0, c, s, term);
    var numTokens := CountDelimiters(a, c, u, term);
    vector := new nat[1 + numTokens + plus];
    TokensFit(u, c);
    len := FillVector(a, vector, ofs, c, u, term);
  }
}
