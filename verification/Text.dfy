/**
 The values that the in-place string routines compute.
 */
module Text {

  /** The text without any c. */
  function DropAll(s: string, c: char): (r: string)
    ensures |r| <= |s| && c !in r
  {
    if s == "" then ""
    else if s[0] == c then DropAll(s[1..], c)
    else [s[0]] + DropAll(s[1..], c)
  }

  lemma {:induction false} DropAllKeeps(s: string, c: char)
    requires c !in s
    ensures DropAll(s, c) == s
  {
    if s != "" { DropAllKeeps(s[1..], c); }
  }

  lemma DropAllUnfold(s: string, c: char)
    ensures DropAll(s, c) == if s == "" then "" else (if s[0] == c then "" else [s[0]]) + DropAll(s[1..], c)
  {
    if s != "" && s[0] == c { assert "" + DropAll(s[1..], c) == DropAll(s[1..], c); }
  }

  /** What is dropped depends on no context: with DropAllKeeps, exactly the c go and the rest keeps its order. */
  lemma {:induction false} DropAllAppends(s: string, t: string, c: char)
    ensures DropAll(s + t, c) == DropAll(s, c) + DropAll(t, c)
  {
    hide DropAll;
    DropAllUnfold(s, c);
    DropAllUnfold(s + t, c);
    if s == "" {
      assert s + t == t;
    } else {
      DropAllAppends(s[1..], t, c);
      assert (s + t)[1..] == s[1..] + t && (s + t)[0] == s[0];
      var kept := if s[0] == c then "" else [s[0]];
      assert kept + (DropAll(s[1..], c) + DropAll(t, c)) == kept + DropAll(s[1..], c) + DropAll(t, c);
    }
  }

  predicate NoPair(s: string, c: char) {
    forall i :: 0 <= i < |s| - 1 ==> !(s[i] == c && s[i + 1] == c)
  }

  /** The text with each run of c reduced to one. */
  function Collapse(s: string, c: char): (r: string)
    ensures |r| <= |s| && (s != "" ==> r != "" && r[0] == s[0])
  {
    if |s| < 2 then s
    else if s[0] == c && s[1] == c then Collapse(s[1..], c)
    else [s[0]] + Collapse(s[1..], c)
  }

  /** No two c remain side by side, only c is removed, and a text without doubled c is left alone. */
  lemma {:induction false} CollapseIsExact(s: string, c: char)
    ensures NoPair(Collapse(s, c), c) && DropAll(Collapse(s, c), c) == DropAll(s, c)
    ensures NoPair(s, c) <==> Collapse(s, c) == s
  {
    if |s| >= 2 {
      CollapseIsExact(s[1..], c);
      assert NoPair(s, c) ==> NoPair(s[1..], c) by {
        assert forall i :: 0 <= i < |s[1..]| ==> s[1..][i] == s[i + 1];
      }
      if s[0] == c && s[1] == c {
        assert !NoPair(s, c);
      } else {
        var r := Collapse(s[1..], c);
        assert ([s[0]] + r)[1..] == r;
        if Collapse(s, c) == s {
          assert r == s[1..];
          forall i | 0 <= i < |s| - 1 ensures !(s[i] == c && s[i + 1] == c) {
            if i > 0 { assert s[1..][i - 1] == s[i] && s[1..][i] == s[i + 1]; }
          }
        }
      }
    }
  }

  /** A run of c, however long, becomes one c, and what follows it is collapsed on its own. */
  lemma {:induction false} CollapseOfRun(n: nat, rest: string, c: char)
    requires n > 0 && (rest == "" || rest[0] != c)
    ensures Collapse(Run(n, c) + rest, c) == [c] + Collapse(rest, c)
  {
    var s := Run(n, c) + rest;
    assert s[1..] == Run(n - 1, c) + rest;
    if n > 1 { CollapseOfRun(n - 1, rest, c); }
  }

  function Run(n: nat, c: char): (s: string)
    ensures |s| == n && forall i :: 0 <= i < n ==> s[i] == c
  {
    seq(n, _ => c)
  }

  // ---------------------------------------------------------------------------------------------
  // Trimming
  // ---------------------------------------------------------------------------------------------

  /** Where the text starts, after its leading blanks. */
  function Start(s: string, blank: char -> bool): (k: nat)
    ensures k <= |s| && (forall i :: 0 <= i < k ==> blank(s[i])) && (k < |s| ==> !blank(s[k]))
  {
    if s == "" || !blank(s[0]) then 0 else 1 + Start(s[1..], blank)
  }

  /** Where the text ends, before its trailing blanks. */
  function End(s: string, blank: char -> bool): (k: nat)
    ensures k <= |s| && (forall i :: k <= i < |s| ==> blank(s[i])) && (k > 0 ==> !blank(s[k - 1]))
  {
    if s == "" || !blank(s[|s| - 1]) then |s| else End(s[..|s| - 1], blank)
  }

  function Trim(s: string, blank: char -> bool): string {
    var u := s[..End(s, blank)];
    u[Start(u, blank)..]
  }

  lemma StartIs(s: string, blank: char -> bool, k: nat)
    requires k <= |s| && (forall i :: 0 <= i < k ==> blank(s[i])) && (k < |s| ==> !blank(s[k]))
    ensures Start(s, blank) == k
  {
    assert Start(s, blank) >= k;
  }

  lemma EndIs(s: string, blank: char -> bool, k: nat)
    requires k <= |s| && (forall i :: k <= i < |s| ==> blank(s[i])) && (k > 0 ==> !blank(s[k - 1]))
    ensures End(s, blank) == k
  {
    var j := End(s, blank);
    assert k > 0 ==> !blank(s[k - 1]);
    assert j > 0 ==> !blank(s[j - 1]);
  }

  /** Only blanks at the ends go, and all of them. A trimmed text is left alone. */
  lemma TrimIsExact(s: string, blank: char -> bool) returns (from: nat, to: nat)
    ensures from <= to <= |s| && Trim(s, blank) == s[from..to]
    ensures forall i :: 0 <= i < from || to <= i < |s| ==> blank(s[i])
    ensures var r := Trim(s, blank); (r != "" ==> !blank(r[0]) && !blank(r[|r| - 1])) && Trim(r, blank) == r
  {
    hide Start, End;
    to := End(s, blank);
    from := Start(s[..to], blank);
    var r := s[from..to];
    assert r == s[..to][from..];
    assert forall i :: 0 <= i < from ==> s[i] == s[..to][i];
    if from < to {
      assert r[0] == s[..to][from] && r[|r| - 1] == s[to - 1];
      StartIs(r, blank, 0);
      EndIs(r, blank, |r|);
    }
    assert r[..|r|] == r;
  }

  // ---------------------------------------------------------------------------------------------
  // Tokens
  // ---------------------------------------------------------------------------------------------

  function FirstOf(s: string, c: char): (k: nat)
    ensures k <= |s| && (forall i :: 0 <= i < k ==> s[i] != c) && (k < |s| ==> s[k] == c)
  {
    if s == "" || s[0] == c then 0 else 1 + FirstOf(s[1..], c)
  }

  lemma FirstOfIs(s: string, c: char, k: nat)
    requires k <= |s| && (forall i :: 0 <= i < k ==> s[i] != c) && (k < |s| ==> s[k] == c)
    ensures FirstOf(s, c) == k
  {
    assert FirstOf(s, c) >= k;
  }

  /** The tokens between delimiters; a delimiter at the very end starts no token. */
  function Tokens(s: string, c: char): (ts: seq<string>)
    ensures ts != []
    decreases |s|
  {
    var k := FirstOf(s, c);
    if k == |s| then [s]
    else if k + 1 == |s| then [s[..k]]
    else [s[..k]] + Tokens(s[k + 1..], c)
  }

  function Join(ts: seq<string>, c: char): string
    requires ts != []
  {
    if |ts| == 1 then ts[0] else ts[0] + [c] + Join(ts[1..], c)
  }

  function Count(s: string, c: char): nat {
    if s == "" then 0 else (if s[0] == c then 1 else 0) + Count(s[1..], c)
  }

  /** Joining the tokens gives the text back, minus at most one delimiter at its end. */
  lemma {:induction false} TokensJoin(s: string, c: char)
    ensures s == Join(Tokens(s, c), c) + (if s != "" && s[|s| - 1] == c then [c] else "")
    decreases |s|
  {
    hide FirstOf;
    var k := FirstOf(s, c);
    if k < |s| {
      assert s == s[..k] + [c] + s[k + 1..];
      if k + 1 < |s| {
        TokensJoin(s[k + 1..], c);
        assert Tokens(s, c)[1..] == Tokens(s[k + 1..], c);
        assert s[|s| - 1] == s[k + 1..][|s| - k - 2];
      }
    }
  }

  /** No token holds the delimiter. Without doubled delimiters, only the first one can be empty. */
  lemma {:induction false} TokensAreClean(s: string, c: char)
    ensures forall i :: 0 <= i < |Tokens(s, c)| ==> c !in Tokens(s, c)[i]
    ensures NoPair(s, c) ==> forall i :: 0 < i < |Tokens(s, c)| ==> Tokens(s, c)[i] != ""
    ensures NoPair(s, c) && s != "" && s[0] != c ==> Tokens(s, c)[0] != ""
    decreases |s|
  {
    var k := FirstOf(s, c);
    if k + 1 < |s| {
      TokensAreClean(s[k + 1..], c);
      if NoPair(s, c) {
        assert s[k + 1..][0] == s[k + 1] != c;
        var t := s[k + 1..];
        assert NoPair(t, c) by { assert forall i :: 0 <= i < |t| ==> t[i] == s[i + k + 1]; }
      }
    }
  }

  /** There are at most as many tokens as the count of delimiters allows for. */
  lemma {:induction false} TokensFit(s: string, c: char)
    ensures |Tokens(s, c)| <= 1 + Count(s, c)
    decreases |s|
  {
    var k := FirstOf(s, c);
    CountFrom(s, c, k);
    if k + 1 < |s| { TokensFit(s[k + 1..], c); }
  }

  lemma {:induction false} CountFrom(s: string, c: char, k: nat)
    requires k <= |s| && (forall i :: 0 <= i < k ==> s[i] != c) && (k < |s| ==> s[k] == c)
    ensures Count(s, c) == if k == |s| then 0 else 1 + Count(s[k + 1..], c)
  {
    if k > 0 {
      CountFrom(s[1..], c, k - 1);
      if k < |s| { assert s[1..][k..] == s[k + 1..]; }
    }
  }

  /**
   Splitting, as a whole: the tokens of the collapsed text joined by the delimiter are that text, minus
   at most one delimiter at its end; every token is free of it, and every token but the first holds something.
   */
  lemma SplitInvertsJoin(s: string, c: char)
    ensures var u := Collapse(s, c); var ts := Tokens(u, c);
            && u == Join(ts, c) + (if u != "" && u[|u| - 1] == c then [c] else "")
            && (forall i :: 0 <= i < |ts| ==> c !in ts[i])
            && (forall i :: 0 < i < |ts| ==> ts[i] != "")
            && |ts| <= 1 + Count(u, c)
  {
    CollapseIsExact(s, c);
    TokensJoin(Collapse(s, c), c);
    TokensAreClean(Collapse(s, c), c);
    TokensFit(Collapse(s, c), c);
  }

  lemma {:induction false} JoinOneMore(ts: seq<string>, t: string, c: char)
    requires ts != []
    ensures Join(ts + [t], c) == Join(ts, c) + [c] + t
  {
    if |ts| > 1 {
      JoinOneMore(ts[1..], t, c);
      assert (ts + [t])[1..] == ts[1..] + [t];
      assert ts[0] + [c] + (Join(ts[1..], c) + [c] + t) == ts[0] + [c] + Join(ts[1..], c) + [c] + t;
    }
  }
}
