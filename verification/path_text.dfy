/** Path strings: the tokens strtok finds in them, and the path a list of names makes. */
module PathText {
  import opened Bytes

  type Token = seq<byte>

  predicate NoSlash(t: Token) {
    forall i :: 0 <= i < |t| ==> t[i] != SLASH
  }

  const Here: Token := [DOT]
  const Up: Token := [DOT, DOT]

  predicate IsPlain(t: Token) {
    t != [] && t != Here && t != Up && NoSlash(t) && IsText(t)
  }

  // ---------- path strings ----------

  /** What strtok(path, "/") yields. */
  function Tokens(s: seq<byte>): (ts: seq<Token>)
    decreases |s|
  {
    if s == [] then []
    else if s[0] == SLASH then Tokens(s[1..])
    else
      var n := IndexOf(s, SLASH);
      [s[..n]] + Tokens(s[n..])
  }

  function Joined(comps: seq<Token>): seq<byte> {
    if comps == [] then [] else Joined(comps[..|comps| - 1]) + [SLASH] + comps[|comps| - 1]
  }

  /** The current_path string of a stack of names. */
  function Render(comps: seq<Token>): seq<byte> {
    if comps == [] then [SLASH] else Joined(comps)
  }

  /** Where the last slash is. */
  function LastSlash(s: seq<byte>): (i: int)
    ensures -1 <= i < |s| && (i >= 0 ==> s[i] == SLASH) && forall k :: i < k < |s| ==> s[k] != SLASH
  {
    if s == [] then -1 else if s[|s| - 1] == SLASH then |s| - 1 else LastSlash(s[..|s| - 1])
  }

  lemma IndexOfToken(t: Token, rest: seq<byte>)
    requires NoSlash(t) && (rest == [] || rest[0] == SLASH)
    ensures IndexOf(t + rest, SLASH) == |t|
  {
    var s := t + rest;
    assert forall k :: 0 <= k < |t| ==> s[k] == t[k];
    assert rest != [] ==> s[|t|] == rest[0];
  }

  /** Tokens of a joined path: the names it was joined from. */
  lemma {:induction false} TokensOfJoined(comps: seq<Token>, rest: seq<byte>)
    requires forall i :: 0 <= i < |comps| ==> IsPlain(comps[i])
    requires rest == [] || rest[0] == SLASH
    ensures Tokens(Joined(comps) + rest) == comps + Tokens(rest)
    decreases |comps|
  {
    if comps != [] {
      var init, last := comps[..|comps| - 1], comps[|comps| - 1];
      var tail := [SLASH] + last + rest;
      assert IsPlain(last) && forall i :: 0 <= i < |init| ==> init[i] == comps[i];
      TokensOfJoined(init, tail);
      JoinedSplits(comps, rest);
      TokensOfOne(last, rest);
      SplitLast(comps, Tokens(rest));
    } else {
      assert Joined(comps) + rest == rest;
    }
  }

  lemma JoinedSplits(comps: seq<Token>, rest: seq<byte>)
    requires comps != []
    ensures Joined(comps) + rest == Joined(comps[..|comps| - 1]) + ([SLASH] + comps[|comps| - 1] + rest)
  {
    var init, last := Joined(comps[..|comps| - 1]), comps[|comps| - 1];
    Reassociate(init, [SLASH], last, rest);
  }

  lemma Reassociate(a: seq<byte>, b: seq<byte>, c: seq<byte>, d: seq<byte>)
    ensures (a + b + c) + d == a + (b + c + d)
  {
  }

  lemma SplitLast(comps: seq<Token>, rest: seq<Token>)
    requires comps != []
    ensures comps + rest == comps[..|comps| - 1] + ([comps[|comps| - 1]] + rest)
  {
  }

  lemma TokensOfOne(t: Token, rest: seq<byte>)
    requires t != [] && NoSlash(t) && (rest == [] || rest[0] == SLASH)
    ensures Tokens([SLASH] + t + rest) == [t] + Tokens(rest)
  {
    var s := t + rest;
    assert ([SLASH] + t + rest)[1..] == s;
    assert s[0] == t[0];
    IndexOfToken(t, rest);
    assert s[..|t|] == t && s[|t|..] == rest;
  }

  /** Two paths put together have the names of both. */
  lemma TokensApart(a: seq<byte>, b: seq<byte>)
    ensures Tokens(a + [SLASH] + b) == Tokens(a) + Tokens(b)
  {
    var rest := [SLASH] + b;
    assert rest[1..] == b;
    TokensThen(a, rest);
    assert a + rest == a + [SLASH] + b;
  }

  lemma {:induction false} TokensThen(a: seq<byte>, rest: seq<byte>)
    requires rest != [] && rest[0] == SLASH
    ensures Tokens(a + rest) == Tokens(a) + Tokens(rest)
    decreases |a|
  {
    if a == [] {
      assert a + rest == rest;
    } else if a[0] == SLASH {
      assert (a + rest)[1..] == a[1..] + rest;
      TokensThen(a[1..], rest);
    } else {
      var n := IndexOf(a, SLASH);
      IndexKept(a, rest);
      SplitsAt(a, rest, n);
      TokensThen(a[n..], rest);
      FirstToken(a, n, a[..n], a[n..]);
      FirstToken(a + rest, n, a[..n], a[n..] + rest);
    }
  }

  lemma SplitsAt(a: seq<byte>, rest: seq<byte>, n: nat)
    requires n <= |a|
    ensures (a + rest)[..n] == a[..n] && (a + rest)[n..] == a[n..] + rest
  {
  }

  lemma FirstToken(s: seq<byte>, n: nat, t: Token, rest: seq<byte>)
    requires s != [] && s[0] != SLASH && n == IndexOf(s, SLASH) && t == s[..n] && rest == s[n..]
    ensures Tokens(s) == [t] + Tokens(rest)
  {
  }

  lemma {:induction false} IndexKept(a: seq<byte>, rest: seq<byte>)
    requires rest != [] && rest[0] == SLASH
    ensures IndexOf(a + rest, SLASH) == IndexOf(a, SLASH)
  {
    if a != [] && a[0] != SLASH {
      assert (a + rest)[1..] == a[1..] + rest;
      IndexKept(a[1..], rest);
    } else if a == [] {
      assert a + rest == rest;
    }
  }

  /** One name is its own token. */
  lemma OneToken(t: Token)
    requires t != [] && NoSlash(t)
    ensures Tokens(t) == [t]
  {
    assert t[..|t|] == t && t[|t|..] == [];
  }

  lemma JoinedEmpty(comps: seq<Token>)
    ensures |Joined(comps)| == 0 <==> comps == []
  {
  }

  /** Tokens are what strtok can yield. */
  lemma {:induction false} TokensPlain(s: seq<byte>)
    requires IsText(s)
    ensures forall i :: 0 <= i < |Tokens(s)| ==> Tokens(s)[i] != [] && NoSlash(Tokens(s)[i]) && IsText(Tokens(s)[i])
    decreases |s|
  {
    if s != [] {
      if s[0] == SLASH {
        TokensPlain(s[1..]);
      } else {
        var n := IndexOf(s, SLASH);
        TokensPlain(s[n..]);
      }
    }
  }

  /** strtok: the next token and what follows it. */
  method NextToken(rest0: seq<byte>) returns (token: Token, rest: seq<byte>)
    requires IsText(rest0)
    ensures token == [] ==> Tokens(rest0) == []
    ensures token != [] ==> NoSlash(token) && Tokens(rest0) == [token] + Tokens(rest)
    ensures IsText(token) && IsText(rest) && |token| + |rest| <= |rest0|
  {
    rest := rest0;
    while rest != [] && rest[0] == SLASH
      invariant Tokens(rest) == Tokens(rest0) && IsText(rest) && |rest| <= |rest0|
    {
      rest := rest[1..];
    }
    var n := 0;
    while n < |rest| && rest[n] != SLASH
      invariant 0 <= n <= |rest| && forall k :: 0 <= k < n ==> rest[k] != SLASH
    {
      n := n + 1;
    }
    assert n == IndexOf(rest, SLASH);
    token, rest := rest[..n], rest[n..];
  }
}
