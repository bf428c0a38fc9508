/**
 * resolve_path: a path and a working directory made into one absolute path without "." and
 * "..", in bounded buffers, against the plain fold over all the names.
 */
module ResolvePath {
  import opened Common
  import opened Bytes
  import opened PathText

  const TEMP := 512
  const CAP := 128

  // ---------- the specification ----------

  /** The text the tokens are taken from. */
  function Whole(cwd: seq<byte>, input: seq<byte>): seq<byte> {
    if input != [] && input[0] == SLASH then input
    else if cwd != [] && cwd[|cwd| - 1] != SLASH then cwd + [SLASH] + input
    else cwd + input
  }

  /** One name: "." stays, ".." goes up, and above the root there is nothing. */
  function StepName(stack: seq<Token>, t: Token): Option<seq<Token>> {
    if t == Here then Some(stack)
    else if t == Up then (if stack == [] then None else Some(stack[..|stack| - 1]))
    else Some(stack + [t])
  }

  /** The full fold over all the names. */
  function Fold(stack: seq<Token>, ts: seq<Token>): Option<seq<Token>>
    decreases |ts|
  {
    if ts == [] then Some(stack)
    else
      match StepName(stack, ts[0])
      case None => None
      case Some(next) => Fold(next, ts[1..])
  }

  /** The same with the cap on the token array: the loop stops when it is full. */
  function Capped(stack: seq<Token>, ts: seq<Token>): Option<seq<Token>>
    decreases |ts|
  {
    if ts == [] || |stack| >= CAP then Some(stack)
    else
      match StepName(stack, ts[0])
      case None => None
      case Some(next) => Capped(next, ts[1..])
  }

  /** The token array never fills up. */
  predicate NeverFull(stack: seq<Token>, ts: seq<Token>)
    decreases |ts|
  {
    && |stack| < CAP
    && (ts != [] && StepName(stack, ts[0]).Some? ==> NeverFull(StepName(stack, ts[0]).value, ts[1..]))
  }

  /** What the code computes: None where it returns false for another reason than space. */
  function Resolved(cwd: seq<byte>, input: seq<byte>): Option<seq<Token>> {
    if input == [] || |Whole(cwd, input)| >= TEMP then None else Capped([], Tokens(Whole(cwd, input)))
  }

  predicate AllPlain(stack: seq<Token>) {
    forall i :: 0 <= i < |stack| ==> IsPlain(stack[i])
  }

  /** A path in normal form. */
  ghost predicate Canonical(path: seq<byte>) {
    exists comps :: AllPlain(comps) && path == Render(comps)
  }

  // ---------- where a path starts ----------

  /** An absolute input is taken by itself, any other behind the working directory. */
  lemma WholeTokens(cwd: seq<byte>, input: seq<byte>)
    ensures Tokens(Whole(cwd, input)) == if input != [] && input[0] == SLASH then Tokens(input) else Tokens(cwd) + Tokens(input)
  {
    if !(input != [] && input[0] == SLASH) {
      if cwd == [] {
        assert cwd + input == input;
      } else if cwd[|cwd| - 1] != SLASH {
        TokensApart(cwd, input);
      } else {
        var head := cwd[..|cwd| - 1];
        assert cwd == head + [SLASH] + [] && cwd + input == head + [SLASH] + input;
        TokensApart(head, []);
        TokensApart(head, input);
      }
    }
  }

  lemma {:induction false} CappedOn(stack: seq<Token>, comps: seq<Token>, ts: seq<Token>)
    requires AllPlain(comps) && |stack| + |comps| < CAP
    ensures Capped(stack, comps + ts) == Capped(stack + comps, ts)
    decreases |comps|
  {
    if comps == [] {
      assert comps + ts == ts && stack + comps == stack;
    } else {
      var all := comps + ts;
      assert all[0] == comps[0] && all[1..] == comps[1..] + ts;
      assert stack + comps == (stack + [comps[0]]) + comps[1..];
      CappedOn(stack + [comps[0]], comps[1..], ts);
    }
  }

  /** In the directory of a path in normal form, a name leads to that name in it, ".." to the directory
      above, which the root has none of, and "." to itself. */
  lemma OneName(comps: seq<Token>, t: Token)
    requires AllPlain(comps) && |comps| < CAP && |Render(comps)| + 1 + |t| < TEMP
    ensures IsPlain(t) ==> Resolved(Render(comps), t) == Some(comps + [t])
    ensures t == Up ==> Resolved(Render(comps), t) == if comps == [] then None else Some(comps[..|comps| - 1])
    ensures t == Here ==> Resolved(Render(comps), t) == Some(comps)
  {
    if IsPlain(t) || t == Up || t == Here {
      WholeTokens(Render(comps), t);
      TokensOfPath(comps);
      OneToken(t);
      CappedOn([], comps, [t]);
      assert [] + comps == comps && |Whole(Render(comps), t)| < TEMP;
      OneStep(comps, t);
    }
  }

  lemma OneStep(comps: seq<Token>, t: Token)
    requires |comps| < CAP
    ensures Capped(comps, [t]) == StepName(comps, t)
  {
    var ts := [t];
    assert ts[1..] == [];
  }

  // ---------- the cap ----------

  lemma {:induction false} CapAgrees(stack: seq<Token>, ts: seq<Token>)
    requires NeverFull(stack, ts)
    ensures Capped(stack, ts) == Fold(stack, ts)
    decreases |ts|
  {
    if ts != [] && StepName(stack, ts[0]).Some? {
      CapAgrees(StepName(stack, ts[0]).value, ts[1..]);
    }
  }

  /** If the array does fill up, it is full at the end. */
  lemma {:induction false} FullAtEnd(stack: seq<Token>, ts: seq<Token>)
    requires !NeverFull(stack, ts) && |stack| <= CAP && Capped(stack, ts).Some?
    ensures |Capped(stack, ts).value| == CAP
    decreases |ts|
  {
    if |stack| < CAP {
      FullAtEnd(StepName(stack, ts[0]).value, ts[1..]);
    }
  }

  /** Every name takes at least two characters. */
  lemma {:induction false} JoinedLong(stack: seq<Token>)
    requires AllPlain(stack)
    ensures |Joined(stack)| >= 2 * |stack|
    decreases |stack|
  {
    if stack != [] {
      JoinedLong(stack[..|stack| - 1]);
    }
  }

  lemma {:induction false} FoldPlain(stack: seq<Token>, ts: seq<Token>)
    requires AllPlain(stack)
    requires forall i :: 0 <= i < |ts| ==> ts[i] != [] && NoSlash(ts[i]) && IsText(ts[i])
    ensures Capped(stack, ts).Some? ==> AllPlain(Capped(stack, ts).value)
    decreases |ts|
  {
    if ts != [] && |stack| < CAP && StepName(stack, ts[0]).Some? {
      FoldPlain(StepName(stack, ts[0]).value, ts[1..]);
    }
  }

  lemma ResolvedPlain(cwd: seq<byte>, input: seq<byte>)
    requires IsText(cwd) && IsText(input)
    ensures Resolved(cwd, input).Some? ==> AllPlain(Resolved(cwd, input).value)
  {
    if input != [] {
      TokensPlain(Whole(cwd, input));
      FoldPlain([], Tokens(Whole(cwd, input)));
    }
  }

  /**
   * In a buffer of at most 256 bytes the cap does not show: whatever fits there has not filled
   * the token array, so it is the full fold.
   */
  lemma SmallBufferIsFold(cwd: seq<byte>, input: seq<byte>, size: nat)
    requires IsText(cwd) && IsText(input) && size <= 256
    requires Resolved(cwd, input).Some? && |Render(Resolved(cwd, input).value)| + 1 <= size
    ensures NeverFull([], Tokens(Whole(cwd, input)))
    ensures Fold([], Tokens(Whole(cwd, input))) == Resolved(cwd, input)
  {
    var ts := Tokens(Whole(cwd, input));
    ResolvedPlain(cwd, input);
    if NeverFull([], ts) {
      CapAgrees([], ts);
    } else {
      FullAtEnd([], ts);
      JoinedLong(Resolved(cwd, input).value);
      assert false;
    }
  }

  // ---------- normal forms ----------

  lemma {:induction false} FoldOfPlain(stack: seq<Token>, ts: seq<Token>)
    requires AllPlain(ts) && |stack| + |ts| < CAP
    ensures Capped(stack, ts) == Some(stack + ts)
    decreases |ts|
  {
    if ts == [] {
      assert stack + ts == stack;
    } else {
      FoldOfPlain(stack + [ts[0]], ts[1..]);
      assert stack + [ts[0]] + ts[1..] == stack + ts;
    }
  }

  lemma TokensOfPath(comps: seq<Token>)
    requires AllPlain(comps)
    ensures Tokens(Render(comps)) == comps
  {
    if comps == [] {
      assert Tokens([SLASH]) == Tokens([SLASH][1..]);
    } else {
      TokensOfJoined(comps, []);
      assert Joined(comps) + [] == Joined(comps) && comps + Tokens([]) == comps;
    }
  }

  lemma {:induction false} RenderStarts(comps: seq<Token>)
    ensures Render(comps) != [] && Render(comps)[0] == SLASH
  {
    if |comps| > 1 {
      RenderStarts(comps[..|comps| - 1]);
    } else if |comps| == 1 {
      assert Joined(comps[..0]) == [];
    }
  }

  /** What fits a small buffer resolves to itself, from wherever. */
  lemma Idempotent(cwd: seq<byte>, comps: seq<Token>)
    requires AllPlain(comps) && |Render(comps)| < 256
    ensures Resolved(cwd, Render(comps)) == Some(comps)
  {
    RenderStarts(comps);
    TokensOfPath(comps);
    JoinedLong(comps);
    FoldOfPlain([], comps);
    assert [] + comps == comps;
  }

  // ---------- beyond 256 bytes ----------

  const A: Token := [97]

  function Deep(n: nat): seq<Token> { seq(n, i => A) }

  lemma {:induction false} DeepLength(n: nat)
    ensures AllPlain(Deep(n)) && |Joined(Deep(n))| == 2 * n
  {
    if n > 0 {
      DeepLength(n - 1);
      assert Deep(n)[..n - 1] == Deep(n - 1);
    }
  }

  lemma {:induction false} DeepFolds(k: nat, n: nat, rest: seq<Token>)
    ensures k + n <= CAP ==> Capped(Deep(k), Deep(n) + rest) == Capped(Deep(k + n), rest)
    ensures Fold(Deep(k), Deep(n) + rest) == Fold(Deep(k + n), rest)
    decreases n
  {
    if n == 0 {
      assert Deep(0) + rest == rest && Deep(k + 0) == Deep(k);
    } else {
      var ts := Deep(n) + rest;
      assert ts[0] == A && ts[1..] == Deep(n - 1) + rest;
      assert Deep(k) + [A] == Deep(k + 1);
      DeepFolds(k + 1, n - 1, rest);
    }
  }

  /** "/a" 128 times and then "/..": with room for the answer, the code forgets the "..". */
  lemma CapShowsInLargeBuffer(cwd: seq<byte>)
    ensures var input := Joined(Deep(128)) + [SLASH] + Up;
            && |input| < TEMP && Resolved(cwd, input) == Some(Deep(128))
            && Fold([], Tokens(Whole(cwd, input))) == Some(Deep(127))
            && |Render(Deep(128))| + 1 == 257
  {
    var input := Joined(Deep(128)) + [SLASH] + Up;
    DeepLength(128);
    TokensOfJoined(Deep(128), [SLASH] + Up);
    TokensOfOne(Up, []);
    assert Joined(Deep(128)) + ([SLASH] + Up) == input && [SLASH] + Up + [] == [SLASH] + Up;
    assert input[0] == Render(Deep(128))[0];
    RenderStarts(Deep(128));
    var rest := [Up];
    assert [Up] + Tokens([]) == rest;
    assert Deep(0) == [];
    DeepFolds(0, 128, rest);
    assert Capped(Deep(128), rest) == Some(Deep(128));
    assert rest[1..] == [] && Deep(128)[..127] == Deep(127);
    assert Fold(Deep(128), rest) == Some(Deep(127));
  }

  // ---------- the code ----------

  /** The first part: the text in the temporary buffer, or failure when it does not fit. */
  method Assemble(cwd: seq<byte>, input: seq<byte>) returns (ok: bool, temp: seq<byte>)
    requires input != []
    ensures ok <==> |Whole(cwd, input)| < TEMP
    ensures ok ==> temp == Whole(cwd, input)
  {
    if input[0] == SLASH {
      if |input| >= TEMP {
        return false, [];
      }
      return true, input;
    }
    if |cwd| >= TEMP {
      return false, [];
    }
    temp := cwd;
    if |temp| > 0 && temp[|temp| - 1] != SLASH {
      if |temp| + 1 >= TEMP {
        return false, [];
      }
      temp := temp + [SLASH];
    }
    if |temp| + |input| >= TEMP {
      return false, [];
    }
    temp := temp + input;
    ok := true;
  }

  /** The token loop. */
  method Collect(temp: seq<byte>) returns (ok: bool, tokens: seq<Token>)
    requires IsText(temp)
    ensures ok <==> Capped([], Tokens(temp)).Some?
    ensures ok ==> Some(tokens) == Capped([], Tokens(temp))
  {
    tokens := [];
    var token, rest := NextToken(temp);
    while token != [] && |tokens| < CAP
      invariant IsText(rest) && |tokens| <= CAP
      invariant Capped([], Tokens(temp)) == Capped(tokens, Following(token, rest))
      decreases |rest| + |token|
    {
      NextName(tokens, token, rest);
      if token != Here {
        if token == Up {
          if |tokens| > 0 {
            tokens := tokens[..|tokens| - 1];
          } else {
            return false, [];
          }
        } else {
          tokens := tokens + [token];
        }
      }
      token, rest := NextToken(rest);
    }
    ok := true;
  }

  function Following(token: Token, rest: seq<byte>): seq<Token> { if token == [] then [] else [token] + Tokens(rest) }

  lemma NextName(stack: seq<Token>, token: Token, rest: seq<byte>)
    requires token != [] && |stack| < CAP
    ensures var next := StepName(stack, token);
            Capped(stack, Following(token, rest)) == if next.None? then None else Capped(next.value, Tokens(rest))
  {
    var ts := Following(token, rest);
    assert ts[0] == token && ts[1..] == Tokens(rest);
  }

  /** The bytes of a token copied into the output. */
  method CopyToken(token: Token, output: array<byte>, at: nat)
    requires at + |token| <= output.Length
    modifies output
    ensures output[..at] == old(output[..at]) && output[at..at + |token|] == token
    ensures output[..at + |token|] == old(output[..at]) + token
  {
    var i := 0;
    while i < |token|
      invariant 0 <= i <= |token| && output[..at] == old(output[..at]) && output[at..at + i] == token[..i]
    {
      output[at + i] := token[i];
      i := i + 1;
    }
    assert token[..i] == token;
    assert output[..at + |token|] == output[..at] + output[at..at + |token|];
  }

  /** One name, with a slash before it and a terminator behind. */
  method EmitOne(token: Token, output: array<byte>, at: nat) returns (used: nat)
    requires at + |token| + 2 <= output.Length
    modifies output
    ensures used == at + 1 + |token| && output[..used] == old(output[..at]) + [SLASH] + token && output[used] == 0
  {
    output[at] := SLASH;
    ghost var before := output[..at + 1];
    assert before == old(output[..at]) + [SLASH];
    CopyToken(token, output, at + 1);
    used := at + 1 + |token|;
    output[used] := 0;
    assert output[..used] == before + token;
  }

  /** The rendering loop. */
  method Emit(tokens: seq<Token>, output: array<byte>) returns (ok: bool)
    requires output.Length > 0
    modifies output
    ensures ok <==> |Render(tokens)| + 1 <= output.Length
    ensures ok ==> output[..|Render(tokens)|] == Render(tokens) && output[|Render(tokens)|] == 0
  {
    if |tokens| == 0 {
      if output.Length < 2 {
        return false;
      }
      output[0], output[1] := SLASH, 0;
      return true;
    }
    output[0] := 0;
    var used, i := 0, 0;
    JoinedEmpty(tokens);
    while i < |tokens|
      invariant 0 <= i <= |tokens| && used == |Joined(tokens[..i])| && used + 1 <= output.Length
      invariant output[..used] == Joined(tokens[..i]) && output[used] == 0
    {
      var token := tokens[i];
      JoinedNext(tokens, i);
      if used + |token| + 2 > output.Length {
        JoinedGrows(tokens, i + 1);
        return false;
      }
      used := EmitOne(token, output, used);
      i := i + 1;
    }
    assert tokens[..i] == tokens;
    ok := true;
  }

  lemma JoinedNext(tokens: seq<Token>, i: nat)
    requires i < |tokens|
    ensures Joined(tokens[..i + 1]) == Joined(tokens[..i]) + [SLASH] + tokens[i]
  {
    assert tokens[..i + 1][..i] == tokens[..i];
  }

  lemma {:induction false} JoinedGrows(tokens: seq<Token>, i: nat)
    requires i <= |tokens|
    ensures |Joined(tokens[..i])| <= |Joined(tokens)|
    decreases |tokens| - i
  {
    if i < |tokens| {
      JoinedNext(tokens, i);
      JoinedGrows(tokens, i + 1);
    } else {
      assert tokens[..i] == tokens;
    }
  }

  /**
   * resolve_path.  For a buffer of at most 256 bytes it returns true exactly when the input is
   * not empty, the text fits the temporary buffer, the full fold over all its names succeeds
   * without ever filling the token array, and the answer fits; the output then is that fold,
   * in normal form.
   */
  method Resolve(cwd: seq<byte>, input: seq<byte>, output: array<byte>) returns (ok: bool)
    requires IsText(cwd) && IsText(input)
    modifies output
    ensures ok <==> Resolved(cwd, input).Some? && |Render(Resolved(cwd, input).value)| + 1 <= output.Length
    ensures output.Length <= 256 ==> (ok <==> SmallAnswer(cwd, input, output.Length))
    ensures ok && output.Length <= 256 ==>
              var path := Render(Fold([], Tokens(Whole(cwd, input))).value);
              |path| < output.Length && output[..|path|] == path && output[|path|] == 0 && Canonical(path)
  {
    SmallAnswers(cwd, input, output.Length);
    if output.Length == 0 || input == [] {
      return false;
    }
    var temp, tokens;
    ok, temp := Assemble(cwd, input);
    if !ok {
      return;
    }
    ok, tokens := Collect(temp);
    if ok {
      ok := Emit(tokens, output);
    }
  }

  /** When a small buffer gets an answer. */
  ghost predicate SmallAnswer(cwd: seq<byte>, input: seq<byte>, size: nat) {
    var ts := Tokens(Whole(cwd, input));
    && input != [] && |Whole(cwd, input)| < TEMP
    && Fold([], ts).Some? && NeverFull([], ts)
    && |Render(Fold([], ts).value)| + 1 <= size
  }

  lemma SmallAnswers(cwd: seq<byte>, input: seq<byte>, size: nat)
    requires IsText(cwd) && IsText(input)
    ensures size <= 256 ==>
              (Resolved(cwd, input).Some? && |Render(Resolved(cwd, input).value)| + 1 <= size <==> SmallAnswer(cwd, input, size))
    ensures SmallAnswer(cwd, input, size) ==>
              Fold([], Tokens(Whole(cwd, input))) == Resolved(cwd, input) && Canonical(Render(Resolved(cwd, input).value))
  {
    if size <= 256 && Resolved(cwd, input).Some? && |Render(Resolved(cwd, input).value)| + 1 <= size {
      SmallBufferIsFold(cwd, input, size);
    }
    if SmallAnswer(cwd, input, size) {
      CapAgrees([], Tokens(Whole(cwd, input)));
      ResolvedPlain(cwd, input);
      var comps := Resolved(cwd, input).value;
      assert AllPlain(comps) && Render(comps) == Render(comps);
    }
  }

  /** Resolving an answer again, from any directory, into the same buffer gives it back. */
  lemma ResolveTwice(cwd: seq<byte>, cwd': seq<byte>, input: seq<byte>, size: nat)
    requires IsText(cwd) && IsText(input) && size <= 256 && SmallAnswer(cwd, input, size)
    ensures Resolved(cwd, input).Some?
    ensures var path := Render(Resolved(cwd, input).value);
            Resolved(cwd', path) == Resolved(cwd, input) && (IsText(cwd') ==> SmallAnswer(cwd', path, size))
  {
    SmallAnswers(cwd, input, size);
    ResolvedPlain(cwd, input);
    var comps := Resolved(cwd, input).value;
    Idempotent(cwd', comps);
    RenderText(comps);
    if IsText(cwd') {
      SmallAnswers(cwd', Render(comps), size);
    }
  }

  lemma {:induction false} JoinedText(comps: seq<Token>)
    requires AllPlain(comps)
    ensures IsText(Joined(comps))
    decreases |comps|
  {
    if comps != [] {
      JoinedText(comps[..|comps| - 1]);
    }
  }

  lemma RenderText(comps: seq<Token>)
    requires AllPlain(comps)
    ensures IsText(Render(comps))
  {
    JoinedText(comps);
  }
}
