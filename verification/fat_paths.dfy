/**
 * Paths and the working directory: fat16_chdir as string surgery on current_path and moves of
 * current_dir_cluster, against a stack of directory names.
 *
 * A directory tree is seen through `look`, which answers what a scan of directory cluster d
 * for a name finds.
 */
module FatPaths {
  import opened Common
  import opened Bytes
  import opened PathText

  const MAX_PATH := 256

  /** What a directory entry says: whether it is a directory, and its cluster. */
  datatype Node = Node(isDir: bool, cluster: nat)

  type Look = (nat, Token) -> Option<Node>

  // ---------- the specification: a stack of names ----------

  /** Walking the names from the root. */
  function Walk(look: Look, comps: seq<Token>): Option<nat> {
    if comps == [] then Some(0)
    else
      match Walk(look, comps[..|comps| - 1])
      case None => None
      case Some(d) => ChildDir(look, d, comps[|comps| - 1])
  }

  function ChildDir(look: Look, d: nat, t: Token): Option<nat> {
    match look(d, t)
    case None => None
    case Some(n) => if n.isDir then Some(n.cluster) else None
  }

  /** The room current_path must have for one more name. */
  predicate RoomFor(comps: seq<Token>, t: Token) { |Render(comps)| + |t| + 2 < MAX_PATH }

  function StepTo(look: Look, comps: seq<Token>, t: Token): Option<seq<Token>> {
    if t == Here then Some(comps)
    else if t == Up then Some(if comps == [] then [] else comps[..|comps| - 1])
    else if Walk(look, comps + [t]).Some? && RoomFor(comps, t) then Some(comps + [t])
    else None
  }

  function Go(look: Look, comps: seq<Token>, ts: seq<Token>): Option<seq<Token>>
    decreases |ts|
  {
    if ts == [] then Some(comps)
    else
      match StepTo(look, comps, ts[0])
      case None => None
      case Some(next) => Go(look, next, ts[1..])
  }

  /** The names of current_path: plain, and each was short enough to append. */
  ghost predicate GoodPath(comps: seq<Token>) {
    forall i {:trigger comps[..i]} :: 0 <= i < |comps| ==> IsPlain(comps[i]) && RoomFor(comps[..i], comps[i])
  }

  /** A directory that another one leads to leads back to it. */
  ghost predicate TreeOk(look: Look, dirs: set<nat>) {
    && 0 in dirs
    && forall d: nat, t: Token {:trigger look(d, t)} ::
         d in dirs && IsPlain(t) && ChildDir(look, d, t).Some? && ChildDir(look, d, t).value in dirs ==>
           HasParent(look, ChildDir(look, d, t).value, d)
  }

  ghost predicate HasParent(look: Look, c: nat, d: nat) {
    c != 0 && look(c, Up).Some? && look(c, Up).value.cluster == d
  }

  /** Directories lead only to directories among `dirs`. */
  ghost predicate TreeClosed(look: Look, dirs: set<nat>) {
    forall d: nat, t: Token {:trigger look(d, t)} ::
      d in dirs && IsPlain(t) && ChildDir(look, d, t).Some? ==> ChildDir(look, d, t).value in dirs
  }

  /** Every directory on the path is among `dirs`. */
  ghost predicate Inside(look: Look, dirs: set<nat>, comps: seq<Token>) {
    forall i: nat {:trigger comps[..i]} :: i <= |comps| ==> Walk(look, comps[..i]).Some? && Walk(look, comps[..i]).value in dirs
  }

  /** A walk stays among `dirs` as far as it gets. */
  ghost predicate GoInside(look: Look, dirs: set<nat>, comps: seq<Token>, ts: seq<Token>)
    decreases |ts|
  {
    && Inside(look, dirs, comps)
    && (ts != [] && StepTo(look, comps, ts[0]).Some? ==> GoInside(look, dirs, StepTo(look, comps, ts[0]).value, ts[1..]))
  }

  /** The working directory: current_path, walked from the root, reaches the cluster. */
  ghost predicate Standing(look: Look, comps: seq<Token>, dir: nat, path: seq<byte>) {
    GoodPath(comps) && Walk(look, comps) == Some(dir) && path == Render(comps)
  }

  // ---------- lemmas about the stack ----------

  lemma GoodPush(comps: seq<Token>, t: Token)
    requires GoodPath(comps) && IsPlain(t) && RoomFor(comps, t)
    ensures GoodPath(comps + [t])
  {
    var more := comps + [t];
    forall i | 0 <= i < |more| ensures IsPlain(more[i]) && RoomFor(more[..i], more[i]) {
      if i < |comps| {
        assert more[..i] == comps[..i];
      } else {
        assert more[..i] == comps;
      }
    }
  }

  lemma GoodPop(comps: seq<Token>)
    requires GoodPath(comps) && comps != []
    ensures GoodPath(comps[..|comps| - 1])
  {
    var less := comps[..|comps| - 1];
    forall i | 0 <= i < |less| ensures IsPlain(less[i]) && RoomFor(less[..i], less[i]) {
      assert less[..i] == comps[..i];
    }
  }

  lemma GoodPlain(comps: seq<Token>)
    requires GoodPath(comps)
    ensures forall i :: 0 <= i < |comps| ==> IsPlain(comps[i])
  {
    forall i | 0 <= i < |comps| ensures IsPlain(comps[i]) {
      assert comps[..i] == comps[..i];
    }
  }

  lemma GoodAt(comps: seq<Token>, i: nat)
    requires GoodPath(comps) && i < |comps|
    ensures IsPlain(comps[i]) && RoomFor(comps[..i], comps[i])
  {
    assert comps[..i] == comps[..i];
  }

  /** One step of the walk along a path. */
  lemma WalkOne(look: Look, comps: seq<Token>, n: nat)
    requires n < |comps|
    ensures Walk(look, comps[..n + 1]) ==
            if Walk(look, comps[..n]).None? then None else ChildDir(look, Walk(look, comps[..n]).value, comps[n])
  {
    var longer := comps[..n + 1];
    assert longer[..|longer| - 1] == comps[..n] && longer[|longer| - 1] == comps[n];
  }

  lemma InsideHere(look: Look, dirs: set<nat>, comps: seq<Token>)
    requires Inside(look, dirs, comps)
    ensures Walk(look, comps).Some? && Walk(look, comps).value in dirs
    ensures comps != [] ==> Walk(look, comps[..|comps| - 1]).Some? && Walk(look, comps[..|comps| - 1]).value in dirs
  {
    assert comps[..|comps|] == comps;
  }

  lemma InsidePop(look: Look, dirs: set<nat>, comps: seq<Token>)
    requires Inside(look, dirs, comps) && comps != []
    ensures Inside(look, dirs, comps[..|comps| - 1])
  {
    var less := comps[..|comps| - 1];
    forall i: nat | i <= |less| ensures Walk(look, less[..i]).Some? && Walk(look, less[..i]).value in dirs {
      assert less[..i] == comps[..i];
    }
  }

  lemma InsidePush(look: Look, dirs: set<nat>, comps: seq<Token>, t: Token)
    requires Inside(look, dirs, comps) && Walk(look, comps + [t]).Some? && Walk(look, comps + [t]).value in dirs
    ensures Inside(look, dirs, comps + [t])
  {
    var more := comps + [t];
    forall i: nat | i <= |more| ensures Walk(look, more[..i]).Some? && Walk(look, more[..i]).value in dirs {
      if i <= |comps| {
        assert more[..i] == comps[..i];
      } else {
        assert more[..i] == more;
      }
    }
  }

  lemma InsideRoot(look: Look, dirs: set<nat>)
    requires 0 in dirs
    ensures Inside(look, dirs, [])
  {
    var none: seq<Token> := [];
    assert none[..0] == none;
  }

  /** In a closed tree every walk stays inside. */
  lemma {:induction false} ClosedGoInside(look: Look, dirs: set<nat>, comps: seq<Token>, ts: seq<Token>)
    requires TreeClosed(look, dirs) && Inside(look, dirs, comps)
    requires forall i :: 0 <= i < |ts| ==> ts[i] != [] && NoSlash(ts[i]) && IsText(ts[i])
    ensures GoInside(look, dirs, comps, ts)
    decreases |ts|
  {
    if ts != [] && StepTo(look, comps, ts[0]).Some? {
      var next := StepTo(look, comps, ts[0]).value;
      StepInside(look, dirs, comps, ts[0]);
      ClosedGoInside(look, dirs, next, ts[1..]);
    }
  }

  lemma StepInside(look: Look, dirs: set<nat>, comps: seq<Token>, t: Token)
    requires TreeClosed(look, dirs) && Inside(look, dirs, comps)
    requires t != [] && NoSlash(t) && IsText(t) && StepTo(look, comps, t).Some?
    ensures Inside(look, dirs, StepTo(look, comps, t).value)
  {
    if t == Up {
      if comps != [] {
        InsidePop(look, dirs, comps);
      }
    } else if t != Here {
      InsideHere(look, dirs, comps);
      assert (comps + [t])[..|comps + [t]| - 1] == comps;
      InsidePush(look, dirs, comps, t);
    }
  }

  /** The ".." entry of the directory a path reaches names the directory one level up. */
  lemma UpLeadsBack(look: Look, dirs: set<nat>, comps: seq<Token>)
    requires TreeOk(look, dirs) && GoodPath(comps) && Inside(look, dirs, comps) && Walk(look, comps).Some?
    ensures comps == [] <==> Walk(look, comps) == Some(0)
    ensures comps != [] ==>
              var d := Walk(look, comps).value;
              look(d, Up).Some? && Walk(look, comps[..|comps| - 1]) == Some(look(d, Up).value.cluster)
  {
    InsideHere(look, dirs, comps);
    if comps != [] {
      GoodAt(comps, |comps| - 1);
      var d := Walk(look, comps[..|comps| - 1]).value;
      assert ChildDir(look, d, comps[|comps| - 1]) == Walk(look, comps);
      assert look(d, comps[|comps| - 1]).Some?;
    }
  }

  /** The last slash of a rendered path is where its last name was appended. */
  lemma CutsLast(comps: seq<Token>)
    requires GoodPath(comps) && comps != []
    ensures LastSlash(Render(comps)) == |Joined(comps[..|comps| - 1])| && |Render(comps)| > 1
    ensures Render(comps)[..|Joined(comps[..|comps| - 1])|] == Joined(comps[..|comps| - 1])
  {
    var init, t := comps[..|comps| - 1], comps[|comps| - 1];
    GoodPlain(comps);
    var s, at := Render(comps), |Joined(init)|;
    assert s == Joined(init) + [SLASH] + t;
    assert s[at] == SLASH;
    assert forall k :: at < k < |s| ==> s[k] == t[k - at - 1];
  }

  /** Walking a good path from the root arrives where it leads, whatever the start. */
  lemma {:induction false} GoFollows(look: Look, comps: seq<Token>, n: nat)
    requires GoodPath(comps) && Walk(look, comps).Some? && n <= |comps|
    ensures Go(look, comps[..n], comps[n..]) == Some(comps) && Walk(look, comps[..n]).Some?
    decreases |comps| - n
  {
    PrefixReached(look, comps, n);
    if n < |comps| {
      GoodAt(comps, n);
      PrefixReached(look, comps, n + 1);
      GoFollows(look, comps, n + 1);
      GoFirst(look, comps, n);
    } else {
      assert comps[..n] == comps;
    }
  }

  lemma GoFirst(look: Look, comps: seq<Token>, n: nat)
    requires n < |comps| && IsPlain(comps[n]) && RoomFor(comps[..n], comps[n]) && Walk(look, comps[..n + 1]).Some?
    ensures Go(look, comps[..n], comps[n..]) == Go(look, comps[..n + 1], comps[n + 1..])
  {
    assert comps[..n] + [comps[n]] == comps[..n + 1];
    var rest := comps[n..];
    assert rest[0] == comps[n] && rest[1..] == comps[n + 1..];
  }

  lemma {:induction false} PrefixReached(look: Look, comps: seq<Token>, n: nat)
    requires Walk(look, comps).Some? && n <= |comps|
    ensures Walk(look, comps[..n]).Some?
    decreases |comps|
  {
    if n < |comps| {
      assert comps[..|comps| - 1][..n] == comps[..n];
      PrefixReached(look, comps[..|comps| - 1], n);
    } else {
      assert comps[..n] == comps;
    }
  }

  /** A walk over two lists of names is one walk after the other. */
  lemma {:induction false} GoJoins(look: Look, comps: seq<Token>, a: seq<Token>, b: seq<Token>)
    ensures Go(look, comps, a + b) == if Go(look, comps, a).None? then None else Go(look, Go(look, comps, a).value, b)
    decreases |a|
  {
    if a == [] {
      assert a + b == b;
    } else {
      assert (a + b)[0] == a[0] && (a + b)[1..] == a[1..] + b;
      var next := StepTo(look, comps, a[0]);
      if next.Some? {
        GoJoins(look, next.value, a[1..], b);
      }
    }
  }

  /** A relative path is one behind the path of the working directory. */
  lemma FromHome(look: Look, comps: seq<Token>, arg: seq<byte>)
    requires GoodPath(comps) && Walk(look, comps).Some?
    ensures Tokens(Render(comps) + [SLASH] + arg) == comps + Tokens(arg)
    ensures Go(look, [], Tokens(Render(comps) + [SLASH] + arg)) == Go(look, comps, Tokens(arg))
  {
    TokensOfRender(comps);
    TokensApart(Render(comps), arg);
    ReturnHome(look, comps);
    GoJoins(look, [], comps, Tokens(arg));
  }

  /** fat16_chdir(fat16_get_current_path()) goes back to the working directory. */
  lemma ReturnHome(look: Look, comps: seq<Token>)
    requires GoodPath(comps) && Walk(look, comps).Some?
    ensures Go(look, [], Tokens(Render(comps))) == Some(comps)
  {
    TokensOfRender(comps);
    GoFollows(look, comps, 0);
    assert comps[..0] == [] && comps[0..] == comps;
  }

  /** The way back to a directory inside stays inside. */
  lemma {:induction false} HomeInside(look: Look, dirs: set<nat>, comps: seq<Token>, n: nat)
    requires GoodPath(comps) && Inside(look, dirs, comps) && n <= |comps|
    ensures GoInside(look, dirs, comps[..n], comps[n..])
    decreases |comps| - n
  {
    InsidePrefix(look, dirs, comps, n);
    if n < |comps| {
      GoodAt(comps, n);
      assert comps[..n] + [comps[n]] == comps[..n + 1];
      var rest := comps[n..];
      assert rest[0] == comps[n] && rest[1..] == comps[n + 1..];
      HomeInside(look, dirs, comps, n + 1);
    }
  }

  lemma InsidePrefix(look: Look, dirs: set<nat>, comps: seq<Token>, n: nat)
    requires Inside(look, dirs, comps) && n <= |comps|
    ensures Inside(look, dirs, comps[..n])
  {
    forall i: nat | i <= n ensures Walk(look, comps[..n][..i]).Some? && Walk(look, comps[..n][..i]).value in dirs {
      assert comps[..n][..i] == comps[..i];
    }
  }

  lemma TokensOfRender(comps: seq<Token>)
    requires GoodPath(comps)
    ensures Tokens(Render(comps)) == comps
  {
    GoodPlain(comps);
    if comps == [] {
      assert Tokens([SLASH]) == Tokens([SLASH][1..]);
    } else {
      TokensOfJoined(comps, []);
      assert Joined(comps) + [] == Joined(comps);
      assert comps + Tokens([]) == comps;
    }
  }

  /** current_path fits its buffer and can be handed back to fat16_chdir. */
  lemma {:induction false} RenderFits(comps: seq<Token>)
    requires GoodPath(comps)
    ensures |Render(comps)| < MAX_PATH && IsText(Render(comps)) && Render(comps) != [] && Render(comps)[0] == SLASH
    decreases |comps|
  {
    if comps != [] {
      var init := comps[..|comps| - 1];
      GoodPop(comps);
      GoodPlain(comps);
      RenderFits(init);
      assert comps[..|comps| - 1] == init && RoomFor(init, comps[|comps| - 1]);
      JoinedEmpty(init);
    }
  }
}
