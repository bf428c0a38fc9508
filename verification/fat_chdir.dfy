/**
 * fat16_chdir on the disk, refining the stack of FatPaths.
 */
module FatChdir {
  import opened Common
  import opened Bytes
  import opened FatDir
  import opened FatDisk
  import opened FatDirIo
  import opened PathText
  import opened FatPaths

  /** What a scan of directory d for the name t finds. */
  function LookIn(v: Vol, d: nat, t: Token): Option<Node> {
    if d >= |v.clusters| then None else NodeOf(DirSlots(v, d), t)
  }

  function NodeOf(slots: Slots, t: Token): Option<Node> {
    NodeAt(slots, Lookup(slots, t, Any))
  }

  function NodeAt(slots: Slots, hit: Option<Hit>): Option<Node> {
    if hit.Some? && hit.value.slot < |slots| then
      Some(Node(IsDirSlot(slots[hit.value.slot]), ClusterOf(slots[hit.value.slot])))
    else None
  }

  function LookOf(v: Vol): Look {
    (d: nat, t: Token) => LookIn(v, d, t)
  }

  /** A directory the code can work in: well formed, and, below the root, of one cluster. */
  ghost predicate DirUsable(g: Geometry, v: Vol, d: nat) {
    IsDir(g, d) && d < |v.clusters| && OneCluster(v, d) && WellFormed(DirSlots(v, d))
  }

  /** The directories are usable, and those that others lead to lead back. */
  ghost predicate Mounted(g: Geometry, v: Vol, dirs: set<nat>) {
    && (forall d {:trigger DirUsable(g, v, d)} :: d in dirs ==> DirUsable(g, v, d))
    && TreeOk(LookOf(v), dirs)
  }

  lemma HitInside(slots: Slots, t: Token)
    requires WellFormed(slots)
    ensures var r := Lookup(slots, t, Any); r.Some? ==> r.value.slot < |slots|
  {
    HitIsEntry(slots, 0, Clean, t, Any);
  }

  /** find_entry_in_current_dir. */
  method FindEntry(vol: Volume, d: nat, t: Token) returns (r: Option<Node>)
    requires vol.Valid() && DirUsable(vol.g, vol.V(), d) && IsText(t)
    ensures r == LookIn(vol.V(), d, t)
  {
    var hit := ScanDir(vol, d, t, Any);
    HitInside(DirSlots(vol.V(), d), t);
    if hit.None? {
      return None;
    }
    var buf := ReadDirSector(vol, d, hit.value.slot / 16);
    SlotsIndex(DirOf(vol.V(), d), hit.value.slot / 16, hit.value.slot % 16);
    var e := SlotAt(buf, hit.value.slot % 16);
    r := Some(Node(IsDirSlot(e), ClusterOf(e)));
  }

  method FindLastSlash(s: seq<byte>) returns (i: int)
    ensures i == LastSlash(s)
  {
    i := |s| - 1;
    while i >= 0 && s[i] != SLASH
      invariant -1 <= i < |s| && forall k :: i < k < |s| ==> s[k] != SLASH
    {
      i := i - 1;
    }
    assert i >= 0 ==> s[i] == SLASH;
  }

  lemma WalkPush(look: Look, comps: seq<Token>, t: Token)
    ensures Walk(look, comps + [t]) == if Walk(look, comps).None? then None else ChildDir(look, Walk(look, comps).value, t)
    ensures Render(comps + [t]) == (if comps == [] then [SLASH] + t else Render(comps) + [SLASH] + t)
    ensures |Render(comps)| > 1 ==> comps != []
  {
    assert (comps + [t])[..|comps + [t]| - 1] == comps;
    assert comps == [] ==> Joined([t]) == [SLASH] + t;
  }

  lemma LongPath(comps: seq<Token>)
    requires comps != [] && GoodPath(comps)
    ensures |Render(comps)| > 1
  {
    CutsLast(comps);
  }

  /** The ".." branch of fat16_chdir. */
  method GoUp(vol: Volume, dir0: nat, path0: seq<byte>, ghost look: Look, ghost dirs: set<nat>, ghost comps: seq<Token>)
    returns (ok: bool, dir: nat, path: seq<byte>)
    requires vol.Valid() && look == LookOf(vol.V()) && Mounted(vol.g, vol.V(), dirs)
    requires Standing(look, comps, dir0, path0) && Inside(look, dirs, comps)
    ensures ok && Standing(look, if comps == [] then [] else comps[..|comps| - 1], dir, path)
  {
    InsideHere(look, dirs, comps);
    UpLeadsBack(look, dirs, comps);
    assert DirUsable(vol.g, vol.V(), dir0);
    ok, dir, path := true, dir0, path0;
    if dir0 != 0 {
      GoodPop(comps);
      var entry := FindEntry(vol, dir0, Up);
      assert entry == look(dir0, Up);
      if entry.None? {
        return false, dir0, path0;
      }
      dir := entry.value.cluster;
      CutsLast(comps);
      JoinedEmpty(comps[..|comps| - 1]);
      if |path| > 1 {
        var slash := FindLastSlash(path);
        if slash == 0 {
          path := path[..1];
        } else if slash > 0 {
          path := path[..slash];
        }
      }
    }
  }

  /** A name pushed onto the path. */
  lemma Pushed(look: Look, comps: seq<Token>, dir: nat, path: seq<byte>, t: Token)
    requires Standing(look, comps, dir, path) && IsPlain(t)
    ensures StepTo(look, comps, t).Some? <==> ChildDir(look, dir, t).Some? && |path| + |t| + 2 < MAX_PATH
    ensures StepTo(look, comps, t).Some? ==>
              Standing(look, comps + [t], ChildDir(look, dir, t).value, if |path| > 1 then path + [SLASH] + t else path + t)
  {
    WalkPush(look, comps, t);
    if comps != [] {
      LongPath(comps);
    }
    if StepTo(look, comps, t).Some? {
      GoodPush(comps, t);
    }
  }

  /** The branch for a name. */
  method GoDown(vol: Volume, dir0: nat, path0: seq<byte>, t: Token, ghost look: Look, ghost dirs: set<nat>, ghost comps: seq<Token>)
    returns (ok: bool, dir: nat, path: seq<byte>)
    requires vol.Valid() && look == LookOf(vol.V()) && Mounted(vol.g, vol.V(), dirs)
    requires Standing(look, comps, dir0, path0) && Inside(look, dirs, comps)
    requires IsPlain(t)
    ensures ok <==> StepTo(look, comps, t).Some?
    ensures ok ==> Standing(look, comps + [t], dir, path)
  {
    InsideHere(look, dirs, comps);
    Pushed(look, comps, dir0, path0, t);
    assert DirUsable(vol.g, vol.V(), dir0);
    ok, dir, path := false, dir0, path0;
    var entry := FindEntry(vol, dir0, t);
    assert entry == look(dir0, t);
    if entry.Some? && entry.value.isDir {
      dir := entry.value.cluster;
      if |path| + |t| + 2 < MAX_PATH {
        path := if |path| > 1 then path + [SLASH] + t else path + t;
        ok := true;
      }
    }
  }

  /** The directory a path starts from. */
  function Start(arg: seq<byte>, comps: seq<Token>): seq<Token> { if Absolute(arg) then [] else comps }

  predicate Absolute(arg: seq<byte>) { arg != [] && arg[0] == SLASH }

  /** One token of the path. */
  method StepToken(vol: Volume, dir0: nat, path0: seq<byte>, token: Token, ghost look: Look, ghost dirs: set<nat>, ghost comps: seq<Token>)
    returns (ok: bool, dir: nat, path: seq<byte>, ghost next: seq<Token>)
    requires vol.Valid() && look == LookOf(vol.V()) && Mounted(vol.g, vol.V(), dirs)
    requires Standing(look, comps, dir0, path0) && Inside(look, dirs, comps)
    requires token != [] && NoSlash(token) && IsText(token)
    ensures ok <==> StepTo(look, comps, token).Some?
    ensures ok ==> StepTo(look, comps, token) == Some(next) && Standing(look, next, dir, path)
  {
    ok, dir, path, next := true, dir0, path0, comps;
    if token == Up {
      ok, dir, path := GoUp(vol, dir0, path0, look, dirs, comps);
      next := if comps == [] then [] else comps[..|comps| - 1];
    } else if token != Here {
      ok, dir, path := GoDown(vol, dir0, path0, token, look, dirs, comps);
      next := comps + [token];
    }
  }

  function Ahead(token: Token, rest: seq<byte>): seq<Token> { if token == [] then [] else [token] + Tokens(rest) }

  lemma GoOne(look: Look, dirs: set<nat>, comps: seq<Token>, token: Token, rest: seq<byte>)
    requires token != [] && GoInside(look, dirs, comps, Ahead(token, rest))
    ensures var next := StepTo(look, comps, token);
            && Go(look, comps, Ahead(token, rest)) == (if next.None? then None else Go(look, next.value, Tokens(rest)))
            && (next.Some? ==> GoInside(look, dirs, next.value, Tokens(rest)))
    ensures Inside(look, dirs, comps)
  {
    var ts := Ahead(token, rest);
    assert ts[0] == token && ts[1..] == Tokens(rest);
  }

  /** One name, "..", or ".": the directory and the path it leads to from where the call stands. */
  ghost predicate OneStep(look: Look, dir0: nat, path0: seq<byte>, arg: seq<byte>, ok: bool, dir: nat, path: seq<byte>) {
    && (arg == Here ==> ok && dir == dir0 && path == path0)
    && (arg == Up && dir0 == 0 ==> ok && dir == 0 && path == path0)
    && (arg == Up && dir0 != 0 ==> ok && look(dir0, Up).Some? && dir == look(dir0, Up).value.cluster && LastSlash(path0) >= 0
                                   && path == path0[..if LastSlash(path0) == 0 then 1 else LastSlash(path0)])
    && (IsPlain(arg) ==> (ok <==> ChildDir(look, dir0, arg).Some? && |path0| + |arg| + 2 < MAX_PATH))
    && (IsPlain(arg) && ok ==> dir == ChildDir(look, dir0, arg).value
                               && path == path0 + (if path0 == [SLASH] then [] else [SLASH]) + arg)
  }

  lemma StepIsOne(look: Look, dirs: set<nat>, comps: seq<Token>, dir0: nat, path0: seq<byte>, arg: seq<byte>, ok: bool, dir: nat, path: seq<byte>)
    requires TreeOk(look, dirs) && Inside(look, dirs, comps) && Standing(look, comps, dir0, path0)
    requires arg == Here || arg == Up || IsPlain(arg)
    requires ok <==> StepTo(look, comps, arg).Some?
    requires ok ==> Standing(look, StepTo(look, comps, arg).value, dir, path)
    ensures OneStep(look, dir0, path0, arg, ok, dir, path)
  {
    if IsPlain(arg) {
      Pushed(look, comps, dir0, path0, arg);
      if comps != [] {
        LongPath(comps);
      }
    } else if arg == Up {
      UpIsOne(look, dirs, comps, dir0, path0, dir, path);
    }
  }

  lemma UpIsOne(look: Look, dirs: set<nat>, comps: seq<Token>, dir0: nat, path0: seq<byte>, dir: nat, path: seq<byte>)
    requires TreeOk(look, dirs) && Inside(look, dirs, comps) && Standing(look, comps, dir0, path0)
    requires Standing(look, if comps == [] then [] else comps[..|comps| - 1], dir, path)
    ensures dir0 == 0 ==> dir == 0 && path == path0
    ensures dir0 != 0 ==> look(dir0, Up).Some? && dir == look(dir0, Up).value.cluster && LastSlash(path0) >= 0
                          && path == path0[..if LastSlash(path0) == 0 then 1 else LastSlash(path0)]
  {
    UpLeadsBack(look, dirs, comps);
    if comps != [] {
      CutsLast(comps);
      JoinedEmpty(comps[..|comps| - 1]);
    }
  }

  lemma GoSingle(look: Look, comps: seq<Token>, arg: seq<byte>)
    requires arg != [] && NoSlash(arg)
    ensures Go(look, comps, Tokens(arg)) == StepTo(look, comps, arg)
  {
    OneToken(arg);
    var ts := Tokens(arg);
    assert ts[0] == arg && ts[1..] == [];
  }

  /** Where a call leads: a relative argument, from the directory whose path is path0. */
  ghost predicate Arrives(look: Look, path0: seq<byte>, arg: seq<byte>, ok: bool, comps: seq<Token>) {
    var full := if arg != [] && arg[0] == SLASH then arg else path0 + [SLASH] + arg;
    (ok <==> Go(look, [], Tokens(full)).Some?) && (ok ==> Some(comps) == Go(look, [], Tokens(full)))
  }

  lemma StartArrives(look: Look, dirs: set<nat>, comps0: seq<Token>, dir0: nat, path0: seq<byte>, arg: seq<byte>, ok: bool, dir: nat, path: seq<byte>, comps: seq<Token>)
    requires TreeOk(look, dirs) && (Absolute(arg) || (Standing(look, comps0, dir0, path0) && Inside(look, dirs, comps0)))
    requires ok <==> Go(look, Start(arg, comps0), Tokens(arg)).Some?
    requires ok ==> Some(comps) == Go(look, Start(arg, comps0), Tokens(arg)) && Standing(look, comps, dir, path)
    ensures Arrives(look, path0, arg, ok, comps)
    ensures !Absolute(arg) && (arg == Here || arg == Up || IsPlain(arg)) ==> OneStep(look, dir0, path0, arg, ok, dir, path)
  {
    if !Absolute(arg) {
      FromHome(look, comps0, arg);
      if arg == Here || arg == Up || IsPlain(arg) {
        GoSingle(look, comps0, arg);
        StepIsOne(look, dirs, comps0, dir0, path0, arg, ok, dir, path);
      }
    }
  }

  /**
   * fat16_chdir.  It succeeds exactly when the walk over the names does, which for a relative
   * argument is the walk along the current path and on; then current_path walks from the root to
   * current_dir_cluster.  A failed call changes neither.
   */
  method Chdir(vol: Volume, dir0: nat, path0: seq<byte>, arg: seq<byte>, ghost look: Look, ghost dirs: set<nat>, ghost comps0: seq<Token>)
    returns (ok: bool, dir: nat, path: seq<byte>, ghost comps: seq<Token>)
    requires vol.Valid() && look == LookOf(vol.V()) && Mounted(vol.g, vol.V(), dirs) && IsText(arg) && |arg| < MAX_PATH
    requires Absolute(arg) || Standing(look, comps0, dir0, path0)
    requires GoInside(look, dirs, Start(arg, comps0), Tokens(arg))
    ensures ok <==> Go(look, Start(arg, comps0), Tokens(arg)).Some?
    ensures ok ==> Some(comps) == Go(look, Start(arg, comps0), Tokens(arg)) && Standing(look, comps, dir, path) && Inside(look, dirs, comps)
    ensures !ok ==> dir == dir0 && path == path0
    ensures Arrives(look, path0, arg, ok, comps)
    ensures arg == Here || arg == Up || IsPlain(arg) ==> OneStep(look, dir0, path0, arg, ok, dir, path)
  {
    ok, dir, path, comps := Follow(vol, dir0, path0, arg, look, dirs, comps0);
    StartArrives(look, dirs, comps0, dir0, path0, arg, ok, dir, path, comps);
  }

  method Follow(vol: Volume, dir0: nat, path0: seq<byte>, arg: seq<byte>, ghost look: Look, ghost dirs: set<nat>, ghost comps0: seq<Token>)
    returns (ok: bool, dir: nat, path: seq<byte>, ghost comps: seq<Token>)
    requires vol.Valid() && look == LookOf(vol.V()) && Mounted(vol.g, vol.V(), dirs) && IsText(arg) && |arg| < MAX_PATH
    requires Absolute(arg) || Standing(look, comps0, dir0, path0)
    requires GoInside(look, dirs, Start(arg, comps0), Tokens(arg))
    ensures ok <==> Go(look, Start(arg, comps0), Tokens(arg)).Some?
    ensures ok ==> Some(comps) == Go(look, Start(arg, comps0), Tokens(arg)) && Standing(look, comps, dir, path) && Inside(look, dirs, comps)
    ensures !ok ==> dir == dir0 && path == path0
  {
    dir, path, comps := dir0, path0, comps0;
    if Absolute(arg) {
      dir, path, comps := 0, [SLASH], [];
    }
    var token, rest := NextToken(arg);
    while token != []
      invariant IsText(token) && IsText(rest) && NoSlash(token)
      invariant Standing(look, comps, dir, path) && GoInside(look, dirs, comps, Ahead(token, rest))
      invariant Go(look, Start(arg, comps0), Tokens(arg)) == Go(look, comps, Ahead(token, rest))
      decreases |rest| + |token|
    {
      GoOne(look, dirs, comps, token, rest);
      ok, dir, path, comps := StepToken(vol, dir, path, token, look, dirs, comps);
      if !ok {
        return false, dir0, path0, comps0;
      }
      token, rest := NextToken(rest);
    }
    ok := true;
  }
}
