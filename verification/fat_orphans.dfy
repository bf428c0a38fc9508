/**
 * Orphaned long names.  An invisible entry leaves its long-name slots leading to a free one, and an
 * entry put there is scanned with the orphan's text still in lfn_buf.
 */
module FatOrphans {
  import opened FatConst
  import opened Bytes
  import opened FatNames
  import opened FatDir
  import opened FatDirUpdate
  import opened FatDirTheorems

  // ---------- long-name slots read over an old text ----------

  /** Position k, among those that the name's slots cover, once the name has been read over `buf`: the
      name, its terminator if there is room for one, and behind it what was there. */
  function Overwritten(name: seq<byte>, buf: NameBuf, k: nat): byte
    requires k < 256
  {
    if k < |name| then name[k] else if k == |name| then 0 else buf[k]
  }

  lemma BlockOver(name: seq<byte>, order: nat, checksum: byte, last: bool, was: NameBuf, buf: NameBuf, k: nat, from: nat, to: nat, end: nat)
    requires IsName(name) && 1 <= order <= 20 && k < 256 && from == (order - 1) * 13 && to == order * 13 && from <= |name| && to <= end
    requires buf[k] == if to <= k < end then Overwritten(name, was, k) else was[k]
    ensures Extract(LfnSlot(name, order, checksum, last), buf)[k] == if from <= k < end then Overwritten(name, was, k) else was[k]
  {
    ExtractBlock(name, order, checksum, last, buf, k);
  }

  lemma {:induction false} GatheredOver(name: seq<byte>, top: nat, order: nat, checksum: byte, buf: NameBuf, k: nat, from: nat, end: nat)
    requires IsName(name) && end - 13 < |name| <= end == top * 13 && 1 <= order <= top + 1 <= 21 && k < 256 && from == (order - 1) * 13
    ensures Gather(name, top, order, checksum, buf)[k] == if from <= k < end then Overwritten(name, buf, k) else buf[k]
    decreases top - order + 1
  {
    if order <= top {
      GatheredOver(name, top, order + 1, checksum, buf, k, from + 13, end);
      BlockOver(name, order, checksum, order == top, buf, Gather(name, top, order + 1, checksum, buf), k, from, from + 13, end);
    }
  }

  lemma TextOver(name: seq<byte>, checksum: byte, buf: NameBuf, top: nat)
    requires IsName(name) && top == (|name| + 12) / 13
    ensures top <= 20
    ensures var after := Gather(name, top, 1, checksum, buf);
            && (forall k: nat :: k < |name| ==> after[k] == name[k])
            && (after[|name|] == 0 <==> |name| % 13 != 0 || buf[|name|] == 0)
  {
    var after := Gather(name, top, 1, checksum, buf);
    forall k: nat | k < |name| ensures after[k] == name[k] {
      NameOver(name, checksum, buf, top, k);
    }
    EndOver(name, checksum, buf, top);
  }

  lemma NameOver(name: seq<byte>, checksum: byte, buf: NameBuf, top: nat, k: nat)
    requires IsName(name) && top == (|name| + 12) / 13 && top <= 20 && k < |name|
    ensures Gather(name, top, 1, checksum, buf)[k] == name[k]
  {
    GatheredOver(name, top, 1, checksum, buf, k, 0, top * 13);
  }

  lemma EndOver(name: seq<byte>, checksum: byte, buf: NameBuf, top: nat)
    requires IsName(name) && top == (|name| + 12) / 13 && top <= 20
    ensures Gather(name, top, 1, checksum, buf)[|name|] == if |name| % 13 != 0 then 0 else buf[|name|]
  {
    RoundedUp(|name|, top);
    GatheredOver(name, top, 1, checksum, buf, |name|, 0, top * 13);
  }

  lemma RoundedUp(n: nat, top: nat)
    requires top == (n + 12) / 13
    ensures n % 13 != 0 <==> n < top * 13
  {
    assert n == 13 * (n / 13) + n % 13;
    if n % 13 == 0 {
      assert top == n / 13;
    } else {
      assert top == n / 13 + 1;
    }
  }

  /** The text compared is the name exactly when it ends where the name does. */
  lemma TextMatches(name: seq<byte>, after: NameBuf)
    requires IsName(name) && forall k: nat :: k < |name| ==> after[k] == name[k]
    ensures Lower(CString(after)) == Lower(name) <==> after[|name|] == 0
  {
    if after[|name|] == 0 {
      IndexOfFirst(after, 0, |name|);
      assert CString(after) == name;
    } else {
      LongerText(name, after);
    }
  }

  lemma LongerText(name: seq<byte>, after: NameBuf)
    requires IsName(name) && (forall k: nat :: k < |name| ==> after[k] == name[k]) && after[|name|] != 0
    ensures |CString(after)| > |name| && |Lower(CString(after))| != |Lower(name)|
  {
    if IndexOf(after, 0) <= |name| {
      IndexOfIs(after, 0);
    }
  }

  lemma {:induction false} IndexOfIs(s: seq<byte>, c: byte)
    ensures IndexOf(s, c) < |s| ==> s[IndexOf(s, c)] == c
  {
    if s != [] && s[0] != c {
      IndexOfIs(s[1..], c);
    }
  }

  // ---------- the run of an entry, scanned with something pending ----------

  function OverPending(q: Pending, name: seq<byte>, p: nat, i: nat): Pending
    requires IsName(name) && i <= LfnCount(name)
  {
    LfnCountBound(name);
    if i == 0 then q
    else Pending(Gather(name, LfnCount(name), LfnCount(name) - i + 1, Checksum(name), q.buf), Checksum(name), StartOf(q, p))
  }

  lemma OverStep(q: Pending, name: seq<byte>, p: nat, i: nat, s: Slot, k: nat)
    requires IsName(name) && i < LfnCount(name) <= 20 && k == p + i
    requires s == LfnSlot(name, LfnCount(name) - i, Checksum(name), i == 0) && s[13] == Checksum(name)
    ensures After(s, k, OverPending(q, name, p, i)) == OverPending(q, name, p, i + 1)
  {
    var n := LfnCount(name);
    var r := OverPending(q, name, p, i);
    assert r.buf == Gather(name, n, n - i + 1, Checksum(name), q.buf);
    assert Gather(name, n, n - i, Checksum(name), q.buf) == Extract(s, r.buf);
  }

  lemma OverLfn(slots: Slots, q: Pending, p: nat, name: seq<byte>, i: nat)
    requires IsName(name) && NameAt(slots, p, name) && i < LfnCount(name)
    ensures !Free(slots[p + i]) && IsLfn(slots[p + i])
    ensures After(slots[p + i], p + i, OverPending(q, name, p, i)) == OverPending(q, name, p, i + 1)
  {
    LfnSlotLooks(name, LfnCount(name) - i, Checksum(name), i == 0);
    OverStep(q, name, p, i, slots[p + i], p + i);
  }

  lemma {:induction false} FindOverRun(slots: Slots, q: Pending, p: nat, name: seq<byte>, i: nat, target: seq<byte>, kind: Kind)
    requires IsName(name) && NameAt(slots, p, name) && i <= LfnCount(name)
    ensures p + LfnCount(name) <= |slots|
    ensures Find(slots, p + i, OverPending(q, name, p, i), target, kind)
         == Find(slots, p + LfnCount(name), OverPending(q, name, p, LfnCount(name)), target, kind)
    decreases LfnCount(name) - i
  {
    if i < LfnCount(name) {
      OverLfn(slots, q, p, name, i);
      FindOverRun(slots, q, p, name, i + 1, target, kind);
    }
  }

  // ---------- an entry behind an orphan ----------

  /** An entry of the name is found behind a scan that carries q: without a long name of its own, the
      orphan must be told apart by its checksum, or say the same; with one, no text may be left
      showing behind it. */
  predicate Survives(name: seq<byte>, q: Pending)
    requires IsName(name)
  {
    if LfnCount(name) == 0 then q.buf[0] == 0 || q.checksum != Checksum(name) || Lower(CString(q.buf)) == Lower(name)
    else |name| % 13 != 0 || q.buf[|name|] == 0
  }

  lemma EntrySurvives(s: Slot, q: Pending, p: nat, name: seq<byte>, attributes: nat, cluster: nat, size: nat)
    requires IsName(name) && IsEntry(attributes, cluster, size) && Visible(name)
    requires s == EntrySlot(ShortName(name), attributes, cluster, size)
    ensures s[0] != 0 && s[0] != DELETED && !IsLfn(s)
    ensures Matches(s, OverPending(q, name, p, LfnCount(name)), name, Any) <==> Survives(name, q)
  {
    EntryReadsBack(ShortName(name), attributes, cluster, size);
    CleanIsEmpty();
    ShortNotZero(name);
    LfnCountBound(name);
    assert s[0] == s[..11][0];
    if LfnCount(name) > 0 {
      var r := OverPending(q, name, p, LfnCount(name));
      TextOver(name, Checksum(name), q.buf, LfnCount(name));
      TextMatches(name, r.buf);
    }
  }

  /** A free slot ends a pending long name. */
  lemma FreeForgets(slots: Slots, p: nat, q: Pending, target: seq<byte>, kind: Kind)
    requires p < |slots| && Free(slots[p])
    ensures Find(slots, p, q, target, kind) == Find(slots, p, Clean, target, kind)
  {
  }

  /** What a scan that finds nothing carries when it comes to the room, and what it finds there. */
  lemma ComesToRoom(slots: Slots, p: nat, n: nat, target: seq<byte>) returns (q: Pending)
    requires WellFormed(slots) && IsFirstFit(slots, p, n) && n > 0 && Lookup(slots, target, Any).None?
    ensures Advance(slots, 0, p, Clean, target, Any) == At(q)
    ensures Find(slots, p + n, Clean, target, Any).None?
  {
    BehindLive(slots, p, n);
    NeverEnds(slots, 0, p, Clean, target, Any);
    FindSplits(slots, 0, p, Clean, target, Any);
    q := Advance(slots, 0, p, Clean, target, Any).pending;
    FreeForgets(slots, p, q, target, Any);
    SkipsFreeRun(slots, p, n, target, Any);
  }

  /**
   * A visible entry added at the first fit is found under its name exactly when it survives what the
   * scan carries to it; at a boundary the scan carries nothing, and every entry does.
   */
  lemma BehindOrphan(slots: Slots, p: nat, name: seq<byte>, attributes: nat, cluster: nat, size: nat) returns (q: Pending)
    requires IsName(name) && IsEntry(attributes, cluster, size) && Visible(name)
    requires WellFormed(slots) && IsFirstFit(slots, p, LfnCount(name) + 1) && Lookup(slots, name, Any).None?
    ensures Advance(slots, 0, p, Clean, name, Any) == At(q)
    ensures Lookup(Added(slots, p, name, attributes, cluster, size), name, Any).Some? <==> Survives(name, q)
  {
    var a := Added(slots, p, name, attributes, cluster, size);
    AddedShape(slots, p, name, attributes, cluster, size);
    q := ComesToRoom(slots, p, LfnCount(name) + 1, name);
    FoundBehind(slots, a, p, name, attributes, cluster, size, q, p + LfnCount(name));
  }

  lemma FoundBehind(slots: Slots, a: Slots, p: nat, name: seq<byte>, attributes: nat, cluster: nat, size: nat, q: Pending, k: nat)
    requires IsName(name) && IsEntry(attributes, cluster, size) && Visible(name) && k == p + LfnCount(name)
    requires IsAdded(slots, a, p, name, attributes, cluster, size) && Advance(slots, 0, p, Clean, name, Any) == At(q)
    requires Find(slots, k + 1, Clean, name, Any).None?
    ensures Lookup(a, name, Any).Some? <==> Survives(name, q)
  {
    SameOutside(slots, a, p, LfnCount(name) + 1);
    AdvanceReadsPrefix(slots, a, 0, p, Clean, name, Any);
    FindSplits(a, 0, p, Clean, name, Any);
    FindOverRun(a, q, p, name, 0, name, Any);
    EntrySurvives(a[k], q, p, name, attributes, cluster, size);
    FindReadsSuffix(a, slots, k + 1, Clean, name, Any);
  }

  // ---------- it happens ----------

  /** In an empty directory, the first entry, of an invisible name longer than 13 bytes, is followed
      by one of a visible name of 13 bytes: it goes right behind the orphan, and no scan finds it. */
  lemma OrphanHides(slots: Slots, x: seq<byte>, y: seq<byte>, cluster: nat, size: nat)
    requires IsName(x) && !Visible(x) && |x| > 13 && IsName(y) && Visible(y) && |y| == 13 && NeedLfn(y)
    requires IsEntry(ATTR_FILE, cluster, size) && |slots| >= LfnCount(x) + 2 && forall i :: 0 <= i < |slots| ==> slots[i][0] == 0
    ensures LfnCount(x) + 2 <= |slots| && LfnCount(y) == 1
    ensures var a := Added(slots, 0, x, ATTR_FILE, cluster, size);
            WellFormed(a) && IsFirstFit(a, LfnCount(x), 2) && Lookup(Added(a, LfnCount(x), y, ATTR_FILE, cluster, size), y, Any).None?
  {
    var a := Added(slots, 0, x, ATTR_FILE, cluster, size);
    assert FreeRun(slots, 0, LfnCount(x) + 1);
    AddKeepsWellFormed(slots, 0, x, ATTR_FILE, cluster, size);
    RoomBehind(slots, a, x, cluster, size, LfnCount(x));
    LookupAfterAdd(slots, 0, x, ATTR_FILE, cluster, size, y, Any);
    var q := BehindOrphan(a, LfnCount(x), y, ATTR_FILE, cluster, size);
    OrphanShows(a, x, y, q, LfnCount(x));
  }

  lemma RoomBehind(slots: Slots, a: Slots, x: seq<byte>, cluster: nat, size: nat, n: nat)
    requires IsName(x) && !Visible(x) && IsEntry(ATTR_FILE, cluster, size) && n == LfnCount(x) && n + 2 <= |slots|
    requires a == Added(slots, 0, x, ATTR_FILE, cluster, size) && slots[n + 1][0] == 0
    ensures IsFirstFit(a, n, 2) && NameAt(a, 0, x)
  {
    AddedShape(slots, 0, x, ATTR_FILE, cluster, size);
    SameOutside(slots, a, 0, n + 1);
    RunLooks(a, 0, x, ATTR_FILE, cluster, size);
    FirstPair(a, n);
  }

  lemma FirstPair(a: Slots, n: nat)
    requires n + 2 <= |a| && Free(a[n]) && Free(a[n + 1]) && forall k :: 0 <= k < n ==> !Free(a[k])
    ensures IsFirstFit(a, n, 2)
  {
    forall k: nat | k < n ensures !FreeRun(a, k, 2) {
      assert !Free(a[k]);
    }
  }

  lemma OrphanShows(a: Slots, x: seq<byte>, y: seq<byte>, q: Pending, n: nat)
    requires IsName(x) && |x| > 13 && n == LfnCount(x) && NameAt(a, 0, x) && n <= |a|
    requires IsName(y) && |y| == 13 && NeedLfn(y) && Advance(a, 0, n, Clean, y, Any) == At(q)
    ensures !Survives(y, q)
  {
    AdvanceRun(a, 0, x, 0, n, y, Any);
    Gathered(x, n, 1, Checksum(x), ZeroBuf, 13);
  }

  /** Such names: 0xE5 and thirteen A, and thirteen B. */
  lemma SuchNames()
    ensures exists x, y :: IsName(x) && !Visible(x) && |x| > 13 && IsName(y) && Visible(y) && |y| == 13 && NeedLfn(y)
  {
    var x: seq<byte> := seq(14, i => if i == 0 then DELETED else 65);
    var y: seq<byte> := seq(13, i => 66);
    LongStart(x);
    LongStart(y);
  }

  lemma LongStart(name: seq<byte>)
    requires IsName(name) && NeedLfn(name) && !Skipped(name[0]) && !Dropped(UpperByte(name[0]))
    ensures ShortName(name)[0] == UpperByte(name[0])
  {
    assert TrimStart(name) == name;
    assert Stem(name, 6)[0] == UpperByte(name[0]);
    assert GenerateShort(name)[0] == ShortHead(name)[0];
  }
}
