/**
 * fat16_format_drive: the new FAT and root directory, and what survives.
 */
module FatFormatDrive {
  import opened Common
  import opened FatConst
  import opened Bytes
  import opened FatNames
  import opened FatDir
  import opened FatDirUpdate
  import opened FatDirTheorems
  import opened FatDisk
  import opened FatDirIo
  import opened FatDirWrite
  import opened FatFormat
  import opened PathText
  import opened FatPaths
  import opened FatChdir


  /** "system". */
  function System(): (s: seq<byte>)
    ensures |s| == 6 && forall i :: 0 <= i < 6 ==> 97 <= s[i] <= 122
  {
    [115, 121, 115, 116, 101, 109]
  }

  // ---------- the new FAT ----------

  /** protected_flags at a cluster: past the end of the buffer lies whatever memory holds. */
  function Flagged(flags: seq<bool>, beyond: seq<bool>, c: nat): bool {
    if c < |flags| then flags[c] else c - |flags| < |beyond| && beyond[c - |flags|]
  }

  function NewEntry(found: bool, flags: seq<bool>, beyond: seq<bool>, fat: seq<nat>, c: nat): nat {
    if c == 0 then EOC
    else if c == 1 then END
    else if found && Flagged(flags, beyond, c) && c < |fat| then fat[c]
    else FREE
  }

  function NewFat(found: bool, flags: seq<bool>, beyond: seq<bool>, fat: seq<nat>): (r: seq<nat>)
    ensures |r| == |fat|
  {
    seq(|fat|, c requires 0 <= c < |fat| => NewEntry(found, flags, beyond, fat, c))
  }

  ghost predicate Words(fat: seq<nat>) {
    forall c :: 0 <= c < |fat| ==> fat[c] < 0x1_0000
  }

  lemma FatWords(vol: Volume)
    requires vol.Valid()
    ensures Words(vol.V().fat)
  {
    forall c | 0 <= c < |vol.V().fat| ensures vol.V().fat[c] < 0x1_0000 {
      assert vol.V().fat[c] == FatEntry(vol.g, vol.disk, c);
    }
  }

  /** old_fat. */
  method ReadFat(vol: Volume) returns (fat: seq<nat>)
    requires vol.Valid()
    ensures fat == vol.V().fat
  {
    fat := [];
    var s := 0;
    while s < vol.g.sectorsPerFat
      invariant 0 <= s <= vol.g.sectorsPerFat && |fat| == s * 256
      invariant forall c :: 0 <= c < |fat| && c < |vol.V().fat| ==> fat[c] == vol.V().fat[c]
    {
      var sector := vol.ReadFatSector(s);
      var block: seq<nat> := seq(256, i requires 0 <= i < 256 => EntryAt(sector, i));
      assert forall i :: 0 <= i < 256 ==> block[i] == vol.V().fat[s * 256 + i];
      fat := fat + block;
      s := s + 1;
    }
  }

  /** One sector of the new FAT. */
  method BuildFatSector(s: nat, found: bool, flags: seq<bool>, beyond: seq<bool>, fat: seq<nat>) returns (sector: Sector)
    requires Words(fat)
    ensures forall i: nat {:trigger EntryAt(sector, i)} :: i < 256 ==> EntryAt(sector, i) == NewEntry(found, flags, beyond, fat, s * 256 + i)
  {
    sector := Zeros(512);
    var i := 0;
    while i < 256
      invariant 0 <= i <= 256
      invariant forall j: nat {:trigger EntryAt(sector, j)} :: j < i ==> EntryAt(sector, j) == NewEntry(found, flags, beyond, fat, s * 256 + j)
    {
      var was := sector;
      var value := NewEntry(found, flags, beyond, fat, s * 256 + i);
      sector := PutEntry(sector, i, value);
      forall j: nat | j <= i ensures EntryAt(sector, j) == NewEntry(found, flags, beyond, fat, s * 256 + j) {
        PutThenEntry(was, i, value, j);
      }
      i := i + 1;
    }
  }

  /** The FAT after s sectors have been rewritten. */
  ghost predicate RewrittenTo(fat: seq<nat>, now: seq<nat>, made: seq<nat>, s: nat) {
    && |now| == |fat| == |made|
    && forall c :: 0 <= c < |fat| ==> now[c] == if c < s * 256 then made[c] else fat[c]
  }

  lemma RewriteBlock(fat: seq<nat>, now: seq<nat>, made: seq<nat>, s: nat, sector: Sector)
    requires RewrittenTo(fat, now, made, s)
    requires forall i: nat {:trigger EntryAt(sector, i)} :: i < 256 && s * 256 + i < |fat| ==> EntryAt(sector, i) == made[s * 256 + i]
    ensures RewrittenTo(fat, WithBlock(now, s, sector), made, s + 1)
  {
    var after := WithBlock(now, s, sector);
    forall c: nat | c < |fat| ensures after[c] == if c < (s + 1) * 256 then made[c] else fat[c] {
      if c / 256 == s {
        assert c == s * 256 + c % 256;
      }
    }
  }

  /** The loop that writes both FAT copies. */
  method RewriteFat(vol: Volume, found: bool, flags: seq<bool>, beyond: seq<bool>, fat: seq<nat>)
    requires vol.Valid() && fat == vol.V().fat && Words(fat)
    modifies vol`disk
    ensures vol.Valid() && vol.V() == old(vol.V()).(fat := NewFat(found, flags, beyond, fat))
  {
    ghost var v := vol.V();
    ghost var target := NewFat(found, flags, beyond, fat);
    var s := 0;
    while s < vol.g.sectorsPerFat
      invariant 0 <= s <= vol.g.sectorsPerFat && vol.Valid()
      invariant vol.V() == v.(fat := vol.V().fat) && RewrittenTo(fat, vol.V().fat, target, s)
    {
      ghost var now := vol.V().fat;
      var sector := BuildFatSector(s, found, flags, beyond, fat);
      BlockOf(found, flags, beyond, fat, s, sector);
      RewriteBlock(fat, now, target, s, sector);
      vol.PutFatSector(s, sector);
      s := s + 1;
    }
    assert vol.V().fat == target;
  }

  lemma BlockOf(found: bool, flags: seq<bool>, beyond: seq<bool>, fat: seq<nat>, s: nat, sector: Sector)
    requires forall i: nat {:trigger EntryAt(sector, i)} :: i < 256 ==> EntryAt(sector, i) == NewEntry(found, flags, beyond, fat, s * 256 + i)
    ensures forall i: nat {:trigger EntryAt(sector, i)} :: i < 256 && s * 256 + i < |fat| ==>
              EntryAt(sector, i) == NewFat(found, flags, beyond, fat)[s * 256 + i]
  {
  }

  // ---------- the new root directory ----------

  function Blank(n: nat): seq<Sector> { seq(n, i => Zeros(512)) }

  method ClearRoot(vol: Volume)
    requires vol.Valid()
    modifies vol`disk
    ensures vol.Valid() && vol.V() == old(vol.V()).(root := Blank(vol.g.rootSectors))
  {
    ghost var v := vol.V();
    var s := 0;
    while s < vol.g.rootSectors
      invariant 0 <= s <= vol.g.rootSectors && vol.Valid()
      invariant vol.V() == v.(root := vol.V().root)
      invariant forall i :: 0 <= i < s ==> vol.V().root[i] == Zeros(512)
    {
      vol.PutRootSector(s, Zeros(512));
      s := s + 1;
    }
    assert vol.V().root == Blank(vol.g.rootSectors);
  }

  ghost predicate AllUnused(slots: Slots) {
    forall i :: 0 <= i < |slots| ==> slots[i][0] == 0
  }

  lemma BlankIsEmpty(n: nat)
    ensures AllUnused(SlotsOf(Blank(n))) && WellFormed(SlotsOf(Blank(n))) && |SlotsOf(Blank(n))| == 16 * n
  {
    var slots := SlotsOf(Blank(n));
    forall i | 0 <= i < |slots| ensures slots[i][0] == 0 {
      assert slots[i] == SlotAt(Zeros(512), i % 16);
    }
  }

  lemma UnusedFindsNothing(slots: Slots, t: seq<byte>, kind: Kind)
    requires AllUnused(slots)
    ensures Lookup(slots, t, kind).None?
  {
  }

  // ---------- the call ----------

  /** The geometry this format writes, which must be the one in use. */
  predicate HasFormat(g: Geometry, total: nat) {
    && g.reserved == 256 && g.sectorsPerCluster == 32 && g.rootSectors == 32
    && g.sectorsPerFat == total / 32 * 2 / 512 + 1
    && g.limit <= total / 32 + 2
  }

  /** "system" in the root directory, when it is a directory, shows the tree. */
  ghost predicate SystemShown(g: Geometry, v: Vol, t: Tree)
    requires Shaped(g, v)
  {
    ChildDir(LookOf(v), 0, System()).Some? ==> Shows(g, v, t, true, ChildDir(LookOf(v), 0, System()).value)
  }

  /** Data clusters below n: those of `kept` keep their FAT entry, the others are free, and no
      cluster's contents change. */
  ghost predicate Formatted(v: Vol, v': Vol, kept: set<nat>, n: nat) {
    && v'.clusters == v.clusters && |v'.fat| == |v.fat|
    && forall c :: 2 <= c < n && c < |v.fat| ==> v'.fat[c] == if c in kept then v.fat[c] else FREE
  }

  lemma NewFatKeeps(v: Vol, v': Vol, found: bool, flags: seq<bool>, beyond: seq<bool>, kept: set<nat>)
    requires v'.clusters == v.clusters && v'.fat == NewFat(found, flags, beyond, v.fat)
    requires found ==> forall c :: 0 <= c < |flags| ==> (flags[c] <==> c in kept)
    ensures Formatted(v, v', if found then kept else {}, |flags|)
  {
  }

  /** Collects what must survive: the old FAT and the flags of the clusters under `start`. */
  method Protect(vol: Volume, start: nat, n: nat, ghost t: Tree) returns (flags: array<bool>, fat: seq<nat>)
    requires vol.Valid() && vol.g.limit <= n && Shows(vol.g, vol.V(), t, true, start)
    ensures fresh(flags) && flags.Length == n && fat == vol.V().fat
    ensures forall c :: 0 <= c < n ==> (flags[c] <==> c in Claims(t))
  {
    fat := ReadFat(vol);
    flags := new bool[n](i => false);
    ghost var was := flags[..];
    ProtectDirectoryTree(vol, start, flags, fat, t);
    forall c | 0 <= c < n ensures flags[c] <==> c in Claims(t) {
      assert flags[..][c] == Mark(was, Claims(t))[c];
    }
  }

  /** In the root, exactly the names that answer to `name` lead anywhere: to that directory. */
  ghost predicate RootLeads(v: Vol, name: seq<byte>, dir: Option<nat>) {
    forall x: Token {:trigger LookIn(v, 0, x)} ::
      LookIn(v, 0, x) == if dir.Some? && SameName(name, x) then Some(Node(true, dir.value)) else None
  }

  /** The last step: "system" goes back into the emptied root directory. */
  method RestoreEntry(vol: Volume, name: seq<byte>, start: nat)
    requires vol.Valid() && vol.g.rootSectors == 32 && vol.V().root == Blank(vol.g.rootSectors)
    requires IsName(name) && Visible(name) && LfnCount(name) == 1 && start < 0x1_0000
    modifies vol`disk
    ensures vol.Valid() && vol.V().fat == old(vol.V()).fat && vol.V().clusters == old(vol.V()).clusters
    ensures RootLeads(vol.V(), name, Some(start))
  {
    ghost var v := vol.V();
    BlankIsEmpty(vol.g.rootSectors);
    assert FreeRun(DirSlots(v, 0), 0, LfnCount(name) + 1);
    var ok: bool;
    ghost var p;
    ok, p := AddDirEntry(vol, 0, name, ATTR_DIR, start, 0);
    ghost var slots := DirSlots(v, 0);
    ghost var added := Added(slots, p, name, ATTR_DIR, start, 0);
    RootIs(v, vol.V(), added);
    forall x: Token ensures LookIn(vol.V(), 0, x) == if SameName(name, x) then Some(Node(true, start)) else None {
      OnlyThat(slots, p, name, start, x);
    }
  }

  /** A name that begins with a small letter is visible. */
  lemma LetterVisible(name: seq<byte>)
    requires name != [] && 97 <= name[0] <= 122
    ensures NeedLfn(name) && Visible(name)
  {
    assert TrimStart(name) == name;
    assert !Dropped(UpperByte(name[0]));
    assert Stem(name, 6)[0] == UpperByte(name[0]);
    assert GenerateShort(name)[0] == ShortHead(name)[0];
  }

  lemma SmallName(name: seq<byte>)
    requires |name| == 6 && forall i :: 0 <= i < 6 ==> 97 <= name[i] <= 122
    ensures IsName(name) && Visible(name) && LfnCount(name) == 1
  {
    LetterVisible(name);
  }

  lemma RootIs(v: Vol, v': Vol, slots: Slots)
    requires |v.clusters| > 0 && OnlyDirChanged(v, v', 0, slots)
    ensures v'.clusters == v.clusters && v'.fat == v.fat && DirSlots(v', 0) == slots
  {
  }

  /** Every name that answers to the entry leads to it, and no other name leads anywhere. */
  lemma OnlyThat(slots: Slots, p: nat, name: seq<byte>, start: nat, x: Token)
    requires AllUnused(slots) && WellFormed(slots) && start < 0x1_0000 && IsName(name) && Visible(name)
    requires FitsAt(slots, p, LfnCount(name) + 1)
    ensures NodeOf(Added(slots, p, name, ATTR_DIR, start, 0), x) == if SameName(name, x) then Some(Node(true, start)) else None
  {
    var added := Added(slots, p, name, ATTR_DIR, start, 0);
    UnusedFindsNothing(slots, x, Any);
    LookupAfterAdd(slots, p, name, ATTR_DIR, start, 0, x, Any);
    AddedShape(slots, p, name, ATTR_DIR, start, 0);
    DirReads(added, p, name, start);
    DirAnswers(name, x);
  }

  lemma DirAnswers(name: seq<byte>, x: Token)
    requires Visible(name)
    ensures Answers(name, ATTR_DIR, x, Any) <==> SameName(name, x)
  {
  }

  lemma DirReads(a: Slots, p: nat, name: seq<byte>, start: nat)
    requires IsName(name) && start < 0x1_0000 && RunAt(a, p, name, ATTR_DIR, start, 0)
    ensures p + LfnCount(name) < |a|
    ensures var s := a[p + LfnCount(name)]; IsDirSlot(s) && ClusterOf(s) == start
  {
    EntryReadsBack(ShortName(name), ATTR_DIR, start, 0);
  }

  /**
   * fat16_format_drive on a volume of this geometry, with the root as working directory.
   * Of the clusters below the size of protected_flags, those under /system keep their FAT
   * entry in both copies and every other one is free; no cluster is written; and the root
   * leads to /system and nowhere else.
   */
  method FormatDrive(vol: Volume, total: nat, preserve: bool, boot: Sector, beyond: seq<bool>, ghost t: Tree)
    returns (found: bool)
    requires vol.Valid() && HasFormat(vol.g, total) && WellFormed(DirSlots(vol.V(), 0)) && SystemShown(vol.g, vol.V(), t)
    modifies vol`disk
    ensures vol.Valid() && found == (preserve && ChildDir(LookOf(old(vol.V())), 0, System()).Some?)
    ensures Formatted(old(vol.V()), vol.V(), if found then Claims(t) else {}, total / 32 + 2)
    ensures found ==> SystemShown(vol.g, vol.V(), t)
    ensures RootLeads(vol.V(), System(), if found then ChildDir(LookOf(old(vol.V())), 0, System()) else None)
  {
    ghost var v := vol.V();
    found := false;
    var start := 0;
    if preserve {
      var entry := FindEntry(vol, 0, System());
      if entry.Some? && entry.value.isDir {
        found, start := true, entry.value.cluster;
      }
    }
    var n := total / 32 + 2;
    var flags, fat;
    if found {
      flags, fat := Protect(vol, start, n, t);
    } else {
      flags, fat := new bool[n](i => false), vol.V().fat;
    }
    Rebuild(vol, found, start, flags[..], beyond, fat, boot);
    NewFatKeeps(v, vol.V(), found, flags[..], beyond, Claims(t));
    if found {
      SystemStillShown(vol.g, v, vol.V(), n, t, start);
    }
  }

  /** The new root leads to the same directory, and everything under it is there. */
  lemma SystemStillShown(g: Geometry, v: Vol, v': Vol, n: nat, t: Tree, start: nat)
    requires Shaped(g, v) && Shaped(g, v') && g.limit <= n && Shows(g, v, t, true, start)
    requires Formatted(v, v', Claims(t), n) && RootLeads(v', System(), Some(start))
    ensures SystemShown(g, v', t)
  {
    SystemSurvives(g, v, v', Claims(t), n, t, true, start);
    assert LookIn(v', 0, System()) == Some(Node(true, start));
  }

  /** The writing part: boot sector, FATs, root directory. */
  method Rebuild(vol: Volume, found: bool, start: nat, flags: seq<bool>, beyond: seq<bool>, fat: seq<nat>, boot: Sector)
    requires vol.Valid() && vol.g.reserved >= 1 && vol.g.rootSectors == 32 && fat == vol.V().fat
    requires found ==> 2 <= start < 0x1_0000
    modifies vol`disk
    ensures vol.Valid() && vol.V().clusters == old(vol.V()).clusters && vol.V().fat == NewFat(found, flags, beyond, fat)
    ensures RootLeads(vol.V(), System(), if found then Some(start) else None)
  {
    FatWords(vol);
    vol.PutBootSector(boot);
    RewriteFat(vol, found, flags, beyond, fat);
    ClearRoot(vol);
    if found && start >= 2 {
      SmallName(System());
      RestoreEntry(vol, System(), start);
    } else {
      EmptyRoot(vol.V(), vol.g.rootSectors);
    }
  }

  lemma EmptyRoot(v: Vol, n: nat)
    requires v.root == Blank(n) && |v.clusters| > 0
    ensures RootLeads(v, System(), None)
  {
    BlankIsEmpty(n);
    forall x: Token ensures LookIn(v, 0, x).None? {
      UnusedFindsNothing(DirSlots(v, 0), x, Any);
    }
  }

  // ---------- what survives ----------

  lemma {:induction false} ClaimsInRange(g: Geometry, v: Vol, t: Tree, isDir: bool, start: nat)
    requires Shaped(g, v) && Shows(g, v, t, isDir, start)
    ensures forall c :: c in Claims(t) ==> 2 <= c < g.limit
    decreases t, 0
  {
    match t
    case File(chain) =>
    case Dir(c, kids) => ClaimsInRangeAll(g, v, kids, DirSlots(v, c), 0);
  }

  lemma {:induction false} ClaimsInRangeAll(g: Geometry, v: Vol, f: Forest, slots: Slots, k: nat)
    requires Shaped(g, v) && k <= |slots| && ShowsAll(g, v, f, slots, k)
    ensures forall c :: c in ClaimsAll(f) ==> 2 <= c < g.limit
    decreases f, |slots| - k
  {
    if k < |slots| && slots[k][0] != 0 {
      if Passed(slots[k]) {
        ClaimsInRangeAll(g, v, f, slots, k + 1);
      } else {
        ClaimsInRange(g, v, f.head, IsDirSlot(slots[k]), ClusterOf(slots[k]));
        ClaimsInRangeAll(g, v, f.tail, slots, k + 1);
      }
    }
  }

  /**
   * Everything under /system survives a format: from its directory entry down, every
   * directory and every file chain is what it was.
   */
  lemma {:induction false} SystemSurvives(g: Geometry, v: Vol, v': Vol, kept: set<nat>, n: nat, t: Tree, isDir: bool, start: nat)
    requires Shaped(g, v) && Shaped(g, v') && Formatted(v, v', kept, n) && g.limit <= n
    requires Shows(g, v, t, isDir, start) && Claims(t) <= kept
    ensures Shows(g, v', t, isDir, start)
    decreases t, 0
  {
    ClaimsInRange(g, v, t, isDir, start);
    match t
    case File(chain) =>
      if chain != [] {
        forall i | 0 <= i < |chain| ensures chain[i] in kept && v'.fat[chain[i]] == v.fat[chain[i]] {
          assert chain[i] in SetOf(chain);
        }
      }
    case Dir(c, kids) =>
      assert c in Claims(t);
      ForestSurvives(g, v, v', kept, n, kids, DirSlots(v, c), 0);
      assert DirSlots(v', c) == DirSlots(v, c);
  }

  lemma {:induction false} ForestSurvives(g: Geometry, v: Vol, v': Vol, kept: set<nat>, n: nat, f: Forest, slots: Slots, k: nat)
    requires Shaped(g, v) && Shaped(g, v') && Formatted(v, v', kept, n) && g.limit <= n
    requires k <= |slots| && ShowsAll(g, v, f, slots, k) && ClaimsAll(f) <= kept
    ensures ShowsAll(g, v', f, slots, k)
    decreases f, |slots| - k
  {
    if k < |slots| && slots[k][0] != 0 {
      if Passed(slots[k]) {
        ForestSurvives(g, v, v', kept, n, f, slots, k + 1);
      } else {
        SystemSurvives(g, v, v', kept, n, f.head, IsDirSlot(slots[k]), ClusterOf(slots[k]));
        ForestSurvives(g, v, v', kept, n, f.tail, slots, k + 1);
      }
    }
  }
}
