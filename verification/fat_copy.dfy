/** fat16_copy_file: a read in one directory and a write in another. */
module FatCopy {
  import opened Common
  import opened Bytes
  import opened FatNames
  import opened FatDir
  import opened FatDisk
  import opened FatDirIo
  import opened FatFiles
  import opened FatVolume
  import opened FatVolumeIo
  import opened PathText
  import opened FatPaths
  import opened FatChdir
  import opened FatFileSystem
  import C = FatChain

  /** The directory part of an argument, walked from the directory `comps`. */
  function WalkPart(look: Look, comps: seq<Token>, filename: seq<byte>): Option<seq<Token>> {
    Go(look, Start(DirPart(filename), comps), Tokens(DirPart(filename)))
  }

  /** A relative argument is walked along the path of that directory and on. */
  lemma WalkPartFromHome(look: Look, comps: seq<Token>, filename: seq<byte>)
    requires GoodPath(comps) && Walk(look, comps).Some? && LastSlash(filename) >= 0
    ensures var part := filename[..LastSlash(filename)];
            WalkPart(look, comps, filename) == Go(look, [], Tokens(if filename[0] == SLASH then part else Render(comps) + [SLASH] + part))
  {
    var i := LastSlash(filename);
    if i > 0 {
      FromHome(look, comps, filename[..i]);
    } else {
      assert Tokens(filename[..i]) == [] && Tokens([SLASH]) == [];
    }
  }

  /** The source: a directory, and in it nothing, a directory, or a stored file. */
  ghost predicate SourceAt(g: Geometry, v: Vol, from: seq<Token>, src: seq<byte>, sd: nat, h: Hit, cs: seq<nat>, data: seq<byte>) {
    Walk(LookOf(v), from) == Some(sd) && Readable(g, v, sd, BasePart(src), h, cs, data)
  }

  /** The destination: a directory, and a name that can be added to it. */
  ghost predicate DestinationAt(v: Vol, to: seq<Token>, dst: seq<byte>, dd: nat, comps: seq<Token>) {
    Walk(LookOf(v), to) == Some(dd) && CanAdd(v, dd, BasePart(dst), comps)
  }

  /** Everything a copy asks for.  A relative destination is walked from the source's directory. */
  ghost predicate CanCopy(g: Geometry, v: Vol, dirs: set<nat>, comps: seq<Token>, src: seq<byte>, dst: seq<byte>,
                          sd: nat, h: Hit, cs: seq<nat>, data: seq<byte>, dd: nat) {
    var look := LookOf(v);
    LastSlash(src) >= 0 && LastSlash(dst) >= 0 ==>
      && GoInside(look, dirs, Start(DirPart(src), comps), Tokens(DirPart(src)))
      && (WalkPart(look, comps, src).Some? ==>
            var from := WalkPart(look, comps, src).value;
            && SourceAt(g, v, from, src, sd, h, cs, data)
            && GoInside(look, dirs, Start(DirPart(dst), from), Tokens(DirPart(dst)))
            && (WalkPart(look, from, dst).Some? ==> DestinationAt(v, WalkPart(look, from, dst).value, dst, dd, comps)))
  }

  /** fat16_get_file_size, of a name without a directory part. */
  method FileSize(vol: Volume, d: nat, name: seq<byte>) returns (size: nat)
    requires vol.Valid() && DirOk(vol.g, vol.V(), d) && IsText(name)
    ensures size == 0 <==> Lookup(DirSlots(vol.V(), d), name, Any).None? || SizeZero(vol.V(), d, name)
    ensures forall h, cs, data :: Stores(vol.g, vol.V(), d, name, h, cs, data) ==> size == |data|
    ensures size < 0x1_0000_0000
  {
    HitIsEntry(DirSlots(vol.V(), d), 0, Clean, name, Any);
    var hit := ScanDir(vol, d, name, Any);
    if hit.None? {
      return 0;
    }
    var entry := EntryAtSlot(vol, d, hit.value.slot);
    SizeBound(entry);
    size := SizeOf(entry);
  }

  lemma SizeBound(s: Slot)
    ensures SizeOf(s) < 0x1_0000_0000
  {
  }

  /** The part between the two directory changes: the file's bytes, or failure. */
  method Fetch(vol: Volume, d: nat, name: seq<byte>, memory: bool, ghost h: Hit, ghost cs: seq<nat>, ghost data: seq<byte>)
    returns (ok: bool, out: seq<byte>)
    requires vol.Valid() && DirOk(vol.g, vol.V(), d) && IsText(name) && Readable(vol.g, vol.V(), d, name, h, cs, data)
    ensures ok <==> memory && Stores(vol.g, vol.V(), d, name, h, cs, data) && data != []
    ensures ok ==> out == data && |data| < 0x1_0000_0000
  {
    ok, out := false, [];
    var size := FileSize(vol, d, name);
    if size == 0 || !memory {
      return;
    }
    out := ReadIn(vol, d, name, 0, size, h, cs, data);
    ok := |out| == size;
  }

  /**
   * fat16_copy_file.  It succeeds exactly when the source is a stored file that is not empty and
   * both directories can be entered; then the destination gets the same bytes.  Whatever
   * happens, the working directory is back where it was.
   */
  method CopyFile(fs: FileSystem, src: seq<byte>, dst: seq<byte>, memory: bool, behind: Sector, ghost dirs: set<nat>, ghost comps: seq<Token>,
                  ghost sd: nat, ghost h: Hit, ghost cs: seq<nat>, ghost data: seq<byte>, ghost dd: nat)
    returns (ok: bool, ghost wrote: bool, ghost vm: Vol, ghost chain: seq<nat>, ghost p: nat)
    requires fs.Valid(dirs, comps) && Closed(fs.vol.V().fat)
    requires IsText(src) && |src| < MAX_PATH && IsText(dst) && |dst| < MAX_PATH
    requires CanCopy(fs.vol.g, fs.vol.V(), dirs, comps, src, dst, sd, h, cs, data, dd)
    requires |C.FreeBelow(fs.vol.V().fat, fs.vol.g.limit)| >= ClustersNeeded(|data|, fs.vol.g.sectorsPerCluster)
    modifies fs, fs.vol`disk
    ensures fs.Valid(dirs, comps) && fs.dir == old(fs.dir) && fs.path == old(fs.path)
    ensures ok <==> CopyGoes(fs.vol.g, old(fs.vol.V()), comps, src, dst, memory, sd, h, cs, data)
    ensures !ok ==> fs.vol.V() == old(fs.vol.V())
    ensures ok ==> WriteResult(wrote, fs.vol.g, old(fs.vol.V()), vm, fs.vol.V(), dd, BasePart(dst), chain, data, p)
    ensures ok ==> TreeKept(fs.vol.g, old(fs.vol.V()), fs.vol.V(), dirs, comps, fs.dir, fs.path)
  {
    ok, wrote, vm, chain, p := false, false, fs.vol.V(), [], 0;
    var i := FindLastSlash(src);
    var j := FindLastSlash(dst);
    if i < 0 || j < 0 {
      return;
    }
    var saved := fs.path;
    ghost var cwd := fs.dir;
    ok, wrote, vm, chain, p := Transfer(fs, src, dst, src[i + 1..], dst[j + 1..], memory, behind, dirs, comps, sd, h, cs, data, dd);
    fs.Leave(saved, true, dirs, comps);
  }

  /** Its middle: into the source's directory, read, into the destination's, write. */
  method Transfer(fs: FileSystem, src: seq<byte>, dst: seq<byte>, srcName: seq<byte>, dstName: seq<byte>, memory: bool, behind: Sector,
                  ghost dirs: set<nat>, ghost comps: seq<Token>, ghost sd: nat, ghost h: Hit, ghost cs: seq<nat>, ghost data: seq<byte>, ghost dd: nat)
    returns (ok: bool, ghost wrote: bool, ghost vm: Vol, ghost chain: seq<nat>, ghost p: nat)
    requires fs.Valid(dirs, comps) && Closed(fs.vol.V().fat)
    requires IsText(src) && |src| < MAX_PATH && IsText(dst) && |dst| < MAX_PATH
    requires LastSlash(src) >= 0 && LastSlash(dst) >= 0 && srcName == BasePart(src) && dstName == BasePart(dst)
    requires CanCopy(fs.vol.g, fs.vol.V(), dirs, comps, src, dst, sd, h, cs, data, dd)
    requires |C.FreeBelow(fs.vol.V().fat, fs.vol.g.limit)| >= ClustersNeeded(|data|, fs.vol.g.sectorsPerCluster)
    modifies fs, fs.vol`disk
    ensures fs.vol.Valid() && TreeKept(fs.vol.g, old(fs.vol.V()), fs.vol.V(), dirs, comps, old(fs.dir), old(fs.path))
    ensures ok <==> CopyGoes(fs.vol.g, old(fs.vol.V()), comps, src, dst, memory, sd, h, cs, data)
    ensures !ok ==> fs.vol.V() == old(fs.vol.V())
    ensures ok ==> WriteResult(wrote, fs.vol.g, old(fs.vol.V()), vm, fs.vol.V(), dd, dstName, chain, data, p)
  {
    wrote, vm, chain, p := false, fs.vol.V(), [], 0;
    ghost var saved := fs.path;
    ghost var cwd := fs.dir;
    ghost var from, to;
    PartFits(src);
    PartFits(dst);
    ok, from := fs.Chdir(DirPart(src), dirs, comps);
    if !ok {
      return;
    }
    var out;
    ok, out := FetchHere(fs, srcName, memory, dirs, from, sd, h, cs, data);
    if !ok {
      return;
    }
    ok, to := fs.Chdir(DirPart(dst), dirs, from);
    if !ok {
      return;
    }
    wrote, vm, chain, p := StoreHere(fs, dstName, out, behind, dirs, comps, to, dd, cwd, saved);
  }

  lemma PartFits(filename: seq<byte>)
    requires IsText(filename) && |filename| < MAX_PATH
    ensures IsText(DirPart(filename)) && |DirPart(filename)| < MAX_PATH
  {
  }

  /** When a copy goes through. */
  ghost predicate CopyGoes(g: Geometry, v: Vol, comps: seq<Token>, src: seq<byte>, dst: seq<byte>, memory: bool,
                           sd: nat, h: Hit, cs: seq<nat>, data: seq<byte>) {
    && LastSlash(src) >= 0 && LastSlash(dst) >= 0 && memory
    && WalkPart(LookOf(v), comps, src).Some?
    && Stores(g, v, sd, BasePart(src), h, cs, data) && data != []
    && WalkPart(LookOf(v), WalkPart(LookOf(v), comps, src).value, dst).Some?
  }

  method FetchHere(fs: FileSystem, name: seq<byte>, memory: bool, ghost dirs: set<nat>, ghost from: seq<Token>,
                   ghost sd: nat, ghost h: Hit, ghost cs: seq<nat>, ghost data: seq<byte>)
    returns (ok: bool, out: seq<byte>)
    requires fs.Valid(dirs, from) && Closed(fs.vol.V().fat) && IsText(name)
    requires Walk(LookOf(fs.vol.V()), from) == Some(sd) && Readable(fs.vol.g, fs.vol.V(), sd, name, h, cs, data)
    ensures ok <==> memory && Stores(fs.vol.g, fs.vol.V(), sd, name, h, cs, data) && data != []
    ensures ok ==> out == data && |data| < 0x1_0000_0000
  {
    DirReady(fs.vol.g, fs.vol.V(), dirs, LookOf(fs.vol.V()), from, fs.dir, fs.path);
    ok, out := Fetch(fs.vol, fs.dir, name, memory, h, cs, data);
  }

  method StoreHere(fs: FileSystem, name: seq<byte>, data: seq<byte>, behind: Sector, ghost dirs: set<nat>, ghost comps: seq<Token>,
                   ghost to: seq<Token>, ghost dd: nat, ghost cwd: nat, ghost saved: seq<byte>)
    returns (ghost wrote: bool, ghost vm: Vol, ghost chain: seq<nat>, ghost p: nat)
    requires fs.Valid(dirs, to) && Closed(fs.vol.V().fat) && |data| < 0x1_0000_0000
    requires Standing(LookOf(fs.vol.V()), comps, cwd, saved) && Inside(LookOf(fs.vol.V()), dirs, comps)
    requires Walk(LookOf(fs.vol.V()), to) == Some(dd) && CanAdd(fs.vol.V(), dd, name, comps)
    requires |C.FreeBelow(fs.vol.V().fat, fs.vol.g.limit)| >= ClustersNeeded(|data|, fs.vol.g.sectorsPerCluster)
    modifies fs.vol`disk
    ensures fs.vol.Valid() && TreeKept(fs.vol.g, old(fs.vol.V()), fs.vol.V(), dirs, comps, cwd, saved)
    ensures WriteResult(wrote, fs.vol.g, old(fs.vol.V()), vm, fs.vol.V(), dd, name, chain, data, p)
  {
    DirReady(fs.vol.g, fs.vol.V(), dirs, LookOf(fs.vol.V()), to, fs.dir, fs.path);
    var ok;
    ok, vm, chain, p := WriteIn(fs.vol, fs.dir, name, data, behind, dirs, comps, cwd, saved);
    wrote := ok;
  }
}
