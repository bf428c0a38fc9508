/**
 * File names of src/kernel/fs/fat_16/fat16.c: 8.3 names, VFAT long-name slots, and the
 * comparison that directory scans make.
 *
 * A directory slot is 32 bytes.  Its layout as a short entry and as a long-name entry is
 * that of the Microsoft FAT32 File System Specification 1.03, sections "FAT Directory
 * Structure" and "FAT Long Directory Entries".
 */
module FatNames {
  import opened FatConst
  import opened Bytes

  type Slot = s: seq<byte> | |s| == 32 witness seq(32, i => 0)
  type Short = s: seq<byte> | |s| == 11 witness seq(11, i => 0)
  /** lfn_buf. */
  type NameBuf = s: seq<byte> | |s| == 256 witness seq(256, i => 0)

  const SPACE: byte := 32
  const TILDE: byte := 126

  /** A name the directory code can hold: no terminator, and no byte that sign-extends to
      the long-name padding 0xFFFF. */
  predicate IsName(name: seq<byte>) {
    1 <= |name| <= 255 && forall i :: 0 <= i < |name| ==> name[i] != 0 && name[i] != 0xFF
  }

  // ---------- fat16_strcasecmp ----------

  function LowerByte(c: byte): byte {
    if 65 <= c <= 90 then c + 32 else c
  }

  function Lower(s: seq<byte>): seq<byte> {
    seq(|s|, i requires 0 <= i < |s| => LowerByte(s[i]))
  }

  /** The same letter, or the same byte. */
  predicate SameLetter(a: byte, b: byte) {
    a == b || (65 <= a <= 90 && b == a + 32) || (65 <= b <= 90 && a == b + 32)
  }

  lemma LowerMeans(a: seq<byte>, b: seq<byte>)
    ensures Lower(a) == Lower(b) <==> |a| == |b| && forall i :: 0 <= i < |a| ==> SameLetter(a[i], b[i])
  {
    if Lower(a) == Lower(b) {
      assert |a| == |Lower(a)| == |Lower(b)| == |b|;
      forall i | 0 <= i < |a| ensures SameLetter(a[i], b[i]) {
        assert Lower(a)[i] == Lower(b)[i];
      }
    }
  }

  /** Two C strings compare equal exactly when they are the same up to ASCII case. */
  method StrCaseCmp(s1: seq<byte>, s2: seq<byte>) returns (equal: bool)
    requires forall i :: 0 <= i < |s1| ==> s1[i] != 0
    requires forall i :: 0 <= i < |s2| ==> s2[i] != 0
    ensures equal <==> Lower(s1) == Lower(s2)
    ensures equal <==> |s1| == |s2| && forall i :: 0 <= i < |s1| ==> SameLetter(s1[i], s2[i])
  {
    LowerMeans(s1, s2);
    var i := 0;
    while i < |s1| && i < |s2|
      invariant 0 <= i <= |s1| && i <= |s2|
      invariant forall j :: 0 <= j < i ==> LowerByte(s1[j]) == LowerByte(s2[j])
    {
      var c1 := if 65 <= s1[i] <= 90 then s1[i] + 32 else s1[i];
      var c2 := if 65 <= s2[i] <= 90 then s2[i] + 32 else s2[i];
      if c1 != c2 {
        assert Lower(s1)[i] != Lower(s2)[i];
        return false;
      }
      i := i + 1;
    }
    // The difference of the bytes the loop stopped at, one of them a terminator.
    equal := i == |s1| && i == |s2|;
    assert equal ==> Lower(s1) == Lower(s2);
  }

  // ---------- format_filename_to_fat ----------

  function UpperByte(c: byte): byte {
    if 97 <= c <= 122 then c - 32 else c
  }

  /** Byte j of a field filled from `part`, upper-cased and padded with spaces. */
  function FieldByte(part: seq<byte>, j: nat): byte {
    if j < |part| then UpperByte(part[j]) else SPACE
  }

  /** A stem and an extension laid out in their two fields. */
  function Fields(stem: seq<byte>, ext: seq<byte>): Short {
    seq(11, j requires 0 <= j < 11 => FieldsByte(stem, ext, j))
  }

  function FieldsByte(stem: seq<byte>, ext: seq<byte>, j: nat): byte {
    if j < 8 then FieldByte(stem, j) else FieldByte(ext, j - 8)
  }

  function Format83(name: seq<byte>): Short {
    if name == [DOT] || name == [DOT, DOT] then seq(11, j requires 0 <= j < 11 => FieldByte(name, j))
    else
      var dot := IndexOf(name, DOT);
      var ext := if dot < |name| then name[dot + 1..] else [];
      Fields(name[..dot], ext)
  }

  method FormatFilename(name: seq<byte>) returns (output: seq<byte>)
    ensures output == Format83(name)
  {
    output := seq(11, i => SPACE);
    if name == [DOT] {
      output := output[0 := DOT];
      return;
    }
    if name == [DOT, DOT] {
      output := output[0 := DOT][1 := DOT];
      return;
    }
    var dot := 0;
    while dot < |name| && name[dot] != DOT
      invariant 0 <= dot <= IndexOf(name, DOT)
    {
      dot := dot + 1;
    }
    output := CopyField(name[..dot], output, 0, 8);
    output := CopyField(if dot < |name| then name[dot + 1..] else [], output, 8, 11);
  }

  /** Upper-cases as much of `part` as fits into the field [from, to) of a padded name. */
  method CopyField(part: seq<byte>, output0: Short, from: nat, to: nat) returns (output: Short)
    requires from <= to <= 11 && forall k :: from <= k < to ==> output0[k] == SPACE
    ensures forall k :: 0 <= k < 11 ==> output[k] == if from <= k < to then FieldByte(part, k - from) else output0[k]
  {
    output := output0;
    var i, j := 0, from;
    while i < |part| && j < to
      invariant 0 <= i <= |part| && j == from + i && j <= to
      invariant forall k :: 0 <= k < 11 ==> output[k] == if from <= k < j then UpperByte(part[k - from]) else output0[k]
    {
      output := output[j := if 97 <= part[i] <= 122 then part[i] - 32 else part[i]];
      i, j := i + 1, j + 1;
    }
  }

  // ---------- lfn_checksum ----------

  function Rotate(sum: byte, b: byte): byte {
    ((if sum % 2 == 1 then 0x80 else 0) + sum / 2 + b) % 256
  }

  function ChecksumOf(s: seq<byte>): byte {
    if s == [] then 0 else Rotate(ChecksumOf(s[..|s| - 1]), s[|s| - 1])
  }

  method LfnChecksum(s: Short) returns (sum: byte)
    ensures sum == ChecksumOf(s)
  {
    sum := 0;
    var n := 0;
    while n < 11
      invariant 0 <= n <= 11 && sum == ChecksumOf(s[..n])
    {
      assert s[..n + 1][..n] == s[..n];
      sum := Rotate(sum, s[n]);
      n := n + 1;
    }
    assert s[..11] == s;
  }

  // ---------- generate_short_name ----------

  predicate Skipped(c: byte) { c == DOT || c == SPACE }

  /** Characters dropped from the stem: space + , ; = [ ] */
  predicate Dropped(c: byte) { c in {32, 43, 44, 59, 61, 91, 93} }

  function TrimStart(s: seq<byte>): seq<byte> {
    if s != [] && Skipped(s[0]) then TrimStart(s[1..]) else s
  }

  /** The stem: up to `room` characters before the first dot. */
  function Stem(s: seq<byte>, room: nat): (r: seq<byte>)
    ensures |r| <= room
  {
    if s == [] || s[0] == DOT || room == 0 then []
    else
      var c := UpperByte(s[0]);
      if Dropped(c) then Stem(s[1..], room) else [c] + Stem(s[1..], room - 1)
  }

  /** A byte as the signed char the source sums. */
  function Signed(c: byte): int { if c >= 128 then c - 256 else c }

  function Sum(s: seq<byte>): int {
    if s == [] then 0 else Signed(s[0]) + Sum(s[1..])
  }

  /** C's remainder truncates toward zero. */
  function CRem9(n: int): int { if n >= 0 then n % 9 else -((-n) % 9) }

  function LastIndexOf(s: seq<byte>, c: byte): (i: int)
    ensures -1 <= i < |s| && (i >= 0 ==> s[i] == c)
  {
    if s == [] then -1 else if s[|s| - 1] == c then |s| - 1 else LastIndexOf(s[..|s| - 1], c)
  }

  /** The stem, a tilde and the digit that stands for the hash. */
  function ShortHead(name: seq<byte>): (head: seq<byte>)
    ensures 2 <= |head| <= 8
  {
    Stem(TrimStart(name), 6) + [TILDE, (49 + CRem9(Sum(name))) as byte]
  }

  function GenerateShort(name: seq<byte>): Short {
    var head := ShortHead(name);
    var dot := LastIndexOf(name, DOT);
    var ext := if dot > 0 then name[dot + 1..] else [];
    seq(11, j requires 0 <= j < 11 => if j < |head| then head[j] else FieldsByte([], ext, j))
  }

  lemma TrimOne(s: seq<byte>, i: nat)
    requires i < |s|
    ensures TrimStart(s[i..]) == if Skipped(s[i]) then TrimStart(s[i + 1..]) else s[i..]
    ensures Sum(s[i..]) == Signed(s[i]) + Sum(s[i + 1..])
  {
    assert s[i..][1..] == s[i + 1..];
  }

  lemma StemKept(s: seq<byte>, i: nat, head: seq<byte>, c: byte, room: nat, all: seq<byte>, rest: seq<byte>, r: seq<byte>)
    requires i < |s| && s[i] != DOT && c == UpperByte(s[i]) && !Dropped(c) && room > 0
    requires rest == Stem(s[i..], room) && r == Stem(s[i + 1..], room - 1) && all == head + rest
    ensures all == (head + [c]) + r
  {
    StemOne(s, i, room, rest);
    Regroup(head, [c], r);
  }

  lemma StemOne(s: seq<byte>, i: nat, room: nat, r: seq<byte>)
    requires i < |s| && s[i] != DOT && room > 0 && r == Stem(s[i..], room)
    ensures r == if Dropped(UpperByte(s[i])) then Stem(s[i + 1..], room) else [UpperByte(s[i])] + Stem(s[i + 1..], room - 1)
  {
    assert s[i..][1..] == s[i + 1..];
  }

  lemma Regroup(a: seq<byte>, b: seq<byte>, c: seq<byte>)
    ensures a + (b + c) == (a + b) + c
  {
  }

  lemma StemEnds(s: seq<byte>, i: nat, room: nat)
    requires i <= |s| && (i == |s| || s[i] == DOT || room == 0)
    ensures Stem(s[i..], room) == []
  {
  }

  method SkipBlanks(name: seq<byte>) returns (i: nat)
    ensures i <= |name| && TrimStart(name) == name[i..]
  {
    i := 0;
    assert name[0..] == name;
    while i < |name| && Skipped(name[i])
      invariant 0 <= i <= |name| && TrimStart(name) == TrimStart(name[i..])
    {
      TrimOne(name, i);
      i := i + 1;
    }
    if i < |name| {
      TrimOne(name, i);
    }
  }

  /** Up to six characters kept. */
  method KeepStem(name: seq<byte>, i0: nat) returns (head: seq<byte>)
    requires i0 <= |name|
    ensures head == Stem(name[i0..], 6)
  {
    ghost var all := Stem(name[i0..], 6);
    head := [];
    var i := i0;
    while i < |name| && name[i] != DOT && |head| < 6
      invariant i0 <= i <= |name| && |head| <= 6 && all == head + Stem(name[i..], 6 - |head|)
    {
      ghost var room := 6 - |head|;
      var c := if 97 <= name[i] <= 122 then name[i] - 32 else name[i];
      if !Dropped(c) {
        StemKept(name, i, head, c, room, all, Stem(name[i..], room), Stem(name[i + 1..], room - 1));
        head := head + [c];
      } else {
        StemOne(name, i, room, Stem(name[i..], room));
      }
      i := i + 1;
    }
    StemEnds(name, i, 6 - |head|);
  }

  method HashOf(name: seq<byte>) returns (hash: int)
    ensures hash == Sum(name)
  {
    hash := 0;
    var x := 0;
    assert name[0..] == name;
    while x < |name|
      invariant 0 <= x <= |name| && Sum(name) == hash + Sum(name[x..])
    {
      TrimOne(name, x);
      hash, x := hash + Signed(name[x]), x + 1;
    }
  }

  method LastDot(name: seq<byte>) returns (i: int)
    ensures i == LastIndexOf(name, DOT)
  {
    i := |name| - 1;
    assert name[..|name|] == name;
    while i >= 0 && name[i] != DOT
      invariant -1 <= i < |name| && LastIndexOf(name, DOT) == LastIndexOf(name[..i + 1], DOT)
    {
      assert name[..i + 1][..i] == name[..i];
      i := i - 1;
    }
  }

  method GenerateShortName(name: seq<byte>) returns (output: Short)
    ensures output == GenerateShort(name)
  {
    var i := SkipBlanks(name);
    var head := KeepStem(name, i);
    var hash := HashOf(name);
    head := head + [TILDE, (49 + CRem9(hash)) as byte];
    var dot := LastDot(name);
    var padded: Short := head + seq(11 - |head|, i => SPACE);
    var ext := if dot > 0 then name[dot + 1..] else [];
    output := CopyField(ext, padded, 8, 11);
    GeneratedIs(name, head, ext, output);
  }

  lemma GeneratedIs(name: seq<byte>, head: seq<byte>, ext: seq<byte>, output: Short)
    requires head == ShortHead(name) && var dot := LastIndexOf(name, DOT); ext == if dot > 0 then name[dot + 1..] else []
    requires forall k :: 0 <= k < |head| ==> output[k] == head[k]
    requires forall k :: |head| <= k < 8 ==> output[k] == SPACE
    requires forall k :: 8 <= k < 11 ==> output[k] == FieldByte(ext, k - 8)
    ensures output == GenerateShort(name)
  {
    forall k: nat | k < 11 ensures output[k] == GenerateShort(name)[k] {
      GeneratedAt(name, head, ext, k);
      PaddedAt(head, ext, output, k);
    }
  }

  lemma GeneratedAt(name: seq<byte>, head: seq<byte>, ext: seq<byte>, k: nat)
    requires head == ShortHead(name) && k < 11 && var dot := LastIndexOf(name, DOT); ext == if dot > 0 then name[dot + 1..] else []
    ensures GenerateShort(name)[k] == if k < |head| then head[k] else FieldsByte([], ext, k)
  {
  }

  lemma PaddedAt(head: seq<byte>, ext: seq<byte>, output: Short, k: nat)
    requires |head| <= 8 && k < 11
    requires forall j :: 0 <= j < |head| ==> output[j] == head[j]
    requires forall j :: |head| <= j < 8 ==> output[j] == SPACE
    requires forall j :: 8 <= j < 11 ==> output[j] == FieldByte(ext, j - 8)
    ensures output[k] == if k < |head| then head[k] else FieldsByte([], ext, k)
  {
  }

  /** The generated name: at most six characters of the name, none of them small, a blank, a dot or one of
      those dropped; a tilde; and a character that is a digit from 1 on if and only if the sum is not
      negative or a multiple of nine. */
  lemma GeneratedForm(name: seq<byte>)
    ensures var head := ShortHead(name); var n := |head| - 2;
            && 0 <= n <= 6 && head[n] == TILDE && (49 <= head[n + 1] <= 57 <==> Sum(name) >= 0 || Sum(name) % 9 == 0)
            && GenerateShort(name)[..|head|] == head
            && forall k :: 0 <= k < n ==> Kept(head[k])
  {
    StemClean(TrimStart(name), 6);
    TailDigit(Sum(name));
    assert forall k :: 0 <= k < |ShortHead(name)| - 2 ==> ShortHead(name)[k] == Stem(TrimStart(name), 6)[k];
  }

  lemma TailDigit(n: int)
    ensures 41 <= 49 + CRem9(n) <= 57 && (49 <= 49 + CRem9(n) <==> n >= 0 || n % 9 == 0)
  {
  }

  predicate Kept(c: byte) { c != DOT && !Dropped(c) && !(97 <= c <= 122) }

  lemma {:induction false} StemClean(s: seq<byte>, room: nat)
    ensures forall k :: 0 <= k < |Stem(s, room)| ==> Kept(Stem(s, room)[k])
    decreases |s|
  {
    if s != [] && s[0] != DOT && room != 0 {
      StemClean(s[1..], room);
      StemClean(s[1..], room - 1);
    }
  }

  // ---------- the choice made by add_dir_entry ----------

  predicate NeedLfn(name: seq<byte>) {
    || |name| > 12
    || exists i :: 0 <= i < |name| && (97 <= name[i] <= 122 || (name[i] == SPACE && i != |name| - 1))
  }

  function ShortName(name: seq<byte>): Short {
    if NeedLfn(name) then GenerateShort(name) else Format83(name)
  }

  function LfnCount(name: seq<byte>): nat {
    if NeedLfn(name) then (|name| + 12) / 13 else 0
  }

  // ---------- long-name slots ----------

  /** Where character i (of 13) of a long-name slot is stored. */
  function CharOffset(i: nat): nat
    requires i < 13
  {
    if i < 5 then 1 + 2 * i else if i < 11 then 14 + 2 * (i - 5) else 28 + 2 * (i - 11)
  }

  /** The character stored at slot offset k, or 13. */
  function CharIndex(k: nat): nat {
    if 1 <= k < 11 then (k - 1) / 2
    else if 14 <= k < 26 then 5 + (k - 14) / 2
    else if 28 <= k < 32 then 11 + (k - 28) / 2
    else 13
  }

  /** The 16-bit unit for name position j: the sign-extended char, then 0x0000, then 0xFFFF. */
  function LowUnit(name: seq<byte>, j: nat): byte {
    if j < |name| then name[j] else if j == |name| then 0 else 0xFF
  }

  function HighUnit(name: seq<byte>, j: nat): byte {
    if j < |name| then (if name[j] >= 128 then 0xFF else 0) else if j == |name| then 0 else 0xFF
  }

  /** Byte k of the slot for block `order` of the name. */
  function LfnByte(name: seq<byte>, order: nat, checksum: byte, last: bool, k: nat): byte
    requires 1 <= order <= 20 && k < 32
  {
    if k == 0 then (if last then order + 0x40 else order) as byte
    else if k == 11 then ATTR_LFN
    else if k == 13 then checksum
    else if CharIndex(k) == 13 then 0
    else
      var j := (order - 1) * 13 + CharIndex(k);
      if k == CharOffset(CharIndex(k)) then LowUnit(name, j) else HighUnit(name, j)
  }

  /** populate_lfn_entry. */
  function LfnSlot(name: seq<byte>, order: nat, checksum: byte, last: bool): Slot
    requires 1 <= order <= 20
  {
    seq(32, k requires 0 <= k < 32 => LfnByte(name, order, checksum, last, k))
  }

  function Unit(s: Slot, i: nat): nat
    requires i < 13
  {
    (s[CharOffset(i)] as int) + 256 * (s[CharOffset(i) + 1] as int)
  }

  function OrderOf(s: Slot): nat { s[0] % 32 }

  /** Characters i.. of a slot copied into the buffer from `at`, up to a 0x0000 or 0xFFFF unit. */
  function ExtractFrom(s: Slot, buf: NameBuf, at: nat, i: nat): NameBuf
    requires i <= 13
    decreases 13 - i
  {
    if i == 13 || at + i >= 256 then buf
    else if Unit(s, i) == 0 || Unit(s, i) == 0xFFFF then buf[at + i := 0]
    else ExtractFrom(s, buf[at + i := s[CharOffset(i)]], at, i + 1)
  }

  /** extract_lfn_chars. */
  function Extract(s: Slot, buf: NameBuf): NameBuf {
    if OrderOf(s) == 0 then buf else ExtractFrom(s, buf, (OrderOf(s) - 1) * 13, 0)
  }

  /** extract_lfn_chars writes inside lfn_buf. */
  predicate FitsBuf(s: Slot) {
    OrderOf(s) <= 19 || (OrderOf(s) == 20 && exists i :: 0 <= i < 9 && (Unit(s, i) == 0 || Unit(s, i) == 0xFFFF))
  }

  /** extract_lfn_chars, its three loops over name1, name2 and name3 as one over their characters. */
  method ExtractLfnChars(s: Slot, buf0: NameBuf) returns (buf: NameBuf)
    requires FitsBuf(s)
    ensures buf == Extract(s, buf0)
  {
    buf := buf0;
    if OrderOf(s) == 0 {
      return;
    }
    var at := (OrderOf(s) - 1) * 13;
    var i := 0;
    while i < 13
      invariant 0 <= i <= 13 && (i < 13 ==> at + i < 256)
      invariant ExtractFrom(s, buf0, at, 0) == ExtractFrom(s, buf, at, i)
      invariant OrderOf(s) == 20 ==> exists n :: i <= n < 9 && (Unit(s, n) == 0 || Unit(s, n) == 0xFFFF)
    {
      if Unit(s, i) == 0 || Unit(s, i) == 0xFFFF {
        buf := buf[at + i := 0];
        return;
      }
      buf := buf[at + i := s[CharOffset(i)]];
      i := i + 1;
    }
  }

  /** populate_lfn_entry, its three loops as one over the 13 characters. */
  method PopulateLfnEntry(name: seq<byte>, order: nat, checksum: byte, last: bool) returns (s: Slot)
    requires 1 <= order <= 20
    ensures s == LfnSlot(name, order, checksum, last)
  {
    s := seq(32, k => 0xFF);
    s := s[0 := if last then order + 0x40 else order];
    s := s[11 := ATTR_LFN][12 := 0][13 := checksum][26 := 0][27 := 0];
    var at := (order - 1) * 13;
    var i := 0;
    while i < 13
      invariant 0 <= i <= 13
      invariant forall k :: 0 <= k < 32 && (CharIndex(k) == 13 || CharIndex(k) < i) ==>
                  s[k] == LfnSlot(name, order, checksum, last)[k]
    {
      s := s[CharOffset(i) := LowUnit(name, at + i)][CharOffset(i) + 1 := HighUnit(name, at + i)];
      i := i + 1;
    }
    assert forall k :: 0 <= k < 32 ==> s[k] == LfnSlot(name, order, checksum, last)[k];
  }

  const ZeroBuf: NameBuf := Zeros(256)

  /** The C string a buffer holds. */
  function CString(buf: NameBuf): seq<byte> {
    buf[..IndexOf(buf, 0)]
  }

  /** Position i of the slot carries what belongs at position at + i of the name. */
  ghost predicate Carries(s: Slot, name: seq<byte>, at: nat, i: nat)
    requires i < 13
  {
    && s[CharOffset(i)] == LowUnit(name, at + i)
    && (Unit(s, i) == 0 || Unit(s, i) == 0xFFFF <==> at + i >= |name|)
  }

  lemma LfnUnits(name: seq<byte>, order: nat, checksum: byte, last: bool, i: nat)
    requires 1 <= order <= 20 && i < 13 && IsName(name)
    ensures Carries(LfnSlot(name, order, checksum, last), name, (order - 1) * 13, i)
  {
  }

  /** Reading back a slot that carries a block of a name places that block, and its
      terminator if it falls in the block, and nothing else. */
  lemma {:induction false} ExtractWritten(name: seq<byte>, s: Slot, at: nat, buf: NameBuf, i: nat, k: nat)
    requires |name| <= 255 && i <= 13 && k < 256 && at + i <= |name|
    requires forall n :: i <= n < 13 ==> Carries(s, name, at, n)
    ensures ExtractFrom(s, buf, at, i)[k] ==
            if at + i <= k < at + 13 && k <= |name| then (if k < |name| then name[k] else 0) else buf[k]
    decreases 13 - i
  {
    if i < 13 && at + i < 256 {
      assert Carries(s, name, at, i);
      if at + i < |name| {
        ExtractWritten(name, s, at, buf[at + i := s[CharOffset(i)]], i + 1, k);
      }
    }
  }

  lemma ExtractBlock(name: seq<byte>, order: nat, checksum: byte, last: bool, buf: NameBuf, k: nat)
    requires IsName(name) && 1 <= order <= 20 && (order - 1) * 13 <= |name| && k < 256
    ensures Extract(LfnSlot(name, order, checksum, last), buf)[k] ==
            if (order - 1) * 13 <= k < order * 13 && k <= |name| then (if k < |name| then name[k] else 0) else buf[k]
  {
    var s := LfnSlot(name, order, checksum, last);
    OrderWritten(name, order, checksum, last);
    var at := (order - 1) * 13;
    forall n | 0 <= n < 13 ensures Carries(s, name, at, n) {
      LfnUnits(name, order, checksum, last, n);
    }
    ExtractWritten(name, s, at, buf, 0, k);
  }

  /** The buffer after the slots for blocks `top` down to `order` have been read in turn. */
  function Gather(name: seq<byte>, top: nat, order: nat, checksum: byte, buf: NameBuf): NameBuf
    requires 1 <= order <= top + 1 && top <= 20
    decreases top - order + 1
  {
    if order == top + 1 then buf
    else Extract(LfnSlot(name, order, checksum, order == top), Gather(name, top, order + 1, checksum, buf))
  }

  lemma OrderWritten(name: seq<byte>, order: nat, checksum: byte, last: bool)
    requires 1 <= order <= 20
    ensures OrderOf(LfnSlot(name, order, checksum, last)) == order
  {
  }

  lemma BlockJoins(name: seq<byte>, order: nat, checksum: byte, last: bool, buf: NameBuf, k: nat)
    requires IsName(name) && 1 <= order <= 20 && (order - 1) * 13 <= |name| && k < 256
    requires buf[k] == if order * 13 <= k < |name| then name[k] else 0
    ensures Extract(LfnSlot(name, order, checksum, last), buf)[k] ==
            if (order - 1) * 13 <= k < |name| then name[k] else 0
  {
    ExtractBlock(name, order, checksum, last, buf, k);
  }

  lemma {:induction false} Gathered(name: seq<byte>, top: nat, order: nat, checksum: byte, buf: NameBuf, k: nat)
    requires IsName(name) && (top - 1) * 13 < |name| <= top * 13 && 1 <= order <= top + 1 <= 21
    requires k < 256 && buf[k] == 0
    ensures Gather(name, top, order, checksum, buf)[k] ==
            if (order - 1) * 13 <= k < |name| then name[k] else 0
    decreases top - order + 1
  {
    if order <= top {
      Gathered(name, top, order + 1, checksum, buf, k);
      BlockJoins(name, order, checksum, order == top, Gather(name, top, order + 1, checksum, buf), k);
    }
  }

  lemma IndexOfFirst(s: seq<byte>, c: byte, i: nat)
    requires i < |s| && s[i] == c && forall j :: 0 <= j < i ==> s[j] != c
    ensures IndexOf(s, c) == i
  {
  }

  /** Long names survive the trip through their slots: every name of 1 to 255 bytes, also
      when its length is a multiple of 13 and no slot holds a terminator. */
  lemma LongNameRoundTrip(name: seq<byte>, checksum: byte)
    requires IsName(name)
    ensures (|name| + 12) / 13 <= 20
    ensures var buf := Gather(name, (|name| + 12) / 13, 1, checksum, ZeroBuf);
            buf[0] != 0 && CString(buf) == name
  {
    var top := (|name| + 12) / 13;
    var buf := Gather(name, top, 1, checksum, ZeroBuf);
    forall k | 0 <= k < 256 ensures buf[k] == if k < |name| then name[k] else 0 {
      Gathered(name, top, 1, checksum, ZeroBuf, k);
    }
    IndexOfFirst(buf, 0, |name|);
    assert buf[0] == name[0];
    assert CString(buf) == name;
  }

  /** The slots populate_lfn_entry writes never overrun lfn_buf when read back. */
  lemma WrittenFits(name: seq<byte>, order: nat, checksum: byte, last: bool)
    requires IsName(name) && 1 <= order <= (|name| + 12) / 13
    ensures order <= 20 && FitsBuf(LfnSlot(name, order, checksum, last))
  {
    OrderWritten(name, order, checksum, last);
    if order == 20 {
      LfnUnits(name, order, checksum, last, |name| - 247);
    }
  }
}
