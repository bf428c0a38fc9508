/**
 * Which names the 8.3 form tells apart: what its eleven bytes say of a name, and so which names a
 * short entry answers to.
 */
module FatShortNames {
  import opened Common
  import opened Bytes
  import opened FatNames
  import opened FatDir
  import opened FatDirUpdate

  function Upper(s: seq<byte>): seq<byte> {
    seq(|s|, i requires 0 <= i < |s| => if 97 <= s[i] <= 122 then s[i] - 32 else s[i])
  }

  // ---------- reading the eleven bytes ----------

  function TrimEnd(s: seq<byte>): seq<byte> {
    if s != [] && s[|s| - 1] == SPACE then TrimEnd(s[..|s| - 1]) else s
  }

  function Spaces(n: nat): seq<byte> { seq(n, i => SPACE) }

  /** The two fields of a short name, without their padding. */
  function StemField(s: Short): seq<byte> { TrimEnd(s[..8]) }
  function ExtField(s: Short): seq<byte> { TrimEnd(s[8..]) }

  /** The name as a user writes it. */
  function Decode83(s: Short): seq<byte> {
    StemField(s) + if ExtField(s) == [] then [] else [DOT] + ExtField(s)
  }

  lemma {:induction false} TrimPadded(s: seq<byte>, n: nat)
    ensures TrimEnd(s + Spaces(n)) == TrimEnd(s)
    decreases n
  {
    if n > 0 {
      var t := s + Spaces(n);
      assert t[|t| - 1] == SPACE && t[..|t| - 1] == s + Spaces(n - 1);
      TrimPadded(s, n - 1);
    } else {
      assert s + Spaces(0) == s;
    }
  }

  /** Padding is all that trimming takes. */
  lemma {:induction false} PadTrimmed(s: seq<byte>)
    ensures |TrimEnd(s)| <= |s| && s == TrimEnd(s) + Spaces(|s| - |TrimEnd(s)|)
  {
    if s != [] && s[|s| - 1] == SPACE {
      var init := s[..|s| - 1];
      PadTrimmed(init);
      assert s == init + [SPACE];
      assert Spaces(|s| - |TrimEnd(s)|) == Spaces(|init| - |TrimEnd(init)|) + [SPACE];
    } else {
      assert Spaces(0) == [];
    }
  }

  lemma FieldsSame(a: seq<byte>, b: seq<byte>)
    requires |a| == |b|
    ensures TrimEnd(a) == TrimEnd(b) <==> a == b
  {
    PadTrimmed(a);
    PadTrimmed(b);
  }

  // ---------- what the format keeps of a name ----------

  predicate Dots(name: seq<byte>) { name == [DOT] || name == [DOT, DOT] }

  function Cut(s: seq<byte>, n: nat): seq<byte> { s[..Min(n, |s|)] }

  /** What is before the first dot, and what is behind it. */
  function StemOf(name: seq<byte>): seq<byte> { name[..IndexOf(name, DOT)] }
  function ExtOf(name: seq<byte>): seq<byte> { if IndexOf(name, DOT) < |name| then name[IndexOf(name, DOT) + 1..] else [] }

  lemma FieldIs(part: seq<byte>, field: seq<byte>, n: nat)
    requires |field| == n && forall j :: 0 <= j < n ==> field[j] == FieldByte(part, j)
    ensures field == Upper(Cut(part, n)) + Spaces(n - |Cut(part, n)|)
  {
  }

  /** The two fields are the stem and the extension, upper-cased and cut to eight and three. */
  lemma FormatReadsBack(name: seq<byte>)
    requires !Dots(name)
    ensures StemField(Format83(name)) == TrimEnd(Upper(Cut(StemOf(name), 8)))
    ensures ExtField(Format83(name)) == TrimEnd(Upper(Cut(ExtOf(name), 3)))
  {
    var s := Format83(name);
    FieldIs(StemOf(name), s[..8], 8);
    FieldIs(ExtOf(name), s[8..], 3);
    TrimPadded(Upper(Cut(StemOf(name), 8)), 8 - |Cut(StemOf(name), 8)|);
    TrimPadded(Upper(Cut(ExtOf(name), 3)), 3 - |Cut(ExtOf(name), 3)|);
  }

  lemma FieldsDecide(a: Short, b: Short)
    ensures a == b <==> StemField(a) == StemField(b) && ExtField(a) == ExtField(b)
  {
    FieldsSame(a[..8], b[..8]);
    FieldsSame(a[8..], b[8..]);
    assert a == a[..8] + a[8..] && b == b[..8] + b[8..];
  }

  /**
   * Two names have the same short form if and only if their stems agree in the first eight bytes and
   * their extensions in the first three, case and trailing spaces apart.
   */
  lemma SameShortForm(a: seq<byte>, b: seq<byte>)
    requires !Dots(a) && !Dots(b)
    ensures Format83(a) == Format83(b) <==>
              && TrimEnd(Upper(Cut(StemOf(a), 8))) == TrimEnd(Upper(Cut(StemOf(b), 8)))
              && TrimEnd(Upper(Cut(ExtOf(a), 3))) == TrimEnd(Upper(Cut(ExtOf(b), 3)))
  {
    FormatReadsBack(a);
    FormatReadsBack(b);
    FieldsDecide(Format83(a), Format83(b));
  }

  // ---------- names of the 8.3 form ----------

  /** stem, or stem.ext: one to eight and one to three bytes, no other dot, no trailing space. */
  predicate Is83(name: seq<byte>) {
    var d := IndexOf(name, DOT);
    && 1 <= d <= 8 && name[d - 1] != SPACE
    && (d < |name| ==> 1 <= |name| - d - 1 <= 3 && name[|name| - 1] != SPACE && forall i :: d < i < |name| ==> name[i] != DOT)
  }

  lemma NoTrim(s: seq<byte>)
    requires s != [] ==> s[|s| - 1] != SPACE
    ensures TrimEnd(s) == s
  {
  }

  lemma CutAt(name: seq<byte>, d: nat, stem: seq<byte>, ext: seq<byte>)
    requires d < |name| && name[d] == DOT && stem == name[..d] && ext == name[d + 1..]
    ensures name == stem + ([DOT] + ext)
  {
  }

  /** Such a name comes back from its eleven bytes, upper-cased. */
  lemma RoundTrip83(name: seq<byte>)
    requires Is83(name)
    ensures Decode83(Format83(name)) == Upper(name)
    ensures StemField(Format83(name)) == Upper(StemOf(name)) && ExtField(Format83(name)) == Upper(ExtOf(name))
  {
    var stem, ext, d := StemOf(name), ExtOf(name), IndexOf(name, DOT);
    KeptWhole(name, stem, ext);
    if d < |name| {
      CutAt(name, d, stem, ext);
      UpperJoins(stem, [DOT] + ext);
      UpperJoins([DOT], ext);
      assert Upper([DOT]) == [DOT];
    } else {
      assert stem == name && ext == [];
    }
  }

  lemma KeptWhole(name: seq<byte>, stem: seq<byte>, ext: seq<byte>)
    requires Is83(name) && stem == StemOf(name) && ext == ExtOf(name)
    ensures StemField(Format83(name)) == Upper(stem) && ExtField(Format83(name)) == Upper(ext)
  {
    FormatReadsBack(name);
    assert Cut(stem, 8) == stem && Cut(ext, 3) == ext;
    NoTrim(Upper(stem));
    NoTrim(Upper(ext));
  }

  lemma UpperJoins(a: seq<byte>, b: seq<byte>)
    ensures Upper(a + b) == Upper(a) + Upper(b)
  {
  }

  /** A short entry of such a name answers exactly to the names that differ from it in case at most. */
  lemma AnswersByCase(a: seq<byte>, b: seq<byte>)
    requires Is83(a) && Is83(b)
    ensures Format83(a) == Format83(b) <==> Upper(a) == Upper(b)
  {
    RoundTrip83(a);
    RoundTrip83(b);
    if Upper(a) == Upper(b) {
      SameParts(a, b);
      FieldsDecide(Format83(a), Format83(b));
    }
  }

  lemma SameParts(a: seq<byte>, b: seq<byte>)
    requires Upper(a) == Upper(b)
    ensures Upper(StemOf(a)) == Upper(StemOf(b)) && Upper(ExtOf(a)) == Upper(ExtOf(b))
  {
    var d := IndexOf(a, DOT);
    DotsSame(a, b);
    SameDot(a, b);
    UpperCut(a, 0, d);
    UpperCut(b, 0, d);
    assert a[0..d] == StemOf(a) && b[0..d] == StemOf(b);
    if d < |a| {
      UpperCut(a, d + 1, |a|);
      UpperCut(b, d + 1, |a|);
      assert a[d + 1..|a|] == ExtOf(a) && b[d + 1..|a|] == ExtOf(b);
    }
  }

  lemma UpperCut(s: seq<byte>, from: nat, to: nat)
    requires from <= to <= |s|
    ensures Upper(s[from..to]) == Upper(s)[from..to]
  {
  }

  lemma DotsSame(a: seq<byte>, b: seq<byte>)
    requires Upper(a) == Upper(b)
    ensures |a| == |b| && forall i :: 0 <= i < |a| ==> (a[i] == DOT <==> b[i] == DOT)
  {
    assert |Upper(a)| == |a| && |Upper(b)| == |b|;
    forall i | 0 <= i < |a| ensures a[i] == DOT <==> b[i] == DOT {
      assert Upper(a)[i] == Upper(b)[i];
    }
  }

  lemma SameDot(a: seq<byte>, b: seq<byte>)
    requires |a| == |b| && forall i :: 0 <= i < |a| ==> (a[i] == DOT <==> b[i] == DOT)
    ensures IndexOf(a, DOT) == IndexOf(b, DOT)
  {
  }

  lemma NoSmallLetters(name: seq<byte>)
    requires !NeedLfn(name)
    ensures Upper(name) == name
  {
  }

  /** Two names of the 8.3 form that need no long name are told apart. */
  lemma NamesToldApart(a: seq<byte>, b: seq<byte>)
    requires Is83(a) && Is83(b) && !NeedLfn(a) && !NeedLfn(b)
    ensures SameName(a, b) <==> a == b
  {
    AnswersByCase(a, b);
    NoSmallLetters(a);
    NoSmallLetters(b);
  }

  /** What that means for a scan that comes to the entry of such a name with nothing pending. */
  lemma EntryAnswers(s: Slot, a: seq<byte>, target: seq<byte>)
    requires Is83(a) && !NeedLfn(a) && Is83(target) && s[..11] == ShortName(a)
    ensures NameMatches(s, ZeroBuf, target) <==> Upper(target) == a
  {
    AnswersByCase(target, a);
    NoSmallLetters(a);
  }

  /** Names without a small letter or a space that are longer than that are cut, and two of them can
      be taken for each other. */
  lemma CutNamesClash(a: seq<byte>, b: seq<byte>)
    requires |a| == |b| == 9 && a[..8] == b[..8] && a[8] != b[8] && forall i :: 0 <= i < 9 ==> 65 <= a[i] <= 90 && 65 <= b[i] <= 90
    ensures IsName(a) && IsName(b) && !NeedLfn(a) && !NeedLfn(b) && a != b && SameName(a, b)
  {
    NoDot(a);
    NoDot(b);
    assert Cut(StemOf(a), 8) == a[..8] && Cut(StemOf(b), 8) == b[..8];
    SameShortForm(a, b);
  }

  lemma NoDot(a: seq<byte>)
    requires forall i :: 0 <= i < |a| ==> 65 <= a[i] <= 90
    ensures StemOf(a) == a && ExtOf(a) == []
  {
    assert IndexOf(a, DOT) == |a|;
  }

  // ---------- the checksum ----------

  lemma HalvesBack(x: byte)
    ensures var r := (if x % 2 == 1 then 0x80 else 0) + x / 2; r / 128 == x % 2 && r % 128 == x / 2
  {
  }

  lemma SumsTell(u: nat, v: nat, a: nat, b: nat)
    requires u < 256 && v < 256 && a < 256 && b < 256 && (u + a) % 256 == (v + b) % 256
    ensures a == b ==> u == v
    ensures u == v ==> a == b
  {
  }

  lemma RotateTells(x: byte, y: byte, a: byte, b: byte)
    requires Rotate(x, a) == Rotate(y, b)
    ensures a == b <==> x == y
  {
    HalvesBack(x);
    HalvesBack(y);
    SumsTell((if x % 2 == 1 then 0x80 else 0) + x / 2, (if y % 2 == 1 then 0x80 else 0) + y / 2, a, b);
  }

  /** The checksum that ties long-name slots to their entry sees every change of one byte. */
  lemma {:induction false} ChecksumSees(a: seq<byte>, b: seq<byte>, i: nat)
    requires i < |a| == |b| && a[i] != b[i] && forall j :: 0 <= j < |a| && j != i ==> a[j] == b[j]
    ensures ChecksumOf(a) != ChecksumOf(b)
    decreases |a|
  {
    var last := |a| - 1;
    if i == last {
      assert a[..last] == b[..last];
    } else {
      ChecksumSees(a[..last], b[..last], i);
    }
    if ChecksumOf(a) == ChecksumOf(b) {
      RotateTells(ChecksumOf(a[..last]), ChecksumOf(b[..last]), a[last], b[last]);
    }
  }
}
