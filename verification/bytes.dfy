/** Byte sequences, and the positioned write that the file layers are compared with. */
module Bytes {
  import opened Common

  type byte = x: int | 0 <= x < 256

  const DOT: byte := 46
  const SLASH: byte := 47

  function IndexOf(s: seq<byte>, c: byte): (i: nat)
    ensures i <= |s| && (i < |s| ==> s[i] == c) && forall j :: 0 <= j < i ==> s[j] != c
  {
    if s == [] then 0 else if s[0] == c then 0 else 1 + IndexOf(s[1..], c)
  }

  /** The bytes of a C string. */
  predicate IsText(s: seq<byte>) {
    forall i :: 0 <= i < |s| ==> s[i] != 0
  }

  function Zeros(n: nat): (r: seq<byte>)
    ensures |r| == n && forall i :: 0 <= i < n ==> r[i] == 0
  {
    seq(n, i => 0)
  }

  /** Byte i of a file after buf was written at an offset. */
  function OverlayByte(was: seq<byte>, offset: nat, buf: seq<byte>, i: nat): byte {
    if offset <= i < offset + |buf| then buf[i - offset] else if i < |was| then was[i] else 0
  }

  /** A positioned write: the file grows as needed, and a gap before the offset fills with zeros. */
  function Overlay(was: seq<byte>, offset: nat, buf: seq<byte>): (r: seq<byte>)
    ensures |r| == Max(|was|, offset + |buf|)
  {
    seq(Max(|was|, offset + |buf|), i requires 0 <= i => OverlayByte(was, offset, buf, i))
  }

  /** The bytes written are there, the others stay, and the gap is zeros. */
  lemma OverlayMeans(was: seq<byte>, offset: nat, buf: seq<byte>)
    ensures var r := Overlay(was, offset, buf);
            && r[offset..offset + |buf|] == buf
            && (if offset <= |was| then r[..offset] == was[..offset] else r[..offset] == was + Zeros(offset - |was|))
            && (offset + |buf| <= |was| ==> r[offset + |buf|..] == was[offset + |buf|..])
  {
    var r := Overlay(was, offset, buf);
    assert forall i :: 0 <= i < |r| ==> r[i] == OverlayByte(was, offset, buf, i);
  }

  /** Two writes, one behind the other, are one. */
  lemma OverlayTwice(was: seq<byte>, offset: nat, a: seq<byte>, b: seq<byte>)
    ensures Overlay(Overlay(was, offset, a), offset + |a|, b) == Overlay(was, offset, a + b)
  {
    var once, twice, whole := Overlay(was, offset, a), Overlay(Overlay(was, offset, a), offset + |a|, b), Overlay(was, offset, a + b);
    forall i: nat | i < |whole| ensures twice[i] == whole[i] {
      if i < |once| {
        assert once[i] == OverlayByte(was, offset, a, i);
      }
    }
  }
}
