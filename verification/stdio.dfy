/**
 * The buffered descriptors of src/usr/libs/stdio.c over the kernel's reads, writes and seeks,
 * for a regular file on a descriptor above 2.
 *
 * A stream stands for a file without buffers: `Abs` gives its bytes and its position.  Each
 * call is proved to do to that file what the unbuffered call would.
 */
module Stdio {
  import opened Common
  import opened Bytes

  const BUFFER := 4096
  const NEWLINE := 10

  datatype Whence = Set | Cur | End | Other

  // ---------- the file without buffers ----------

  /** `size` is the length recorded when the descriptor was opened, which SEEK_END uses. */
  datatype File = File(bytes: seq<byte>, pos: nat, size: nat)

  /** The n bytes from pos, as far as the file goes. */
  function Slice(bytes: seq<byte>, pos: nat, n: nat): seq<byte> {
    if pos >= |bytes| then [] else bytes[pos..Min(pos + n, |bytes|)]
  }

  function FileRead(f: File, n: nat): (File, seq<byte>) {
    var out := Slice(f.bytes, f.pos, n);
    (f.(pos := f.pos + |out|), out)
  }

  function FileWrite(f: File, data: seq<byte>): File {
    if data == [] then f else f.(bytes := Overlay(f.bytes, f.pos, data), pos := f.pos + |data|)
  }

  /** A line: bytes up to and including a newline, at most k. */
  function FileGets(f: File, k: nat): (File, seq<byte>)
    decreases k
  {
    if k == 0 then (f, [])
    else
      var (next, out) := FileRead(f, 1);
      if out == [] then (f, [])
      else if out[0] == NEWLINE then (next, out)
      else (FileGets(next, k - 1).0, out + FileGets(next, k - 1).1)
  }

  /** Where a seek would go, or None for an unknown origin. */
  function Goal(f: File, offset: int, whence: Whence): int
    requires whence != Other
  {
    match whence
    case Set => offset
    case Cur => f.pos + offset
    case End => f.size + offset
  }

  function FileSeek(f: File, offset: int, whence: Whence): (File, int) {
    if whence == Other || Goal(f, offset, whence) < 0 then (f, -1)
    else (f.(pos := Goal(f, offset, whence)), Goal(f, offset, whence))
  }

  // ---------- the stream ----------

  class Stream {
    /** The kernel's side: contents, current_offset and file_size. */
    var bytes: seq<byte>
    var offset: nat
    const size: nat

    const readBuffer: array<byte>
    var readHead: nat
    var readTail: nat
    var eof: bool
    const writeBuffer: array<byte>
    var writeCount: nat

    /** Between calls the write buffer is never full. */
    ghost predicate Valid()
      reads this, readBuffer, writeBuffer
    {
      Holding() && writeCount < BUFFER
    }

    ghost predicate Holding()
      reads this, readBuffer, writeBuffer
    {
      && readBuffer.Length == BUFFER && writeBuffer.Length == BUFFER && readBuffer != writeBuffer
      && readHead <= readTail <= BUFFER && writeCount <= BUFFER
      && Caching(bytes, offset, Unread())
      && (eof ==> Unread() == [] && offset >= |bytes|)
      && (writeCount == 0 || Unread() == [])
    }

    /** Bytes the kernel has handed over and the program has not. */
    function Unread(): seq<byte>
      requires readHead <= readTail <= readBuffer.Length
      reads this, readBuffer
    {
      readBuffer[readHead..readTail]
    }

    /** Bytes the program has handed over and the kernel has not got. */
    function Pending(): seq<byte>
      requires writeCount <= writeBuffer.Length
      reads this, writeBuffer
    {
      writeBuffer[..writeCount]
    }

    /** The file the program sees: the pending bytes written, and the position corrected by
        both buffers. */
    function Abs(): File
      requires Holding()
      reads this, readBuffer, writeBuffer
    {
      Logical(bytes, offset, size, Unread(), Pending())
    }

    // ---------- the kernel's calls ----------

    /** SYS_READ. */
    method SysRead(n: nat) returns (out: seq<byte>)
      modifies this`offset
      ensures out == Slice(bytes, old(offset), n) && offset == old(offset) + |out|
    {
      if offset >= |bytes| {
        return [];
      }
      out := bytes[offset..Min(offset + n, |bytes|)];
      offset := offset + |out|;
    }

    /** SYS_WRITE, when the kernel has the memory for it. */
    method SysWrite(data: seq<byte>)
      modifies this`bytes, this`offset
      ensures bytes == Overlay(old(bytes), old(offset), data) && offset == old(offset) + |data|
    {
      bytes := Overlay(bytes, offset, data);
      offset := offset + |data|;
    }

    /** SYS_LSEEK. */
    method SysLseek(distance: int, whence: Whence) returns (r: int)
      modifies this`offset
      ensures (File(bytes, offset, size), r) == FileSeek(File(bytes, old(offset), size), distance, whence)
    {
      var to := 0;
      match whence {
        case Set => to := distance;
        case Cur => to := offset + distance;
        case End => to := size + distance;
        case Other => return -1;
      }
      if to < 0 {
        return -1;
      }
      offset := to;
      r := offset;
    }

    // ---------- the library ----------

    constructor (bytes: seq<byte>)
      ensures Valid() && Abs() == File(bytes, 0, |bytes|) && Unread() == []
    {
      this.bytes, offset, size := bytes, 0, |bytes|;
      readBuffer, readHead, readTail, eof := new byte[BUFFER], 0, 0, false;
      writeBuffer, writeCount := new byte[BUFFER], 0;
    }

    /** fflush. */
    method Fflush()
      requires Holding()
      modifies this`bytes, this`offset, this`writeCount
      ensures Valid() && Abs() == old(Abs()) && writeCount == 0 && Unread() == old(Unread())
    {
      FlushedSame(bytes, offset, size, Unread(), Pending());
      if writeCount > 0 {
        SysWrite(writeBuffer[..writeCount]);
        writeCount := 0;
      }
    }

    method DrainWrites()
      requires Valid()
      modifies this`bytes, this`offset, this`writeCount
      ensures Valid() && Abs() == old(Abs()) && writeCount == 0 && Unread() == old(Unread())
    {
      if writeCount > 0 {
        Fflush();
      }
    }

    /** One byte from the read buffer. */
    method TakeOne() returns (out: seq<byte>)
      requires Valid() && Unread() != [] && writeCount == 0
      modifies this`readHead
      ensures Valid() && (Abs(), out) == FileRead(old(Abs()), 1) && |out| == 1
    {
      TakenIsRead(bytes, offset, size, Unread(), 1);
      CachingSuffix(bytes, offset, Unread(), 1);
      out := [readBuffer[readHead]];
      assert Unread()[..1] == out && Unread()[1..] == readBuffer[readHead + 1..readTail];
      readHead := readHead + 1;
    }

    /** The loop that hands over bytes from the read buffer. */
    method CopyOut(count: nat) returns (out: seq<byte>)
      requires readHead <= readTail <= readBuffer.Length
      modifies this`readHead
      ensures readHead == old(readHead) + |out| <= readTail && |out| == Min(count, readTail - old(readHead))
      ensures out == readBuffer[old(readHead)..readHead]
    {
      out := [];
      while readHead < readTail && |out| < count
        invariant readHead == old(readHead) + |out| <= readTail && |out| <= count
        invariant out == readBuffer[old(readHead)..readHead]
      {
        out := out + [readBuffer[readHead]];
        readHead := readHead + 1;
      }
    }

    /** What that does to the file the program sees. */
    method TakeUnread(count: nat) returns (out: seq<byte>)
      requires Valid()
      modifies this`readHead
      ensures Valid() && |out| == Min(count, |old(Unread())|)
      ensures out == old(Unread())[..|out|] && Unread() == old(Unread())[|out|..]
      ensures writeCount == 0 ==> (Abs(), out) == FileRead(old(Abs()), |out|)
    {
      ghost var unread := Unread();
      out := CopyOut(count);
      assert out == unread[..|out|] && Unread() == unread[|out|..];
      CachingSuffix(bytes, offset, unread, |out|);
      TakenIsRead(bytes, offset, size, unread, |out|);
    }

    /** One sys_read into the read buffer, which is empty. */
    method Refill() returns (r: nat)
      requires Valid() && Unread() == [] && writeCount == 0
      modifies this`offset, this`readHead, this`readTail, this`eof, readBuffer
      ensures Valid() && Abs() == old(Abs()) && Unread() == Slice(bytes, old(Abs()).pos, BUFFER) && r == |Unread()|
      ensures eof == (old(eof) || r == 0)
    {
      var got := SysRead(BUFFER);
      r := |got|;
      if r == 0 {
        eof := true;
        return;
      }
      var i := 0;
      while i < r
        invariant 0 <= i <= r && readBuffer[..i] == got[..i]
        modifies readBuffer
      {
        readBuffer[i] := got[i];
        i := i + 1;
      }
      readHead, readTail := 0, r;
      assert readBuffer[0..r] == got;
    }

    /** read. */
    method Read(count: nat) returns (out: seq<byte>)
      requires Valid()
      modifies this, readBuffer
      ensures Valid() && (Abs(), out) == FileRead(old(Abs()), count)
    {
      if count == 0 {
        return [];
      }
      DrainWrites();
      ghost var f := Abs();
      out := TakeUnread(count);
      ghost var f1 := Abs();
      assert (f1, out) == FileRead(f, |out|);
      var remaining := count - |out|;
      if remaining > 0 {
        assert Unread() == [];
        var more := ReadOn(remaining);
        ReadTwice(f, f1, Abs(), out, more, remaining, count);
        out := out + more;
      }
    }

    /** fgetc: the next byte, or nothing at the end of the file. */
    method Fgetc() returns (out: seq<byte>)
      requires Valid()
      modifies this, readBuffer
      ensures Valid() && (Abs(), out) == FileRead(old(Abs()), 1)
    {
      DrainWrites();
      if readHead >= readTail {
        if eof {
          return [];
        }
        SliceGrows(bytes, Abs().pos, 1);
        var r := Refill();
        if r == 0 {
          return [];
        }
      }
      out := TakeOne();
    }

    /** fgets into a buffer of n bytes: the line, or `got` false when not even one byte was there. */
    method Fgets(n: int) returns (line: seq<byte>, got: bool)
      requires Valid()
      modifies this, readBuffer
      ensures Valid()
      ensures n <= 0 ==> !got && line == [] && Abs() == old(Abs())
      ensures n > 0 ==> (Abs(), line) == FileGets(old(Abs()), n - 1) && (got <==> line != [] || n == 1)
    {
      if n <= 0 {
        return [], false;
      }
      line := GetLine(n - 1);
      got := line != [] || n == 1;
    }

    /** Its loop: up to k bytes, a newline, or the end of the file. */
    method GetLine(k: nat) returns (line: seq<byte>)
      requires Valid()
      modifies this, readBuffer
      ensures Valid() && (Abs(), line) == FileGets(old(Abs()), k)
    {
      line := [];
      ghost var f0 := Abs();
      ghost var f := f0;
      GetsNothing(f0, k);
      while |line| < k
        invariant Valid() && Abs() == f && |line| <= k
        invariant GetsSoFar(f0, k, line, f)
        modifies this, readBuffer
        decreases k - |line|
      {
        var ch := Fgetc();
        GetsStep(f0, k, line, f);
        f := FileRead(f, 1).0;
        if ch == [] {
          return;
        }
        line := line + ch;
        if ch[0] == NEWLINE {
          return;
        }
      }
      GetsFull(f0, k, line, f);
    }

    // ---------- writing ----------

    /** Bytes copied behind the pending ones; a full buffer is flushed. */
    method Stash(chunk: seq<byte>)
      requires Valid() && Unread() == [] && |chunk| <= BUFFER - writeCount
      modifies this`bytes, this`offset, this`writeCount, writeBuffer
      ensures Valid() && Unread() == [] && Abs() == FileWrite(old(Abs()), chunk)
    {
      var i := 0;
      var from := writeCount;
      while i < |chunk|
        invariant 0 <= i <= |chunk| && writeBuffer[..from] == old(Pending()) && writeBuffer[from..from + i] == chunk[..i]
        modifies writeBuffer
      {
        writeBuffer[from + i] := chunk[i];
        i := i + 1;
      }
      writeCount := from + |chunk|;
      assert Pending() == old(Pending()) + chunk;
      WriteTwice(File(bytes, offset, size), old(Pending()), chunk);
      if writeCount == BUFFER {
        Fflush();
      }
    }

    /** One turn of write's loop: the rest in one go, or as much as the buffer takes. */
    method WritePart(rest: seq<byte>) returns (n: nat)
      requires Valid() && Unread() == [] && rest != []
      modifies this`bytes, this`offset, this`writeCount, writeBuffer
      ensures Valid() && Unread() == [] && 0 < n <= |rest| && Abs() == FileWrite(old(Abs()), rest[..n])
    {
      if writeCount == 0 && |rest| >= BUFFER {
        SysWrite(rest);
        n := |rest|;
        assert rest[..n] == rest;
      } else {
        var available := BUFFER - writeCount;
        n := if |rest| < available then |rest| else available;
        Stash(rest[..n]);
      }
    }

    /** write, after a positioning call or another write. */
    method Write(data: seq<byte>) returns (written: nat)
      requires Valid() && Unread() == []
      modifies this`bytes, this`offset, this`writeCount, writeBuffer
      ensures Valid() && Unread() == [] && Abs() == FileWrite(old(Abs()), data) && written == |data|
    {
      written := 0;
      ghost var f := Abs();
      while written < |data|
        invariant 0 <= written <= |data| && Valid() && Unread() == []
        invariant Abs() == FileWrite(f, data[..written])
        modifies this`bytes, this`offset, this`writeCount, writeBuffer
      {
        var n := WritePart(data[written..]);
        WriteMore(f, data, written, n);
        written := written + n;
      }
      assert data[..written] == data;
    }

    // ---------- seeking ----------

    /**
     * lseek.  A seek that succeeds does what it would do on the file.  One that fails has
     * thrown the read buffer away: the position moves on by the bytes that were unread.
     */
    method Lseek(distance: int, whence: Whence) returns (r: int)
      requires Valid()
      modifies this
      ensures Valid() && Unread() == [] && writeCount == 0
      ensures r == FileSeek(old(Abs()), distance, whence).1
      ensures r >= 0 ==> Abs() == FileSeek(old(Abs()), distance, whence).0
      ensures r < 0 ==> Abs() == old(Abs()).(pos := old(Abs()).pos + |old(Unread())|)
    {
      Fflush();
      var to := distance;
      if whence == Cur {
        to := distance - (readTail - readHead);
      }
      readHead, readTail, eof := 0, 0, false;
      r := SysLseek(to, whence);
    }

    /** The rest of a read that has emptied the read buffer: a large one goes straight to the
        caller, a small one through the buffer. */
    method ReadOn(remaining: nat) returns (more: seq<byte>)
      requires Valid() && writeCount == 0 && Unread() == [] && remaining > 0
      modifies this`offset, this`readHead, this`readTail, this`eof, readBuffer
      ensures Valid() && (Abs(), more) == FileRead(old(Abs()), remaining)
    {
      more := [];
      if remaining >= BUFFER {
        more := SysRead(remaining);
      } else if !eof {
        var r := Refill();
        SliceGrows(bytes, old(Abs()).pos, remaining);
        if r > 0 {
          more := TakeUnread(remaining);
        }
      }
    }
  }

  /** A short read is answered by the buffer, however little of it the file could fill. */
  lemma SliceGrows(bytes: seq<byte>, pos: nat, n: nat)
    requires n < BUFFER
    ensures var k := Min(n, |Slice(bytes, pos, BUFFER)|);
            k == |Slice(bytes, pos, n)| && Slice(bytes, pos, BUFFER)[..k] == Slice(bytes, pos, k) == Slice(bytes, pos, n)
  {
  }

  /** Reading `a` in full and then n bytes more is one read. */
  lemma ReadTwice(f: File, f1: File, f2: File, a: seq<byte>, b: seq<byte>, n: nat, total: nat)
    requires (f1, a) == FileRead(f, |a|) && (f2, b) == FileRead(f1, n) && total == |a| + n
    ensures (f2, a + b) == FileRead(f, total)
  {
    var end := Min(f.pos + |a| + n, |f.bytes|);
    if a != [] {
      assert f.bytes[f.pos..f.pos + |a|] + f.bytes[f.pos + |a|..end] == f.bytes[f.pos..end];
    } else {
      assert a + b == b;
    }
  }

  lemma WriteTwice(f: File, a: seq<byte>, b: seq<byte>)
    ensures FileWrite(FileWrite(f, a), b) == FileWrite(f, a + b)
  {
    if a == [] {
      assert a + b == b;
    } else if b == [] {
      assert a + b == a;
    } else {
      OverlayTwice(f.bytes, f.pos, a, b);
    }
  }

  lemma WriteMore(f: File, data: seq<byte>, written: nat, n: nat)
    requires written + n <= |data|
    ensures FileWrite(FileWrite(f, data[..written]), data[written..][..n]) == FileWrite(f, data[..written + n])
  {
    WriteTwice(f, data[..written], data[written..][..n]);
    assert data[..written] + data[written..][..n] == data[..written + n];
  }

  /** The line so far, with the file at f and no newline met. */
  ghost predicate GetsSoFar(f0: File, k: nat, line: seq<byte>, f: File) {
    |line| <= k && FileGets(f0, k) == (FileGets(f, k - |line|).0, line + FileGets(f, k - |line|).1)
  }

  lemma GetsNothing(f: File, k: nat)
    ensures GetsSoFar(f, k, [], f)
  {
    assert [] + FileGets(f, k).1 == FileGets(f, k).1;
  }

  lemma GetsFull(f0: File, k: nat, line: seq<byte>, f: File)
    requires GetsSoFar(f0, k, line, f) && |line| == k
    ensures FileGets(f0, k) == (f, line)
  {
    assert line + [] == line;
  }

  lemma GetsStep(f0: File, k: nat, line: seq<byte>, f: File)
    requires GetsSoFar(f0, k, line, f) && |line| < k
    ensures var (next, out) := FileRead(f, 1);
            if out == [] then next == f && FileGets(f0, k) == (f, line)
            else if out[0] == NEWLINE then FileGets(f0, k) == (next, line + out)
            else |out| == 1 && GetsSoFar(f0, k, line + out, next)
  {
    var (next, out) := FileRead(f, 1);
    if out == [] {
      assert line + [] == line;
    } else if out[0] != NEWLINE {
      var rest := FileGets(next, k - |line| - 1).1;
      assert line + (out + rest) == (line + out) + rest;
    }
  }

  lemma TakenIsRead(bytes: seq<byte>, offset: nat, size: nat, unread: seq<byte>, n: nat)
    requires Caching(bytes, offset, unread) && n <= |unread|
    ensures FileRead(Logical(bytes, offset, size, unread, []), n) == (Logical(bytes, offset, size, unread[n..], []), unread[..n])
  {
    var from := offset - |unread|;
    if n > 0 {
      assert bytes[from..offset][..n] == bytes[from..from + n];
    }
  }

  lemma CachingSuffix(bytes: seq<byte>, offset: nat, unread: seq<byte>, n: nat)
    requires Caching(bytes, offset, unread) && n <= |unread|
    ensures Caching(bytes, offset, unread[n..])
  {
  }

  /** The unread bytes are the ones just before the kernel's offset. */
  predicate Caching(bytes: seq<byte>, offset: nat, unread: seq<byte>) {
    |unread| <= offset && (unread == [] || (offset <= |bytes| && bytes[offset - |unread|..offset] == unread))
  }

  /** logical position = kernel offset - unread bytes + pending bytes. */
  function Logical(bytes: seq<byte>, offset: nat, size: nat, unread: seq<byte>, pending: seq<byte>): File
    requires |unread| <= offset
  {
    FileWrite(File(bytes, offset - |unread|, size), pending)
  }

  lemma FlushedSame(bytes: seq<byte>, offset: nat, size: nat, unread: seq<byte>, pending: seq<byte>)
    requires Caching(bytes, offset, unread) && (pending == [] || unread == [])
    ensures pending != [] ==>
              Logical(Overlay(bytes, offset, pending), offset + |pending|, size, unread, []) == Logical(bytes, offset, size, unread, pending)
  {
  }

  // ---------- what a line is ----------

  /** fgets reads a piece of the file: at most k bytes, of which only the last can be a
      newline; and it stops short only at a newline or the end of the file. */
  lemma {:induction false} GetsIsLine(f: File, k: nat)
    ensures var (next, line) := FileGets(f, k);
            && (next, line) == FileRead(f, |line|) && |line| <= k
            && (forall i :: 0 <= i < |line| - 1 ==> line[i] != NEWLINE)
            && (|line| == k || (line != [] && line[|line| - 1] == NEWLINE) || next.pos >= |next.bytes|)
    decreases k
  {
    if k > 0 {
      var (next, out) := FileRead(f, 1);
      if out != [] && out[0] != NEWLINE {
        GetsIsLine(next, k - 1);
        var (end, rest) := FileGets(next, k - 1);
        ReadTwice(f, next, end, out, rest, |rest|, 1 + |rest|);
      }
    }
  }

  // ---------- where a seek arrives ----------

  /** From the start: a read then gets the bytes from there on. */
  lemma SeekFromStart(f: File, k: nat, n: nat)
    ensures var (g, r) := FileSeek(f, k, Set);
            r == k && g.bytes == f.bytes && (k <= |f.bytes| ==> FileRead(g, n).1 == f.bytes[k..Min(k + n, |f.bytes|)])
  {
  }

  /** From the end, when the size on record is the file's: a read then gets the last bytes.  Before the
      start of the file no seek goes. */
  lemma SeekFromEnd(f: File, n: nat)
    requires f.size == |f.bytes|
    ensures n <= |f.bytes| ==>
              var (g, r) := FileSeek(f, 0 - n, End);
              r == |f.bytes| - n && g.bytes == f.bytes && FileRead(g, n).1 == f.bytes[|f.bytes| - n..]
    ensures n > |f.bytes| ==> FileSeek(f, 0 - n, End) == (f, -1)
  {
  }

  /** From where it stands: by nothing, it says where; and two steps are one. */
  lemma SeekFromHere(f: File, a: int, b: int)
    ensures FileSeek(f, 0, Cur) == (f, f.pos)
    ensures var (g, r) := FileSeek(f, a, Cur);
            r >= 0 && FileSeek(g, b, Cur).1 >= 0 ==> FileSeek(g, b, Cur) == FileSeek(f, a + b, Cur)
    ensures f.pos + a < 0 ==> FileSeek(f, a, Cur) == (f, -1)
  {
  }

  /** What was written is read back, and nothing else has changed but what lay between the end of the
      file and it, which is zero. */
  lemma WriteThenRead(f: File, data: seq<byte>)
    requires data != []
    ensures var g := FileWrite(f, data);
            && g.pos == f.pos + |data| && FileSeek(g, 0 - |data|, Cur).1 == f.pos && FileRead(FileSeek(g, 0 - |data|, Cur).0, |data|).1 == data
            && |g.bytes| == Max(|f.bytes|, f.pos + |data|)
            && (forall i :: 0 <= i < |f.bytes| && !(f.pos <= i < f.pos + |data|) ==> g.bytes[i] == f.bytes[i])
            && (forall i :: |f.bytes| <= i < f.pos ==> g.bytes[i] == 0)
  {
    var g := FileWrite(f, data);
    assert forall i :: 0 <= i < |g.bytes| ==> g.bytes[i] == OverlayByte(f.bytes, f.pos, data, i);
    assert g.bytes[f.pos..f.pos + |data|] == data;
  }

  // ---------- when write is right ----------

  /** The file contents after a write of data while `unread` bytes are buffered: the kernel
      writes at its own offset. */
  function WrittenThrough(bytes: seq<byte>, offset: nat, data: seq<byte>): seq<byte> {
    if data == [] then bytes else Overlay(bytes, offset, data)
  }

  /**
   * A write does what it should for every data exactly when no bytes are left unread, which
   * is what a positioning call makes sure of.
   */
  lemma WriteNeedsEmptyBuffer(bytes: seq<byte>, offset: nat, size: nat, unread: seq<byte>)
    requires Caching(bytes, offset, unread)
    ensures unread == [] <==>
              forall data :: WrittenThrough(bytes, offset, data) == FileWrite(Logical(bytes, offset, size, unread, []), data).bytes
  {
    var at := offset - |unread|;
    if unread != [] {
      var b: byte := if bytes[at] == 0 then 1 else 0;
      var data := [b];
      assert Overlay(bytes, at, data)[at] == OverlayByte(bytes, at, data, at);
      assert Overlay(bytes, offset, data)[at] == OverlayByte(bytes, offset, data, at);
      assert WrittenThrough(bytes, offset, data) != FileWrite(Logical(bytes, offset, size, unread, []), data).bytes;
    }
  }

  // ---------- whole sessions ----------

  datatype Op = Read(n: nat) | Getc | Gets(room: int) | Write(data: seq<byte>) | Flush | Seek(distance: int, whence: Whence)
  datatype Answer = Bytes(bytes: seq<byte>) | Number(n: int)

  function Step(f: File, op: Op): (File, Answer) {
    match op
    case Read(n) => (FileRead(f, n).0, Bytes(FileRead(f, n).1))
    case Getc => (FileRead(f, 1).0, Bytes(FileRead(f, 1).1))
    case Gets(n) => if n <= 0 then (f, Bytes([])) else (FileGets(f, n - 1).0, Bytes(FileGets(f, n - 1).1))
    case Write(data) => (FileWrite(f, data), Number(|data|))
    case Flush => (f, Number(0))
    case Seek(distance, whence) => (FileSeek(f, distance, whence).0, Number(FileSeek(f, distance, whence).1))
  }

  function After(f: File, ops: seq<Op>): File {
    if ops == [] then f else Step(After(f, ops[..|ops| - 1]), ops[|ops| - 1]).0
  }

  predicate AtEnd(f: File) { f.pos >= |f.bytes| }

  /** No bytes can be left unread: the last input has been followed by a positioning call, or it
      has reached the end of the file. */
  predicate Positioned(f: File, ops: seq<Op>) {
    if ops == [] then true
    else
      || AtEnd(After(f, ops))
      || var last := ops[|ops| - 1];
         last.Seek? || ((last.Write? || last.Flush?) && Positioned(f, ops[..|ops| - 1]))
  }

  /** A write may follow input only after a positioning call or at the end of the file (C11,
      section 7.21.5.3, paragraph 7); and so may a seek to a position that does not exist. */
  predicate PermittedAt(f: File, ops: seq<Op>, i: nat)
    requires i < |ops|
  {
    && (ops[i].Write? ==> Positioned(f, ops[..i]))
    && (ops[i].Seek? ==> FileSeek(After(f, ops[..i]), ops[i].distance, ops[i].whence).1 >= 0 || Positioned(f, ops[..i]))
  }

  ghost predicate Permitted(f: File, ops: seq<Op>) {
    forall i: nat {:trigger PermittedAt(f, ops, i)} :: i < |ops| ==> PermittedAt(f, ops, i)
  }

  /** What the file without buffers answers to call i. */
  function AnswerAt(f: File, ops: seq<Op>, i: nat): Answer
    requires i < |ops|
  {
    Step(After(f, ops[..i]), ops[i]).1
  }

  lemma OneMore(f: File, ops: seq<Op>, i: nat)
    requires i < |ops|
    ensures After(f, ops[..i + 1]) == Step(After(f, ops[..i]), ops[i]).0
    ensures Positioned(f, ops[..i + 1]) <==>
            AtEnd(After(f, ops[..i + 1])) || ops[i].Seek? || (Positioned(f, ops[..i]) && (ops[i].Write? || ops[i].Flush?))
  {
    var longer := ops[..i + 1];
    assert longer[..|longer| - 1] == ops[..i] && longer[|longer| - 1] == ops[i];
  }

  lemma NothingPending(bytes: seq<byte>, offset: nat, size: nat, unread: seq<byte>, pending: seq<byte>)
    requires |unread| <= offset && pending == []
    ensures Logical(bytes, offset, size, unread, pending).bytes == bytes
  {
  }

  /** At the end of the file nothing is left unread. */
  lemma NothingUnreadAtEnd(bytes: seq<byte>, offset: nat, size: nat, unread: seq<byte>, pending: seq<byte>)
    requires Caching(bytes, offset, unread) && (pending == [] || unread == [])
    requires AtEnd(Logical(bytes, offset, size, unread, pending))
    ensures unread == []
  {
  }

  /** A call that reads. */
  method Input(s: Stream, op: Op) returns (answer: Answer)
    requires s.Valid() && (op.Read? || op.Getc? || op.Gets?)
    modifies s, s.readBuffer
    ensures s.Valid() && (s.Abs(), answer) == Step(old(s.Abs()), op)
  {
    match op {
      case Read(n) =>
        var out := s.Read(n);
        answer := Bytes(out);
      case Getc =>
        var out := s.Fgetc();
        answer := Bytes(out);
      case Gets(n) =>
        var out, got := s.Fgets(n);
        answer := Bytes(out);
      case _ =>
    }
  }

  /** One call of a program. */
  method Call(s: Stream, op: Op, ghost positioned: bool) returns (answer: Answer)
    requires s.Valid() && (positioned ==> s.Unread() == [])
    requires op.Write? ==> positioned
    requires op.Seek? ==> FileSeek(s.Abs(), op.distance, op.whence).1 >= 0 || positioned
    modifies s, s.readBuffer, s.writeBuffer
    ensures s.Valid() && (s.Abs(), answer) == Step(old(s.Abs()), op)
    ensures op.Seek? || (positioned && (op.Write? || op.Flush?)) || AtEnd(s.Abs()) ==> s.Unread() == []
  {
    match op {
      case Read(_) => answer := Input(s, op);
      case Getc => answer := Input(s, op);
      case Gets(_) => answer := Input(s, op);
      case Write(data) =>
        var n := s.Write(data);
        answer := Number(n);
      case Flush =>
        s.Fflush();
        answer := Number(0);
      case Seek(distance, whence) =>
        var r := s.Lseek(distance, whence);
        answer := Number(r);
    }
    if AtEnd(s.Abs()) {
      NothingUnreadAtEnd(s.bytes, s.offset, s.size, s.Unread(), s.Pending());
    }
  }

  /** Call i of a session. */
  method CallAt(s: Stream, ops: seq<Op>, i: nat, ghost f: File) returns (answer: Answer)
    requires s.Valid() && i < |ops| && s.Abs() == After(f, ops[..i]) && PermittedAt(f, ops, i)
    requires Positioned(f, ops[..i]) ==> s.Unread() == []
    modifies s, s.readBuffer, s.writeBuffer
    ensures s.Valid() && answer == AnswerAt(f, ops, i) && s.Abs() == Step(old(s.Abs()), ops[i]).0 == After(f, ops[..i + 1])
    ensures Positioned(f, ops[..i + 1]) ==> s.Unread() == []
  {
    OneMore(f, ops, i);
    answer := Call(s, ops[i], Positioned(f, ops[..i]));
  }

  /**
   * Any permitted mix of calls gives the answers of the file without buffers; and after a
   * final flush the kernel holds that file's contents.
   */
  method Session(s: Stream, ops: seq<Op>) returns (answers: seq<Answer>)
    requires s.Valid() && s.Unread() == [] && Permitted(s.Abs(), ops)
    modifies s, s.readBuffer, s.writeBuffer
    ensures s.Valid() && |answers| == |ops|
    ensures forall i {:trigger answers[i]} :: 0 <= i < |ops| ==> answers[i] == AnswerAt(old(s.Abs()), ops, i)
    ensures s.Abs() == After(old(s.Abs()), ops) && s.bytes == After(old(s.Abs()), ops).bytes
  {
    ghost var f := s.Abs();
    ghost var now := f;
    answers := [];
    var i := 0;
    while i < |ops|
      invariant 0 <= i <= |ops| && |answers| == i && s.Valid()
      invariant s.Abs() == now == After(f, ops[..i])
      invariant Positioned(f, ops[..i]) ==> s.Unread() == []
      invariant forall j {:trigger answers[j]} :: 0 <= j < i ==> answers[j] == AnswerAt(f, ops, j)
      modifies s, s.readBuffer, s.writeBuffer
    {
      assert PermittedAt(f, ops, i);
      var answer := CallAt(s, ops, i, f);
      answers := answers + [answer];
      now := Step(now, ops[i]).0;
      i := i + 1;
    }
    assert ops[..|ops|] == ops;
    s.Fflush();
    NothingPending(s.bytes, s.offset, s.size, s.Unread(), s.Pending());
  }
}
