/**
 * The ring buffer of src/kernel/fs/pipe/pipe.c and the locked sections of its read and write
 * loops, one byte at a time.
 */
module PipeRing {
  import opened Bytes

  // ---------- the ring as a value ----------

  /** pipe_ring_t, with the bytes it has taken in and given out since it was made. */
  datatype Buffer = Buffer(data: seq<byte>, head: nat, tail: nat, available: nat, accepted: seq<byte>, delivered: seq<byte>)

  function Wrap(i: nat): nat { if i < 4096 then i else i - 4096 }

  const Empty := Buffer(Zeros(4096), 0, 0, 0, [], [])

  predicate Shaped(b: Buffer) {
    |b.data| == 4096 && b.head < 4096 && b.tail < 4096 && b.available <= 4096 && b.tail == Wrap(b.head + b.available)
  }

  /** The bytes in the ring, oldest first: the array read round from the head. */
  function Queue(b: Buffer): (q: seq<byte>)
    requires Shaped(b)
    ensures |q| == b.available
  {
    seq(b.available, i requires 0 <= i < b.available => b.data[Wrap(b.head + i)])
  }

  /** Bytes delivered followed by bytes in the ring are the bytes accepted. */
  predicate Sound(b: Buffer) {
    Shaped(b) && b.delivered + Queue(b) == b.accepted
  }

  function PutByte(b: Buffer, x: byte): Buffer
    requires Shaped(b) && b.available < 4096
  {
    b.(data := b.data[b.tail := x], tail := Wrap(b.tail + 1), available := b.available + 1, accepted := b.accepted + [x])
  }

  function TakeByte(b: Buffer): (Buffer, byte)
    requires Shaped(b) && b.available > 0
  {
    (b.(head := Wrap(b.head + 1), available := b.available - 1, delivered := b.delivered + [b.data[b.head]]), b.data[b.head])
  }

  lemma EmptySound()
    ensures Sound(Empty) && Queue(Empty) == []
  {
  }

  /** A byte goes in behind the others ... */
  lemma PutKeeps(b: Buffer, x: byte)
    requires Sound(b) && b.available < 4096
    ensures Sound(PutByte(b, x)) && Queue(PutByte(b, x)) == Queue(b) + [x]
  {
    var c := PutByte(b, x);
    forall i: nat | i < c.available ensures Queue(c)[i] == (Queue(b) + [x])[i] {
      assert i < b.available ==> Wrap(b.head + i) != b.tail;
    }
    assert b.delivered + (Queue(b) + [x]) == (b.delivered + Queue(b)) + [x];
  }

  /** ... and the oldest comes out. */
  lemma TakeKeeps(b: Buffer)
    requires Sound(b) && b.available > 0
    ensures Sound(TakeByte(b).0) && Queue(b) == [TakeByte(b).1] + Queue(TakeByte(b).0)
  {
    var c := TakeByte(b).0;
    QueueSplits(b);
    assert b.delivered + ([b.data[b.head]] + Queue(c)) == (b.delivered + [b.data[b.head]]) + Queue(c);
  }

  lemma QueueSplits(b: Buffer)
    requires Shaped(b) && b.available > 0
    ensures Shaped(TakeByte(b).0) && Queue(b) == [TakeByte(b).1] + Queue(TakeByte(b).0)
  {
    var c := TakeByte(b).0;
    assert Wrap(b.head + 0) == b.head;
    forall i: nat | i < c.available ensures Queue(c)[i] == Queue(b)[i + 1] {
      assert Wrap(Wrap(b.head + 1) + i) == Wrap(b.head + (i + 1));
    }
  }

  // ---------- one turn of the loops ----------

  /** What a turn decides: go round again, or return. */
  datatype Turn = Again | Return

  /** pipe_vfs_read's loop body for a reader of `size` bytes that has `got` so far. */
  function ReadTurn(b: Buffer, writeClosed: bool, size: nat, got: seq<byte>): (Buffer, seq<byte>, Turn)
    requires Shaped(b)
  {
    if |got| >= size then (b, got, Return)
    else if b.available > 0 then (TakeByte(b).0, got + [TakeByte(b).1], Again)
    else if |got| > 0 || writeClosed then (b, got, Return)
    else (b, got, Again)
  }

  /** pipe_vfs_write's loop body for a writer that has handed over `sent` bytes of its data. */
  function WriteTurn(b: Buffer, readClosed: bool, data: seq<byte>, sent: nat): (Buffer, nat, Turn)
    requires Shaped(b)
  {
    if sent >= |data| || readClosed then (b, sent, Return)
    else if b.available < 4096 then (PutByte(b, data[sent]), sent + 1, Again)
    else (b, sent, Again)
  }

  /** A turn keeps the ring sound, and moves bytes in order: what the reader has grows by the
      oldest byte of the queue. */
  lemma ReadTurnKeeps(b: Buffer, writeClosed: bool, size: nat, got: seq<byte>)
    requires Sound(b)
    ensures var (c, more, turn) := ReadTurn(b, writeClosed, size, got);
            && Sound(c) && c.accepted == b.accepted
            && (c, more) == (if |got| < size && b.available > 0 then (TakeByte(b).0, got + [Queue(b)[0]]) else (b, got))
  {
    if |got| < size && b.available > 0 {
      TakeKeeps(b);
    }
  }

  /**
   * A read of positive size returns nothing only when the write side is closed and every byte
   * accepted has been delivered.
   */
  lemma NothingMeansEnd(b: Buffer, writeClosed: bool, size: nat)
    requires Sound(b) && size > 0
    ensures ReadTurn(b, writeClosed, size, []) == (b, [], Return) <==> writeClosed && b.available == 0
    ensures ReadTurn(b, writeClosed, size, []) == (b, [], Return) ==> b.delivered == b.accepted
  {
    if b.available == 0 {
      assert Queue(b) == [];
    }
  }

  lemma WriteTurnKeeps(b: Buffer, readClosed: bool, data: seq<byte>, sent: nat)
    requires Sound(b) && sent <= |data|
    ensures var (c, more, turn) := WriteTurn(b, readClosed, data, sent);
            && Sound(c) && c.delivered == b.delivered && sent <= more <= |data|
            && c.accepted == b.accepted + data[sent..more]
  {
    if sent < |data| && !readClosed && b.available < 4096 {
      PutKeeps(b, data[sent]);
      assert data[sent..sent + 1] == [data[sent]];
    } else {
      assert data[sent..sent] == [];
    }
  }

  /** When a writer's turn ends its call: when all is handed over, or nobody reads.  Until then it
      hands over the next byte if there is room, and waits if there is none. */
  lemma WriterGoesOn(b: Buffer, readClosed: bool, data: seq<byte>, sent: nat)
    requires Sound(b) && sent <= |data|
    ensures var (c, more, turn) := WriteTurn(b, readClosed, data, sent);
            && (turn == Return <==> sent == |data| || readClosed)
            && (turn == Return ==> c == b && more == sent)
            && (turn == Again && |Queue(b)| < 4096 ==> more == sent + 1 && Shaped(c) && Queue(c) == Queue(b) + [data[sent]])
            && (turn == Again && |Queue(b)| == 4096 ==> more == sent && c == b)
  {
    if sent < |data| && b.available < 4096 {
      PutKeeps(b, data[sent]);
    }
  }

  /** When a reader's turn ends its call: when it has what it asked for, or has something and there is no
      more, or there is nothing and nobody writes.  Until then it takes the oldest byte if there is one,
      and waits if there is none. */
  lemma ReaderGoesOn(b: Buffer, writeClosed: bool, size: nat, got: seq<byte>)
    requires Sound(b) && |got| <= size
    ensures var (c, more, turn) := ReadTurn(b, writeClosed, size, got);
            && (turn == Return <==> |got| == size || (Queue(b) == [] && (got != [] || writeClosed)))
            && (turn == Return ==> c == b && more == got)
            && (turn == Again && Queue(b) != [] ==> more == got + [Queue(b)[0]] && Shaped(c) && Queue(c) == Queue(b)[1..])
            && (turn == Again && Queue(b) == [] ==> more == got && c == b)
  {
    if |got| < size && b.available > 0 {
      TakeKeeps(b);
    }
  }

  // ---------- the ring in memory ----------

  class Ring {
    const buffer: array<byte>
    var head: nat
    var tail: nat
    var available: nat
    var readClosed: bool
    var writeClosed: bool
    ghost var accepted: seq<byte>
    ghost var delivered: seq<byte>

    /** The value this ring has. */
    ghost function Abs(): Buffer
      reads this, buffer
    {
      Buffer(buffer[..], head, tail, available, accepted, delivered)
    }

    ghost predicate Valid()
      reads this, buffer
    {
      Sound(Abs())
    }

    /** The part of pipe_create that prepares the ring. */
    constructor ()
      ensures Valid() && Abs() == Empty && !readClosed && !writeClosed && fresh(buffer)
    {
      buffer := new byte[4096](i => 0);
      head, tail, available, readClosed, writeClosed := 0, 0, 0, false, false;
      accepted, delivered := [], [];
      new;
      assert buffer[..] == Zeros(4096);
      EmptySound();
    }

    /** One locked section of pipe_vfs_read. */
    method ReadSection(size: nat, got: seq<byte>) returns (more: seq<byte>, turn: Turn)
      requires Valid()
      modifies this`head, this`available, this`delivered
      ensures Valid() && (Abs(), more, turn) == ReadTurn(old(Abs()), writeClosed, size, got)
    {
      ReadTurnKeeps(Abs(), writeClosed, size, got);
      if |got| >= size {
        return got, Return;
      }
      if available > 0 {
        more, turn := got + [buffer[head]], Again;
        delivered := delivered + [buffer[head]];
        head := (head + 1) % 4096;
        available := available - 1;
      } else if |got| > 0 {
        more, turn := got, Return;
      } else if writeClosed {
        more, turn := got, Return;
      } else {
        more, turn := got, Again;
      }
    }

    /** One locked section of pipe_vfs_write. */
    method WriteSection(data: seq<byte>, sent: nat) returns (more: nat, turn: Turn)
      requires Valid() && sent <= |data|
      modifies this`tail, this`available, this`accepted, buffer
      ensures Valid() && (Abs(), more, turn) == WriteTurn(old(Abs()), readClosed, data, sent)
    {
      WriteTurnKeeps(Abs(), readClosed, data, sent);
      if sent >= |data| || readClosed {
        return sent, Return;
      }
      if available < 4096 {
        more, turn := sent + 1, Again;
        buffer[tail] := data[sent];
        accepted := accepted + [data[sent]];
        tail := (tail + 1) % 4096;
        available := available + 1;
      } else {
        more, turn := sent, Again;
      }
    }

    /** pipe_vfs_close_read: whether this was the second side to go. */
    method CloseRead() returns (shouldFree: bool)
      requires Valid()
      modifies this`readClosed
      ensures Valid() && readClosed && Abs() == old(Abs()) && shouldFree == writeClosed
    {
      readClosed := true;
      shouldFree := writeClosed;
    }

    /** pipe_vfs_close_write. */
    method CloseWrite() returns (shouldFree: bool)
      requires Valid()
      modifies this`writeClosed
      ensures Valid() && writeClosed && Abs() == old(Abs()) && shouldFree == readClosed
    {
      writeClosed := true;
      shouldFree := readClosed;
    }
  }
}
