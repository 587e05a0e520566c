/**
 * Telegram framing of the P1 serial stream.
 *
 * Serial chunks are accumulated in a 1024-byte buffer. A three-state machine
 * finds telegrams in them: IDLE waits for `/`, DATA waits for `!`, and END
 * waits for a line feed. The pointers of the firmware are offsets into the
 * buffer here, and `Null` stands for a NULL pointer.
 */
module EmucsP1 {

  /** Capacity of the accumulation buffer (`UART_BUFFER_SIZE`). */
  const BufferSize: nat := 1024

  const Slash: bv8 := 0x2F  // '/'
  const Bang: bv8 := 0x21   // '!'
  const Lf: bv8 := 0x0A     // '\n'

  datatype P1State = Idle | Data | End

  /** A pointer into the accumulation buffer, or NULL. */
  datatype Ptr = Null | At(offset: nat)

  /** A completed telegram as the firmware reports it: its start offset and
      its computed size. */
  datatype Frame = Frame(start: nat, size: nat)

  /** The part of the framing state that the byte scan updates. */
  datatype Scanner = Scanner(state: P1State, telegramStart: Ptr, telegramEnd: Ptr)

  datatype ScanResult = ScanResult(scanner: Scanner, frames: seq<Frame>)

  /** The outcome of reading the announced number of bytes from the UART. */
  datatype ReadResult = ReadError | Received(bytes: seq<bv8>)

  /** The recorded pointers have the shape the state calls for, and every
      recorded position lies below `upto`. */
  ghost predicate Positioned(sc: Scanner, upto: nat)
  {
    match sc.state
    case Idle => sc.telegramStart == Null && sc.telegramEnd == Null
    case Data =>
      sc.telegramStart.At? && sc.telegramStart.offset < upto && sc.telegramEnd == Null
    case End =>
      sc.telegramStart.At? && sc.telegramEnd.At?
      && sc.telegramStart.offset < sc.telegramEnd.offset < upto
  }

  /** Besides being positioned, the recorded positions hold `/` and `!`, the
      `!` is the first one after the `/`, and in END no line feed has been
      seen after the `!` yet. */
  ghost predicate Framed(sc: Scanner, data: seq<bv8>, upto: nat)
  {
    && upto <= |data|
    && Positioned(sc, upto)
    && (sc.state == Data ==>
          var s := sc.telegramStart.offset;
          data[s] == Slash && forall p :: s < p < upto ==> data[p] != Bang)
    && (sc.state == End ==>
          var s, e := sc.telegramStart.offset, sc.telegramEnd.offset;
          && data[s] == Slash && data[e] == Bang
          && (forall p :: s < p < e ==> data[p] != Bang)
          && (forall p :: e < p < upto ==> data[p] != Lf))
  }

  /** A reported frame starts at a `/`, and the byte at `size - 3` past its
      start is the first `!` after that `/`. */
  ghost predicate FrameOk(f: Frame, data: seq<bv8>, upto: nat)
  {
    && 4 <= f.size
    && f.start + f.size - 3 < upto <= |data|
    && data[f.start] == Slash
    && data[f.start + f.size - 3] == Bang
    && forall p :: f.start < p < f.start + f.size - 3 ==> data[p] != Bang
  }

  /** Moving an unfinished telegram from offset `s` to offset 0 keeps it
      framed: its `/` is now at 0 and no `!` follows it. */
  lemma FramedMoved(data: seq<bv8>, out: seq<bv8>, s: nat, n: nat)
    requires Framed(Scanner(Data, At(s), Null), data, s + n)
    requires n <= |out| && out[..n] == data[s..s + n]
    ensures Framed(Scanner(Data, At(0), Null), out, n)
  {
  }

  /** One iteration of the scan loop: the byte `b` at buffer offset `pos`. */
  function Step(sc: Scanner, b: bv8, pos: nat): (r: ScanResult)
    requires Positioned(sc, pos)
    ensures Positioned(r.scanner, pos + 1)
    ensures r.frames != [] <==> sc.state == End && b == Lf
    ensures r.frames != [] ==>
      r.frames == [Frame(sc.telegramStart.offset, sc.telegramEnd.offset - sc.telegramStart.offset + 3)]
      && r.scanner == Scanner(Idle, Null, Null)
    ensures r.scanner.state != sc.state ==> b in {Slash, Bang, Lf}
  {
    match sc.state
    case Idle =>
      if b == Slash then ScanResult(Scanner(Data, At(pos), sc.telegramEnd), [])
      else ScanResult(sc, [])
    case Data =>
      if b == Bang then ScanResult(Scanner(End, sc.telegramStart, At(pos)), [])
      else ScanResult(sc, [])
    case End =>
      if b == Lf then
        var size := sc.telegramEnd.offset - sc.telegramStart.offset + 3;
        ScanResult(Scanner(Idle, Null, Null), [Frame(sc.telegramStart.offset, size)])
      else ScanResult(sc, [])
  }

  /** The scan of the bytes at offsets `[i, j)` of `data`, starting from `sc`:
      the final scanner and the telegrams completed on the way, in order. */
  function Scan(sc: Scanner, data: seq<bv8>, i: nat, j: nat): (r: ScanResult)
    requires i <= j <= |data|
    requires Positioned(sc, i)
    ensures Positioned(r.scanner, j)
    decreases j
  {
    if j == i then ScanResult(sc, [])
    else
      var prev := Scan(sc, data, i, j - 1);
      var last := Step(prev.scanner, data[j - 1], j - 1);
      ScanResult(last.scanner, prev.frames + last.frames)
  }

  /** Whether `Framed` holds depends only on the bytes below `upto`. */
  lemma FramedPrefix(sc: Scanner, d1: seq<bv8>, d2: seq<bv8>, upto: nat)
    requires upto <= |d1| && upto <= |d2| && d1[..upto] == d2[..upto]
    ensures Framed(sc, d1, upto) == Framed(sc, d2, upto)
  {
    assert forall p :: 0 <= p < upto ==> d1[p] == d1[..upto][p] == d2[p];
  }

  /** Soundness of the scan: it keeps the recorded `/` and `!` positions
      truthful, and every frame it reports starts at a `/` and ends at the
      first `!` after it. */
  lemma {:induction false} ScanFramed(sc: Scanner, data: seq<bv8>, i: nat, j: nat)
    requires i <= j <= |data|
    requires Framed(sc, data, i)
    ensures Framed(Scan(sc, data, i, j).scanner, data, j)
    ensures forall f :: f in Scan(sc, data, i, j).frames ==> FrameOk(f, data, j)
    decreases j
  {
    if j > i {
      ScanFramed(sc, data, i, j - 1);
      var prev := Scan(sc, data, i, j - 1);
      var last := Step(prev.scanner, data[j - 1], j - 1);
      assert Scan(sc, data, i, j).frames == prev.frames + last.frames;
      forall f | f in prev.frames ensures FrameOk(f, data, j) {
        assert FrameOk(f, data, j - 1);
      }
    }
  }

  /** In IDLE, bytes other than `/` are skipped: nothing is recorded and no
      frame is reported. This is how the scan resynchronises after a reset. */
  lemma {:induction false} ScanIdleSkips(data: seq<bv8>, i: nat, j: nat)
    requires i <= j <= |data|
    requires forall p :: i <= p < j ==> data[p] != Slash
    ensures Scan(Scanner(Idle, Null, Null), data, i, j) == ScanResult(Scanner(Idle, Null, Null), [])
    decreases j
  {
    if j > i {
      ScanIdleSkips(data, i, j - 1);
    }
  }

  /** In DATA, bytes other than `!` (a second `/` included) leave the state
      and the recorded start unchanged. */
  lemma {:induction false} ScanDataSkips(s: nat, data: seq<bv8>, i: nat, j: nat)
    requires s < i <= j <= |data|
    requires forall p :: i <= p < j ==> data[p] != Bang
    ensures Scan(Scanner(Data, At(s), Null), data, i, j) == ScanResult(Scanner(Data, At(s), Null), [])
    decreases j
  {
    if j > i {
      ScanDataSkips(s, data, i, j - 1);
    }
  }

  /** In END, bytes other than a line feed change nothing; the preceding
      byte is never checked for a carriage return. */
  lemma {:induction false} ScanEndSkips(s: nat, e: nat, data: seq<bv8>, i: nat, j: nat)
    requires s < e < i <= j <= |data|
    requires forall p :: i <= p < j ==> data[p] != Lf
    ensures Scan(Scanner(End, At(s), At(e)), data, i, j) == ScanResult(Scanner(End, At(s), At(e)), [])
    decreases j
  {
    if j > i {
      ScanEndSkips(s, e, data, i, j - 1);
    }
  }

  /** Scanning on from an intermediate offset `k` gives the same result as
      scanning in one go. */
  lemma {:induction false} ScanSplit(sc: Scanner, data: seq<bv8>, i: nat, k: nat, j: nat)
    requires i <= k <= j <= |data|
    requires Positioned(sc, i)
    ensures var a := Scan(sc, data, i, k);
            var b := Scan(a.scanner, data, k, j);
            Scan(sc, data, i, j) == ScanResult(b.scanner, a.frames + b.frames)
    decreases j
  {
    if j > k {
      ScanSplit(sc, data, i, k, j - 1);
    }
  }

  /** From IDLE, a `/` at `s` followed by the first `!` after it at `e`
      leave the scanner in END with both positions recorded. */
  lemma ScanToEnd(data: seq<bv8>, i: nat, s: nat, e: nat)
    requires i <= s < e < |data|
    requires forall p :: i <= p < s ==> data[p] != Slash
    requires data[s] == Slash
    requires forall p :: s < p < e ==> data[p] != Bang
    requires data[e] == Bang
    ensures Scan(Scanner(Idle, Null, Null), data, i, e + 1) == ScanResult(Scanner(End, At(s), At(e)), [])
  {
    var idle := Scanner(Idle, Null, Null);
    var inData := Scanner(Data, At(s), Null);
    assert Scan(idle, data, i, s + 1) == ScanResult(inData, []) by {
      ScanIdleSkips(data, i, s);
      ScanSplit(idle, data, i, s, s + 1);
    }
    assert Scan(idle, data, i, e) == ScanResult(inData, []) by {
      ScanDataSkips(s, data, s + 1, e);
      ScanSplit(idle, data, i, s + 1, e);
    }
    ScanSplit(idle, data, i, e, e + 1);
  }

  /** Completeness of the scan: from IDLE, a `/` at `s`, the first `!` after
      it at `e` and the first line feed after that at `n` yield exactly one
      frame, of size `e - s + 3`, and the scanner is IDLE again. */
  lemma ScanTelegram(data: seq<bv8>, i: nat, s: nat, e: nat, n: nat)
    requires i <= s < e < n < |data|
    requires forall p :: i <= p < s ==> data[p] != Slash
    requires data[s] == Slash
    requires forall p :: s < p < e ==> data[p] != Bang
    requires data[e] == Bang
    requires forall p :: e < p < n ==> data[p] != Lf
    requires data[n] == Lf
    ensures Scan(Scanner(Idle, Null, Null), data, i, n + 1)
         == ScanResult(Scanner(Idle, Null, Null), [Frame(s, e - s + 3)])
  {
    var idle := Scanner(Idle, Null, Null);
    var inEnd := Scanner(End, At(s), At(e));
    ScanToEnd(data, i, s, e);
    assert Scan(idle, data, i, n) == ScanResult(inEnd, []) by {
      ScanEndSkips(s, e, data, e + 1, n);
      ScanSplit(idle, data, i, e + 1, n);
    }
    ScanSplit(idle, data, i, n, n + 1);
  }

  /** The reported size counts two bytes after the `!`, whatever they are:
      when the line feed follows the `!` directly at the end of the data,
      the frame reaches one byte past the data. */
  lemma FrameMayPassData(data: seq<bv8>)
    requires |data| >= 3
    requires data[|data| - 3] == Slash && data[|data| - 2] == Bang && data[|data| - 1] == Lf
    ensures var n := |data|;
            && Scan(Scanner(Idle, Null, Null), data, n - 3, n) == ScanResult(Scanner(Idle, Null, Null), [Frame(n - 3, 4)])
            && (n - 3) + 4 == n + 1
  {
    var n := |data|;
    ScanTelegram(data, n - 3, n - 3, n - 2, n - 1);
  }

  /** The buffer after the UART driver copied `bytes` to offset `cursor`. */
  function Written(buffer: seq<bv8>, cursor: nat, bytes: seq<bv8>): (r: seq<bv8>)
    requires cursor + |bytes| <= |buffer|
    ensures |r| == |buffer|
    ensures r[..cursor] == buffer[..cursor]
    ensures r[cursor..cursor + |bytes|] == bytes
    ensures r[cursor + |bytes|..] == buffer[cursor + |bytes|..]
  {
    buffer[..cursor] + bytes + buffer[cursor + |bytes|..]
  }

  /** `memmove(a, a + from, n)`: the `n` bytes at `from` move to offset 0
      and everything from offset `n` on is left as it was. */
  method MoveToFront(a: array<bv8>, from: nat, n: nat)
    requires from + n <= a.Length
    modifies a
    ensures a[..n] == old(a[from..from + n])
    ensures a[n..] == old(a[n..])
  {
    var i := 0;
    while i < n
      invariant 0 <= i <= n
      invariant a[..i] == old(a[from..from + i])
      invariant a[i..] == old(a[i..])
    {
      a[i] := a[from + i];
      i := i + 1;
    }
  }

  /** The framing state that the firmware keeps in static variables. */
  class P1Framer {
    var buf: array<bv8>
    var state: P1State
    var cursor: nat
    var telegramStart: Ptr
    var telegramEnd: Ptr
    var telegramSize: nat

    ghost function Scanned(): Scanner
      reads this
    {
      Scanner(state, telegramStart, telegramEnd)
    }

    /** The cursor stays within the buffer, the recorded `/` and `!` are
        where the state says, and the size is only nonzero inside a call. */
    ghost predicate Valid()
      reads this, buf
    {
      && buf.Length == BufferSize
      && cursor <= BufferSize
      && telegramSize == 0
      && Framed(Scanned(), buf[..], cursor)
    }

    constructor ()
      ensures Valid() && fresh(buf)
      ensures state == Idle && cursor == 0 && telegramStart == Null && telegramEnd == Null
    {
      buf := new bv8[BufferSize](_ => 0);
      state := Idle;
      cursor := 0;
      telegramStart := Null;
      telegramEnd := Null;
      telegramSize := 0;
    }

    /** What `uart_read_bytes` does to the buffer: the bytes it delivers
        are stored from the cursor on. */
    method ReadInto(bytes: seq<bv8>)
      requires Valid() && cursor + |bytes| <= BufferSize
      modifies buf
      ensures Valid()
      ensures buf[..] == Written(old(buf[..]), cursor, bytes)
    {
      ghost var before := buf[..];
      forall k | 0 <= k < |bytes| {
        buf[cursor + k] := bytes[k];
      }
      assert buf[..] == Written(before, cursor, bytes);
      FramedPrefix(Scanned(), before, buf[..], cursor);
    }

    /** The end of `process_p1_data`: an unfinished telegram that does not
        start at offset 0 is moved there, from its `/` up to the end of the
        chunk, and the cursor follows it; otherwise the cursor advances past
        the chunk. */
    method FinishChunk(size: nat)
      requires buf.Length == BufferSize && cursor + size <= BufferSize
      requires telegramSize == 0 && Framed(Scanned(), buf[..], cursor + size)
      modifies this`cursor, this`telegramStart, buf
      ensures Valid()
      ensures old(state == Data && telegramStart != At(0)) ==>
        var s := old(telegramStart.offset);
        && telegramStart == At(0)
        && cursor == old(cursor) + size - s
        && buf[..cursor] == old(buf[..])[s..old(cursor) + size]
        && buf[cursor..] == old(buf[..])[cursor..]
      ensures !old(state == Data && telegramStart != At(0)) ==>
        telegramStart == old(telegramStart) && cursor == old(cursor) + size && buf[..] == old(buf[..])
    {
      if state == Data && telegramStart != At(0) {
        var s := telegramStart.offset;
        var n := cursor + size - s;
        ghost var data := buf[..];
        MoveToFront(buf, s, n);
        cursor := n;
        telegramStart := At(0);
        FramedMoved(data, buf[..], s, n);
      } else {
        cursor := cursor + size;
      }
    }

    /** The byte loop of `process_p1_data`: runs the state machine over the
        `size` bytes at the cursor and returns the telegrams it completes. */
    method ScanChunk(size: nat) returns (frames: seq<Frame>)
      requires buf.Length == BufferSize && cursor + size <= BufferSize
      requires telegramSize == 0 && Positioned(Scanned(), cursor)
      modifies this`state, this`telegramStart, this`telegramEnd, this`telegramSize
      ensures telegramSize == 0
      ensures ScanResult(Scanned(), frames) == Scan(old(Scanned()), buf[..], cursor, cursor + size)
    {
      frames := [];
      var k := cursor;
      while k < cursor + size
        invariant cursor <= k <= cursor + size
        invariant telegramSize == 0
        invariant ScanResult(Scanned(), frames) == Scan(old(Scanned()), buf[..], cursor, k)
        decreases cursor + size - k
      {
        match state {
          case Idle =>
            if buf[k] == Slash {
              state := Data;
              telegramStart := At(k);
            }
          case Data =>
            if buf[k] == Bang {
              state := End;
              telegramEnd := At(k);
            }
          case End =>
            if buf[k] == Lf {
              state := Idle;
              // The size the firmware reports for the completed telegram.
              telegramSize := telegramEnd.offset - telegramStart.offset + 3;
              frames := frames + [Frame(telegramStart.offset, telegramSize)];
              telegramStart := Null;
              telegramEnd := Null;
              telegramSize := 0;
            }
        }
        k := k + 1;
      }
    }

    /** The outcome of scanning the `size` bytes of `data` at `c0` from the
        scanner `sc0`: the frames the scan completes (each one starting at a
        `/` and ending at the first `!` after it), then either the compacted
        buffer, holding the unfinished telegram from offset 0, or the cursor
        advanced past the chunk with the buffer as it was. */
    ghost predicate ChunkProcessed(sc0: Scanner, c0: nat, size: nat, data: seq<bv8>, frames: seq<Frame>)
      reads this, buf
      requires c0 + size <= |data| && Positioned(sc0, c0)
    {
      var r := Scan(sc0, data, c0, c0 + size);
      && frames == r.frames
      && (forall f :: f in frames ==> FrameOk(f, data, c0 + size))
      && if r.scanner.state == Data && r.scanner.telegramStart != At(0) then
           var s := r.scanner.telegramStart.offset;
           && state == Data && telegramStart == At(0) && telegramEnd == Null
           && cursor == c0 + size - s
           && cursor <= buf.Length && |data| == buf.Length
           && buf[..cursor] == data[s..c0 + size]
           && buf[cursor..] == data[cursor..]
         else
           && Scanned() == r.scanner
           && cursor == c0 + size
           && buf[..] == data
    }

    /** The part of `process_p1_data` after a complete read: the chunk at
        the cursor is scanned and the buffer is compacted or advanced. */
    method ProcessChunk(size: nat) returns (frames: seq<Frame>)
      requires Valid() && cursor + size <= BufferSize
      modifies this, buf
      ensures Valid() && buf == old(buf)
      ensures ChunkProcessed(old(Scanned()), old(cursor), size, old(buf[..]), frames)
    {
      ghost var c0 := cursor;
      ghost var data := buf[..];
      ghost var sc0 := Scanned();
      frames := ScanChunk(size);
      ghost var r := Scan(sc0, data, c0, c0 + size);
      assert frames == r.frames && Scanned() == r.scanner;
      ScanFramed(sc0, data, c0, c0 + size);
      FinishChunk(size);
      if r.scanner.state == Data && r.scanner.telegramStart != At(0) {
        assert cursor == c0 + size - r.scanner.telegramStart.offset;
      } else {
        assert Scanned() == r.scanner && cursor == c0 + size && buf[..] == data;
      }
    }

    /** `process_p1_data(size)`, with the UART read given as `read`. Returns
        the telegrams completed during the call. */
    method ProcessP1Data(size: nat, read: ReadResult) returns (frames: seq<Frame>)
      requires Valid()
      requires read.Received? ==> |read.bytes| <= size
      modifies this, buf
      ensures Valid() && buf == old(buf)
      // The chunk would not fit: everything is reset and nothing is read.
      ensures old(cursor) + size > BufferSize ==>
        && state == Idle && cursor == 0 && telegramStart == Null && telegramEnd == Null
        && frames == [] && buf[..] == old(buf[..])
      // A failed or short read: the framing state is left as it was.
      ensures old(cursor) + size <= BufferSize && !(read.Received? && |read.bytes| == size) ==>
        && state == old(state) && cursor == old(cursor)
        && telegramStart == old(telegramStart) && telegramEnd == old(telegramEnd)
        && frames == []
        && buf[..] == (if read.ReadError? then old(buf[..]) else Written(old(buf[..]), old(cursor), read.bytes))
      // A complete read: the chunk is scanned, then an unfinished telegram
      // is moved to the front of the buffer, or else the cursor advances.
      ensures old(cursor) + size <= BufferSize && read.Received? && |read.bytes| == size ==>
        ChunkProcessed(old(Scanned()), old(cursor), size, Written(old(buf[..]), old(cursor), read.bytes), frames)
    {
      if cursor + size > BufferSize {
        state := Idle;
        cursor := 0;
        telegramStart := Null;
        telegramEnd := Null;
        telegramSize := 0;
        return [];
      }

      if read.ReadError? {
        return [];
      }
      ReadInto(read.bytes);
      if |read.bytes| != size {
        return [];
      }
      frames := ProcessChunk(size);
    }
  }
}
