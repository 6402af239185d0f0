/** What the CN105 receive path extracts from a byte stream, stated over the whole
    stream: the frames it contains and the partly received frame at its end. A frame is
    a 5-byte header [sync, command, idHi, idLo, length], `length` payload bytes and one
    checksum byte. `Step` is the same thing one byte at a time, and `SplitSnoc` shows the
    two agree, so the result does not depend on how the stream is chunked. */
module FrameStream {
  import opened Heatpump

  /** INFOHEADER_LEN */
  const HEADER_LEN: nat := 5
  /** The constant the checksum is subtracted from. */
  const CHECKSUM_BASE: int := 0xFC
  /** The longest frame a one-byte length field can announce. */
  const MAX_FRAME_LEN: nat := 261

  /** The fixed header bytes the decoder compares against (HEADER[0], HEADER[2],
      HEADER[3]) and the size of its receive buffer (MAX_DATA_BYTES). */
  datatype Framing = Framing(sync: byte, idHi: byte, idLo: byte, capacity: nat)

  /** Header, `len` payload bytes, checksum. */
  function FrameLength(len: byte): (n: nat)
    ensures HEADER_LEN < n <= MAX_FRAME_LEN
  {
    HEADER_LEN + len + 1
  }

  function Sum(s: seq<byte>): int
  {
    if s == [] then 0 else Sum(s[..|s| - 1]) + s[|s| - 1]
  }

  /** The residue modulo 256 is fixed by any quotient and remainder in range. */
  lemma ResidueOf(x: int, q: int, r: int)
    requires x == 256 * q + r && 0 <= r < 256
    ensures x % 256 == r
  {
  }

  /** Reducing a running sum modulo 256 at every step, as the receive code does in a byte,
      gives the same residue as reducing once at the end. */
  lemma ResidueSteps(a: int, b: int)
    ensures (a % 256 + b) % 256 == (a + b) % 256
    ensures (b - a % 256) % 256 == (b - a) % 256
  {
    var q, r := a / 256, a % 256;
    var t, s := (r + b) / 256, (r + b) % 256;
    ResidueOf(a + b, q + t, s);
    var u, v := (b - r) / 256, (b - r) % 256;
    ResidueOf(b - a, u - q, v);
  }

  /** The checksum byte of a header and payload. */
  function ChecksumOf(body: seq<byte>): byte
  {
    (CHECKSUM_BASE - Sum(body)) % 256
  }

  /** The checksum byte is the one byte that brings the sum of the whole frame to 0xFC
      modulo 256. */
  lemma ChecksumBalances(body: seq<byte>, c: byte)
    ensures (Sum(body) + c) % 256 == CHECKSUM_BASE <==> c == ChecksumOf(body)
  {
  }

  /** The last byte of `f` is the checksum of the bytes before it. */
  predicate ChecksumOk(f: seq<byte>)
  {
    |f| > 0 && f[|f| - 1] == ChecksumOf(f[..|f| - 1])
  }

  /** The command a header carries once its protocol id bytes match; 0 otherwise, and
      0 while the header is incomplete. */
  function HeaderCommand(fr: Framing, p: seq<byte>): (c: byte)
    ensures c != 0 ==> |p| >= HEADER_LEN && p[2] == fr.idHi && p[3] == fr.idLo && c == p[1]
    ensures |p| >= HEADER_LEN && p[2] == fr.idHi && p[3] == fr.idLo ==> c == p[1]
  {
    if |p| >= HEADER_LEN && p[2] == fr.idHi && p[3] == fr.idLo then p[1] else 0
  }

  /** The payload length once the header is complete; -1 before. */
  function DataLength(p: seq<byte>): (n: int)
    ensures n == -1 <==> |p| < HEADER_LEN
    ensures n != -1 ==> n == p[4]
  {
    if |p| >= HEADER_LEN then p[4] else -1
  }

  /** The complete frames of a stream, in order, and the started frame after them. */
  datatype Scan = Scan(frames: seq<seq<byte>>, pending: seq<byte>)

  /** The frames of stream `s` for a decoder whose buffer holds `fr.capacity` bytes: bytes
      before a sync byte are skipped, the header gives the frame length, a frame that
      cannot fit the buffer is dropped after its header, and the bytes of a frame are
      never searched for a sync byte. */
  function Split(fr: Framing, s: seq<byte>): Scan
    decreases |s|
  {
    if s == [] then Scan([], [])
    else if s[0] != fr.sync then Split(fr, s[1..])
    else if |s| < HEADER_LEN then Scan([], s)
    else if FrameLength(s[4]) > fr.capacity then Split(fr, s[HEADER_LEN..])
    else if |s| < FrameLength(s[4]) then Scan([], s)
    else
      var rest := Split(fr, s[FrameLength(s[4])..]);
      Scan([s[..FrameLength(s[4])]] + rest.frames, rest.pending)
  }

  /** The same extraction without regard to the buffer size, as the unguarded
      decoder performs it. */
  function SplitUnguarded(sync: byte, s: seq<byte>): Scan
    decreases |s|
  {
    if s == [] then Scan([], [])
    else if s[0] != sync then SplitUnguarded(sync, s[1..])
    else if |s| < HEADER_LEN || |s| < FrameLength(s[4]) then Scan([], s)
    else
      var rest := SplitUnguarded(sync, s[FrameLength(s[4])..]);
      Scan([s[..FrameLength(s[4])]] + rest.frames, rest.pending)
  }

  /** The decoder consuming one byte: a byte outside a frame is kept only if it is the
      sync byte; inside a frame it is appended, and the frame is emitted once its
      checksum byte arrives or dropped once its header shows it cannot fit. */
  function Step(fr: Framing, sc: Scan, b: byte): Scan
  {
    if sc.pending == [] then
      if b == fr.sync then Scan(sc.frames, [b]) else sc
    else
      var q := sc.pending + [b];
      if |q| < HEADER_LEN then Scan(sc.frames, q)
      else if FrameLength(q[4]) > fr.capacity then Scan(sc.frames, [])
      else if |q| == FrameLength(q[4]) then Scan(sc.frames + [q], [])
      else Scan(sc.frames, q)
  }

  /** The decoder consuming a whole chunk. */
  function Run(fr: Framing, sc: Scan, s: seq<byte>): Scan
    decreases |s|
  {
    if s == [] then sc else Run(fr, Step(fr, sc, s[0]), s[1..])
  }

  /** A started frame: it begins with the sync byte and, once its length is known, it
      fits the buffer and is still missing bytes. */
  ghost predicate PendingShape(fr: Framing, p: seq<byte>)
  {
    p == [] ||
    (p[0] == fr.sync &&
     (|p| < HEADER_LEN || (FrameLength(p[4]) <= fr.capacity && |p| < FrameLength(p[4]))))
  }

  /** A complete frame: sync byte first, exactly as long as its header says, and no
      longer than the buffer. */
  ghost predicate FrameShape(fr: Framing, f: seq<byte>)
  {
    |f| > HEADER_LEN && f[0] == fr.sync && |f| == FrameLength(f[4]) && |f| <= fr.capacity
  }

  /** Step inside a started frame, told by what the header of the extended frame says. */
  lemma StepInFrame(fr: Framing, sc: Scan, b: byte)
    requires PendingShape(fr, sc.pending) && sc.pending != []
    ensures var q := sc.pending + [b];
            && (DataLength(q) < 0 ==> Step(fr, sc, b) == Scan(sc.frames, q) && PendingShape(fr, q))
            && (DataLength(q) >= 0 && FrameLength(q[4]) > fr.capacity ==>
                  Step(fr, sc, b) == Scan(sc.frames, []))
            && (DataLength(q) >= 0 && FrameLength(q[4]) <= fr.capacity && |q| == FrameLength(q[4]) ==>
                  Step(fr, sc, b) == Scan(sc.frames + [q], []) && FrameShape(fr, q))
            && (DataLength(q) >= 0 && FrameLength(q[4]) <= fr.capacity && |q| != FrameLength(q[4]) ==>
                  Step(fr, sc, b) == Scan(sc.frames, q) && PendingShape(fr, q))
  {
  }

  /** The header fields of a started frame once one more byte is added: they are read
      when the fifth byte arrives and kept afterwards. */
  lemma HeaderOfNextByte(fr: Framing, p: seq<byte>, b: byte)
    requires PendingShape(fr, p) && p != []
    ensures var q := p + [b];
            && DataLength(q) == (if |p| == 4 then b else DataLength(p))
            && HeaderCommand(fr, q) == (if |p| == 4 && p[2] == fr.idHi && p[3] == fr.idLo then p[1]
                                        else HeaderCommand(fr, p))
  {
  }

  lemma {:induction false} SplitShape(fr: Framing, s: seq<byte>)
    ensures PendingShape(fr, Split(fr, s).pending)
    ensures forall i :: 0 <= i < |Split(fr, s).frames| ==> FrameShape(fr, Split(fr, s).frames[i])
    decreases |s|
  {
    if s == [] {
    } else if s[0] != fr.sync {
      SplitShape(fr, s[1..]);
    } else if |s| < HEADER_LEN {
    } else if FrameLength(s[4]) > fr.capacity {
      SplitShape(fr, s[HEADER_LEN..]);
    } else if |s| < FrameLength(s[4]) {
    } else {
      SplitShape(fr, s[FrameLength(s[4])..]);
    }
  }

  /** Feeding one more byte to the decoder extends the whole-stream split exactly as
      `Step` says. */
  lemma {:induction false} SplitSnoc(fr: Framing, s: seq<byte>, b: byte)
    ensures Split(fr, s + [b]) == Step(fr, Split(fr, s), b)
    decreases |s|
  {
    var t := s + [b];
    if s == [] {
      assert t == [b];
      if b != fr.sync {
        assert t[1..] == [];
      }
    } else if s[0] != fr.sync {
      assert t[1..] == s[1..] + [b];
      SplitSnoc(fr, s[1..], b);
    } else if |s| < HEADER_LEN {
      if |t| == HEADER_LEN && FrameLength(t[4]) > fr.capacity {
        assert t[HEADER_LEN..] == [];
      }
    } else if FrameLength(s[4]) > fr.capacity {
      assert t[HEADER_LEN..] == s[HEADER_LEN..] + [b];
      SplitSnoc(fr, s[HEADER_LEN..], b);
    } else if |s| < FrameLength(s[4]) {
      if |t| == FrameLength(t[4]) {
        assert t[FrameLength(t[4])..] == [];
        assert t[..FrameLength(t[4])] == t;
      }
    } else {
      var n := FrameLength(s[4]);
      assert t[..n] == s[..n];
      assert t[n..] == s[n..] + [b];
      SplitSnoc(fr, s[n..], b);
    }
  }

  /** Feeding a stream chunk by chunk gives the frames of the whole stream: the decoder's
      result does not depend on where the transport cut the stream. */
  lemma {:induction false} RunSplits(fr: Framing, s: seq<byte>, t: seq<byte>)
    ensures Run(fr, Split(fr, s), t) == Split(fr, s + t)
    decreases |t|
  {
    if t == [] {
      assert s + t == s;
    } else {
      SplitSnoc(fr, s, t[0]);
      assert (s + [t[0]]) + t[1..] == s + t;
      RunSplits(fr, s + [t[0]], t[1..]);
    }
  }

  /** Chunk-boundary independence: decoding `a` then `b` equals decoding `a + b`. */
  lemma ChunkedDecodingAgrees(fr: Framing, a: seq<byte>, b: seq<byte>)
    ensures Run(fr, Run(fr, Scan([], []), a), b) == Run(fr, Scan([], []), a + b)
  {
    RunSplits(fr, [], a);
    RunSplits(fr, [], a + b);
    assert [] + a == a;
    assert [] + (a + b) == a + b;
    RunSplits(fr, a, b);
  }

  /** Bytes already framed are never taken back: the frames of a prefix are a prefix of
      the frames of the whole stream. */
  lemma {:induction false} FramesGrow(fr: Framing, s: seq<byte>, t: seq<byte>)
    ensures Split(fr, s).frames <= Split(fr, s + t).frames
    decreases |t|
  {
    if t == [] {
      assert s + t == s;
    } else {
      SplitSnoc(fr, s, t[0]);
      assert (s + [t[0]]) + t[1..] == s + t;
      FramesGrow(fr, s + [t[0]], t[1..]);
    }
  }

  /** With a buffer large enough for the longest frame, the capacity guard never fires. */
  lemma {:induction false} RoomyBufferNeedsNoGuard(fr: Framing, s: seq<byte>)
    requires fr.capacity >= MAX_FRAME_LEN
    ensures Split(fr, s) == SplitUnguarded(fr.sync, s)
    decreases |s|
  {
    if s == [] {
    } else if s[0] != fr.sync {
      RoomyBufferNeedsNoGuard(fr, s[1..]);
    } else if |s| < HEADER_LEN || |s| < FrameLength(s[4]) {
    } else {
      RoomyBufferNeedsNoGuard(fr, s[FrameLength(s[4])..]);
    }
  }

  lemma {:induction false} NoSyncNoFrame(fr: Framing, s: seq<byte>)
    requires forall i :: 0 <= i < |s| ==> s[i] != fr.sync
    ensures Split(fr, s) == Scan([], [])
    decreases |s|
  {
    if s != [] {
      NoSyncNoFrame(fr, s[1..]);
    }
  }

  /** As written, the decoder accepts a frame announcing 255 payload bytes, 261 bytes in
      all, whatever the size of its buffer; with the guard that frame is dropped. */
  lemma UnguardedAcceptsOversizedFrame(fr: Framing)
    requires fr.capacity < MAX_FRAME_LEN
    ensures var filler: byte := (fr.sync + 1) % 256;
            var s := [fr.sync, 0x62, fr.idHi, fr.idLo, 255] + seq(256, _ => filler);
            && SplitUnguarded(fr.sync, s).frames == [s]
            && |s| > fr.capacity
            && Split(fr, s).frames == []
  {
    var filler: byte := (fr.sync + 1) % 256;
    var s := [fr.sync, 0x62, fr.idHi, fr.idLo, 255] + seq(256, _ => filler);
    assert |s| == 261 && s[4] == 255;
    assert s[..261] == s;
    assert s[261..] == [];
    assert s[HEADER_LEN..] == seq(256, _ => filler);
    NoSyncNoFrame(fr, s[HEADER_LEN..]);
  }

  lemma {:induction false} SumUpdate(s: seq<byte>, i: nat, v: byte)
    requires i < |s|
    ensures Sum(s[i := v]) == Sum(s) - s[i] + v
    decreases |s|
  {
    var t := s[i := v];
    if i == |s| - 1 {
      assert t[..|t| - 1] == s[..|s| - 1];
    } else {
      assert t[..|t| - 1] == s[..|s| - 1][i := v];
      SumUpdate(s[..|s| - 1], i, v);
    }
  }

  /** Changing any single byte of a frame with a valid checksum, the checksum byte
      included, makes its checksum invalid. */
  lemma SingleByteCorruptionDetected(f: seq<byte>, i: nat, v: byte)
    requires ChecksumOk(f)
    requires i < |f| && v != f[i]
    ensures !ChecksumOk(f[i := v])
  {
    var g := f[i := v];
    var last := |f| - 1;
    if i == last {
      assert g[..last] == f[..last];
    } else {
      assert g[..last] == f[..last][i := v];
      SumUpdate(f[..last], i, v);
    }
  }
}
