/**
 * The per-chunk frame check of `handleIncomingData` and the payload layout read by
 * `parseAndDisplayData` (renderer.js).
 *
 * Every chunk delivered by the serial link is judged on its own: nothing is kept
 * from one chunk to the next, so a frame that arrives split over two chunks is
 * rejected twice. A chunk is accepted when it has at least 56 bytes, starts with
 * 0x55 0x55 and has 0xAA 0xAA at offsets 54 and 55; bytes after offset 55 are ignored.
 */
module Frame {
  import opened Values

  const FrameLength: nat := 56
  const PayloadLength: nat := 52
  const SyncByte: Byte := 0x55
  const EndByte: Byte := 0xAA

  /** The outcome of checking one chunk; the checks run in this order. */
  datatype Verdict = Incomplete | BadHeader | BadFooter | Valid

  function Classify(chunk: seq<Byte>): (v: Verdict)
    ensures v == Incomplete <==> |chunk| < FrameLength
    ensures v == BadHeader <==> |chunk| >= FrameLength && !(chunk[0] == SyncByte && chunk[1] == SyncByte)
    ensures v == BadFooter <==> |chunk| >= FrameLength && chunk[0] == SyncByte && chunk[1] == SyncByte
                                && !(chunk[54] == EndByte && chunk[55] == EndByte)
    ensures v == Valid <==> |chunk| >= FrameLength && chunk[0] == SyncByte && chunk[1] == SyncByte
                            && chunk[54] == EndByte && chunk[55] == EndByte
  {
    if |chunk| < FrameLength then Incomplete
    else if !(chunk[0] == SyncByte && chunk[1] == SyncByte) then BadHeader
    else if !(chunk[54] == EndByte && chunk[55] == EndByte) then BadFooter
    else Valid
  }

  /** `dataArray.slice(2, 54)`: the 52 payload bytes between the markers. */
  function Payload(chunk: seq<Byte>): (p: seq<Byte>)
    requires |chunk| >= FrameLength
    ensures |p| == PayloadLength
  {
    chunk[2..54]
  }

  /** The 56-byte frame a device sends around a payload. */
  function FrameOf(payload: seq<Byte>): (f: seq<Byte>)
    requires |payload| == PayloadLength
    ensures |f| == FrameLength
  {
    [SyncByte, SyncByte] + payload + [EndByte, EndByte]
  }

  /** A framed payload is accepted and its payload is the one framed. */
  lemma FrameRoundTrip(payload: seq<Byte>)
    requires |payload| == PayloadLength
    ensures Classify(FrameOf(payload)) == Valid
    ensures Payload(FrameOf(payload)) == payload
  {
  }

  /** Every accepted chunk starts with a well-formed frame around its payload. */
  lemma {:induction false} AcceptedIsFramed(chunk: seq<Byte>)
    requires Classify(chunk) == Valid
    ensures chunk[..FrameLength] == FrameOf(Payload(chunk))
  {
    var f := FrameOf(Payload(chunk));
    forall i | 0 <= i < FrameLength
      ensures chunk[i] == f[i]
    {
      if 2 <= i < 54 {
        assert f[i] == Payload(chunk)[i - 2];
      }
    }
  }

  /** Bytes after offset 55 take no part in the check or the payload. */
  lemma TrailingBytesIgnored(chunk: seq<Byte>, extra: seq<Byte>)
    requires |chunk| >= FrameLength
    ensures Classify(chunk + extra) == Classify(chunk)
    ensures Payload(chunk + extra) == Payload(chunk)
  {
    var c := chunk + extra;
    assert c[0] == chunk[0] && c[1] == chunk[1] && c[54] == chunk[54] && c[55] == chunk[55];
    assert c[2..54] == chunk[2..54];
  }

  /** No reassembly: both halves of a frame split across two chunks are rejected as incomplete. */
  lemma SplitFrameRejected(payload: seq<Byte>, k: nat)
    requires |payload| == PayloadLength
    requires 0 < k < FrameLength
    ensures Classify(FrameOf(payload)[..k]) == Incomplete
    ensures Classify(FrameOf(payload)[k..]) == Incomplete
  {
  }

  // ---------------------------------------------------------------------------
  // Little-endian words

  /** The word whose little-endian bytes start at `off` (`setUint8` x4, then a 4-byte read). */
  function WordAt(p: seq<Byte>, off: nat): (w: Uint32)
    requires off + 4 <= |p|
  {
    var b0, b1, b2, b3: int := p[off], p[off + 1], p[off + 2], p[off + 3];
    b0 + 0x100 * (b1 + 0x100 * (b2 + 0x100 * b3))
  }

  /** The four little-endian bytes of a word. */
  function WordBytes(w: Uint32): (b: seq<Byte>)
    ensures |b| == 4
  {
    var r1 := w / 0x100;
    var r2 := r1 / 0x100;
    [w % 0x100, r1 % 0x100, r2 % 0x100, r2 / 0x100]
  }

  lemma ByteSplit(lo: int, hi: nat)
    requires 0 <= lo < 0x100
    ensures (lo + 0x100 * hi) % 0x100 == lo && (lo + 0x100 * hi) / 0x100 == hi
  {
  }

  lemma WordRoundTrip(w: Uint32)
    ensures WordAt(WordBytes(w), 0) == w
  {
  }

  lemma {:induction false} BytesRoundTrip(p: seq<Byte>, off: nat)
    requires off + 4 <= |p|
    ensures WordBytes(WordAt(p, off)) == p[off..off + 4]
  {
    var b0, b1, b2, b3: int := p[off], p[off + 1], p[off + 2], p[off + 3];
    var r2 := b2 + 0x100 * b3;
    var r1 := b1 + 0x100 * r2;
    ByteSplit(b0, r1);
    ByteSplit(b1, r2);
    ByteSplit(b2, b3);
  }

  // ---------------------------------------------------------------------------
  // Payload layout

  /** The raw words of one payload, before their float32 reading. */
  datatype Words = Words(sensors: seq<Uint32>, time: Uint32, heaterLeft: Uint32, heaterRight: Uint32, power: Uint32)
  {
    predicate WellFormed() {
      |sensors| == 8
    }

    /** The twelve words in payload order. */
    function InOrder(): (ws: seq<Uint32>)
      ensures |ws| == |sensors| + 4
    {
      sensors + [time, heaterLeft, heaterRight, power]
    }
  }

  /** The words at payload offsets 0, 4, ..., 4(n-1). */
  function WordsFrom(p: seq<Byte>, n: nat): (ws: seq<Uint32>)
    requires 4 * n <= |p|
    ensures |ws| == n
    ensures forall i :: 0 <= i < n ==> ws[i] == WordAt(p, 4 * i)
  {
    seq(n, i requires 0 <= i < n => WordAt(p, 4 * i))
  }

  /**
   * Sensors at payload offsets 0..31, time at 32, heater-left at 36, heater-right
   * at 40, power at 44; bytes 48..51 are never read.
   */
  function Decode(payload: seq<Byte>): (w: Words)
    requires |payload| == PayloadLength
    ensures w.WellFormed()
  {
    Words(WordsFrom(payload, 8), WordAt(payload, 32), WordAt(payload, 36), WordAt(payload, 40), WordAt(payload, 44))
  }

  /** The bytes of a list of words, each little-endian, one after the other. */
  function BytesOf(ws: seq<Uint32>): (b: seq<Byte>)
    ensures |b| == 4 * |ws|
  {
    if ws == [] then [] else BytesOf(ws[..|ws| - 1]) + WordBytes(ws[|ws| - 1])
  }

  /** The payload a device would send for these words, with `reserved` in bytes 48..51. */
  function Encode(w: Words, reserved: seq<Byte>): (p: seq<Byte>)
    requires w.WellFormed() && |reserved| == 4
    ensures |p| == PayloadLength
  {
    BytesOf(w.InOrder()) + reserved
  }

  lemma {:induction false} WordOfBytesOf(ws: seq<Uint32>, i: nat)
    requires i < |ws|
    ensures WordAt(BytesOf(ws), 4 * i) == ws[i]
    decreases |ws|
  {
    var init := ws[..|ws| - 1];
    var b := BytesOf(ws);
    assert b == BytesOf(init) + WordBytes(ws[|ws| - 1]);
    if i < |ws| - 1 {
      WordOfBytesOf(init, i);
      assert b[4 * i..4 * i + 4] == BytesOf(init)[4 * i..4 * i + 4];
    } else {
      assert b[4 * i..4 * i + 4] == WordBytes(ws[i]);
      WordRoundTrip(ws[i]);
    }
  }

  /** Reading `n` words from a payload and writing them back gives exactly its first `4n` bytes. */
  lemma {:induction false} BytesOfWordsFrom(p: seq<Byte>, n: nat)
    requires 4 * n <= |p|
    ensures BytesOf(WordsFrom(p, n)) == p[..4 * n]
  {
    if n > 0 {
      var ws := WordsFrom(p, n);
      assert ws[..n - 1] == WordsFrom(p, n - 1);
      BytesOfWordsFrom(p, n - 1);
      BytesRoundTrip(p, 4 * (n - 1));
      assert p[..4 * n] == p[..4 * (n - 1)] + p[4 * (n - 1)..4 * n];
    }
  }

  /** Decoding an encoded payload gives back every word. */
  lemma DecodeEncode(w: Words, reserved: seq<Byte>)
    requires w.WellFormed() && |reserved| == 4
    ensures Decode(Encode(w, reserved)) == w
  {
    var p := Encode(w, reserved);
    var ws := w.InOrder();
    forall i | 0 <= i < 12
      ensures WordAt(p, 4 * i) == ws[i]
    {
      WordOfBytesOf(ws, i);
      assert p[4 * i..4 * i + 4] == BytesOf(ws)[4 * i..4 * i + 4];
    }
    assert WordsFrom(p, 8) == w.sensors;
    assert WordAt(p, 4 * 8) == ws[8] && WordAt(p, 4 * 9) == ws[9];
    assert WordAt(p, 4 * 10) == ws[10] && WordAt(p, 4 * 11) == ws[11];
  }

  /** Encoding a decoded payload with its own bytes 48..51 gives back the payload. */
  lemma EncodeDecode(payload: seq<Byte>)
    requires |payload| == PayloadLength
    ensures Encode(Decode(payload), payload[48..52]) == payload
  {
    var w := Decode(payload);
    assert w.InOrder() == WordsFrom(payload, 12);
    BytesOfWordsFrom(payload, 12);
    assert payload[..48] + payload[48..52] == payload;
  }

  /** Two payloads decode alike exactly when their first 48 bytes agree: bytes 48..51 are never read. */
  lemma DecodeReadsFirst48(p: seq<Byte>, q: seq<Byte>)
    requires |p| == PayloadLength && |q| == PayloadLength
    ensures Decode(p) == Decode(q) <==> p[..48] == q[..48]
  {
    if Decode(p) == Decode(q) {
      EncodeDecode(p);
      EncodeDecode(q);
      assert p[..48] == BytesOf(Decode(p).InOrder());
      assert q[..48] == BytesOf(Decode(q).InOrder());
    }
    if p[..48] == q[..48] {
      forall i | 0 <= i < 12
        ensures WordAt(p, 4 * i) == WordAt(q, 4 * i)
      {
        assert p[4 * i..4 * i + 4] == p[..48][4 * i..4 * i + 4];
        assert q[4 * i..4 * i + 4] == q[..48][4 * i..4 * i + 4];
      }
      assert WordsFrom(p, 8) == WordsFrom(q, 8);
    }
  }

  // ---------------------------------------------------------------------------
  // What a valid chunk contributes to the chart

  /**
   * The twelve values pushed for one frame: the eight sensor readings, heater left,
   * heater right, power, and the target temperature taken from the slider.
   */
  function ChartValues(w: Words, float32: Float32Reader, target: Sample): (v: seq<Sample>)
    requires w.WellFormed()
    ensures |v| == 12
  {
    seq(8, i requires 0 <= i < 8 => float32(w.sensors[i]))
      + [float32(w.heaterLeft), float32(w.heaterRight), float32(w.power), target]
  }

  /** Where each pushed value comes from, as offsets into the received chunk. */
  lemma ChartValuesLayout(chunk: seq<Byte>, float32: Float32Reader, target: Sample)
    requires Classify(chunk) == Valid
    ensures var v := ChartValues(Decode(Payload(chunk)), float32, target);
      && |v| == 12
      && (forall i :: 0 <= i < 8 ==> v[i] == float32(WordAt(chunk, 2 + 4 * i)))
      && v[8] == float32(WordAt(chunk, 38))
      && v[9] == float32(WordAt(chunk, 42))
      && v[10] == float32(WordAt(chunk, 46))
      && v[11] == target
    ensures Decode(Payload(chunk)).time == WordAt(chunk, 34)
  {
  }

  /**
   * The tile a sensor word is shown in, computed as the source does:
   * `labelIndex = 8 - i`, tile `9 - labelIndex`. The result is `i + 1`, the same
   * numbering as the "Sensor i+1" text and chart series `i`: there is no inversion.
   */
  function TileNumber(sensorIndex: nat): (t: nat)
    requires sensorIndex < 8
    ensures 1 <= t <= 8
    ensures t - 1 == sensorIndex
  {
    var labelIndex := 8 - sensorIndex;
    9 - labelIndex
  }

  /** The inversion that the comment beside the computation describes (sensor 8 on tile T1) is not what is computed. */
  lemma TileIsNotInverted()
    ensures TileNumber(0) == 1 && TileNumber(7) == 8
    ensures forall i :: 0 <= i < 8 ==> TileNumber(i) != 8 - i
  {
  }
}
