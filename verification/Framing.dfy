/** The write-ahead log's record format (internal/pipeline/checkpoint.go, frame and
    readFrame): a 32-bit length, a 32-bit checksum, a 64-bit sequence number and a
    payload. The checksum is a parameter; nothing here depends on which one it is. */
module Framing {
  import opened Util

  type Byte = x: int | 0 <= x < 256
  type Bytes = seq<Byte>
  type Word = x: int | 0 <= x < 0x1_0000_0000
  type Long = x: int | 0 <= x < 0x1_0000_0000_0000_0000
  type Checksum = Bytes -> Word

  const WORD := 0x1_0000_0000
  const HEADER := 8

  /******* Big-endian numbers *******/

  function PutUint32(v: Word): (b: Bytes)
    ensures |b| == 4
  {
    [v / 0x100_0000, v / 0x1_0000 % 256, v / 256 % 256, v % 256]
  }

  function GetUint32(b: Bytes): (v: Word)
    requires |b| == 4
  {
    var b0: int, b1: int, b2: int, b3: int := b[0], b[1], b[2], b[3];
    0x100_0000 * b0 + 0x1_0000 * b1 + 256 * b2 + b3
  }

  function PutUint64(v: Long): (b: Bytes)
    ensures |b| == 8
  {
    PutUint32(v / WORD) + PutUint32(v % WORD)
  }

  function GetUint64(b: Bytes): (v: Long)
    requires |b| == 8
  {
    var hi: int, lo: int := GetUint32(b[..4]), GetUint32(b[4..]);
    WORD * hi + lo
  }

  lemma WordReadsBack(v: Word)
    ensures GetUint32(PutUint32(v)) == v
  {
    var h := v / 0x1_0000;
    assert v / 0x100_0000 == h / 256 && v / 256 == 256 * h + v % 0x1_0000 / 256;
  }

  lemma LongReadsBack(v: Long)
    ensures GetUint64(PutUint64(v)) == v
  {
    WordReadsBack(v / WORD);
    WordReadsBack(v % WORD);
    CutBack(PutUint32(v / WORD), PutUint32(v % WORD));
  }

  /******* Frames *******/

  datatype Record = Record(seqNo: Long, payload: Bytes)

  predicate Fits(r: Record) { |r.payload| + 8 < WORD }

  function Body(r: Record): (b: Bytes)
    ensures |b| == 8 + |r.payload|
  {
    PutUint64(r.seqNo) + r.payload
  }

  /** The length field is a uint32 conversion: it keeps the low 32 bits. */
  function Header(crc: Checksum, body: Bytes): (b: Bytes)
    ensures |b| == HEADER
  {
    PutUint32(|body| % WORD) + PutUint32(crc(body))
  }

  function Frame(crc: Checksum, r: Record): (b: Bytes)
    ensures |b| == 16 + |r.payload|
  {
    Header(crc, Body(r)) + Body(r)
  }

  datatype Framed = Framed(record: Record, size: nat)

  /** The frame at the start of data, unless it is cut short or fails its check. */
  function ReadFrame(crc: Checksum, data: Bytes): (r: Option<Framed>)
    ensures r.Some? ==> 0 < r.value.size <= |data|
  {
    if |data| < HEADER then None else
      var bodyLen, want := GetUint32(data[..4]), GetUint32(data[4..8]);
      var end := HEADER + bodyLen;
      if bodyLen < 8 || end > |data| then None
      else if crc(data[HEADER..end]) != want then None
      else Some(Framed(ReadBody(data[HEADER..end]), end))
  }

  function ReadBody(body: Bytes): Record
    requires |body| >= 8
  {
    Record(GetUint64(body[..8]), body[8..])
  }

  lemma CutBack(a: Bytes, b: Bytes)
    ensures (a + b)[..|a|] == a && (a + b)[|a|..] == b
  {
  }

  /** The bytes of a frame: the body's length and its checksum, most significant byte first,
      then the number and the payload. */
  lemma FrameBytes(crc: Checksum)
    ensures PutUint32(0x0102_0304) == [1, 2, 3, 4] && PutUint64(0x0102_0304_0506_0708) == [1, 2, 3, 4, 5, 6, 7, 8]
    ensures Frame(crc, Record(5, [42])) ==
              [0, 0, 0, 9] + PutUint32(crc([0, 0, 0, 0, 0, 0, 0, 5, 42])) + [0, 0, 0, 0, 0, 0, 0, 5, 42]
  {
    assert PutUint64(5) == [0, 0, 0, 0, 0, 0, 0, 5];
    assert Body(Record(5, [42])) == [0, 0, 0, 0, 0, 0, 0, 5, 42];
    assert PutUint32(9) == [0, 0, 0, 9];
  }

  lemma BodyReadsBack(r: Record)
    ensures ReadBody(Body(r)) == r
  {
    LongReadsBack(r.seqNo);
    CutBack(PutUint64(r.seqNo), r.payload);
  }

  lemma HeaderReadsBack(crc: Checksum, body: Bytes, rest: Bytes)
    ensures var f := Header(crc, body) + rest;
            GetUint32(f[..4]) == |body| % WORD && GetUint32(f[4..8]) == crc(body) && f[8..] == rest
  {
    var f := Header(crc, body) + rest;
    WordReadsBack(|body| % WORD);
    WordReadsBack(crc(body));
    assert f[..4] == PutUint32(|body| % WORD) && f[4..8] == PutUint32(crc(body));
  }

  lemma FrameStart(crc: Checksum, r: Record, rest: Bytes)
    ensures var f := Frame(crc, r) + rest;
            && GetUint32(f[..4]) == |Body(r)| % WORD && GetUint32(f[4..8]) == crc(Body(r))
            && f[8..8 + |Body(r)|] == Body(r)
  {
    var f, body := Frame(crc, r) + rest, Body(r);
    assert f == Header(crc, body) + (body + rest);
    HeaderReadsBack(crc, body, body + rest);
    assert f[8..8 + |body|] == f[8..][..|body|];
  }

  /** A record reads back from its frame, whatever follows, exactly when its length
      fits the length field. */
  lemma FrameReadsBack(crc: Checksum, r: Record, rest: Bytes)
    ensures ReadFrame(crc, Frame(crc, r) + rest) == Some(Framed(r, |Frame(crc, r)|)) <==> Fits(r)
  {
    FrameStart(crc, r, rest);
    BodyReadsBack(r);
  }

  /** No proper prefix of a frame reads as a frame. */
  lemma TornFrame(crc: Checksum, r: Record, n: nat)
    requires Fits(r) && n < |Frame(crc, r)|
    ensures ReadFrame(crc, Frame(crc, r)[..n]) == None
  {
    FrameStart(crc, r, []);
    assert Frame(crc, r) + [] == Frame(crc, r);
    if n >= HEADER { assert Frame(crc, r)[..n][..4] == Frame(crc, r)[..4]; }
  }

  /** What is read depends only on the bytes of the frame itself. */
  lemma ReadIsLocal(crc: Checksum, a: Bytes, b: Bytes, n: nat)
    requires ReadFrame(crc, a).Some? && ReadFrame(crc, a).value.size <= n <= |a| && n <= |b| && a[..n] == b[..n]
    ensures ReadFrame(crc, b) == ReadFrame(crc, a)
  {
    var end := ReadFrame(crc, a).value.size;
    assert a[..4] == a[..n][..4] == b[..4];
    assert a[4..8] == a[..n][4..8] == b[4..8];
    assert a[HEADER..end] == a[..n][HEADER..end] == b[HEADER..end];
  }
}
