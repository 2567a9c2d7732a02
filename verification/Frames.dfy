/**
 Reading a file as a sequence of frames, for any scanner that looks at the head
 of the remaining bytes and whose hits depend on their own bytes only.
 */
module Framing {
  import opened Types

  type Bytes = seq<Byte>

  datatype Scan = Stop | Hit(record: Record, size: nat)

  ghost predicate Sane(scan: Bytes -> Scan) {
    forall bs :: scan(bs).Hit? ==> 0 < scan(bs).size <= |bs|
  }

  ghost predicate Local(scan: Bytes -> Scan) {
    forall a, b :: SameFrame(scan, a, b) ==> scan(b) == scan(a)
  }

  /** `a` starts with a frame, and `b` starts with the same bytes. */
  ghost predicate SameFrame(scan: Bytes -> Scan, a: Bytes, b: Bytes) {
    scan(a).Hit? && scan(a).size <= |a| && scan(a).size <= |b| && b[..scan(a).size] == a[..scan(a).size]
  }

  type Scanner = f: Bytes -> Scan | Sane(f) && Local(f) witness Nothing

  function Nothing(bs: Bytes): Scan { Stop }

  datatype Replayed = Replayed(records: seq<Record>, good: nat)

  function ReplayWith(scan: Scanner, bs: Bytes): (r: Replayed)
    ensures r.good <= |bs|
    decreases |bs|
  {
    match scan(bs)
    case Stop => Replayed([], 0)
    case Hit(r, k) =>
      var rest := ReplayWith(scan, bs[k..]);
      Replayed([r] + rest.records, k + rest.good)
  }

  lemma SplitAppend(a: Bytes, b: Bytes, k: nat)
    requires k <= |a|
    ensures (a + b)[..k] == a[..k] && (a + b)[k..] == a[k..] + b
  {
  }

  lemma Regroup(r: Record, xs: seq<Record>, ys: seq<Record>)
    ensures [r] + (xs + ys) == [r] + xs + ys
  {
  }

  /** Bytes that replay completely act as a prefix for whatever follows them. */
  lemma {:induction false} ReplayConcat(scan: Scanner, a: Bytes, b: Bytes)
    requires ReplayWith(scan, a).good == |a|
    ensures ReplayWith(scan, a + b) ==
            Replayed(ReplayWith(scan, a).records + ReplayWith(scan, b).records, |a| + ReplayWith(scan, b).good)
    decreases |a|
  {
    if a == [] {
      assert a + b == b;
    } else {
      var k := scan(a).size;
      SplitAppend(a, b, k);
      assert SameFrame(scan, a, a + b);
      ReplayConcat(scan, a[k..], b);
      Regroup(scan(a).record, ReplayWith(scan, a[k..]).records, ReplayWith(scan, b).records);
    }
  }

  lemma ReplaySnoc(scan: Scanner, a: Bytes, f: Bytes, r: Record)
    requires ReplayWith(scan, a).good == |a| && ReplayWith(scan, f) == Replayed([r], |f|)
    ensures ReplayWith(scan, a + f) == Replayed(ReplayWith(scan, a).records + [r], |a + f|)
  {
    ReplayConcat(scan, a, f);
  }

  /** The replay that results if reading has reached `at` with `records`. */
  ghost function Completed(scan: Scanner, bs: Bytes, at: nat, records: seq<Record>): Replayed
    requires at <= |bs|
  {
    var rest := ReplayWith(scan, bs[at..]);
    Replayed(records + rest.records, at + rest.good)
  }

  lemma CompletedStart(scan: Scanner, bs: Bytes)
    ensures Completed(scan, bs, 0, []) == ReplayWith(scan, bs)
  {
    assert bs[0..] == bs;
  }

  lemma CompletedStep(scan: Scanner, bs: Bytes, at: nat, records: seq<Record>, s: Scan)
    requires at <= |bs| && s == scan(bs[at..]) && s.Hit?
    ensures 0 < s.size && at + s.size <= |bs|
    ensures Completed(scan, bs, at + s.size, records + [s.record]) == Completed(scan, bs, at, records)
  {
    assert bs[at..][s.size..] == bs[at + s.size..];
  }

  lemma CompletedEnd(scan: Scanner, bs: Bytes, at: nat, records: seq<Record>)
    requires at <= |bs| && scan(bs[at..]).Stop?
    ensures Completed(scan, bs, at, records) == Replayed(records, at)
  {
  }

  function Concat(fs: seq<Bytes>): Bytes {
    if fs == [] then [] else Concat(fs[..|fs| - 1]) + fs[|fs| - 1]
  }

  /** A file of whole frames replays to their records, all of it. */
  lemma {:induction false} FramesReplay(scan: Scanner, fs: seq<Bytes>, rs: seq<Record>)
    requires |fs| == |rs| && forall i :: 0 <= i < |fs| ==> scan(fs[i]) == Hit(rs[i], |fs[i]|)
    ensures ReplayWith(scan, Concat(fs)) == Replayed(rs, |Concat(fs)|)
  {
    if fs != [] {
      var n := |fs| - 1;
      FramesReplay(scan, fs[..n], rs[..n]);
      OneFrame(scan, fs[n]);
      ReplaySnoc(scan, Concat(fs[..n]), fs[n], rs[n]);
      assert rs[..n] + [rs[n]] == rs;
    }
  }

  lemma ReplayDropsTail(scan: Scanner, a: Bytes, tail: Bytes)
    requires ReplayWith(scan, a).good == |a| && scan(tail).Stop?
    ensures ReplayWith(scan, a + tail) == ReplayWith(scan, a)
  {
    ReplayConcat(scan, a, tail);
    assert ReplayWith(scan, a).records + [] == ReplayWith(scan, a).records;
  }

  lemma OneFrame(scan: Scanner, f: Bytes)
    requires scan(f).Hit? && scan(f).size == |f|
    ensures ReplayWith(scan, f) == Replayed([scan(f).record], |f|)
  {
    assert f[|f|..] == [];
  }

  /** Whatever the bytes are, the part that replay trusts replays to the same records, all of it. */
  lemma {:induction false} TruncationIdempotent(scan: Scanner, bs: Bytes)
    ensures ReplayWith(scan, bs[..ReplayWith(scan, bs).good]) == ReplayWith(scan, bs)
    decreases |bs|
  {
    if scan(bs).Hit? {
      var k, g := scan(bs).size, ReplayWith(scan, bs).good;
      TruncationIdempotent(scan, bs[k..]);
      assert bs[..g][..k] == bs[..k];
      assert SameFrame(scan, bs, bs[..g]);
      assert bs[..g][k..] == bs[k..][..g - k];
    } else {
      assert bs[..0] == [];
    }
  }
}

/**
 The journal file: frames of little-endian length, CRC-32 and payload, and the
 replay that stops at the first frame it cannot trust.
 */
module Frames {
  import opened Types
  import opened Framing
  import Crc = Crc32
  import P = CrcPolynomial

  const HEADER := 8
  const MAX_RECORD := 8 * 1024 * 1024

  /**
   What a frame is made of. The serializer is left abstract: a decoder that undoes
   a non-empty encoder. The source's checksum is `CrcSum`; only the corruption
   theorem depends on which checksum it is.
   */
  datatype Codec = Codec(enc: Record -> Bytes, dec: Bytes -> Option<Record>, sum: Bytes -> Bytes) {
    ghost predicate Valid() {
      && (forall r :: dec(enc(r)) == Some(r) && enc(r) != [])
      && (forall bs :: |sum(bs)| == 4)
    }

    predicate Fits(r: Record) { |enc(r)| <= MAX_RECORD }
  }

  // ---------- Header fields ----------

  function LengthBytes(n: nat): (b: Bytes)
    requires n < 0x1_0000_0000
    ensures |b| == 4
  {
    [n % 256, n / 256 % 256, n / 65536 % 256, n / 16777216]
  }

  function LengthOf(b: Bytes): nat
    requires |b| == 4
  {
    var b0: int, b1: int, b2: int, b3: int := b[0], b[1], b[2], b[3];
    b0 + 256 * b1 + 65536 * b2 + 16777216 * b3
  }

  lemma LengthRound(n: nat)
    requires n < 0x1_0000_0000
    ensures LengthOf(LengthBytes(n)) == n
  {
    var q1, q2, q3 := n / 256, n / 65536, n / 16777216;
    assert n == 256 * q1 + n % 256;
    assert q2 == q1 / 256 && q1 == 256 * q2 + q1 % 256;
    assert q3 == q2 / 256 && q2 == 256 * q3 + q2 % 256;
  }

  /** The number whose base-256 digits are `b`, lowest first. */
  ghost function LittleEndian(b: Bytes): nat {
    if b == [] then 0 else
    var low: int := b[0];
    low + 256 * LittleEndian(b[1..])
  }

  lemma LengthIsLittleEndian(b: Bytes)
    requires |b| == 4
    ensures LengthOf(b) == LittleEndian(b)
  {
    assert b[1..][1..] == b[2..] && b[2..][1..] == b[3..] && b[3..][1..] == [];
    assert LittleEndian(b[3..]) == b[3];
    assert LittleEndian(b[2..]) == b[2] as int + 256 * LittleEndian(b[3..]);
    assert LittleEndian(b[1..]) == b[1] as int + 256 * LittleEndian(b[2..]);
  }

  lemma LengthBack(b: Bytes)
    requires |b| == 4
    ensures LengthOf(b) < 0x1_0000_0000 && LengthBytes(LengthOf(b)) == b
  {
    var b0: int, b1: int, b2: int, b3: int := b[0], b[1], b[2], b[3];
    var n, q1, q2 := LengthOf(b), b1 + 256 * b2 + 65536 * b3, b2 + 256 * b3;
    assert n == 256 * q1 + b0 && q1 == 256 * q2 + b1;
    assert n / 256 == q1 && n % 256 == b0;
    assert q1 / 256 == q2 && q1 % 256 == b1 && n / 65536 == q2;
    assert q2 / 256 == b3 && q2 % 256 == b2 && n / 16777216 == b3;
  }

  function ByteAt(w: Crc.Word, k: nat): Byte
    requires k < 4
  {
    assert Crc.Pow2(4) == 16 && Crc.Pow2(8) == 256;
    Crc.Number(w[8 * k..8 * k + 8])
  }

  function SumBytes(w: Crc.Word): (b: Bytes)
    ensures |b| == 4
  {
    [ByteAt(w, 0), ByteAt(w, 1), ByteAt(w, 2), ByteAt(w, 3)]
  }

  lemma ByteAtBits(w: Crc.Word, k: nat, i: nat)
    requires k < 4 && i < 8
    ensures Crc.Bit(ByteAt(w, k), i) == w[8 * k + i]
  {
    Crc.NumberBit(w[8 * k..8 * k + 8], i);
  }

  lemma SumInjective(x: Crc.Word, y: Crc.Word)
    requires SumBytes(x) == SumBytes(y)
    ensures x == y
  {
    forall i | 0 <= i < 32 ensures x[i] == y[i] {
      var k, j := i / 8, i % 8;
      assert SumBytes(x)[k] == SumBytes(y)[k];
      ByteAtBits(x, k, j);
      ByteAtBits(y, k, j);
    }
  }

  /** The checksum field of the source: the CRC-32 of the payload, little-endian. */
  function CrcSum(payload: Bytes): Bytes { SumBytes(Crc.Checksum(payload)) }

  // ---------- Frames ----------

  function Frame(c: Codec, payload: Bytes): Bytes
    requires |payload| <= MAX_RECORD
  {
    LengthBytes(|payload|) + c.sum(payload) + payload
  }

  /**
   The bytes on disk: the payload's length with its lowest byte first, the CRC-32
   of the payload with its lowest byte first, the payload.
   */
  lemma FrameLayout(c: Codec, payload: Bytes)
    requires c.sum == CrcSum && |payload| <= MAX_RECORD
    ensures
      var f := Frame(c, payload);
      && |f| == 8 + |payload| && f[8..] == payload
      && LittleEndian(f[..4]) == |payload|
      && P.MessageBits(f[4..8]) == Crc.Checksum(payload)
  {
    var f, w := Frame(c, payload), Crc.Checksum(payload);
    LengthRound(|payload|);
    LengthIsLittleEndian(f[..4]);
    assert f[..4] == LengthBytes(|payload|) && f[4..8] == SumBytes(w);
    SumBits(w);
  }

  lemma SumBits(w: Crc.Word)
    ensures P.MessageBits(SumBytes(w)) == w
  {
    hide P.ByteBits, ByteAt;
    var b := SumBytes(w);
    forall k | 0 <= k < 4 ensures P.ByteBits(b[k]) == w[8 * k..8 * k + 8] {
      ByteBitsAt(w, k);
    }
    assert b[..3][..2] == b[..2] && b[..2][..1] == b[..1] && b[..1][..0] == [];
    assert P.MessageBits(b[..1]) == w[..8];
    assert P.MessageBits(b[..2]) == w[..16];
    assert P.MessageBits(b[..3]) == w[..24];
  }

  lemma ByteBitsAt(w: Crc.Word, k: nat)
    requires k < 4
    ensures P.ByteBits(ByteAt(w, k)) == w[8 * k..8 * k + 8]
  {
    hide P.ByteBits, ByteAt;
    forall i | 0 <= i < 8 ensures P.ByteBits(ByteAt(w, k))[i] == w[8 * k..8 * k + 8][i] {
      ByteAtBits(w, k, i);
      P.BitLiteral(ByteAt(w, k), i);
    }
  }

  /** One trusted frame at the head of `bs`, if there is one. */
  function Next(c: Codec, bs: Bytes): (s: Scan)
    ensures s.Hit? ==> HEADER < s.size <= |bs|
  {
    if |bs| < HEADER then Stop else
    var n := LengthOf(bs[..4]);
    if n == 0 || n > MAX_RECORD || |bs| < HEADER + n then Stop else
    var payload := bs[HEADER..HEADER + n];
    if c.sum(payload) != bs[4..HEADER] then Stop else
    match c.dec(payload)
    case None => Stop
    case Some(r) => Hit(r, HEADER + n)
  }

  /** Bytes are trusted exactly when they begin with the whole frame of a non-empty payload that decodes. */
  lemma NextExactly(c: Codec, bs: Bytes, r: Record, k: nat)
    requires c.Valid()
    ensures Next(c, bs) == Hit(r, k) <==>
      && 8 < k <= |bs| && k <= 8 + 8 * 1024 * 1024
      && c.dec(bs[8..k]) == Some(r) && bs[..k] == Frame(c, bs[8..k])
  {
    if 8 < k <= |bs| && k <= 8 + 8 * 1024 * 1024 {
      var p := bs[8..k];
      assert bs[..k] == bs[..4] + bs[4..8] + p;
      LengthBack(bs[..4]);
      LengthRound(|p|);
      FrameParts(c, p, bs[..4], bs[4..8]);
    }
  }

  lemma FrameParts(c: Codec, p: Bytes, a: Bytes, b: Bytes)
    requires c.Valid() && |p| <= MAX_RECORD && |a| == 4 && |b| == 4
    ensures a + b + p == Frame(c, p) <==> a == LengthBytes(|p|) && b == c.sum(p)
  {
    var x, y := a + b + p, Frame(c, p);
    if x == y {
      assert a == x[..4] == y[..4] == LengthBytes(|p|);
      assert b == x[4..8] == y[4..8] == c.sum(p);
    }
  }

  /** A trusted frame depends on its own bytes only. */
  lemma NextLocal(c: Codec, a: Bytes, b: Bytes)
    requires Next(c, a).Hit? && |b| >= Next(c, a).size && b[..Next(c, a).size] == a[..Next(c, a).size]
    ensures Next(c, b) == Next(c, a)
  {
    var k := Next(c, a).size;
    assert a[..4] == a[..k][..4] && b[..4] == b[..k][..4];
    assert a[4..HEADER] == a[..k][4..HEADER] && b[4..HEADER] == b[..k][4..HEADER];
    assert a[HEADER..k] == a[..k][HEADER..] && b[HEADER..k] == b[..k][HEADER..];
  }

  function ScannerOf(c: Codec): Scanner {
    NextIsLocal(c);
    (bs: Bytes) => Next(c, bs)
  }

  lemma NextIsLocal(c: Codec)
    ensures Sane((bs: Bytes) => Next(c, bs)) && Local((bs: Bytes) => Next(c, bs))
  {
    var scan := (bs: Bytes) => Next(c, bs);
    forall a, b | SameFrame(scan, a, b) ensures scan(b) == scan(a) {
      NextLocal(c, a, b);
    }
  }

  /** Frame by frame, for as long as the scan hits. */
  function Replay(c: Codec, bs: Bytes): (r: Replayed)
    ensures r.good <= |bs|
  {
    ReplayWith(ScannerOf(c), bs)
  }

  /** `scan` is the scanner of this codec. */
  ghost predicate Reads(scan: Scanner, c: Codec) {
    forall bs {:trigger Next(c, bs)} :: scan(bs) == Next(c, bs)
  }

  /** How reading goes wrong: not at all, at the initial seek, or where the readable bytes end. */
  datatype ReadFault = Sound | SeekFails | BreaksOff

  /** A reader at the head of `bs` runs into the end of `bs`. */
  predicate RunsOut(bs: Bytes) {
    || |bs| < HEADER
    || (var n := LengthOf(bs[..4]); 0 < n <= MAX_RECORD && |bs| < HEADER + n)
  }

  /** What does not run out is decided: more bytes after it change nothing. */
  lemma DecidedStays(c: Codec, bs: Bytes, more: Bytes)
    requires !RunsOut(bs)
    ensures Next(c, bs + more) == Next(c, bs)
  {
    assert (bs + more)[..4] == bs[..4] && (bs + more)[4..HEADER] == bs[4..HEADER];
    var n := LengthOf(bs[..4]);
    if 0 < n <= MAX_RECORD {
      assert (bs + more)[HEADER..HEADER + n] == bs[HEADER..HEADER + n];
    }
  }

  /** Every strict prefix of a frame runs out. */
  lemma PrefixRunsOut(c: Codec, payload: Bytes, k: nat)
    requires c.Valid() && 0 < |payload| <= MAX_RECORD && k < |Frame(c, payload)|
    ensures RunsOut(Frame(c, payload)[..k])
  {
    if k >= HEADER {
      var bs := Frame(c, payload)[..k];
      assert bs[..HEADER] == Frame(c, payload)[..HEADER];
      FrameFields(c, payload, bs);
    }
  }

  /**
   Reads one frame the way the source does, giving up at the first thing it cannot
   trust. If reading breaks off, running out of bytes is an error.
   */
  method ReadFrame(c: Codec, bs: Bytes, breaks: bool, ghost scan: Scanner) returns (s: Scan, ok: bool)
    requires Reads(scan, c)
    ensures ok == !(breaks && RunsOut(bs)) && s == scan(bs) && (RunsOut(bs) ==> s.Stop?)
  {
    assert scan(bs) == Next(c, bs);
    if |bs| < HEADER {
      return Stop, !breaks;
    }
    var length := LengthOf(bs[..4]);
    if length == 0 || length > MAX_RECORD {
      return Stop, true;
    }
    if |bs| < HEADER + length {
      return Stop, !breaks;
    }
    var payload := bs[HEADER..HEADER + length];
    if c.sum(payload) != bs[4..HEADER] {
      return Stop, true;
    }
    match c.dec(payload)
    case None => return Stop, true;
    case Some(r) => return Hit(r, HEADER + length), true;
  }

  /** Reading `bs` meets an error: the seek failed, or it broke off where replay still wanted bytes. */
  ghost predicate ReadFails(bs: Bytes, r: Replayed, fault: ReadFault)
    requires r.good <= |bs|
  {
    fault.SeekFails? || (fault.BreaksOff? && RunsOut(bs[r.good..]))
  }

  /** The loop of the source: collect records while frames can be trusted. */
  method ReadFrames(c: Codec, bs: Bytes, breaks: bool, ghost scan: Scanner)
    returns (records: seq<Record>, good: nat, ok: bool)
    requires Reads(scan, c)
    ensures ok == !(breaks && RunsOut(bs[ReplayWith(scan, bs).good..]))
    ensures Replayed(records, good) == if ok then ReplayWith(scan, bs) else Replayed([], 0)
  {
    hide ReplayWith, Completed, Next;
    records, good := [], 0;
    CompletedStart(scan, bs);
    while true
      invariant good <= |bs| && Completed(scan, bs, good, records) == ReplayWith(scan, bs)
      decreases |bs| - good
    {
      var s;
      s, ok := ReadFrame(c, bs[good..], breaks, scan);
      if s.Stop? {
        CompletedEnd(scan, bs, good, records);
        if !ok {
          records, good := [], 0;
        }
        return;
      }
      CompletedStep(scan, bs, good, records, s);
      records := records + [s.record];
      good := good + s.size;
    }
  }

  method ComputeReplay(c: Codec, bs: Bytes, fault: ReadFault) returns (records: seq<Record>, good: nat, ok: bool)
    ensures ok == !ReadFails(bs, Replay(c, bs), fault)
    ensures Replayed(records, good) == if ok then Replay(c, bs) else Replayed([], 0)
  {
    if fault.SeekFails? {
      return [], 0, false;
    }
    records, good, ok := ReadFrames(c, bs, fault.BreaksOff?, ScannerOf(c));
  }

  // ---------- Reading back what was written ----------

  ghost predicate AllFit(c: Codec, rs: seq<Record>) {
    forall i :: 0 <= i < |rs| ==> c.Fits(rs[i])
  }

  /** The bytes of a journal holding exactly `rs`. */
  function File(c: Codec, rs: seq<Record>): Bytes
    requires AllFit(c, rs)
  {
    Concat(seq(|rs|, i requires 0 <= i < |rs| => Frame(c, c.enc(rs[i]))))
  }

  lemma FrameFields(c: Codec, payload: Bytes, bs: Bytes)
    requires c.Valid() && |payload| <= MAX_RECORD && |bs| >= HEADER
    requires bs[..HEADER] == Frame(c, payload)[..HEADER]
    ensures LengthOf(bs[..4]) == |payload| && bs[4..HEADER] == c.sum(payload)
  {
    LengthRound(|payload|);
    assert bs[..4] == bs[..HEADER][..4] == LengthBytes(|payload|);
    assert bs[4..HEADER] == bs[..HEADER][4..];
  }

  lemma FrameNext(c: Codec, r: Record)
    requires c.Valid() && c.Fits(r)
    ensures |Frame(c, c.enc(r))| == HEADER + |c.enc(r)|
    ensures Next(c, Frame(c, c.enc(r))) == Hit(r, HEADER + |c.enc(r)|)
  {
    var p := c.enc(r);
    FrameFields(c, p, Frame(c, p));
    assert Frame(c, p)[HEADER..HEADER + |p|] == p;
  }

  lemma FrameReplay(c: Codec, r: Record)
    requires c.Valid() && c.Fits(r)
    ensures Replay(c, Frame(c, c.enc(r))) == Replayed([r], |Frame(c, c.enc(r))|)
  {
    FrameNext(c, r);
    OneFrame(ScannerOf(c), Frame(c, c.enc(r)));
  }

  lemma FileReplay(c: Codec, rs: seq<Record>)
    requires c.Valid() && AllFit(c, rs)
    ensures Replay(c, File(c, rs)) == Replayed(rs, |File(c, rs)|)
  {
    var fs := seq(|rs|, i requires 0 <= i < |rs| => Frame(c, c.enc(rs[i])));
    forall i | 0 <= i < |rs| ensures Next(c, fs[i]) == Hit(rs[i], |fs[i]|) {
      FrameNext(c, rs[i]);
    }
    FramesReplay(ScannerOf(c), fs, rs);
  }

  /** Writing one whole frame after an intact journal adds one record. */
  lemma AppendFrame(c: Codec, bs: Bytes, records: seq<Record>, r: Record)
    requires c.Valid() && c.Fits(r) && Replay(c, bs) == Replayed(records, |bs|)
    ensures var f := Frame(c, c.enc(r));
      |f| == HEADER + |c.enc(r)| && Replay(c, bs + f) == Replayed(records + [r], |bs + f|)
  {
    FrameNext(c, r);
    FrameReplay(c, r);
    ReplaySnoc(ScannerOf(c), bs, Frame(c, c.enc(r)), r);
  }

  lemma TornFrame(c: Codec, r: Record, k: nat)
    requires c.Valid() && c.Fits(r) && k < |Frame(c, c.enc(r))|
    ensures Next(c, Frame(c, c.enc(r))[..k]).Stop?
  {
    var p := c.enc(r);
    var bs := Frame(c, p)[..k];
    if k >= HEADER {
      assert bs[..HEADER] == Frame(c, p)[..HEADER];
      FrameFields(c, p, bs);
    }
  }

  /**
   A crash at any byte of an append: replay of any intact journal followed by the
   first `k` bytes of a frame gives the old records, or one more when the frame
   is whole. So an append is atomic to recovery.
   */
  lemma TornTail(c: Codec, bs: Bytes, r: Record, k: nat)
    requires c.Valid() && c.Fits(r) && k <= |Frame(c, c.enc(r))|
    requires Replay(c, bs).good == |bs|
    ensures
      var f, was := Frame(c, c.enc(r)), Replay(c, bs);
      Replay(c, bs + f[..k]) ==
        if k == |f| then Replayed(was.records + [r], |bs| + |f|) else was
  {
    var f := Frame(c, c.enc(r));
    if k == |f| {
      assert f[..k] == f;
      FrameReplay(c, r);
      ReplaySnoc(ScannerOf(c), bs, f, r);
    } else {
      TornFrame(c, r, k);
      ReplayDropsTail(ScannerOf(c), bs, f[..k]);
    }
  }

  /**
   Why a partly written frame must not be followed by another append: later bytes
   are taken for the rest of its payload, and until they fill it replay sees
   nothing after the old records.
   */
  lemma PartialFrameHidesLater(c: Codec, bs: Bytes, r: Record, k: nat, later: Bytes)
    requires c.Valid() && c.Fits(r) && Replay(c, bs).good == |bs|
    requires HEADER <= k && k + |later| < |Frame(c, c.enc(r))|
    ensures Replay(c, bs + (Frame(c, c.enc(r))[..k] + later)) == Replay(c, bs)
  {
    var f := Frame(c, c.enc(r));
    var tail := f[..k] + later;
    assert tail[..HEADER] == f[..HEADER];
    FrameFields(c, c.enc(r), tail);
    ReplayDropsTail(ScannerOf(c), bs, tail);
  }

  /** After truncation the journal is usable: the next append replays as one more record. */
  lemma AppendAfterTruncation(c: Codec, bs: Bytes, r: Record)
    requires c.Valid() && c.Fits(r)
    ensures
      var was, f := Replay(c, bs), Frame(c, c.enc(r));
      && Replay(c, bs[..was.good]) == was
      && Replay(c, bs[..was.good] + f) == Replayed(was.records + [r], was.good + |f|)
  {
    TruncationIdempotent(ScannerOf(c), bs);
    FrameReplay(c, r);
    ReplaySnoc(ScannerOf(c), bs[..Replay(c, bs).good], Frame(c, c.enc(r)), r);
  }

  // ---------- Corruption ----------

  lemma WrongSum(c: Codec, p: Bytes, p': Bytes, tail: Bytes)
    requires c.Valid() && |p| == |p'| <= MAX_RECORD && c.sum(p) != c.sum(p')
    ensures Next(c, Frame(c, p)[..HEADER] + p' + tail).Stop?
  {
    var bs := Frame(c, p)[..HEADER] + p' + tail;
    assert bs[..HEADER] == Frame(c, p)[..HEADER];
    FrameFields(c, p, bs);
    assert bs[HEADER..HEADER + |p|] == p';
  }

  lemma BurstChangesSum(front: Bytes, x: Bytes, y: Bytes, back: Bytes)
    requires |x| == |y| <= 4 && x != y
    ensures CrcSum(front + x + back) != CrcSum(front + y + back)
  {
    Crc.BurstDetected(front, x, y, back);
    if CrcSum(front + x + back) == CrcSum(front + y + back) {
      SumInjective(Crc.Checksum(front + x + back), Crc.Checksum(front + y + back));
    }
  }

  /**
   The checksum catches local corruption: change at most four consecutive payload
   bytes of any frame, and replay returns exactly the records before that frame.
   */
  lemma CorruptionStopsReplay(c: Codec, before: seq<Record>, front: Bytes, x: Bytes, y: Bytes, back: Bytes, tail: Bytes)
    requires c.Valid() && c.sum == CrcSum && AllFit(c, before)
    requires |x| == |y| <= 4 && x != y && |front + x + back| <= MAX_RECORD
    ensures
      var header := Frame(c, front + x + back)[..HEADER];
      Replay(c, File(c, before) + (header + (front + y + back) + tail)) ==
      Replayed(before, |File(c, before)|)
  {
    BurstChangesSum(front, x, y, back);
    WrongSum(c, front + x + back, front + y + back, tail);
    FileReplay(c, before);
    ReplayDropsTail(ScannerOf(c), File(c, before), Frame(c, front + x + back)[..HEADER] + (front + y + back) + tail);
  }
}
