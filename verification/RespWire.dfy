/**
 The wire format as a relation between values and bytes, written from the
 grammar, and the proof that the reader accepts exactly that relation.
 */
module RespWire {
  import opened Types
  import opened Resp

  // ---------- The grammar ----------

  /** The value of a string of digits, by the weight of each. */
  ghost function Positional(ds: Bytes): int {
    if ds == [] then 0 else
    var first: int := ds[0];
    (first - 48) * Pow10(|ds| - 1) + Positional(ds[1..])
  }

  ghost predicate Natural(n: int, ds: Bytes) {
    ds != [] && (forall i :: 0 <= i < |ds| ==> 48 <= ds[i] <= 57) && n == Positional(ds)
  }

  /** A numeral of 64 bits: an optional sign and digits, leading zeros allowed, short enough for a line. */
  ghost predicate Numeral(n: int, t: Bytes) {
    && -0x8000_0000_0000_0000 <= n < 0x8000_0000_0000_0000 && |t| + 2 <= 4096
    && t != []
    && if t[0] == 45 then Natural(-n, t[1..])
       else if t[0] == 43 then Natural(n, t[1..])
       else Natural(n, t)
  }

  /** A type byte, a text without LF, CR and LF, no longer than the limit. */
  ghost predicate Line(kind: Byte, t: Bytes, bs: Bytes) {
    bs == [kind] + t + [13, 10] && 10 !in t && |t| + 2 <= 4096
  }

  ghost predicate NumberLine(kind: Byte, n: int, bs: Bytes) {
    exists t :: Numeral(n, t) && bs == [kind] + t + [13, 10]
  }

  /** `bs` is a wire form of `v`. */
  ghost predicate Wire(v: Value, bs: Bytes)
    decreases v, 0
  {
    match v
    case Simple(s) => Line(43, s, bs)
    case Error(s) => Line(45, s, bs)
    case Integer(n) => NumberLine(58, n, bs)
    case NullBulk => NumberLine(36, -1, bs)
    case Bulk(s) =>
      |s| <= 1048576 && exists k :: 0 <= k <= |bs| && NumberLine(36, |s|, bs[..k]) && bs[k..] == s + [13, 10]
    case Array(items) =>
      |items| <= 1024 && exists k :: 0 <= k <= |bs| && NumberLine(42, |items|, bs[..k]) && WireAll(items, bs[k..])
  }

  /** `bs` is wire forms of `vs`, one after the other. */
  ghost predicate WireAll(vs: seq<Value>, bs: Bytes)
    decreases vs, 1
  {
    if vs == [] then bs == []
    else exists k :: 0 <= k <= |bs| && Wire(vs[0], bs[..k]) && WireAll(vs[1..], bs[k..])
  }

  // ---------- Numerals ----------

  lemma {:induction false} PositionalSnoc(ds: Bytes, d: Byte)
    ensures Positional(ds + [d]) == 10 * Positional(ds) + (d as int - 48)
    decreases |ds|
  {
    var more := ds + [d];
    if ds == [] {
      assert more[1..] == [];
    } else {
      assert more[1..] == ds[1..] + [d];
      PositionalSnoc(ds[1..], d);
      assert Pow10(|ds|) == 10 * Pow10(|ds| - 1);
    }
  }

  lemma {:induction false} MagnitudeIsPositional(ds: Bytes)
    requires AllDigits(ds)
    ensures Magnitude(ds) == Positional(ds)
  {
    if ds != [] {
      var n := |ds| - 1;
      MagnitudeIsPositional(ds[..n]);
      PositionalSnoc(ds[..n], ds[n]);
      assert ds[..n] + [ds[n]] == ds;
    }
  }

  /** The integer parser accepts exactly the numerals, with their value. */
  lemma ParsesExactly(t: Bytes, n: int)
    requires |t| + 2 <= 4096
    ensures ParseInt(t) == Some(n) <==> Numeral(n, t)
  {
    if t != [] {
      var ds := if t[0] == PLUS || t[0] == MINUS then t[1..] else t;
      if AllDigits(ds) {
        MagnitudeIsPositional(ds);
      }
    }
  }

  lemma NumeralIsLine(n: int, t: Bytes)
    requires Numeral(n, t)
    ensures LineOk(t)
  {
    forall i | 0 <= i < |t| ensures t[i] != LF {
      if i > 0 { assert t[i] == t[1..][i - 1]; }
    }
  }

  // ---------- Lines ----------

  /** What a successful reading of a line consumed. */
  lemma LineParts(bs: Bytes)
    requires ReadLine(bs).Ok?
    ensures
      var r := ReadLine(bs);
      bs == r.value + [13, 10] + r.rest && LineOk(r.value)
  {
    LineIsOk(bs);
    var k := FirstLf(bs);
    assert bs == bs[..k - 1] + [bs[k - 1], bs[k]] + bs[k + 1..];
  }

  lemma KindLine(kind: Byte, t: Bytes, rest: Bytes)
    requires LineOk(t)
    ensures
      var bs := [kind] + t + [13, 10] + rest;
      bs[0] == kind && ReadLine(bs[1..]) == Ok(t, rest)
  {
    LineValue(kind, t, rest);
  }

  lemma CutLine(kind: Byte, t: Bytes, rest: Bytes)
    ensures
      var bs := [kind] + (t + [13, 10] + rest);
      && bs[..|t| + 3] == [kind] + t + [13, 10]
      && bs[|t| + 3..] == rest
  {
  }

  // ---------- What is read was a wire form ----------

  lemma ReadNumberLine(bs: Bytes, kind: Byte)
    requires bs != [] && bs[0] == kind && ReadLine(bs[1..]).Ok? && ParseInt(ReadLine(bs[1..]).value).Some?
    ensures
      var r := ReadLine(bs[1..]);
      var k := |r.value| + 3;
      k <= |bs| && bs[k..] == r.rest && NumberLine(kind, ParseInt(r.value).value, bs[..k])
  {
    hide ReadLine, ParseInt, Numeral;
    var r := ReadLine(bs[1..]);
    LineParts(bs[1..]);
    assert bs == [kind] + bs[1..];
    CutLine(kind, r.value, r.rest);
    ParsesExactly(r.value, ParseInt(r.value).value);
  }

  /** The bytes between the start and what is left. */
  ghost function Taken(bs: Bytes, rest: Bytes): Bytes
    requires |rest| <= |bs|
  {
    bs[..|bs| - |rest|]
  }

  lemma BulkTaken(bs: Bytes)
    requires bs != [] && bs[0] == DOLLAR && ReadBulk(bs[1..]).Ok?
    ensures
      var r := ReadBulk(bs[1..]);
      bs == Taken(bs, r.rest) + r.rest && Wire(r.value, Taken(bs, r.rest))
  {
    hide ReadLine, ParseInt;
    ReadNumberLine(bs, 36);
    var line, r := ReadLine(bs[1..]), ReadBulk(bs[1..]);
    var k, n := |line.value| + 3, ParseInt(line.value).value;
    if n >= 0 {
      var w := Taken(bs, r.rest);
      assert line.rest == line.rest[..n] + line.rest[n..n + 2] + line.rest[n + 2..];
      assert |w| == k + n + 2;
      assert w[..k] == bs[..k];
      assert w[k..] == line.rest[..n + 2] == line.rest[..n] + [13, 10];
      assert r.rest == bs[k + n + 2..];
    }
  }

  lemma LineTaken(bs: Bytes, v: Value)
    requires bs != [] && ReadLine(bs[1..]).Ok?
    requires var t := ReadLine(bs[1..]).value;
      || (bs[0] == 43 && v == Simple(t)) || (bs[0] == 45 && v == Error(t))
      || (bs[0] == 58 && ParseInt(t).Some? && v == Integer(ParseInt(t).value))
    ensures var rest := ReadLine(bs[1..]).rest;
      |rest| <= |bs| && bs == Taken(bs, rest) + rest && Wire(v, Taken(bs, rest))
  {
    hide ReadLine, ParseInt;
    var r := ReadLine(bs[1..]);
    LineParts(bs[1..]);
    assert bs == [bs[0]] + bs[1..];
    CutLine(bs[0], r.value, r.rest);
    if bs[0] == 58 {
      ReadNumberLine(bs, 58);
    }
  }

  lemma {:induction false} ReadIsWire(bs: Bytes)
    requires ReadValue(bs).Ok?
    ensures
      var r := ReadValue(bs);
      bs == Taken(bs, r.rest) + r.rest && Wire(r.value, Taken(bs, r.rest))
    decreases |bs|, 0
  {
    hide ReadBulk, ReadLine, ParseInt, Wire;
    if bs[0] == DOLLAR {
      BulkTaken(bs);
    } else if bs[0] == STAR {
      var line := ReadLine(bs[1..]);
      ReadNumberLine(bs, 42);
      ReadManyIsWire(line.rest, ParseInt(line.value).value);
      ArrayTaken(bs, |line.value| + 3, ReadValue(bs).value.items, ReadValue(bs).rest);
    } else {
      LineTaken(bs, ReadValue(bs).value);
    }
  }

  lemma TakenCut(bs: Bytes, k: nat, rest: Bytes)
    requires k <= |bs| && |rest| <= |bs| - k && bs[k..] == Taken(bs[k..], rest) + rest
    ensures bs == Taken(bs, rest) + rest
    ensures Taken(bs, rest)[..k] == bs[..k] && Taken(bs, rest)[k..] == Taken(bs[k..], rest)
  {
    assert bs == bs[..k] + bs[k..];
  }

  lemma ArrayTaken(bs: Bytes, k: nat, items: seq<Value>, rest: Bytes)
    requires k <= |bs| && |rest| <= |bs| - k && bs[k..] == Taken(bs[k..], rest) + rest
    requires |items| <= 1024 && NumberLine(42, |items|, bs[..k]) && WireAll(items, Taken(bs[k..], rest))
    ensures bs == Taken(bs, rest) + rest && Wire(Array(items), Taken(bs, rest))
  {
    hide NumberLine, WireAll, Taken;
    TakenCut(bs, k, rest);
  }

  lemma {:induction false} ReadManyIsWire(bs: Bytes, n: nat)
    requires ReadMany(bs, n).Ok?
    ensures
      var r := ReadMany(bs, n);
      bs == Taken(bs, r.rest) + r.rest && WireAll(r.value, Taken(bs, r.rest))
    decreases |bs|, n
  {
    hide ReadValue, Wire;
    if n > 0 {
      var v, r := ReadValue(bs), ReadMany(bs, n);
      ReadIsWire(bs);
      ReadManyIsWire(v.rest, n - 1);
      var k := |bs| - |v.rest|;
      assert r.value[0] == v.value && r.value[1..] == ReadMany(v.rest, n - 1).value;
      assert v.rest == bs[k..];
      TakenCut(bs, k, r.rest);
    }
  }

  // ---------- A wire form is read ----------

  lemma NumberLineReads(kind: Byte, n: int, w: Bytes, rest: Bytes)
    requires NumberLine(kind, n, w)
    ensures
      var bs := w + rest;
      && bs[0] == kind && ReadLine(bs[1..]).Ok? && ReadLine(bs[1..]).rest == rest
      && ParseInt(ReadLine(bs[1..]).value) == Some(n)
  {
    hide ReadLine, ParseInt;
    var t :| Numeral(n, t) && w == [kind] + t + [13, 10];
    NumeralIsLine(n, t);
    KindLine(kind, t, rest);
    ParsesExactly(t, n);
  }

  lemma Cut(w: Bytes, k: nat, rest: Bytes)
    requires k <= |w|
    ensures w + rest == w[..k] + (w[k..] + rest)
  {
    assert w == w[..k] + w[k..];
    Regrouped(w[..k], w[k..], rest);
  }

  lemma BulkReads(s: Bytes, w: Bytes, rest: Bytes)
    requires Wire(Bulk(s), w)
    ensures ReadValue(w + rest) == Ok(Bulk(s), rest)
  {
    hide ReadLine, ParseInt;
    var k :| 0 <= k <= |w| && NumberLine(36, |s|, w[..k]) && w[k..] == s + [13, 10];
    NumberLineReads(36, |s|, w[..k], s + CRLF + rest);
    Cut(w, k, rest);
    BulkBody(s, rest);
  }

  lemma ScalarReads(v: Value, w: Bytes, rest: Bytes)
    requires Wire(v, w) && !v.Array? && !v.Bulk?
    ensures ReadValue(w + rest) == Ok(v, rest)
  {
    hide ReadLine, ParseInt;
    match v
    case Simple(s) => KindLine(43, s, rest);
    case Error(s) => KindLine(45, s, rest);
    case Integer(n) => NumberLineReads(58, n, w, rest);
    case NullBulk => NumberLineReads(36, -1, w, rest);
  }

  lemma ArrayReads(items: seq<Value>, w: Bytes, k: nat, rest: Bytes)
    requires |items| <= 1024 && k <= |w| && NumberLine(42, |items|, w[..k])
    requires ReadMany(w[k..] + rest, |items|) == Ok(items, rest)
    ensures ReadValue(w + rest) == Ok(Array(items), rest)
  {
    hide ReadLine, ParseInt, ReadMany;
    NumberLineReads(42, |items|, w[..k], w[k..] + rest);
    Cut(w, k, rest);
  }

  lemma {:induction false} WireReads(v: Value, w: Bytes, rest: Bytes)
    requires Wire(v, w)
    ensures ReadValue(w + rest) == Ok(v, rest)
    decreases v, 0
  {
    hide ReadValue, NumberLine;
    match v
    case Bulk(s) => BulkReads(s, w, rest);
    case Array(items) =>
      var k :| 0 <= k <= |w| && NumberLine(42, |items|, w[..k]) && WireAll(items, w[k..]);
      WireAllReads(items, w[k..], rest);
      ArrayReads(items, w, k, rest);
    case _ => ScalarReads(v, w, rest);
  }

  lemma {:induction false} WireAllReads(vs: seq<Value>, w: Bytes, rest: Bytes)
    requires WireAll(vs, w)
    ensures ReadMany(w + rest, |vs|) == Ok(vs, rest)
    decreases vs, 1
  {
    if vs == [] {
      assert w + rest == rest;
    } else {
      hide ReadValue, ReadMany, Wire;
      var k :| 0 <= k <= |w| && Wire(vs[0], w[..k]) && WireAll(vs[1..], w[k..]);
      WireReads(vs[0], w[..k], w[k..] + rest);
      WireAllReads(vs[1..], w[k..], rest);
      Cut(w, k, rest);
      ReadManyHead(w + rest, vs, w[k..] + rest, rest);
    }
  }

  // ---------- Main results ----------

  /**
   The reader is exact: it reads `v` and leaves `rest` if and only if the input is
   a wire form of `v` followed by `rest`, whatever the bytes.
   */
  lemma ReadExactly(bs: Bytes, v: Value, rest: Bytes)
    ensures ReadValue(bs) == Ok(v, rest) <==> exists w :: Wire(v, w) && bs == w + rest
  {
    hide Wire;
    if ReadValue(bs) == Ok(v, rest) {
      ReadIsWire(bs);
    }
    if w :| Wire(v, w) && bs == w + rest {
      WireReads(v, w, rest);
    }
  }

  /** No two values share a wire form, and no wire form starts another one. */
  lemma WireIsUnambiguous(v: Value, w: Bytes, v': Value, w': Bytes)
    requires Wire(v, w) && Wire(v', w') && w <= w'
    ensures v == v' && w == w'
  {
    hide Wire;
    assert w' == w + w'[|w|..] && w' + [] == w';
    WireReads(v, w, w'[|w|..]);
    WireReads(v', w', []);
  }

  /** What the writer puts out is a wire form. */
  lemma PrintIsWire(v: Value)
    requires Carried(v)
    ensures Wire(v, Print(v))
  {
    hide Wire;
    RoundTrip(v, []);
    assert Print(v) + [] == Print(v);
    ReadIsWire(Print(v));
    assert Taken(Print(v), []) == Print(v);
  }

  /** Printed numbers have a sign only when negative, and no leading zero. */
  lemma DecimalCanonical(n: int)
    ensures n < 0 ==> Decimal(n)[0] == 45 && Decimal(n)[1..] == Digits(-n) && Digits(-n)[0] != 48
    ensures n == 0 ==> Decimal(n) == [48]
    ensures n > 0 ==> 49 <= Decimal(n)[0] <= 57
  {
    DigitsCanonical(if n < 0 then -n else n);
    assert AllDigits(Digits(if n < 0 then -n else n));
  }

  lemma {:induction false} DigitsCanonical(n: nat)
    ensures n > 0 ==> Digits(n)[0] != 48
    ensures n == 0 ==> Digits(n) == [48]
  {
    if n >= 10 {
      DigitsCanonical(n / 10);
    }
  }

  // ---------- Why a reading fails ----------

  /** The first line of `x` ends after the limit. */
  ghost predicate LongLine(x: Bytes) {
    10 in x && forall i :: 0 <= i < |x| && i < 4096 ==> x[i] != 10
  }

  /** A numeral over the limit stands where a length belongs. */
  ghost predicate LengthOver(kind: Byte, limit: int, bs: Bytes) {
    exists k, n :: 0 <= k <= |bs| && n > limit && NumberLine(kind, n, bs[..k])
  }

  /** A limit is exceeded at the head of `bs`: of a line, a bulk string or an array. */
  ghost predicate TooBig(bs: Bytes) {
    || (bs != [] && bs[0] in {43, 45, 58, 36, 42} && LongLine(bs[1..]))
    || LengthOver(36, 1048576, bs) || LengthOver(42, 1024, bs)
  }

  lemma LineRefused(x: Bytes)
    requires ReadLine(x).Fail?
    ensures ReadLine(x).why == if LongLine(x) then TooLarge else Malformed
  {
    var k := FirstLf(x);
    if k < |x| {
      assert x[k] in x;
    }
  }

  lemma LineNotLong(x: Bytes)
    requires ReadLine(x).Ok?
    ensures !LongLine(x)
  {
    assert x[FirstLf(x)] == 10;
  }

  /** The length at the head of `bs` is the one the reader parses. */
  lemma LengthIsParsed(kind: Byte, limit: int, bs: Bytes)
    requires bs != [] && bs[0] == kind
    ensures LengthOver(kind, limit, bs) <==>
      && ReadLine(bs[1..]).Ok? && ParseInt(ReadLine(bs[1..]).value).Some?
      && ParseInt(ReadLine(bs[1..]).value).value > limit
  {
    hide ReadLine, ParseInt, NumberLine;
    if ReadLine(bs[1..]).Ok? && ParseInt(ReadLine(bs[1..]).value).Some? {
      ReadNumberLine(bs, kind);
    }
    if k, n :| 0 <= k <= |bs| && n > limit && NumberLine(kind, n, bs[..k]) {
      NumberLineReads(kind, n, bs[..k], bs[k..]);
      assert bs[..k] + bs[k..] == bs;
    }
  }

  lemma LengthKind(kind: Byte, limit: int, bs: Bytes)
    requires LengthOver(kind, limit, bs)
    ensures bs != [] && bs[0] == kind
  {
    var k, n :| 0 <= k <= |bs| && n > limit && NumberLine(kind, n, bs[..k]);
    assert bs[0] == bs[..k][0];
  }

  /** Why reading anything but an array fails: no input, something over a limit, or bytes outside the grammar. */
  lemma Refused(bs: Bytes)
    requires ReadValue(bs).Fail? && (bs == [] || bs[0] != 42)
    ensures ReadValue(bs).why == if bs == [] then Eof else if TooBig(bs) then TooLarge else Malformed
  {
    hide ReadLine, ParseInt, LengthOver, LongLine;
    if bs != [] {
      if LengthOver(36, 1048576, bs) { LengthKind(36, 1048576, bs); }
      if LengthOver(42, 1024, bs) { LengthKind(42, 1024, bs); }
      if bs[0] == 36 { LengthIsParsed(36, 1048576, bs); }
      if ReadLine(bs[1..]).Fail? {
        LineRefused(bs[1..]);
      } else {
        LineNotLong(bs[1..]);
      }
    }
  }

  /** Why reading an array fails: its length line is refused, or it is the failure of its first bad element. */
  lemma ArrayRefused(bs: Bytes)
    requires bs != [] && bs[0] == 42 && ReadValue(bs).Fail?
    ensures
      var r, line := ReadValue(bs), ReadLine(bs[1..]);
      if TooBig(bs) then r.why == TooLarge
      else if line.Fail? || ParseInt(line.value).None? || ParseInt(line.value).value < 0 then r.why == Malformed
      else exists k: nat :: k < ParseInt(line.value).value && FirstBad(line.rest, k, r.why, r.rest)
  {
    hide ReadLine, ParseInt, LengthOver, LongLine, ReadMany;
    if LengthOver(36, 1048576, bs) { LengthKind(36, 1048576, bs); }
    LengthIsParsed(42, 1024, bs);
    var line := ReadLine(bs[1..]);
    if line.Fail? {
      LineRefused(bs[1..]);
    } else {
      LineNotLong(bs[1..]);
      var n := ParseInt(line.value);
      if n.Some? && 0 <= n.value <= 1024 {
        var k := ManyRefused(line.rest, n.value);
      }
    }
  }

  /** After `k` readable values comes one that fails. */
  ghost predicate FirstBad(bs: Bytes, k: nat, why: Failure, rest: Bytes) {
    ReadMany(bs, k).Ok? && ReadValue(ReadMany(bs, k).rest) == Fail(why, rest)
  }

  lemma {:induction false} ManyRefused(bs: Bytes, n: nat) returns (k: nat)
    requires ReadMany(bs, n).Fail?
    ensures k < n && FirstBad(bs, k, ReadMany(bs, n).why, ReadMany(bs, n).rest)
    decreases |bs|, n
  {
    hide ReadValue;
    if ReadValue(bs).Fail? {
      k := 0;
    } else {
      k := ManyRefused(ReadValue(bs).rest, n - 1);
      k := k + 1;
    }
  }
}
