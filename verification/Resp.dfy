/**
 RESP2 values, the reader as a function of the remaining input, and the printed
 form. A reading yields a value or a failure, and the bytes it did not consume.
 */
module Resp {
  import opened Types

  type Bytes = seq<Byte>

  const CR: Byte := 13
  const LF: Byte := 10
  const PLUS: Byte := 43
  const MINUS: Byte := 45
  const COLON: Byte := 58
  const DOLLAR: Byte := 36
  const STAR: Byte := 42
  const CRLF: Bytes := [CR, LF]

  const MAX_LINE := 4096
  const MAX_BULK := 1024 * 1024
  const MAX_ARRAY := 1024
  const MAX_INT64 := 9223372036854775807

  datatype Value =
    | Simple(s: Bytes)
    | Error(s: Bytes)
    | Integer(n: int)
    | Bulk(s: Bytes)
    | NullBulk
    | Array(items: seq<Value>)

  datatype Failure = Eof | Malformed | TooLarge

  datatype Read<T> = Ok(value: T, rest: Bytes) | Fail(why: Failure, rest: Bytes)

  // ---------- Lines ----------

  /** Position of the first LF, or the length if there is none. */
  function FirstLf(bs: Bytes): (k: nat)
    ensures k <= |bs|
    ensures forall i :: 0 <= i < k ==> bs[i] != LF
    ensures k < |bs| ==> bs[k] == LF
  {
    if bs == [] || bs[0] == LF then 0 else 1 + FirstLf(bs[1..])
  }

  function ReadLine(bs: Bytes): (r: Read<Bytes>)
    ensures r.Ok? ==> |r.rest| < |bs|
  {
    var k := FirstLf(bs);
    if k == |bs| then Fail(Malformed, [])
    else if k + 1 > MAX_LINE then Fail(TooLarge, bs[k + 1..])
    else if k == 0 || bs[k - 1] != CR then Fail(Malformed, bs[k + 1..])
    else Ok(bs[..k - 1], bs[k + 1..])
  }

  ghost predicate LineOk(s: Bytes) { LF !in s && |s| + 2 <= MAX_LINE }

  lemma FirstLfAt(bs: Bytes, k: nat)
    requires k < |bs| && bs[k] == LF && forall i :: 0 <= i < k ==> bs[i] != LF
    ensures FirstLf(bs) == k
  {
  }

  lemma LineRound(s: Bytes, rest: Bytes)
    requires LineOk(s)
    ensures ReadLine(s + CRLF + rest) == Ok(s, rest)
  {
    var bs := s + CRLF + rest;
    assert bs[|s|] == CR && bs[|s| + 1] == LF;
    forall i | 0 <= i < |s| + 1 ensures bs[i] != LF {
      if i < |s| { assert bs[i] == s[i]; }
    }
    FirstLfAt(bs, |s| + 1);
    assert bs[..|s|] == s;
    assert bs[|s| + 2..] == rest;
  }

  lemma LineExtends(bs: Bytes, tail: Bytes)
    requires ReadLine(bs).Ok?
    ensures ReadLine(bs + tail) == Ok(ReadLine(bs).value, ReadLine(bs).rest + tail)
  {
    var k := FirstLf(bs);
    FirstLfAt(bs + tail, k);
    assert (bs + tail)[..k - 1] == bs[..k - 1];
    assert (bs + tail)[k + 1..] == bs[k + 1..] + tail;
  }

  lemma LineIsOk(bs: Bytes)
    requires ReadLine(bs).Ok?
    ensures LineOk(ReadLine(bs).value)
  {
    var k := FirstLf(bs);
    assert forall i :: 0 <= i < k - 1 ==> bs[..k - 1][i] == bs[i];
  }

  // ---------- Numbers ----------

  predicate IsDigit(b: Byte) { 48 <= b <= 57 }

  predicate AllDigits(ds: Bytes) { forall i :: 0 <= i < |ds| ==> IsDigit(ds[i]) }

  function Magnitude(ds: Bytes): nat
    requires AllDigits(ds)
  {
    if ds == [] then 0
    else
      var last: int := ds[|ds| - 1];
      10 * Magnitude(ds[..|ds| - 1]) + (last - 48)
  }

  /** Signed decimal: an optional sign, at least one digit, within 64 bits. */
  function ParseInt(line: Bytes): Option<int> {
    var signed := line != [] && (line[0] == PLUS || line[0] == MINUS);
    var ds := if signed then line[1..] else line;
    if ds == [] || !AllDigits(ds) then None
    else
      var n: int := Magnitude(ds);
      if signed && line[0] == MINUS then (if n <= MAX_INT64 + 1 then Some(-n) else None)
      else if n <= MAX_INT64 then Some(n) else None
  }

  function Digits(n: nat): (ds: Bytes)
    ensures ds != [] && AllDigits(ds)
  {
    if n < 10 then [48 + n] else Digits(n / 10) + [48 + n % 10]
  }

  function Decimal(n: int): Bytes {
    if n < 0 then [MINUS] + Digits(-n) else Digits(n)
  }

  predicate Int64(n: int) { -MAX_INT64 - 1 <= n <= MAX_INT64 }

  lemma {:induction false} DigitsMagnitude(n: nat)
    ensures Magnitude(Digits(n)) == n
  {
    if n >= 10 {
      var ds := Digits(n);
      DigitsMagnitude(n / 10);
      assert ds[..|ds| - 1] == Digits(n / 10);
    }
  }

  lemma DecimalRound(n: int)
    requires Int64(n)
    ensures ParseInt(Decimal(n)) == Some(n)
  {
    if n < 0 {
      DigitsMagnitude(-n);
      assert Decimal(n)[1..] == Digits(-n);
    } else {
      DigitsMagnitude(n);
      assert IsDigit(Digits(n)[0]);
    }
  }

  function Pow10(k: nat): nat { if k == 0 then 1 else 10 * Pow10(k - 1) }

  lemma {:induction false} DigitsShort(n: nat, k: nat)
    requires k >= 1 && n < Pow10(k)
    ensures |Digits(n)| <= k
    decreases k
  {
    if n >= 10 {
      DigitsShort(n / 10, k - 1);
    }
  }

  lemma DecimalLine(n: int)
    requires Int64(n)
    ensures LineOk(Decimal(n))
  {
    var m: nat := if n < 0 then -n else n;
    assert Pow10(5) == 100000;
    assert Pow10(10) == 10000000000;
    assert Pow10(15) == 1000000000000000;
    assert Pow10(20) == 100000000000000000000;
    DigitsShort(m, 20);
    assert AllDigits(Digits(m));
  }

  lemma ParseIntRange(line: Bytes)
    requires ParseInt(line).Some?
    ensures Int64(ParseInt(line).value)
  {
  }

  // ---------- Values ----------

  function ReadBulk(bs: Bytes): (r: Read<Value>)
    ensures r.Ok? ==> |r.rest| < |bs|
  {
    match ReadLine(bs)
    case Fail(why, left) => Fail(why, left)
    case Ok(line, rest) =>
      match ParseInt(line)
      case None => Fail(Malformed, rest)
      case Some(n) =>
        if n < -1 then Fail(Malformed, rest)
        else if n == -1 then Ok(NullBulk, rest)
        else if n > MAX_BULK then Fail(TooLarge, rest)
        else if |rest| < n + 2 then Fail(Malformed, [])
        else if rest[n..n + 2] != CRLF then Fail(Malformed, rest[n + 2..])
        else Ok(Bulk(rest[..n]), rest[n + 2..])
  }

  function ReadValue(bs: Bytes): (r: Read<Value>)
    ensures r.Ok? ==> |r.rest| < |bs|
    decreases |bs|, 0
  {
    if bs == [] then Fail(Eof, [])
    else if bs[0] == PLUS then ReadLineAs(bs[1..], (s: Bytes) => Some(Simple(s)))
    else if bs[0] == MINUS then ReadLineAs(bs[1..], (s: Bytes) => Some(Error(s)))
    else if bs[0] == COLON then
      ReadLineAs(bs[1..], (s: Bytes) => if ParseInt(s).Some? then Some(Integer(ParseInt(s).value)) else None)
    else if bs[0] == DOLLAR then ReadBulk(bs[1..])
    else if bs[0] == STAR then ReadArray(bs[1..])
    else Fail(Malformed, bs[1..])
  }

  function ReadArray(bs: Bytes): (r: Read<Value>)
    ensures r.Ok? ==> |r.rest| < |bs|
    decreases |bs|, 1
  {
    match ReadLine(bs)
    case Fail(why, left) => Fail(why, left)
    case Ok(line, rest) =>
      match ParseInt(line)
      case None => Fail(Malformed, rest)
      case Some(n) =>
        if n < 0 then Fail(Malformed, rest)
        else if n > MAX_ARRAY then Fail(TooLarge, rest)
        else
          match ReadMany(rest, n)
          case Fail(why, left) => Fail(why, left)
          case Ok(items, rest') => Ok(Array(items), rest')
  }

  /** A value made from one line. */
  function ReadLineAs(bs: Bytes, make: Bytes -> Option<Value>): (r: Read<Value>)
    ensures r.Ok? ==> |r.rest| < |bs|
  {
    match ReadLine(bs)
    case Fail(why, left) => Fail(why, left)
    case Ok(line, rest) => if make(line).Some? then Ok(make(line).value, rest) else Fail(Malformed, rest)
  }

  function ReadMany(bs: Bytes, n: nat): (r: Read<seq<Value>>)
    ensures r.Ok? ==> |r.rest| <= |bs| && |r.value| == n
    decreases |bs|, n
  {
    if n == 0 then Ok([], bs) else
    match ReadValue(bs)
    case Fail(why, left) => Fail(why, left)
    case Ok(v, rest) =>
      match ReadMany(rest, n - 1)
      case Fail(why, left) => Fail(why, left)
      case Ok(vs, rest') => Ok([v] + vs, rest')
  }

  function Print(v: Value): Bytes {
    match v
    case Simple(s) => [PLUS] + s + CRLF
    case Error(s) => [MINUS] + s + CRLF
    case Integer(n) => [COLON] + Decimal(n) + CRLF
    case NullBulk => [DOLLAR] + Decimal(-1) + CRLF
    case Bulk(s) => [DOLLAR] + Decimal(|s|) + CRLF + s + CRLF
    case Array(items) => [STAR] + Decimal(|items|) + CRLF + PrintAll(items)
  }

  function PrintAll(vs: seq<Value>): Bytes {
    if vs == [] then [] else Print(vs[0]) + PrintAll(vs[1..])
  }

  /** The values the wire format can carry within the reader's limits. */
  ghost predicate Carried(v: Value) {
    match v
    case Simple(s) => LineOk(s)
    case Error(s) => LineOk(s)
    case Integer(n) => Int64(n)
    case Bulk(s) => |s| <= MAX_BULK
    case NullBulk => true
    case Array(items) => |items| <= MAX_ARRAY && forall i :: 0 <= i < |items| ==> Carried(items[i])
  }

  // ---------- Writing, then reading ----------

  lemma LineValue(prefix: Byte, s: Bytes, rest: Bytes)
    requires LineOk(s)
    ensures
      var bs := [prefix] + s + CRLF + rest;
      bs[0] == prefix && ReadLine(bs[1..]) == Ok(s, rest)
  {
    LineRound(s, rest);
    assert ([prefix] + s + CRLF + rest)[1..] == s + CRLF + rest;
  }

  lemma Regroup(prefix: Byte, d: Bytes, x: Bytes, y: Bytes)
    ensures [prefix] + d + CRLF + x + y == [prefix] + d + CRLF + (x + y)
  {
  }

  lemma BulkBody(s: Bytes, rest: Bytes)
    ensures
      var after := s + CRLF + rest;
      && |after| >= |s| + 2 && after[|s|..|s| + 2] == CRLF
      && after[..|s|] == s && after[|s| + 2..] == rest
  {
  }

  lemma BulkRead(bs: Bytes, s: Bytes, rest: Bytes)
    requires |s| <= MAX_BULK && ReadLine(bs) == Ok(Decimal(|s|), s + CRLF + rest)
    ensures ReadBulk(bs) == Ok(Bulk(s), rest)
  {
    DecimalRound(|s|);
    BulkBody(s, rest);
  }

  lemma BulkRound(s: Bytes, rest: Bytes)
    requires |s| <= MAX_BULK
    ensures ReadValue(Print(Bulk(s)) + rest) == Ok(Bulk(s), rest)
  {
    hide ReadBulk, ReadLine, Decimal;
    var bs := [DOLLAR] + Decimal(|s|) + CRLF + (s + CRLF + rest);
    DecimalLine(|s|);
    LineValue(DOLLAR, Decimal(|s|), s + CRLF + rest);
    BulkRead(bs[1..], s, rest);
    Regroup(DOLLAR, Decimal(|s|), s + CRLF, rest);
    Regroup(DOLLAR, Decimal(|s|), s, CRLF);
  }

  lemma ArrayRound(items: seq<Value>, rest: Bytes)
    requires |items| <= MAX_ARRAY && ReadMany(PrintAll(items) + rest, |items|) == Ok(items, rest)
    ensures ReadValue(Print(Array(items)) + rest) == Ok(Array(items), rest)
  {
    hide ReadLine, Decimal, ReadMany, PrintAll;
    DecimalLine(|items|);
    DecimalRound(|items|);
    LineValue(STAR, Decimal(|items|), PrintAll(items) + rest);
    Regroup(STAR, Decimal(|items|), PrintAll(items), rest);
  }

  lemma ScalarRound(v: Value, rest: Bytes)
    requires Carried(v) && !v.Array? && !v.Bulk?
    ensures ReadValue(Print(v) + rest) == Ok(v, rest)
  {
    match v
    case Simple(s) =>
      LineValue(PLUS, s, rest);
    case Error(s) =>
      LineValue(MINUS, s, rest);
    case Integer(n) =>
      DecimalLine(n);
      DecimalRound(n);
      LineValue(COLON, Decimal(n), rest);
    case NullBulk =>
      DecimalLine(-1);
      DecimalRound(-1);
      LineValue(DOLLAR, Decimal(-1), rest);
  }

  lemma {:induction false} RoundTrip(v: Value, rest: Bytes)
    requires Carried(v)
    ensures ReadValue(Print(v) + rest) == Ok(v, rest)
    decreases v, 0
  {
    match v
    case Array(items) =>
      RoundTripAll(items, rest);
      ArrayRound(items, rest);
    case Bulk(s) => BulkRound(s, rest);
    case _ => ScalarRound(v, rest);
  }

  lemma Regrouped(a: Bytes, b: Bytes, c: Bytes)
    ensures a + b + c == a + (b + c)
  {
  }

  lemma PrintAllHead(vs: seq<Value>, rest: Bytes)
    requires vs != []
    ensures PrintAll(vs) + rest == Print(vs[0]) + (PrintAll(vs[1..]) + rest)
  {
    hide Print;
    Regrouped(Print(vs[0]), PrintAll(vs[1..]), rest);
  }

  lemma ReadManyHead(bs: Bytes, vs: seq<Value>, next: Bytes, rest: Bytes)
    requires vs != [] && ReadValue(bs) == Ok(vs[0], next) && ReadMany(next, |vs| - 1) == Ok(vs[1..], rest)
    ensures ReadMany(bs, |vs|) == Ok(vs, rest)
  {
    hide ReadValue;
    assert [vs[0]] + vs[1..] == vs;
  }

  lemma {:induction false} RoundTripAll(vs: seq<Value>, rest: Bytes)
    requires forall i :: 0 <= i < |vs| ==> Carried(vs[i])
    ensures ReadMany(PrintAll(vs) + rest, |vs|) == Ok(vs, rest)
    decreases vs, 1
  {
    if vs == [] {
      assert PrintAll(vs) + rest == rest;
    } else {
      hide ReadValue, ReadMany, Print, PrintAll, Carried;
      RoundTrip(vs[0], PrintAll(vs[1..]) + rest);
      RoundTripAll(vs[1..], rest);
      PrintAllHead(vs, rest);
      ReadManyHead(PrintAll(vs) + rest, vs, PrintAll(vs[1..]) + rest, rest);
    }
  }

  // ---------- What a successful reading says ----------

  lemma BulkExtends(bs: Bytes, tail: Bytes)
    requires ReadBulk(bs).Ok?
    ensures ReadBulk(bs + tail) == Ok(ReadBulk(bs).value, ReadBulk(bs).rest + tail)
  {
    hide ReadLine, ParseInt;
    LineExtends(bs, tail);
    var n := ParseInt(ReadLine(bs).value).value;
    if n >= 0 {
      BodyExtends(ReadLine(bs).rest, n, tail);
    }
  }

  lemma BodyExtends(rest: Bytes, n: nat, tail: Bytes)
    requires n + 2 <= |rest|
    ensures (rest + tail)[n..n + 2] == rest[n..n + 2]
    ensures (rest + tail)[..n] == rest[..n] && (rest + tail)[n + 2..] == rest[n + 2..] + tail
  {
  }

  /** Bytes after a value do not change how it is read. */
  lemma {:induction false} Extends(bs: Bytes, tail: Bytes)
    requires ReadValue(bs).Ok?
    ensures ReadValue(bs + tail) == Ok(ReadValue(bs).value, ReadValue(bs).rest + tail)
    decreases |bs|, 0
  {
    hide ReadBulk, ReadLine, ParseInt;
    assert (bs + tail)[0] == bs[0] && (bs + tail)[1..] == bs[1..] + tail;
    if bs[0] == DOLLAR {
      BulkExtends(bs[1..], tail);
    } else {
      LineExtends(bs[1..], tail);
      if bs[0] == STAR {
        ExtendsMany(ReadLine(bs[1..]).rest, ParseInt(ReadLine(bs[1..]).value).value, tail);
      }
    }
  }

  lemma {:induction false} ExtendsMany(bs: Bytes, n: nat, tail: Bytes)
    requires ReadMany(bs, n).Ok?
    ensures ReadMany(bs + tail, n) == Ok(ReadMany(bs, n).value, ReadMany(bs, n).rest + tail)
    decreases |bs|, n
  {
    hide ReadValue;
    if n > 0 {
      Extends(bs, tail);
      ExtendsMany(ReadValue(bs).rest, n - 1, tail);
    }
  }

  /** Whatever the reader accepts, non-canonical numerals included, is a value the format carries. */
  lemma {:induction false} ReadIsCarried(bs: Bytes)
    requires ReadValue(bs).Ok?
    ensures Carried(ReadValue(bs).value)
    decreases |bs|, 0
  {
    hide ParseInt;
    if bs[0] == DOLLAR {
    } else {
      LineIsOk(bs[1..]);
      if bs[0] == COLON {
        ParseIntRange(ReadLine(bs[1..]).value);
      } else if bs[0] == STAR {
        ManyAreCarried(ReadLine(bs[1..]).rest, ParseInt(ReadLine(bs[1..]).value).value);
      }
    }
  }

  lemma {:induction false} ManyAreCarried(bs: Bytes, n: nat)
    requires ReadMany(bs, n).Ok?
    ensures forall i :: 0 <= i < n ==> Carried(ReadMany(bs, n).value[i])
    decreases |bs|, n
  {
    hide ReadValue, Carried;
    if n > 0 {
      ReadIsCarried(bs);
      ManyAreCarried(ReadValue(bs).rest, n - 1);
    }
  }

  // ---------- Main results ----------

  /** Reader output is always printable: print what was read, read it again in any stream. */
  lemma ReadPrintRead(bs: Bytes, rest: Bytes)
    requires ReadValue(bs).Ok?
    ensures ReadValue(Print(ReadValue(bs).value) + rest) == Ok(ReadValue(bs).value, rest)
  {
    ReadIsCarried(bs);
    RoundTrip(ReadValue(bs).value, rest);
  }

  /** A value survives the wire in every stream exactly when it is within the format's limits. */
  lemma RoundTripExactly(v: Value)
    ensures (forall rest :: ReadValue(Print(v) + rest) == Ok(v, rest)) <==> Carried(v)
  {
    if Carried(v) {
      forall rest ensures ReadValue(Print(v) + rest) == Ok(v, rest) {
        RoundTrip(v, rest);
      }
    } else if forall rest :: ReadValue(Print(v) + rest) == Ok(v, rest) {
      assert ReadValue(Print(v) + []) == Ok(v, []);
      ReadIsCarried(Print(v) + []);
    }
  }

  /** No strict prefix of a printed value reads as a value. */
  lemma PrefixFails(v: Value, k: nat)
    requires Carried(v) && k < |Print(v)|
    ensures ReadValue(Print(v)[..k]).Fail?
  {
    var p := Print(v);
    RoundTrip(v, []);
    assert p + [] == p && p == p[..k] + p[k..];
    if ReadValue(p[..k]).Ok? {
      Extends(p[..k], p[k..]);
    }
  }
}
