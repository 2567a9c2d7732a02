/** The RESP2 reader and writer as objects on a byte stream, against the functions of `Resp`. */
module RespStream {
  import opened Resp

  ghost function Prepend(vs: seq<Value>, r: Read<seq<Value>>): Read<seq<Value>> {
    match r
    case Fail(why, left) => Fail(why, left)
    case Ok(ws, rest) => Ok(vs + ws, rest)
  }

  lemma PrependNone(r: Read<seq<Value>>)
    ensures Prepend([], r) == r
  {
    if r.Ok? {
      assert [] + r.value == r.value;
    }
  }

  lemma PrependEnd(vs: seq<Value>, bs: Bytes)
    ensures Prepend(vs, ReadMany(bs, 0)) == Ok(vs, bs)
  {
    assert vs + [] == vs;
  }

  /** One turn of the array loop. */
  lemma PrependStep(vs: seq<Value>, bs: Bytes, n: nat)
    requires n > 0
    ensures ReadValue(bs).Fail? ==> Prepend(vs, ReadMany(bs, n)) == Fail(ReadValue(bs).why, ReadValue(bs).rest)
    ensures ReadValue(bs).Ok? ==>
      Prepend(vs + [ReadValue(bs).value], ReadMany(ReadValue(bs).rest, n - 1)) == Prepend(vs, ReadMany(bs, n))
  {
    hide ReadValue;
    if ReadValue(bs).Ok? && ReadMany(ReadValue(bs).rest, n - 1).Ok? {
      var v, ws := ReadValue(bs).value, ReadMany(ReadValue(bs).rest, n - 1).value;
      assert vs + ([v] + ws) == vs + [v] + ws;
    }
  }

  lemma {:induction false} PrintAllSnoc(vs: seq<Value>, v: Value)
    ensures PrintAll(vs + [v]) == PrintAll(vs) + Print(v)
    decreases |vs|
  {
    hide Print;
    if vs == [] {
      assert vs + [v] == [v] && PrintAll([v][1..]) == [];
    } else {
      PrintAllSnoc(vs[1..], v);
      assert (vs + [v])[0] == vs[0] && (vs + [v])[1..] == vs[1..] + [v];
      Regrouped(Print(vs[0]), PrintAll(vs[1..]), Print(v));
    }
  }

  class Reader {
    var input: Bytes

    constructor (input: Bytes)
      ensures this.input == input
    {
      this.input := input;
    }

    method ReadLine() returns (r: Read<Bytes>)
      modifies this
      ensures r == Resp.ReadLine(old(input)) && input == r.rest
    {
      var k := 0;
      while k < |input| && input[k] != LF
        invariant 0 <= k <= |input| && forall i :: 0 <= i < k ==> input[i] != LF
      {
        k := k + 1;
      }
      if k == |input| {
        assert FirstLf(input) == k;
        input := [];
        return Fail(Malformed, input);
      }
      FirstLfAt(input, k);
      var line, rest := input[..k + 1], input[k + 1..];
      input := rest;
      if |line| > MAX_LINE {
        return Fail(TooLarge, rest);
      }
      assert |line| >= 2 ==> line[|line| - 2..] == [old(input)[k - 1], LF];
      if |line| < 2 || line[|line| - 2..] != CRLF {
        return Fail(Malformed, rest);
      }
      assert line[..|line| - 2] == old(input)[..k - 1] && line[|line| - 2] == old(input)[k - 1];
      return Ok(line[..|line| - 2], rest);
    }

    method ReadBulkString() returns (r: Read<Value>)
      modifies this
      ensures r == ReadBulk(old(input)) && input == r.rest
    {
      var line := ReadLine();
      if line.Fail? {
        return Fail(line.why, input);
      }
      var length := ParseInt(line.value);
      if length.None? || length.value < -1 {
        return Fail(Malformed, input);
      }
      var n := length.value;
      if n == -1 {
        return Ok(NullBulk, input);
      }
      if n > MAX_BULK {
        return Fail(TooLarge, input);
      }
      if |input| < n + 2 {
        input := [];
        return Fail(Malformed, input);
      }
      var buf := input[..n + 2];
      input := input[n + 2..];
      assert buf[n..] == line.rest[n..n + 2];
      if buf[n..] != CRLF {
        return Fail(Malformed, input);
      }
      assert buf[..n] == line.rest[..n];
      return Ok(Bulk(buf[..n]), input);
    }

    method ReadArray() returns (r: Read<Value>)
      modifies this
      ensures r == Resp.ReadArray(old(input)) && input == r.rest
      decreases |input|, 0
    {
      hide ReadMany, Resp.ReadValue, Resp.ReadLine, ParseInt, Prepend;
      var line := ReadLine();
      if line.Fail? {
        return Fail(line.why, input);
      }
      var length := ParseInt(line.value);
      if length.None? || length.value < 0 {
        return Fail(Malformed, input);
      }
      if length.value > MAX_ARRAY {
        return Fail(TooLarge, input);
      }
      var n, values: seq<Value> := length.value, [];
      PrependNone(ReadMany(input, n));
      for i := 0 to n
        invariant |input| < |old(input)|
        invariant Prepend(values, ReadMany(input, n - i)) == ReadMany(line.rest, n)
      {
        PrependStep(values, input, n - i);
        var v := ReadValue();
        if v.Fail? {
          return Fail(v.why, input);
        }
        values := values + [v.value];
      }
      PrependEnd(values, input);
      return Ok(Array(values), input);
    }

    method ReadValue() returns (r: Read<Value>)
      modifies this
      ensures r == Resp.ReadValue(old(input)) && input == r.rest
      decreases |input|, 1
    {
      if |input| == 0 {
        return Fail(Eof, input);
      }
      var prefix := input[0];
      input := input[1..];
      if prefix == DOLLAR {
        r := ReadBulkString();
        return;
      }
      if prefix == STAR {
        r := ReadArray();
        return;
      }
      if prefix != PLUS && prefix != MINUS && prefix != COLON {
        return Fail(Malformed, input);
      }
      var line := ReadLine();
      if line.Fail? {
        return Fail(line.why, input);
      }
      if prefix == PLUS {
        return Ok(Simple(line.value), input);
      }
      if prefix == MINUS {
        return Ok(Error(line.value), input);
      }
      var n := ParseInt(line.value);
      if n.None? {
        return Fail(Malformed, input);
      }
      return Ok(Integer(n.value), input);
    }
  }

  class Writer {
    var out: Bytes

    constructor ()
      ensures out == []
    {
      out := [];
    }

    method WriteValue(v: Value)
      modifies this
      ensures out == old(out) + Print(v)
      decreases v
    {
      match v
      case Simple(s) => out := out + ([PLUS] + s + CRLF);
      case Error(s) => out := out + ([MINUS] + s + CRLF);
      case Integer(n) => out := out + ([COLON] + Decimal(n) + CRLF);
      case NullBulk => out := out + ([DOLLAR] + Decimal(-1) + CRLF);
      case Bulk(s) => out := out + ([DOLLAR] + Decimal(|s|) + CRLF + s + CRLF);
      case Array(items) =>
        hide Decimal;
        var head := [STAR] + Decimal(|items|) + CRLF;
        ghost var start := out + head;
        out := out + head;
        for i := 0 to |items|
          invariant out == start + PrintAll(items[..i])
        {
          PrintAllSnoc(items[..i], items[i]);
          assert items[..i + 1] == items[..i] + [items[i]];
          WriteValue(items[i]);
          Regrouped(start, PrintAll(items[..i]), Print(items[i]));
        }
        assert items[..|items|] == items;
        Regrouped(old(out), head, PrintAll(items));
    }
  }
}
