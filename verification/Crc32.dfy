/**
 CRC-32 as in section 8 of RFC 1952: reflected, polynomial 0xEDB88320, register
 preset to ones and complemented at the end. A register is its 32 bits, lowest
 first.
 */
module Crc32 {
  import opened Types

  const ONES8 := [true, true, true, true, true, true, true, true]

  type Word = w: seq<bool> | |w| == 32 witness ONES8 + ONES8 + ONES8 + ONES8

  /** The bits set in 0xEDB88320. */
  predicate Poly(i: int) {
    i in {5, 8, 9, 15, 19, 20, 21, 23, 24, 26, 27, 29, 30, 31}
  }

  /** Shift right by one, adding the polynomial if a one fell out. */
  function Step(x: Word): Word {
    seq(32, i requires 0 <= i < 32 => (i < 31 && x[i + 1]) != (x[0] && Poly(i)))
  }

  function Steps(x: Word, n: nat): Word
    decreases n
  {
    if n == 0 then x else Steps(Step(x), n - 1)
  }

  function Bit(b: nat, i: nat): bool
    decreases i
  {
    if i == 0 then b % 2 == 1 else Bit(b / 2, i - 1)
  }

  /** The register with a byte added to its low end. */
  function Mixed(x: Word, b: Byte): Word {
    seq(32, i requires 0 <= i < 32 => x[i] != (i < 8 && Bit(b, i)))
  }

  function Update(x: Word, b: Byte): Word { Steps(Mixed(x, b), 8) }

  function Run(x: Word, bs: seq<Byte>): Word
    decreases |bs|
  {
    if bs == [] then x else Run(Update(x, bs[0]), bs[1..])
  }

  const ONES: Word := ONES8 + ONES8 + ONES8 + ONES8

  function Not(x: Word): Word { seq(32, i requires 0 <= i < 32 => !x[i]) }

  function Checksum(bs: seq<Byte>): Word { Not(Run(ONES, bs)) }

  // ---------- Steps lose nothing ----------

  /** Registers that agree on every bit from `k` up. */
  ghost predicate AgreeFrom(x: Word, y: Word, k: int) {
    forall i :: k <= i < 32 && 0 <= i ==> x[i] == y[i]
  }

  ghost predicate AgreeBelow(x: Word, y: Word, k: int) {
    forall i :: 0 <= i < k && i < 32 ==> x[i] == y[i]
  }

  lemma StepBack(x: Word, y: Word, k: nat)
    requires k <= 31 && AgreeFrom(Step(x), Step(y), k)
    ensures x[0] == y[0] && AgreeFrom(x, y, k + 1)
    ensures forall i :: 0 <= i < 31 ==> (Step(x)[i] == Step(y)[i] <==> x[i + 1] == y[i + 1])
  {
    assert Step(x)[31] == x[0] && Step(y)[31] == y[0];
    forall i | k + 1 <= i < 32 ensures x[i] == y[i] {
      assert Step(x)[i - 1] == Step(y)[i - 1];
    }
  }

  /** Going back `n` steps: what agreed moves up by `n`, and the `n` bits that fell out agreed. */
  lemma {:induction false} StepsBack(x: Word, y: Word, n: nat, k: nat)
    requires k + n <= 32 && AgreeFrom(Steps(x, n), Steps(y, n), k)
    ensures AgreeFrom(x, y, k + n) && AgreeBelow(x, y, n)
    decreases n
  {
    if n > 0 {
      StepsBack(Step(x), Step(y), n - 1, k);
      StepBack(x, y, k + n - 1);
      forall i | 0 <= i < n ensures x[i] == y[i] {
        if i > 0 { assert Step(x)[i - 1] == Step(y)[i - 1]; }
      }
    }
  }

  function Pow2(n: nat): nat { if n == 0 then 1 else 2 * Pow2(n - 1) }

  lemma {:induction false} BitsDecide(b: nat, d: nat, n: nat)
    requires b < Pow2(n) && d < Pow2(n)
    requires forall i :: 0 <= i < n ==> Bit(b, i) == Bit(d, i)
    ensures b == d
    decreases n
  {
    if n > 0 {
      assert Bit(b, 0) == Bit(d, 0);
      forall i | 0 <= i < n - 1 ensures Bit(b / 2, i) == Bit(d / 2, i) {
        assert Bit(b, i + 1) == Bit(d, i + 1);
      }
      BitsDecide(b / 2, d / 2, n - 1);
    }
  }

  lemma ByteDecide(b: Byte, d: Byte)
    requires forall i :: 0 <= i < 8 ==> Bit(b, i) == Bit(d, i)
    ensures b == d
  {
    assert Pow2(4) == 16 && Pow2(8) == 256;
    BitsDecide(b, d, 8);
  }

  /** The number with the given bits, lowest first. */
  function Number(bits: seq<bool>): (n: nat)
    ensures n < Pow2(|bits|)
  {
    if bits == [] then 0 else (if bits[0] then 1 else 0) + 2 * Number(bits[1..])
  }

  lemma NumberHalves(bits: seq<bool>)
    requires bits != []
    ensures Number(bits) / 2 == Number(bits[1..]) && (Number(bits) % 2 == 1 <==> bits[0])
  {
  }

  lemma {:induction false} NumberBit(bits: seq<bool>, i: nat)
    requires i < |bits|
    ensures Bit(Number(bits), i) == bits[i]
    decreases |bits|
  {
    NumberHalves(bits);
    hide Number;
    if i > 0 {
      NumberBit(bits[1..], i - 1);
    }
  }

  lemma UpdateBack(x: Word, y: Word, b: Byte, d: Byte, k: nat)
    requires k <= 24 && AgreeFrom(Update(x, b), Update(y, d), k)
    ensures AgreeFrom(x, y, k + 8)
    ensures x == y ==> b == d
    ensures b == d && k == 0 ==> x == y
  {
    var u, v := Mixed(x, b), Mixed(y, d);
    StepsBack(u, v, 8, k);
    if x == y {
      forall i | 0 <= i < 8 ensures Bit(b, i) == Bit(d, i) { assert u[i] == v[i]; }
      ByteDecide(b, d);
    }
    forall i | k + 8 <= i < 32 ensures x[i] == y[i] { assert u[i] == v[i]; }
    if b == d && k == 0 {
      forall i | 0 <= i < 32 ensures x[i] == y[i] { assert u[i] == v[i]; }
    }
  }

  // ---------- Runs ----------

  lemma SplitHead(a: seq<Byte>, b: seq<Byte>)
    requires a != []
    ensures (a + b)[0] == a[0] && (a + b)[1..] == a[1..] + b
  {
  }

  lemma {:induction false} RunConcat(x: Word, a: seq<Byte>, b: seq<Byte>)
    ensures Run(x, a + b) == Run(Run(x, a), b)
    decreases |a|
  {
    if a == [] {
      assert a + b == b;
    } else {
      SplitHead(a, b);
      RunConcat(Update(x, a[0]), a[1..], b);
    }
  }

  lemma {:induction false} RunInjective(x: Word, y: Word, bs: seq<Byte>)
    requires Run(x, bs) == Run(y, bs)
    ensures x == y
    decreases |bs|
  {
    if bs != [] {
      RunInjective(Update(x, bs[0]), Update(y, bs[0]), bs[1..]);
      UpdateBack(x, y, bs[0], bs[0], 0);
    }
  }

  /**
   Two messages of at most four bytes that end in the same register started from
   registers that differ only where those bytes reach; from the same register,
   they are the same message.
   */
  lemma {:induction false} SameEnd(x: Word, y: Word, xs: seq<Byte>, ys: seq<Byte>)
    requires |xs| == |ys| <= 4 && Run(x, xs) == Run(y, ys)
    ensures AgreeFrom(x, y, 8 * |xs|)
    ensures x == y ==> xs == ys
    decreases |xs|
  {
    if xs != [] {
      SameEnd(Update(x, xs[0]), Update(y, ys[0]), xs[1..], ys[1..]);
      UpdateBack(x, y, xs[0], ys[0], 8 * (|xs| - 1));
      if x == y {
        assert xs == [xs[0]] + xs[1..] && ys == [ys[0]] + ys[1..];
      }
    }
  }

  lemma NotInjective(x: Word, y: Word)
    requires Not(x) == Not(y)
    ensures x == y
  {
    forall i | 0 <= i < 32 ensures x[i] == y[i] {
      assert Not(x)[i] == Not(y)[i];
    }
  }

  /** Any change confined to four consecutive bytes changes the checksum. */
  lemma BurstDetected(front: seq<Byte>, x: seq<Byte>, y: seq<Byte>, back: seq<Byte>)
    requires |x| == |y| <= 4 && x != y
    ensures Checksum(front + x + back) != Checksum(front + y + back)
  {
    var mid := Run(ONES, front);
    var cx, cy := Run(mid, x), Run(mid, y);
    RunConcat(ONES, front + x, back);
    RunConcat(ONES, front, x);
    RunConcat(ONES, front + y, back);
    RunConcat(ONES, front, y);
    if Checksum(front + x + back) == Checksum(front + y + back) {
      NotInjective(Run(cx, back), Run(cy, back));
      RunInjective(cx, cy, back);
      SameEnd(mid, mid, x, y);
    }
  }
}
