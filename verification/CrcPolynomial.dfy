/**
 What the CRC-32 register computes: the remainder of a division of polynomials
 over the two-element field, as section 8 of RFC 1952 defines the checksum. A
 polynomial is its coefficients, highest first; a register is one of degree
 below 32.
 */
module CrcPolynomial {
  import opened Types
  import opened Crc32

  type Polynomial = seq<bool>

  function Zeros(n: nat): (p: Polynomial)
    ensures |p| == n
  {
    seq(n, i => false)
  }

  function Ones(n: nat): (p: Polynomial)
    ensures |p| == n
  {
    seq(n, i => true)
  }

  function Add(p: Polynomial, q: Polynomial): (r: Polynomial)
    requires |p| == |q|
    ensures |r| == |p|
  {
    seq(|p|, i requires 0 <= i < |p| => p[i] != q[i])
  }

  /** The exponents of x^32 + x^26 + x^23 + x^22 + x^16 + x^12 + x^11 + x^10 + x^8 + x^7 + x^5 + x^4 + x^2 + x + 1. */
  const EXPONENTS := {32, 26, 23, 22, 16, 12, 11, 10, 8, 7, 5, 4, 2, 1, 0}

  function Generator(): (p: Polynomial)
    ensures |p| == 33
  {
    seq(33, i => 32 - i in EXPONENTS)
  }

  /** The generator, or nothing, moved to the low end of `n + 33` coefficients. */
  function Term(b: bool, n: nat): (p: Polynomial)
    ensures |p| == n + 33
  {
    Zeros(n) + if b then Generator() else Zeros(33)
  }

  /** The generator times `q`, by Horner's rule. */
  function Product(q: Polynomial): (p: Polynomial)
    ensures |p| == |q| + 32
  {
    if q == [] then Zeros(32) else
    var n := |q| - 1;
    Add(Product(q[..n]) + [false], Term(q[n], n))
  }

  /** A byte, lowest bit first. */
  function ByteBits(b: Byte): (m: seq<bool>)
    ensures |m| == 8
  {
    [b % 2 == 1, b / 2 % 2 == 1, b / 4 % 2 == 1, b / 8 % 2 == 1,
     b / 16 % 2 == 1, b / 32 % 2 == 1, b / 64 % 2 == 1, b / 128 % 2 == 1]
  }

  function MessageBits(bs: seq<Byte>): (m: seq<bool>)
    ensures |m| == 8 * |bs|
  {
    if bs == [] then [] else MessageBits(bs[..|bs| - 1]) + ByteBits(bs[|bs| - 1])
  }

  /** The message times x^32, with its first 32 coefficients complemented. */
  function Dividend(m: seq<bool>): (p: Polynomial)
    ensures |p| == |m| + 32
  {
    Add(m + Zeros(32), Ones(32) + Zeros(|m|))
  }

  /** `q` and `r` divide `m`: dividend = generator times quotient plus remainder. */
  ghost predicate Divides(m: seq<bool>, q: Polynomial, r: Word) {
    |q| == |m| && Dividend(m) == Add(Product(q), Zeros(|m|) + r)
  }

  // ---------- One bit at a time ----------

  function Flip(x: Word, b: bool): Word { x[0 := x[0] != b] }

  function BitStep(x: Word, b: bool): Word { Step(Flip(x, b)) }

  function BitRun(x: Word, m: seq<bool>): Word
    decreases |m|
  {
    if m == [] then x else BitRun(BitStep(x, m[0]), m[1..])
  }

  lemma {:induction false} BitRunConcat(x: Word, a: seq<bool>, b: seq<bool>)
    ensures BitRun(x, a + b) == BitRun(BitRun(x, a), b)
    decreases |a|
  {
    hide BitStep;
    if a == [] {
      assert a + b == b;
    } else {
      BitRunConcat(BitStep(x, a[0]), a[1..], b);
      assert (a + b)[0] == a[0] && (a + b)[1..] == a[1..] + b;
    }
  }

  lemma BitRunSnoc(x: Word, m: seq<bool>, b: bool)
    ensures BitRun(x, m + [b]) == BitStep(BitRun(x, m), b)
  {
    hide BitStep;
    BitRunConcat(x, m, [b]);
    var y := BitRun(x, m);
    assert BitRun(y, [b]) == BitRun(BitStep(y, b), []);
  }

  /** The register with several bits added to its low end. */
  function Mix(x: Word, m: seq<bool>): Word {
    seq(32, i requires 0 <= i < 32 => x[i] != (i < |m| && m[i]))
  }

  lemma MixStep(x: Word, m: seq<bool>)
    requires 0 < |m| <= 32
    ensures Step(Mix(x, m)) == Mix(BitStep(x, m[0]), m[1..])
  {
    var u, v := Step(Mix(x, m)), Mix(BitStep(x, m[0]), m[1..]);
    forall i | 0 <= i < 32 ensures u[i] == v[i] {
      assert Mix(x, m)[0] == Flip(x, m[0])[0];
      if i < 31 {
        assert Flip(x, m[0])[i + 1] == x[i + 1];
      }
    }
  }

  /** Adding the bits first and then stepping is the same as feeding them one by one. */
  lemma {:induction false} MixRun(x: Word, m: seq<bool>)
    requires |m| <= 32
    ensures Steps(Mix(x, m), |m|) == BitRun(x, m)
    decreases |m|
  {
    if m == [] {
      assert Mix(x, m) == x;
    } else {
      MixStep(x, m);
      MixRun(BitStep(x, m[0]), m[1..]);
    }
  }

  lemma Quarter(b: nat)
    ensures b / 2 / 2 == b / 4
  {
  }

  lemma Sixteenth(b: nat)
    ensures b / 4 / 4 == b / 16 && b / 2 / 4 == b / 8
  {
  }

  lemma Last(b: nat)
    ensures b / 16 / 2 == b / 32 && b / 16 / 4 == b / 64 && b / 16 / 8 == b / 128
  {
  }

  lemma BitsOf(b: nat)
    ensures Bit(b, 0) == (b % 2 == 1) && Bit(b, 1) == (b / 2 % 2 == 1)
    ensures Bit(b, 2) == (b / 4 % 2 == 1) && Bit(b, 3) == (b / 8 % 2 == 1)
    ensures forall i: nat :: Bit(b, i + 4) == Bit(b / 16, i)
  {
    Quarter(b);
    Quarter(b / 2);
    Sixteenth(b);
    Quarter(b / 4);
    assert Bit(b, 2) == Bit(b / 2, 1) == Bit(b / 4, 0);
    assert Bit(b, 3) == Bit(b / 2, 2) == Bit(b / 2 / 2, 1) == Bit(b / 8, 0);
    forall i: nat ensures Bit(b, i + 4) == Bit(b / 16, i) {
      assert Bit(b, i + 4) == Bit(b / 2, i + 3) == Bit(b / 4, i + 2) == Bit(b / 4 / 2, i + 1) == Bit(b / 4 / 2 / 2, i);
    }
  }

  lemma BitLiteral(b: Byte, i: nat)
    requires i < 8
    ensures Bit(b, i) == ByteBits(b)[i]
  {
    hide Bit;
    BitsOf(b);
    BitsOf(b / 16);
    Last(b);
    if i >= 4 {
      assert Bit(b, (i - 4) + 4) == Bit(b / 16, i - 4);
    }
  }

  lemma UpdateIsBitRun(x: Word, b: Byte)
    ensures Update(x, b) == BitRun(x, ByteBits(b))
  {
    var m := ByteBits(b);
    forall i | 0 <= i < 32 ensures Mixed(x, b)[i] == Mix(x, m)[i] {
      if i < 8 { BitLiteral(b, i); }
    }
    assert Mixed(x, b) == Mix(x, m);
    MixRun(x, m);
  }

  lemma {:induction false} RunIsBitRun(x: Word, bs: seq<Byte>)
    ensures Run(x, bs) == BitRun(x, MessageBits(bs))
  {
    hide Update, BitStep, ByteBits;
    if bs != [] {
      var n := |bs| - 1;
      RunIsBitRun(x, bs[..n]);
      RunConcat(x, bs[..n], [bs[n]]);
      assert bs[..n] + [bs[n]] == bs;
      var y := Run(x, bs[..n]);
      assert Run(y, [bs[n]]) == Run(Update(y, bs[n]), []);
      UpdateIsBitRun(y, bs[n]);
      BitRunConcat(x, MessageBits(bs[..n]), ByteBits(bs[n]));
    }
  }

  // ---------- The register holds the remainder ----------

  lemma PolyIsGenerator(i: nat)
    requires i < 32
    ensures Poly(i) == Generator()[i + 1] && Generator()[0]
  {
  }

  /** x times the register: the generator if its top coefficient is one, plus the stepped register. */
  lemma StepReduces(u: Word)
    ensures u + [false] == Add(Term(u[0], 0), [false] + Step(u))
  {
    var p := Add(Term(u[0], 0), [false] + Step(u));
    forall i | 0 <= i < 33 ensures (u + [false])[i] == p[i] {
      PolyIsGenerator(if i == 0 then 0 else i - 1);
    }
  }

  lemma DividendSnoc(m: seq<bool>, b: bool)
    ensures Dividend(m + [b]) == Add(Dividend(m) + [false], Zeros(|m|) + [b] + Zeros(32))
  {
  }

  lemma DivideStep(m: seq<bool>, b: bool, q: Polynomial, r: Word)
    requires Divides(m, q, r)
    ensures Divides(m + [b], q + [Flip(r, b)[0]], BitStep(r, b))
  {
    var n, u, v := |m|, Flip(r, b), BitStep(r, b);
    var more := q + [u[0]];
    assert more[..n] == q;
    DividendSnoc(m, b);
    AlignStep(Dividend(m), Product(q), r, b, n);
    assert Product(more) == Add(Product(q) + [false], Term(u[0], n));
  }

  /** One step of the division, coefficient by coefficient. */
  lemma AlignStep(d: Polynomial, p: Polynomial, r: Word, b: bool, n: nat)
    requires |d| == n + 32 && |p| == n + 32 && d == Add(p, Zeros(n) + r)
    ensures var u := Flip(r, b);
      Add(d + [false], Zeros(n) + [b] + Zeros(32)) ==
      Add(Add(p + [false], Term(u[0], n)), Zeros(n + 1) + Step(u))
  {
    var u := Flip(r, b);
    StepReduces(u);
    var x, y := Add(d + [false], Zeros(n) + [b] + Zeros(32)),
                Add(Add(p + [false], Term(u[0], n)), Zeros(n + 1) + Step(u));
    var t := Add(Term(u[0], 0), [false] + Step(u));
    forall i | 0 <= i < n + 33 ensures x[i] == y[i] {
      if i < n {
        assert d[i] == p[i];
      } else {
        assert (u + [false])[i - n] == t[i - n];
        assert Term(u[0], n)[i] == Term(u[0], 0)[i - n];
        assert (Zeros(n + 1) + Step(u))[i] == ([false] + Step(u))[i - n];
        if i < n + 32 { assert d[i] == (p[i] != r[i - n]); }
      }
    }
  }

  lemma {:induction false} RegisterDivides(m: seq<bool>) returns (q: Polynomial)
    ensures Divides(m, q, BitRun(ONES, m))
  {
    if m == [] {
      q := [];
      assert Dividend([]) == Add(Zeros(32), Zeros(0) + ONES);
    } else {
      var n := |m| - 1;
      q := RegisterDivides(m[..n]);
      DivideStep(m[..n], m[n], q, BitRun(ONES, m[..n]));
      BitRunSnoc(ONES, m[..n], m[n]);
      assert m[..n] + [m[n]] == m;
      q := q + [Flip(BitRun(ONES, m[..n]), m[n])[0]];
    }
  }

  lemma NotTwice(x: Word)
    ensures Not(Not(x)) == x
  {
  }

  /** The checksum is the complement of the remainder, for every message. */
  lemma ChecksumIsRemainder(bs: seq<Byte>) returns (q: Polynomial)
    ensures Divides(MessageBits(bs), q, Not(Checksum(bs)))
  {
    q := RegisterDivides(MessageBits(bs));
    RunIsBitRun(ONES, bs);
    NotTwice(Run(ONES, bs));
  }

  // ---------- There is only one remainder ----------

  lemma ProductFront(q: Polynomial)
    requires q != []
    ensures var n := |q| - 1;
      && (forall i :: 0 <= i < n ==> Product(q)[i] == Product(q[..n])[i])
      && Product(q)[n] == (Product(q[..n])[n] != q[n])
  {
    var n := |q| - 1;
    TopOfTerm(q[n], n);
    AddFront(Product(q[..n]), Term(q[n], n), n);
  }

  lemma TopOfTerm(b: bool, n: nat)
    ensures Term(b, n)[n] == b && forall i :: 0 <= i < n ==> !Term(b, n)[i]
  {
    assert Generator()[0];
  }

  lemma AddFront(p: Polynomial, t: Polynomial, n: nat)
    requires n < |p| && |t| == |p| + 1 && forall i :: 0 <= i < n ==> !t[i]
    ensures forall i :: 0 <= i < n ==> Add(p + [false], t)[i] == p[i]
    ensures Add(p + [false], t)[n] == (p[n] != t[n])
  {
  }

  lemma {:induction false} QuotientUnique(q: Polynomial, q': Polynomial)
    requires |q| == |q'| && forall i :: 0 <= i < |q| ==> Product(q)[i] == Product(q')[i]
    ensures q == q'
    decreases |q|
  {
    if q != [] {
      var n := |q| - 1;
      hide Product;
      ProductFront(q);
      ProductFront(q');
      QuotientUnique(q[..n], q'[..n]);
      assert q == q[..n] + [q[n]] && q' == q'[..n] + [q'[n]];
    }
  }

  /** Division has one quotient and one remainder, so the checksum is fixed by `Divides`. */
  lemma RemainderUnique(m: seq<bool>, q: Polynomial, r: Word, q': Polynomial, r': Word)
    requires Divides(m, q, r) && Divides(m, q', r')
    ensures q == q' && r == r'
  {
    var k, d := |m|, Dividend(m);
    forall i | 0 <= i < k ensures Product(q)[i] == Product(q')[i] {
      assert d[i] == (Product(q)[i] != (Zeros(k) + r)[i]) && d[i] == (Product(q')[i] != (Zeros(k) + r')[i]);
    }
    QuotientUnique(q, q');
    forall i | 0 <= i < 32 ensures r[i] == r'[i] {
      assert d[k + i] == (Product(q)[k + i] != (Zeros(k) + r)[k + i]);
      assert d[k + i] == (Product(q')[k + i] != (Zeros(k) + r')[k + i]);
    }
  }
}
