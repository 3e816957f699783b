/** Bytes, powers of two and the fixed-width bit fields shared by the encoders. */
module Nums {
  type Byte = x: int | 0 <= x < 256

  datatype Option<+T> = None | Some(value: T)

  function Pow2(n: nat): (r: nat)
    ensures r > 0
  {
    if n == 0 then 1 else 2 * Pow2(n - 1)
  }

  // ------------------------------------------------------------ bytes as bit vectors

  function Bv(x: Byte): bv8 { x as bv8 }

  function Num(b: bv8): Byte { b as int }

  lemma BvOfNum(b: bv8)
    ensures Bv(Num(b)) == b
  {
  }

  lemma NumSuccessor(b: bv8)
    ensures Num(0) == 0 && Num(0xFF) == 255
    ensures b != 0xFF ==> Num(b + 1) == Num(b) + 1
  {
  }

  lemma {:induction false} NumOfBv(x: Byte)
    ensures Num(Bv(x)) == x
  {
    hide Bv, Num;
    NumSuccessor(0);
    if x == 0 {
      BvOfNum(0);
    } else {
      NumOfBv(x - 1);
      NumSuccessor(Bv(x - 1));
      BvOfNum(Bv(x - 1) + 1);
    }
  }

  function Xor(a: Byte, b: Byte): Byte {
    Num(Bv(a) ^ Bv(b))
  }

  lemma XorTwice(a: Byte, b: Byte)
    ensures Xor(Xor(a, b), b) == a
  {
    BvOfNum(Bv(a) ^ Bv(b));
    hide Num, Bv;
    assert (Bv(a) ^ Bv(b)) ^ Bv(b) == Bv(a);
    NumOfBv(a);
  }

  lemma XorZero(a: Byte)
    ensures Xor(a, 0) == a
  {
    assert Bv(a) ^ 0 == Bv(a);
    assert Bv(0) == 0;
    NumOfBv(a);
  }

  /** Bit `i` of `value`. */
  function Digit(value: nat, i: nat): (b: nat)
    ensures b < 2
  {
    value / Pow2(i) % 2
  }

  /** The `length` low bits of `value`, most significant bit first. */
  function Field(value: nat, length: nat): (bits: seq<bool>)
    ensures |bits| == length
  {
    if length == 0 then [] else [Digit(value, length - 1) == 1] + Field(value, length - 1)
  }

  /** Reads a bit sequence as a number, most significant bit first. */
  function Value(bits: seq<bool>): (r: nat)
    ensures r < Pow2(|bits|)
  {
    if bits == [] then 0
    else (if bits[0] then Pow2(|bits| - 1) else 0) + Value(bits[1..])
  }

  /** The bits of a byte string, most significant bit of each byte first. */
  function BytesToBits(bytes: seq<Byte>): seq<bool> {
    if bytes == [] then [] else Field(bytes[0], 8) + BytesToBits(bytes[1..])
  }

  lemma {:induction false} BytesToBitsAppend(a: seq<Byte>, b: seq<Byte>)
    ensures BytesToBits(a + b) == BytesToBits(a) + BytesToBits(b)
  {
    hide Field;
    if a == [] {
      assert a + b == b;
    } else {
      BytesToBitsAppend(a[1..], b);
      assert (a + b)[1..] == a[1..] + b;
    }
  }

  lemma {:induction false} BytesToBitsLength(a: seq<Byte>)
    ensures |BytesToBits(a)| == 8 * |a|
  {
    if a != [] {
      BytesToBitsLength(a[1..]);
    }
  }

  lemma {:induction false} Pow2Add(a: nat, b: nat)
    ensures Pow2(a + b) == Pow2(a) * Pow2(b)
  {
    if a > 0 {
      Pow2Add(a - 1, b);
    }
  }

  lemma {:induction false} Pow2Monotone(a: nat, b: nat)
    requires a <= b
    ensures Pow2(a) <= Pow2(b)
  {
    if a < b {
      Pow2Monotone(a, b - 1);
    }
  }

  /** `Field` keeps the value modulo its width, so `Value` inverts it. */
  lemma {:induction false} ValueOfField(value: nat, length: nat)
    ensures Value(Field(value, length)) == value % Pow2(length)
  {
    if length > 0 {
      ValueOfField(value, length - 1);
      var p := Pow2(length - 1);
      assert Field(value, length)[1..] == Field(value, length - 1);
      ModSplit(value, p);
    }
  }

  lemma ModSplit(v: nat, p: nat)
    requires p > 0
    ensures v % (2 * p) == (v / p % 2) * p + v % p
  {
    var q := v / p;
    var h, b := q / 2, q % 2;
    assert v == q * p + v % p;
    assert q == 2 * h + b;
    assert v == (2 * h + b) * p + v % p;
    assert (2 * h + b) * p == h * (2 * p) + b * p;
    var r := b * p + v % p;
    assert 0 <= r < 2 * p;
    assert v == h * (2 * p) + r;
    ModUnique(v, 2 * p, h, r);
  }

  lemma ModUnique(v: nat, m: nat, q: nat, r: nat)
    requires m > 0 && r < m && v == q * m + r
    ensures v % m == r && v / m == q
  {
    var d := v / m - q;
    assert d * m == r - v % m;
    NoSmallMultiple(d, m);
  }

  lemma NoSmallMultiple(d: int, m: int)
    requires m > 0
    ensures d >= 1 ==> d * m >= m
    ensures d <= -1 ==> d * m <= -m
  {
  }

  lemma HalfDivide(v: nat, b: nat, p: nat)
    requires p > 0 && b < 2
    ensures (2 * v + b) / (2 * p) == v / p
  {
    var q, r := v / p, v % p;
    assert 2 * v + b == q * (2 * p) + (2 * r + b) by {
      assert v == q * p + r;
      assert 2 * (q * p) == q * (2 * p);
    }
    ModUnique(2 * v + b, 2 * p, q, 2 * r + b);
  }

  /** Shifting one bit in at the bottom appends it to the field. */
  lemma {:induction false} FieldSnoc(v: nat, b: nat, n: nat)
    requires b < 2
    ensures Field(2 * v + b, n + 1) == Field(v, n) + [b == 1]
  {
    if n == 0 {
      assert Pow2(0) == 1;
      assert Field(2 * v + b, 1) == [(2 * v + b) / 1 % 2 == 1] + Field(2 * v + b, 0);
    } else {
      FieldSnoc(v, b, n - 1);
      HalfDivide(v, b, Pow2(n - 1));
      assert Field(2 * v + b, n + 1) == [(2 * v + b) / Pow2(n) % 2 == 1] + Field(2 * v + b, n);
    }
  }
}
