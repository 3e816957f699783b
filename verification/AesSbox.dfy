/** The AES S-box (`_sbox`), built by walking the multiplicative group of
    GF(2^8): one index is multiplied by 3 while the other is divided by 3. */
module AesSbox {
  import opened Nums

  // ------------------------------------------------------------ the two walks

  function Triple(p: bv8): bv8 {
    p ^ (p << 1) ^ (if p & 0x80 != 0 then 0x1B else 0)
  }

  function Third(q: bv8): bv8 {
    var a := q ^ (q << 1);
    var b := a ^ (a << 2);
    var c := b ^ (b << 4);
    if c & 0x80 != 0 then c ^ 0x09 else c
  }

  lemma ThirdInvertsTriple(p: bv8)
    ensures Third(Triple(p)) == p && Triple(Third(p)) == p
    ensures Triple(p) == 0 <==> p == 0
    ensures Third(p) == 0 <==> p == 0
  {
  }

  function Power(k: nat): bv8 {
    if k == 0 then 1 else Triple(Power(k - 1))
  }

  function Triple4(p: bv8): bv8 { Triple(Triple(Triple(Triple(p)))) }
  function Triple16(p: bv8): bv8 { Triple4(Triple4(Triple4(Triple4(p)))) }

  lemma Sixteen(k: nat)
    ensures Power(k + 16) == Triple16(Power(k))
  {
    Four(k);
    Four(k + 4);
    Four(k + 8);
    Four(k + 12);
  }

  lemma Four(k: nat)
    ensures Power(k + 4) == Triple4(Power(k))
  {
    assert Power(k + 1) == Triple(Power(k));
    assert Power(k + 2) == Triple(Power(k + 1));
    assert Power(k + 3) == Triple(Power(k + 2));
    assert Power(k + 4) == Triple(Power(k + 3));
  }

  lemma Next16(k: nat, c: bv8, d: bv8)
    requires Power(k) == c && Triple16(c) == d
    ensures Power(k + 16) == d
  {
    Sixteen(k);
  }

  lemma PowersTo96()
    ensures Power(16) == 0x5F && Power(32) == 0xE5 && Power(48) == 0x53 && Power(64) == 0x4C && Power(80) == 0x83
              && Power(96) == 0xB5
  {
    Next16(0, 0x01, 0x5F);
    Next16(16, 0x5F, 0xE5);
    Next16(32, 0xE5, 0x53);
    Next16(48, 0x53, 0x4C);
    Next16(64, 0x4C, 0x83);
    Next16(80, 0x83, 0xB5);
  }

  lemma PowersTo176()
    ensures Power(112) == 0xFE && Power(128) == 0xFB && Power(144) == 0xC3 && Power(160) == 0x9F && Power(176) == 0x9B
  {
    PowersTo96();
    Next16(96, 0xB5, 0xFE);
    Next16(112, 0xFE, 0xFB);
    Next16(128, 0xFB, 0xC3);
    Next16(144, 0xC3, 0x9F);
    Next16(160, 0x9F, 0x9B);
  }

  lemma PowersTo256()
    ensures Power(192) == 0xFC && Power(208) == 0x45 && Power(224) == 0x12 && Power(240) == 0x39 && Power(256) == 0x03
  {
    PowersTo176();
    Next16(176, 0x9B, 0xFC);
    Next16(192, 0xFC, 0x45);
    Next16(208, 0x45, 0x12);
    Next16(224, 0x12, 0x39);
    Next16(240, 0x39, 0x03);
  }

  lemma LandmarkPowers()
    ensures Power(15) != 1 && Power(51) != 1 && Power(85) != 1 && Power(255) == 1
  {
    PowersTo96();
    PowersTo256();
    ThirdInvertsTriple(Power(255));
    Four(48);
    Four(80);
    assert Power(16) == Triple(Power(15)) && Power(256) == Triple(Power(255));
    assert Power(52) == Triple(Power(51)) && Power(85) == Triple(Power(84));
    assert Triple(1) == 0x03;
  }

  // ------------------------------------------------------------ the order of 3

  /** Once the walk is back at 1, it repeats itself. */
  lemma {:induction false} Periodic(a: nat, n: nat)
    requires Power(a) == 1
    ensures Power(a + n) == Power(n)
  {
    if n > 0 {
      Periodic(a, n - 1);
      assert Power(a + n) == Triple(Power(a + n - 1));
    }
  }

  /** Two periods have a common divisor that is a period. */
  lemma {:induction false} CommonPeriod(a: nat, b: nat) returns (g: nat, x: nat, y: nat)
    requires a > 0 && b > 0 && Power(a) == 1 && Power(b) == 1
    ensures g > 0 && a == g * x && b == g * y && Power(g) == 1
    decreases a + b
  {
    if a == b {
      g, x, y := a, 1, 1;
    } else if a > b {
      Periodic(b, a - b);
      g, x, y := CommonPeriod(a - b, b);
      x := x + y;
    } else {
      Periodic(a, b - a);
      g, x, y := CommonPeriod(a, b - a);
      y := x + y;
    }
  }

  lemma {:induction false} PeriodMultiple(g: nat, t: nat)
    requires Power(g) == 1
    ensures Power(g * t) == 1
  {
    if t > 0 {
      PeriodMultiple(g, t - 1);
      Periodic(g, g * (t - 1));
      assert g * t == g + g * (t - 1);
    }
  }

  lemma TwoLargeFactors(g: nat, t: nat)
    ensures g >= 16 && t >= 16 ==> g * t >= 256
  {
    if g >= 16 && t >= 16 {
      assert g * t == 16 * t + (g - 16) * t;
    }
  }

  /** A proper divisor of 255 divides 15, 51 or 85. */
  lemma ProperDivisorOf255(g: nat, t: nat) returns (u: nat)
    requires g * t == 255 && 0 < g < 255
    ensures g * u == 15 || g * u == 51 || g * u == 85
  {
    TwoLargeFactors(g, t);
    if g > 15 {
      SmallFactor(t, g);
    } else {
      SmallFactor(g, t);
    }
    u := if g == 1 then 15 else if g == 3 then 5 else if g == 5 then 3
         else if g == 15 then 1 else if g == 17 then 3 else 1;
  }

  lemma SmallFactor(a: nat, b: nat)
    requires a <= 15 && a * b == 255
    ensures (a, b) == (1, 255) || (a, b) == (3, 85) || (a, b) == (5, 51) || (a, b) == (15, 17)
  {
    if a == 0 {} else if a == 1 {} else if a == 2 {} else if a == 3 {} else if a == 4 {}
    else if a == 5 {} else if a == 6 {} else if a == 7 {} else if a == 8 {} else if a == 9 {}
    else if a == 10 {} else if a == 11 {} else if a == 12 {} else if a == 13 {} else if a == 14 {}
    else { assert a == 15; }
  }

  /** 3 generates the whole multiplicative group: its order is 255. */
  lemma OrderOfThree(k: nat)
    requires 0 < k < 255
    ensures Power(k) != 1
  {
    if Power(k) == 1 {
      LandmarkPowers();
      var g, x, y := CommonPeriod(k, 255);
      AtMost(g, x, k);
      var u := ProperDivisorOf255(g, y);
      PeriodMultiple(g, u);
    }
  }

  lemma AtMost(g: nat, x: nat, k: nat)
    requires k == g * x && k > 0
    ensures 0 < g <= k
  {
  }

  lemma {:induction false} PowersDiffer(i: nat, j: nat)
    requires i < j < 255
    ensures Power(i) != Power(j)
  {
    if i == 0 {
      OrderOfThree(j);
    } else {
      PowersDiffer(i - 1, j - 1);
      ThirdInvertsTriple(Power(i - 1));
      ThirdInvertsTriple(Power(j - 1));
    }
  }

  // ------------------------------------------------------------ every byte is reached

  lemma NumInjective(a: bv8, b: bv8)
    ensures Num(a) == Num(b) ==> a == b
    ensures Num(b) == 0 <==> b == 0
  {
    BvOfNum(a);
    BvOfNum(b);
    NumSuccessor(0);
    BvOfNum(0);
  }

  function Reached(n: nat): set<nat> {
    if n == 0 then {} else Reached(n - 1) + {Num(Power(n - 1))}
  }

  lemma {:induction false} ReachedCount(n: nat)
    requires n <= 255
    ensures |Reached(n)| == n
  {
    hide Num, Bv, Power;
    if n > 0 {
      ReachedCount(n - 1);
      if Num(Power(n - 1)) in Reached(n - 1) {
        var i := ReachedBy(n - 1, Num(Power(n - 1)));
        PowersDiffer(i, n - 1);
        NumInjective(Power(i), Power(n - 1));
      }
    }
  }

  lemma {:induction false} ReachedBy(n: nat, v: nat) returns (i: nat)
    requires v in Reached(n)
    ensures i < n && Num(Power(i)) == v
  {
    if v in Reached(n - 1) {
      i := ReachedBy(n - 1, v);
    } else {
      i := n - 1;
    }
  }

  lemma ReachedInRange(n: nat)
    ensures forall v :: v in Reached(n) ==> 1 <= v <= 255
  {
    forall v | v in Reached(n)
      ensures 1 <= v <= 255
    {
      var i := ReachedBy(n, v);
      NeverZero(i);
      NumInjective(Power(i), Power(i));
    }
  }

  lemma {:induction false} NeverZero(k: nat)
    ensures Power(k) != 0
  {
    if k > 0 {
      NeverZero(k - 1);
      ThirdInvertsTriple(Power(k - 1));
    }
  }

  lemma {:induction false} FullRange(s: set<nat>, n: nat)
    requires forall v :: v in s ==> 1 <= v <= n
    ensures |s| <= n && (|s| == n ==> forall v :: 1 <= v <= n ==> v in s)
  {
    if n == 0 {
      assert s == {};
    } else {
      FullRange(s - {n}, n - 1);
      if n !in s {
        assert s - {n} == s;
      }
    }
  }

  /** Every non-zero byte is a power of 3. */
  lemma EveryByteReached(b: bv8) returns (i: nat)
    requires b != 0
    ensures i < 255 && Power(i) == b
  {
    hide Power, Reached, Num, Bv;
    ReachedCount(255);
    ReachedInRange(255);
    FullRange(Reached(255), 255);
    NumInjective(b, b);
    i := ReachedBy(255, Num(b));
    NumInjective(Power(i), b);
  }

  // ------------------------------------------------------------ the table

  /** The affine transformation of section 5.1.1 of FIPS 197, as rotations. */
  function Affine(q: bv8): bv8 {
    q ^ ((q << 1) | (q >> 7)) ^ ((q << 2) | (q >> 6)) ^ ((q << 3) | (q >> 5)) ^ ((q << 4) | (q >> 4)) ^ 0x63
  }

  lemma AffineInjective(a: bv8, b: bv8)
    ensures Affine(a) == Affine(b) ==> a == b
    ensures Affine(0) == 0x63
  {
  }

  /** A substitution of bytes: a value for every byte, no value twice. */
  ghost predicate IsBijection(box: seq<Byte>) {
    |box| == 256 && forall a, b :: 0 <= a < b < 256 ==> box[a] != box[b]
  }

  /** The table built so far: the entries of the first `k` powers of 3. */
  ghost predicate HoldsPowers(box: seq<Byte>, k: nat)
    requires k <= 255
  {
    |box| == 256
    && forall i: nat :: 1 <= i <= k ==> box[Num(Power(i))] == Num(Affine(Power(255 - i)))
  }

  lemma KeyIsFresh(i: nat, k: nat)
    requires 1 <= i < k <= 255
    ensures Num(Power(i)) != Num(Power(k))
  {
    hide Power, Num, Bv;
    NumInjective(Power(i), Power(k));
    if k < 255 {
      PowersDiffer(i, k);
    } else {
      LandmarkPowers();
      OrderOfThree(i);
    }
  }

  /** The two indices after `k` turns. */
  ghost predicate OnWalk(p: bv8, q: bv8, k: nat) {
    k <= 255 && p == Power(k) && q == Power(255 - k)
  }

  lemma WalkStart(box: seq<Byte>)
    requires |box| == 256
    ensures OnWalk(1, 1, 0) && HoldsPowers(box, 0)
  {
    LandmarkPowers();
  }

  lemma WalkStep(p: bv8, q: bv8, k: nat)
    requires k < 255 && OnWalk(p, q, k)
    ensures OnWalk(Triple(p), Third(q), k + 1)
    ensures Triple(p) == Power(k + 1) && Third(q) == Power(254 - k)
    ensures Triple(p) == 1 <==> k + 1 == 255
  {
    ThirdInvertsTriple(Power(254 - k));
    assert Power(255 - k) == Triple(Power(254 - k)) && Power(k + 1) == Triple(Power(k));
    hide Triple, Third, Power;
    LandmarkPowers();
    if k + 1 < 255 {
      OrderOfThree(k + 1);
    }
  }

  /** One turn of the loop keeps the table right: the new key is a new byte. */
  lemma NextEntry(box: seq<Byte>, k: nat)
    requires k < 255 && HoldsPowers(box, k)
    ensures HoldsPowers(box[Num(Power(k + 1)) := Num(Affine(Power(254 - k)))], k + 1)
  {
    hide Power, Affine, Num;
    forall i: nat | 1 <= i <= k
      ensures Num(Power(i)) != Num(Power(k + 1))
    {
      KeyIsFresh(i, k + 1);
    }
  }

  /** A full walk, with the entry for 0 added, substitutes every byte once. */
  lemma FullTable(walked: seq<Byte>, box: seq<Byte>)
    requires HoldsPowers(walked, 255) && box == walked[0 := 0x63]
    ensures IsBijection(box) && HoldsPowers(box, 255)
  {
    hide Power, Affine, Num, Bv;
    forall i: nat | 1 <= i <= 255
      ensures Num(Power(i)) != 0
    {
      NeverZero(i);
      NumInjective(Power(i), Power(i));
    }
    forall a, b | 0 <= a < b < 256
      ensures box[a] != box[b]
    {
      EntriesDiffer(box, a, b);
    }
  }

  lemma ExponentOf(v: Byte) returns (i: nat)
    requires v != 0
    ensures 1 <= i <= 255 && Num(Power(i)) == v
  {
    NumOfBv(v);
    NumInjective(Bv(v), Bv(v));
    i := EveryByteReached(Bv(v));
    LandmarkPowers();
    if i == 0 {
      i := 255;
    }
  }

  lemma EntriesDiffer(box: seq<Byte>, a: Byte, b: Byte)
    requires HoldsPowers(box, 255) && box[0] == 0x63 && a < b
    ensures box[a] != box[b]
  {
    AffineInjective(0, 0);
    hide Power, Affine, Num, Bv;
    assert Num(0x63) == 0x63 by { SixtyThree(); }
    var j := ExponentOf(b);
    if a != 0 {
      var i := ExponentOf(a);
      if box[a] == box[b] {
        NumInjective(Affine(Power(255 - i)), Affine(Power(255 - j)));
        AffineInjective(Power(255 - i), Power(255 - j));
        if i < j {
          PowersDiffer(255 - j, 255 - i);
        } else if j < i {
          PowersDiffer(255 - i, 255 - j);
        }
      }
    } else {
      NeverZero(255 - j);
      AffineInjective(Power(255 - j), 0);
      NumInjective(Affine(Power(255 - j)), 0x63);
    }
  }

  lemma SixtyThree()
    ensures Num(0x63) == 0x63
  {
  }

  // ------------------------------------------------------------ the table is the standard's

  /** Multiplication by x modulo the polynomial of section 4.2 of FIPS 197. */
  function Twice(a: bv8): bv8 { if a & 0x80 != 0 then (a << 1) ^ 0x1B else a << 1 }

  function Plus(a: bv8, b: bv8): bv8 { a ^ b }

  function Part(a: bv8, b: bv8, bit: bv8): bv8 { if b & bit != 0 then a else 0 }

  /** The sum of the multiples of `a` for the bits of `b` that are in `low`. */
  function TimesLow(a: bv8, b: bv8): bv8 {
    Plus(Plus(Part(a, b, 1), Part(Twice(a), b, 2)),
         Plus(Part(Twice(Twice(a)), b, 4), Part(Twice(Twice(Twice(a))), b, 8)))
  }

  function Twice4(a: bv8): bv8 { Twice(Twice(Twice(Twice(a)))) }

  /** The product in GF(2^8). */
  function Times(a: bv8, b: bv8): bv8 { Plus(TimesLow(a, b), TimesLow(Twice4(a), b >> 4)) }

  function Carry(a: bv8): bv8 { if a & 0x80 != 0 then 0x1B else 0 }

  lemma CarryOfSum(a: bv8, b: bv8)
    ensures Carry(Plus(a, b)) == Plus(Carry(a), Carry(b))
    ensures Plus(a, b) << 1 == Plus(a << 1, b << 1)
  {
    assert (a ^ b) & 0x80 == (a & 0x80) ^ (b & 0x80);
  }

  lemma Associative(a: bv8, b: bv8, c: bv8)
    ensures Plus(Plus(a, b), c) == Plus(a, Plus(b, c))
    ensures Plus(b, c) == Plus(c, b)
  {
  }

  lemma MiddleTwo(a: bv8, b: bv8, c: bv8, d: bv8)
    ensures Plus(Plus(a, b), Plus(c, d)) == Plus(Plus(a, c), Plus(b, d))
  {
    hide Plus;
    Associative(Plus(a, b), c, d);
    Associative(a, b, c);
    Associative(a, c, b);
    Associative(Plus(a, c), b, d);
  }

  lemma TripleParts(a: bv8)
    ensures Triple(a) == Plus(Plus(a, a << 1), Carry(a))
  {
  }

  lemma TripleOfSum(a: bv8, b: bv8)
    ensures Triple(Plus(a, b)) == Plus(Triple(a), Triple(b))
  {
    hide Triple, Plus, Carry;
    TripleParts(a);
    TripleParts(b);
    TripleParts(Plus(a, b));
    CarryOfSum(a, b);
    MiddleTwo(a, b, a << 1, b << 1);
    MiddleTwo(Plus(a, a << 1), Plus(b, b << 1), Carry(a), Carry(b));
  }

  lemma TwiceOfTriple(a: bv8)
    ensures Twice(Triple(a)) == Triple(Twice(a))
  {
  }

  lemma PartOfTriple(a: bv8, b: bv8, bit: bv8)
    ensures Part(Triple(a), b, bit) == Triple(Part(a, b, bit))
  {
    assert Triple(0) == 0;
  }

  lemma Twice4OfTriple(a: bv8)
    ensures Twice4(Triple(a)) == Triple(Twice4(a))
  {
    hide Twice, Triple;
    TwiceOfTriple(a);
    TwiceOfTriple(Twice(a));
    TwiceOfTriple(Twice(Twice(a)));
    TwiceOfTriple(Twice(Twice(Twice(a))));
  }

  lemma LowOfTriple(a: bv8, b: bv8)
    ensures TimesLow(Triple(a), b) == Triple(TimesLow(a, b))
  {
    hide Twice, Triple, Part, Plus;
    var a2 := Twice(a);
    var a4 := Twice(a2);
    var a8 := Twice(a4);
    TwiceOfTriple(a);
    TwiceOfTriple(a2);
    TwiceOfTriple(a4);
    PartOfTriple(a, b, 1);
    PartOfTriple(a2, b, 2);
    PartOfTriple(a4, b, 4);
    PartOfTriple(a8, b, 8);
    var p1, p2, p4, p8 := Part(a, b, 1), Part(a2, b, 2), Part(a4, b, 4), Part(a8, b, 8);
    TripleOfSum(p1, p2);
    TripleOfSum(p4, p8);
    TripleOfSum(Plus(p1, p2), Plus(p4, p8));
  }

  lemma TimesOfTriple(a: bv8, b: bv8)
    ensures Times(Triple(a), b) == Triple(Times(a, b))
  {
    hide TimesLow, Twice4, Triple, Plus;
    Twice4OfTriple(a);
    LowOfTriple(a, b);
    LowOfTriple(Twice4(a), b >> 4);
    TripleOfSum(TimesLow(a, b), TimesLow(Twice4(a), b >> 4));
  }

  lemma TimesOne(b: bv8)
    ensures Times(1, b) == b
  {
  }

  /** Powers of 3 multiply by adding their exponents. */
  lemma {:induction false} PowersMultiply(i: nat, j: nat)
    ensures Times(Power(i), Power(j)) == Power(i + j)
  {
    hide Times, Triple;
    if i == 0 {
      TimesOne(Power(j));
    } else {
      PowersMultiply(i - 1, j);
      TimesOfTriple(Power(i - 1), Power(j));
    }
  }

  function Mask(i: nat): bv8
    requires i < 8
  {
    if i == 0 then 1 else if i == 1 then 2 else if i == 2 then 4 else if i == 3 then 8
    else if i == 4 then 16 else if i == 5 then 32 else if i == 6 then 64 else 128
  }

  predicate BitAt(v: bv8, i: nat)
    requires i < 8
  {
    v & Mask(i) != 0
  }

  /** Whether bits `i`, `i + 4`, `i + 5`, `i + 6` and `i + 7` of `y`, counted round,
      and bit `i` of 0x63 have an odd number of ones. */
  predicate OddAt(y: bv8, i: nat)
    requires i < 8
  {
    BitAt(y, i) != (BitAt(y, (i + 4) % 8)
                    != (BitAt(y, (i + 5) % 8) != (BitAt(y, (i + 6) % 8) != (BitAt(y, (i + 7) % 8) != BitAt(0x63, i)))))
  }

  /** Bit `i` of `v` by the affine transformation of section 5.1.1 of FIPS 197. */
  predicate AffineBit(y: bv8, v: bv8, i: nat)
    requires i < 8
  {
    BitAt(v, i) == OddAt(y, i)
  }

  predicate IsAffineImage(y: bv8, v: bv8) { forall i :: 0 <= i < 8 ==> AffineBit(y, v, i) }

  /** A byte goes to the affine image of its inverse, and 0 to that of 0. */
  ghost predicate Substitutes(v: bv8, w: bv8) {
    exists y: bv8 :: (if v == 0 then y == 0 else Times(v, y) == 1) && IsAffineImage(y, w)
  }

  ghost predicate IsStandard(box: seq<Byte>) {
    |box| == 256 && forall x: Byte :: Substitutes(Bv(x), Bv(box[x]))
  }

  lemma AffineBit0(y: bv8)
    ensures AffineBit(y, Affine(y), 0)
  {
    assert (Affine(y) & 1 != 0)
        == ((y & 1 != 0) != ((y & 16 != 0) != ((y & 32 != 0) != ((y & 64 != 0) != ((y & 128 != 0) != true)))));
    hide Affine;
    assert BitAt(0x63, 0) == true;
  }

  lemma AffineBit1(y: bv8)
    ensures AffineBit(y, Affine(y), 1)
  {
    assert (Affine(y) & 2 != 0)
        == ((y & 2 != 0) != ((y & 32 != 0) != ((y & 64 != 0) != ((y & 128 != 0) != ((y & 1 != 0) != true)))));
    hide Affine;
    assert BitAt(0x63, 1) == true;
  }

  lemma AffineBit2(y: bv8)
    ensures AffineBit(y, Affine(y), 2)
  {
    assert (Affine(y) & 4 != 0)
        == ((y & 4 != 0) != ((y & 64 != 0) != ((y & 128 != 0) != ((y & 1 != 0) != ((y & 2 != 0) != false)))));
    hide Affine;
    assert BitAt(0x63, 2) == false;
  }

  lemma AffineBit3(y: bv8)
    ensures AffineBit(y, Affine(y), 3)
  {
    assert (Affine(y) & 8 != 0)
        == ((y & 8 != 0) != ((y & 128 != 0) != ((y & 1 != 0) != ((y & 2 != 0) != ((y & 4 != 0) != false)))));
    hide Affine;
    assert BitAt(0x63, 3) == false;
  }

  lemma AffineBit4(y: bv8)
    ensures AffineBit(y, Affine(y), 4)
  {
    assert (Affine(y) & 16 != 0)
        == ((y & 16 != 0) != ((y & 1 != 0) != ((y & 2 != 0) != ((y & 4 != 0) != ((y & 8 != 0) != false)))));
    hide Affine;
    assert BitAt(0x63, 4) == false;
  }

  lemma AffineBit5(y: bv8)
    ensures AffineBit(y, Affine(y), 5)
  {
    assert (Affine(y) & 32 != 0)
        == ((y & 32 != 0) != ((y & 2 != 0) != ((y & 4 != 0) != ((y & 8 != 0) != ((y & 16 != 0) != true)))));
    hide Affine;
    assert BitAt(0x63, 5) == true;
  }

  lemma AffineBit6(y: bv8)
    ensures AffineBit(y, Affine(y), 6)
  {
    assert (Affine(y) & 64 != 0)
        == ((y & 64 != 0) != ((y & 4 != 0) != ((y & 8 != 0) != ((y & 16 != 0) != ((y & 32 != 0) != true)))));
    hide Affine;
    assert BitAt(0x63, 6) == true;
  }

  lemma AffineBit7(y: bv8)
    ensures AffineBit(y, Affine(y), 7)
  {
    assert (Affine(y) & 128 != 0)
        == ((y & 128 != 0) != ((y & 8 != 0) != ((y & 16 != 0) != ((y & 32 != 0) != ((y & 64 != 0) != false)))));
    hide Affine;
    assert BitAt(0x63, 7) == false;
  }

  lemma AffineBits(y: bv8)
    ensures IsAffineImage(y, Affine(y))
  {
    hide Affine, AffineBit;
    AffineBit0(y);
    AffineBit1(y);
    AffineBit2(y);
    AffineBit3(y);
    AffineBit4(y);
    AffineBit5(y);
    AffineBit6(y);
    AffineBit7(y);
  }

  lemma TableIsStandard(box: seq<Byte>)
    requires HoldsPowers(box, 255) && box[0] == 0x63
    ensures IsStandard(box)
  {
    hide Power, Affine, Num, Bv, Times, IsAffineImage;
    forall x: Byte
      ensures Substitutes(Bv(x), Bv(box[x]))
    {
      EntryIsStandard(box, x);
    }
  }

  lemma EntryIsStandard(box: seq<Byte>, x: Byte)
    requires HoldsPowers(box, 255) && box[0] == 0x63
    ensures Substitutes(Bv(x), Bv(box[x]))
  {
    hide Power, Affine, Num, Bv, Times, IsAffineImage;
    NumOfBv(x);
    NumOfBv(0);
    LandmarkPowers();
    if x == 0 {
      AffineInjective(0, 0);
      AffineBits(0);
      SixtyThree();
      BvOfNum(0x63);
      ZeroByte();
    } else {
      var i := ExponentOf(x);
      var y := Power(255 - i);
      PowersMultiply(i, 255 - i);
      BvOfNum(Affine(y));
      BvOfNum(Power(i));
      AffineBits(y);
      NeverZero(i);
    }
  }

  lemma ZeroByte()
    ensures Bv(0) == 0
  {
  }

  /** `_sbox`. */
  method Sbox() returns (box: seq<Byte>)
    ensures IsBijection(box) && IsStandard(box)
  {
    box := Walk();
    FullTable(box, box[0 := 0x63]);
    TableIsStandard(box[0 := 0x63]);
    box := box[0 := 0x63];
  }

  /** The loop of `_sbox`: both walks run until the first is back at 1. */
  method Walk() returns (box: seq<Byte>)
    ensures HoldsPowers(box, 255)
  {
    box := seq(256, _ => 0);
    var p: bv8, q: bv8 := 1, 1;
    ghost var k := 0;
    hide *;
    WalkStart(box);
    while true
      invariant |box| == 256
      invariant k < 255 && OnWalk(p, q, k)
      invariant HoldsPowers(box, k)
      decreases 255 - k
    {
      var x;
      NextEntry(box, k);
      WalkStep(p, q, k);
      p, q, x := Turn(p, q);
      box := box[Num(p) := Num(x)];
      k := k + 1;
      if p == 1 {
        break;
      }
    }
  }

  /** The arithmetic of one turn: `p` times 3, `q` over 3, and the table entry. */
  method Turn(p0: bv8, q0: bv8) returns (p: bv8, q: bv8, entry: bv8)
    ensures p == Triple(p0) && q == Third(q0) && entry == Affine(q)
  {
    p, q := p0, q0;
    p := p ^ (p << 1) ^ (if p & 0x80 != 0 then 0x1B else 0);
    q := q ^ (q << 1);
    q := q ^ (q << 2);
    q := q ^ (q << 4);
    if q & 0x80 != 0 {
      q := q ^ 0x09;
    }
    var x := q ^ ((q << 1) | (q >> 7)) ^ ((q << 2) | (q >> 6)) ^ ((q << 3) | (q >> 5)) ^ ((q << 4) | (q >> 4));
    entry := x ^ 0x63;
  }
}
