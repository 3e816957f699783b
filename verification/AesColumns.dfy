/** MixColumns and its inverse, on one column (sections 5.1.3 and 5.3.3 of
    FIPS 197). Both are additive, so it is enough to see one byte at a time. */
module AesColumns {
  datatype Column = Column(a0: bv8, a1: bv8, a2: bv8, a3: bv8)

  function Add(a: bv8, b: bv8): bv8 { a ^ b }

  /** `_xtime`: multiplication by 2. */
  function Xtime(a: bv8): bv8 {
    if a & 0x80 != 0 then (a << 1) ^ 0x1B else a << 1
  }

  function MixRow(a: bv8, b: bv8, t: bv8): bv8 { Add(Add(a, t), Xtime(Add(a, b))) }

  function Mix(c: Column): Column {
    var t := Add(Add(Add(c.a0, c.a1), c.a2), c.a3);
    Column(MixRow(c.a0, c.a1, t), MixRow(c.a1, c.a2, t), MixRow(c.a2, c.a3, t), MixRow(c.a3, c.a0, t))
  }

  function Times9(a: bv8): bv8 { Add(Xtime(Xtime(Xtime(a))), a) }
  function Times11(a: bv8): bv8 { Add(Add(Xtime(Xtime(Xtime(a))), Xtime(a)), a) }
  function Times13(a: bv8): bv8 { Add(Add(Xtime(Xtime(Xtime(a))), Xtime(Xtime(a))), a) }
  function Times14(a: bv8): bv8 { Add(Add(Xtime(Xtime(Xtime(a))), Xtime(Xtime(a))), Xtime(a)) }

  /** One row of InvMixColumns. */
  function UnmixRow(a: bv8, b: bv8, c: bv8, d: bv8): bv8 {
    Add(Add(Times14(a), Times11(b)), Add(Times13(c), Times9(d)))
  }

  function Unmix(c: Column): Column {
    Column(UnmixRow(c.a0, c.a1, c.a2, c.a3), UnmixRow(c.a1, c.a2, c.a3, c.a0),
           UnmixRow(c.a2, c.a3, c.a0, c.a1), UnmixRow(c.a3, c.a0, c.a1, c.a2))
  }

  // ------------------------------------------------------------ additivity

  predicate Sum(x: bv8, y: bv8, z: bv8) { x == y ^ z }

  predicate ColumnSum(x: Column, y: Column, z: Column) {
    Sum(x.a0, y.a0, z.a0) && Sum(x.a1, y.a1, z.a1) && Sum(x.a2, y.a2, z.a2) && Sum(x.a3, y.a3, z.a3)
  }

  lemma AddSum(x: bv8, y: bv8, z: bv8, x': bv8, y': bv8, z': bv8)
    requires Sum(x, y, z) && Sum(x', y', z')
    ensures Sum(Add(x, x'), Add(y, y'), Add(z, z'))
  {
  }

  lemma XtimeSum(x: bv8, y: bv8, z: bv8)
    requires Sum(x, y, z)
    ensures Sum(Xtime(x), Xtime(y), Xtime(z))
  {
    XtimeShifts(x);
    XtimeShifts(y);
    XtimeShifts(z);
  }

  lemma XtimeShifts(a: bv8)
    ensures Xtime(a) == (a << 1) ^ (a >> 7) ^ ((a >> 7) << 1) ^ ((a >> 7) << 3) ^ ((a >> 7) << 4)
  {
  }

  lemma MixRowSum(a: bv8, b: bv8, t: bv8, a': bv8, b': bv8, t': bv8, a'': bv8, b'': bv8, t'': bv8)
    requires Sum(a, a', a'') && Sum(b, b', b'') && Sum(t, t', t'')
    ensures Sum(MixRow(a, b, t), MixRow(a', b', t'), MixRow(a'', b'', t''))
  {
    hide Add, Xtime, Sum;
    AddSum(a, a', a'', t, t', t'');
    AddSum(a, a', a'', b, b', b'');
    XtimeSum(Add(a, b), Add(a', b'), Add(a'', b''));
    AddSum(Add(a, t), Add(a', t'), Add(a'', t''), Xtime(Add(a, b)), Xtime(Add(a', b')), Xtime(Add(a'', b'')));
  }

  lemma MixSum(x: Column, y: Column, z: Column)
    requires ColumnSum(x, y, z)
    ensures ColumnSum(Mix(x), Mix(y), Mix(z))
  {
    hide Add, MixRow, Sum;
    var x1, y1, z1 := Add(x.a0, x.a1), Add(y.a0, y.a1), Add(z.a0, z.a1);
    var x2, y2, z2 := Add(x1, x.a2), Add(y1, y.a2), Add(z1, z.a2);
    var x3, y3, z3 := Add(x2, x.a3), Add(y2, y.a3), Add(z2, z.a3);
    AddSum(x.a0, y.a0, z.a0, x.a1, y.a1, z.a1);
    AddSum(x1, y1, z1, x.a2, y.a2, z.a2);
    AddSum(x2, y2, z2, x.a3, y.a3, z.a3);
    MixRowSum(x.a0, x.a1, x3, y.a0, y.a1, y3, z.a0, z.a1, z3);
    MixRowSum(x.a1, x.a2, x3, y.a1, y.a2, y3, z.a1, z.a2, z3);
    MixRowSum(x.a2, x.a3, x3, y.a2, y.a3, y3, z.a2, z.a3, z3);
    MixRowSum(x.a3, x.a0, x3, y.a3, y.a0, y3, z.a3, z.a0, z3);
  }

  lemma XtimesSum(x: bv8, y: bv8, z: bv8)
    requires Sum(x, y, z)
    ensures Sum(Xtime(x), Xtime(y), Xtime(z))
    ensures Sum(Xtime(Xtime(x)), Xtime(Xtime(y)), Xtime(Xtime(z)))
    ensures Sum(Xtime(Xtime(Xtime(x))), Xtime(Xtime(Xtime(y))), Xtime(Xtime(Xtime(z))))
  {
    hide Xtime, Sum;
    XtimeSum(x, y, z);
    XtimeSum(Xtime(x), Xtime(y), Xtime(z));
    XtimeSum(Xtime(Xtime(x)), Xtime(Xtime(y)), Xtime(Xtime(z)));
  }

  lemma TimesSum(x: bv8, y: bv8, z: bv8)
    requires Sum(x, y, z)
    ensures Sum(Times9(x), Times9(y), Times9(z)) && Sum(Times11(x), Times11(y), Times11(z))
    ensures Sum(Times13(x), Times13(y), Times13(z)) && Sum(Times14(x), Times14(y), Times14(z))
  {
    hide Add, Xtime, Sum;
    XtimesSum(x, y, z);
    var x2, y2, z2 := Xtime(x), Xtime(y), Xtime(z);
    var x4, y4, z4 := Xtime(x2), Xtime(y2), Xtime(z2);
    var x8, y8, z8 := Xtime(x4), Xtime(y4), Xtime(z4);
    AddSum(x8, y8, z8, x, y, z);
    AddSum(x8, y8, z8, x2, y2, z2);
    AddSum(Add(x8, x2), Add(y8, y2), Add(z8, z2), x, y, z);
    AddSum(x8, y8, z8, x4, y4, z4);
    AddSum(Add(x8, x4), Add(y8, y4), Add(z8, z4), x, y, z);
    AddSum(Add(x8, x4), Add(y8, y4), Add(z8, z4), x2, y2, z2);
  }

  lemma UnmixRowSum(x: Column, y: Column, z: Column)
    requires ColumnSum(x, y, z)
    ensures Sum(UnmixRow(x.a0, x.a1, x.a2, x.a3), UnmixRow(y.a0, y.a1, y.a2, y.a3), UnmixRow(z.a0, z.a1, z.a2, z.a3))
  {
    hide Add, Sum, Times9, Times11, Times13, Times14;
    TimesSum(x.a0, y.a0, z.a0);
    TimesSum(x.a1, y.a1, z.a1);
    TimesSum(x.a2, y.a2, z.a2);
    TimesSum(x.a3, y.a3, z.a3);
    AddSum(Times14(x.a0), Times14(y.a0), Times14(z.a0), Times11(x.a1), Times11(y.a1), Times11(z.a1));
    AddSum(Times13(x.a2), Times13(y.a2), Times13(z.a2), Times9(x.a3), Times9(y.a3), Times9(z.a3));
    AddSum(Add(Times14(x.a0), Times11(x.a1)), Add(Times14(y.a0), Times11(y.a1)), Add(Times14(z.a0), Times11(z.a1)),
           Add(Times13(x.a2), Times9(x.a3)), Add(Times13(y.a2), Times9(y.a3)), Add(Times13(z.a2), Times9(z.a3)));
  }

  function Rotate(c: Column): Column { Column(c.a1, c.a2, c.a3, c.a0) }

  lemma UnmixSum(x: Column, y: Column, z: Column)
    requires ColumnSum(x, y, z)
    ensures ColumnSum(Unmix(x), Unmix(y), Unmix(z))
  {
    hide Sum, UnmixRow;
    var x1, y1, z1 := Rotate(x), Rotate(y), Rotate(z);
    var x2, y2, z2 := Rotate(x1), Rotate(y1), Rotate(z1);
    UnmixRowSum(x, y, z);
    UnmixRowSum(x1, y1, z1);
    UnmixRowSum(x2, y2, z2);
    UnmixRowSum(Rotate(x2), Rotate(y2), Rotate(z2));
  }

  // ------------------------------------------------------------ one byte at a time

  lemma FirstByte(a: bv8) ensures Unmix(Mix(Column(a, 0, 0, 0))) == Column(a, 0, 0, 0) {}
  lemma SecondByte(a: bv8) ensures Unmix(Mix(Column(0, a, 0, 0))) == Column(0, a, 0, 0) {}
  lemma ThirdByte(a: bv8) ensures Unmix(Mix(Column(0, 0, a, 0))) == Column(0, 0, a, 0) {}
  lemma FourthByte(a: bv8) ensures Unmix(Mix(Column(0, 0, 0, a))) == Column(0, 0, 0, a) {}

  /** If both parts come back, so does their sum. */
  lemma PartsUnmixed(x: Column, y: Column, z: Column)
    requires ColumnSum(x, y, z) && Unmix(Mix(y)) == y && Unmix(Mix(z)) == z
    ensures Unmix(Mix(x)) == x
  {
    hide Mix, Unmix;
    MixSum(x, y, z);
    UnmixSum(Mix(x), Mix(y), Mix(z));
  }

  lemma WithZeros(a: bv8, b: bv8, c: bv8, d: bv8)
    ensures ColumnSum(Column(a, b, 0, 0), Column(a, 0, 0, 0), Column(0, b, 0, 0))
    ensures ColumnSum(Column(0, 0, c, d), Column(0, 0, c, 0), Column(0, 0, 0, d))
    ensures ColumnSum(Column(a, b, c, d), Column(a, b, 0, 0), Column(0, 0, c, d))
  {
    hide Sum;
    ZeroSum(a);
    ZeroSum(b);
    ZeroSum(c);
    ZeroSum(d);
  }

  lemma ZeroSum(a: bv8)
    ensures Sum(a, a, 0) && Sum(a, 0, a) && Sum(0, 0, 0)
  {
  }

  lemma UnmixInvertsMix(c: Column)
    ensures Unmix(Mix(c)) == c
  {
    hide *;
    WithZeros(c.a0, c.a1, c.a2, c.a3);
    FirstByte(c.a0);
    SecondByte(c.a1);
    ThirdByte(c.a2);
    FourthByte(c.a3);
    PartsUnmixed(Column(c.a0, c.a1, 0, 0), Column(c.a0, 0, 0, 0), Column(0, c.a1, 0, 0));
    PartsUnmixed(Column(0, 0, c.a2, c.a3), Column(0, 0, c.a2, 0), Column(0, 0, 0, c.a3));
    PartsUnmixed(c, Column(c.a0, c.a1, 0, 0), Column(0, 0, c.a2, c.a3));
  }
}
