/** The entropy coder of the flat-block baseline JPEG writer, against a decoder
    that follows annexes B, C and F of ITU-T T.81. */
module JpegEntropy {
  import opened Nums

  // ------------------------------------------------------------ byte stuffing

  /** What a byte becomes inside a scan: 0xFF is followed by 0x00. */
  function Stuffed(b: Byte): seq<Byte> {
    if b == 0xFF then [0xFF, 0x00] else [b]
  }

  function Stuff(bytes: seq<Byte>): seq<Byte> {
    if bytes == [] then [] else Stuffed(bytes[0]) + Stuff(bytes[1..])
  }

  lemma {:induction false} StuffAppend(a: seq<Byte>, b: seq<Byte>)
    ensures Stuff(a + b) == Stuff(a) + Stuff(b)
  {
    if a == [] {
      assert a + b == b;
    } else {
      StuffAppend(a[1..], b);
      assert (a + b)[1..] == a[1..] + b;
    }
  }

  /** Reads scan bytes up to the marker that ends them, and undoes the stuffing
      (section F.1.2.3). The second component starts at the marker. */
  function Unstuff(bytes: seq<Byte>): Option<(seq<Byte>, seq<Byte>)> {
    if bytes == [] then None
    else if bytes[0] != 0xFF then
      match Unstuff(bytes[1..])
      case None => None
      case Some((data, rest)) => Some(([bytes[0]] + data, rest))
    else if |bytes| == 1 then None
    else if bytes[1] != 0 then Some(([], bytes))
    else
      match Unstuff(bytes[2..])
      case None => None
      case Some((data, rest)) => Some(([0xFF] + data, rest))
  }

  lemma {:induction false} UnstuffInvertsStuff(data: seq<Byte>, rest: seq<Byte>)
    requires |rest| >= 2 && rest[0] == 0xFF && rest[1] != 0
    ensures Unstuff(Stuff(data) + rest) == Some((data, rest))
  {
    if data == [] {
      assert Stuff(data) + rest == rest;
    } else {
      var tail := Stuff(data[1..]) + rest;
      UnstuffInvertsStuff(data[1..], rest);
      assert Stuff(data) + rest == Stuffed(data[0]) + tail;
      assert (Stuffed(data[0]) + tail)[|Stuffed(data[0])|..] == tail;
      assert data == [data[0]] + data[1..];
    }
  }

  /** Every 0xFF of the scan is followed by 0x00, so no marker appears in it. */
  lemma {:induction false} NoMarkerInScan(data: seq<Byte>, i: nat)
    requires i < |Stuff(data)| && Stuff(data)[i] == 0xFF
    ensures i + 1 < |Stuff(data)| && Stuff(data)[i + 1] == 0
  {
    var head := Stuffed(data[0]);
    if i >= |head| {
      NoMarkerInScan(data[1..], i - |head|);
    }
  }

  // ------------------------------------------------------------ the bit writer

  /** One bit shifted into the accumulator, and the byte it completes. */
  lemma ShiftIn(data: seq<Byte>, acc: nat, n: nat, bit: nat)
    requires n < 8 && acc < Pow2(n) && bit < 2
    ensures 2 * acc + bit < Pow2(n + 1)
    ensures BytesToBits(data) + Field(2 * acc + bit, n + 1)
         == BytesToBits(data) + Field(acc, n) + [bit == 1]
    ensures n == 7 ==>
      && 2 * acc + bit < 256
      && Stuff(data + [2 * acc + bit]) == Stuff(data) + Stuffed(2 * acc + bit)
      && BytesToBits(data + [2 * acc + bit]) + Field(0, 0)
         == BytesToBits(data) + Field(acc, n) + [bit == 1]
  {
    FieldSnoc(acc, bit, n);
    if n == 7 {
      assert Pow2(8) == 256;
      var full := [2 * acc + bit];
      StuffAppend(data, full);
      assert Stuff(full) == Stuffed(full[0]);
      BytesToBitsAppend(data, full);
      assert BytesToBits(full) == Field(full[0], 8);
    }
  }

  /** `_Bits`: an accumulator of fewer than eight bits and the bytes before it. */
  class Bits {
    var out: seq<Byte>
    var acc: nat
    var n: nat
    ghost var data: seq<Byte>  // `out` before stuffing

    ghost predicate Valid()
      reads this
    {
      n < 8 && acc < Pow2(n) && out == Stuff(data)
    }

    /** Every bit put so far, in order. */
    ghost function Written(): seq<bool>
      reads this
    {
      BytesToBits(data) + Field(acc, n)
    }

    constructor ()
      ensures Valid() && Written() == []
    {
      out, acc, n, data := [], 0, 0, [];
    }

    /** The body of the writer's loop: one bit in, a whole byte out when it is full. */
    method PutBit(bit: nat)
      requires Valid() && bit < 2
      modifies this
      ensures Valid() && Written() == old(Written()) + [bit == 1]
    {
      ShiftIn(data, acc, n, bit);
      acc, n := 2 * acc + bit, n + 1;
      if n == 8 {
        out := out + [acc];
        if acc == 0xFF {
          out := out + [0x00];
        }
        data := data + [acc];
        acc, n := 0, 0;
      }
    }

    method Put(value: nat, length: nat)
      requires Valid()
      modifies this
      ensures Valid() && Written() == old(Written()) + Field(value, length)
    {
      var i := length;
      while i > 0
        invariant 0 <= i <= length
        invariant Valid()
        invariant Written() + Field(value, i) == old(Written()) + Field(value, length)
      {
        i := i - 1;
        var bit := Digit(value, i);
        ghost var before := Written();
        PutBit(bit);
        assert Field(value, i + 1) == [bit == 1] + Field(value, i);
        assert before + [bit == 1] + Field(value, i) == before + ([bit == 1] + Field(value, i));
      }
    }

    /** Pads the last byte with one-bits; `padding` has fewer than eight of them. */
    method Flush() returns (bytes: seq<Byte>, ghost padding: seq<bool>)
      requires Valid()
      modifies this
      ensures Valid() && bytes == Stuff(data)
      ensures BytesToBits(data) == old(Written()) + padding
      ensures |padding| < 8 && AllSet(padding)
    {
      padding := [];
      if n != 0 {
        var k := 8 - n;
        padding := Field(Pow2(k) - 1, k);
        AllOnes(k);
        ghost var before := data;
        Put(Pow2(k) - 1, k);
        WholeBytes(before, data, n, |Written()|);
      }
      bytes := out;
    }
  }

  lemma WholeBytes(d: seq<Byte>, d': seq<Byte>, n': nat, total: nat)
    requires n' < 8 && total == |BytesToBits(d)| + 8
    requires total == |BytesToBits(d')| + n'
    ensures n' == 0
  {
    BytesToBitsLength(d);
    BytesToBitsLength(d');
  }

  predicate AllSet(bits: seq<bool>) {
    forall i :: 0 <= i < |bits| ==> bits[i]
  }

  lemma {:induction false} AllOnes(k: nat)
    ensures AllSet(Field(Pow2(k) - 1, k))
  {
    if k > 0 {
      AllOnes(k - 1);
      assert Pow2(k) - 1 == 2 * (Pow2(k - 1) - 1) + 1;
      FieldSnoc(Pow2(k - 1) - 1, 1, k - 1);
    }
  }
}
