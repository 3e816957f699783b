/** The AES block cipher (`_encrypt_block`, `_expand_key`) and its inverse
    (section 5.3 of FIPS 197), over the substitution table built by `_sbox`. */
module AesCipher {
  import opened Nums
  import opened AesSbox
  import opened AesColumns

  type Block = s: seq<Byte> | |s| == 16 witness seq(16, _ => 0)

  // ------------------------------------------------------------ the four steps

  function ColumnAt(s: Block, c: nat): Column
    requires c < 4
  {
    Column(Bv(s[4 * c]), Bv(s[4 * c + 1]), Bv(s[4 * c + 2]), Bv(s[4 * c + 3]))
  }

  function ColumnBytes(c: Column): (bytes: seq<Byte>)
    ensures |bytes| == 4
  {
    [Num(c.a0), Num(c.a1), Num(c.a2), Num(c.a3)]
  }

  function FromColumns(c0: Column, c1: Column, c2: Column, c3: Column): Block {
    ColumnBytes(c0) + ColumnBytes(c1) + ColumnBytes(c2) + ColumnBytes(c3)
  }

  function MixColumns(s: Block): Block {
    FromColumns(Mix(ColumnAt(s, 0)), Mix(ColumnAt(s, 1)), Mix(ColumnAt(s, 2)), Mix(ColumnAt(s, 3)))
  }

  function UnmixColumns(s: Block): Block {
    FromColumns(Unmix(ColumnAt(s, 0)), Unmix(ColumnAt(s, 1)), Unmix(ColumnAt(s, 2)), Unmix(ColumnAt(s, 3)))
  }

  lemma ColumnsOf(c0: Column, c1: Column, c2: Column, c3: Column)
    ensures var s := FromColumns(c0, c1, c2, c3);
            ColumnAt(s, 0) == c0 && ColumnAt(s, 1) == c1 && ColumnAt(s, 2) == c2 && ColumnAt(s, 3) == c3
  {
    hide Bv, Num;
    BytesOfColumn(c0);
    BytesOfColumn(c1);
    BytesOfColumn(c2);
    BytesOfColumn(c3);
  }

  lemma BytesOfColumn(c: Column)
    ensures Bv(Num(c.a0)) == c.a0 && Bv(Num(c.a1)) == c.a1 && Bv(Num(c.a2)) == c.a2 && Bv(Num(c.a3)) == c.a3
  {
    hide Bv, Num;
    BvOfNum(c.a0);
    BvOfNum(c.a1);
    BvOfNum(c.a2);
    BvOfNum(c.a3);
  }

  lemma ColumnBack(s: Block, c: nat)
    requires c < 4
    ensures ColumnBytes(ColumnAt(s, c)) == s[4 * c..4 * c + 4]
  {
    hide Bv, Num;
    NumOfBv(s[4 * c]);
    NumOfBv(s[4 * c + 1]);
    NumOfBv(s[4 * c + 2]);
    NumOfBv(s[4 * c + 3]);
  }

  lemma ColumnsBack(s: Block)
    ensures FromColumns(ColumnAt(s, 0), ColumnAt(s, 1), ColumnAt(s, 2), ColumnAt(s, 3)) == s
  {
    hide ColumnBytes, ColumnAt;
    ColumnBack(s, 0);
    ColumnBack(s, 1);
    ColumnBack(s, 2);
    ColumnBack(s, 3);
    assert s[0..4] + s[4..8] + s[8..12] + s[12..16] == s;
  }

  lemma UnmixColumnsInverts(s: Block)
    ensures UnmixColumns(MixColumns(s)) == s
  {
    hide Mix, Unmix, ColumnAt, FromColumns;
    ColumnsOf(Mix(ColumnAt(s, 0)), Mix(ColumnAt(s, 1)), Mix(ColumnAt(s, 2)), Mix(ColumnAt(s, 3)));
    UnmixInvertsMix(ColumnAt(s, 0));
    UnmixInvertsMix(ColumnAt(s, 1));
    UnmixInvertsMix(ColumnAt(s, 2));
    UnmixInvertsMix(ColumnAt(s, 3));
    ColumnsBack(s);
  }

  function ShiftRows(s: Block): Block {
    seq(16, i requires 0 <= i < 16 => s[(i + 4 * (i % 4)) % 16])
  }

  function UnshiftRows(s: Block): Block {
    seq(16, i requires 0 <= i < 16 => s[(i + 12 * (i % 4)) % 16])
  }

  function AddRoundKey(s: Block, key: Block): Block {
    seq(16, i requires 0 <= i < 16 => Xor(s[i], key[i]))
  }

  function SubBytes(box: seq<Byte>, s: Block): Block
    requires |box| == 256
  {
    seq(16, i requires 0 <= i < 16 => box[s[i]])
  }

  /** The place of a value in the table, counted from `from`; 0 if there is none. */
  function PlaceFrom(box: seq<Byte>, v: Byte, from: nat): Byte
    requires |box| == 256 && from <= 256
    decreases 256 - from
  {
    if from == 256 then 0 else if box[from] == v then from else PlaceFrom(box, v, from + 1)
  }

  lemma {:induction false} PlaceFound(box: seq<Byte>, b: Byte, from: nat)
    requires IsBijection(box) && from <= b
    ensures PlaceFrom(box, box[b], from) == b
    decreases 256 - from
  {
    if from < b {
      PlaceFound(box, b, from + 1);
    }
  }

  function UnsubBytes(box: seq<Byte>, s: Block): Block
    requires |box| == 256
  {
    seq(16, i requires 0 <= i < 16 => PlaceFrom(box, s[i], 0))
  }

  lemma UnsubBytesInverts(box: seq<Byte>, s: Block)
    requires IsBijection(box)
    ensures UnsubBytes(box, SubBytes(box, s)) == s
  {
    forall i | 0 <= i < 16
      ensures PlaceFrom(box, box[s[i]], 0) == s[i]
    {
      PlaceFound(box, s[i], 0);
    }
  }

  /** Row `i % 4` moves by that many columns, then by the rest of the four. */
  lemma ShiftedBack(i: nat)
    requires i < 16
    ensures var j := (i + 12 * (i % 4)) % 16; (j + 4 * (j % 4)) % 16 == i
  {
    var k, c := i / 4, i % 4;
    assert i == 4 * k + c && k < 4;
    if c == 0 {
    } else if c == 1 {
      assert (i + 12) % 16 == if k == 0 then i + 12 else i - 4;
    } else if c == 2 {
      assert (i + 24) % 16 == if k < 2 then i + 8 else i - 8;
    } else {
      assert (i + 36) % 16 == if k < 3 then i + 4 else i - 12;
    }
  }

  lemma UnshiftRowsInverts(s: Block)
    ensures UnshiftRows(ShiftRows(s)) == s
  {
    forall i | 0 <= i < 16
      ensures UnshiftRows(ShiftRows(s))[i] == s[i]
    {
      ShiftedBack(i);
    }
  }

  lemma AddRoundKeyTwice(s: Block, key: Block)
    ensures AddRoundKey(AddRoundKey(s, key), key) == s
  {
    hide Xor;
    forall i | 0 <= i < 16
      ensures Xor(Xor(s[i], key[i]), key[i]) == s[i]
    {
      XorTwice(s[i], key[i]);
    }
  }

  // ------------------------------------------------------------ the block cipher

  function Round(box: seq<Byte>, s: Block, key: Block, last: bool): Block
    requires |box| == 256
  {
    var shifted := ShiftRows(SubBytes(box, s));
    AddRoundKey(if last then shifted else MixColumns(shifted), key)
  }

  function Unround(box: seq<Byte>, s: Block, key: Block, last: bool): Block
    requires |box| == 256
  {
    var shifted := AddRoundKey(s, key);
    UnsubBytes(box, UnshiftRows(if last then shifted else UnmixColumns(shifted)))
  }

  lemma UnroundInverts(box: seq<Byte>, s: Block, key: Block, last: bool)
    requires IsBijection(box)
    ensures Unround(box, Round(box, s, key, last), key, last) == s
  {
    hide SubBytes, ShiftRows, MixColumns, AddRoundKey, UnsubBytes, UnshiftRows, UnmixColumns;
    var shifted := ShiftRows(SubBytes(box, s));
    AddRoundKeyTwice(if last then shifted else MixColumns(shifted), key);
    UnmixColumnsInverts(shifted);
    UnshiftRowsInverts(SubBytes(box, s));
    UnsubBytesInverts(box, s);
  }

  /** The state after `r` rounds of encryption. */
  function Encrypted(box: seq<Byte>, keys: seq<Block>, block: Block, r: nat): Block
    requires |box| == 256 && r < |keys|
  {
    if r == 0 then AddRoundKey(block, keys[0])
    else Round(box, Encrypted(box, keys, block, r - 1), keys[r], r == |keys| - 1)
  }

  function Cipher(box: seq<Byte>, keys: seq<Block>, block: Block): Block
    requires |box| == 256 && keys != []
  {
    Encrypted(box, keys, block, |keys| - 1)
  }

  /** The block that `r` rounds took to `s`. */
  function Decrypted(box: seq<Byte>, keys: seq<Block>, s: Block, r: nat): Block
    requires |box| == 256 && r < |keys|
    decreases r
  {
    hide Unround, AddRoundKey;
    if r == 0 then AddRoundKey(s, keys[0])
    else Decrypted(box, keys, Unround(box, s, keys[r], r == |keys| - 1), r - 1)
  }

  function InverseCipher(box: seq<Byte>, keys: seq<Block>, s: Block): Block
    requires |box| == 256 && keys != []
  {
    Decrypted(box, keys, s, |keys| - 1)
  }

  lemma {:induction false} DecryptedInvertsEncrypted(box: seq<Byte>, keys: seq<Block>, block: Block, r: nat)
    requires IsBijection(box) && r < |keys|
    ensures Decrypted(box, keys, Encrypted(box, keys, block, r), r) == block
    decreases r
  {
    hide Round, Unround, AddRoundKey;
    if r == 0 {
      AddRoundKeyTwice(block, keys[0]);
    } else {
      UnroundInverts(box, Encrypted(box, keys, block, r - 1), keys[r], r == |keys| - 1);
      DecryptedInvertsEncrypted(box, keys, block, r - 1);
    }
  }

  lemma CipherInverted(box: seq<Byte>, keys: seq<Block>, block: Block)
    requires IsBijection(box) && keys != []
    ensures InverseCipher(box, keys, Cipher(box, keys, block)) == block
  {
    DecryptedInvertsEncrypted(box, keys, block, |keys| - 1);
  }

  /** `_encrypt_block`. */
  method EncryptBlock(box: seq<Byte>, keys: seq<Block>, block: Block) returns (s: Block)
    requires |box| == 256 && keys != []
    ensures s == Cipher(box, keys, block)
  {
    hide Round, AddRoundKey;
    s := AddRoundKey(block, keys[0]);
    var last := |keys| - 1;
    for r := 1 to last + 1
      invariant s == Encrypted(box, keys, block, r - 1)
    {
      s := Round(box, s, keys[r], r == last);
    }
  }
}
