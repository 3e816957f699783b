/** AES in CBC mode with block padding (`_expand_key`, `aes_cbc`), undone block
    by block (section 6.2 of NIST SP 800-38A). */
module AesCbc {
  import opened Nums
  import opened AesSbox
  import opened AesColumns
  import opened AesCipher

  // ------------------------------------------------------------ the key schedule

  type Word = w: seq<Byte> | |w| == 4 witness [0, 0, 0, 0]

  function XorWords(a: Word, b: Word): Word {
    [Xor(a[0], b[0]), Xor(a[1], b[1]), Xor(a[2], b[2]), Xor(a[3], b[3])]
  }

  function SubWord(box: seq<Byte>, w: Word): Word
    requires |box| == 256
  {
    [box[w[0]], box[w[1]], box[w[2]], box[w[3]]]
  }

  function RotWord(w: Word): Word {
    [w[1], w[2], w[3], w[0]]
  }

  /** The round constant: 2 to the power k - 1 in GF(2^8). */
  function Rcon(k: nat): bv8 {
    if k <= 1 then 1 else Xtime(Rcon(k - 1))
  }

  /** The word XORed into word `i - nk` (section 5.2 of FIPS 197). */
  function Temp(box: seq<Byte>, previous: Word, nk: nat, i: nat): Word
    requires |box| == 256 && nk > 0
  {
    if i % nk == 0 then XorWords(SubWord(box, RotWord(previous)), [Num(Rcon(i / nk)), 0, 0, 0])
    else if nk > 6 && i % nk == 4 then SubWord(box, previous)
    else previous
  }

  predicate IsKey(key: seq<Byte>) { |key| == 16 || |key| == 24 || |key| == 32 }

  /** The first `n` words of the key schedule. */
  function Schedule(box: seq<Byte>, key: seq<Byte>, n: nat): (words: seq<Word>)
    requires |box| == 256 && IsKey(key)
    ensures |words| == n
  {
    if n == 0 then []
    else
      var words := Schedule(box, key, n - 1);
      var i, nk := n - 1, |key| / 4;
      words + [if i < nk then key[4 * i..4 * i + 4]
               else XorWords(words[i - nk], Temp(box, words[i - 1], nk, i))]
  }

  function Grouped(words: seq<Word>, r: nat): Block
    requires 4 * r + 3 < |words|
  {
    var w0: seq<Byte>, w1: seq<Byte> := words[4 * r], words[4 * r + 1];
    var w2: seq<Byte>, w3: seq<Byte> := words[4 * r + 2], words[4 * r + 3];
    w0 + w1 + w2 + w3
  }

  function RoundKeys(box: seq<Byte>, key: seq<Byte>): (keys: seq<Block>)
    requires |box| == 256 && IsKey(key)
    ensures |keys| == |key| / 4 + 7
  {
    hide Schedule, Grouped;
    var rounds := |key| / 4 + 6;
    var words := Schedule(box, key, 4 * (rounds + 1));
    seq(rounds + 1, r requires 0 <= r <= rounds => Grouped(words, r))
  }

  // ------------------------------------------------------------ the law of the schedule

  /** Byte `b` of word `i`, four words to a round key. */
  function WordByte(keys: seq<Block>, i: nat, b: nat): Byte
    requires i < 4 * |keys| && b < 4
  {
    keys[i / 4][4 * (i % 4) + b]
  }

  const ROUND_CONSTANTS: seq<Byte> := [1, 2, 4, 8, 16, 32, 64, 128, 27, 54]

  /** What is XORed into byte `b` of word `i - nk` to give that of word `i`. */
  function MixedIn(box: seq<Byte>, keys: seq<Block>, nk: nat, i: nat, b: nat): Byte
    requires |box| == 256 && 4 <= nk <= i < 4 * |keys| && b < 4 && i / nk <= 10
  {
    if i % nk == 0 then
      var turned := box[WordByte(keys, i - 1, (b + 1) % 4)];
      if b == 0 then Xor(turned, ROUND_CONSTANTS[i / nk - 1]) else turned
    else if nk > 6 && i % nk == 4 then box[WordByte(keys, i - 1, b)]
    else WordByte(keys, i - 1, b)
  }

  lemma FewRounds(nk: nat, i: nat)
    requires nk in {4, 6, 8} && nk <= i < 4 * (nk + 7)
    ensures 1 <= i / nk <= 10
  {
  }

  predicate ByteFollows(box: seq<Byte>, key: seq<Byte>, keys: seq<Block>, i: nat, b: nat)
    requires |box| == 256 && IsKey(key) && i < 4 * |keys| && b < 4
  {
    var nk := |key| / 4;
    if i < nk then WordByte(keys, i, b) == key[4 * i + b]
    else i / nk <= 10 && WordByte(keys, i, b) == Xor(WordByte(keys, i - nk, b), MixedIn(box, keys, nk, i, b))
  }

  /** Round keys as section 5.2 of FIPS 197 has them: the key first, and every later
      byte from the word `nk` before it and the word before it. */
  ghost predicate IsKeySchedule(box: seq<Byte>, key: seq<Byte>, keys: seq<Block>)
    requires |box| == 256 && IsKey(key)
  {
    |keys| == |key| / 4 + 7
    && forall i, b :: 0 <= i < 4 * |keys| && 0 <= b < 4 ==> ByteFollows(box, key, keys, i, b)
  }

  /** The law leaves no choice. */
  lemma {:induction false} ScheduleIsUnique(box: seq<Byte>, key: seq<Byte>, keys: seq<Block>, other: seq<Block>,
                                            i: nat, b: nat)
    requires |box| == 256 && IsKey(key) && IsKeySchedule(box, key, keys) && IsKeySchedule(box, key, other)
    requires i < 4 * |keys| && b < 4
    ensures WordByte(keys, i, b) == WordByte(other, i, b)
  {
    hide Xor, WordByte;
    var nk := |key| / 4;
    assert ByteFollows(box, key, keys, i, b) && ByteFollows(box, key, other, i, b);
    if i >= nk {
      ScheduleIsUnique(box, key, keys, other, i - nk, b);
      ScheduleIsUnique(box, key, keys, other, i - 1, b);
      ScheduleIsUnique(box, key, keys, other, i - 1, (b + 1) % 4);
    }
  }

  lemma RconValue(k: nat)
    requires 1 <= k <= 10
    ensures Num(Rcon(k)) == ROUND_CONSTANTS[k - 1]
  {
    assert Rcon(1) == 1 && Rcon(2) == 2 && Rcon(3) == 4 && Rcon(4) == 8;
    assert Rcon(5) == 16 && Rcon(6) == 32 && Rcon(7) == 64 && Rcon(8) == 128;
    assert Rcon(9) == 27 && Rcon(10) == 54;
  }

  lemma {:induction false} ScheduleGrows(box: seq<Byte>, key: seq<Byte>, n: nat, m: nat)
    requires |box| == 256 && IsKey(key) && n <= m
    ensures Schedule(box, key, n) == Schedule(box, key, m)[..n]
  {
    hide Temp, XorWords;
    if n < m {
      ScheduleGrows(box, key, n, m - 1);
      var words := Schedule(box, key, m - 1);
      assert Schedule(box, key, m)[..m - 1] == words;
      assert Schedule(box, key, m)[..n] == words[..n];
    }
  }

  /** Word `i` in terms of the words before it. */
  lemma WordIs(box: seq<Byte>, key: seq<Byte>, n: nat, i: nat)
    requires |box| == 256 && IsKey(key) && i < n
    ensures var words, nk := Schedule(box, key, n), |key| / 4;
            if i < nk then words[i] == key[4 * i..4 * i + 4]
            else words[i] == XorWords(words[i - nk], Temp(box, words[i - 1], nk, i))
  {
    ScheduleGrows(box, key, i, n);
    ScheduleGrows(box, key, i + 1, n);
    hide Temp, XorWords;
    var words := Schedule(box, key, n);
    assert words[i] == Schedule(box, key, i + 1)[i];
  }

  lemma GroupedBytes(words: seq<Word>, r: nat, i: nat, b: nat)
    requires 4 * r + 3 < |words| && i / 4 == r && b < 4
    ensures i < |words| && Grouped(words, r)[4 * (i % 4) + b] == words[i][b]
  {
    var k := i % 4;
    assert i == 4 * r + k;
    if k == 0 {
    } else if k == 1 {
    } else if k == 2 {
    } else {
    }
  }

  lemma RoundKeyBytes(box: seq<Byte>, key: seq<Byte>, i: nat, b: nat)
    requires |box| == 256 && IsKey(key) && i < |key| + 28 && b < 4
    ensures WordByte(RoundKeys(box, key), i, b) == Schedule(box, key, |key| + 28)[i][b]
  {
    hide Schedule, Grouped;
    GroupedBytes(Schedule(box, key, |key| + 28), i / 4, i, b);
  }

  lemma TempBytes(box: seq<Byte>, previous: Word, nk: nat, i: nat, b: nat)
    requires |box| == 256 && nk > 0 && 1 <= i / nk <= 10 && b < 4
    ensures Temp(box, previous, nk, i)[b]
         == if i % nk == 0 then
              var turned := box[previous[(b + 1) % 4]];
              if b == 0 then Xor(turned, ROUND_CONSTANTS[i / nk - 1]) else turned
            else if nk > 6 && i % nk == 4 then box[previous[b]]
            else previous[b]
  {
    hide Rcon, Xor;
    RconValue(i / nk);
    if i % nk == 0 && b > 0 {
      XorZero(box[previous[(b + 1) % 4]]);
    }
  }

  /** The schedule of the loop keeps the law. */
  lemma ScheduleLaw(box: seq<Byte>, key: seq<Byte>)
    requires |box| == 256 && IsKey(key)
    ensures IsKeySchedule(box, key, RoundKeys(box, key))
  {
    var keys := RoundKeys(box, key);
    hide Schedule, RoundKeys, ByteFollows;
    forall i, b | 0 <= i < |key| + 28 && 0 <= b < 4
      ensures ByteFollows(box, key, keys, i, b)
    {
      EachByteFollows(box, key, i, b);
    }
  }

  lemma EachByteFollows(box: seq<Byte>, key: seq<Byte>, i: nat, b: nat)
    requires |box| == 256 && IsKey(key) && i < |key| + 28 && b < 4
    ensures ByteFollows(box, key, RoundKeys(box, key), i, b)
  {
    hide Schedule, Temp, RoundKeys, Xor, WordByte, MixedIn;
    if i < |key| / 4 {
      WordIs(box, key, |key| + 28, i);
      RoundKeyBytes(box, key, i, b);
    } else {
      FewRounds(|key| / 4, i);
      LaterByte(box, key, i, b);
    }
  }

  lemma LaterByte(box: seq<Byte>, key: seq<Byte>, i: nat, b: nat)
    requires |box| == 256 && IsKey(key) && |key| / 4 <= i < |key| + 28 && b < 4 && 1 <= i / (|key| / 4) <= 10
    ensures var keys, nk := RoundKeys(box, key), |key| / 4;
            WordByte(keys, i, b) == Xor(WordByte(keys, i - nk, b), MixedIn(box, keys, nk, i, b))
  {
    hide Schedule, Temp, RoundKeys, Xor, WordByte;
    var nk, words := |key| / 4, Schedule(box, key, |key| + 28);
    WordIs(box, key, |key| + 28, i);
    TempBytes(box, words[i - 1], nk, i, b);
    RoundKeyBytes(box, key, i, b);
    RoundKeyBytes(box, key, i - nk, b);
    RoundKeyBytes(box, key, i - 1, b);
    RoundKeyBytes(box, key, i - 1, (b + 1) % 4);
  }

  /** `_expand_key`. */
  method ExpandKey(box: seq<Byte>, key: seq<Byte>) returns (keys: seq<Block>)
    requires |box| == 256 && IsKey(key)
    ensures keys == RoundKeys(box, key) && IsKeySchedule(box, key, keys)
  {
    ScheduleLaw(box, key);
    var nk := |key| / 4;
    var rounds := nk + 6;
    hide Schedule, Grouped, Rcon;
    var words := ExpandWords(box, key, nk, 4 * (rounds + 1));
    keys := seq(rounds + 1, r requires 0 <= r <= rounds => Grouped(words, r));
  }

  /** The round constant the loop of `_expand_key` holds when it reaches word `i`. */
  function HeldRcon(nk: nat, i: nat): bv8
    requires 0 < nk <= i
  {
    Rcon((i - 1) / nk + 1)
  }

  lemma HeldRconTurns(nk: nat, i: nat)
    requires 0 < nk <= i
    ensures HeldRcon(nk, nk) == 1
    ensures HeldRcon(nk, i + 1) == if i % nk == 0 then Xtime(HeldRcon(nk, i)) else HeldRcon(nk, i)
    ensures i % nk == 0 ==> HeldRcon(nk, i) == Rcon(i / nk)
  {
    hide Xtime;
    var q, r := i / nk, i % nk;
    ModUnique(nk - 1, nk, 0, nk - 1);
    assert i == q * nk + r;
    if r == 0 {
      assert i - 1 == (q - 1) * nk + (nk - 1);
      ModUnique(i - 1, nk, q - 1, nk - 1);
    } else {
      ModUnique(i - 1, nk, q, r - 1);
    }
  }

  /** The word `_expand_key` appends after `words`. */
  function NextWord(words: seq<Word>, t: Word, nk: nat): Word
    requires 0 < nk <= |words|
  {
    XorWords(words[|words| - nk], t)
  }

  /** The loop of `_expand_key`. */
  method ExpandWords(box: seq<Byte>, key: seq<Byte>, nk: nat, n: nat) returns (words: seq<Word>)
    requires |box| == 256 && IsKey(key) && nk == |key| / 4 <= n
    ensures words == Schedule(box, key, n)
  {
    words := KeyWords(box, key, nk);
    var rcon: bv8 := 1;
    hide NextWord, Temp, HeldRcon, Schedule;
    HeldRconTurns(nk, nk);
    for i := nk to n
      invariant words == Schedule(box, key, i)
      invariant rcon == HeldRcon(nk, i)
    {
      ScheduleNext(box, key, nk, i);
      var t;
      t, rcon := TempWord(box, words[i - 1], nk, i, rcon);
      words := words + [NextWord(words, t, nk)];
    }
  }

  /** The body of that loop: the word to mix in, and the next round constant. */
  method TempWord(box: seq<Byte>, previous: Word, nk: nat, i: nat, rcon0: bv8) returns (t: Word, rcon: bv8)
    requires |box| == 256 && 0 < nk <= i
    requires rcon0 == HeldRcon(nk, i)
    ensures t == Temp(box, previous, nk, i)
    ensures rcon == HeldRcon(nk, i + 1)
  {
    hide XorWords, SubWord, RotWord, Num, Rcon, Xtime, HeldRcon;
    HeldRconTurns(nk, i);
    t, rcon := previous, rcon0;
    if i % nk == 0 {
      t := XorWords(SubWord(box, RotWord(t)), [Num(rcon), 0, 0, 0]);
      rcon := Xtime(rcon);
    } else if nk > 6 && i % nk == 4 {
      t := SubWord(box, t);
    }
  }

  lemma ScheduleNext(box: seq<Byte>, key: seq<Byte>, nk: nat, i: nat)
    requires |box| == 256 && IsKey(key) && nk == |key| / 4 <= i
    ensures var words := Schedule(box, key, i);
            Schedule(box, key, i + 1) == words + [NextWord(words, Temp(box, words[i - 1], nk, i), nk)]
  {
    hide Temp, XorWords;
  }

  method KeyWords(box: seq<Byte>, key: seq<Byte>, nk: nat) returns (words: seq<Word>)
    requires |box| == 256 && IsKey(key) && nk == |key| / 4
    ensures words == Schedule(box, key, nk)
  {
    words := [];
    for i := 0 to nk
      invariant words == Schedule(box, key, i)
    {
      words := words + [key[4 * i..4 * i + 4]];
    }
  }

  // ------------------------------------------------------------ padding

  /** One to sixteen bytes, each holding their number. */
  function Padded(data: seq<Byte>): (r: seq<Byte>)
    ensures |r| % 16 == 0
  {
    var n := 16 - |data| % 16;
    data + seq(n, _ => n)
  }

  function Unpadded(data: seq<Byte>): Option<seq<Byte>> {
    if data == [] then None
    else
      var n := data[|data| - 1] as int;
      if 1 <= n <= 16 && n <= |data| && data[|data| - n..] == seq(n, _ => n) then Some(data[..|data| - n])
      else None
  }

  lemma UnpaddedInvertsPadded(data: seq<Byte>)
    ensures Unpadded(Padded(data)) == Some(data)
  {
    var n := 16 - |data| % 16;
    var p := Padded(data);
    assert p[|data|..] == seq(n, _ => n) && p[..|data|] == data;
  }

  // ------------------------------------------------------------ chaining

  function Encrypt(box: seq<Byte>, keys: seq<Block>, previous: Block, data: seq<Byte>): seq<Byte>
    requires |box| == 256 && keys != [] && |data| % 16 == 0
    decreases |data|
  {
    if data == [] then []
    else
      var block: seq<Byte> := Cipher(box, keys, AddRoundKey(data[..16], previous));
      block + Encrypt(box, keys, block, data[16..])
  }

  function Decrypt(box: seq<Byte>, keys: seq<Block>, previous: Block, data: seq<Byte>): seq<Byte>
    requires |box| == 256 && keys != [] && |data| % 16 == 0
    decreases |data|
  {
    if data == [] then []
    else
      AddRoundKey(InverseCipher(box, keys, data[..16]), previous) + Decrypt(box, keys, data[..16], data[16..])
  }

  lemma {:induction false} EncryptLength(box: seq<Byte>, keys: seq<Block>, previous: Block, data: seq<Byte>)
    requires |box| == 256 && keys != [] && |data| % 16 == 0
    ensures |Encrypt(box, keys, previous, data)| == |data|
    decreases |data|
  {
    hide Cipher, AddRoundKey;
    if data != [] {
      EncryptLength(box, keys, Cipher(box, keys, AddRoundKey(data[..16], previous)), data[16..]);
    }
  }

  lemma {:induction false} DecryptInvertsEncrypt(box: seq<Byte>, keys: seq<Block>, previous: Block, data: seq<Byte>)
    requires IsBijection(box) && keys != [] && |data| % 16 == 0
    ensures |Encrypt(box, keys, previous, data)| % 16 == 0
    ensures Decrypt(box, keys, previous, Encrypt(box, keys, previous, data)) == data
    decreases |data|
  {
    hide Cipher, InverseCipher, AddRoundKey;
    EncryptLength(box, keys, previous, data);
    if data != [] {
      var mixed := AddRoundKey(data[..16], previous);
      var block := Cipher(box, keys, mixed);
      var rest: seq<Byte> := Encrypt(box, keys, block, data[16..]);
      var head: seq<Byte> := block;
      DecryptInvertsEncrypt(box, keys, block, data[16..]);
      CipherInverted(box, keys, mixed);
      AddRoundKeyTwice(data[..16], previous);
      assert (head + rest)[..16] == block && (head + rest)[16..] == rest;
      assert data[..16] + data[16..] == data;
    }
  }

  /** The initialisation vector and then the padded data, encrypted. */
  function Sealed(box: seq<Byte>, keys: seq<Block>, iv: Block, data: seq<Byte>): seq<Byte>
    requires |box| == 256 && keys != []
  {
    var head: seq<Byte> := iv;
    head + Encrypt(box, keys, iv, Padded(data))
  }

  /** A reader of `Sealed`; None for what cannot be one. */
  function Unsealed(box: seq<Byte>, keys: seq<Block>, out: seq<Byte>): Option<seq<Byte>>
    requires |box| == 256 && keys != []
  {
    if |out| < 16 || |out| % 16 != 0 then None
    else Unpadded(Decrypt(box, keys, out[..16], out[16..]))
  }

  lemma UnsealedInvertsSealed(box: seq<Byte>, keys: seq<Block>, iv: Block, data: seq<Byte>)
    requires IsBijection(box) && keys != []
    ensures Unsealed(box, keys, Sealed(box, keys, iv, data)) == Some(data)
  {
    hide Encrypt, Decrypt, Padded, Unpadded;
    var head: seq<Byte> := iv;
    var body := Encrypt(box, keys, iv, Padded(data));
    EncryptLength(box, keys, iv, Padded(data));
    DecryptInvertsEncrypt(box, keys, iv, Padded(data));
    assert (head + body)[..16] == iv && (head + body)[16..] == body;
    UnpaddedInvertsPadded(data);
  }

  /** `aes_cbc`; without padding the data must be whole blocks. */
  method AesCbc(box: seq<Byte>, key: seq<Byte>, iv: Block, data0: seq<Byte>, pad: bool) returns (out: seq<Byte>)
    requires |box| == 256 && IsKey(key)
    requires !pad ==> |data0| % 16 == 0
    ensures out == Encrypt(box, RoundKeys(box, key), iv, if pad then Padded(data0) else data0)
  {
    var data := data0;
    if pad {
      var n := 16 - |data| % 16;
      data := data + seq(n, _ => n);
      assert data == Padded(data0);
    }
    var keys := ExpandKey(box, key);
    out := Chain(box, keys, iv, data);
  }

  /** The loop of `aes_cbc`. */
  method Chain(box: seq<Byte>, keys: seq<Block>, iv: Block, data: seq<Byte>) returns (out: seq<Byte>)
    requires |box| == 256 && keys != [] && |data| % 16 == 0
    ensures out == Encrypt(box, keys, iv, data)
  {
    out := [];
    var previous: Block := iv;
    var i := 0;
    hide Encrypt, Cipher, AddRoundKey;
    assert data[0..] == data;
    while i < |data|
      invariant 0 <= i <= |data| && i % 16 == 0
      invariant out + Encrypt(box, keys, previous, data[i..]) == Encrypt(box, keys, iv, data)
      decreases |data| - i
    {
      NextBlock(box, keys, previous, data, i, out);
      previous := EncryptBlock(box, keys, AddRoundKey(data[i..i + 16], previous));
      out := out + previous;
      i := i + 16;
    }
    NoMoreBlocks(box, keys, previous, data[i..]);
  }

  lemma NoMoreBlocks(box: seq<Byte>, keys: seq<Block>, previous: Block, rest: seq<Byte>)
    requires |box| == 256 && keys != [] && rest == []
    ensures Encrypt(box, keys, previous, rest) == []
  {
  }

  lemma NextBlock(box: seq<Byte>, keys: seq<Block>, previous: Block, data: seq<Byte>, i: nat, out: seq<Byte>)
    requires |box| == 256 && keys != [] && |data| % 16 == 0 && i % 16 == 0 && i < |data|
    ensures i + 16 <= |data|
    ensures var block: seq<Byte> := Cipher(box, keys, AddRoundKey(data[i..i + 16], previous));
            out + Encrypt(box, keys, previous, data[i..])
            == out + block + Encrypt(box, keys, block, data[i + 16..])
  {
    hide Cipher, AddRoundKey;
    var rest := data[i..];
    assert rest[..16] == data[i..i + 16] && rest[16..] == data[i + 16..];
  }
}
