/** The PDF security handlers (`Encryption`): what `encrypt` writes can be
    decrypted under all three schemes, and the dictionary it publishes lets a
    reader holding either password find the file key again. */
module PdfEncryption {
  import opened Nums
  import opened AesSbox
  import opened AesCipher
  import opened AesCbc
  import opened PdfStandard
  import Rc4

  // ------------------------------------------------------------ object keys

  function BigEndian4(n: nat): seq<Byte>
    requires n < 0x1_0000_0000
  {
    [n / 0x100_0000, n / 0x1_0000 % 256, n / 256 % 256, n % 256]
  }

  function LittleEndian3(n: nat): seq<Byte>
    requires n < 0x100_0000
  {
    [n % 256, n / 256 % 256, n / 0x1_0000]
  }

  const IV := [0x69, 0x76]
  const SALT := [0x73, 0x41, 0x6C, 0x54]

  function Iv(h: Hashes, num: nat, data: seq<Byte>): Block
    requires num < 0x1_0000_0000
  {
    h.md5(IV + BigEndian4(num) + data[..if |data| < 16 then |data| else 16])
  }

  /** The key an object's data is encrypted under (section 7.6.2 of ISO 32000-1). */
  function ObjectKey(h: Hashes, scheme: Scheme, key: seq<Byte>, num: nat): (r: seq<Byte>)
    requires FitsScheme(scheme, key) && NumberFits(scheme, num)
    ensures r != [] && (scheme != Rc4Of40 ==> IsKey(r))
  {
    match scheme
    case Aes256 => key
    case Rc4Of40 =>
      var digest: seq<Byte> := h.md5(key + LittleEndian3(num) + [0, 0]);
      digest[..if |key| + 5 < 16 then |key| + 5 else 16]
    case Aes128 => h.md5(key + LittleEndian3(num) + [0, 0] + SALT)
  }

  /** What `encrypt` returns; None stands for OverflowError. */
  function Encrypted(h: Hashes, box: seq<Byte>, scheme: Scheme, key: seq<Byte>, num: int, data: seq<Byte>)
    : Option<seq<Byte>>
    requires |box| == 256 && FitsScheme(scheme, key)
  {
    if !NumberFits(scheme, num) then None
    else
      var objectKey := ObjectKey(h, scheme, key, num);
      if scheme == Rc4Of40 then Some(Rc4.Cipher(objectKey, data))
      else
        Some(Sealed(box, RoundKeys(box, objectKey), Iv(h, num, data), data))
  }

  /** The writer's object key is the standard's. */
  lemma ObjectKeyIsStandard(h: Hashes, scheme: Scheme, key: seq<Byte>, num: nat)
    requires FitsScheme(scheme, key) && NumberFits(scheme, num)
    ensures ObjectKey(h, scheme, key, num) == KeyOfObject(h, scheme, key, num)
  {
    if scheme != Aes256 {
      assert LowBytes(num, 3) == LittleEndian3(num) by {
        assert LowBytes(num / 0x1_0000, 1) == [num / 0x1_0000];
        assert LowBytes(num / 256, 2) == [num / 256 % 256] + LowBytes(num / 256 / 256, 1);
        assert num / 256 / 256 == num / 0x1_0000;
      }
      assert LowBytes(0, 2) == [0, 0] by {
        assert LowBytes(0, 1) == [0];
      }
    }
  }

  lemma DecryptionInvertsEncryption(h: Hashes, box: seq<Byte>, scheme: Scheme, key: seq<Byte>,
                                    num: int, data: seq<Byte>)
    requires IsBijection(box) && FitsScheme(scheme, key)
    ensures Encrypted(h, box, scheme, key, num, data).None? <==> !NumberFits(scheme, num)
    ensures NumberFits(scheme, num)
            ==> PdfStandard.Decrypted(h, box, scheme, key, num, Encrypted(h, box, scheme, key, num, data).value)
                == Some(data)
  {
    hide ObjectKey, KeyOfObject, Iv, RoundKeys, Sealed, Unsealed, Rc4.Cipher;
    if NumberFits(scheme, num) {
      ObjectKeyIsStandard(h, scheme, key, num);
      var objectKey := ObjectKey(h, scheme, key, num);
      if scheme == Rc4Of40 {
        Rc4.CipherInvertsItself(objectKey, data);
      } else {
        UnsealedInvertsSealed(box, RoundKeys(box, objectKey), Iv(h, num, data), data);
      }
    }
  }

  /** `Encryption.encrypt`. */
  method Encrypt(h: Hashes, box: seq<Byte>, scheme: Scheme, key: seq<Byte>, num: int, data: seq<Byte>)
    returns (out: Option<seq<Byte>>)
    requires |box| == 256 && FitsScheme(scheme, key)
    ensures out == Encrypted(h, box, scheme, key, num, data)
  {
    if !(0 <= num < 0x1_0000_0000) {
      return None;
    }
    var iv: seq<Byte> := Iv(h, num, data);
    if scheme == Aes256 {
      var body := AesCbc.AesCbc(box, key, iv, data, true);
      return Some(iv + body);
    }
    if num >= 0x100_0000 {
      return None;
    }
    var base := key + LittleEndian3(num) + [0, 0];
    if scheme == Rc4Of40 {
      var digest: seq<Byte> := h.md5(base);
      var enciphered := Rc4.Rc4(digest[..if |key| + 5 < 16 then |key| + 5 else 16], data);
      return Some(enciphered);
    }
    var objectKey: seq<Byte> := h.md5(base + SALT);
    var body := AesCbc.AesCbc(box, objectKey, iv, data, true);
    out := Some(iv + body);
  }

  // ------------------------------------------------------------ passwords, revisions 2 and 4

  /** The standard padding string (section 7.6.3.3 of ISO 32000-1). */
  const PAD: seq<Byte> := [
    0x28, 0xBF, 0x4E, 0x5E, 0x4E, 0x75, 0x8A, 0x41, 0x64, 0x00, 0x4E, 0x56, 0xFF, 0xFA, 0x01, 0x08,
    0x2E, 0x2E, 0x00, 0xB6, 0xD0, 0x68, 0x3E, 0x80, 0x2F, 0x0C, 0xA9, 0xFE, 0x64, 0x53, 0x69, 0x7A]

  function PadPassword(password: seq<Byte>): (r: seq<Byte>)
    ensures |r| == 32
  {
    (password + PAD)[..32]
  }

  function Rehashed(h: Hashes, digest: Block, length: nat, n: nat): Block
    requires length <= 16
  {
    if n == 0 then digest
    else
      var before: seq<Byte> := Rehashed(h, digest, length, n - 1);
      h.md5(before[..length])
  }

  function Stretched(h: Hashes, data: seq<Byte>, rev: nat, length: nat): (r: seq<Byte>)
    requires length <= 16
    ensures |r| == length
  {
    var digest: seq<Byte> := Rehashed(h, h.md5(data), length, if rev >= 3 then 50 else 0);
    digest[..length]
  }

  /** `bytes(b ^ i for b in key)`. */
  function Masked(key: seq<Byte>, i: Byte): (r: seq<Byte>)
    ensures |r| == |key|
  {
    seq(|key|, k requires 0 <= k < |key| => Xor(key[k], i))
  }

  /** RC4 once with the key and then `n` times with the masked key. */
  function Layered(key: seq<Byte>, data: seq<Byte>, n: nat): seq<Byte>
    requires key != [] && n < 20
  {
    if n == 0 then Rc4.Cipher(key, data) else Rc4.Cipher(Masked(key, n), Layered(key, data, n - 1))
  }

  lemma MaskedByZero(key: seq<Byte>)
    ensures Masked(key, 0) == key
  {
    forall k | 0 <= k < |key|
      ensures Xor(key[k], 0) == key[k]
    {
      XorZero(key[k]);
    }
  }

  /** The reader's order undoes the writer's: the outermost layer comes off first. */
  lemma {:induction false} PeeledInvertsLayered(key: seq<Byte>, data: seq<Byte>, n: nat)
    requires key != [] && n < 20
    ensures Peeled(key, Layered(key, data, n), n) == data
  {
    hide Rc4.Cipher, Xor;
    if n == 0 {
      MaskedByZero(key);
      Rc4.CipherInvertsItself(key, data);
    } else {
      Rc4.CipherInvertsItself(Masked(key, n), Layered(key, data, n - 1));
      PeeledInvertsLayered(key, data, n - 1);
    }
  }

  function Layers(rev: nat): nat { if rev >= 3 then 19 else 0 }

  /** The `O` entry of revisions 2 and 4. */
  function OwnerEntry(h: Hashes, user: seq<Byte>, owner: seq<Byte>, rev: nat, length: nat): seq<Byte>
    requires 0 < length <= 16
  {
    Layered(Stretched(h, PadPassword(owner), rev, length), PadPassword(user), Layers(rev))
  }

  const P := -3904

  /** `struct.pack("<i", -3904)`: two's complement, least significant byte first. */
  const PERMISSIONS: seq<Byte> := [0xC0, 0xF0, 0xFF, 0xFF]

  /** The file key, from the padded user password and what the file publishes. */
  function FileKey(h: Hashes, paddedUser: seq<Byte>, ownerEntry: seq<Byte>, docId: seq<Byte>,
                   rev: nat, length: nat): (r: seq<Byte>)
    requires 0 < length <= 16
    ensures |r| == length
  {
    Stretched(h, paddedUser + ownerEntry + PERMISSIONS + docId, rev, length)
  }

  /** The `U` entry, against which a reader checks the key it found. */
  function UserEntry(h: Hashes, key: seq<Byte>, docId: seq<Byte>, rev: nat): seq<Byte>
    requires key != []
  {
    if rev == 2 then Rc4.Cipher(key, PAD)
    else Layered(key, h.md5(PAD + docId), 19) + Zeros(16)
  }

  lemma PaddedIsStandard(password: seq<Byte>)
    ensures PadPassword(password) == Password32(password)
  {
  }

  lemma {:induction false} RehashedIsStandard(h: Hashes, digest: Block, length: nat, n: nat)
    requires length <= 16
    ensures Rehashed(h, digest, length, n) == HashedAgain(h, digest, length, n)
    decreases n
  {
    if n > 0 {
      var bytes: seq<Byte> := digest;
      RehashedFront(h, digest, length, n);
      RehashedIsStandard(h, h.md5(bytes[..length]), length, n - 1);
    }
  }

  lemma {:induction false} RehashedFront(h: Hashes, digest: Block, length: nat, n: nat)
    requires length <= 16 && n > 0
    ensures var bytes: seq<Byte> := digest;
            Rehashed(h, digest, length, n) == Rehashed(h, h.md5(bytes[..length]), length, n - 1)
  {
    if n > 1 {
      RehashedFront(h, digest, length, n - 1);
    } else {
      assert Rehashed(h, digest, length, 0) == digest;
    }
  }

  lemma PermissionBytes()
    ensures LowBytes(0x1_0000_0000 + P, 4) == PERMISSIONS
  {
    var n := 0x1_0000_0000 + P;
    assert n == 0xFFFF_F0C0;
    assert LowBytes(0xFF, 1) == [0xFF] + LowBytes(0, 0);
    assert LowBytes(0xFFFF, 2) == [0xFF] + LowBytes(0xFF, 1);
    assert LowBytes(0xFFFF_F0, 3) == [0xF0] + LowBytes(0xFFFF, 2);
    assert LowBytes(0xFFFF_F0C0, 4) == [0xC0] + LowBytes(0xFFFF_F0, 3);
  }

  /** What `_rc4` publishes. */
  function PublishedBy(h: Hashes, user: seq<Byte>, owner: seq<Byte>, docId: seq<Byte>, rev: nat, length: nat): Published
    requires 0 < length <= 16
  {
    var o := OwnerEntry(h, user, owner, rev, length);
    var key := FileKey(h, PadPassword(user), o, docId, rev, length);
    Published(rev, length, o, UserEntry(h, key, docId, rev), P, docId)
  }

  lemma FileKeyIsStandard(h: Hashes, padded: seq<Byte>, d: Published)
    requires IsPublished(d) && d.p == P
    ensures FileKey(h, padded, d.o, d.id, d.rev, d.length) == KeyFromUser(h, padded, d)
  {
    hide Rehashed, HashedAgain, LowBytes;
    PermissionBytes();
    var first := h.md5(padded + d.o + PERMISSIONS + d.id);
    RehashedIsStandard(h, first, d.length, 50);
    RehashedNext(h, first, d.length, 0);
  }

  /** The user entry checks the key it was made with. */
  lemma UserEntryChecks(h: Hashes, key: seq<Byte>, d: Published)
    requires key != [] && IsPublished(d) && d.u == UserEntry(h, key, d.id, d.rev)
    ensures Checks(h, key, d)
  {
    hide Rc4.Cipher, Layered, Peeled;
    if d.rev == 2 {
      Rc4.CipherInvertsItself(key, PAD);
      assert PAD == PADDING;
    } else {
      var digest: seq<Byte> := h.md5(PAD + d.id);
      assert PAD == PADDING;
      LayeredLength(key, digest, 19);
      PeeledInvertsLayered(key, digest, 19);
      assert d.u[..16] == Layered(key, digest, 19);
    }
  }

  lemma {:induction false} LayeredLength(key: seq<Byte>, data: seq<Byte>, n: nat)
    requires key != [] && n < 20
    ensures |Layered(key, data, n)| == |data|
  {
    hide Masked;
    if n > 0 {
      LayeredLength(key, data, n - 1);
    }
  }

  /** The owner entry yields the padded user password. */
  lemma OwnerEntryPeels(h: Hashes, user: seq<Byte>, owner: seq<Byte>, d: Published)
    requires IsPublished(d) && d.o == OwnerEntry(h, user, owner, d.rev, d.length)
    ensures var first := h.md5(Password32(owner));
            var digest: seq<Byte> := if d.rev == 2 then first else HashedAgain(h, first, 16, 50);
            var ownerKey := digest[..d.length];
            (if d.rev == 2 then Rc4.Cipher(ownerKey, d.o) else Peeled(ownerKey, d.o, 19)) == Password32(user)
  {
    hide Rehashed, HashedAgain, Rc4.Cipher, Layered, Peeled, PadPassword, Password32;
    PaddedIsStandard(user);
    PaddedIsStandard(owner);
    var first := h.md5(Password32(owner));
    RehashedIsStandard(h, first, 16, 50);
    RehashedNext(h, first, d.length, 0);
    var ownerKey := Stretched(h, PadPassword(owner), d.rev, d.length);
    FirstLayer(ownerKey, PadPassword(user));
    Rc4.CipherInvertsItself(ownerKey, PadPassword(user));
    PeeledInvertsLayered(ownerKey, PadPassword(user), 19);
  }

  /** Under revisions 2 and 4 a standard reader opens the file with either password, and
      finds the key it was encrypted with. */
  lemma EitherPasswordOpens(h: Hashes, user: seq<Byte>, owner: seq<Byte>, docId: seq<Byte>, rev: nat, length: nat)
    requires (rev == 2 && length == 5) || (rev == 4 && length == 16)
    ensures var d := PublishedBy(h, user, owner, docId, rev, length);
            var key := FileKey(h, PadPassword(user), d.o, docId, rev, length);
            OpenByUser(h, user, d) == Some(key) && OpenByOwner(h, owner, d) == Some(key)
  {
    hide PadPassword, Password32, Stretched, Layered, Peeled, KeyFromUser, Checks, Rc4.Cipher, HashedAgain;
    var d := PublishedBy(h, user, owner, docId, rev, length);
    var key := FileKey(h, PadPassword(user), d.o, docId, rev, length);
    PaddedIsStandard(user);
    FileKeyIsStandard(h, Password32(user), d);
    UserEntryChecks(h, key, d);
    OwnerEntryPeels(h, user, owner, d);
  }

  method Rehash(h: Hashes, digest0: Block, length: nat) returns (digest: Block)
    requires length <= 16
    ensures digest == Rehashed(h, digest0, length, 50)
  {
    hide Rehashed;
    digest := digest0;
    RehashedNext(h, digest0, length, 0);
    for n := 0 to 50
      invariant digest == Rehashed(h, digest0, length, n)
    {
      RehashedNext(h, digest0, length, n);
      var before: seq<Byte> := digest;
      digest := h.md5(before[..length]);
    }
  }

  lemma RehashedNext(h: Hashes, digest: Block, length: nat, n: nat)
    requires length <= 16
    ensures Rehashed(h, digest, length, 0) == digest
    ensures var before: seq<Byte> := Rehashed(h, digest, length, n);
            Rehashed(h, digest, length, n + 1) == h.md5(before[..length])
  {
  }

  /** The loop `for i in range(1, 20)` over RC4 with the masked key. */
  method Layer(key: seq<Byte>, data: seq<Byte>) returns (out: seq<Byte>)
    requires key != []
    ensures out == Layered(key, data, 19)
  {
    hide Masked, Rc4.Cipher;
    out := Rc4.Rc4(key, data);
    for i := 1 to 20
      invariant out == Layered(key, data, i - 1)
    {
      out := Rc4.Rc4(Masked(key, i), out);
    }
  }

  /** `Encryption._rc4`: the entries `O` and `U`, and the file key. */
  method PasswordEntries(h: Hashes, user: seq<Byte>, owner: seq<Byte>, docId: seq<Byte>, rev: nat, length: nat)
    returns (o: seq<Byte>, u: seq<Byte>, key: seq<Byte>)
    requires 0 < length <= 16
    ensures o == OwnerEntry(h, user, owner, rev, length)
    ensures key == FileKey(h, PadPassword(user), o, docId, rev, length)
    ensures u == UserEntry(h, key, docId, rev)
    ensures Published(rev, length, o, u, P, docId) == PublishedBy(h, user, owner, docId, rev, length)
  {
    hide Rehashed, Layered, Rc4.Cipher, PadPassword;
    var paddedUser := PadPassword(user);
    var digest: seq<Byte> := h.md5(PadPassword(owner));
    RehashedNext(h, digest, length, 0);
    if rev >= 3 {
      digest := Rehash(h, digest, length);
    }
    var ownerKey := digest[..length];
    FirstLayer(ownerKey, paddedUser);
    if rev >= 3 {
      o := Layer(ownerKey, paddedUser);
    } else {
      o := Rc4.Rc4(ownerKey, paddedUser);
    }
    var whole: seq<Byte> := h.md5(paddedUser + o + PERMISSIONS + docId);
    RehashedNext(h, whole, length, 0);
    if rev >= 3 {
      whole := Rehash(h, whole, length);
    }
    key := whole[..length];
    if rev == 2 {
      u := Rc4.Rc4(key, PAD);
    } else {
      u := Layer(key, h.md5(PAD + docId));
      u := u + Zeros(16);
    }
  }

  lemma FirstLayer(key: seq<Byte>, data: seq<Byte>)
    requires key != []
    ensures Layered(key, data, 0) == Rc4.Cipher(key, data)
  {
  }

  // ------------------------------------------------------------ passwords, revision 6

  function Repeated(s: seq<Byte>, n: nat): (r: seq<Byte>)
    ensures |r| == n * |s|
  {
    if n == 0 then [] else s + Repeated(s, n - 1)
  }

  function Sum(s: seq<Byte>): nat {
    if s == [] then 0 else s[0] + Sum(s[1..])
  }

  function StirInput(password: seq<Byte>, udata: seq<Byte>, k: Digest): (k1: seq<Byte>)
    ensures |k1| >= 16 && |k1| % 16 == 0
  {
    hide Repeated;
    Repeated(password + k + udata, 64)
  }

  /** The encrypted block of one round of the hash (algorithm 2.B of ISO 32000-2). */
  function Stirred(box: seq<Byte>, password: seq<Byte>, udata: seq<Byte>, k: Digest): (e: seq<Byte>)
    requires |box| == 256
    ensures |e| >= 16 && |e| % 16 == 0
  {
    hide StirInput, RoundKeys, AesCbc.Encrypt;
    var keys, iv, k1 := RoundKeys(box, k[..16]), k[16..32], StirInput(password, udata, k);
    EncryptLength(box, keys, iv, k1);
    AesCbc.Encrypt(box, keys, iv, k1)
  }

  function Chosen(h: Hashes, e: seq<Byte>): Digest
    requires |e| >= 16
  {
    var choice := Sum(e[..16]) % 3;
    if choice == 0 then h.sha256(e) else if choice == 1 then h.sha384(e) else h.sha512(e)
  }

  /** The rounds from round `i` on. The last byte of a block is at most 255, so
      the 287th round is the last possible one. */
  function HashFrom(h: Hashes, box: seq<Byte>, password: seq<Byte>, udata: seq<Byte>, k: Digest, i: nat): Key32
    requires |box| == 256 && i < 287
    decreases 287 - i
  {
    hide Stirred, Chosen;
    var e := Stirred(box, password, udata, k);
    var next := Chosen(h, e);
    if i + 1 >= 64 && e[|e| - 1] <= i + 1 - 32 then next[..32]
    else HashFrom(h, box, password, udata, next, i + 1)
  }

  function HashR6(h: Hashes, box: seq<Byte>, password: seq<Byte>, salt: seq<Byte>, udata: seq<Byte>): Key32
    requires |box| == 256
  {
    HashFrom(h, box, password, udata, h.sha256(password + salt + udata), 0)
  }

  lemma {:induction false} RepeatedIs(s: seq<Byte>, n: nat, i: nat)
    requires s != [] && i < |Repeated(s, n)|
    ensures Repeated(s, n)[i] == s[i % |s|]
    decreases n
  {
    RepeatedOnce(s, n);
    hide Repeated;
    if i < |s| {
      ModUnique(i, |s|, 0, i);
    } else {
      RepeatedIs(s, n - 1, i - |s|);
      ModLess(i, |s|);
    }
  }

  lemma RepeatedOnce(s: seq<Byte>, n: nat)
    ensures Repeated(s, n) == if n == 0 then [] else s + Repeated(s, n - 1)
  {
  }

  lemma ModLess(i: nat, m: nat)
    requires 0 < m <= i
    ensures (i - m) % m == i % m
  {
    var q, r := i / m, i % m;
    assert i == q * m + r;
    assert i - m == (q - 1) * m + r;
    ModUnique(i - m, m, q - 1, r);
  }

  lemma InputIsStandard(password: seq<Byte>, udata: seq<Byte>, k: Digest)
    ensures StirInput(password, udata, k) == Input64(password, k, udata)
  {
    var one := password + k + udata;
    hide Repeated;
    forall i | 0 <= i < 64 * |one|
      ensures Repeated(one, 64)[i] == one[i % |one|]
    {
      RepeatedIs(one, 64, i);
    }
  }

  lemma {:induction false} SumOfFront(s: seq<Byte>)
    requires s != []
    ensures Sum(s) == Sum(s[..|s| - 1]) + s[|s| - 1]
  {
    if |s| == 1 {
      assert s[1..] == [] && s[..0] == [];
    } else {
      SumOfFront(s[1..]);
      assert s[1..][..|s| - 2] == s[..|s| - 1][1..];
    }
  }

  /** 256 is 1 modulo 3: adding the bytes gives the remainder of the number. */
  lemma {:induction false} SumIsNumberModThree(s: seq<Byte>)
    ensures Sum(s) % 3 == Number(s) % 3
  {
    if s != [] {
      SumOfFront(s);
      SumIsNumberModThree(s[..|s| - 1]);
      OneMoreByte(Sum(s[..|s| - 1]), Number(s[..|s| - 1]), s[|s| - 1]);
    }
  }

  lemma OneMoreByte(sum: nat, number: nat, b: Byte)
    requires sum % 3 == number % 3
    ensures (sum + b) % 3 == (256 * number + b) % 3
  {
    assert 256 * number + b == 3 * (85 * number) + (number + b);
  }

  lemma RoundIsStandard(h: Hashes, box: seq<Byte>, password: seq<Byte>, udata: seq<Byte>, k: Digest)
    requires |box| == 256
    ensures Stirred(box, password, udata, k) == RoundOutput(box, password, udata, k)
    ensures Chosen(h, Stirred(box, password, udata, k)) == Digested(h, RoundOutput(box, password, udata, k))
  {
    hide StirInput, Input64, RoundKeys, AesCbc.Encrypt, Sum, Number;
    InputIsStandard(password, udata, k);
    SumIsNumberModThree(Stirred(box, password, udata, k)[..16]);
  }

  lemma {:induction false} RoundsAreStandard(h: Hashes, box: seq<Byte>, password: seq<Byte>, udata: seq<Byte>,
                                             k: Digest,
                                             i: nat)
    requires |box| == 256 && i < 287
    ensures HashFrom(h, box, password, udata, AfterRounds(h, box, password, udata, k, i), i)
         == AfterRounds(h, box, password, udata, k, FirstEnd(h, box, password, udata, k, i + 1))[..32]
    decreases 287 - i
  {
    hide Stirred, Chosen, RoundOutput, Digested;
    var now := AfterRounds(h, box, password, udata, k, i);
    RoundIsStandard(h, box, password, udata, now);
    assert AfterRounds(h, box, password, udata, k, i + 1) == Chosen(h, Stirred(box, password, udata, now));
    if i + 1 < 287 {
      RoundsAreStandard(h, box, password, udata, k, i + 1);
    }
  }

  /** The writer's hash is the standard's. */
  lemma HashIsStandard(h: Hashes, box: seq<Byte>, password: seq<Byte>, salt: seq<Byte>, udata: seq<Byte>)
    requires |box| == 256
    ensures HashR6(h, box, password, salt, udata) == Hash2B(h, box, password, salt, udata)
  {
    var k := h.sha256(password + salt + udata);
    RoundsAreStandard(h, box, password, udata, k, 0);
    NoRounds(h, box, password, udata, k);
    hide HashFrom, FirstEnd, AfterRounds;
  }

  lemma NoRounds(h: Hashes, box: seq<Byte>, password: seq<Byte>, udata: seq<Byte>, k: Digest)
    requires |box| == 256
    ensures AfterRounds(h, box, password, udata, k, 0) == k
  {
    hide RoundOutput;
  }

  /** The first two statements of a round. */
  method Stir(box: seq<Byte>, password: seq<Byte>, udata: seq<Byte>, k: Digest) returns (e: seq<Byte>)
    requires |box| == 256
    ensures e == Stirred(box, password, udata, k)
  {
    hide StirInput, RoundKeys, AesCbc.Encrypt, Padded;
    var k1 := StirInput(password, udata, k);
    e := AesCbc.AesCbc(box, k[..16], k[16..32], k1, false);
  }

  /** `Encryption._hash_r6`; its `while True` loop ends. */
  method RunHashR6(h: Hashes, box: seq<Byte>, password: seq<Byte>, salt: seq<Byte>, udata: seq<Byte>)
    returns (r: Key32)
    requires |box| == 256
    ensures r == HashR6(h, box, password, salt, udata)
  {
    hide Chosen, Stirred;
    var k: Digest := h.sha256(password + salt + udata);
    var i: nat := 0;
    while true
      invariant i < 287
      invariant HashFrom(h, box, password, udata, k, i) == HashR6(h, box, password, salt, udata)
      decreases 287 - i
    {
      var e := Stir(box, password, udata, k);
      k := Chosen(h, e);
      i := i + 1;
      if i >= 64 && e[|e| - 1] <= i - 32 {
        return k[..32];
      }
    }
  }

  /** What revision 6 publishes. */
  datatype Entries = Entries(u: seq<Byte>, ue: seq<Byte>, o: seq<Byte>, oe: seq<Byte>, perms: seq<Byte>)

  const PERMISSION_BLOCK: Block :=
    PERMISSIONS + [0xFF, 0xFF, 0xFF, 0xFF] + [0x54, 0x61, 0x64, 0x62] + [0x62, 0x70, 0x30, 0x37]

  /** One entry and its wrapped key, as `_aes256` writes them. */
  predicate Locks(h: Hashes, box: seq<Byte>, password: seq<Byte>, salts: seq<Byte>, udata: seq<Byte>,
                  key: Key32, entry: seq<Byte>, wrapped: seq<Byte>)
    requires |box| == 256 && |salts| == 16
  {
    && entry == HashR6(h, box, password, salts[..8], udata) + salts
    && wrapped == AesCbc.Encrypt(box, RoundKeys(box, HashR6(h, box, password, salts[8..], udata)), ZERO_IV, key)
  }

  lemma LockedOpens(h: Hashes, box: seq<Byte>, password: seq<Byte>, salts: seq<Byte>, udata: seq<Byte>,
                    key: Key32, entry: seq<Byte>, wrapped: seq<Byte>)
    requires IsBijection(box) && |salts| == 16
    requires Locks(h, box, password, salts, udata, key, entry, wrapped)
    ensures Open256(h, box, password, entry, wrapped, udata) == Some(key)
  {
    hide HashR6, Hash2B, RoundKeys, AesCbc.Encrypt, AesCbc.Decrypt;
    HashIsStandard(h, box, password, salts[..8], udata);
    HashIsStandard(h, box, password, salts[8..], udata);
    assert entry[..32] == HashR6(h, box, password, salts[..8], udata);
    assert entry[32..40] == salts[..8] && entry[40..48] == salts[8..];
    var keys := RoundKeys(box, HashR6(h, box, password, salts[8..], udata));
    EncryptLength(box, keys, ZERO_IV, key);
    DecryptInvertsEncrypt(box, keys, ZERO_IV, key);
  }

  lemma PermissionsRead()
    ensures var block: seq<Byte> := PERMISSION_BLOCK;
            block[9..12] == [97, 100, 98] && Number([block[3], block[2], block[1], block[0]]) == 0x1_0000_0000 + P
  {
    var b: seq<Byte> := [0xFF, 0xFF, 0xF0, 0xC0];
    assert b[..3] == [0xFF, 0xFF, 0xF0] && b[..3][..2] == [0xFF, 0xFF] && b[..3][..2][..1] == [0xFF];
    assert Number(b[..3][..2][..1]) == 0xFF by {
      assert b[..3][..2][..1][..0] == [];
    }
    assert Number(b[..3][..2]) == 0xFFFF;
    assert Number(b[..3]) == 0xFFFF_F0;
    assert Number(b) == 0xFFFF_F0C0;
  }

  /** `Encryption._aes256`: either password opens the file, and the permissions
      can be read back under the key. */
  method Entries256(h: Hashes, box: seq<Byte>, user: seq<Byte>, owner: seq<Byte>, prefix: seq<Byte>)
    returns (key: Key32, e: Entries)
    requires IsBijection(box)
    ensures key == h.sha256(prefix + user + owner)
    ensures Open256(h, box, user, e.u, e.ue, []) == Some(key)
    ensures Open256(h, box, owner, e.o, e.oe, e.u) == Some(key)
    ensures Permissions(box, key, e.perms) == Some(P)
  {
    PermissionsRead();
    hide Open256, HashR6, RoundKeys, AesCbc.Encrypt, Cipher, InverseCipher;
    key := h.sha256(prefix + user + owner);
    var u, ue := Lock(h, box, user, key[..8], key[8..16], [], key);
    var o, oe := Lock(h, box, owner, key[16..24], key[24..], u, key);
    var keys := ExpandKey(box, key);
    var perms := EncryptBlock(box, keys, PERMISSION_BLOCK);
    CipherInverted(box, keys, PERMISSION_BLOCK);
    e := Entries(u, ue, o, oe, perms);
  }

  /** The two statements of `_aes256` that are written once per password. */
  method Lock(h: Hashes, box: seq<Byte>, password: seq<Byte>, validation: seq<Byte>, keySalt: seq<Byte>,
              udata: seq<Byte>, key: Key32) returns (entry: seq<Byte>, wrapped: seq<Byte>)
    requires IsBijection(box) && |validation| == 8 && |keySalt| == 8
    ensures Open256(h, box, password, entry, wrapped, udata) == Some(key)
  {
    hide Open256, HashR6, RoundKeys, AesCbc.Encrypt;
    var hash := RunHashR6(h, box, password, validation, udata);
    entry := hash + validation + keySalt;
    var wrapping := RunHashR6(h, box, password, keySalt, udata);
    wrapped := AesCbc.AesCbc(box, wrapping, ZERO_IV, key, false);
    var salts := validation + keySalt;
    assert salts[..8] == validation && salts[8..] == keySalt;
    assert entry == hash + salts;
    LockedOpens(h, box, password, salts, udata, key, entry, wrapped);
  }
}
