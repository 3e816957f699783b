/** The standard security handler as a reader of the file has it (section 7.6 of
    ISO 32000-1, section 7.6 of ISO 32000-2): from a password and what the file
    publishes to the file key, and from the file key to the data of an object. */
module PdfStandard {
  import opened Nums
  import opened AesSbox
  import opened AesCipher
  import opened AesCbc
  import Rc4

  // ------------------------------------------------------------ digests

  function Zeros(n: nat): (r: seq<Byte>)
    ensures |r| == n && forall k :: 0 <= k < n ==> r[k] == 0
  {
    if n == 0 then [] else [0] + Zeros(n - 1)
  }

  type Key32 = s: seq<Byte> | |s| == 32 witness Zeros(32)
  type Digest = s: seq<Byte> | |s| >= 32 witness Zeros(32)

  /** The hash functions, of which only the length of their results is known. */
  datatype Hashes = Hashes(
    md5: seq<Byte> -> Block,
    sha256: seq<Byte> -> Key32,
    sha384: seq<Byte> -> Digest,
    sha512: seq<Byte> -> Digest)

  // ------------------------------------------------------------ object keys

  datatype Scheme = Rc4Of40 | Aes128 | Aes256

  predicate FitsScheme(scheme: Scheme, key: seq<Byte>) {
    scheme == Aes256 ==> |key| == 32
  }

  /** Whether `int.to_bytes` takes the object number; it raises OverflowError otherwise. */
  predicate NumberFits(scheme: Scheme, num: int) {
    0 <= num < if scheme == Aes256 then 0x1_0000_0000 else 0x100_0000
  }

  /** The low-order bytes of a number, lowest first. */
  function LowBytes(n: nat, count: nat): (r: seq<Byte>)
    ensures |r| == count
  {
    if count == 0 then [] else [n % 256] + LowBytes(n / 256, count - 1)
  }

  function Least(a: nat, b: nat): nat { if a < b then a else b }

  /** Algorithm 1 of section 7.6.2 of ISO 32000-1, and algorithm 1.A of ISO 32000-2,
      for an object of generation 0. */
  function KeyOfObject(h: Hashes, scheme: Scheme, key: seq<Byte>, num: nat): (r: seq<Byte>)
    requires FitsScheme(scheme, key) && NumberFits(scheme, num)
    ensures r != [] && (scheme != Rc4Of40 ==> IsKey(r))
  {
    if scheme == Aes256 then key
    else
      var numbered := key + LowBytes(num, 3) + LowBytes(0, 2);
      if scheme == Aes128 then h.md5(numbered + [115, 65, 108, 84])
      else
        var digest: seq<Byte> := h.md5(numbered);
        digest[..Least(|key| + 5, 16)]
  }

  /** What a reader makes of encrypted data: the vector and the padding come off where
      the cipher has them. */
  function Decrypted(h: Hashes, box: seq<Byte>, scheme: Scheme, key: seq<Byte>, num: nat, out: seq<Byte>)
    : Option<seq<Byte>>
    requires |box| == 256 && FitsScheme(scheme, key) && NumberFits(scheme, num)
  {
    var objectKey := KeyOfObject(h, scheme, key, num);
    if scheme == Rc4Of40 then Some(Rc4.Cipher(objectKey, out))
    else Unsealed(box, RoundKeys(box, objectKey), out)
  }

  // ------------------------------------------------------------ passwords, revisions 2 and 4

  const PADDING: seq<Byte> := [
    0x28, 0xBF, 0x4E, 0x5E, 0x4E, 0x75, 0x8A, 0x41, 0x64, 0x00, 0x4E, 0x56, 0xFF, 0xFA, 0x01, 0x08,
    0x2E, 0x2E, 0x00, 0xB6, 0xD0, 0x68, 0x3E, 0x80, 0x2F, 0x0C, 0xA9, 0xFE, 0x64, 0x53, 0x69, 0x7A]

  /** The password cut or padded to 32 bytes. */
  function Password32(password: seq<Byte>): (r: seq<Byte>)
    ensures |r| == 32
  {
    if |password| >= 32 then password[..32] else password + PADDING[..32 - |password|]
  }

  /** A digest hashed `n` more times, `length` bytes of it at a time. */
  function HashedAgain(h: Hashes, digest: Block, length: nat, n: nat): Block
    requires length <= 16
    decreases n
  {
    if n == 0 then digest
    else
      var bytes: seq<Byte> := digest;
      HashedAgain(h, h.md5(bytes[..length]), length, n - 1)
  }

  /** What a file publishes under revisions 2 and 4. */
  datatype Published = Published(rev: nat, length: nat, o: seq<Byte>, u: seq<Byte>, p: int, id: seq<Byte>)

  predicate IsPublished(d: Published) {
    ((d.rev == 2 && d.length == 5) || (d.rev == 4 && d.length == 16)) && -0x8000_0000 <= d.p < 0
  }

  /** Algorithm 2 of section 7.6.3.3 of ISO 32000-1. */
  function KeyFromUser(h: Hashes, padded: seq<Byte>, d: Published): (key: seq<Byte>)
    requires IsPublished(d)
    ensures |key| == d.length
  {
    var first := h.md5(padded + d.o + LowBytes(0x1_0000_0000 + d.p, 4) + d.id);
    var digest: seq<Byte> := if d.rev == 2 then first else HashedAgain(h, first, d.length, 50);
    digest[..d.length]
  }

  /** Takes the twenty layers of RC4 off, the outermost, 19, first. */
  function Peeled(key: seq<Byte>, data: seq<Byte>, n: nat): seq<Byte>
    requires key != [] && n < 20
    decreases n
  {
    var masked: seq<Byte> := seq(|key|, k requires 0 <= k < |key| => Xor(key[k], n));
    if n == 0 then Rc4.Cipher(masked, data) else Peeled(key, Rc4.Cipher(masked, data), n - 1)
  }

  /** Algorithm 6: whether the key is the one that `u` was made with. */
  predicate Checks(h: Hashes, key: seq<Byte>, d: Published)
    requires key != []
  {
    if d.rev == 2 then Rc4.Cipher(key, d.u) == PADDING
    else
      var digest: seq<Byte> := h.md5(PADDING + d.id);
      |d.u| == 32 && Peeled(key, d.u[..16], 19) == digest
  }

  /** Opens a file with the user password. */
  function OpenByUser(h: Hashes, password: seq<Byte>, d: Published): Option<seq<Byte>>
    requires IsPublished(d)
  {
    var key := KeyFromUser(h, Password32(password), d);
    if Checks(h, key, d) then Some(key) else None
  }

  /** Algorithm 7: opens a file with the owner password. */
  function OpenByOwner(h: Hashes, password: seq<Byte>, d: Published): Option<seq<Byte>>
    requires IsPublished(d)
  {
    var first := h.md5(Password32(password));
    var digest: seq<Byte> := if d.rev == 2 then first else HashedAgain(h, first, 16, 50);
    var ownerKey := digest[..d.length];
    var padded := if d.rev == 2 then Rc4.Cipher(ownerKey, d.o) else Peeled(ownerKey, d.o, 19);
    var key := KeyFromUser(h, padded, d);
    if Checks(h, key, d) then Some(key) else None
  }

  // ------------------------------------------------------------ passwords, revision 6

  /** A number written in bytes, highest first. */
  function Number(s: seq<Byte>): nat {
    if s == [] then 0 else 256 * Number(s[..|s| - 1]) + s[|s| - 1]
  }

  /** The 64 repetitions that a round encrypts. */
  function Input64(password: seq<Byte>, k: Digest, udata: seq<Byte>): (r: seq<Byte>)
    ensures |r| % 16 == 0 && |r| >= 16
  {
    var one := password + k + udata;
    seq(64 * |one|, i requires 0 <= i < 64 * |one| => one[i % |one|])
  }

  /** One round of algorithm 2.B of section 7.6.4.3.4 of ISO 32000-2: what it encrypts,
      and the digest that the first 16 bytes of that, as a number, choose. */
  function RoundOutput(box: seq<Byte>, password: seq<Byte>, udata: seq<Byte>, k: Digest): (e: seq<Byte>)
    requires |box| == 256
    ensures |e| >= 16
  {
    hide Input64, RoundKeys, AesCbc.Encrypt;
    var input := Input64(password, k, udata);
    EncryptLength(box, RoundKeys(box, k[..16]), k[16..32], input);
    AesCbc.Encrypt(box, RoundKeys(box, k[..16]), k[16..32], input)
  }

  function Digested(h: Hashes, e: seq<Byte>): Digest
    requires |e| >= 16
  {
    match Number(e[..16]) % 3
    case 0 => h.sha256(e)
    case 1 => h.sha384(e)
    case _ => h.sha512(e)
  }

  /** The digest after `n` rounds. */
  function AfterRounds(h: Hashes, box: seq<Byte>, password: seq<Byte>, udata: seq<Byte>, k: Digest, n: nat): Digest
    requires |box| == 256
  {
    if n == 0 then k
    else Digested(h, RoundOutput(box, password, udata, AfterRounds(h, box, password, udata, k, n - 1)))
  }

  /** Whether the rounds may end after round `n`, counted from 1. */
  predicate MayEnd(h: Hashes, box: seq<Byte>, password: seq<Byte>, udata: seq<Byte>, k: Digest, n: nat)
    requires |box| == 256 && n > 0
  {
    var e := RoundOutput(box, password, udata, AfterRounds(h, box, password, udata, k, n - 1));
    n >= 64 && e[|e| - 1] <= n - 32
  }

  /** The first round after which they may, from round `n` on; 255 - 32 is in reach of
      every last byte. */
  function FirstEnd(h: Hashes, box: seq<Byte>, password: seq<Byte>, udata: seq<Byte>, k: Digest, n: nat): nat
    requires |box| == 256 && 0 < n <= 287
    decreases 287 - n
  {
    hide RoundOutput, AfterRounds;
    if MayEnd(h, box, password, udata, k, n) || n == 287 then n else FirstEnd(h, box, password, udata, k, n + 1)
  }

  function Hash2B(h: Hashes, box: seq<Byte>, password: seq<Byte>, salt: seq<Byte>, udata: seq<Byte>): Key32
    requires |box| == 256
  {
    hide RoundOutput, AfterRounds, FirstEnd;
    var k: Digest := h.sha256(password + salt + udata);
    AfterRounds(h, box, password, udata, k, FirstEnd(h, box, password, udata, k, 1))[..32]
  }

  const ZERO_IV: Block := Zeros(16)

  /** Algorithm 2.A of section 7.6.4.3.3 of ISO 32000-2: checks a password against the
      validation salt of its entry, then decrypts the file key held in `wrapped`. */
  function Open256(h: Hashes, box: seq<Byte>, password: seq<Byte>, entry: seq<Byte>, wrapped: seq<Byte>,
                   udata: seq<Byte>)
    : Option<seq<Byte>>
    requires |box| == 256
  {
    if |entry| != 48 || |wrapped| != 32 then None
    else if Hash2B(h, box, password, entry[32..40], udata) != entry[..32] then None
    else
      Some(AesCbc.Decrypt(box, RoundKeys(box, Hash2B(h, box, password, entry[40..48], udata)), ZERO_IV, wrapped))
  }

  /** Algorithm 13: the permissions held in `perms`, if the file key is the right one. */
  function Permissions(box: seq<Byte>, key: Key32, perms: seq<Byte>): Option<int>
    requires |box| == 256
  {
    if |perms| != 16 then None
    else
      var block: seq<Byte> := InverseCipher(box, RoundKeys(box, key), perms);
      if block[9..12] != [97, 100, 98] then None
      else Some(Number([block[3], block[2], block[1], block[0]]) - 0x1_0000_0000)
  }
}
