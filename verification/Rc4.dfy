/** RC4 (`rc4`): the table is permuted in place, and encrypting twice with one
    key gives the data back. Byte arithmetic wraps, as `& 0xFF` does. */
module Rc4 {
  import opened Nums

  // ------------------------------------------------------------ the table

  /** Every byte value stands in the table exactly once. */
  ghost predicate IsPermutation(s: seq<Byte>) {
    |s| == 256 && forall i, j :: 0 <= i < j < 256 ==> s[i] != s[j]
  }

  function Add(a: Byte, b: Byte): Byte { ((a as int) + b) % 256 }

  function Swap(s: seq<Byte>, i: Byte, j: Byte): (r: seq<Byte>)
    requires |s| == 256
    ensures |r| == 256
    ensures IsPermutation(s) ==> IsPermutation(r)
  {
    s[i := s[j]][j := s[i]]
  }

  function Identity(): (s: seq<Byte>)
    ensures IsPermutation(s)
  {
    seq(256, i requires 0 <= i < 256 => i)
  }

  /** Key scheduling after `n` swaps: the table and the running index. */
  function Scheduled(key: seq<Byte>, n: nat): (r: (seq<Byte>, Byte))
    requires key != [] && n <= 256
    ensures IsPermutation(r.0)
  {
    if n == 0 then (Identity(), 0)
    else
      var (s, j) := Scheduled(key, n - 1);
      var j' := Add(Add(j, s[n - 1]), key[(n - 1) % |key|]);
      (Swap(s, (n - 1), j'), j')
  }

  // ------------------------------------------------------------ the keystream

  datatype Generator = Generator(table: seq<Byte>, i: Byte, j: Byte)

  function Step(g: Generator): (g': Generator)
    requires |g.table| == 256
    ensures |g'.table| == 256
    ensures IsPermutation(g.table) ==> IsPermutation(g'.table)
  {
    var i := Add(g.i, 1);
    var j := Add(g.j, g.table[i]);
    Generator(Swap(g.table, i, j), i, j)
  }

  function Output(g: Generator): Byte
    requires |g.table| == 256
  {
    g.table[Add(g.table[g.i], g.table[g.j])]
  }

  function Start(key: seq<Byte>): (g: Generator)
    requires key != []
    ensures |g.table| == 256
    ensures IsPermutation(g.table)
  {
    Generator(Scheduled(key, 256).0, 0, 0)
  }

  /** The generator after `n` bytes. It never depends on the data. */
  function After(key: seq<Byte>, n: nat): (g: Generator)
    requires key != []
    ensures |g.table| == 256
    ensures IsPermutation(g.table)
  {
    if n == 0 then Start(key) else Step(After(key, n - 1))
  }

  function KeyByte(key: seq<Byte>, n: nat): Byte
    requires key != []
  {
    Output(After(key, n + 1))
  }

  ghost predicate IsCipher(key: seq<Byte>, data: seq<Byte>, out: seq<Byte>)
    requires key != []
  {
    |out| == |data| && forall k :: 0 <= k < |data| ==> out[k] == Xor(data[k], KeyByte(key, k))
  }

  /** The cipher as a function of its inputs. */
  function Cipher(key: seq<Byte>, data: seq<Byte>): (out: seq<Byte>)
    requires key != []
    ensures IsCipher(key, data, out)
  {
    seq(|data|, k requires 0 <= k < |data| => Xor(data[k], KeyByte(key, k)))
  }

  // ------------------------------------------------------------ what the table and the keystream are

  /** `t` is `s` with the entries at `i` and `j` exchanged. */
  predicate Exchanged(s: seq<Byte>, t: seq<Byte>, i: Byte, j: Byte)
    requires |s| == 256
  {
    |t| == 256 && t[i] == s[j] && t[j] == s[i] && forall k :: 0 <= k < 256 && k != i && k != j ==> t[k] == s[k]
  }

  lemma SwapExchanges(s: seq<Byte>, i: Byte, j: Byte)
    requires |s| == 256
    ensures Exchanged(s, Swap(s, i, j), i, j)
  {
  }

  lemma SumOfThree(a: Byte, b: Byte, c: Byte)
    ensures Add(Add(a, b), c) as int == ((a as int) + (b as int) + (c as int)) % 256
  {
  }

  lemma ScheduledNext(key: seq<Byte>, n: nat)
    requires key != [] && n < 256
    ensures Scheduled(key, 0) == (Identity(), 0)
    ensures var (s, j) := Scheduled(key, n);
            var j' := Add(Add(j, s[n]), key[n % |key|]);
            Scheduled(key, n + 1) == (Swap(s, n, j'), j')
  {
    hide Identity, Swap, Add;
  }

  /** The key schedule: from the table in order, every index takes in its own entry and
      the key's next byte, and exchanges the two entries. */
  lemma ScheduleLaw(key: seq<Byte>, n: nat)
    requires key != [] && n < 256
    ensures forall k :: 0 <= k < 256 ==> Scheduled(key, 0).0[k] == k
    ensures Scheduled(key, 0).1 == 0
    ensures var (s, j) := Scheduled(key, n);
            var (t, j') := Scheduled(key, n + 1);
            j' as int == ((j as int) + (s[n] as int) + (key[n % |key|] as int)) % 256 && Exchanged(s, t, n, j')
  {
    ScheduledNext(key, n);
    ScheduledNext(key, 0);
    var (s, j) := Scheduled(key, n);
    hide Scheduled, Swap, Add, Exchanged;
    SumOfThree(j, s[n], key[n % |key|]);
    SwapExchanges(s, n, Add(Add(j, s[n]), key[n % |key|]));
  }

  lemma AfterNext(key: seq<Byte>, n: nat)
    requires key != []
    ensures After(key, 0) == Start(key) && After(key, n + 1) == Step(After(key, n))
  {
    hide Step, Start, IsPermutation;
  }

  lemma StartIs(key: seq<Byte>)
    requires key != []
    ensures Start(key) == Generator(Scheduled(key, 256).0, 0, 0)
  {
    hide Scheduled, IsPermutation;
  }

  lemma StepIs(g: Generator)
    requires |g.table| == 256
    ensures var h := Step(g);
            && h.i as int == ((g.i as int) + 1) % 256
            && h.j as int == ((g.j as int) + (g.table[h.i] as int)) % 256
            && Exchanged(g.table, h.table, h.i, h.j)
            && Output(h) == h.table[((h.table[h.i] as int) + (h.table[h.j] as int)) % 256]
  {
    hide Swap, Exchanged, IsPermutation;
    SwapExchanges(g.table, Step(g).i, Step(g).j);
  }

  lemma KeyByteIs(key: seq<Byte>, n: nat)
    requires key != []
    ensures KeyByte(key, n) == Output(After(key, n + 1))
  {
  }

  /** One turn: one index counts, the other takes in the entry there, the two entries
      are exchanged, and their sum points at the byte `k`. */
  predicate Turns(g: Generator, h: Generator, n: nat, k: Byte) {
    && |g.table| == |h.table| == 256
    && h.i as int == (n + 1) % 256
    && h.j as int == ((g.j as int) + (g.table[h.i] as int)) % 256
    && Exchanged(g.table, h.table, h.i, h.j)
    && k == h.table[((h.table[h.i] as int) + (h.table[h.j] as int)) % 256]
  }

  /** The keystream, from the scheduled table. */
  lemma KeystreamLaw(key: seq<Byte>, n: nat)
    requires key != []
    ensures After(key, 0) == Generator(Scheduled(key, 256).0, 0, 0)
    ensures Turns(After(key, n), After(key, n + 1), n, KeyByte(key, n))
  {
    KeyByteIs(key, n);
    StartIs(key);
    AfterNext(key, 0);
    AfterNext(key, n);
    Counts(key, n);
    StepTurns(After(key, n), n);
    hide *;
  }

  lemma StepTurns(g: Generator, n: nat)
    requires |g.table| == 256 && g.i as int == n % 256
    ensures Turns(g, Step(g), n, Output(Step(g)))
  {
    StepIs(g);
    hide Step, Output, Exchanged;
  }

  lemma {:induction false} Counts(key: seq<Byte>, n: nat)
    requires key != []
    ensures After(key, n).i as int == n % 256
  {
    hide *;
    StartIs(key);
    if n == 0 {
      AfterNext(key, 0);
    } else {
      AfterNext(key, n - 1);
      Counts(key, n - 1);
      StepIs(After(key, n - 1));
    }
  }

  /** RC4 is its own inverse. */
  lemma CipherInvertsItself(key: seq<Byte>, data: seq<Byte>)
    requires key != []
    ensures Cipher(key, Cipher(key, data)) == data
  {
    var twice := Cipher(key, Cipher(key, data));
    forall k | 0 <= k < |data|
      ensures twice[k] == data[k]
    {
      XorTwice(data[k], KeyByte(key, k));
    }
  }

  // ------------------------------------------------------------ the procedure

  method SwapInPlace(s: array<Byte>, i: Byte, j: Byte)
    requires s.Length == 256
    modifies s
    ensures s[..] == Swap(old(s[..]), i, j)
  {
    s[i], s[j] := s[j], s[i];
  }

  /** The key schedule, in place. */
  method Schedule(key: seq<Byte>, s: array<Byte>)
    requires key != [] && s.Length == 256 && s[..] == Identity()
    modifies s
    ensures s[..] == Scheduled(key, 256).0
  {
    var j: Byte := 0;
    for i := 0 to 256
      invariant (s[..], j) == Scheduled(key, i)
    {
      j := Add(Add(j, s[i]), key[i % |key|]);
      SwapInPlace(s, i, j);
    }
  }

  method NewTable(key: seq<Byte>) returns (s: array<Byte>)
    requires key != []
    ensures fresh(s) && s.Length == 256 && s[..] == Start(key).table
  {
    s := new Byte[256](i requires 0 <= i < 256 => i);
    assert s[..] == Identity();
    Schedule(key, s);
  }

  /** One turn of the generator, in place, and the key byte it gives. */
  method NextKeyByte(s: array<Byte>, i: Byte, j: Byte) returns (i': Byte, j': Byte, k: Byte)
    requires s.Length == 256
    modifies s
    ensures Generator(s[..], i', j') == Step(Generator(old(s[..]), i, j))
    ensures k == Output(Generator(s[..], i', j'))
  {
    i' := Add(i, 1);
    j' := Add(j, s[i']);
    SwapInPlace(s, i', j');
    k := s[Add(s[i'], s[j'])];
  }

  /** `rc4`. An empty key is an error of the caller (division by zero). */
  method Rc4(key: seq<Byte>, data: seq<Byte>) returns (out: seq<Byte>)
    requires key != []
    ensures out == Cipher(key, data)
  {
    var s := NewTable(key);
    out := [];
    var i: Byte, j: Byte := 0, 0;
    NothingYet(key, data);
    hide *;
    for n := 0 to |data|
      invariant s.Length == 256 && Generator(s[..], i, j) == After(key, n)
      invariant IsCipher(key, data[..n], out)
    {
      var k;
      i, j, k := NextKeyByte(s, i, j);
      OneMore(key, data, n, out);
      out := out + [Xor(data[n], k)];
    }
    CipherUnique(key, data, out);
  }

  lemma NothingYet(key: seq<Byte>, data: seq<Byte>)
    requires key != []
    ensures After(key, 0) == Start(key) && Start(key) == Generator(Start(key).table, 0, 0)
    ensures IsCipher(key, data[..0], [])
  {
  }

  lemma OneMore(key: seq<Byte>, data: seq<Byte>, n: nat, out: seq<Byte>)
    requires key != [] && n < |data| && IsCipher(key, data[..n], out)
    ensures After(key, n + 1) == Step(After(key, n))
    ensures IsCipher(key, data[..n + 1], out + [Xor(data[n], Output(After(key, n + 1)))])
  {
  }

  lemma CipherUnique(key: seq<Byte>, data: seq<Byte>, out: seq<Byte>)
    requires key != [] && IsCipher(key, data[..|data|], out)
    ensures out == Cipher(key, data)
  {
    assert data[..|data|] == data;
  }
}
