/** The GIF image-data writer (`_gif_lzw`), against the variable-width LZW
    decoder of appendix F of the GIF89a specification. */
module GifLzw {
  import opened Nums

  // ------------------------------------------------------------ bits, lowest first

  function Lsb(value: nat, length: nat): (bits: seq<bool>)
    ensures |bits| == length
  {
    if length == 0 then [] else [value % 2 == 1] + Lsb(value / 2, length - 1)
  }

  function FromLsb(bits: seq<bool>): nat {
    if bits == [] then 0 else (if bits[0] then 1 else 0) + 2 * FromLsb(bits[1..])
  }

  function LsbBits(bytes: seq<Byte>): seq<bool> {
    if bytes == [] then [] else Lsb(bytes[0], 8) + LsbBits(bytes[1..])
  }

  lemma {:induction false} LsbBitsAppend(a: seq<Byte>, b: seq<Byte>)
    ensures LsbBits(a + b) == LsbBits(a) + LsbBits(b)
  {
    hide Lsb;
    if a == [] {
      assert a + b == b;
    } else {
      LsbBitsAppend(a[1..], b);
      assert (a + b)[1..] == a[1..] + b;
    }
  }

  lemma {:induction false} FromLsbOfLsb(value: nat, length: nat)
    requires value < Pow2(length)
    ensures FromLsb(Lsb(value, length)) == value
  {
    if length > 0 {
      FromLsbOfLsb(value / 2, length - 1);
      assert Lsb(value, length)[1..] == Lsb(value / 2, length - 1);
    }
  }

  /** A number whose low `a` bits and remaining bits are taken apart. */
  lemma {:induction false} LsbSplit(low: nat, high: nat, a: nat, b: nat)
    requires low < Pow2(a)
    ensures Lsb(low + high * Pow2(a), a + b) == Lsb(low, a) + Lsb(high, b)
  {
    if a == 0 {
      assert low + high * Pow2(0) == high;
    } else {
      hide *;
      var v, w := low + high * Pow2(a), low / 2 + high * Pow2(a - 1);
      Halves(low, high, a);
      LsbStep(v, a - 1 + b);
      LsbStep(low, a - 1);
      LsbSplit(low / 2, high, a - 1, b);
      var bit: seq<bool> := [low % 2 == 1];
      assert bit + (Lsb(low / 2, a - 1) + Lsb(high, b)) == bit + Lsb(low / 2, a - 1) + Lsb(high, b);
    }
  }

  lemma LsbStep(value: nat, length: nat)
    ensures Lsb(value, length + 1) == [value % 2 == 1] + Lsb(value / 2, length)
  {
  }

  lemma Halves(low: nat, high: nat, a: nat)
    requires a > 0 && low < Pow2(a)
    ensures low / 2 < Pow2(a - 1)
    ensures low + high * Pow2(a) >= 0 && low / 2 + high * Pow2(a - 1) >= 0
    ensures (low + high * Pow2(a)) / 2 == low / 2 + high * Pow2(a - 1)
    ensures (low + high * Pow2(a)) % 2 == low % 2
  {
    var p := Pow2(a - 1);
    assert Pow2(a) == 2 * p;
    hide Pow2;
    Halved(low, high, p);
  }

  lemma Halved(low: nat, high: nat, p: nat)
    requires low < 2 * p
    ensures low / 2 < p
    ensures (low + high * (2 * p)) / 2 == low / 2 + high * p && (low + high * (2 * p)) % 2 == low % 2
  {
    assert high * (2 * p) == 2 * (high * p);
  }

  // ------------------------------------------------------------ the codes

  const Clear := 4
  const End := 5

  function Least(a: nat, b: nat): nat { if a < b then a else b }

  /** A clear code before every pair of pixels. */
  function Codes(indices: seq<nat>): seq<nat> {
    if indices == [] then []
    else if |indices| == 1 then [Clear] + [indices[0]]
    else [Clear] + ([indices[0]] + ([indices[1]] + Codes(indices[2..])))
  }

  /** Place by place: every third code clears, and the two after it are the next indices. */
  predicate ClearsEveryPair(codes: seq<nat>, indices: seq<nat>) {
    && |codes| == |indices| + (|indices| + 1) / 2
    && forall j :: 0 <= j < |codes| ==> codes[j] == CodeAt(indices, j)
  }

  function CodeAt(indices: seq<nat>, j: nat): nat {
    var k := 2 * (j / 3) + j % 3 - 1;
    if j % 3 == 0 then Clear else if k < |indices| then indices[k] else End
  }

  lemma {:induction false} CodesLaw(indices: seq<nat>)
    ensures ClearsEveryPair(Codes(indices), indices)
  {
    if |indices| > 1 {
      var rest := indices[2..];
      CodesLaw(rest);
      var codes := Codes(indices);
      assert codes == [Clear, indices[0], indices[1]] + Codes(rest);
      forall j | 0 <= j < |codes|
        ensures codes[j] == CodeAt(indices, j)
      {
        if j >= 3 {
          assert codes[j] == Codes(rest)[j - 3];
        }
      }
    }
  }

  function CodeBits(codes: seq<nat>): seq<bool> {
    if codes == [] then [] else Lsb(codes[0], 3) + CodeBits(codes[1..])
  }

  lemma {:induction false} CodeBitsSnoc(codes: seq<nat>, code: nat)
    ensures CodeBits(codes + [code]) == CodeBits(codes) + Lsb(code, 3)
  {
    if codes == [] {
      assert CodeBits([code]) == Lsb(code, 3) + CodeBits([]);
    } else {
      CodeBitsSnoc(codes[1..], code);
      assert (codes + [code])[1..] == codes[1..] + [code];
    }
  }

  // ------------------------------------------------------------ sub-blocks

  function SubBlocks(data: seq<Byte>): seq<Byte> {
    if data == [] then [0]
    else
      var k := Least(255, |data|);
      [k] + data[..k] + SubBlocks(data[k..])
  }

  /** All blocks but the last are full. */
  lemma {:induction false} SubBlocksLength(data: seq<Byte>)
    ensures |SubBlocks(data)| == |data| + (|data| + 254) / 255 + 1
  {
    if data != [] {
      SubBlocksLength(data[Least(255, |data|)..]);
    }
  }

  function ReadSubBlocks(bytes: seq<Byte>): Option<(seq<Byte>, seq<Byte>)> {
    if bytes == [] then None
    else
      var k := bytes[0] as int;
      if k == 0 then Some(([], bytes[1..]))
      else if |bytes| < 1 + k then None
      else
        match ReadSubBlocks(bytes[1 + k..])
        case None => None
        case Some((data, rest)) => Some((bytes[1..1 + k] + data, rest))
  }

  lemma {:induction false} SubBlocksRead(data: seq<Byte>)
    ensures ReadSubBlocks(SubBlocks(data)) == Some((data, []))
  {
    if data != [] {
      var k := Least(255, |data|);
      SubBlocksRead(data[k..]);
      var s := SubBlocks(data);
      assert s[1..1 + k] == data[..k] && s[1 + k..] == SubBlocks(data[k..]);
      assert data[..k] + data[k..] == data;
    } else {
      assert SubBlocks(data)[1..] == [];
    }
  }

  // ------------------------------------------------------------ the decoder

  /** The decoder's dictionary, the string of the previous code (empty right
      after a clear) and the current code width. */
  datatype State = State(dict: seq<seq<nat>>, previous: seq<nat>, width: nat)

  function Roots(n: nat): (r: seq<seq<nat>>)
    ensures |r| == n && forall i :: 0 <= i < n ==> r[i] == [i]
  {
    seq(n, i => [i])
  }

  /** After a clear code: the roots, the two control codes, minimum width. */
  function Cleared(minimum: nat): State {
    State(Roots(Pow2(minimum)) + [[], []], [], minimum + 1)
  }

  /** What a data code stands for, and the state after it. The dictionary gains
      one string, and the width grows when the dictionary fills it. */
  function Take(st: State, code: nat): Option<(seq<nat>, State)> {
    if st.previous == [] then
      if code < |st.dict| && st.dict[code] != [] then
        Some((st.dict[code], st.(previous := st.dict[code])))
      else None
    else
      var entry := if code < |st.dict| then st.dict[code]
                   else if code == |st.dict| then st.previous + [st.previous[0]] else [];
      if entry == [] then None
      else if |st.dict| >= 4096 then Some((entry, st.(previous := entry)))
      else
        var dict := st.dict + [st.previous + [entry[0]]];
        var width := if |dict| == Pow2(st.width) && st.width < 12 then st.width + 1 else st.width;
        Some((entry, State(dict, entry, width)))
  }

  /** The pixels of a code stream, and the width of every code read. */
  function DecodeCodes(bits: seq<bool>, minimum: nat, st: State): Option<(seq<nat>, seq<nat>)>
    decreases |bits|
  {
    if st.width == 0 || |bits| < st.width then None
    else
      var code := FromLsb(bits[..st.width]);
      var rest := bits[st.width..];
      if code == Pow2(minimum) + 1 then Some(([], [st.width]))
      else if code == Pow2(minimum) then
        Prepend([], st.width, DecodeCodes(rest, minimum, Cleared(minimum)))
      else
        match Take(st, code)
        case None => None
        case Some((entry, next)) => Prepend(entry, st.width, DecodeCodes(rest, minimum, next))
  }

  function Prepend(entry: seq<nat>, width: nat, r: Option<(seq<nat>, seq<nat>)>)
    : Option<(seq<nat>, seq<nat>)>
  {
    if r.None? then None else Some((entry + r.value.0, [width] + r.value.1))
  }

  /** Image data as a whole: minimum code size, sub-blocks, terminator. */
  function Decode(bytes: seq<Byte>): Option<(seq<nat>, seq<nat>)> {
    if bytes == [] then None
    else
      match ReadSubBlocks(bytes[1..])
      case None => None
      case Some((data, rest)) =>
        if rest != [] then None else DecodeCodes(LsbBits(data), bytes[0], Cleared(bytes[0]))
  }

  // ------------------------------------------------------------ round trip

  predicate AllPixels(indices: seq<nat>) { forall i :: 0 <= i < |indices| ==> indices[i] < 4 }

  lemma ReadCode(code: nat, rest: seq<bool>)
    requires code < 8
    ensures var bits := Lsb(code, 3) + rest; FromLsb(bits[..3]) == code && bits[3..] == rest
  {
    assert Pow2(3) == 8;
    FromLsbOfLsb(code, 3);
    assert (Lsb(code, 3) + rest)[..3] == Lsb(code, 3);
  }

  lemma ClearRead(st: State, rest: seq<bool>)
    requires st.width == 3
    ensures DecodeCodes(Lsb(Clear, 3) + rest, 2, st)
         == Prepend([], 3, DecodeCodes(rest, 2, Cleared(2)))
  {
    assert Pow2(2) == 4;
    ReadCode(Clear, rest);
  }

  lemma PixelRead(st: State, pixel: nat, rest: seq<bool>)
    requires st.width == 3 && pixel < 4 && Take(st, pixel).Some?
    ensures DecodeCodes(Lsb(pixel, 3) + rest, 2, st)
         == Prepend(Take(st, pixel).value.0, 3, DecodeCodes(rest, 2, Take(st, pixel).value.1))
  {
    assert Pow2(2) == 4;
    ReadCode(pixel, rest);
  }

  lemma EndRead(st: State, rest: seq<bool>)
    requires st.width == 3
    ensures DecodeCodes(Lsb(End, 3) + rest, 2, st) == Some(([], [3]))
  {
    assert Pow2(2) == 4;
    ReadCode(End, rest);
  }

  /** One pixel after a clear adds nothing to the dictionary; the next adds one
      string, which leaves it short of eight. */
  lemma TakesAfterClear(a: nat, b: nat)
    requires a < 4 && b < 4
    ensures Take(Cleared(2), a).Some?
    ensures var (entry, st) := Take(Cleared(2), a).value;
            && entry == [a] && st.width == 3
            && Take(st, b).Some? && Take(st, b).value.0 == [b] && Take(st, b).value.1.width == 3
  {
    assert Pow2(2) == 4 && Pow2(3) == 8;
    var st := Cleared(2);
    assert st.dict[a] == [a] && st.dict[b] == [b] && |st.dict| == 6;
  }

  ghost predicate AllThrees(widths: seq<nat>) { forall i :: 0 <= i < |widths| ==> widths[i] == 3 }

  ghost predicate DecodesTo(r: Option<(seq<nat>, seq<nat>)>, indices: seq<nat>) {
    r.Some? && r.value.0 == indices && AllThrees(r.value.1)
  }

  function AfterOne(a: nat): State
    requires a < 4
  {
    TakesAfterClear(a, a);
    Take(Cleared(2), a).value.1
  }

  function AfterTwo(a: nat, b: nat): State
    requires a < 4 && b < 4
  {
    TakesAfterClear(a, b);
    Take(AfterOne(a), b).value.1
  }

  lemma AfterPixels(a: nat, b: nat)
    requires a < 4 && b < 4
    ensures Cleared(2).width == 3 && AfterOne(a).width == 3 && AfterTwo(a, b).width == 3
    ensures Take(Cleared(2), a) == Some(([a], AfterOne(a)))
    ensures Take(AfterOne(a), b) == Some(([b], AfterTwo(a, b)))
  {
    TakesAfterClear(a, b);
  }

  lemma PrependDecodes(entry: seq<nat>, r: Option<(seq<nat>, seq<nat>)>, rest: seq<nat>)
    requires DecodesTo(r, rest)
    ensures DecodesTo(Prepend(entry, 3, r), entry + rest)
  {
  }

  lemma OnePixelDecodes(a: nat, st: State, more: seq<bool>, rest: seq<nat>)
    requires a < 4 && st.width == 3
    requires DecodesTo(DecodeCodes(more, 2, AfterOne(a)), rest)
    ensures DecodesTo(DecodeCodes(Lsb(Clear, 3) + (Lsb(a, 3) + more), 2, st), [a] + rest)
  {
    hide *;
    AfterPixels(a, a);
    ClearRead(st, Lsb(a, 3) + more);
    PixelRead(Cleared(2), a, more);
    PrependDecodes([a], DecodeCodes(more, 2, AfterOne(a)), rest);
    PrependDecodes([], DecodeCodes(Lsb(a, 3) + more, 2, Cleared(2)), [a] + rest);
    assert [] + ([a] + rest) == [a] + rest;
  }

  lemma TwoPixelsDecode(a: nat, b: nat, st: State, more: seq<bool>, rest: seq<nat>)
    requires a < 4 && b < 4 && st.width == 3
    requires DecodesTo(DecodeCodes(more, 2, AfterTwo(a, b)), rest)
    ensures DecodesTo(DecodeCodes(Lsb(Clear, 3) + (Lsb(a, 3) + (Lsb(b, 3) + more)), 2, st), [a, b] + rest)
  {
    hide *;
    AfterPixels(a, b);
    PixelRead(AfterOne(a), b, more);
    PrependDecodes([b], DecodeCodes(more, 2, AfterTwo(a, b)), rest);
    OnePixelDecodes(a, st, Lsb(b, 3) + more, [b] + rest);
    assert [a] + ([b] + rest) == [a, b] + rest;
  }

  lemma {:induction false} CodesDecode(indices: seq<nat>, st: State, padding: seq<bool>)
    requires AllPixels(indices) && st.width == 3
    ensures DecodesTo(DecodeCodes(CodeBits(Codes(indices)) + (Lsb(End, 3) + padding), 2, st), indices)
    decreases |indices|
  {
    var tail := Lsb(End, 3) + padding;
    if indices == [] {
      assert CodeBits(Codes(indices)) + tail == tail;
      EndRead(st, padding);
    } else if |indices| == 1 {
      TakesAfterClear(indices[0], indices[0]);
      CodesDecode([], AfterOne(indices[0]), padding);
      OneCodeBits(indices, tail);
      OnePixelDecodes(indices[0], st, CodeBits([]) + tail, []);
      assert indices == [indices[0]] + [];
    } else {
      TakesAfterClear(indices[0], indices[1]);
      CodesDecode(indices[2..], AfterTwo(indices[0], indices[1]), padding);
      TwoCodeBits(indices, tail);
      TwoPixelsDecode(indices[0], indices[1], st, CodeBits(Codes(indices[2..])) + tail, indices[2..]);
      assert indices == [indices[0], indices[1]] + indices[2..];
    }
  }

  lemma CodeBitsCons(code: nat, codes: seq<nat>, tail: seq<bool>)
    ensures CodeBits([code] + codes) + tail == Lsb(code, 3) + (CodeBits(codes) + tail)
  {
    assert ([code] + codes)[1..] == codes;
  }

  lemma OneCodeBits(indices: seq<nat>, tail: seq<bool>)
    requires |indices| == 1
    ensures CodeBits(Codes(indices)) + tail
         == Lsb(Clear, 3) + (Lsb(indices[0], 3) + (CodeBits([]) + tail))
  {
    assert Codes(indices) == [Clear] + ([indices[0]] + []);
    hide CodeBits, Codes, Lsb;
    CodeBitsCons(Clear, [indices[0]] + [], tail);
    CodeBitsCons(indices[0], [], tail);
  }

  lemma TwoCodeBits(indices: seq<nat>, tail: seq<bool>)
    requires |indices| >= 2
    ensures CodeBits(Codes(indices)) + tail
         == Lsb(Clear, 3) + (Lsb(indices[0], 3) + (Lsb(indices[1], 3) + (CodeBits(Codes(indices[2..])) + tail)))
  {
    var more := Codes(indices[2..]);
    assert Codes(indices) == [Clear] + ([indices[0]] + ([indices[1]] + more));
    hide CodeBits, Codes, Lsb;
    CodeBitsCons(Clear, [indices[0]] + ([indices[1]] + more), tail);
    CodeBitsCons(indices[0], [indices[1]] + more, tail);
    CodeBitsCons(indices[1], more, tail);
  }

  // ------------------------------------------------------------ the writer

  /** `_gif_lzw`. */
  method Write(indices: seq<nat>) returns (bytes: seq<Byte>)
    requires AllPixels(indices)
    ensures DecodesTo(Decode(bytes), indices)
  {
    var codes := CodeList(indices);
    ghost var padding;
    var out;
    out, padding := Pack(codes);
    bytes := Blocks(out);
    SubBlocksRead(out);
    assert bytes[1..] == SubBlocks(out);
    CodeBitsSnoc(Codes(indices), End);
    assert CodeBits(Codes(indices)) + Lsb(End, 3) + padding
        == CodeBits(Codes(indices)) + (Lsb(End, 3) + padding);
    assert Pow2(2) == 4;
    CodesDecode(indices, Cleared(2), padding);
  }

  /** The codes of the indices from `i` on; nothing once they are used up. */
  function CodesFrom(indices: seq<nat>, i: nat): seq<nat> {
    if i < |indices| then Codes(indices[i..]) else []
  }

  lemma NextPair(indices: seq<nat>, i: nat)
    requires i < |indices|
    ensures CodesFrom(indices, i)
         == [Clear] + indices[i..Least(i + 2, |indices|)] + CodesFrom(indices, i + 2)
  {
    var rest := indices[i..];
    if |rest| == 1 {
      assert indices[i..i + 1] == [rest[0]];
    } else {
      assert rest[2..] == indices[i + 2..];
      assert indices[i..i + 2] == [rest[0]] + [rest[1]];
      assert i + 2 == |indices| ==> Codes(rest[2..]) == [];
    }
  }

  lemma CodesFromBounds(indices: seq<nat>)
    ensures CodesFrom(indices, 0) == Codes(indices)
    ensures forall i: nat :: i >= |indices| ==> CodesFrom(indices, i) == []
  {
    assert indices[0..] == indices;
  }

  method CodeList(indices: seq<nat>) returns (codes: seq<nat>)
    requires AllPixels(indices)
    ensures codes == Codes(indices) + [End] && ClearsEveryPair(Codes(indices), indices)
    ensures forall i :: 0 <= i < |codes| ==> codes[i] < 8
  {
    codes := [];
    var i := 0;
    CodesFromBounds(indices);
    CodesLaw(indices);
    hide CodesFrom, Codes, ClearsEveryPair;
    while i < |indices|
      invariant 0 <= i
      invariant codes + CodesFrom(indices, i) == CodesFrom(indices, 0)
      invariant forall j :: 0 <= j < |codes| ==> codes[j] < 8
      decreases |indices| - i
    {
      NextPair(indices, i);
      var pair: seq<nat> := [Clear] + indices[i..Least(i + 2, |indices|)];
      assert forall j :: 0 <= j < |pair| ==> pair[j] < 8;
      assert codes + pair + CodesFrom(indices, i + 2) == codes + (pair + CodesFrom(indices, i + 2));
      codes := codes + pair;
      i := i + 2;
    }
    codes := codes + [End];
  }

  /** The accumulator loop: three bits in, whole bytes out. */
  method Pack(codes: seq<nat>) returns (out: seq<Byte>, ghost padding: seq<bool>)
    requires forall i :: 0 <= i < |codes| ==> codes[i] < 8
    ensures LsbBits(out) == CodeBits(codes) + padding && |padding| < 8
  {
    out := [];
    var acc: nat, n: nat := 0, 0;
    assert codes[..0] == [] && Pow2(0) == 1;
    assert LsbBits([]) + Lsb(0, 0) == CodeBits([]);
    hide Lsb, LsbBits, CodeBits, Pow2;
    for k := 0 to |codes|
      invariant n < 8 && acc < Pow2(n)
      invariant LsbBits(out) + Lsb(acc, n) == CodeBits(codes[..k])
    {
      assert codes[..k + 1] == codes[..k] + [codes[k]];
      CodeBitsSnoc(codes[..k], codes[k]);
      CodeIn(out, acc, n, codes[k]);
      acc := acc + codes[k] * Pow2(n);  // `acc |= code << n`: the low n bits of the code are clear
      n := n + 3;
      out, acc, n := BytesOut(out, acc, n);
    }
    assert codes[..|codes|] == codes;
    padding := [];
    NoBits(acc);
    if n > 0 {
      padding := Lsb(0, 8 - n);
      LastByte(out, acc, n);
      out := out + [acc % 256];
    }
  }

  /** The inner loop: every whole byte goes out. */
  method BytesOut(out0: seq<Byte>, acc0: nat, n0: nat) returns (out: seq<Byte>, acc: nat, n: nat)
    requires acc0 < Pow2(n0)
    ensures n < 8 && acc < Pow2(n)
    ensures LsbBits(out) + Lsb(acc, n) == LsbBits(out0) + Lsb(acc0, n0)
  {
    hide Lsb, LsbBits, Pow2;
    out, acc, n := out0, acc0, n0;
    while n >= 8
      invariant acc < Pow2(n)
      invariant LsbBits(out) + Lsb(acc, n) == LsbBits(out0) + Lsb(acc0, n0)
      decreases n
    {
      ByteOut(out, acc, n);
      out := out + [acc % 256];
      acc := acc / 256;
      n := n - 8;
    }
  }

  lemma CodeIn(out: seq<Byte>, acc: nat, n: nat, code: nat)
    requires acc < Pow2(n) && code < 8
    ensures 0 <= acc + code * Pow2(n) < Pow2(n + 3)
    ensures LsbBits(out) + Lsb(acc + code * Pow2(n), n + 3) == LsbBits(out) + Lsb(acc, n) + Lsb(code, 3)
  {
    hide Lsb, LsbBits;
    LsbSplit(acc, code, n, 3);
    EightTimes(n);
    hide Pow2;
    SevenTimes(code, Pow2(n));
  }

  lemma EightTimes(n: nat)
    ensures Pow2(n + 3) == 8 * Pow2(n)
  {
    assert Pow2(n + 3) == 2 * Pow2(n + 2) && Pow2(n + 2) == 2 * Pow2(n + 1);
  }

  lemma SevenTimes(code: nat, p: nat)
    requires code < 8
    ensures 0 <= code * p <= 7 * p
  {
  }

  /** One more byte is eight more bits. */
  lemma OneByte(out: seq<Byte>, b: Byte)
    ensures LsbBits(out + [b]) == LsbBits(out) + Lsb(b, 8)
  {
    hide Lsb;
    LsbBitsAppend(out, [b]);
    assert LsbBits([b]) == Lsb(b, 8) + LsbBits([]);
  }

  lemma LowByte(acc: nat, n: nat)
    requires n >= 8 && acc < Pow2(n)
    ensures acc / 256 < Pow2(n - 8)
    ensures Lsb(acc, n) == Lsb(acc % 256, 8) + Lsb(acc / 256, n - 8)
  {
    hide Lsb;
    assert Pow2(8) == 256;
    Pow2Add(n - 8, 8);
    LsbSplit(acc % 256, acc / 256, 8, n - 8);
  }

  lemma ByteOut(out: seq<Byte>, acc: nat, n: nat)
    requires n >= 8 && acc < Pow2(n)
    ensures acc / 256 < Pow2(n - 8)
    ensures LsbBits(out + [acc % 256]) + Lsb(acc / 256, n - 8) == LsbBits(out) + Lsb(acc, n)
  {
    hide Lsb, LsbBits, Pow2;
    LowByte(acc, n);
    OneByte(out, acc % 256);
  }

  lemma LastByte(out: seq<Byte>, acc: nat, n: nat)
    requires 0 < n < 8 && acc < Pow2(n)
    ensures acc < 256
    ensures LsbBits(out + [acc % 256]) == LsbBits(out) + Lsb(acc, n) + Lsb(0, 8 - n)
  {
    EightBits();
    hide Lsb, LsbBits, Pow2;
    Pow2Monotone(n, 8);
    LsbSplit(acc, 0, n, 8 - n);
    assert acc + 0 * Pow2(n) == acc;
    OneByte(out, acc);
  }

  lemma EightBits()
    ensures Pow2(8) == 256
  {
  }

  lemma NoBits(acc: nat)
    ensures Lsb(acc, 0) == []
  {
  }

  /** The sub-blocks of what is left from index `i` on. */
  function BlocksFrom(out: seq<Byte>, i: nat): seq<Byte> {
    if i < |out| then SubBlocks(out[i..]) else SubBlocks([])
  }

  lemma BlocksFromEnds(out: seq<Byte>, i: nat)
    ensures BlocksFrom(out, 0) == SubBlocks(out)
    ensures i >= |out| ==> BlocksFrom(out, i) == [0]
  {
    assert out[0..] == out;
  }

  lemma NextSubBlock(out: seq<Byte>, i: nat)
    requires i < |out|
    ensures BlocksFrom(out, i)
         == [Least(255, |out| - i)] + out[i..i + Least(255, |out| - i)] + BlocksFrom(out, i + 255)
  {
    var k := Least(255, |out| - i);
    var rest := out[i..];
    assert SubBlocks(rest) == [k] + rest[..k] + SubBlocks(rest[k..]);
    hide SubBlocks;
    assert rest[..k] == out[i..i + k] && rest[k..] == out[i + k..];
    assert i + 255 >= |out| ==> rest[k..] == [];
  }

  lemma Regrouped(a: seq<Byte>, b: seq<Byte>, c: seq<Byte>, d: seq<Byte>)
    ensures a + b + c + d == a + (b + c + d)
  {
  }

  /** The minimum code size, then sub-blocks of at most 255 bytes. */
  method Blocks(out: seq<Byte>) returns (blocks: seq<Byte>)
    ensures blocks == [2] + SubBlocks(out) && |blocks| == 2 + |out| + (|out| + 254) / 255
  {
    blocks := [2];
    var i := 0;
    BlocksFromEnds(out, 0);
    hide SubBlocks, BlocksFrom;
    while i < |out|
      invariant 0 <= i
      invariant blocks + BlocksFrom(out, i) == [2] + SubBlocks(out)
      decreases |out| - i
    {
      var k := Least(255, |out| - i);
      NextSubBlock(out, i);
      Regrouped(blocks, [k], out[i..i + k], BlocksFrom(out, i + 255));
      blocks := blocks + [k];
      blocks := blocks + out[i..i + k];
      i := i + 255;
    }
    BlocksFromEnds(out, i);
    blocks := blocks + [0];
    SubBlocksLength(out);
  }
}
