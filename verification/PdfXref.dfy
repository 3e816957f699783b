/** The PDF writer (`pdf`): a reader that starts from the end of the file finds
    every object at the byte offset its cross-reference entry gives. */
module PdfXref {
  import opened Nums

  // ------------------------------------------------------------ ASCII

  function Code(c: char): Byte {
    if c < 256 as char then c as int else 63
  }

  /** The bytes of an ASCII literal. */
  function Ascii(s: string): (r: seq<Byte>)
    ensures |r| == |s| && forall i :: 0 <= i < |s| ==> r[i] == Code(s[i])
  {
    if s == "" then [] else [Code(s[0])] + Ascii(s[1..])
  }

  predicate IsDigit(b: int) { 48 <= b <= 57 }

  predicate AllDigits(s: seq<Byte>) { forall i :: 0 <= i < |s| ==> IsDigit(s[i]) }

  /** `str(n)` for a natural number. */
  function Dec(n: nat): (r: seq<Byte>)
    ensures r != [] && AllDigits(r)
  {
    if n < 10 then [48 + n] else Dec(n / 10) + [48 + n % 10]
  }

  function DecInt(n: int): seq<Byte> {
    if n < 0 then [45] + Dec(-n) else Dec(n)
  }

  function ReadDec(s: seq<Byte>): nat
    requires AllDigits(s)
  {
    if s == [] then 0 else 10 * ReadDec(s[..|s| - 1]) + (s[|s| - 1] - 48)
  }

  lemma {:induction false} ReadDecInvertsDec(n: nat)
    ensures ReadDec(Dec(n)) == n
  {
    var s := Dec(n);
    if n >= 10 {
      ReadDecInvertsDec(n / 10);
      assert s[..|s| - 1] == Dec(n / 10);
    } else {
      assert s[..0] == [];
    }
  }

  function Pow10(k: nat): (r: nat)
    ensures r > 0
  {
    if k == 0 then 1 else 10 * Pow10(k - 1)
  }

  lemma {:induction false} DecLength(n: nat, k: nat)
    requires k > 0
    ensures |Dec(n)| <= k <==> n < Pow10(k)
  {
    if k == 1 {
      assert Pow10(1) == 10 * Pow10(0);
    } else if n >= 10 {
      DecLength(n / 10, k - 1);
    }
  }

  /** `f"{n:010d}"`. */
  function Padded10(n: nat): (r: seq<Byte>)
    ensures AllDigits(r) && |r| >= 10
  {
    var d := Dec(n);
    (if |d| < 10 then seq(10 - |d|, _ => 48) else []) + d
  }

  lemma {:induction false} LeadingZeros(z: nat, d: seq<Byte>)
    requires AllDigits(d)
    ensures AllDigits(seq(z, _ => 48) + d) && ReadDec(seq(z, _ => 48) + d) == ReadDec(d)
    decreases |d|, z
  {
    var s: seq<Byte> := seq(z, _ => 48) + d;
    if d != [] {
      LeadingZeros(z, d[..|d| - 1]);
      assert s[..|s| - 1] == seq(z, _ => 48) + d[..|d| - 1];
    } else if z > 0 {
      LeadingZeros(z - 1, d);
      assert s[..|s| - 1] == seq(z - 1, _ => 48) + d;
    }
  }

  lemma Padded10ReadsBack(n: nat)
    ensures ReadDec(Padded10(n)) == n
    ensures |Padded10(n)| == 10 <==> n < 100_0000_0000
  {
    ReadDecInvertsDec(n);
    var d := Dec(n);
    if |d| < 10 {
      LeadingZeros(10 - |d|, d);
    } else {
      assert Padded10(n) == d;
    }
    TenDigits(n);
  }

  lemma TenDigits(n: nat)
    ensures |Dec(n)| <= 10 <==> n < 100_0000_0000
  {
    DecLength(n, 10);
    assert Pow10(5) == 100000;
    assert Pow10(10) == 100000 * Pow10(5);
  }

  /** How many digits `s` starts with. */
  function LeadingDigits(s: seq<Byte>): (k: nat)
    ensures k <= |s| && AllDigits(s[..k])
    ensures k < |s| ==> !IsDigit(s[k])
  {
    if s == [] || !IsDigit(s[0]) then 0
    else
      var k := LeadingDigits(s[1..]);
      assert s[..k + 1] == [s[0]] + s[1..][..k];
      k + 1
  }

  /** How many digits `s` ends with. */
  function TrailingDigits(s: seq<Byte>): (k: nat)
    ensures k <= |s| && AllDigits(s[|s| - k..])
    ensures k < |s| ==> !IsDigit(s[|s| - k - 1])
  {
    if s == [] || !IsDigit(s[|s| - 1]) then 0
    else
      var k := TrailingDigits(s[..|s| - 1]);
      assert s[|s| - 1 - k..] == s[..|s| - 1][|s| - 1 - k..] + [s[|s| - 1]];
      k + 1
  }

  lemma {:induction false} LeadingDigitsOf(d: seq<Byte>, stop: Byte, rest: seq<Byte>)
    requires AllDigits(d) && !IsDigit(stop)
    ensures LeadingDigits(d + [stop] + rest) == |d|
  {
    if d != [] {
      LeadingDigitsOf(d[1..], stop, rest);
      assert (d + [stop] + rest)[1..] == d[1..] + [stop] + rest;
    }
  }

  lemma {:induction false} TrailingDigitsOf(front: seq<Byte>, stop: Byte, d: seq<Byte>)
    requires AllDigits(d) && !IsDigit(stop)
    ensures TrailingDigits(front + [stop] + d) == |d|
  {
    var s := front + [stop] + d;
    if d != [] {
      TrailingDigitsOf(front, stop, d[..|d| - 1]);
      assert s[..|s| - 1] == front + [stop] + d[..|d| - 1];
    }
  }

  // ------------------------------------------------------------ places in a file

  predicate At(file: seq<Byte>, p: int, s: seq<Byte>) {
    0 <= p && p + |s| <= |file| && file[p..p + |s|] == s
  }

  lemma AtAfter(a: seq<Byte>, s: seq<Byte>, b: seq<Byte>)
    ensures At(a + s + b, |a|, s)
  {
  }

  lemma AtStays(a: seq<Byte>, b: seq<Byte>, p: int, s: seq<Byte>)
    requires At(a, p, s)
    ensures At(a + b, p, s)
  {
  }

  // ------------------------------------------------------------ values

  datatype Value =
    | Raw(bytes: seq<Byte>)
    | Name(name: seq<Byte>)
    | Boolean(on: bool)
    | Integer(number: int)
    | Float(digits: seq<Byte>)
    | Ref(num: int)
    | Text(chars: seq<nat>)
    | List(items: seq<Value>)
    | Dict(fields: seq<Field>)
    | Unsupported

  datatype Field = Field(key: seq<Byte>, value: Value)

  datatype Object = Plain(value: Value) | Stream(dictionary: seq<Field>, data: seq<Byte>)

  /** `encrypt` of one handler, None where it raises, and its dictionary. */
  datatype Handler = Handler(encrypt: (int, seq<Byte>) -> Option<seq<Byte>>, dictionary: Value)

  /** `str.encode("latin-1")`; None stands for UnicodeEncodeError. */
  function Latin1(chars: seq<nat>): Option<seq<Byte>> {
    if exists i :: 0 <= i < |chars| && chars[i] >= 256 then None
    else Some(seq(|chars|, i requires 0 <= i < |chars| && chars[i] < 256 => chars[i]))
  }

  function HexDigit(n: nat): Byte
    requires n < 16
  {
    if n < 10 then 48 + n else 87 + n
  }

  function Hex(data: seq<Byte>): seq<Byte> {
    if data == [] then [] else [HexDigit(data[0] / 16), HexDigit(data[0] % 16)] + Hex(data[1..])
  }

  function HexValue(b: Byte): Option<nat> {
    if IsDigit(b) then Some(b - 48) else if 97 <= b <= 102 then Some(b - 87) else None
  }

  function Unhex(s: seq<Byte>): Option<seq<Byte>> {
    if s == [] then Some([])
    else if |s| == 1 then None
    else
      var high, low, rest := HexValue(s[0]), HexValue(s[1]), Unhex(s[2..]);
      if high.None? || low.None? || rest.None? || high.value >= 16 || low.value >= 16 then None
      else Some([(16 * high.value + low.value) as int] + rest.value)
  }

  lemma HexDigitReads(n: nat)
    requires n < 16
    ensures HexValue(HexDigit(n)) == Some(n)
  {
  }

  lemma {:induction false} UnhexInvertsHex(data: seq<Byte>)
    ensures Unhex(Hex(data)) == Some(data)
  {
    if data != [] {
      UnhexInvertsHex(data[1..]);
      assert Hex(data)[2..] == Hex(data[1..]);
      var high, low: nat := data[0] / 16, data[0] % 16;
      assert 16 * high + low == data[0] && high < 16;
      HexDigitReads(high);
      HexDigitReads(low);
      assert [data[0]] + data[1..] == data;
    }
  }

  const BACKSLASH := 92
  const OPEN := 40
  const CLOSE := 41
  const CR := 13
  const LF := 10

  predicate Special(b: Byte) { b == BACKSLASH || b == OPEN || b == CLOSE }

  function Escaped(text: seq<Byte>): seq<Byte> {
    if text == [] then []
    else (if Special(text[0]) then [BACKSLASH, text[0]] else [text[0]]) + Escaped(text[1..])
  }

  /** `_literal`, as the one pass that its three replacements amount to. */
  function Literal(text: seq<Byte>): seq<Byte> {
    [OPEN] + Escaped(text) + [CLOSE]
  }

  /** `bytes.replace` of one byte by two. */
  function Replaced(s: seq<Byte>, b: Byte, with: seq<Byte>): seq<Byte> {
    if s == [] then [] else (if s[0] == b then with else [s[0]]) + Replaced(s[1..], b, with)
  }

  /** The backslashes are doubled first, so the later two replacements add none
      that would be escaped again. */
  lemma {:induction false} LiteralIsThreeReplacements(text: seq<Byte>)
    ensures Escaped(text)
         == Replaced(Replaced(Replaced(text, BACKSLASH, [BACKSLASH, BACKSLASH]), OPEN, [BACKSLASH, OPEN]),
                     CLOSE, [BACKSLASH, CLOSE])
  {
    if text != [] {
      var b, rest := text[0], text[1..];
      LiteralIsThreeReplacements(rest);
      var one := if b == BACKSLASH then [BACKSLASH, BACKSLASH] else [b];
      var two := if b == OPEN then [BACKSLASH, OPEN] else one;
      ReplacedAppend(one, Replaced(rest, BACKSLASH, [BACKSLASH, BACKSLASH]), OPEN, [BACKSLASH, OPEN]);
      ReplacedAppend(two, Replaced(Replaced(rest, BACKSLASH, [BACKSLASH, BACKSLASH]), OPEN, [BACKSLASH, OPEN]),
                     CLOSE, [BACKSLASH, CLOSE]);
      ReplacedShort(one, OPEN, [BACKSLASH, OPEN]);
      ReplacedShort(two, CLOSE, [BACKSLASH, CLOSE]);
    }
  }

  lemma {:induction false} ReplacedAppend(a: seq<Byte>, c: seq<Byte>, b: Byte, with: seq<Byte>)
    ensures Replaced(a + c, b, with) == Replaced(a, b, with) + Replaced(c, b, with)
  {
    if a == [] {
      assert a + c == c;
    } else {
      ReplacedAppend(a[1..], c, b, with);
      assert (a + c)[1..] == a[1..] + c && (a + c)[0] == a[0];
      var first := if a[0] == b then with else [a[0]];
      assert Replaced(a + c, b, with) == first + Replaced(a[1..] + c, b, with);
    }
  }

  lemma ReplacedShort(s: seq<Byte>, b: Byte, with: seq<Byte>)
    ensures |s| == 1 ==> Replaced(s, b, with) == if s[0] == b then with else s
    ensures |s| == 2 ==> Replaced(s, b, with)
                         == (if s[0] == b then with else [s[0]]) + (if s[1] == b then with else [s[1]])
  {
    if |s| == 2 {
      assert Replaced(s[1..], b, with) == if s[1] == b then with else [s[1]];
    }
  }

  function Then(b: Byte, rest: Option<(seq<Byte>, seq<Byte>)>): Option<(seq<Byte>, seq<Byte>)> {
    if rest.None? then None else Some(([b] + rest.value.0, rest.value.1))
  }

  /** Reads a literal string after its opening parenthesis (section 7.3.4.2 of
      ISO 32000-1): an end-of-line marker, written bare, counts as a line feed. */
  function ReadLiteral(s: seq<Byte>): Option<(seq<Byte>, seq<Byte>)>
    decreases |s|
  {
    if s == [] then None
    else if s[0] == CLOSE then Some(([], s[1..]))
    else if s[0] == BACKSLASH && |s| > 1 && Special(s[1]) then Then(s[1], ReadLiteral(s[2..]))
    else if s[0] == CR && |s| > 1 && s[1] == LF then Then(LF, ReadLiteral(s[2..]))
    else if s[0] == CR then Then(LF, ReadLiteral(s[1..]))
    else if s[0] == OPEN || s[0] == BACKSLASH then None
    else Then(s[0], ReadLiteral(s[1..]))
  }

  /** What that reader makes of bare end-of-line markers. */
  function LinesFolded(text: seq<Byte>): seq<Byte>
    decreases |text|
  {
    if text == [] then []
    else if text[0] == CR then [LF] + LinesFolded(if |text| > 1 && text[1] == LF then text[2..] else text[1..])
    else [text[0]] + LinesFolded(text[1..])
  }

  /** What the reader does at the front of a literal. */
  lemma ReadsByte(b: Byte, t: seq<Byte>)
    ensures Special(b) ==> ReadLiteral([BACKSLASH, b] + t) == Then(b, ReadLiteral(t))
    ensures !Special(b) && b != CR ==> ReadLiteral([b] + t) == Then(b, ReadLiteral(t))
    ensures b == CR && !(t != [] && t[0] == LF) ==> ReadLiteral([b] + t) == Then(LF, ReadLiteral(t))
  {
    assert ([b] + t)[1..] == t && ([BACKSLASH, b] + t)[2..] == t;
  }

  lemma ReadsEnd(t: seq<Byte>)
    ensures ReadLiteral([CLOSE] + t) == Some(([], t))
    ensures ReadLiteral([CR, LF] + t) == Then(LF, ReadLiteral(t))
  {
    assert ([CLOSE] + t)[1..] == t && ([CR, LF] + t)[2..] == t;
  }

  lemma EscapedFront(text: seq<Byte>, rest: seq<Byte>)
    requires text != []
    ensures var tail := Escaped(text[1..]) + [CLOSE] + rest;
            Escaped(text) + [CLOSE] + rest == (if Special(text[0]) then [BACKSLASH, text[0]] else [text[0]]) + tail
    ensures text[0] != LF ==> (Escaped(text) + [CLOSE] + rest)[0] != LF
  {
  }

  lemma {:induction false} LiteralReadsFolded(text: seq<Byte>, rest: seq<Byte>)
    ensures ReadLiteral(Escaped(text) + [CLOSE] + rest) == Some((LinesFolded(text), rest))
    decreases |text|
  {
    if text == [] {
      assert Escaped(text) + [CLOSE] + rest == [CLOSE] + rest;
      ReadsEnd(rest);
    } else {
      hide ReadLiteral, Escaped;
      EscapedFront(text, rest);
      var tail := Escaped(text[1..]) + [CLOSE] + rest;
      ReadsByte(text[0], tail);
      if text[0] == CR && |text| > 1 && text[1] == LF {
        EscapedFront(text[1..], rest);
        assert text[1..][1..] == text[2..];
        var last := Escaped(text[2..]) + [CLOSE] + rest;
        assert [CR] + ([LF] + last) == [CR, LF] + last;
        ReadsEnd(last);
        LiteralReadsFolded(text[2..], rest);
      } else {
        if |text| > 1 {
          EscapedFront(text[1..], rest);
        } else {
          NothingEscaped(rest);
        }
        LiteralReadsFolded(text[1..], rest);
      }
    }
  }

  lemma NothingEscaped(rest: seq<Byte>)
    ensures Escaped([]) + [CLOSE] + rest == [CLOSE] + rest
  {
  }

  /** A literal string reads back exactly when it holds no carriage return. */
  lemma {:induction false} LiteralRoundTrip(text: seq<Byte>, rest: seq<Byte>)
    ensures Literal(text) + rest == [OPEN] + (Escaped(text) + [CLOSE] + rest)
    ensures ReadLiteral(Escaped(text) + [CLOSE] + rest) == Some((text, rest)) <==> CR !in text
  {
    LiteralReadsFolded(text, rest);
    FoldingKeeps(text);
  }

  lemma {:induction false} FoldingKeeps(text: seq<Byte>)
    ensures LinesFolded(text) == text <==> CR !in text
  {
    if text != [] {
      FoldingKeeps(text[1..]);
      assert text == [text[0]] + text[1..];
      var folded := LinesFolded(text);
      if text[0] == CR {
        assert folded[0] == LF;
      } else {
        assert folded[1..] == LinesFolded(text[1..]);
      }
    }
  }

  lemma CarriageReturnIsLost()
    ensures ReadLiteral(Escaped([CR]) + [CLOSE] + []) == Some(([LF], []))
  {
    LiteralReadsFolded([CR], []);
    assert [CR][1..] == [];
    assert LinesFolded([CR]) == [LF] + LinesFolded([]) == [LF];
  }

  function Concat(a: Option<seq<Byte>>, b: Option<seq<Byte>>): Option<seq<Byte>> {
    if a.None? || b.None? then None else Some(a.value + b.value)
  }

  /** `_serialise`; None where it raises. */
  function Serialised(value: Value, num: int, enc: Option<Handler>): Option<seq<Byte>>
    decreases value, 0
  {
    match value
    case Raw(bytes) => Some(bytes)
    case Name(name) => Some(Ascii("/") + name)
    case Boolean(on) => Some(Ascii(if on then "true" else "false"))
    case Integer(n) => Some(DecInt(n))
    case Float(digits) => Some(digits)
    case Ref(n) => Some(DecInt(n) + Ascii(" 0 R"))
    case Text(chars) =>
      var data := Latin1(chars);
      if data.None? then None
      else if enc.None? then Some(Literal(data.value))
      else
        var secret := enc.value.encrypt(num, data.value);
        if secret.None? then None else Some(Ascii("<") + Hex(secret.value) + Ascii(">"))
    case List(items) => Concat(Concat(Some(Ascii("[")), SerialisedItems(items, num, enc)), Some(Ascii("]")))
    case Dict(entries) => Concat(Concat(Some(Ascii("<<")), SerialisedEntries(entries, num, enc)), Some(Ascii(">>")))
    case Unsupported => None
  }

  function SerialisedItems(items: seq<Value>, num: int, enc: Option<Handler>): Option<seq<Byte>>
    decreases items, 1
  {
    if items == [] then Some([])
    else if |items| == 1 then Serialised(items[0], num, enc)
    else
      Concat(Concat(Serialised(items[0], num, enc), Some(Ascii(" "))), SerialisedItems(items[1..], num, enc))
  }

  function SerialisedEntries(entries: seq<Field>, num: int, enc: Option<Handler>): Option<seq<Byte>>
    decreases entries, 1
  {
    if entries == [] then Some([])
    else
      var first := Concat(Some(Ascii("/") + entries[0].key + Ascii(" ")), Serialised(entries[0].value, num, enc));
      if |entries| == 1 then first
      else Concat(Concat(first, Some(Ascii(" "))), SerialisedEntries(entries[1..], num, enc))
  }

  /** `{**dictionary, key: value}`. */
  function With(dictionary: seq<Field>, key: seq<Byte>, value: Value): seq<Field> {
    if dictionary == [] then [Field(key, value)]
    else if dictionary[0].key == key then [Field(key, value)] + dictionary[1..]
    else [dictionary[0]] + With(dictionary[1..], key, value)
  }

  /** What stands between `obj` and `endobj`. */
  function Body(object_: Object, num: int, enc: Option<Handler>): Option<seq<Byte>> {
    match object_
    case Plain(value) => Serialised(value, num, enc)
    case Stream(dictionary, plain) =>
      var data := if enc.Some? then enc.value.encrypt(num, plain) else Some(plain);
      if data.None? then None
      else
        var front := Serialised(Dict(With(dictionary, Ascii("Length"), Integer(|data.value|))), num, enc);
        Concat(front, Some(Ascii("\nstream\n") + data.value + Ascii("\nendstream")))
  }

  // ------------------------------------------------------------ the file

  const HEADER: seq<Byte> :=
    Ascii("%PDF-1.7\n%") + [0xE2, 0xE3, 0xCF, 0xD3] + [10]

  function Opening(num: nat): seq<Byte> { Dec(num) + Ascii(" 0 obj\n") }

  function Segment(num: nat, body: seq<Byte>): seq<Byte> {
    Opening(num) + body + Ascii("\nendobj\n")
  }

  /** The file up to and including the first `k` objects. */
  function Laid(bodies: seq<seq<Byte>>, k: nat): seq<Byte>
    requires k <= |bodies|
  {
    if k == 0 then HEADER else Laid(bodies, k - 1) + Segment(k, bodies[k - 1])
  }

  /** The offset recorded for object `n`. */
  function Offset(bodies: seq<seq<Byte>>, n: nat): nat
    requires 1 <= n <= |bodies|
  {
    |Laid(bodies, n - 1)|
  }

  function Entry(offset: nat): (r: seq<Byte>)
    ensures |r| == |Padded10(offset)| + 10
  {
    Padded10(offset) + Ascii(" 00000 n \n")
  }

  const FREE_ENTRY := "0000000000 65535 f \n"

  /** The free entry, then the entries of the first `k` objects. */
  function Table(bodies: seq<seq<Byte>>, k: nat): seq<Byte>
    requires k <= |bodies|
  {
    if k == 0 then Ascii(FREE_ENTRY) else Table(bodies, k - 1) + Entry(Offset(bodies, k))
  }

  function TableOpening(size: nat): seq<Byte> {
    Ascii("xref\n0 ") + (Dec(size) + Ascii("\n"))
  }

  const TAIL := "\n%%EOF\n"

  function Closing(xref: nat): seq<Byte> {
    Ascii("\nstartxref\n") + (Dec(xref) + Ascii(TAIL))
  }

  function File(bodies: seq<seq<Byte>>, trailer: seq<Byte>): seq<Byte> {
    var front := Laid(bodies, |bodies|);
    front + (TableOpening(|bodies| + 1) + (Table(bodies, |bodies|) + (Ascii("trailer\n") + trailer + Closing(|front|))))
  }

  // ------------------------------------------------------------ a reader

  /** Where the file says its table starts (section 7.5.5 of ISO 32000-1). */
  function StartOfTable(file: seq<Byte>): Option<nat> {
    if |file| < 7 || file[|file| - 7..] != Ascii(TAIL) then None
    else
      var front := file[..|file| - 7];
      Some(ReadDec(front[|front| - TrailingDigits(front)..]))
  }

  /** The size a table at `start` announces, and where its entries begin. */
  function TableAt(file: seq<Byte>, start: nat): Option<(nat, nat)> {
    if !At(file, start, Ascii("xref\n0 ")) then None
    else
      var afterName := file[start + 7..];
      var digits := LeadingDigits(afterName);
      Some((ReadDec(afterName[..digits]), start + 8 + digits))
  }

  /** The offset in the entry at `p`, an entry being 20 bytes long (section 7.5.4
      of ISO 32000-1). */
  function EntryAt(file: seq<Byte>, p: nat): Option<nat> {
    if p + 20 > |file| || !AllDigits(file[p..p + 10]) || file[p + 10..p + 20] != Ascii(" 00000 n \n") then None
    else Some(ReadDec(file[p..p + 10]))
  }

  /** The offset the table gives for object `n`. */
  function Lookup(file: seq<Byte>, n: nat): Option<nat> {
    var start := StartOfTable(file);
    if start.None? then None
    else
      var table := TableAt(file, start.value);
      if table.None? || n >= table.value.0 then None else EntryAt(file, table.value.1 + 20 * n)
  }

  // ------------------------------------------------------------ the reader finds every object

  lemma {:induction false} SegmentAtItsOffset(bodies: seq<seq<Byte>>, n: nat, k: nat)
    requires 1 <= n <= k <= |bodies|
    ensures At(Laid(bodies, k), Offset(bodies, n), Segment(n, bodies[n - 1]))
  {
    hide Segment;
    var segment := Segment(k, bodies[k - 1]);
    if n == k {
      AtAfter(Laid(bodies, k - 1), segment, []);
      assert Laid(bodies, k - 1) + segment + [] == Laid(bodies, k);
    } else {
      SegmentAtItsOffset(bodies, n, k - 1);
      AtStays(Laid(bodies, k - 1), segment, Offset(bodies, n), Segment(n, bodies[n - 1]));
    }
  }

  /** No offset needs more than ten digits. */
  predicate OffsetsFit(bodies: seq<seq<Byte>>) {
    forall n :: 1 <= n <= |bodies| ==> Offset(bodies, n) < 100_0000_0000
  }

  lemma EntryIsTwentyBytes(offset: nat)
    ensures |Entry(offset)| == 20 <==> offset < 100_0000_0000
  {
    Padded10ReadsBack(offset);
  }

  lemma {:induction false} TableLength(bodies: seq<seq<Byte>>, k: nat)
    requires k <= |bodies| && OffsetsFit(bodies)
    ensures |Table(bodies, k)| == 20 * (k + 1)
  {
    hide Offset, Entry, Laid;
    if k > 0 {
      TableLength(bodies, k - 1);
      EntryIsTwentyBytes(Offset(bodies, k));
    }
  }

  lemma {:induction false} EntryAtItsPlace(bodies: seq<seq<Byte>>, n: nat, k: nat)
    requires 1 <= n <= k <= |bodies| && OffsetsFit(bodies)
    ensures At(Table(bodies, k), 20 * n, Entry(Offset(bodies, n)))
  {
    hide Offset, Entry, Laid;
    TableLength(bodies, k - 1);
    var entry := Entry(Offset(bodies, k));
    if n == k {
      AtAfter(Table(bodies, k - 1), entry, []);
      assert Table(bodies, k - 1) + entry + [] == Table(bodies, k);
    } else {
      EntryAtItsPlace(bodies, n, k - 1);
      AtStays(Table(bodies, k - 1), entry, 20 * n, Entry(Offset(bodies, n)));
    }
  }

  lemma TailFound(front: seq<Byte>, xref: nat)
    ensures StartOfTable(front + Closing(xref)) == Some(xref)
  {
    hide LeadingDigits, TrailingDigits, Dec, Ascii, ReadDec;
    var head, digits := front + Ascii("\nstartxref\n"), Dec(xref);
    var file := front + Closing(xref);
    assert file == (head + digits) + Ascii(TAIL);
    assert file[|file| - 7..] == Ascii(TAIL) && file[..|file| - 7] == head + digits;
    assert head == head[..|head| - 1] + [10];
    TrailingDigitsOf(head[..|head| - 1], 10, digits);
    assert (head + digits)[|head|..] == digits;
    ReadDecInvertsDec(xref);
  }

  lemma TableFound(front: seq<Byte>, size: nat, rest: seq<Byte>)
    ensures var file, base := front + (TableOpening(size) + rest), |front| + 8 + |Dec(size)|;
            TableAt(file, |front|) == Some((size, base)) && base <= |file| && file[base..] == rest
  {
    hide LeadingDigits, Dec, Ascii, ReadDec;
    var name, digits := Ascii("xref\n0 "), Dec(size);
    var file := front + (TableOpening(size) + rest);
    assert Ascii("\n") == [10];
    assert file == front + name + (digits + [10] + rest);
    AtAfter(front, name, digits + [10] + rest);
    assert file[|front| + 7..] == digits + [10] + rest;
    LeadingDigitsOf(digits, 10, rest);
    assert (digits + [10] + rest)[..|digits|] == digits;
    ReadDecInvertsDec(size);
  }

  lemma EntryFound(file: seq<Byte>, p: nat, offset: nat)
    requires At(file, p, Entry(offset)) && offset < 100_0000_0000
    ensures EntryAt(file, p) == Some(offset)
  {
    hide Padded10, Ascii, ReadDec;
    Padded10ReadsBack(offset);
    var entry := Entry(offset);
    assert file[p..p + 20] == entry;
    assert file[p..p + 10] == entry[..10] == Padded10(offset);
    assert file[p + 10..p + 20] == entry[10..] == Ascii(" 00000 n \n");
  }

  lemma AtWithin(file: seq<Byte>, base: nat, part: seq<Byte>, rest: seq<Byte>, p: nat, s: seq<Byte>)
    requires base <= |file| && file[base..] == part + rest && At(part, p, s)
    ensures At(file, base + p, s)
  {
    assert file[base + p..base + p + |s|] == file[base..][p..p + |s|] == part[p..p + |s|];
  }

  lemma Unnested(a: seq<Byte>, b: seq<Byte>, c: seq<Byte>, d: seq<Byte>, e: seq<Byte>)
    ensures a + (b + (c + (d + e))) == a + b + c + d + e
  {
  }

  /** The main result: the table leads a reader to every object. */
  lemma LookupFindsObjects(bodies: seq<seq<Byte>>, trailer: seq<Byte>, n: nat)
    requires OffsetsFit(bodies) && 1 <= n <= |bodies|
    ensures StartOfTable(File(bodies, trailer)) == Some(|Laid(bodies, |bodies|)|)
    ensures Lookup(File(bodies, trailer), n) == Some(Offset(bodies, n))
    ensures At(File(bodies, trailer), Offset(bodies, n), Segment(n, bodies[n - 1]))
  {
    hide Table, TableOpening, TableAt, EntryAt, At, Closing, Segment, StartOfTable, Entry, Laid, Ascii, Dec;
    var front, size := Laid(bodies, |bodies|), |bodies| + 1;
    var table := Table(bodies, |bodies|);
    var end := Ascii("trailer\n") + trailer;
    var rest := end + Closing(|front|);
    Unnested(front, TableOpening(size), table, end, Closing(|front|));
    TailFound(front + TableOpening(size) + table + end, |front|);
    EntryAtItsPlace(bodies, n, |bodies|);
    TableFound(front, size, table + rest);
    var base := |front| + 8 + |Dec(size)|;
    AtWithin(File(bodies, trailer), base, table, rest, 20 * n, Entry(Offset(bodies, n)));
    EntryFound(File(bodies, trailer), base + 20 * n, Offset(bodies, n));
    SegmentAtItsOffset(bodies, n, |bodies|);
    AtStays(front, TableOpening(size) + (table + rest), Offset(bodies, n), Segment(n, bodies[n - 1]));
  }

  lemma {:induction false} FreeEntryFirst(bodies: seq<seq<Byte>>, k: nat)
    requires k <= |bodies|
    ensures At(Table(bodies, k), 0, Ascii(FREE_ENTRY))
  {
    hide Offset, Entry, Laid, Ascii;
    if k > 0 {
      FreeEntryFirst(bodies, k - 1);
      AtStays(Table(bodies, k - 1), Entry(Offset(bodies, k)), 0, Ascii(FREE_ENTRY));
    }
  }

  lemma FreeEntryIsNone(file: seq<Byte>, p: nat)
    requires At(file, p, Ascii(FREE_ENTRY))
    ensures EntryAt(file, p).None?
  {
    hide ReadDec, Ascii;
    assert file[p + 17] == file[p..p + 20][17] == Code('f');
    var tail, kind := file[p + 10..p + 20], Ascii(" 00000 n \n");
    assert tail[7] == file[p + 17] && kind[7] == Code('n');
  }

  /** And to no other: every other number is free or beyond the table. */
  lemma LookupFindsNoOther(bodies: seq<seq<Byte>>, trailer: seq<Byte>, n: nat)
    requires OffsetsFit(bodies) && (n == 0 || n > |bodies|)
    ensures Lookup(File(bodies, trailer), n).None?
  {
    hide Table, TableOpening, TableAt, EntryAt, At, Closing, Segment, StartOfTable, Entry, Laid, Ascii, Dec, OffsetsFit;
    var front, size := Laid(bodies, |bodies|), |bodies| + 1;
    var table := Table(bodies, |bodies|);
    var end := Ascii("trailer\n") + trailer;
    var rest := end + Closing(|front|);
    Unnested(front, TableOpening(size), table, end, Closing(|front|));
    TailFound(front + TableOpening(size) + table + end, |front|);
    TableFound(front, size, table + rest);
    if n == 0 {
      var base := |front| + 8 + |Dec(size)|;
      FreeEntryFirst(bodies, |bodies|);
      AtWithin(File(bodies, trailer), base, table, rest, 0, Ascii(FREE_ENTRY));
      FreeEntryIsNone(File(bodies, trailer), base);
    }
  }

  // ------------------------------------------------------------ `pdf`

  /** The objects with the encryption dictionary appended. */
  function AllObjects(objects: seq<Object>, enc: Option<Handler>): Option<seq<Object>> {
    if enc.None? then Some(objects)
    else
      var dictionary := Serialised(enc.value.dictionary, |objects| + 1, None);
      if dictionary.None? then None else Some(objects + [Plain(Raw(dictionary.value))])
  }

  /** The handler for object `n`; the encryption dictionary itself stays plain. */
  function HandlerFor(enc: Option<Handler>, count: nat, n: nat): Option<Handler> {
    if n <= count then enc else None
  }

  /** What the first `k` objects are written as. */
  function Bodies(all: seq<Object>, enc: Option<Handler>, count: nat, k: nat): (r: Option<seq<seq<Byte>>>)
    requires k <= |all|
    ensures r.Some? ==> |r.value| == k
  {
    if k == 0 then Some([])
    else
      var before, body := Bodies(all, enc, count, k - 1), Body(all[k - 1], k, HandlerFor(enc, count, k));
      if before.None? || body.None? then None else Some(before.value + [body.value])
  }

  lemma {:induction false} BodiesAt(all: seq<Object>, enc: Option<Handler>, count: nat, k: nat, n: nat)
    requires 1 <= n <= k <= |all|
    ensures Bodies(all, enc, count, n).None? ==> Bodies(all, enc, count, k).None?
    ensures Bodies(all, enc, count, k).Some?
            ==> Body(all[n - 1], n, HandlerFor(enc, count, n)) == Some(Bodies(all, enc, count, k).value[n - 1])
  {
    hide Body;
    if n < k {
      BodiesAt(all, enc, count, k - 1, n);
    }
  }

  function HexRaw(data: seq<Byte>): Value { Raw(Ascii("<") + Hex(data) + Ascii(">")) }

  function Trailer(size: nat, root: int, encNum: Option<nat>, docId: seq<Byte>): seq<Field> {
    [Field(Ascii("Size"), Integer(size))]
    + ([Field(Ascii("Root"), Ref(root))]
    + ([Field(Ascii("ID"), List([HexRaw(docId), HexRaw(docId)]))]
    + if encNum.Some? then [Field(Ascii("Encrypt"), Ref(encNum.value))] else []))
  }

  /** Nothing in the trailer makes `_serialise` raise. */
  lemma TrailerSerialises(size: nat, root: int, encNum: Option<nat>, docId: seq<Byte>)
    ensures Serialised(Dict(Trailer(size, root, encNum, docId)), 0, None).Some?
  {
    hide Hex, DecInt, Ascii, SerialisedEntries;
    ListOfTwo(HexRaw(docId));
    var d := if encNum.Some? then [Field(Ascii("Encrypt"), Ref(encNum.value))] else [];
    OneMoreField(Field(Ascii("Encrypt"), Ref(if encNum.Some? then encNum.value else 0)), []);
    var c, b := Field(Ascii("ID"), List([HexRaw(docId), HexRaw(docId)])), Field(Ascii("Root"), Ref(root));
    if encNum.Some? {
      assert d == [Field(Ascii("Encrypt"), Ref(encNum.value))] + [];
    }
    OneMoreField(c, d);
    OneMoreField(b, [c] + d);
    OneMoreField(Field(Ascii("Size"), Integer(size)), [b] + ([c] + d));
  }

  lemma ListOfTwo(v: Value)
    requires v.Raw?
    ensures Serialised(List([v, v]), 0, None).Some?
  {
    hide Ascii;
    assert [v, v][1..] == [v];
    assert SerialisedItems([v], 0, None).Some?;
  }

  lemma OneMoreField(f: Field, rest: seq<Field>)
    requires Serialised(f.value, 0, None).Some?
    ensures SerialisedEntries([], 0, None).Some?
    ensures SerialisedEntries(rest, 0, None).Some? ==> SerialisedEntries([f] + rest, 0, None).Some?
  {
    hide Ascii, Serialised;
    assert ([f] + rest)[1..] == rest;
  }

  function TrailerBytes(size: nat, root: int, encNum: Option<nat>, docId: seq<Byte>): seq<Byte> {
    hide *;
    TrailerSerialises(size, root, encNum, docId);
    Serialised(Dict(Trailer(size, root, encNum, docId)), 0, None).value
  }

  function EncryptionNumber(enc: Option<Handler>, count: nat): Option<nat> {
    if enc.Some? then Some(count + 1) else None
  }

  /** What `pdf` returns on objects numbered densely from 1; None where it raises. */
  function PdfBytes(objects: seq<Object>, root: int, enc: Option<Handler>, docId: seq<Byte>): Option<seq<Byte>> {
    var all := AllObjects(objects, enc);
    if objects == [] || all.None? then None
    else
      var bodies := Bodies(all.value, enc, |objects|, |all.value|);
      if bodies.None? then None
      else
        var trailer := TrailerBytes(|all.value| + 1, root, EncryptionNumber(enc, |objects|), docId);
        Some(File(bodies.value, trailer))
  }

  /** A reader starting from the end of the file reaches object `n`, and finds
      there exactly `body` between its `obj` and `endobj` lines. */
  predicate Reaches(file: seq<Byte>, n: nat, body: seq<Byte>) {
    var offset := Lookup(file, n);
    offset.Some? && At(file, offset.value, Dec(n) + Ascii(" 0 obj\n") + body + Ascii("\nendobj\n"))
  }

  lemma LookupReaches(bodies: seq<seq<Byte>>, trailer: seq<Byte>, n: nat)
    requires OffsetsFit(bodies) && 1 <= n <= |bodies|
    ensures Reaches(File(bodies, trailer), n, bodies[n - 1])
  {
    hide At, Lookup, Offset, File, Dec, Ascii;
    LookupFindsObjects(bodies, trailer, n);
  }

  /** The main result: every object of a file `pdf` wrote is reached, and holds
      what that object serialises to. */
  lemma EveryObjectIsReached(objects: seq<Object>, root: int, enc: Option<Handler>, docId: seq<Byte>,
                             all: seq<Object>, bodies: seq<seq<Byte>>, n: nat)
    requires 1 <= n <= |bodies| == |all| && OffsetsFit(bodies)
    requires objects != [] && AllObjects(objects, enc) == Some(all)
    requires Bodies(all, enc, |objects|, |all|) == Some(bodies)
    ensures Body(all[n - 1], n, HandlerFor(enc, |objects|, n)) == Some(bodies[n - 1])
    ensures PdfBytes(objects, root, enc, docId).Some?
    ensures Reaches(PdfBytes(objects, root, enc, docId).value, n, bodies[n - 1])
  {
    hide AllObjects, Bodies, Body, File, TrailerBytes, Reaches, HandlerFor, OffsetsFit;
    BodiesAt(all, enc, |objects|, |all|, n);
    LookupReaches(bodies, TrailerBytes(|all| + 1, root, EncryptionNumber(enc, |objects|), docId), n);
  }

  /** `pdf`. */
  method Pdf(objects: seq<Object>, root: int, enc: Option<Handler>, docId: seq<Byte>) returns (r: Option<seq<Byte>>)
    ensures r == PdfBytes(objects, root, enc, docId)
  {
    hide AllObjects, Bodies, Laid, Table, TableOpening, Closing, TrailerBytes, Ascii, IsOffsets;
    var all := AllObjects(objects, enc);
    if objects == [] || all.None? {
      return None;
    }
    var out, offsets := WriteObjects(all.value, enc, |objects|);
    if out.None? {
      return None;
    }
    ghost var bodies := Bodies(all.value, enc, |objects|, |all.value|).value;
    var size := |offsets| + 1;
    var table := WriteTable(offsets, bodies);
    var trailer := TrailerBytes(size, root, EncryptionNumber(enc, |objects|), docId);
    r := Some(out.value + (TableOpening(size) + (table + (Ascii("trailer\n") + trailer + Closing(|out.value|)))));
  }

  /** The first loop of `pdf`. */
  method WriteObjects(all: seq<Object>, enc: Option<Handler>, count: nat)
    returns (out: Option<seq<Byte>>, offsets: seq<nat>)
    ensures var bodies := Bodies(all, enc, count, |all|);
            if bodies.None? then out.None?
            else out == Some(Laid(bodies.value, |all|)) && IsOffsets(offsets, bodies.value) && |offsets| == |all|
  {
    hide Body, Laid, Segment, IsOffsets;
    var written := HEADER;
    offsets := [];
    ghost var bodies: seq<seq<Byte>> := [];
    LaidStart();
    for num := 1 to |all| + 1
      invariant Bodies(all, enc, count, num - 1) == Some(bodies)
      invariant written == Laid(bodies, num - 1)
      invariant IsOffsets(offsets, bodies) && |offsets| == num - 1
    {
      var body := Body(all[num - 1], num, HandlerFor(enc, count, num));
      if body.None? {
        BodiesAt(all, enc, count, |all|, num);
        return None, [];
      }
      LaidNext(bodies, body.value, offsets);
      offsets := offsets + [|written|];
      written := written + Segment(num, body.value);
      bodies := bodies + [body.value];
    }
    out := Some(written);
  }

  predicate IsOffsets(offsets: seq<nat>, bodies: seq<seq<Byte>>) {
    |offsets| == |bodies| && forall k :: 0 <= k < |offsets| ==> offsets[k] == Offset(bodies, k + 1)
  }

  lemma LaidStart()
    ensures Laid([], 0) == HEADER && IsOffsets([], [])
  {
  }

  lemma {:induction false} LaidIgnoresLater(bodies: seq<seq<Byte>>, body: seq<Byte>, k: nat)
    requires k <= |bodies|
    ensures Laid(bodies + [body], k) == Laid(bodies, k)
  {
    hide Segment;
    if k > 0 {
      LaidIgnoresLater(bodies, body, k - 1);
    }
  }

  lemma LaidNext(bodies: seq<seq<Byte>>, body: seq<Byte>, offsets: seq<nat>)
    requires |offsets| == |bodies| && IsOffsets(offsets, bodies)
    ensures Laid(bodies + [body], |bodies| + 1) == Laid(bodies, |bodies|) + Segment(|bodies| + 1, body)
    ensures IsOffsets(offsets + [|Laid(bodies, |bodies|)|], bodies + [body])
  {
    hide Segment;
    LaidIgnoresLater(bodies, body, |bodies|);
    forall k | 0 <= k <= |offsets|
      ensures (offsets + [|Laid(bodies, |bodies|)|])[k] == Offset(bodies + [body], k + 1)
    {
      LaidIgnoresLater(bodies, body, k);
    }
  }

  method WriteTable(offsets: seq<nat>, ghost bodies: seq<seq<Byte>>) returns (table: seq<Byte>)
    requires IsOffsets(offsets, bodies)
    ensures table == Table(bodies, |bodies|)
  {
    hide Entry, Offset, Laid, Ascii;
    table := Ascii(FREE_ENTRY);
    for num := 1 to |offsets| + 1
      invariant table == Table(bodies, num - 1)
    {
      table := table + Entry(offsets[num - 1]);
    }
  }
}
