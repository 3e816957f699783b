/** The flat-block greyscale JPEG writer (`jpeg_flat`), read back by a decoder
    for baseline files: markers (annex B of ITU-T T.81), canonical Huffman codes
    (annex C) and DC prediction (annex F). */
module JpegFile {
  import opened Nums
  import opened JpegEntropy

  // ------------------------------------------------------------ DC differences

  function BitLength(n: nat): nat {
    if n == 0 then 0 else 1 + BitLength(n / 2)
  }

  lemma {:induction false} BitLengthBounds(n: nat)
    requires n > 0
    ensures BitLength(n) > 0 && Pow2(BitLength(n) - 1) <= n < Pow2(BitLength(n))
  {
    if n > 1 {
      BitLengthBounds(n / 2);
    } else {
      assert BitLength(1) == 1 + BitLength(0);
    }
  }

  lemma {:induction false} BitLengthMonotone(a: nat, b: nat)
    requires a <= b
    ensures BitLength(a) <= BitLength(b)
  {
    if a > 0 {
      BitLengthMonotone(a / 2, b / 2);
    }
  }

  function Abs(x: int): nat { if x < 0 then -x else x }

  function Category(diff: int): nat { BitLength(Abs(diff)) }

  /** The extra bits of a non-zero difference, as a number. */
  function Magnitude(diff: int): (m: nat)
    requires diff != 0
  {
    BitLengthBounds(Abs(diff));
    if diff > 0 then diff else diff + Pow2(Category(diff)) - 1
  }

  /** EXTEND, section F.2.2.1. */
  function Extend(v: nat, category: nat): int {
    if category > 0 && v < Pow2(category - 1) then v - Pow2(category) + 1 else v
  }

  lemma ExtendInvertsMagnitude(diff: int)
    requires diff != 0
    ensures Magnitude(diff) < Pow2(Category(diff))
    ensures Extend(Magnitude(diff), Category(diff)) == diff
  {
    BitLengthBounds(Abs(diff));
    assert Pow2(Category(diff)) == 2 * Pow2(Category(diff) - 1);
  }

  function Dc(grey: Byte): int { 8 * (grey - 128) }

  /** No difference of two grey levels needs a category above 11. */
  lemma CategoryAtMostEleven(a: Byte, b: Byte)
    ensures Category(Dc(a) - Dc(b)) <= 11 && Category(Dc(a)) <= 11
  {
    BitLengthMonotone(Abs(Dc(a) - Dc(b)), 2047);
    BitLengthMonotone(Abs(Dc(a)), 2047);
    assert BitLength(2047) == 11 by { TwoThousandFortySeven(); }
  }

  lemma TwoThousandFortySeven()
    ensures BitLength(2047) == 11
  {
    assert BitLength(15) == 4;
    assert BitLength(255) == 4 + BitLength(15);
    assert BitLength(2047) == 3 + BitLength(255);
  }

  // ------------------------------------------------------------ Huffman tables

  /** A table as DHT carries it: code counts for lengths 1 to 16, then symbols. */
  datatype Table = Table(counts: seq<Byte>, symbols: seq<Byte>)

  function Bit(b: bool): nat { if b then 1 else 0 }

  /** Canonical decoding (annexes C and F.2.2.3): the codes of length `l + 1`
      start at `first` and belong to the symbols from `index` on. */
  function Symbol(t: Table, bits: seq<bool>, l: nat, code: nat, first: nat, index: nat)
    : Option<(Byte, seq<bool>)>
    decreases |bits|
  {
    if l >= 16 || l >= |t.counts| || bits == [] then None
    else
      var c := 2 * code + Bit(bits[0]);
      var n := t.counts[l];
      if first <= c < first + n then
        if index + c - first < |t.symbols| then Some((t.symbols[index + c - first], bits[1..])) else None
      else Symbol(t, bits[1..], l + 1, c, 2 * (first + n), index + n)
  }

  const DcTable := Table([0, 0, 0, 12, 0, 0, 0, 0, 0, 0, 0, 0, 0, 0, 0, 0],
                         [0, 1, 2, 3, 4, 5, 6, 7, 8, 9, 10, 11])
  const AcTable := Table([1, 0, 0, 0, 0, 0, 0, 0, 0, 0, 0, 0, 0, 0, 0, 0], [0])

  /** No code has this length, so one more bit is read. */
  lemma NoCodeOfLength(t: Table, b: bool, rest: seq<bool>, l: nat, code: nat)
    requires l < 16 && l < |t.counts| && t.counts[l] == 0
    ensures Symbol(t, [b] + rest, l, code, 0, 0) == Symbol(t, rest, l + 1, 2 * code + Bit(b), 0, 0)
  {
    assert ([b] + rest)[1..] == rest;
  }

  lemma FourBitSymbol(t: Table, b0: bool, b1: bool, b2: bool, b3: bool, rest: seq<bool>)
    requires |t.counts| == 16 && t.counts[0] == t.counts[1] == t.counts[2] == 0
    requires 8 * Bit(b0) + 4 * Bit(b1) + 2 * Bit(b2) + Bit(b3) < t.counts[3] as int <= |t.symbols|
    ensures Symbol(t, [b0, b1, b2, b3] + rest, 0, 0, 0, 0)
         == Some((t.symbols[8 * Bit(b0) + 4 * Bit(b1) + 2 * Bit(b2) + Bit(b3)], rest))
  {
    hide Symbol;
    var r3 := [b3] + rest;
    var r2 := [b2] + r3;
    var r1 := [b1] + r2;
    assert [b0, b1, b2, b3] + rest == [b0] + r1;
    NoCodeOfLength(t, b0, r1, 0, 0);
    NoCodeOfLength(t, b1, r2, 1, Bit(b0));
    NoCodeOfLength(t, b2, r3, 2, 2 * Bit(b0) + Bit(b1));
    CodeOfLengthFour(t, b3, rest, 4 * Bit(b0) + 2 * Bit(b1) + Bit(b2));
  }

  /** The twelve DC categories are the four-bit codes 0000 to 1011. */
  lemma DcSymbol(category: nat, rest: seq<bool>)
    requires category <= 11
    ensures Symbol(DcTable, Field(category, 4) + rest, 0, 0, 0, 0) == Some((category, rest))
  {
    FourDigits(category);
    hide Field, Digit, Symbol;
    FourBitSymbol(DcTable, Digit(category, 3) == 1, Digit(category, 2) == 1,
                  Digit(category, 1) == 1, Digit(category, 0) == 1, rest);
  }

  lemma CodeOfLengthFour(t: Table, b: bool, rest: seq<bool>, code: nat)
    requires |t.counts| == 16 && 2 * code + Bit(b) < t.counts[3] as int <= |t.symbols|
    ensures Symbol(t, [b] + rest, 3, code, 0, 0) == Some((t.symbols[2 * code + Bit(b)], rest))
  {
    assert ([b] + rest)[1..] == rest;
  }

  lemma FourDigits(v: nat)
    requires v < 16
    ensures v == 8 * Digit(v, 3) + 4 * Digit(v, 2) + 2 * Digit(v, 1) + Digit(v, 0)
    ensures Field(v, 4) == [Digit(v, 3) == 1, Digit(v, 2) == 1, Digit(v, 1) == 1, Digit(v, 0) == 1]
  {
    assert Pow2(3) == 8 && Pow2(2) == 4 && Pow2(1) == 2 && Pow2(0) == 1;
    assert Field(v, 0) == [] && Field(v, 1) == [Digit(v, 0) == 1];
    assert Field(v, 2) == [Digit(v, 1) == 1] + Field(v, 1);
    assert Field(v, 3) == [Digit(v, 2) == 1] + Field(v, 2);
  }

  lemma EndOfBlockSymbol(rest: seq<bool>)
    ensures Symbol(AcTable, [false] + rest, 0, 0, 0, 0) == Some((0, rest))
  {
    assert ([false] + rest)[1..] == rest;
  }

  // ------------------------------------------------------------ the scan

  function BlockBits(diff: int): seq<bool> {
    var category := Category(diff);
    Field(category, 4) + (if category == 0 then [] else Field(Magnitude(diff), category)) + [false]
  }

  function ScanBits(pred: int, greys: seq<Byte>): seq<bool>
    decreases |greys|
  {
    if greys == [] then []
    else BlockBits(Dc(greys[0]) - pred) + ScanBits(Dc(greys[0]), greys[1..])
  }

  function LastDc(pred: int, greys: seq<Byte>): int {
    if greys == [] then pred else Dc(greys[|greys| - 1])
  }

  lemma LastOfRest(pred: int, greys: seq<Byte>)
    requires greys != []
    ensures LastDc(Dc(greys[0]), greys[1..]) == LastDc(pred, greys)
  {
    hide Dc;
  }

  lemma {:induction false} ScanSnoc(pred: int, greys: seq<Byte>, grey: Byte)
    ensures ScanBits(pred, greys + [grey])
         == ScanBits(pred, greys) + BlockBits(Dc(grey) - LastDc(pred, greys))
    decreases |greys|
  {
    hide BlockBits;
    var all := greys + [grey];
    if greys == [] {
      assert all[1..] == [];
      assert ScanBits(Dc(grey), []) == [];
    } else {
      ScanSnoc(Dc(greys[0]), greys[1..], grey);
      assert all[1..] == greys[1..] + [grey] && all[0] == greys[0];
      LastOfRest(pred, greys);
      ScanFirst(pred, greys);
      ScanFirst(pred, all);
      hide Dc, ScanBits, LastDc;
      Reassociate(BlockBits(Dc(greys[0]) - pred), ScanBits(Dc(greys[0]), greys[1..]),
                  BlockBits(Dc(grey) - LastDc(pred, greys)));
    }
  }

  lemma ScanFirst(pred: int, greys: seq<Byte>)
    requires greys != []
    ensures ScanBits(pred, greys) == BlockBits(Dc(greys[0]) - pred) + ScanBits(Dc(greys[0]), greys[1..])
  {
    hide BlockBits, Dc;
  }

  /** One block: the DC difference of `pred`, then end-of-block. */
  function DecodeBlock(dc: Table, ac: Table, bits: seq<bool>, pred: int): Option<(int, seq<bool>)> {
    match Symbol(dc, bits, 0, 0, 0, 0)
    case None => None
    case Some((category, tail)) =>
      if |tail| < category then None
      else
        var diff := Extend(Value(tail[..category]), category);
        match Symbol(ac, tail[category..], 0, 0, 0, 0)
        case None => None
        case Some((symbol, rest)) => if symbol == 0 then Some((pred + diff, rest)) else None
  }

  /** `count` blocks as grey levels: a flat block's level is its DC coefficient, times
      the first entry of the quantiser, over eight, shifted back by 128. */
  function DecodeBlocks(dc: Table, ac: Table, quantiser: nat, bits: seq<bool>, count: nat, pred: int)
    : Option<(seq<int>, seq<bool>)>
    decreases count
  {
    if count == 0 then Some(([], bits))
    else
      match DecodeBlock(dc, ac, bits, pred)
      case None => None
      case Some((level, tail)) =>
        match DecodeBlocks(dc, ac, quantiser, tail, count - 1, level)
        case None => None
        case Some((greys, rest)) => Some(([level * quantiser / 8 + 128] + greys, rest))
  }

  /** The extra bits of a block. */
  function Extra(diff: int): (bits: seq<bool>)
    ensures |bits| == Category(diff)
  {
    if Category(diff) == 0 then [] else Field(Magnitude(diff), Category(diff))
  }

  lemma ExtraReads(diff: int)
    ensures Extend(Value(Extra(diff)), Category(diff)) == diff
  {
    var category := Category(diff);
    if diff != 0 {
      BitLengthBounds(Abs(diff));
      ExtendInvertsMagnitude(diff);
      ValueOfField(Magnitude(diff), category);
      ModUnique(Magnitude(diff), Pow2(category), 0, Magnitude(diff));
    }
  }

  lemma BlockDecodes(diff: int, pred: int, rest: seq<bool>)
    requires Category(diff) <= 11
    ensures DecodeBlock(DcTable, AcTable, BlockBits(diff) + rest, pred) == Some((pred + diff, rest))
  {
    hide Symbol, Extend, Value, Category, Magnitude, Field;
    var category, extra := Category(diff), Extra(diff);
    var tail := extra + ([false] + rest);
    assert BlockBits(diff) + rest == Field(category, 4) + tail;
    DcSymbol(category, tail);
    ExtraReads(diff);
    assert tail[..category] == extra && tail[category..] == [false] + rest;
    EndOfBlockSymbol(rest);
  }

  lemma {:induction false} BlocksDecode(pred: int, previous: Byte, greys: seq<Byte>, rest: seq<bool>)
    requires pred == Dc(previous) || pred == 0
    ensures DecodeBlocks(DcTable, AcTable, 1, ScanBits(pred, greys) + rest, |greys|, pred)
         == Some((greys, rest))
    decreases |greys|
  {
    hide BlockBits, DecodeBlock, Category;
    if greys == [] {
      assert ScanBits(pred, greys) + rest == rest;
    } else {
      var level := Dc(greys[0]);
      var tail := ScanBits(level, greys[1..]) + rest;
      Reassociate(BlockBits(level - pred), ScanBits(level, greys[1..]), rest);
      CategoryAtMostEleven(greys[0], previous);
      BlockDecodes(level - pred, pred, tail);
      BlocksDecode(level, greys[0], greys[1..], rest);
      assert level * 1 / 8 + 128 == greys[0];
      assert greys == [greys[0]] + greys[1..];
    }
  }

  lemma Reassociate<T>(a: seq<T>, b: seq<T>, c: seq<T>)
    ensures a + b + c == a + (b + c)
  {
  }

  // ------------------------------------------------------------ the file

  function Row(value: (nat, nat) -> Byte, row: nat, w: nat): seq<Byte> {
    if w == 0 then [] else Row(value, row, w - 1) + [value(w - 1, row)]
  }

  /** The grey levels of a grid of blocks, row by row. */
  function Grid(value: (nat, nat) -> Byte, w: nat, h: nat): (r: seq<Byte>)
  {
    if h == 0 then [] else Grid(value, w, h - 1) + Row(value, h - 1, w)
  }

  lemma {:induction false} GridSize(value: (nat, nat) -> Byte, w: nat, h: nat)
    ensures |Grid(value, w, h)| == w * h
  {
    if h > 0 {
      GridSize(value, w, h - 1);
      RowSize(value, h - 1, w);
      assert w * h == w * (h - 1) + w;
    }
  }

  lemma {:induction false} RowSize(value: (nat, nat) -> Byte, row: nat, w: nat)
    ensures |Row(value, row, w)| == w
  {
    if w > 0 {
      RowSize(value, row, w - 1);
    }
  }

  /** The block in a column of a row has the level asked for at that place. */
  lemma {:induction false} GridAt(value: (nat, nat) -> Byte, w: nat, h: nat, column: nat, row: nat)
    requires column < w && row < h
    ensures 0 <= row * w + column < |Grid(value, w, h)| && Grid(value, w, h)[row * w + column] == value(column, row)
  {
    var above, last := Grid(value, w, h - 1), Row(value, h - 1, w);
    GridSize(value, w, h - 1);
    assert w * row == row * w;
    if row < h - 1 {
      GridAt(value, w, h - 1, column, row);
      assert Grid(value, w, h)[row * w + column] == above[row * w + column];
    } else {
      RowAt(value, row, w, column);
      assert (above + last)[|above| + column] == last[column];
    }
  }

  /** Row by row, from left to right, these are the levels asked for. */
  ghost predicate IsGrid(greys: seq<int>, value: (nat, nat) -> Byte, w: nat, h: nat) {
    && |greys| == w * h
    && forall column: nat, row: nat :: column < w && row < h ==>
         LevelAt(greys, w, column, row) == Some(value(column, row))
  }

  function LevelAt(greys: seq<int>, w: nat, column: nat, row: nat): Option<int> {
    if 0 <= row * w + column < |greys| then Some(greys[row * w + column]) else None
  }

  lemma GridIsGrid(value: (nat, nat) -> Byte, w: nat, h: nat)
    ensures IsGrid(Grid(value, w, h), value, w, h)
  {
    hide Grid;
    GridSize(value, w, h);
    forall column: nat, row: nat | column < w && row < h
      ensures LevelAt(Grid(value, w, h), w, column, row) == Some(value(column, row))
    {
      GridAt(value, w, h, column, row);
    }
  }

  lemma {:induction false} RowAt(value: (nat, nat) -> Byte, row: nat, w: nat, column: nat)
    requires column < w
    ensures column < |Row(value, row, w)| && Row(value, row, w)[column] == value(column, row)
  {
    RowSize(value, row, w - 1);
    if column < w - 1 {
      RowAt(value, row, w - 1, column);
    }
  }

  function Word(high: Byte, low: Byte): nat { 256 * (high as int) + low as int }

  /** Sixteen bits, high byte first; `struct.pack` refuses larger values. */
  function U16(v: nat): (r: seq<Byte>)
    requires v < 65536
    ensures |r| == 2 && Word(r[0], r[1]) == v
  {
    [v / 256, v % 256]
  }

  function Segment(marker: Byte, payload: seq<Byte>): seq<Byte>
    requires |payload| + 2 < 65536
  {
    [0xFF, marker] + U16(|payload| + 2) + payload
  }

  function Exif(orientation: nat): (r: seq<Byte>)
    requires orientation < 65536
    ensures |r| == 32
  {
    [0x45, 0x78, 0x69, 0x66, 0, 0]
    + [0x4D, 0x4D, 0x00, 0x2A, 0, 0, 0, 8]
    + U16(1)
    + U16(0x0112) + U16(3) + [0, 0, 0, 1] + U16(orientation) + U16(0)
    + [0, 0, 0, 0]
  }

  function Dqt(): (r: seq<Byte>)
    ensures |r| == 65
  {
    [0x00] + seq(64, _ => 0x01)
  }

  function Sof(width: nat, height: nat): (r: seq<Byte>)
    requires width < 65536 && height < 65536
    ensures |r| == 9
  {
    [8] + U16(height) + U16(width) + [1] + [0x01, 0x11, 0x00]
  }

  function Dht(class_: Byte, t: Table): (r: seq<Byte>)
    ensures |r| == 1 + |t.counts| + |t.symbols|
  {
    [class_] + t.counts + t.symbols
  }

  const Sos: seq<Byte> := [0x01, 0x01, 0x00, 0x00, 0x3F, 0x00]

  /** The file after the start-of-image marker: the header segments, then `body`. */
  function WithHeaders(width: nat, height: nat, orientation: nat, body: seq<Byte>): seq<Byte>
    requires width < 65536 && height < 65536 && orientation < 65536
  {
    Segment(0xE1, Exif(orientation))
    + (Segment(0xDB, Dqt())
    + (Segment(0xC0, Sof(width, height))
    + (Segment(0xC4, Dht(0x00, DcTable))
    + (Segment(0xC4, Dht(0x10, AcTable))
    + (Segment(0xDA, Sos) + body)))))
  }

  lemma NothingScanned(value: (nat, nat) -> Byte, w: nat)
    ensures ScanBits(0, []) == [] && LastDc(0, []) == 0 && Grid(value, w, 0) == []
  {
  }

  lemma NextRow(value: (nat, nat) -> Byte, w: nat, row: nat)
    ensures Row(value, row, 0) == [] && Grid(value, w, row + 1) == Grid(value, w, row) + Row(value, row, w)
  {
  }

  /** One more block: its bits, its level and its place in the row. */
  lemma NextBlock(greys: seq<Byte>, value: (nat, nat) -> Byte, row: nat, column: nat)
    ensures var grey := value(column, row);
            && ScanBits(0, greys + [grey]) == ScanBits(0, greys) + BlockBits(Dc(grey) - LastDc(0, greys))
            && LastDc(0, greys + [grey]) == Dc(grey)
            && Row(value, row, column + 1) == Row(value, row, column) + [grey]
  {
    ScanSnoc(0, greys, value(column, row));
    hide BlockBits, ScanBits;
  }

  lemma Regrouped(a: seq<Byte>, b: seq<Byte>, c: seq<Byte>)
    ensures a + b + c == a + (b + c)
  {
  }

  /** `jpeg_flat`. */
  method JpegFlat(width: nat, height: nat, value: (nat, nat) -> Byte, orientation: nat)
    returns (bytes: seq<Byte>)
    requires width % 8 == 0 && height % 8 == 0
    requires width < 65536 && height < 65536 && orientation < 65536
    ensures Decode(bytes) == Some(Image(width, height, orientation, Grid(value, width / 8, height / 8)))
    ensures IsGrid(Grid(value, width / 8, height / 8), value, width / 8, height / 8)
    ensures exists data :: bytes == [0xFF, 0xD8] + WithHeaders(width, height, orientation, Stuff(data) + [0xFF, 0xD9])
  {
    hide BlockBits, WithHeaders, Decode, Stuff, Field, ScanBits, LastDc, Grid, Row;
    NothingScanned(value, width / 8);
    var bits := new Bits();
    var previous := 0;
    var w, h := width / 8, height / 8;
    ghost var greys: seq<Byte> := [];
    for row := 0 to h
      invariant bits.Valid() && fresh(bits)
      invariant greys == Grid(value, w, row)
      invariant bits.Written() == ScanBits(0, greys) && previous == LastDc(0, greys)
    {
      ghost var above := greys;
      NextRow(value, w, row);
      for column := 0 to w
        invariant bits.Valid() && fresh(bits)
        invariant greys == above + Row(value, row, column)
        invariant bits.Written() == ScanBits(0, greys) && previous == LastDc(0, greys)
      {
        var dc := 8 * (value(column, row) - 128);
        var diff := dc - previous;
        NextBlock(greys, value, row, column);
        Regrouped(above, Row(value, row, column), [value(column, row)]);
        greys := greys + [value(column, row)];
        previous := dc;
        PutBlock(bits, diff);
      }
    }
    ghost var scan := bits.Written();
    ghost var padding;
    var body;
    body, padding := bits.Flush();
    bytes := [0xFF, 0xD8] + WithHeaders(width, height, orientation, body + [0xFF, 0xD9]);
    ghost var data := bits.data;
    assert body == Stuff(data);
    FileDecodes(width, height, orientation, greys, data, padding, value);
    GridIsGrid(value, w, h);
  }

  /** The loop body of `jpeg_flat`: category, extra bits, end-of-block. */
  method PutBlock(bits: Bits, diff: int)
    requires bits.Valid()
    modifies bits
    ensures bits.Valid() && bits.Written() == old(bits.Written()) + BlockBits(diff)
  {
    var category := Category(diff);
    ghost var start := bits.Written();
    bits.Put(category, 4);
    if category != 0 {
      bits.Put(if diff > 0 then diff else Magnitude(diff), category);
    }
    bits.Put(0, 1);
    BlockParts(start, diff);
  }

  lemma BlockParts(start: seq<bool>, diff: int)
    ensures diff > 0 ==> Magnitude(diff) == diff
    ensures Category(diff) != 0 ==> diff != 0
    ensures start + BlockBits(diff)
         == if Category(diff) == 0 then start + Field(Category(diff), 4) + Field(0, 1)
            else start + Field(Category(diff), 4) + Field(Magnitude(diff), Category(diff)) + Field(0, 1)
  {
    assert Field(0, 1) == [false] by {
      assert Pow2(0) == 1;
      assert Field(0, 0) == [];
    }
  }

  datatype Image = Image(width: nat, height: nat, orientation: nat, greys: seq<int>)

  /** What the decoder knows when it reaches the scan; a quantiser is its 64 entries, and
      a component its identifier. Without Exif data an image is upright. */
  datatype Header = Header(width: nat, height: nat, component: Option<Byte>, orientation: nat,
                           quantiser: Option<seq<Byte>>, dc: Option<Table>, ac: Option<Table>)

  const NOTHING_KNOWN := Header(0, 0, None, 1, None, None, None)

  /** The value of the orientation tag among the `count` entries of a directory that start
      at `p` (sections 2 and 4.6 of TIFF 6.0 and Exif 2.3: a tag, a type, a count, a value). */
  function Orientation(tiff: seq<Byte>, p: nat, count: nat): Option<nat>
    decreases count
  {
    if count == 0 || p + 12 > |tiff| then None
    else if Word(tiff[p], tiff[p + 1]) == 0x0112 && Word(tiff[p + 2], tiff[p + 3]) == 3
      && tiff[p + 4..p + 8] == [0, 0, 0, 1] then Some(Word(tiff[p + 8], tiff[p + 9]))
    else Orientation(tiff, p + 12, count - 1)
  }

  /** The orientation in an application segment: the Exif mark, a big-endian TIFF header,
      and the directory that it points to. */
  function ExifOrientation(payload: seq<Byte>): Option<nat> {
    if |payload| < 14 || payload[..6] != [0x45, 0x78, 0x69, 0x66, 0, 0] || payload[6..10] != [0x4D, 0x4D, 0, 42] then
      None
    else
      var tiff := payload[6..];
      var at := 65536 * Word(tiff[4], tiff[5]) + Word(tiff[6], tiff[7]);
      if at + 2 > |tiff| then None else Orientation(tiff, at + 2, Word(tiff[at], tiff[at + 1]))
  }

  /** What one marker segment tells the decoder; of frames it takes a single component
      with one sample a block. Unused segments are skipped. */
  function Apply(marker: Byte, payload: seq<Byte>, h: Header): Option<Header> {
    if marker == 0xC0 then
      if |payload| == 9 && payload[0] == 8 && payload[5] == 1 && payload[7] == 0x11 && payload[8] == 0 then
        Some(h.(height := Word(payload[1], payload[2]), width := Word(payload[3], payload[4]),
                component := Some(payload[6])))
      else None
    else if marker == 0xC4 then
      if |payload| < 17 then None
      else
        var t := Table(payload[1..17], payload[17..]);
        if payload[0] == 0x00 then Some(h.(dc := Some(t)))
        else if payload[0] == 0x10 then Some(h.(ac := Some(t)))
        else None
    else if marker == 0xDB then
      if |payload| == 65 && payload[0] == 0 then Some(h.(quantiser := Some(payload[1..]))) else None
    else if marker == 0xE1 && ExifOrientation(payload).Some? then
      Some(h.(orientation := ExifOrientation(payload).value))
    else Some(h)
  }

  /** A scan of the frame's component, with tables 0 and the whole spectrum at once
      (section B.2.3 of ITU-T T.81). */
  predicate IsScan(h: Header, payload: seq<Byte>) {
    && |payload| == 6 && payload[0] == 1 && h.component == Some(payload[1])
    && payload[2] == 0 && payload[3] == 0 && payload[4] == 63 && payload[5] == 0
  }

  function DecodeScan(h: Header, payload: seq<Byte>, bytes: seq<Byte>): Option<Image> {
    if !IsScan(h, payload) || h.dc.None? || h.ac.None? || h.quantiser.None? || h.quantiser.value == [] then None
    else
      match Unstuff(bytes)
      case None => None
      case Some((data, end)) =>
        if end != [0xFF, 0xD9] then None
        else
          match DecodeBlocks(h.dc.value, h.ac.value, h.quantiser.value[0], BytesToBits(data),
                             (h.width / 8) * (h.height / 8), 0)
          case None => None
          case Some((greys, rest)) =>
            if |rest| < 8 && AllSet(rest) then Some(Image(h.width, h.height, h.orientation, greys)) else None
  }

  function Segments(bytes: seq<Byte>, h: Header): Option<Image> {
    if |bytes| < 4 || bytes[0] != 0xFF then None
    else
      var length := Word(bytes[2], bytes[3]);
      if length < 2 || |bytes| < 2 + length then None
      else
        var payload, rest := bytes[4..2 + length], bytes[2 + length..];
        if bytes[1] == 0xDA then DecodeScan(h, payload, rest)
        else
          match Apply(bytes[1], payload, h)
          case None => None
          case Some(h') => Segments(rest, h')
  }

  function Decode(bytes: seq<Byte>): Option<Image> {
    if |bytes| < 2 || bytes[..2] != [0xFF, 0xD8] then None
    else Segments(bytes[2..], NOTHING_KNOWN)
  }

  lemma SegmentReads(marker: Byte, payload: seq<Byte>, rest: seq<Byte>, h: Header)
    requires |payload| + 2 < 65536
    ensures Segments(Segment(marker, payload) + rest, h)
         == if marker == 0xDA then DecodeScan(h, payload, rest)
            else match Apply(marker, payload, h)
                 case None => None
                 case Some(h') => Segments(rest, h')
  {
    var s := Segment(marker, payload) + rest;
    var length := |payload| + 2;
    assert s[0] == 0xFF && s[1] == marker && s[2] == U16(length)[0] && s[3] == U16(length)[1];
    assert s[4..2 + length] == payload;
    assert s[2 + length..] == rest;
  }

  lemma ScanDecodes(h: Header, greys: seq<Byte>, data: seq<Byte>, padding: seq<bool>)
    requires h.dc == Some(DcTable) && h.ac == Some(AcTable) && h.quantiser == Some(Dqt()[1..]) && h.component == Some(1)
    requires |greys| == (h.width / 8) * (h.height / 8)
    requires BytesToBits(data) == ScanBits(0, greys) + padding
    requires |padding| < 8 && AllSet(padding)
    ensures DecodeScan(h, Sos, Stuff(data) + [0xFF, 0xD9]) == Some(Image(h.width, h.height, h.orientation, greys))
  {
    UnstuffInvertsStuff(data, [0xFF, 0xD9]);
    BlocksDecode(0, 0, greys, padding);
  }

  /** The file read back from its first byte to its last. */
  lemma FileDecodes(width: nat, height: nat, orientation: nat, greys: seq<Byte>, data: seq<Byte>,
                    padding: seq<bool>, value: (nat, nat) -> Byte)
    requires width < 65536 && height < 65536 && orientation < 65536
    requires greys == Grid(value, width / 8, height / 8)
    requires BytesToBits(data) == ScanBits(0, greys) + padding
    requires |padding| < 8 && AllSet(padding)
    ensures Decode([0xFF, 0xD8] + WithHeaders(width, height, orientation, Stuff(data) + [0xFF, 0xD9]))
         == Some(Image(width, height, orientation, greys))
  {
    hide Segment, Exif, Dqt, Sof, Dht, Segments, Apply, DecodeScan, Grid, Stuff, ScanBits, BytesToBits, AllSet;
    var body := Stuff(data) + [0xFF, 0xD9];
    var h0 := NOTHING_KNOWN.(orientation := orientation, quantiser := Some(Dqt()[1..]));
    var h1 := h0.(width := width, height := height, component := Some(1));
    var h2 := h1.(dc := Some(DcTable));
    var h3 := h2.(ac := Some(AcTable));
    var r5 := Segment(0xDA, Sos) + body;
    var r4 := Segment(0xC4, Dht(0x10, AcTable)) + r5;
    var r3 := Segment(0xC4, Dht(0x00, DcTable)) + r4;
    var r2 := Segment(0xC0, Sof(width, height)) + r3;
    var r1 := Segment(0xDB, Dqt()) + r2;
    var r0 := Segment(0xE1, Exif(orientation)) + r1;
    assert Decode([0xFF, 0xD8] + r0) == Segments(r0, NOTHING_KNOWN) by {
      assert ([0xFF, 0xD8] + r0)[..2] == [0xFF, 0xD8] && ([0xFF, 0xD8] + r0)[2..] == r0;
    }
    SegmentReads(0xE1, Exif(orientation), r1, NOTHING_KNOWN);
    ExifReads(orientation, NOTHING_KNOWN);
    SegmentReads(0xDB, Dqt(), r2, NOTHING_KNOWN.(orientation := orientation));
    DqtReads(NOTHING_KNOWN.(orientation := orientation));
    SegmentReads(0xC0, Sof(width, height), r3, h0);
    SofReads(width, height, h0);
    SegmentReads(0xC4, Dht(0x00, DcTable), r4, h1);
    DhtReads(0x00, DcTable, h1);
    SegmentReads(0xC4, Dht(0x10, AcTable), r5, h2);
    DhtReads(0x10, AcTable, h2);
    SegmentReads(0xDA, Sos, body, h3);
    GridSize(value, width / 8, height / 8);
    ScanDecodes(h3, greys, data, padding);
  }

  /** The Exif data from its TIFF header on, byte for byte. */
  lemma ExifBytes(orientation: nat)
    requires orientation < 65536
    ensures var p := Exif(orientation);
            && p[..6] == [0x45, 0x78, 0x69, 0x66, 0, 0] && p[6..10] == [0x4D, 0x4D, 0, 42]
            && p[10] == 0 && p[11] == 0 && p[12] == 0 && p[13] == 8 && p[14] == 0 && p[15] == 1
  {
    hide U16;
    var front: seq<Byte> := [0x45, 0x78, 0x69, 0x66, 0, 0] + [0x4D, 0x4D, 0x00, 0x2A, 0, 0, 0, 8];
    assert U16(1) == [0, 1] by { UnitIs(1); }
    ExifFront(orientation);
    var p := Exif(orientation);
    hide Exif;
    assert forall i :: 0 <= i < 16 ==> p[i] == p[..16][i];
  }

  lemma UnitIs(v: nat)
    requires v < 256
    ensures U16(v) == [0, v]
  {
  }

  lemma ExifFront(orientation: nat)
    requires orientation < 65536
    ensures Exif(orientation)[..16]
         == [0x45, 0x78, 0x69, 0x66, 0, 0] + [0x4D, 0x4D, 0x00, 0x2A, 0, 0, 0, 8] + U16(1)
  {
    hide U16;
  }

  /** The one entry of the directory. */
  lemma ExifEntry(orientation: nat)
    requires orientation < 65536
    ensures var p := Exif(orientation);
            && Word(p[16], p[17]) == 0x0112 && Word(p[18], p[19]) == 3 && p[20..24] == [0, 0, 0, 1]
            && Word(p[24], p[25]) == orientation
  {
    hide U16;
    var p := Exif(orientation);
    assert p[16] == U16(0x0112)[0] && p[17] == U16(0x0112)[1] && p[18] == U16(3)[0] && p[19] == U16(3)[1];
    assert p[24] == U16(orientation)[0] && p[25] == U16(orientation)[1];
  }

  lemma DirectoryReads(tiff: seq<Byte>, orientation: nat)
    requires |tiff| == 26
    requires Word(tiff[10], tiff[11]) == 0x0112 && Word(tiff[12], tiff[13]) == 3 && tiff[14..18] == [0, 0, 0, 1]
    requires Word(tiff[18], tiff[19]) == orientation
    ensures Orientation(tiff, 10, 1) == Some(orientation)
  {
  }

  lemma ExifReads(orientation: nat, h: Header)
    requires orientation < 65536
    ensures Apply(0xE1, Exif(orientation), h) == Some(h.(orientation := orientation))
  {
    ExifBytes(orientation);
    ExifEntry(orientation);
    var p := Exif(orientation);
    hide Exif;
    var tiff := p[6..];
    assert forall i :: 0 <= i < 26 ==> tiff[i] == p[6 + i];
    assert tiff[14..18] == p[20..24];
    DirectoryReads(tiff, orientation);
    hide Orientation;
  }

  lemma DqtReads(h: Header)
    ensures Apply(0xDB, Dqt(), h) == Some(h.(quantiser := Some(Dqt()[1..])))
  {
  }

  lemma SofReads(width: nat, height: nat, h: Header)
    requires width < 65536 && height < 65536
    ensures Apply(0xC0, Sof(width, height), h) == Some(h.(width := width, height := height, component := Some(1)))
  {
    var p := Sof(width, height);
    assert p[1] == U16(height)[0] && p[2] == U16(height)[1];
    assert p[3] == U16(width)[0] && p[4] == U16(width)[1];
  }

  lemma DhtReads(class_: Byte, t: Table, h: Header)
    requires |t.counts| == 16
    ensures class_ == 0x00 ==> Apply(0xC4, Dht(class_, t), h) == Some(h.(dc := Some(t)))
    ensures class_ == 0x10 ==> Apply(0xC4, Dht(class_, t), h) == Some(h.(ac := Some(t)))
  {
    var p := Dht(class_, t);
    assert p[1..17] == t.counts && p[17..] == t.symbols;
  }
}
