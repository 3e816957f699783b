/** A reader of what the PDF writer makes: tokens, values, objects, streams taken by
    their /Length, and the trailer. It recovers every value that was passed in. */
module PdfReader {
  import opened Nums
  import opened PdfXref

  // ------------------------------------------------------------ tokens

  const SPACE := 32
  const SLASH := 47
  const OPEN_LIST := 91
  const CLOSE_LIST := 93
  const LESS := 60
  const GREATER := 62

  /** The three classes of bytes (section 7.2.2 of ISO 32000-1). */
  predicate IsWhite(b: Byte) { b == 0 || b == 9 || b == 10 || b == 12 || b == 13 || b == SPACE }

  predicate IsDelimiter(b: Byte) {
    b == OPEN || b == CLOSE || b == LESS || b == GREATER || b == OPEN_LIST || b == CLOSE_LIST || b == 123 || b == 125
    || b == SLASH || b == 37
  }

  predicate IsRegular(b: Byte) { !IsWhite(b) && !IsDelimiter(b) }

  predicate AllRegular(s: seq<Byte>) { forall i :: 0 <= i < |s| ==> IsRegular(s[i]) }

  /** How many regular bytes `s` starts with. */
  function Run(s: seq<Byte>): (k: nat)
    ensures k <= |s|
  {
    if s == [] || !IsRegular(s[0]) then 0 else 1 + Run(s[1..])
  }

  /** How many bytes come before the next `>`. */
  function UpToGreater(s: seq<Byte>): (k: nat)
    ensures k <= |s|
  {
    if s == [] || s[0] == GREATER then 0 else 1 + UpToGreater(s[1..])
  }

  datatype Token =
    | Word(bytes: seq<Byte>) | NameToken(name: seq<Byte>) | StringToken(text: seq<Byte>)
    | OpenListToken | CloseListToken | OpenDictToken | CloseDictToken

  datatype Step = End | Got(token: Token, rest: seq<Byte>)

  lemma {:induction false} LiteralIsShorter(s: seq<Byte>)
    ensures ReadLiteral(s).Some? ==> |ReadLiteral(s).value.1| < |s|
    decreases |s|
  {
    if s != [] {
      LiteralIsShorter(s[1..]);
      if |s| > 1 {
        LiteralIsShorter(s[2..]);
      }
    }
  }

  /** A hexadecimal string after its `<`. */
  function ReadHex(s: seq<Byte>): (r: Option<(seq<Byte>, seq<Byte>)>)
    ensures r.Some? ==> |r.value.1| < |s|
  {
    var k := UpToGreater(s);
    if k == |s| || Unhex(s[..k]).None? then None else Some((Unhex(s[..k]).value, s[k + 1..]))
  }

  function Next(s: seq<Byte>): (r: Step)
    ensures r.Got? ==> |r.rest| < |s|
    decreases |s|
  {
    if s == [] then End
    else if IsWhite(s[0]) then Next(s[1..])
    else if IsRegular(s[0]) then Got(Word(s[..Run(s)]), s[Run(s)..])
    else if s[0] == SLASH then Got(NameToken(s[1..][..Run(s[1..])]), s[1..][Run(s[1..])..])
    else if s[0] == OPEN_LIST then Got(OpenListToken, s[1..])
    else if s[0] == CLOSE_LIST then Got(CloseListToken, s[1..])
    else if |s| > 1 && s[0] == LESS && s[1] == LESS then Got(OpenDictToken, s[2..])
    else if |s| > 1 && s[0] == GREATER && s[1] == GREATER then Got(CloseDictToken, s[2..])
    else if s[0] == LESS then
      var hex := ReadHex(s[1..]);
      if hex.None? then End else Got(StringToken(hex.value.0), hex.value.1)
    else if s[0] == OPEN then
      LiteralIsShorter(s[1..]);
      var literal := ReadLiteral(s[1..]);
      if literal.None? then End else Got(StringToken(literal.value.0), literal.value.1)
    else End
  }

  /** A word or a name ends here. */
  predicate Ends(rest: seq<Byte>) { rest == [] || !IsRegular(rest[0]) }

  lemma {:induction false} RunOf(w: seq<Byte>, rest: seq<Byte>)
    requires AllRegular(w) && Ends(rest)
    ensures Run(w + rest) == |w|
  {
    if w == [] {
      assert w + rest == rest;
    } else {
      assert (w + rest)[1..] == w[1..] + rest;
      RunOf(w[1..], rest);
    }
  }

  lemma NextWord(w: seq<Byte>, rest: seq<Byte>)
    requires w != [] && AllRegular(w) && Ends(rest)
    ensures Next(w + rest) == Got(Word(w), rest)
  {
    RunOf(w, rest);
    hide Run;
    var s := w + rest;
    assert s[0] == w[0] && s[..|w|] == w && s[|w|..] == rest;
  }

  lemma NextName(name: seq<Byte>, rest: seq<Byte>)
    requires AllRegular(name) && Ends(rest)
    ensures Next([SLASH] + name + rest) == Got(NameToken(name), rest)
  {
    RunOf(name, rest);
    hide Run;
    var s := [SLASH] + name + rest;
    assert s[1..] == name + rest;
    assert (name + rest)[..|name|] == name && (name + rest)[|name|..] == rest;
  }

  lemma NextWhite(b: Byte, rest: seq<Byte>)
    requires IsWhite(b)
    ensures Next([b] + rest) == Next(rest)
  {
    assert ([b] + rest)[1..] == rest;
  }

  lemma NextBracket(rest: seq<Byte>)
    ensures Next([OPEN_LIST] + rest) == Got(OpenListToken, rest)
    ensures Next([CLOSE_LIST] + rest) == Got(CloseListToken, rest)
    ensures Next([LESS, LESS] + rest) == Got(OpenDictToken, rest)
    ensures Next([GREATER, GREATER] + rest) == Got(CloseDictToken, rest)
  {
    assert ([OPEN_LIST] + rest)[1..] == rest && ([CLOSE_LIST] + rest)[1..] == rest;
    assert ([LESS, LESS] + rest)[2..] == rest && ([GREATER, GREATER] + rest)[2..] == rest;
  }

  predicate AllHex(s: seq<Byte>) { forall i :: 0 <= i < |s| ==> HexValue(s[i]).Some? }

  lemma {:induction false} UnhexedIsHex(s: seq<Byte>)
    requires Unhex(s).Some?
    ensures AllHex(s)
    decreases |s|
  {
    if s != [] {
      UnhexedIsHex(s[2..]);
      assert s == [s[0], s[1]] + s[2..];
    }
  }

  lemma {:induction false} GreaterAfter(hex: seq<Byte>, rest: seq<Byte>)
    requires AllHex(hex)
    ensures UpToGreater(hex + [GREATER] + rest) == |hex|
  {
    var s := hex + [GREATER] + rest;
    if hex != [] {
      assert s[1..] == hex[1..] + [GREATER] + rest;
      GreaterAfter(hex[1..], rest);
    }
  }

  lemma NextHex(hex: seq<Byte>, rest: seq<Byte>)
    requires Unhex(hex).Some?
    ensures Next([LESS] + hex + [GREATER] + rest) == Got(StringToken(Unhex(hex).value), rest)
  {
    UnhexedIsHex(hex);
    GreaterAfter(hex, rest);
    hide UpToGreater, Unhex;
    var s, inner := [LESS] + hex + [GREATER] + rest, hex + [GREATER] + rest;
    assert s[1..] == inner && inner[..|hex|] == hex && inner[|hex| + 1..] == rest;
    assert s[1] == if hex == [] then GREATER else hex[0];
  }

  lemma NextLiteral(text: seq<Byte>, rest: seq<Byte>)
    ensures Next(Literal(text) + rest) == Got(StringToken(LinesFolded(text)), rest)
  {
    LiteralReadsFolded(text, rest);
    hide ReadLiteral, Escaped, LinesFolded;
    assert (Literal(text) + rest)[1..] == Escaped(text) + [CLOSE] + rest;
  }

  // ------------------------------------------------------------ values

  /** What a value means to a reader. */
  datatype Item =
    | Keyword(on: bool) | Whole(number: int) | Decimal(digits: seq<Byte>) | NameItem(name: seq<Byte>)
    | StringItem(text: seq<Byte>) | Reference(num: int) | ArrayItem(items: seq<Item>) | DictItem(pairs: seq<Pair>)

  datatype Pair = Pair(key: seq<Byte>, value: Item)

  const TRUE: seq<Byte> := [116, 114, 117, 101]
  const FALSE: seq<Byte> := [102, 97, 108, 115, 101]
  const ZERO: seq<Byte> := [48]
  const R: seq<Byte> := [82]

  /** An integer, with or without a sign. */
  function ReadInt(w: seq<Byte>): Option<int> {
    if |w| > 1 && w[0] == 45 && AllDigits(w[1..]) then
      var n: int := ReadDec(w[1..]);
      Some(-n)
    else if w != [] && AllDigits(w) then Some(ReadDec(w))
    else None
  }

  predicate IsWord(s: seq<Byte>, w: seq<Byte>) { Next(s).Got? && Next(s).token == Word(w) }

  /** What follows the generation and the `R` of an indirect reference. */
  function AfterReference(s: seq<Byte>): (r: Option<seq<Byte>>)
    ensures r.Some? ==> |r.value| < |s|
  {
    if IsWord(s, ZERO) && IsWord(Next(s).rest, R) then Some(Next(Next(s).rest).rest) else None
  }

  /** The value that starts with word `w`: a number is a reference if that is how it
      goes on (section 7.3.10 of ISO 32000-1). */
  function ReadWord(w: seq<Byte>, rest: seq<Byte>): (r: (Item, seq<Byte>))
    ensures |r.1| <= |rest|
  {
    var n, after := ReadInt(w), AfterReference(rest);
    if n.Some? then if after.Some? then (Reference(n.value), after.value) else (Whole(n.value), rest)
    else (if w == TRUE then Keyword(true) else if w == FALSE then Keyword(false) else Decimal(w), rest)
  }

  function ReadItem(s: seq<Byte>): (r: Option<(Item, seq<Byte>)>)
    ensures r.Some? ==> |r.value.1| < |s|
    decreases |s|, 0
  {
    match Next(s)
    case End => None
    case Got(token, rest) =>
      match token
      case Word(w) => Some(ReadWord(w, rest))
      case NameToken(name) => Some((NameItem(name), rest))
      case StringToken(text) => Some((StringItem(text), rest))
      case OpenListToken =>
        var items := ReadItems(rest);
        if items.None? then None else Some((ArrayItem(items.value.0), items.value.1))
      case OpenDictToken =>
        var pairs := ReadPairs(rest);
        if pairs.None? then None else Some((DictItem(pairs.value.0), pairs.value.1))
      case _ => None
  }

  /** The rest of a list, up to its closing bracket. */
  function ReadItems(s: seq<Byte>): (r: Option<(seq<Item>, seq<Byte>)>)
    ensures r.Some? ==> |r.value.1| < |s|
    decreases |s|, 1
  {
    if AtListEnd(s) then Some(([], Next(s).rest))
    else
      var first := ReadItem(s);
      if first.None? then None
      else
        var others := ReadItems(first.value.1);
        if others.None? then None else Some(([first.value.0] + others.value.0, others.value.1))
  }

  /** The rest of a dictionary, up to its closing brackets. */
  function ReadPairs(s: seq<Byte>): (r: Option<(seq<Pair>, seq<Byte>)>)
    ensures r.Some? ==> |r.value.1| < |s|
    decreases |s|, 1
  {
    match Next(s)
    case End => None
    case Got(token, rest) =>
      if token.CloseDictToken? then Some(([], rest))
      else if !token.NameToken? then None
      else
        var first := ReadItem(rest);
        if first.None? then None
        else
          var others := ReadPairs(first.value.1);
          if others.None? then None
          else Some(([Pair(token.name, first.value.0)] + others.value.0, others.value.1))
  }

  predicate AtListEnd(s: seq<Byte>) { Next(s).Got? && Next(s).token.CloseListToken? }

  /** Raw bytes that are one string. */
  function RawText(bytes: seq<Byte>): Option<seq<Byte>> {
    if bytes == [] || (bytes[0] != LESS && bytes[0] != OPEN) then None
    else
      match Next(bytes)
      case Got(StringToken(text), rest) => if rest == [] then Some(text) else None
      case _ => None
  }

  /** Values that have a meaning to a reader: names are written in regular bytes, since
      `_serialise` escapes none, raw bytes are one string, and a float is no integer. */
  predicate Readable(value: Value)
    decreases value, 0
  {
    match value
    case Raw(bytes) => RawText(bytes).Some?
    case Name(name) => AllRegular(name)
    case Float(digits) =>
      digits != [] && AllRegular(digits) && ReadInt(digits).None? && digits != TRUE && digits != FALSE && digits != R
    case List(items) => ReadableItems(items)
    case Dict(fields) => ReadableFields(fields)
    case _ => true
  }

  predicate ReadableItems(items: seq<Value>)
    decreases items, 1
  {
    items == [] || (Readable(items[0]) && ReadableItems(items[1..]))
  }

  predicate ReadableFields(fields: seq<Field>)
    decreases fields, 1
  {
    fields == [] || (AllRegular(fields[0].key) && Readable(fields[0].value) && ReadableFields(fields[1..]))
  }

  /** The bytes of a string, as a reader of the file gets them: encrypted, or with its
      bare end-of-line markers as line feeds. */
  function TextOf(chars: seq<nat>, num: int, enc: Option<Handler>): seq<Byte> {
    match Latin1(chars)
    case None => []
    case Some(data) =>
      if enc.None? then LinesFolded(data)
      else
        match enc.value.encrypt(num, data)
        case None => []
        case Some(secret) => secret
  }

  function Meaning(value: Value, num: int, enc: Option<Handler>): Item
    decreases value, 0
  {
    match value
    case Raw(bytes) => StringItem(if RawText(bytes).Some? then RawText(bytes).value else [])
    case Name(name) => NameItem(name)
    case Boolean(on) => Keyword(on)
    case Integer(n) => Whole(n)
    case Float(digits) => Decimal(digits)
    case Ref(n) => Reference(n)
    case Text(chars) => StringItem(TextOf(chars, num, enc))
    case List(items) => ArrayItem(Meanings(items, num, enc))
    case Dict(fields) => DictItem(MeaningsOf(fields, num, enc))
    case Unsupported => DictItem([])
  }

  function Meanings(items: seq<Value>, num: int, enc: Option<Handler>): seq<Item>
    decreases items, 1
  {
    if items == [] then [] else [Meaning(items[0], num, enc)] + Meanings(items[1..], num, enc)
  }

  function MeaningsOf(fields: seq<Field>, num: int, enc: Option<Handler>): seq<Pair>
    decreases fields, 1
  {
    if fields == [] then []
    else [Pair(fields[0].key, Meaning(fields[0].value, num, enc))] + MeaningsOf(fields[1..], num, enc)
  }

  // ------------------------------------------------------------ every value is read

  /** The punctuation of the writer, as bytes. */
  lemma Punctuation()
    ensures Ascii("/") == [SLASH] && Ascii(" ") == [SPACE] && Ascii("<") == [LESS] && Ascii(">") == [GREATER]
    ensures Ascii("[") == [OPEN_LIST] && Ascii("]") == [CLOSE_LIST]
    ensures Ascii("<<") == [LESS, LESS] && Ascii(">>") == [GREATER, GREATER]
    ensures Ascii(" 0 R") == [SPACE, 48, SPACE, 82] && Ascii("true") == TRUE && Ascii("false") == FALSE
  {
  }

  lemma DecIntReads(n: int)
    ensures DecInt(n) != [] && AllRegular(DecInt(n)) && ReadInt(DecInt(n)) == Some(n)
    ensures DecInt(n) != R
  {
    var s := DecInt(n);
    hide ReadDec;
    if n < 0 {
      ReadDecInvertsDec(-n);
      assert s[1..] == Dec(-n) && !IsDigit(s[0]);
    } else {
      ReadDecInvertsDec(n);
    }
    hide Dec;
    assert forall i :: 0 <= i < |s| ==> IsDigit(s[i]) || s[i] == 45;
  }

  /** Whatever number comes before, it is not the start of a reference. */
  predicate Quiet(rest: seq<Byte>) { !IsWord(rest, R) && AfterReference(rest).None? }

  lemma SameNext(a: seq<Byte>, b: seq<Byte>)
    requires Next(a) == Next(b)
    ensures ReadItem(a) == ReadItem(b) && ReadItems(a) == ReadItems(b) && ReadPairs(a) == ReadPairs(b)
    ensures Quiet(a) == Quiet(b)
  {
    hide Next;
  }

  lemma QuietUnlessWord(s: seq<Byte>)
    requires Next(s).Got? ==> !Next(s).token.Word?
    ensures Quiet(s)
  {
    hide Next;
  }

  lemma QuietBeforeWord(s: seq<Byte>, w: seq<Byte>, rest: seq<Byte>)
    requires Next(s) == Got(Word(w), rest) && w != R && (w == ZERO ==> !IsWord(rest, R))
    ensures Quiet(s)
  {
    hide Next;
  }

  /** A literal that was read to its end is read the same with more behind it. */
  lemma {:induction false} LiteralExtends(s: seq<Byte>, rest: seq<Byte>)
    requires ReadLiteral(s).Some?
    ensures ReadLiteral(s + rest) == Some((ReadLiteral(s).value.0, ReadLiteral(s).value.1 + rest))
    decreases |s|
  {
    assert (s + rest)[1..] == s[1..] + rest;
    if s[0] != CLOSE {
      if |s| > 1 {
        assert (s + rest)[2..] == s[2..] + rest;
      }
      if (s[0] == BACKSLASH && |s| > 1 && Special(s[1])) || (s[0] == CR && |s| > 1 && s[1] == LF) {
        LiteralExtends(s[2..], rest);
      } else {
        LiteralExtends(s[1..], rest);
      }
    }
  }

  lemma {:induction false} GreaterExtends(s: seq<Byte>, rest: seq<Byte>)
    requires UpToGreater(s) < |s|
    ensures UpToGreater(s + rest) == UpToGreater(s)
  {
    assert (s + rest)[1..] == s[1..] + rest;
    if s[0] != GREATER {
      GreaterExtends(s[1..], rest);
    }
  }

  lemma RawRead(bytes: seq<Byte>, rest: seq<Byte>)
    requires RawText(bytes).Some?
    ensures Next(bytes + rest) == Got(StringToken(RawText(bytes).value), rest)
  {
    hide UpToGreater, Unhex, ReadLiteral;
    var s, inner := bytes + rest, bytes[1..];
    assert s[1..] == inner + rest;
    if bytes[0] == OPEN {
      LiteralExtends(inner, rest);
      assert [] + rest == rest;
    } else {
      assert |bytes| > 1 && s[1] == bytes[1];
      var k := UpToGreater(inner);
      GreaterExtends(inner, rest);
      assert (inner + rest)[..k] == inner[..k] && (inner + rest)[k + 1..] == inner[k + 1..] + rest;
      assert inner[k + 1..] == [];
    }
  }

  predicate IsSimple(value: Value) {
    !value.Ref? && !value.List? && !value.Dict? && !value.Unsupported?
  }

  /** What a value that is one word, name or string is written as. */
  function TokenOf(value: Value, num: int, enc: Option<Handler>): Token
    requires IsSimple(value)
  {
    match value
    case Raw(bytes) => StringToken(if RawText(bytes).Some? then RawText(bytes).value else [])
    case Name(name) => NameToken(name)
    case Boolean(on) => Word(if on then TRUE else FALSE)
    case Integer(n) => Word(DecInt(n))
    case Float(digits) => Word(digits)
    case Text(chars) => StringToken(TextOf(chars, num, enc))
  }

  lemma SimpleIsOneToken(value: Value, num: int, enc: Option<Handler>, rest: seq<Byte>)
    requires IsSimple(value) && Readable(value) && Ends(rest) && Serialised(value, num, enc).Some?
    ensures Next(Serialised(value, num, enc).value + rest) == Got(TokenOf(value, num, enc), rest)
  {
    hide Next, Hex, DecInt, Literal, Latin1, Ascii, RawText, LinesFolded;
    var s := Serialised(value, num, enc).value;
    Punctuation();
    match value {
      case Raw(bytes) => RawRead(bytes, rest);
      case Name(name) => NextName(name, rest);
      case Boolean(on) => NextWord(s, rest);
      case Integer(n) =>
        DecIntReads(n);
        NextWord(s, rest);
      case Float(digits) => NextWord(s, rest);
      case Text(chars) => TextIsOneToken(chars, num, enc, rest);
    }
  }

  lemma TextIsOneToken(chars: seq<nat>, num: int, enc: Option<Handler>, rest: seq<Byte>)
    requires Serialised(Text(chars), num, enc).Some?
    ensures Next(Serialised(Text(chars), num, enc).value + rest) == Got(StringToken(TextOf(chars, num, enc)), rest)
  {
    hide Next, Hex, Unhex, Literal, Latin1, Ascii, LinesFolded;
    Punctuation();
    var data := Latin1(chars).value;
    if enc.None? {
      NextLiteral(data, rest);
    } else {
      var secret := enc.value.encrypt(num, data).value;
      UnhexInvertsHex(secret);
      NextHex(Hex(secret), rest);
    }
  }

  lemma SimpleRead(value: Value, num: int, enc: Option<Handler>, rest: seq<Byte>)
    requires IsSimple(value) && Readable(value) && Ends(rest) && Quiet(rest) && Serialised(value, num, enc).Some?
    ensures IsRead(value, num, enc, rest)
  {
    hide Next, DecInt, RawText, TextOf, ReadInt, Serialised;
    var s := Serialised(value, num, enc).value + rest;
    SimpleIsOneToken(value, num, enc, rest);
    match value {
      case Integer(n) =>
        DecIntReads(n);
        QuietBeforeWord(s, DecInt(n), rest);
      case Boolean(on) =>
        NoNumbers();
        QuietBeforeWord(s, if on then TRUE else FALSE, rest);
      case Float(digits) =>
        NoNumbers();
        QuietBeforeWord(s, digits, rest);
      case _ =>
        QuietUnlessWord(s);
    }
  }

  lemma NoNumbers()
    ensures ReadInt(TRUE).None? && ReadInt(FALSE).None?
    ensures TRUE != R && FALSE != R && ReadInt(ZERO) == Some(0)
  {
    assert !IsDigit(TRUE[0]) && !IsDigit(FALSE[0]);
    assert ReadDec(ZERO[..0]) == 0;
  }

  /** A serialised value, with `rest` behind it, reads as its meaning and leaves `rest`. */
  predicate IsRead(value: Value, num: int, enc: Option<Handler>, rest: seq<Byte>)
    requires Serialised(value, num, enc).Some?
  {
    var s := Serialised(value, num, enc).value + rest;
    ReadItem(s) == Some((Meaning(value, num, enc), rest)) && Quiet(s) && !AtListEnd(s)
  }

  lemma ReferenceRead(n: int, num: int, enc: Option<Handler>, rest: seq<Byte>)
    requires Ends(rest)
    ensures IsRead(Ref(n), num, enc, rest)
  {
    hide Next, Ascii, DecInt, ReadInt, AllRegular;
    Punctuation();
    DecIntReads(n);
    var tail := [SPACE] + (R + rest);
    var after := [SPACE] + (ZERO + tail);
    var s := Serialised(Ref(n), num, enc).value + rest;
    assert s == DecInt(n) + after;
    WordsOfReference();
    NextWord(R, rest);
    NextWhite(SPACE, R + rest);
    NextWord(ZERO, tail);
    NextWhite(SPACE, ZERO + tail);
    NextWord(DecInt(n), after);
    QuietBeforeWord(s, DecInt(n), after);
  }

  lemma WordsOfReference()
    ensures AllRegular(ZERO) && AllRegular(R)
  {
  }

  /** The main result: whatever value was written, in front of whatever text, a reader
      gets its meaning and stops right after it. */
  lemma {:induction false} ValueIsRead(value: Value, num: int, enc: Option<Handler>, rest: seq<Byte>)
    requires Readable(value) && Ends(rest) && Quiet(rest) && Serialised(value, num, enc).Some?
    ensures IsRead(value, num, enc, rest)
    decreases value, 0
  {
    hide Next, Ascii, RawText, DecInt, Latin1, ReadInt, TextOf, Quiet;
    match value {
      case Ref(n) => ReferenceRead(n, num, enc, rest);
      case List(items) => ListIsRead(items, num, enc, rest);
      case Dict(fields) => DictIsRead(fields, num, enc, rest);
      case _ => SimpleRead(value, num, enc, rest);
    }
  }

  lemma {:induction false} ListIsRead(items: seq<Value>, num: int, enc: Option<Handler>, rest: seq<Byte>)
    requires ReadableItems(items) && Serialised(List(items), num, enc).Some?
    ensures IsRead(List(items), num, enc, rest)
    decreases items, 1
  {
    hide Next, ReadableItems, Ascii, Quiet, Meanings;
    var s := Serialised(List(items), num, enc).value + rest;
    var inner := SerialisedItems(items, num, enc).value + ([CLOSE_LIST] + rest);
    Punctuation();
    assert s == [OPEN_LIST] + inner;
    NextBracket(inner);
    ItemsAreRead(items, num, enc, rest);
    QuietUnlessWord(s);
  }

  lemma OneMoreItem(s: seq<Byte>, item: Item, after: seq<Byte>, others: seq<Item>, rest: seq<Byte>)
    requires ReadItem(s) == Some((item, after)) && !AtListEnd(s) && ReadItems(after) == Some((others, rest))
    ensures ReadItems(s) == Some(([item] + others, rest))
  {
    hide Next, ReadItem;
  }

  lemma NoMoreItems(rest: seq<Byte>)
    ensures ReadItems([CLOSE_LIST] + rest) == Some(([], rest)) && Quiet([CLOSE_LIST] + rest)
  {
    NextBracket(rest);
    QuietUnlessWord([CLOSE_LIST] + rest);
    hide Next, ReadItem;
  }

  lemma {:induction false} ItemsAreRead(items: seq<Value>, num: int, enc: Option<Handler>, rest: seq<Byte>)
    requires ReadableItems(items) && SerialisedItems(items, num, enc).Some?
    ensures var s := SerialisedItems(items, num, enc).value + ([CLOSE_LIST] + rest);
            ReadItems(s) == Some((Meanings(items, num, enc), rest)) && Quiet(s)
    decreases items, 0
  {
    hide Next, Readable, Serialised, Meaning, ReadItem, ReadItems, Quiet;
    var s, close := SerialisedItems(items, num, enc).value, [CLOSE_LIST] + rest;
    NoMoreItems(rest);
    if items == [] {
      assert s + close == close;
    } else if |items| == 1 {
      ValueIsRead(items[0], num, enc, close);
      assert Meanings(items[1..], num, enc) == [];
      OneMoreItem(s + close, Meaning(items[0], num, enc), close, [], rest);
    } else {
      var first, others := Serialised(items[0], num, enc).value, SerialisedItems(items[1..], num, enc).value + close;
      Punctuation();
      hide Ascii;
      assert s + close == first + ([SPACE] + others);
      ItemsAreRead(items[1..], num, enc, rest);
      NextWhite(SPACE, others);
      SameNext([SPACE] + others, others);
      ValueIsRead(items[0], num, enc, [SPACE] + others);
      OneMoreItem(s + close, Meaning(items[0], num, enc), [SPACE] + others, Meanings(items[1..], num, enc), rest);
    }
  }

  lemma {:induction false} DictIsRead(fields: seq<Field>, num: int, enc: Option<Handler>, rest: seq<Byte>)
    requires ReadableFields(fields) && Serialised(Dict(fields), num, enc).Some?
    ensures IsRead(Dict(fields), num, enc, rest)
    decreases fields, 1
  {
    hide Next, ReadableFields, Ascii, Quiet, MeaningsOf;
    var s := Serialised(Dict(fields), num, enc).value + rest;
    var inner := SerialisedEntries(fields, num, enc).value + ([GREATER, GREATER] + rest);
    Punctuation();
    assert s == [LESS, LESS] + inner;
    NextBracket(inner);
    FieldsAreRead(fields, num, enc, rest);
    QuietUnlessWord(s);
  }

  lemma FieldsText(fields: seq<Field>, num: int, enc: Option<Handler>, rest: seq<Byte>)
    requires fields != [] && SerialisedEntries(fields, num, enc).Some?
    ensures Serialised(fields[0].value, num, enc).Some?
    ensures |fields| > 1 ==> SerialisedEntries(fields[1..], num, enc).Some?
    ensures SerialisedEntries(fields, num, enc).value + rest
         == [SLASH] + fields[0].key + ([SPACE] + (Serialised(fields[0].value, num, enc).value
            + if |fields| == 1 then rest else [SPACE] + (SerialisedEntries(fields[1..], num, enc).value + rest)))
  {
    hide Serialised, Ascii;
    Punctuation();
    var key, text := fields[0].key, Serialised(fields[0].value, num, enc).value;
    var first := [SLASH] + key + [SPACE] + text;
    if |fields| == 1 {
      assert SerialisedEntries(fields, num, enc).value == first;
      Nested(key, text, rest);
    } else {
      var others := SerialisedEntries(fields[1..], num, enc).value;
      assert SerialisedEntries(fields, num, enc).value == first + [SPACE] + others;
      assert first + [SPACE] + others + rest == first + ([SPACE] + (others + rest));
      Nested(key, text, [SPACE] + (others + rest));
    }
  }

  lemma Nested(key: seq<Byte>, text: seq<Byte>, rest: seq<Byte>)
    ensures [SLASH] + key + [SPACE] + text + rest == [SLASH] + key + ([SPACE] + (text + rest))
  {
  }

  lemma {:induction false} FieldsAreRead(fields: seq<Field>, num: int, enc: Option<Handler>, rest: seq<Byte>)
    requires ReadableFields(fields) && SerialisedEntries(fields, num, enc).Some?
    ensures var s := SerialisedEntries(fields, num, enc).value + ([GREATER, GREATER] + rest);
            ReadPairs(s) == Some((MeaningsOf(fields, num, enc), rest)) && Quiet(s)
    decreases fields, 0
  {
    hide Next, Readable, Serialised, Ascii, Meaning, ReadItem, Quiet;
    var close: seq<Byte> := [GREATER, GREATER] + rest;
    var s := SerialisedEntries(fields, num, enc).value + close;
    NextBracket(rest);
    if fields == [] {
      assert s == close;
    } else {
      FieldsText(fields, num, enc, close);
      var key, text := fields[0].key, Serialised(fields[0].value, num, enc).value;
      var more := if |fields| == 1 then close else SerialisedEntries(fields[1..], num, enc).value + close;
      var after := if |fields| == 1 then close else [SPACE] + more;
      QuietUnlessWord(close);
      NextWhite(SPACE, more);
      SameNext([SPACE] + more, more);
      if |fields| > 1 {
        FieldsAreRead(fields[1..], num, enc, rest);
      } else {
        assert MeaningsOf(fields[1..], num, enc) == [];
      }
      ValueIsRead(fields[0].value, num, enc, after);
      NextName(key, [SPACE] + (text + after));
      NextWhite(SPACE, text + after);
      SameNext([SPACE] + (text + after), text + after);
    }
    QuietUnlessWord(s);
  }

  // ------------------------------------------------------------ objects

  /** The first entry of that name. */
  function Find(pairs: seq<Pair>, key: seq<Byte>): Option<Item> {
    if pairs == [] then None else if pairs[0].key == key then Some(pairs[0].value) else Find(pairs[1..], key)
  }

  const LENGTH: seq<Byte> := Ascii("Length")

  datatype Found = PlainFound(item: Item) | StreamFound(pairs: seq<Pair>, data: seq<Byte>)

  /** What stands between `obj` and `endobj`; a stream's bytes are taken by its length
      (section 7.3.8 of ISO 32000-1). */
  function ReadObject(s: seq<Byte>): Option<Found> {
    match ReadItem(s)
    case None => None
    case Some((item, rest)) =>
      if At(rest, 0, Ascii("\nendobj\n")) then Some(PlainFound(item))
      else if !item.DictItem? || !At(rest, 0, Ascii("\nstream\n")) then None
      else
        match Find(item.pairs, LENGTH)
        case Some(Whole(n)) =>
          if n >= 0 && At(rest, 8 + n, Ascii("\nendstream\nendobj\n")) then
            Some(StreamFound(item.pairs, rest[8..8 + n]))
          else None
        case _ => None
  }

  /** A reader with nothing but the file and an object number. */
  function ObjectIn(file: seq<Byte>, n: nat): Option<Found> {
    var offset := Lookup(file, n);
    if offset.None? || !At(file, offset.value, Opening(n)) then None
    else ReadObject(file[offset.value + |Opening(n)|..])
  }

  predicate ReadableObject(object_: Object) {
    if object_.Plain? then Readable(object_.value) else ReadableFields(object_.dictionary)
  }

  /** The bytes a stream is written with. */
  function Sealed(data: seq<Byte>, num: int, enc: Option<Handler>): Option<seq<Byte>> {
    if enc.Some? then enc.value.encrypt(num, data) else Some(data)
  }

  /** What was found is what was written: the meaning of a value, or the bytes of a
      stream, their number, and every other entry of its dictionary. */
  ghost predicate Says(found: Found, object_: Object, num: int, enc: Option<Handler>) {
    match object_
    case Plain(value) => found == PlainFound(Meaning(value, num, enc))
    case Stream(dictionary, data) =>
      && found.StreamFound?
      && Sealed(data, num, enc) == Some(found.data)
      && Find(found.pairs, LENGTH) == Some(Whole(|found.data|))
      && forall key :: key != LENGTH ==> Find(found.pairs, key) == Find(MeaningsOf(dictionary, num, enc), key)
  }

  lemma {:induction false} WithIsReadable(fields: seq<Field>, length: nat)
    requires ReadableFields(fields)
    ensures ReadableFields(With(fields, LENGTH, Integer(length)))
  {
    LengthIsRegular();
    var all := With(fields, LENGTH, Integer(length));
    if fields == [] {
      assert all[1..] == [];
    } else if fields[0].key == LENGTH {
      assert all[1..] == fields[1..];
    } else {
      WithIsReadable(fields[1..], length);
      assert all[1..] == With(fields[1..], LENGTH, Integer(length));
    }
  }

  lemma LengthIsRegular()
    ensures AllRegular(LENGTH)
  {
  }

  lemma FirstMeaning(f: Field, rest: seq<Field>, num: int, enc: Option<Handler>, key: seq<Byte>)
    ensures Find(MeaningsOf([], num, enc), key) == None
    ensures Find(MeaningsOf([f] + rest, num, enc), key)
         == if f.key == key then Some(Meaning(f.value, num, enc)) else Find(MeaningsOf(rest, num, enc), key)
  {
    assert ([f] + rest)[1..] == rest;
    hide Meaning;
    var pairs := MeaningsOf([f] + rest, num, enc);
    assert pairs[1..] == MeaningsOf(rest, num, enc);
  }

  lemma {:induction false} WithMeans(fields: seq<Field>, n: int, num: int, enc: Option<Handler>, key: seq<Byte>)
    ensures Find(MeaningsOf(With(fields, LENGTH, Integer(n)), num, enc), key)
         == if key == LENGTH then Some(Whole(n)) else Find(MeaningsOf(fields, num, enc), key)
  {
    hide MeaningsOf, Find, Ascii;
    var f := Field(LENGTH, Integer(n));
    if fields == [] {
      FirstMeaning(f, [], num, enc, key);
      assert [f] + [] == [f];
    } else {
      var rest := fields[1..];
      assert fields == [fields[0]] + rest;
      FirstMeaning(fields[0], rest, num, enc, key);
      FirstMeaning(f, rest, num, enc, key);
      WithMeans(rest, n, num, enc, key);
      FirstMeaning(fields[0], With(rest, LENGTH, Integer(n)), num, enc, key);
    }
  }

  /** After a value comes a word that does not continue it. */
  lemma KeywordAfter(line: string, w: seq<Byte>, rest: seq<Byte>)
    requires Ascii(line) == [LF] + w && w != [] && AllRegular(w) && w != R && w != ZERO && Ends(rest)
    ensures Ends(Ascii(line) + rest) && Quiet(Ascii(line) + rest)
  {
    hide Next, Ascii, AfterReference;
    NextWord(w, rest);
    NextWhite(LF, w + rest);
    assert Ascii(line) + rest == [LF] + (w + rest);
    QuietBeforeWord([LF] + (w + rest), w, rest);
  }

  const ENDOBJ: seq<Byte> := [101, 110, 100, 111, 98, 106]
  const STREAM: seq<Byte> := [115, 116, 114, 101, 97, 109]
  const STARTXREF: seq<Byte> := [115, 116, 97, 114, 116, 120, 114, 101, 102]

  lemma EndobjLine()
    ensures Ascii("\nendobj\n") == [LF] + (ENDOBJ + [LF]) && AllRegular(ENDOBJ) && Ascii("\nendobj") == [LF] + ENDOBJ
  {
    hide Ascii;
  }

  lemma StreamLine()
    ensures Ascii("\nstream\n") == [LF] + (STREAM + [LF]) && AllRegular(STREAM) && Ascii("\nstream") == [LF] + STREAM
  {
    hide Ascii;
  }

  lemma StartxrefLine()
    ensures Ascii("\nstartxref\n") == [LF] + (STARTXREF + [LF]) && AllRegular(STARTXREF)
    ensures Ascii("\nstartxref") == [LF] + STARTXREF
  {
    hide Ascii;
  }

  lemma EndOfStream()
    ensures Ascii("\nendstream\nendobj\n") == Ascii("\nendstream") + Ascii("\nendobj\n")
  {
    hide Ascii;
  }

  lemma LineAfter(rest: seq<Byte>)
    ensures Ends(Ascii("\nendobj\n") + rest) && Quiet(Ascii("\nendobj\n") + rest)
    ensures Ends(Ascii("\nstream\n") + rest) && Quiet(Ascii("\nstream\n") + rest)
    ensures Ends(Ascii("\nstartxref\n") + rest) && Quiet(Ascii("\nstartxref\n") + rest)
  {
    hide Quiet, Ascii;
    EndobjLine();
    StreamLine();
    StartxrefLine();
    KeywordAfter("\nendobj", ENDOBJ, [LF] + rest);
    KeywordAfter("\nstream", STREAM, [LF] + rest);
    KeywordAfter("\nstartxref", STARTXREF, [LF] + rest);
    assert Ascii("\nendobj\n") + rest == Ascii("\nendobj") + ([LF] + rest);
    assert Ascii("\nstream\n") + rest == Ascii("\nstream") + ([LF] + rest);
    assert Ascii("\nstartxref\n") + rest == Ascii("\nstartxref") + ([LF] + rest);
  }

  lemma PlainIsRead(value: Value, num: int, enc: Option<Handler>, rest: seq<Byte>)
    requires Readable(value) && Serialised(value, num, enc).Some?
    ensures ReadObject(Serialised(value, num, enc).value + (Ascii("\nendobj\n") + rest))
         == Some(PlainFound(Meaning(value, num, enc)))
  {
    hide Ascii, Readable, Serialised, Meaning, ReadItem, Quiet;
    LineAfter(rest);
    ValueIsRead(value, num, enc, Ascii("\nendobj\n") + rest);
    AtAfter([], Ascii("\nendobj\n"), rest);
    assert [] + Ascii("\nendobj\n") + rest == Ascii("\nendobj\n") + rest;
  }

  lemma StreamTaken(s: seq<Byte>, pairs: seq<Pair>, data: seq<Byte>, tail: seq<Byte>, rest: seq<Byte>)
    requires ReadItem(s) == Some((DictItem(pairs), tail)) && Find(pairs, LENGTH) == Some(Whole(|data|))
    requires tail == Ascii("\nstream\n") + data + Ascii("\nendstream\nendobj\n") + rest
    ensures ReadObject(s) == Some(StreamFound(pairs, data))
  {
    hide ReadItem, Find, At;
    NoEndYet(data, Ascii("\nendstream\nendobj\n") + rest);
    hide Ascii;
    assert tail == Ascii("\nstream\n") + (data + (Ascii("\nendstream\nendobj\n") + rest));
    Cut(tail, Ascii("\nstream\n"), data, Ascii("\nendstream\nendobj\n"), rest);
  }

  lemma NoEndYet(data: seq<Byte>, rest: seq<Byte>)
    ensures !At(Ascii("\nstream\n") + (data + rest), 0, Ascii("\nendobj\n"))
    ensures |Ascii("\nstream\n")| == 8
  {
    hide Ascii;
    var s := Ascii("\nstream\n") + (data + rest);
    assert s[0..8][1] == s[1] == Code('s');
    assert Ascii("\nendobj\n")[1] == Code('e');
  }

  lemma Cut(tail: seq<Byte>, open: seq<Byte>, data: seq<Byte>, close: seq<Byte>, rest: seq<Byte>)
    requires tail == open + data + close + rest
    ensures At(tail, 0, open) && At(tail, |open| + |data|, close) && tail[|open|..|open| + |data|] == data
  {
  }

  lemma StreamIsRead(dictionary: seq<Field>, num: int, enc: Option<Handler>, data: seq<Byte>, rest: seq<Byte>)
    requires ReadableFields(dictionary)
    requires Serialised(Dict(With(dictionary, LENGTH, Integer(|data|))), num, enc).Some?
    ensures var fields := With(dictionary, LENGTH, Integer(|data|));
            var tail := Ascii("\nstream\n") + data + Ascii("\nendstream\nendobj\n") + rest;
            ReadObject(Serialised(Dict(fields), num, enc).value + tail)
            == Some(StreamFound(MeaningsOf(fields, num, enc), data))
  {
    hide Ascii, ReadableFields, Serialised, Meaning, MeaningsOf, ReadItem, Quiet, ReadObject, With, Find;
    var fields := With(dictionary, LENGTH, Integer(|data|));
    var tail := Ascii("\nstream\n") + data + Ascii("\nendstream\nendobj\n") + rest;
    assert tail == Ascii("\nstream\n") + (data + (Ascii("\nendstream\nendobj\n") + rest));
    LineAfter(data + (Ascii("\nendstream\nendobj\n") + rest));
    WithIsReadable(dictionary, |data|);
    DictMeans(fields, num, enc);
    ValueIsRead(Dict(fields), num, enc, tail);
    WithMeans(dictionary, |data|, num, enc, LENGTH);
    StreamTaken(Serialised(Dict(fields), num, enc).value + tail, MeaningsOf(fields, num, enc), data, tail, rest);
  }

  lemma DictMeans(fields: seq<Field>, num: int, enc: Option<Handler>)
    ensures Readable(Dict(fields)) == ReadableFields(fields)
    ensures Meaning(Dict(fields), num, enc) == DictItem(MeaningsOf(fields, num, enc))
  {
  }

  lemma BodyIsRead(object_: Object, num: int, enc: Option<Handler>, body: seq<Byte>, rest: seq<Byte>)
    requires ReadableObject(object_) && Body(object_, num, enc) == Some(body)
    ensures ReadObject(body + (Ascii("\nendobj\n") + rest)).Some?
    ensures Says(ReadObject(body + (Ascii("\nendobj\n") + rest)).value, object_, num, enc)
  {
    hide Ascii, Readable, ReadableFields, Serialised, Meaning, MeaningsOf, ReadObject, With, Find;
    EndOfStream();
    match object_ {
      case Plain(value) => PlainIsRead(value, num, enc, rest);
      case Stream(dictionary, plain) =>
        var data := Sealed(plain, num, enc).value;
        var front := Serialised(Dict(With(dictionary, LENGTH, Integer(|data|))), num, enc).value;
        StreamIsRead(dictionary, num, enc, data, rest);
        assert body + (Ascii("\nendobj\n") + rest)
            == front + (Ascii("\nstream\n") + data + Ascii("\nendstream\nendobj\n") + rest);
        forall key
          ensures Find(MeaningsOf(With(dictionary, LENGTH, Integer(|data|)), num, enc), key)
               == if key == LENGTH then Some(Whole(|data|)) else Find(MeaningsOf(dictionary, num, enc), key)
        {
          WithMeans(dictionary, |data|, num, enc, key);
        }
    }
  }

  lemma ObjectAt(file: seq<Byte>, p: nat, front: seq<Byte>, body: seq<Byte>, end: seq<Byte>)
    requires At(file, p, front + body + end)
    ensures At(file, p, front) && p + |front| + |body| + |end| <= |file|
    ensures file[p + |front|..] == body + (end + file[p + |front| + |body| + |end|..])
  {
    var whole := front + body + end;
    var found := file[p..p + |whole|];
    assert found[..|front|] == front && found[|front|..] == body + end;
    assert file[p..p + |front|] == found[..|front|];
    assert file[p + |front|..] == found[|front|..] + file[p + |whole|..];
  }

  lemma OpeningIs(n: nat)
    ensures Opening(n) == Dec(n) + Ascii(" 0 obj\n")
  {
  }

  lemma ReachedIsRead(file: seq<Byte>, object_: Object, n: nat, enc: Option<Handler>, body: seq<Byte>)
    requires ReadableObject(object_) && Body(object_, n, enc) == Some(body) && Reaches(file, n, body)
    ensures ObjectIn(file, n).Some? && Says(ObjectIn(file, n).value, object_, n, enc)
  {
    hide Lookup, Body, ReadObject, ReadableObject, Says, Ascii, Opening, Dec;
    var offset := Lookup(file, n).value;
    OpeningIs(n);
    ObjectAt(file, offset, Opening(n), body, Ascii("\nendobj\n"));
    BodyIsRead(object_, n, enc, body,
               file[offset + |Opening(n)| + |body| + |Ascii("\nendobj\n")|..]);
  }

  /** A file of at most 10^10 bytes: its offsets fit their ten digits. */
  predicate Fits(file: seq<Byte>) { |file| <= 100_0000_0000 }

  lemma {:induction false} LaidGrows(bodies: seq<seq<Byte>>, n: nat, k: nat)
    requires n <= k <= |bodies|
    ensures |Laid(bodies, n)| + (k - n) <= |Laid(bodies, k)|
  {
    hide Ascii;
    if n < k {
      LaidGrows(bodies, n, k - 1);
    }
  }

  lemma SmallFilesFit(bodies: seq<seq<Byte>>, trailer: seq<Byte>)
    requires Fits(File(bodies, trailer))
    ensures OffsetsFit(bodies)
  {
    hide Ascii, Table, TableOpening, Closing;
    forall n | 1 <= n <= |bodies|
      ensures Offset(bodies, n) < 100_0000_0000
    {
      LaidGrows(bodies, n - 1, |bodies|);
    }
  }

  /** The objects of a file that was written, with what they serialise to. */
  lemma Written(objects: seq<Object>, root: int, enc: Option<Handler>, docId: seq<Byte>)
    returns (all: seq<Object>, bodies: seq<seq<Byte>>)
    requires PdfBytes(objects, root, enc, docId).Some? && Fits(PdfBytes(objects, root, enc, docId).value)
    ensures objects != [] && AllObjects(objects, enc) == Some(all) && |bodies| == |all| && OffsetsFit(bodies)
    ensures Bodies(all, enc, |objects|, |all|) == Some(bodies)
    ensures PdfBytes(objects, root, enc, docId).value
         == File(bodies, TrailerBytes(|all| + 1, root, EncryptionNumber(enc, |objects|), docId))
  {
    hide AllObjects, Bodies, File, TrailerBytes, OffsetsFit, Fits;
    all := AllObjects(objects, enc).value;
    bodies := Bodies(all, enc, |objects|, |all|).value;
    SmallFilesFit(bodies, TrailerBytes(|all| + 1, root, EncryptionNumber(enc, |objects|), docId));
  }

  /** The main result: with nothing but the file and a number, a reader gets the meaning of
      every object, and every stream's bytes, that the writer was given. */
  lemma EveryObjectIsRead(objects: seq<Object>, root: int, enc: Option<Handler>, docId: seq<Byte>, n: nat)
    requires PdfBytes(objects, root, enc, docId).Some? && Fits(PdfBytes(objects, root, enc, docId).value)
    requires 1 <= n <= |objects| && ReadableObject(objects[n - 1])
    ensures ObjectIn(PdfBytes(objects, root, enc, docId).value, n).Some?
    ensures Says(ObjectIn(PdfBytes(objects, root, enc, docId).value, n).value, objects[n - 1], n, enc)
  {
    hide *;
    var all, bodies := Written(objects, root, enc, docId);
    AllStartsWith(objects, enc, all);
    EveryObjectIsReached(objects, root, enc, docId, all, bodies, n);
    assert all[n - 1] == objects[n - 1];
    HandlerOfObject(enc, |objects|, n);
    ReachedIsRead(PdfBytes(objects, root, enc, docId).value, objects[n - 1], n, enc, bodies[n - 1]);
  }

  lemma HandlerOfObject(enc: Option<Handler>, count: nat, n: nat)
    ensures HandlerFor(enc, count, n) == if n <= count then enc else None
  {
  }

  lemma AllStartsWith(objects: seq<Object>, enc: Option<Handler>, all: seq<Object>)
    requires AllObjects(objects, enc) == Some(all)
    ensures |objects| <= |all| && forall i :: 0 <= i < |objects| ==> all[i] == objects[i]
    ensures if enc.None? then |all| == |objects| else
              && |all| == |objects| + 1
              && Serialised(enc.value.dictionary, |objects| + 1, None).Some?
              && all[|objects|] == Plain(Raw(Serialised(enc.value.dictionary, |objects| + 1, None).value))
  {
    hide Serialised;
  }

  /** The encryption dictionary is the object after the caller's, and stays plain. */
  lemma EncryptionIsRead(objects: seq<Object>, root: int, enc: Option<Handler>, docId: seq<Byte>)
    requires PdfBytes(objects, root, enc, docId).Some? && Fits(PdfBytes(objects, root, enc, docId).value)
    requires enc.Some? && Readable(enc.value.dictionary)
    ensures ObjectIn(PdfBytes(objects, root, enc, docId).value, |objects| + 1)
         == Some(PlainFound(Meaning(enc.value.dictionary, |objects| + 1, None)))
  {
    hide *;
    var n := |objects| + 1;
    var all, bodies := Written(objects, root, enc, docId);
    AllStartsWith(objects, enc, all);
    EveryObjectIsReached(objects, root, enc, docId, all, bodies, n);
    HandlerOfObject(enc, |objects|, n);
    RawBody(all[n - 1], n, bodies[n - 1]);
    PlainBody(enc.value.dictionary, n, bodies[n - 1]);
    var file := PdfBytes(objects, root, enc, docId).value;
    ReachedIsRead(file, Plain(enc.value.dictionary), n, None, bodies[n - 1]);
    PlainSays(ObjectIn(file, n).value, enc.value.dictionary, n);
  }

  lemma RawBody(object_: Object, n: nat, body: seq<Byte>)
    requires object_.Plain? && object_.value.Raw? && Body(object_, n, None) == Some(body)
    ensures body == object_.value.bytes
  {
  }

  lemma PlainBody(value: Value, n: nat, body: seq<Byte>)
    requires Serialised(value, n, None) == Some(body)
    ensures Body(Plain(value), n, None) == Some(body) && ReadableObject(Plain(value)) == Readable(value)
  {
    hide Serialised, Readable;
  }

  lemma PlainSays(found: Found, value: Value, n: nat)
    requires Says(found, Plain(value), n, None)
    ensures found == PlainFound(Meaning(value, n, None))
  {
    hide Meaning;
  }

  // ------------------------------------------------------------ the trailer

  /** The entries of the trailer, which stands behind the table. */
  function TrailerIn(file: seq<Byte>): Option<seq<Pair>> {
    match StartOfTable(file)
    case None => None
    case Some(start) =>
      match TableAt(file, start)
      case None => None
      case Some((size, base)) =>
        if !At(file, base + 20 * size, Ascii("trailer\n")) then None
        else
          match ReadItem(file[base + 20 * size + 8..])
          case Some((DictItem(pairs), _)) => Some(pairs)
          case _ => None
  }

  lemma StartReached(bodies: seq<seq<Byte>>, trailer: seq<Byte>)
    ensures StartOfTable(File(bodies, trailer)) == Some(|Laid(bodies, |bodies|)|)
  {
    hide *;
    var front, size := Laid(bodies, |bodies|), |bodies| + 1;
    FileShapes(bodies, trailer);
    TailFound(front + TableOpening(size) + Table(bodies, |bodies|) + (Ascii("trailer\n") + trailer), |front|);
  }

  lemma TrailerReached(bodies: seq<seq<Byte>>, trailer: seq<Byte>)
    requires OffsetsFit(bodies)
    ensures var file, front, size := File(bodies, trailer), Laid(bodies, |bodies|), |bodies| + 1;
            var base := |front| + 8 + |Dec(size)|;
            && TableAt(file, |front|) == Some((size, base))
            && Behind(file, base + 20 * size, Ascii("trailer\n"), trailer + Closing(|front|))
  {
    hide *;
    var front, size := Laid(bodies, |bodies|), |bodies| + 1;
    FileShapes(bodies, trailer);
    TableLength(bodies, |bodies|);
    LineBehindTable(File(bodies, trailer), front, size, Table(bodies, |bodies|), Ascii("trailer\n"),
                    trailer + Closing(|front|));
  }

  lemma LineBehindTable(file: seq<Byte>, front: seq<Byte>, size: nat, table: seq<Byte>, line: seq<Byte>,
                        rest: seq<Byte>)
    requires file == front + (TableOpening(size) + (table + (line + rest))) && |table| == 20 * size && |line| == 8
    ensures var base := |front| + 8 + |Dec(size)|;
            && TableAt(file, |front|) == Some((size, base))
            && Behind(file, base + 20 * size, line, rest)
  {
    hide *;
    TableFound(front, size, table + (line + rest));
    BehindTable(file, |front| + 8 + |Dec(size)|, table, line, rest);
  }

  lemma FileShapes(bodies: seq<seq<Byte>>, trailer: seq<Byte>)
    ensures var front, size, table := Laid(bodies, |bodies|), |bodies| + 1, Table(bodies, |bodies|);
            var line, closing := Ascii("trailer\n"), Closing(|front|);
            && File(bodies, trailer) == front + (TableOpening(size) + (table + (line + (trailer + closing))))
            && File(bodies, trailer) == front + TableOpening(size) + table + (line + trailer) + closing
            && |line| == 8
  {
    hide Table, TableOpening, Closing, Laid, Ascii;
    var front, size, table := Laid(bodies, |bodies|), |bodies| + 1, Table(bodies, |bodies|);
    var line, closing := Ascii("trailer\n"), Closing(|front|);
    Reassociated(line, trailer, closing);
    Unnested(front, TableOpening(size), table, line + trailer, closing);
  }

  lemma Reassociated(a: seq<Byte>, b: seq<Byte>, c: seq<Byte>)
    ensures a + b + c == a + (b + c)
  {
  }

  /** At `p` stands `line`, and behind it nothing but `rest`. */
  predicate Behind(file: seq<Byte>, p: nat, line: seq<Byte>, rest: seq<Byte>) {
    At(file, p, line) && file[p + |line|..] == rest
  }

  lemma BehindTable(file: seq<Byte>, base: nat, table: seq<Byte>, line: seq<Byte>, rest: seq<Byte>)
    requires base <= |file| && file[base..] == table + (line + rest)
    ensures Behind(file, base + |table|, line, rest)
  {
    var s := file[base..];
    assert s[|table|..|table| + |line|] == line && s[|table| + |line|..] == rest;
    assert file[base + |table|..base + |table| + |line|] == s[|table|..|table| + |line|];
    assert file[base + |table| + |line|..] == s[|table| + |line|..];
  }

  lemma TrailerKeys()
    ensures Ascii("Size") == SIZE && Ascii("Root") == ROOT && Ascii("ID") == ID && Ascii("Encrypt") == ENCRYPT
    ensures AllRegular(SIZE) && AllRegular(ROOT) && AllRegular(ID) && AllRegular(ENCRYPT)
  {
    hide Ascii;
  }

  const SIZE: seq<Byte> := [83, 105, 122, 101]
  const ROOT: seq<Byte> := [82, 111, 111, 116]
  const ID: seq<Byte> := [73, 68]
  const ENCRYPT: seq<Byte> := [69, 110, 99, 114, 121, 112, 116]

  lemma HexRawMeans(data: seq<Byte>, num: int, enc: Option<Handler>)
    ensures Readable(HexRaw(data)) && Meaning(HexRaw(data), num, enc) == StringItem(data)
  {
    hide Next, Hex, Unhex, Ascii;
    Punctuation();
    UnhexInvertsHex(data);
    NextHex(Hex(data), []);
    var bytes := [LESS] + Hex(data) + [GREATER];
    assert HexRaw(data).bytes == bytes && bytes + [] == bytes;
  }

  lemma PairOfIds(id: Value, num: int, enc: Option<Handler>)
    requires Readable(id)
    ensures Readable(List([id, id]))
    ensures Meaning(List([id, id]), num, enc) == ArrayItem([Meaning(id, num, enc), Meaning(id, num, enc)])
  {
    hide RawText;
    assert [id, id][1..] == [id] && [id][1..] == [];
    assert ReadableItems([id]);
    assert Meanings([id], num, enc) == [Meaning(id, num, enc)];
    assert Meanings([id, id], num, enc) == [Meaning(id, num, enc)] + Meanings([id], num, enc);
  }

  lemma OneMoreReadable(f: Field, rest: seq<Field>)
    requires AllRegular(f.key) && Readable(f.value) && ReadableFields(rest)
    ensures ReadableFields([f] + rest)
  {
    hide Readable, AllRegular;
    assert ([f] + rest)[1..] == rest;
  }

  /** What the trailer says: how many objects there are, which one to start from, the
      identifier, and which one holds the encryption dictionary, if there is one. */
  predicate IsTrailer(pairs: seq<Pair>, size: nat, root: int, encNum: Option<nat>, docId: seq<Byte>) {
    && Find(pairs, SIZE) == Some(Whole(size))
    && Find(pairs, ROOT) == Some(Reference(root))
    && Find(pairs, ID) == Some(ArrayItem([StringItem(docId), StringItem(docId)]))
    && Find(pairs, ENCRYPT) == if encNum.Some? then Some(Reference(encNum.value)) else None
  }

  lemma TrailerMeans(size: nat, root: int, encNum: Option<nat>, docId: seq<Byte>)
    ensures ReadableFields(Trailer(size, root, encNum, docId))
    ensures IsTrailer(MeaningsOf(Trailer(size, root, encNum, docId), 0, None), size, root, encNum, docId)
  {
    hide Ascii, AllRegular, Readable, Find, MeaningsOf, ReadableFields, Meaning;
    TrailerKeys();
    HexRawMeans(docId, 0, None);
    PairOfIds(HexRaw(docId), 0, None);
    NumbersMean(size, root, encNum);
    var d := if encNum.Some? then [Field(ENCRYPT, Ref(encNum.value))] else [];
    var c, b, a := Field(ID, List([HexRaw(docId), HexRaw(docId)])), Field(ROOT, Ref(root)), Field(SIZE, Integer(size));
    NothingReadable();
    if encNum.Some? {
      OneMoreReadable(d[0], []);
      assert d == [d[0]] + [];
    }
    OneMoreReadable(c, d);
    OneMoreReadable(b, [c] + d);
    OneMoreReadable(a, [b] + ([c] + d));
    forall key
      ensures Find(MeaningsOf([a] + ([b] + ([c] + d)), 0, None), key)
           == if key == SIZE then Some(Whole(size)) else if key == ROOT then Some(Reference(root))
              else if key == ID then Some(ArrayItem([StringItem(docId), StringItem(docId)]))
              else if key == ENCRYPT && encNum.Some? then Some(Reference(encNum.value)) else None
    {
      FirstMeaning(a, [b] + ([c] + d), 0, None, key);
      FirstMeaning(b, [c] + d, 0, None, key);
      FirstMeaning(c, d, 0, None, key);
      if encNum.Some? {
        FirstMeaning(d[0], [], 0, None, key);
      }
    }
    DistinctKeys();
  }

  lemma DistinctKeys()
    ensures SIZE != ROOT && SIZE != ID && SIZE != ENCRYPT && ROOT != ID && ROOT != ENCRYPT && ID != ENCRYPT
  {
    assert SIZE[0] == 83 && ROOT[0] == 82 && ID[0] == 73 && ENCRYPT[0] == 69;
  }

  lemma NothingReadable()
    ensures ReadableFields([]) && forall key, num, enc :: Find(MeaningsOf([], num, enc), key) == None
  {
  }

  lemma NumbersMean(size: nat, root: int, encNum: Option<nat>)
    ensures Readable(Integer(size)) && Readable(Ref(root)) && (encNum.Some? ==> Readable(Ref(encNum.value)))
    ensures Meaning(Integer(size), 0, None) == Whole(size) && Meaning(Ref(root), 0, None) == Reference(root)
    ensures encNum.Some? ==> Meaning(Ref(encNum.value), 0, None) == Reference(encNum.value)
  {
  }

  /** A reader that starts from the end of the file reads the trailer that was written. */
  lemma TrailerIsRead(objects: seq<Object>, root: int, enc: Option<Handler>, docId: seq<Byte>)
    requires PdfBytes(objects, root, enc, docId).Some? && Fits(PdfBytes(objects, root, enc, docId).value)
    ensures TrailerIn(PdfBytes(objects, root, enc, docId).value).Some?
    ensures IsTrailer(TrailerIn(PdfBytes(objects, root, enc, docId).value).value,
                      if enc.Some? then |objects| + 2 else |objects| + 1, root,
                      if enc.Some? then Some(|objects| + 1) else None, docId)
  {
    hide *;
    var all, bodies := Written(objects, root, enc, docId);
    AllStartsWith(objects, enc, all);
    EncryptionNumberIs(enc, |objects|);
    TrailerFound(bodies, |all| + 1, root, EncryptionNumber(enc, |objects|), docId);
  }

  lemma EncryptionNumberIs(enc: Option<Handler>, count: nat)
    ensures EncryptionNumber(enc, count) == if enc.Some? then Some(count + 1) else None
  {
  }

  lemma TrailerFound(bodies: seq<seq<Byte>>, size: nat, root: int, encNum: Option<nat>, docId: seq<Byte>)
    requires OffsetsFit(bodies)
    ensures var file := File(bodies, TrailerBytes(size, root, encNum, docId));
            TrailerIn(file).Some? && IsTrailer(TrailerIn(file).value, size, root, encNum, docId)
  {
    EightBytes();
    hide Ascii, Dec, File, Laid, OffsetsFit, StartOfTable, TableAt, At, ReadItem, IsTrailer, MeaningsOf, Trailer, Quiet,
      ReadableFields, Serialised, Next;
    var fields := Trailer(size, root, encNum, docId);
    TrailerMeans(size, root, encNum, docId);
    TrailerBytesAre(size, root, encNum, docId);
    var trailer, xref := TrailerBytes(size, root, encNum, docId), |Laid(bodies, |bodies|)|;
    StartReached(bodies, trailer);
    TrailerReached(bodies, trailer);
    ClosingIs(xref);
    LineAfter(Dec(xref) + Ascii(TAIL));
    DictMeans(fields, 0, None);
    ValueIsRead(Dict(fields), 0, None, Closing(xref));
  }

  lemma EightBytes()
    ensures |Ascii("trailer\n")| == 8
  {
    hide Ascii;
  }

  lemma TrailerBytesAre(size: nat, root: int, encNum: Option<nat>, docId: seq<Byte>)
    ensures Serialised(Dict(Trailer(size, root, encNum, docId)), 0, None)
              == Some(TrailerBytes(size, root, encNum, docId))
  {
    hide Serialised, Trailer;
    TrailerSerialises(size, root, encNum, docId);
  }

  lemma ClosingIs(xref: nat)
    ensures Closing(xref) == Ascii("\nstartxref\n") + (Dec(xref) + Ascii(TAIL))
  {
  }

  // ------------------------------------------------------------ what cannot be written

  /** No value `_serialise` has no form for, and no text outside Latin-1. */
  predicate Encodable(value: Value)
    decreases value, 0
  {
    match value
    case Text(chars) => forall i :: 0 <= i < |chars| ==> chars[i] < 256
    case List(items) => EncodableItems(items)
    case Dict(fields) => EncodableFields(fields)
    case Unsupported => false
    case _ => true
  }

  predicate EncodableItems(items: seq<Value>)
    decreases items, 1
  {
    items == [] || (Encodable(items[0]) && EncodableItems(items[1..]))
  }

  predicate EncodableFields(fields: seq<Field>)
    decreases fields, 1
  {
    fields == [] || (Encodable(fields[0].value) && EncodableFields(fields[1..]))
  }

  predicate HasText(value: Value)
    decreases value, 0
  {
    match value
    case Text(_) => true
    case List(items) => HasTextItems(items)
    case Dict(fields) => HasTextFields(fields)
    case _ => false
  }

  predicate HasTextItems(items: seq<Value>)
    decreases items, 1
  {
    items != [] && (HasText(items[0]) || HasTextItems(items[1..]))
  }

  predicate HasTextFields(fields: seq<Field>)
    decreases fields, 1
  {
    fields != [] && (HasText(fields[0].value) || HasTextFields(fields[1..]))
  }

  /** The handler, if there is one, takes everything under this number or nothing. */
  ghost predicate Takes(enc: Option<Handler>, num: int, fits: bool) {
    if enc.None? then fits else forall data :: enc.value.encrypt(num, data).Some? == fits
  }

  lemma {:induction false} SerialisedIff(value: Value, num: int, enc: Option<Handler>, fits: bool)
    requires Takes(enc, num, fits)
    ensures Serialised(value, num, enc).Some? <==> Encodable(value) && (fits || !HasText(value))
    decreases value, 0
  {
    hide Ascii, Hex, Literal, DecInt;
    match value {
      case List(items) => ItemsSerialisedIff(items, num, enc, fits);
      case Dict(fields) => FieldsSerialisedIff(fields, num, enc, fits);
      case _ =>
    }
  }

  lemma {:induction false} ItemsSerialisedIff(items: seq<Value>, num: int, enc: Option<Handler>, fits: bool)
    requires Takes(enc, num, fits)
    ensures SerialisedItems(items, num, enc).Some? <==> EncodableItems(items) && (fits || !HasTextItems(items))
    decreases items, 0
  {
    hide Ascii, Serialised, Encodable, HasText, Takes;
    if items != [] {
      SerialisedIff(items[0], num, enc, fits);
      ItemsSerialisedIff(items[1..], num, enc, fits);
      if |items| == 1 {
        assert items[1..] == [];
      }
    }
  }

  lemma {:induction false} FieldsSerialisedIff(fields: seq<Field>, num: int, enc: Option<Handler>, fits: bool)
    requires Takes(enc, num, fits)
    ensures SerialisedEntries(fields, num, enc).Some? <==> EncodableFields(fields) && (fits || !HasTextFields(fields))
    decreases fields, 0
  {
    hide Ascii, Serialised, Encodable, HasText, Takes;
    if fields != [] {
      SerialisedIff(fields[0].value, num, enc, fits);
      FieldsSerialisedIff(fields[1..], num, enc, fits);
      if |fields| == 1 {
        assert fields[1..] == [];
      }
    }
  }

  /** What `pdf` can write: an encrypted stream always needs a number that fits. */
  predicate Writable(object_: Object, encrypted: bool, fits: bool) {
    match object_
    case Plain(value) => Encodable(value) && (fits || !HasText(value))
    case Stream(dictionary, _) => EncodableRest(dictionary) && (fits || !encrypted)
  }

  /** The fields of a stream's dictionary, but for the length that is replaced. */
  predicate EncodableRest(fields: seq<Field>) {
    fields == []
    || (if fields[0].key == LENGTH then EncodableFields(fields[1..])
        else Encodable(fields[0].value) && EncodableRest(fields[1..]))
  }

  lemma {:induction false} WithEncodable(fields: seq<Field>, n: int)
    ensures EncodableFields(With(fields, LENGTH, Integer(n))) == EncodableRest(fields)
  {
    hide Ascii;
    var all := With(fields, LENGTH, Integer(n));
    if fields == [] {
      assert all[1..] == [];
    } else if fields[0].key == LENGTH {
      assert all[1..] == fields[1..];
    } else {
      WithEncodable(fields[1..], n);
      assert all[1..] == With(fields[1..], LENGTH, Integer(n));
    }
  }

  lemma BodyIff(object_: Object, num: int, enc: Option<Handler>, fits: bool)
    requires Takes(enc, num, fits) && (enc.None? ==> fits)
    ensures Body(object_, num, enc).Some? <==> Writable(object_, enc.Some?, fits)
  {
    hide Ascii, Serialised, Encodable, HasText, With, EncodableRest, EncodableFields;
    match object_ {
      case Plain(value) => SerialisedIff(value, num, enc, fits);
      case Stream(dictionary, plain) =>
        if enc.None? || enc.value.encrypt(num, plain).Some? {
          var n := |Sealed(plain, num, enc).value|;
          SerialisedIff(Dict(With(dictionary, LENGTH, Integer(n))), num, enc, fits);
          WithEncodable(dictionary, n);
          DictEncodable(With(dictionary, LENGTH, Integer(n)));
        }
    }
  }

  lemma DictEncodable(fields: seq<Field>)
    ensures Encodable(Dict(fields)) == EncodableFields(fields)
  {
  }

  /** How many of the objects fit their handler: all that `fits` says. */
  ghost predicate TakesAll(enc: Option<Handler>, count: nat, fits: int -> bool) {
    forall n :: 1 <= n <= count ==> Takes(enc, n, fits(n)) && (enc.None? ==> fits(n))
  }

  lemma {:induction false} BodiesIff(all: seq<Object>, enc: Option<Handler>, count: nat, k: nat, fits: int -> bool)
    requires k <= count && k <= |all| && TakesAll(enc, count, fits)
    ensures Bodies(all, enc, count, k).Some? <==> forall i :: 0 <= i < k ==> Writable(all[i], enc.Some?, fits(i + 1))
  {
    hide Body, Writable, Takes;
    if k > 0 {
      BodiesIff(all, enc, count, k - 1, fits);
      assert Takes(enc, k, fits(k));
      BodyIff(all[k - 1], k, HandlerFor(enc, count, k), fits(k));
    }
  }

  /** `pdf` raises exactly if there is no object, or one that cannot be written. */
  lemma RaisesIff(objects: seq<Object>, root: int, enc: Option<Handler>, docId: seq<Byte>, fits: int -> bool)
    requires TakesAll(enc, |objects|, fits) && (enc.Some? ==> Encodable(enc.value.dictionary))
    ensures PdfBytes(objects, root, enc, docId).None?
        <==> objects == [] || exists i :: 0 <= i < |objects| && !Writable(objects[i], enc.Some?, fits(i + 1))
  {
    hide Writable, Bodies, TrailerBytes, File, Serialised, Encodable, TakesAll, Takes;
    if enc.None? {
      BodiesIff(objects, enc, |objects|, |objects|, fits);
    } else {
      DictionaryWritten(enc.value.dictionary, |objects| + 1);
      var all := AllObjects(objects, enc).value;
      BodiesIff(all, enc, |objects|, |objects|, fits);
      LastBody(all, enc, |objects|);
      assert forall i :: 0 <= i < |objects| ==> all[i] == objects[i];
    }
  }

  lemma DictionaryWritten(dictionary: Value, num: int)
    requires Encodable(dictionary)
    ensures Serialised(dictionary, num, None).Some?
  {
    SerialisedIff(dictionary, num, None, true);
  }

  lemma LastBody(all: seq<Object>, enc: Option<Handler>, count: nat)
    requires |all| == count + 1 && all[count].Plain? && all[count].value.Raw?
    ensures Bodies(all, enc, count, count + 1).Some? <==> Bodies(all, enc, count, count).Some?
  {
  }
}
