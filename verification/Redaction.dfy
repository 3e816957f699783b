/** Redaction of log extras and audit metadata (`_redact_value`, `redact_mapping`,
    `_bound`). */
module Redaction {
  import opened Nums

  /** A payload. A number is its text; Opaque is any other object, with its `str`. */
  datatype Value = Null | Bool(on: bool) | Num(text: string) | Str(s: string) | Opaque(repr: string)
                 | List(items: seq<Value>) | Dict(entries: seq<Entry>)

  datatype Entry = Entry(key: string, value: Value)

  /** `str.lower`, and the substitution of JWT and enrolment-token shapes. */
  datatype Text = Text(lower: string -> string, mask: string -> string)

  const REDACTED := Str("***")

  const SENSITIVE: seq<string> := [
    "password", "token", "secret", "authorization", "credential", "pepper", "challenge", "private_key", "signature",
    "bearer", "cookie", "api_key", "apikey", "passphrase"]

  predicate OccursAt(part: string, s: string, i: nat) {
    i + |part| <= |s| && s[i..i + |part|] == part
  }

  predicate Occurs(part: string, s: string) {
    exists i :: 0 <= i <= |s| && OccursAt(part, s, i)
  }

  /** `_redact_key`. */
  predicate IsSensitive(t: Text, key: string) {
    exists k :: 0 <= k < |SENSITIVE| && Occurs(SENSITIVE[k], t.lower(key))
  }

  /** `_carries_no_secret`. */
  predicate Harmless(v: Value) { v.Null? || v.Bool? || v.Num? }

  // ------------------------------------------------------------ redacting

  /** `_redact_value`. */
  function Redacted(t: Text, v: Value, depth: nat): Value
    decreases v, 0
  {
    if depth > 8 then REDACTED
    else
      match v
      case Dict(entries) => Dict(RedactedEntries(t, entries, depth + 1))
      case List(items) => List(RedactedItems(t, items, depth))
      case Str(s) => Str(t.mask(s))
      case _ => v
  }

  /** The entries of a dict, whose values are at `depth`. */
  function RedactedEntries(t: Text, entries: seq<Entry>, depth: nat): (r: seq<Entry>)
    ensures |r| == |entries|
    decreases entries, 1
  {
    if entries == [] then []
    else
      var e := entries[0];
      [Entry(e.key, if IsSensitive(t, e.key) && !Harmless(e.value) then REDACTED else Redacted(t, e.value, depth))]
      + RedactedEntries(t, entries[1..], depth)
  }

  function RedactedItems(t: Text, items: seq<Value>, depth: nat): (r: seq<Value>)
    ensures |r| == |items|
    decreases items, 1
  {
    if items == [] then [] else [Redacted(t, items[0], depth + 1)] + RedactedItems(t, items[1..], depth)
  }

  // ------------------------------------------------------------ no secret survives

  /** Under a sensitive key, at any depth, there is only the mask or a harmless value. */
  predicate NoSecrets(t: Text, v: Value)
    decreases v, 0
  {
    match v
    case Dict(entries) => NoSecretEntries(t, entries)
    case List(items) => NoSecretItems(t, items)
    case _ => true
  }

  predicate NoSecretEntries(t: Text, entries: seq<Entry>)
    decreases entries, 1
  {
    entries == []
    || ((IsSensitive(t, entries[0].key) ==> Harmless(entries[0].value) || entries[0].value == REDACTED)
        && NoSecrets(t, entries[0].value) && NoSecretEntries(t, entries[1..]))
  }

  predicate NoSecretItems(t: Text, items: seq<Value>)
    decreases items, 1
  {
    items == [] || (NoSecrets(t, items[0]) && NoSecretItems(t, items[1..]))
  }

  /** Every string is one the mask leaves alone. */
  predicate AllMasked(t: Text, v: Value)
    decreases v, 0
  {
    match v
    case Dict(entries) => AllMaskedEntries(t, entries)
    case List(items) => AllMaskedItems(t, items)
    case Str(s) => t.mask(s) == s
    case _ => true
  }

  predicate AllMaskedEntries(t: Text, entries: seq<Entry>)
    decreases entries, 1
  {
    entries == [] || (AllMasked(t, entries[0].value) && AllMaskedEntries(t, entries[1..]))
  }

  predicate AllMaskedItems(t: Text, items: seq<Value>)
    decreases items, 1
  {
    items == [] || (AllMasked(t, items[0]) && AllMaskedItems(t, items[1..]))
  }

  ghost predicate IdempotentMask(t: Text) {
    (forall s :: t.mask(t.mask(s)) == t.mask(s)) && t.mask("***") == "***"
  }

  lemma {:induction false} RedactedIsClean(t: Text, v: Value, depth: nat)
    ensures NoSecrets(t, Redacted(t, v, depth))
    ensures IdempotentMask(t) ==> AllMasked(t, Redacted(t, v, depth))
    decreases v, 0
  {
    hide IsSensitive, Harmless;
    if depth <= 8 {
      match v
      case Dict(entries) => RedactedEntriesClean(t, entries, depth + 1);
      case List(items) => RedactedItemsClean(t, items, depth);
      case _ =>
    }
  }

  lemma {:induction false} RedactedEntriesClean(t: Text, entries: seq<Entry>, depth: nat)
    ensures NoSecretEntries(t, RedactedEntries(t, entries, depth))
    ensures IdempotentMask(t) ==> AllMaskedEntries(t, RedactedEntries(t, entries, depth))
    decreases entries, 1
  {
    hide IsSensitive;
    if entries != [] {
      RedactedIsClean(t, entries[0].value, depth);
      RedactedEntriesClean(t, entries[1..], depth);
      assert RedactedEntries(t, entries, depth)[1..] == RedactedEntries(t, entries[1..], depth);
    }
  }

  lemma {:induction false} RedactedItemsClean(t: Text, items: seq<Value>, depth: nat)
    ensures NoSecretItems(t, RedactedItems(t, items, depth))
    ensures IdempotentMask(t) ==> AllMaskedItems(t, RedactedItems(t, items, depth))
    decreases items, 1
  {
    hide IsSensitive;
    if items != [] {
      RedactedIsClean(t, items[0], depth + 1);
      RedactedItemsClean(t, items[1..], depth);
      assert RedactedItems(t, items, depth)[1..] == RedactedItems(t, items[1..], depth);
    }
  }

  /** Redacting what was redacted changes nothing. */
  lemma {:induction false} RedactingTwice(t: Text, v: Value, depth: nat)
    requires IdempotentMask(t)
    ensures Redacted(t, Redacted(t, v, depth), depth) == Redacted(t, v, depth)
    decreases v, 0
  {
    hide IsSensitive, Harmless;
    if depth <= 8 {
      match v
      case Dict(entries) => RedactingEntriesTwice(t, entries, depth + 1);
      case List(items) => RedactingItemsTwice(t, items, depth);
      case _ =>
    }
  }

  lemma {:induction false} RedactingEntriesTwice(t: Text, entries: seq<Entry>, depth: nat)
    requires IdempotentMask(t)
    ensures RedactedEntries(t, RedactedEntries(t, entries, depth), depth) == RedactedEntries(t, entries, depth)
    decreases entries, 1
  {
    hide IsSensitive;
    if entries != [] {
      RedactingTwice(t, entries[0].value, depth);
      RedactingEntriesTwice(t, entries[1..], depth);
      assert RedactedEntries(t, entries, depth)[1..] == RedactedEntries(t, entries[1..], depth);
      HarmlessStays(t, entries[0].value, depth);
    }
  }

  lemma HarmlessStays(t: Text, v: Value, depth: nat)
    ensures depth <= 8 ==> (Harmless(Redacted(t, v, depth)) <==> Harmless(v))
  {
  }

  lemma {:induction false} RedactingItemsTwice(t: Text, items: seq<Value>, depth: nat)
    requires IdempotentMask(t)
    ensures RedactedItems(t, RedactedItems(t, items, depth), depth) == RedactedItems(t, items, depth)
    decreases items, 1
  {
    if items != [] {
      RedactingTwice(t, items[0], depth + 1);
      RedactingItemsTwice(t, items[1..], depth);
      assert RedactedItems(t, items, depth)[1..] == RedactedItems(t, items[1..], depth);
    }
  }

  // ------------------------------------------------------------ what is kept

  const MARKERS: set<string> := {
    "api_key", "apikey", "authorization", "bearer", "challenge", "cookie", "credential", "passphrase", "password",
    "pepper", "private_key", "secret", "signature", "token"}

  /** A key is sensitive exactly if one of the markers stands somewhere in it. */
  lemma SensitiveIff(t: Text, key: string)
    ensures IsSensitive(t, key)
       <==> exists marker, front, back :: marker in MARKERS && t.lower(key) == front + marker + back
  {
    MarkersAre();
    hide OccursAt;
    var lowered := t.lower(key);
    if IsSensitive(t, key) {
      var k :| 0 <= k < |SENSITIVE| && Occurs(SENSITIVE[k], lowered);
      var i :| 0 <= i <= |lowered| && OccursAt(SENSITIVE[k], lowered, i);
      assert SENSITIVE[k] in MARKERS;
      OccursBetween(SENSITIVE[k], lowered, i);
    }
    if marker: string, front, back :| marker in MARKERS && lowered == front + marker + back {
      var k :| 0 <= k < |SENSITIVE| && SENSITIVE[k] == marker;
      Between(marker, front, back);
      assert Occurs(SENSITIVE[k], lowered);
    }
  }

  lemma OccursBetween(part: string, s: string, i: nat)
    requires OccursAt(part, s, i)
    ensures i + |part| <= |s| && s == s[..i] + part + s[i + |part|..]
  {
  }

  lemma Between(part: string, front: string, back: string)
    ensures OccursAt(part, front + part + back, |front|)
  {
  }

  lemma MarkersAre()
    ensures forall k :: 0 <= k < |SENSITIVE| ==> SENSITIVE[k] in MARKERS
    ensures forall marker :: marker in MARKERS ==> exists k :: 0 <= k < |SENSITIVE| && SENSITIVE[k] == marker
  {
    assert SENSITIVE[0] == "password" && SENSITIVE[1] == "token" && SENSITIVE[2] == "secret"
           && SENSITIVE[3] == "authorization" && SENSITIVE[4] == "credential" && SENSITIVE[5] == "pepper"
           && SENSITIVE[6] == "challenge" && SENSITIVE[7] == "private_key" && SENSITIVE[8] == "signature"
           && SENSITIVE[9] == "bearer" && SENSITIVE[10] == "cookie" && SENSITIVE[11] == "api_key"
           && SENSITIVE[12] == "apikey" && SENSITIVE[13] == "passphrase";
  }

  /** The value at a path of positions. */
  function Find(v: Value, path: seq<nat>): Option<Value>
    decreases |path|
  {
    if path == [] then Some(v)
    else if v.Dict? && path[0] < |v.entries| then Find(v.entries[path[0]].value, path[1..])
    else if v.List? && path[0] < |v.items| then Find(v.items[path[0]], path[1..])
    else None
  }

  /** Whether the way along the path passes a sensitive key over more than a harmless
      value, and at which step first. */
  predicate Passes(t: Text, v: Value, path: seq<nat>)
    decreases |path|
  {
    if path == [] then true
    else if v.Dict? && path[0] < |v.entries| then
      var e := v.entries[path[0]];
      (IsSensitive(t, e.key) ==> e.value.Null? || e.value.Bool? || e.value.Num?) && Passes(t, e.value, path[1..])
    else v.List? && path[0] < |v.items| && Passes(t, v.items[path[0]], path[1..])
  }

  /** What a value keeps: a container its size and keys, a string its masked form, and
      everything else itself. */
  predicate Kept(t: Text, before: Value, after: Value) {
    match before
    case Dict(entries) =>
      after.Dict? && |after.entries| == |entries|
      && forall i :: 0 <= i < |entries| ==> after.entries[i].key == entries[i].key
    case List(items) => after.List? && |after.items| == |items|
    case Str(s) => after == Str(t.mask(s))
    case _ => after == before
  }

  lemma {:induction false} EntryAt(t: Text, entries: seq<Entry>, depth: nat, i: nat)
    requires i < |entries|
    ensures var e := entries[i];
            RedactedEntries(t, entries, depth)[i]
            == Entry(e.key,
                     if IsSensitive(t, e.key) && !Harmless(e.value) then REDACTED else Redacted(t, e.value, depth))
    decreases |entries|
  {
    hide Redacted, IsSensitive;
    if i > 0 {
      EntryAt(t, entries[1..], depth, i - 1);
    }
  }

  lemma {:induction false} ItemAt(t: Text, items: seq<Value>, depth: nat, i: nat)
    requires i < |items|
    ensures RedactedItems(t, items, depth)[i] == Redacted(t, items[i], depth + 1)
    decreases |items|
  {
    hide Redacted;
    if i > 0 {
      ItemAt(t, items[1..], depth, i - 1);
    }
  }

  lemma ShapeKept(t: Text, v: Value, depth: nat)
    requires depth <= 8
    ensures Kept(t, v, Redacted(t, v, depth))
  {
    hide IsSensitive;
    if v.Dict? {
      forall i | 0 <= i < |v.entries|
        ensures RedactedEntries(t, v.entries, depth + 1)[i].key == v.entries[i].key
      {
        EntryAt(t, v.entries, depth + 1, i);
      }
    }
  }

  /** Whatever no sensitive key stands over, down to eight levels, is kept; at the ninth
      there is the mask. */
  lemma {:induction false} InnocuousIsKept(t: Text, v: Value, depth: nat, path: seq<nat>)
    requires Find(v, path).Some? && Passes(t, v, path) && depth + |path| <= 9 && depth <= 8
    ensures var before, after := Find(v, path).value, Find(Redacted(t, v, depth), path);
            && after.Some?
            && if depth + |path| <= 8 then Kept(t, before, after.value)
               else after.value == REDACTED || (after.value == before && (before.Null? || before.Bool? || before.Num?))
    decreases |path|
  {
    hide IsSensitive, Kept;
    if path == [] {
      ShapeKept(t, v, depth);
    } else {
      var i := path[0];
      if v.Dict? {
        EntryAt(t, v.entries, depth + 1, i);
      } else {
        ItemAt(t, v.items, depth, i);
      }
      var child := if v.Dict? then v.entries[i].value else v.items[i];
      if depth < 8 {
        InnocuousIsKept(t, child, depth + 1, path[1..]);
      } else {
        assert path[1..] == [];
      }
    }
  }

  /** What a sensitive key stands over is replaced by the mask. */
  lemma SensitiveIsMasked(t: Text, v: Value, depth: nat, i: nat)
    requires v.Dict? && i < |v.entries| && IsSensitive(t, v.entries[i].key) && depth <= 8
    requires !(v.entries[i].value.Null? || v.entries[i].value.Bool? || v.entries[i].value.Num?)
    ensures Find(Redacted(t, v, depth), [i]) == Some(Str("***"))
  {
    hide IsSensitive;
    EntryAt(t, v.entries, depth + 1, i);
    assert [i][1..] == [];
  }

  // ------------------------------------------------------------ sizes

  const MAX := 4096
  const ELLIPSIS := "\U{2026}"

  function Utf8(c: char): nat {
    var n := c as int;
    if n < 0x80 then 1 else if n < 0x800 then 2 else if n < 0x1_0000 then 3 else 4
  }

  /** The bytes of a character (section 3 of RFC 3629). */
  function Utf8Bytes(c: char): seq<Byte> {
    var n := c as int;
    if n <= 0x7F then [n]
    else if n <= 0x7FF then [0xC0 + n / 64, 0x80 + n % 64]
    else if n <= 0xFFFF then [0xE0 + n / 4096, 0x80 + n / 64 % 64, 0x80 + n % 64]
    else [0xF0 + n / 262144, 0x80 + n / 4096 % 64, 0x80 + n / 64 % 64, 0x80 + n % 64]
  }

  /** The lengths are those of the encoding. */
  lemma Utf8Is(c: char)
    ensures |Utf8Bytes(c)| == Utf8(c)
  {
  }

  function Utf8Length(s: string): nat {
    if s == "" then 0 else Utf8(s[0]) + Utf8Length(s[1..])
  }

  /** The length of a character in `json.dumps`, which escapes all but printable ASCII. */
  function Escaped(c: char): nat {
    var n := c as int;
    if c == '"' || c == '\\' then 2
    else if 32 <= n <= 126 then 1
    else if n in {8, 9, 10, 12, 13} then 2
    else if n < 0x1_0000 then 6 else 12
  }

  function EscapedLength(s: string): nat {
    if s == "" then 0 else Escaped(s[0]) + EscapedLength(s[1..])
  }

  lemma {:induction false} EscapingIsLonger(s: string)
    ensures |s| <= Utf8Length(s) <= EscapedLength(s)
  {
    if s != "" {
      EscapingIsLonger(s[1..]);
    }
  }

  function JsonLength(v: Value): nat
    decreases v, 0
  {
    match v
    case Null => 4
    case Bool(on) => if on then 4 else 5
    case Num(text) => |text|
    case Str(s) => EscapedLength(s) + 2
    case Opaque(repr) => EscapedLength(repr) + 2
    case List(items) => 2 + JsonItems(items)
    case Dict(entries) => 2 + JsonEntries(entries)
  }

  /** Two characters stand between neighbours. */
  function JsonItems(items: seq<Value>): nat
    decreases items, 1
  {
    if items == [] then 0 else JsonLength(items[0]) + (if |items| > 1 then 2 else 0) + JsonItems(items[1..])
  }

  function JsonEntries(entries: seq<Entry>): nat
    decreases entries, 1
  {
    if entries == [] then 0
    else
      EscapedLength(entries[0].key) + 4 + JsonLength(entries[0].value) + (if |entries| > 1 then 2 else 0)
      + JsonEntries(entries[1..])
  }

  lemma {:induction false} EntryIsShorter(entries: seq<Entry>, i: nat)
    requires i < |entries|
    ensures JsonLength(entries[i].value) <= JsonEntries(entries)
  {
    if i > 0 {
      EntryIsShorter(entries[1..], i - 1);
    }
  }

  // ------------------------------------------------------------ the text whose length counts

  function HexChar(n: nat): char { if n % 16 < 10 then '0' + (n % 16) as char else 'a' + (n % 16 - 10) as char }

  /** `\uXXXX`. */
  function CodeUnit(n: nat): string {
    "\\u" + [HexChar(n / 4096), HexChar(n / 256), HexChar(n / 16), HexChar(n)]
  }

  /** A character as `json.dumps` writes it; two code units beyond the first plane. */
  function JsonChar(c: char): string {
    var n := c as int;
    if c == '"' then "\\\"" else if c == '\\' then "\\\\"
    else if 32 <= n <= 126 then [c]
    else if n == 8 then "\\b" else if n == 9 then "\\t" else if n == 10 then "\\n"
    else if n == 12 then "\\f" else if n == 13 then "\\r"
    else if n < 0x1_0000 then CodeUnit(n)
    else CodeUnit(0xD800 + (n - 0x1_0000) / 1024) + CodeUnit(0xDC00 + (n - 0x1_0000) % 1024)
  }

  function JsonChars(s: string): string {
    if s == "" then "" else JsonChar(s[0]) + JsonChars(s[1..])
  }

  function JsonString(s: string): string { "\"" + JsonChars(s) + "\"" }

  /** `json.dumps(value, default=str)`. */
  function JsonText(v: Value): string
    decreases v, 0
  {
    match v
    case Null => "null"
    case Bool(on) => if on then "true" else "false"
    case Num(text) => text
    case Str(s) => JsonString(s)
    case Opaque(repr) => JsonString(repr)
    case List(items) => "[" + ItemsText(items) + "]"
    case Dict(entries) => "{" + EntriesText(entries) + "}"
  }

  function ItemsText(items: seq<Value>): string
    decreases items, 1
  {
    if items == [] then ""
    else if |items| == 1 then JsonText(items[0])
    else JsonText(items[0]) + ", " + ItemsText(items[1..])
  }

  function EntriesText(entries: seq<Entry>): string
    decreases entries, 1
  {
    if entries == [] then ""
    else
      var first := JsonString(entries[0].key) + ": " + JsonText(entries[0].value);
      if |entries| == 1 then first else first + ", " + EntriesText(entries[1..])
  }

  lemma {:induction false} CharsLength(s: string)
    ensures |JsonChars(s)| == EscapedLength(s)
  {
    if s != "" {
      CharsLength(s[1..]);
    }
  }

  // ------------------------------------------------------------ that text read back

  function HexDigitValue(c: char): Option<nat> {
    if '0' <= c <= '9' then Some((c - '0') as nat)
    else if 'a' <= c <= 'f' then Some((c - 'a') as nat + 10)
    else if 'A' <= c <= 'F' then Some((c - 'A') as nat + 10)
    else None
  }

  /** A number of so many hexadecimal digits. */
  function ReadHex(s: string, value: nat): Option<nat> {
    if s == "" then Some(value)
    else
      var d := HexDigitValue(s[0]);
      if d.None? then None else ReadHex(s[1..], 16 * value + d.value)
  }

  /** The code unit that an escape at the front of `s` stands for. */
  function UnitAt(s: string): Option<nat> {
    if |s| < 6 || s[..2] != "\\u" then None else ReadHex(s[2..6], 0)
  }

  function IsScalar(n: nat): bool { n < 0xD800 || 0xE000 <= n < 0x11_0000 }

  /** The first character of the inside of a JSON string, and how far it reaches
      (section 7 of RFC 8259); two escaped surrogates are one character. */
  function FirstChar(s: string): Option<(char, nat)>
    requires s != ""
  {
    if s[0] == '"' || s[0] < ' ' then None
    else if s[0] != '\\' then Some((s[0], 1))
    else if |s| < 2 then None
    else if s[1] == '"' || s[1] == '\\' || s[1] == '/' then Some((s[1], 2))
    else if s[1] == 'b' then Some((8 as char, 2))
    else if s[1] == 't' then Some((9 as char, 2))
    else if s[1] == 'n' then Some((10 as char, 2))
    else if s[1] == 'f' then Some((12 as char, 2))
    else if s[1] == 'r' then Some((13 as char, 2))
    else
      var high := UnitAt(s);
      if high.None? then None
      else if IsScalar(high.value) then Some((high.value as char, 6))
      else
        var low := UnitAt(s[6..]);
        if low.None? || high.value >= 0xDC00 || !(0xDC00 <= low.value < 0xE000) then None
        else Some(((0x1_0000 + 1024 * (high.value - 0xD800) + (low.value - 0xDC00)) as char, 12))
  }

  function ReadChars(s: string): Option<string> {
    if s == "" then Some("")
    else
      var first := FirstChar(s);
      if first.None? || first.value.1 == 0 || first.value.1 > |s| then None
      else
        var rest := ReadChars(s[first.value.1..]);
        if rest.None? then None else Some([first.value.0] + rest.value)
  }

  lemma HexCharReads(n: nat)
    ensures HexDigitValue(HexChar(n)) == Some(n % 16)
  {
  }

  lemma UnitReads(n: nat, rest: string)
    requires n < 0x1_0000
    ensures |CodeUnit(n)| == 6 && UnitAt(CodeUnit(n) + rest) == Some(n)
  {
    HexCharReads(n / 4096);
    HexCharReads(n / 256);
    HexCharReads(n / 16);
    HexCharReads(n);
    var digits := [HexChar(n / 4096), HexChar(n / 256), HexChar(n / 16), HexChar(n)];
    CodeUnitParts(n, rest);
    hide HexChar, HexDigitValue, ReadHex, CodeUnit;
    FourDigitsRead(digits, n / 4096 % 16, n / 256 % 16, n / 16 % 16, n % 16);
    FourDigitsAre(n);
  }

  lemma CodeUnitParts(n: nat, rest: string)
    ensures var s := CodeUnit(n) + rest;
            && |CodeUnit(n)| == 6 && s[..2] == "\\u"
            && s[2..6] == [HexChar(n / 4096), HexChar(n / 256), HexChar(n / 16), HexChar(n)]
  {
    hide HexChar;
  }

  lemma FourDigitsAre(n: nat)
    requires n < 0x1_0000
    ensures n == 4096 * (n / 4096 % 16) + 256 * (n / 256 % 16) + 16 * (n / 16 % 16) + n % 16
  {
    var a, b := n / 16, n / 256;
    assert n == 16 * a + n % 16 && a == 16 * b + a % 16;
    assert b == n / 16 / 16 && n / 4096 == b / 16;
    assert b == 16 * (b / 16) + b % 16 && b / 16 < 16;
  }

  lemma FourDigitsRead(s: string, a: nat, b: nat, c: nat, d: nat)
    requires |s| == 4 && HexDigitValue(s[0]) == Some(a) && HexDigitValue(s[1]) == Some(b)
    requires HexDigitValue(s[2]) == Some(c) && HexDigitValue(s[3]) == Some(d)
    ensures ReadHex(s, 0) == Some(4096 * a + 256 * b + 16 * c + d)
  {
    hide HexDigitValue;
    var t, u, v := s[1..], s[2..], s[3..];
    assert t[1..] == u && u[1..] == v && v[1..] == "";
    assert ReadHex(v, 256 * a + 16 * b + c) == ReadHex("", 16 * (256 * a + 16 * b + c) + d);
    assert ReadHex(u, 16 * a + b) == ReadHex(v, 16 * (16 * a + b) + c);
    assert ReadHex(t, a) == ReadHex(u, 16 * a + b);
  }

  lemma CharReads(c: char, rest: string)
    ensures JsonChar(c) != "" && FirstChar(JsonChar(c) + rest) == Some((c, |JsonChar(c)|))
  {
    hide ReadHex, CodeUnit, UnitAt;
    var n := c as int;
    if n < 0x1_0000 {
      UnitReads(n, rest);
      EscapeStarts(n, rest);
    } else {
      var high, low := 0xD800 + (n - 0x1_0000) / 1024, 0xDC00 + (n - 0x1_0000) % 1024;
      UnitReads(high, CodeUnit(low) + rest);
      UnitReads(low, rest);
      EscapeStarts(high, CodeUnit(low) + rest);
      assert JsonChar(c) + rest == CodeUnit(high) + (CodeUnit(low) + rest);
      assert (CodeUnit(high) + (CodeUnit(low) + rest))[6..] == CodeUnit(low) + rest;
    }
  }

  lemma EscapeStarts(n: nat, rest: string)
    ensures (CodeUnit(n) + rest)[0] == '\\' && (CodeUnit(n) + rest)[1] == 'u'
  {
  }

  /** A reader of JSON strings gets exactly the characters that were written. */
  lemma {:induction false} CharsRead(s: string)
    ensures ReadChars(JsonChars(s)) == Some(s)
  {
    if s != "" {
      CharReads(s[0], JsonChars(s[1..]));
      CharsRead(s[1..]);
      hide JsonChar, FirstChar;
      var text := JsonChars(s);
      assert text[|JsonChar(s[0])|..] == JsonChars(s[1..]);
      assert s == [s[0]] + s[1..];
    }
  }

  /** The lengths the bound works with are those of that text. */
  lemma {:induction false} LengthIs(v: Value)
    ensures |JsonText(v)| == JsonLength(v)
    decreases v, 0
  {
    match v
    case Str(s) => CharsLength(s);
    case Opaque(repr) => CharsLength(repr);
    case List(items) => ItemsLength(items);
    case Dict(entries) => EntriesLength(entries);
    case _ =>
  }

  lemma {:induction false} ItemsLength(items: seq<Value>)
    ensures |ItemsText(items)| == JsonItems(items)
    decreases items, 1
  {
    if items != [] {
      LengthIs(items[0]);
      ItemsLength(items[1..]);
    }
  }

  lemma {:induction false} EntriesLength(entries: seq<Entry>)
    ensures |EntriesText(entries)| == JsonEntries(entries)
    decreases entries, 1
  {
    if entries != [] {
      CharsLength(entries[0].key);
      LengthIs(entries[0].value);
      EntriesLength(entries[1..]);
    }
  }

  // ------------------------------------------------------------ bounding

  predicate TooLong(v: Value) { v.Str? && Utf8Length(v.s) > MAX }

  function Cut(v: Value): Value {
    if TooLong(v) then Str((if |v.s| > MAX then v.s[..MAX] else v.s) + ELLIPSIS) else v
  }

  function CutEntries(data: seq<Entry>): (r: seq<Entry>)
    ensures |r| == |data|
    ensures forall i :: 0 <= i < |data| ==> r[i] == Entry(data[i].key, Cut(data[i].value))
  {
    seq(|data|, i requires 0 <= i < |data| => Entry(data[i].key, Cut(data[i].value)))
  }

  /** Only numbers and booleans survive the pass over the whole payload. */
  function Dropped(v: Value): Value { if v.Bool? || v.Num? then v else REDACTED }

  function DropEntries(data: seq<Entry>): (r: seq<Entry>)
    ensures |r| == |data|
    ensures forall i :: 0 <= i < |data| ==> r[i] == Entry(data[i].key, Dropped(data[i].value))
  {
    seq(|data|, i requires 0 <= i < |data| => Entry(data[i].key, Dropped(data[i].value)))
  }

  predicate Overflows(data: seq<Entry>) { 2 + JsonEntries(data) > MAX }

  const TRUNCATED := "truncated"

  /** `result["truncated"] = True`: in place if the key is there, else at the end. */
  function Flagged(data: seq<Entry>): seq<Entry> {
    if data == [] then [Entry(TRUNCATED, Bool(true))]
    else if data[0].key == TRUNCATED then [Entry(TRUNCATED, Bool(true))] + data[1..]
    else [data[0]] + Flagged(data[1..])
  }

  predicate AnyTooLong(data: seq<Entry>) {
    exists i :: 0 <= i < |data| && TooLong(data[i].value)
  }

  /** `_bound`. */
  function Bounded(data: seq<Entry>): seq<Entry> {
    var cut := CutEntries(data);
    if Overflows(cut) then Flagged(DropEntries(cut))
    else if AnyTooLong(data) then Flagged(cut)
    else cut
  }

  method Bound(data: seq<Entry>) returns (result: seq<Entry>)
    ensures result == Bounded(data)
  {
    hide Utf8Length, JsonEntries;
    result := [];
    var truncated := false;
    for k := 0 to |data|
      invariant |result| == k
      invariant forall i :: 0 <= i < k ==> result[i] == Entry(data[i].key, Cut(data[i].value))
      invariant truncated <==> exists i :: 0 <= i < k && TooLong(data[i].value)
    {
      var value := data[k].value;
      if value.Str? && Utf8Length(value.s) > MAX {
        result := result + [Entry(data[k].key, Str((if |value.s| > MAX then value.s[..MAX] else value.s) + ELLIPSIS))];
        truncated := true;
      } else {
        result := result + [Entry(data[k].key, value)];
      }
    }
    assert result == CutEntries(data);
    if 2 + JsonEntries(result) > MAX {
      result := DropEntries(result);
      truncated := true;
    }
    if truncated {
      result := Flagged(result);
    }
  }

  /** A string over the cap makes the whole payload overflow, even after it was cut. */
  lemma CutStringsOverflow(data: seq<Entry>)
    requires AnyTooLong(data)
    ensures Overflows(CutEntries(data))
  {
    var i :| 0 <= i < |data| && TooLong(data[i].value);
    var cut := CutEntries(data);
    CutIsStillLong(data[i].value);
    EntryIsShorter(cut, i);
  }

  lemma CutIsStillLong(v: Value)
    requires TooLong(v)
    ensures JsonLength(Cut(v)) > MAX
  {
    var kept := if |v.s| > MAX then v.s[..MAX] else v.s;
    EscapingIsLonger(kept);
    EscapedAppend(kept, ELLIPSIS);
  }

  lemma {:induction false} EscapedAppend(a: string, b: string)
    ensures EscapedLength(a + b) == EscapedLength(a) + EscapedLength(b)
  {
    if a == "" {
      assert a + b == b;
    } else {
      EscapedAppend(a[1..], b);
      assert (a + b)[1..] == a[1..] + b;
    }
  }

  /** So a cut string is never what is stored: either nothing was shortened or
      dropped, or no string but the mask is left at all. */
  lemma NothingIsShortened(data: seq<Entry>)
    ensures Bounded(data) == if Overflows(CutEntries(data)) then Flagged(DropEntries(CutEntries(data))) else data
    ensures Overflows(CutEntries(data)) ==>
              forall e :: e in Bounded(data) ==> e.value.Bool? || e.value.Num? || e.value == REDACTED
  {
    if Overflows(CutEntries(data)) {
      FlaggedMembers(DropEntries(CutEntries(data)));
    } else {
      if AnyTooLong(data) {
        CutStringsOverflow(data);
      }
      assert CutEntries(data) == data;
    }
  }

  lemma {:induction false} FlaggedMembers(data: seq<Entry>)
    ensures forall e :: e in Flagged(data) ==> e in data || e == Entry(TRUNCATED, Bool(true))
    ensures Entry(TRUNCATED, Bool(true)) in Flagged(data)
  {
    if data != [] {
      FlaggedMembers(data[1..]);
    }
  }

  // ------------------------------------------------------------ the whole pass

  /** `redact_mapping`. */
  function RedactMapping(t: Text, data: seq<Entry>): seq<Entry> {
    Bounded(RedactedEntries(t, data, 0))
  }

  /** A number, a boolean or the mask: what the pass over the whole payload leaves. */
  predicate AllSimple(data: seq<Entry>) {
    forall e :: e in data ==> e.value.Bool? || e.value.Num? || e.value == REDACTED
  }

  lemma {:induction false} SimpleIsClean(t: Text, data: seq<Entry>)
    requires AllSimple(data)
    ensures NoSecretEntries(t, data)
    ensures t.mask("***") == "***" ==> AllMaskedEntries(t, data) && RedactedEntries(t, data, 0) == data
  {
    hide IsSensitive;
    if data != [] {
      assert forall e :: e in data[1..] ==> e in data;
      SimpleIsClean(t, data[1..]);
      assert data[0] in data;
      assert data == [data[0]] + data[1..];
    }
  }

  /** The main result: whatever was passed in, no string or container is stored under
      a sensitive key at any depth, and every string that is stored is masked. */
  lemma NoSecretIsStored(t: Text, data: seq<Entry>)
    ensures NoSecretEntries(t, RedactMapping(t, data))
    ensures IdempotentMask(t) ==> AllMaskedEntries(t, RedactMapping(t, data))
  {
    hide NoSecretEntries, AllMaskedEntries, IsSensitive, Overflows, Bounded;
    var redacted := RedactedEntries(t, data, 0);
    RedactedEntriesClean(t, data, 0);
    NothingIsShortened(redacted);
    if Overflows(CutEntries(redacted)) {
      SimpleIsClean(t, Bounded(redacted));
    }
  }

  lemma {:induction false} FlaggedOnce(data: seq<Entry>)
    ensures Flagged(Flagged(data)) == Flagged(data)
  {
    if data != [] {
      FlaggedOnce(data[1..]);
      assert Flagged(data)[1..] == if data[0].key == TRUNCATED then data[1..] else Flagged(data[1..]);
    }
  }

  lemma SimpleIsShort(data: seq<Entry>)
    requires AllSimple(data)
    ensures !AnyTooLong(data) && CutEntries(data) == data && DropEntries(data) == data
  {
    assert Utf8Length("***") == 1 + Utf8Length("**") && Utf8Length("**") == 1 + Utf8Length("*");
    assert "***"[1..] == "**" && "**"[1..] == "*" && "*"[1..] == "";
    assert Utf8Length("*") == 1;
    hide Utf8Length;
    forall i | 0 <= i < |data|
      ensures Cut(data[i].value) == data[i].value && Dropped(data[i].value) == data[i].value && !TooLong(data[i].value)
    {
      assert data[i] in data;
    }
  }

  lemma {:induction false} FlaggedKeeps(data: seq<Entry>, i: nat)
    requires i < |data|
    ensures i < |Flagged(data)| && Flagged(data)[i].key == data[i].key
    ensures data[i].key != TRUNCATED ==> Flagged(data)[i] == data[i]
  {
    if i > 0 && data[0].key != TRUNCATED {
      FlaggedKeeps(data[1..], i - 1);
    }
  }

  /** What is stored of one entry: where the redacted payload, as JSON, is over 4096
      characters once long strings are cut, a number or a boolean itself and the mask for
      everything else; otherwise the redacted entry. */
  lemma StoredEntry(t: Text, data: seq<Entry>, i: nat)
    requires i < |data| && data[i].key != "truncated"
    ensures i < |RedactMapping(t, data)|
    ensures var redacted := RedactedEntries(t, data, 0);
            var stored := RedactMapping(t, data)[i];
            && stored.key == data[i].key
            && stored.value == if |JsonText(Dict(CutEntries(redacted)))| <= 4096 then redacted[i].value
                               else if redacted[i].value.Bool? || redacted[i].value.Num? then redacted[i].value
                               else Str("***")
  {
    hide IsSensitive, JsonText, JsonLength, Redacted;
    var redacted := RedactedEntries(t, data, 0);
    var cut := CutEntries(redacted);
    EntryAt(t, data, 0, i);
    LengthIs(Dict(cut));
    TextOverflows(cut);
    NothingIsShortened(redacted);
    if Overflows(cut) {
      FlaggedKeeps(DropEntries(cut), i);
      CutKeepsSimple(redacted[i].value);
    }
  }

  lemma TextOverflows(data: seq<Entry>)
    ensures Overflows(data) <==> |JsonText(Dict(data))| > 4096
  {
    LengthIs(Dict(data));
  }

  lemma CutKeepsSimple(v: Value)
    ensures Dropped(Cut(v)) == if v.Bool? || v.Num? then v else Str("***")
  {
    hide Utf8Length;
  }

  /** Redacting a payload twice is redacting it once. */
  lemma RedactMappingTwice(t: Text, data: seq<Entry>)
    requires IdempotentMask(t)
    ensures RedactMapping(t, RedactMapping(t, data)) == RedactMapping(t, data)
  {
    hide IsSensitive, Overflows, JsonEntries, Utf8Length;
    var redacted := RedactedEntries(t, data, 0);
    NothingIsShortened(redacted);
    if Overflows(CutEntries(redacted)) {
      var simple := Flagged(DropEntries(CutEntries(redacted)));
      assert Bounded(redacted) == simple;
      SimpleIsClean(t, simple);
      SimpleIsShort(simple);
      FlaggedOnce(DropEntries(CutEntries(redacted)));
    } else {
      RedactingEntriesTwice(t, data, 0);
    }
  }
}
