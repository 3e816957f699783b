/** Encrypted documents from end to end: what a reader with nothing but the file and a
    password recovers of what the writer was given. */
module PdfDocument {
  import opened Nums
  import opened AesSbox
  import E = PdfEncryption
  import S = PdfStandard
  import opened PdfXref
  import opened PdfReader

  // ------------------------------------------------------------ the encryption dictionary

  const FILTER: seq<Byte> := Ascii("Filter")
  const V: seq<Byte> := Ascii("V")
  const REVISION: seq<Byte> := Ascii("R")
  const CF: seq<Byte> := Ascii("CF")
  const STMF: seq<Byte> := Ascii("StmF")
  const STRF: seq<Byte> := Ascii("StrF")
  const OWNER: seq<Byte> := Ascii("O")
  const USER: seq<Byte> := Ascii("U")
  const OE: seq<Byte> := Ascii("OE")
  const UE: seq<Byte> := Ascii("UE")
  const PERMS: seq<Byte> := Ascii("Perms")
  const PERMISSIONS: seq<Byte> := Ascii("P")
  const CFM: seq<Byte> := Ascii("CFM")
  const AUTH_EVENT: seq<Byte> := Ascii("AuthEvent")
  const STANDARD: seq<Byte> := Ascii("Standard")
  const STDCF: seq<Byte> := Ascii("StdCF")
  const AESV2: seq<Byte> := Ascii("AESV2")
  const AESV3: seq<Byte> := Ascii("AESV3")
  const DOC_OPEN: seq<Byte> := Ascii("DocOpen")

  /** The crypt filter of revisions 4 and 6. */
  function Filters(method_: seq<Byte>, length: nat): Value {
    Dict([Field(STDCF, Dict([Field(CFM, Name(method_)), Field(AUTH_EVENT, Name(DOC_OPEN)),
                             Field(LENGTH, Integer(length))]))])
  }

  /** `Encryption.dictionary`. */
  function Dictionary(scheme: S.Scheme, e: E.Entries): Value {
    match scheme
    case Rc4Of40 =>
      Dict([Field(FILTER, Name(STANDARD)), Field(V, Integer(1)), Field(REVISION, Integer(2)),
            Field(OWNER, HexRaw(e.o)), Field(USER, HexRaw(e.u)), Field(PERMISSIONS, Integer(E.P))])
    case Aes128 =>
      Dict([Field(FILTER, Name(STANDARD)), Field(V, Integer(4)), Field(REVISION, Integer(4)),
            Field(LENGTH, Integer(128)), Field(CF, Filters(AESV2, 16)),
            Field(STMF, Name(STDCF)), Field(STRF, Name(STDCF)),
            Field(OWNER, HexRaw(e.o)), Field(USER, HexRaw(e.u)), Field(PERMISSIONS, Integer(E.P))])
    case Aes256 =>
      Dict([Field(FILTER, Name(STANDARD)), Field(V, Integer(5)), Field(REVISION, Integer(6)),
            Field(LENGTH, Integer(256)), Field(CF, Filters(AESV3, 32)),
            Field(STMF, Name(STDCF)), Field(STRF, Name(STDCF)),
            Field(OWNER, HexRaw(e.o)), Field(USER, HexRaw(e.u)), Field(OE, HexRaw(e.oe)), Field(UE, HexRaw(e.ue)),
            Field(PERMS, HexRaw(e.perms)), Field(PERMISSIONS, Integer(E.P))])
  }

  // ------------------------------------------------------------ a reader with a password

  function NameAt(pairs: seq<Pair>, key: seq<Byte>): Option<seq<Byte>> {
    match Find(pairs, key)
    case Some(NameItem(name)) => Some(name)
    case _ => None
  }

  function TextAt(pairs: seq<Pair>, key: seq<Byte>): seq<Byte> {
    match Find(pairs, key)
    case Some(StringItem(text)) => text
    case _ => []
  }

  function NumberAt(pairs: seq<Pair>, key: seq<Byte>): int {
    match Find(pairs, key)
    case Some(Whole(n)) => n
    case _ => 0
  }

  function DictAt(pairs: seq<Pair>, key: seq<Byte>): seq<Pair> {
    match Find(pairs, key)
    case Some(DictItem(inner)) => inner
    case _ => []
  }

  /** The method of the crypt filter that streams and strings share (section 7.6.5 of
      ISO 32000-1). */
  function CryptMethod(pairs: seq<Pair>): Option<seq<Byte>> {
    var filter := NameAt(pairs, STMF);
    if filter.None? || NameAt(pairs, STRF) != filter then None
    else NameAt(DictAt(DictAt(pairs, CF), filter.value), CFM)
  }

  function SchemeIn(pairs: seq<Pair>): Option<S.Scheme> {
    var v, r := NumberAt(pairs, V), NumberAt(pairs, REVISION);
    if NameAt(pairs, FILTER) != Some(STANDARD) then None
    else if v == 1 && r == 2 then Some(S.Rc4Of40)
    else if v == 4 && r == 4 && CryptMethod(pairs) == Some(AESV2) then Some(S.Aes128)
    else if v == 5 && r == 6 && CryptMethod(pairs) == Some(AESV3) then Some(S.Aes256)
    else None
  }

  /** The file key that a password opens, under revisions 2 and 4. */
  function OldKeyIn(h: S.Hashes, pairs: seq<Pair>, id: seq<Byte>, password: seq<Byte>,
                    asOwner: bool): Option<seq<Byte>> {
    var r := NumberAt(pairs, REVISION);
    var bits := if r == 2 then 40 else NumberAt(pairs, LENGTH);
    if r < 0 || bits < 0 then None
    else
      var d := S.Published(r, bits / 8, TextAt(pairs, OWNER), TextAt(pairs, USER), NumberAt(pairs, PERMISSIONS), id);
      if !S.IsPublished(d) then None
      else if asOwner then S.OpenByOwner(h, password, d) else S.OpenByUser(h, password, d)
  }

  /** The same under revision 6; the permissions must agree with those under the key. */
  function NewKeyIn(h: S.Hashes, box: seq<Byte>, pairs: seq<Pair>, password: seq<Byte>,
                    asOwner: bool): Option<seq<Byte>>
    requires |box| == 256
  {
    var u := TextAt(pairs, USER);
    var key := if asOwner then S.Open256(h, box, password, TextAt(pairs, OWNER), TextAt(pairs, OE), u)
               else S.Open256(h, box, password, u, TextAt(pairs, UE), []);
    if key.None? || |key.value| != 32 then None
    else if S.Permissions(box, key.value, TextAt(pairs, PERMS)) != Some(NumberAt(pairs, PERMISSIONS)) then None
    else key
  }

  datatype Opened = Opened(scheme: S.Scheme, key: seq<Byte>)

  function KeyIn(h: S.Hashes, box: seq<Byte>, pairs: seq<Pair>, id: seq<Byte>, password: seq<Byte>, asOwner: bool)
    : (r: Option<Opened>)
    requires |box| == 256
    ensures r.Some? ==> S.FitsScheme(r.value.scheme, r.value.key)
  {
    var scheme := SchemeIn(pairs);
    if scheme.None? then None
    else
      var key := if scheme.value == S.Aes256 then NewKeyIn(h, box, pairs, password, asOwner)
                 else OldKeyIn(h, pairs, id, password, asOwner);
      if key.None? then None else Some(Opened(scheme.value, key.value))
  }

  /** The first part of the identifier in the trailer. */
  function IdIn(trailer: seq<Pair>): Option<seq<Byte>> {
    var id := Find(trailer, ID);
    if id.None? || !id.value.ArrayItem? || id.value.items == [] || !id.value.items[0].StringItem? then None
    else Some(id.value.items[0].text)
  }

  /** The dictionary in object `n`. */
  function DictIn(file: seq<Byte>, n: int): Option<seq<Pair>> {
    if n < 0 then None
    else
      var found := ObjectIn(file, n);
      if found.None? || !found.value.PlainFound? || !found.value.item.DictItem? then None
      else Some(found.value.item.pairs)
  }

  /** Opens a file: the trailer names the encryption dictionary and holds the identifier
      (section 7.6.1 of ISO 32000-1). */
  function Open(h: S.Hashes, box: seq<Byte>, file: seq<Byte>, password: seq<Byte>, asOwner: bool): (r: Option<Opened>)
    requires |box| == 256
    ensures r.Some? ==> S.FitsScheme(r.value.scheme, r.value.key)
  {
    var trailer := TrailerIn(file);
    if trailer.None? then None
    else
      var at, id := Find(trailer.value, ENCRYPT), IdIn(trailer.value);
      if at.None? || !at.value.Reference? || id.None? then None
      else
        var pairs := DictIn(file, at.value.num);
        if pairs.None? then None else KeyIn(h, box, pairs.value, id.value, password, asOwner)
  }

  /** A stream of an encrypted file, as a reader with a password gets it. */
  function StreamIn(h: S.Hashes, box: seq<Byte>, file: seq<Byte>, password: seq<Byte>, asOwner: bool, n: nat)
    : Option<seq<Byte>>
    requires |box| == 256
  {
    var access, found := Open(h, box, file, password, asOwner), ObjectIn(file, n);
    if access.None? || found.None? || !found.value.StreamFound? || !S.NumberFits(access.value.scheme, n) then None
    else S.Decrypted(h, box, access.value.scheme, access.value.key, n, found.value.data)
  }

  /** A value with each of its strings decrypted. */
  function Clear(h: S.Hashes, box: seq<Byte>, o: Opened, n: nat, item: Item): Option<Item>
    requires |box| == 256 && S.FitsScheme(o.scheme, o.key) && S.NumberFits(o.scheme, n)
    decreases item, 0
  {
    match item
    case StringItem(text) =>
      var data := S.Decrypted(h, box, o.scheme, o.key, n, text);
      if data.None? then None else Some(StringItem(data.value))
    case ArrayItem(items) =>
      var inner := ClearItems(h, box, o, n, items);
      if inner.None? then None else Some(ArrayItem(inner.value))
    case DictItem(pairs) =>
      var inner := ClearPairs(h, box, o, n, pairs);
      if inner.None? then None else Some(DictItem(inner.value))
    case _ => Some(item)
  }

  function ClearItems(h: S.Hashes, box: seq<Byte>, o: Opened, n: nat, items: seq<Item>): Option<seq<Item>>
    requires |box| == 256 && S.FitsScheme(o.scheme, o.key) && S.NumberFits(o.scheme, n)
    decreases items, 1
  {
    if items == [] then Some([])
    else
      var first, others := Clear(h, box, o, n, items[0]), ClearItems(h, box, o, n, items[1..]);
      if first.None? || others.None? then None else Some([first.value] + others.value)
  }

  function ClearPairs(h: S.Hashes, box: seq<Byte>, o: Opened, n: nat, pairs: seq<Pair>): Option<seq<Pair>>
    requires |box| == 256 && S.FitsScheme(o.scheme, o.key) && S.NumberFits(o.scheme, n)
    decreases pairs, 1
  {
    if pairs == [] then Some([])
    else
      var first, others := Clear(h, box, o, n, pairs[0].value), ClearPairs(h, box, o, n, pairs[1..]);
      if first.None? || others.None? then None else Some([Pair(pairs[0].key, first.value)] + others.value)
  }

  /** A value of an encrypted file, as a reader with a password gets it. */
  function ValueIn(h: S.Hashes, box: seq<Byte>, file: seq<Byte>, password: seq<Byte>, asOwner: bool, n: nat)
    : Option<Item>
    requires |box| == 256
  {
    var access, found := Open(h, box, file, password, asOwner), ObjectIn(file, n);
    if access.None? || found.None? || !found.value.PlainFound? || !S.NumberFits(access.value.scheme, n) then None
    else Clear(h, box, access.value, n, found.value.item)
  }

  // ------------------------------------------------------------ the dictionary read back

  /** Tells the keys apart. */
  function Mark(key: seq<Byte>): int {
    10_0000 * |key| + (if |key| > 2 then 300 * (key[2] as int) else 0) + if key == [] then 0 else key[0] as int
  }

  lemma Marks()
    ensures Mark(FILTER) == 63_2470 && Mark(V) == 10_0086 && Mark(REVISION) == 10_0082 && Mark(LENGTH) == 63_3076
    ensures Mark(CF) == 20_0067 && Mark(STMF) == 43_2783 && Mark(STRF) == 43_4283 && Mark(OWNER) == 10_0079
    ensures Mark(USER) == 10_0085 && Mark(OE) == 20_0079 && Mark(UE) == 20_0085 && Mark(PERMS) == 53_4280
    ensures Mark(PERMISSIONS) == 10_0080 && Mark(CFM) == 32_3167 && Mark(AUTH_EVENT) == 93_4865
  {
    hide Ascii;
  }

  lemma KeysAreRegular()
    ensures AllRegular(FILTER) && AllRegular(V) && AllRegular(REVISION) && AllRegular(LENGTH) && AllRegular(CF)
    ensures AllRegular(STMF) && AllRegular(STRF) && AllRegular(OWNER) && AllRegular(USER) && AllRegular(OE)
    ensures AllRegular(UE) && AllRegular(PERMS) && AllRegular(PERMISSIONS) && AllRegular(CFM) && AllRegular(AUTH_EVENT)
  {
    hide Ascii;
  }

  lemma NamesAreRegular()
    ensures AllRegular(STANDARD) && AllRegular(STDCF) && AllRegular(AESV2) && AllRegular(AESV3) && AllRegular(DOC_OPEN)
    ensures AESV2 != AESV3
  {
    hide Ascii;
    assert AESV2[4] == 50 && AESV3[4] == 51;
  }

  /** The entry of the first field of a name means that field's value. */
  lemma {:induction false} EntryIs(fields: seq<Field>, i: nat, num: int)
    requires i < |fields| && forall j :: 0 <= j < i ==> fields[j].key != fields[i].key
    ensures Find(MeaningsOf(fields, num, None), fields[i].key) == Some(Meaning(fields[i].value, num, None))
  {
    hide Meaning, MeaningsOf, Find;
    assert fields == [fields[0]] + fields[1..];
    FirstMeaning(fields[0], fields[1..], num, None, fields[i].key);
    if i > 0 {
      EntryIs(fields[1..], i - 1, num);
    }
  }

  lemma {:induction false} AllReadable(fields: seq<Field>)
    requires forall i :: 0 <= i < |fields| ==> AllRegular(fields[i].key) && Readable(fields[i].value)
    ensures ReadableFields(fields)
  {
    hide Readable, AllRegular;
    if fields != [] {
      AllReadable(fields[1..]);
    }
  }

  lemma HexEntry(fields: seq<Field>, i: nat, num: int, data: seq<Byte>)
    requires i < |fields| && fields[i].value == HexRaw(data)
    requires Find(MeaningsOf(fields, num, None), fields[i].key) == Some(Meaning(fields[i].value, num, None))
    ensures TextAt(MeaningsOf(fields, num, None), fields[i].key) == data && Readable(fields[i].value)
  {
    hide MeaningsOf, Find, Meaning, Readable, Hex, Ascii;
    HexRawMeans(data, num, None);
  }

  lemma DictOf(fields: seq<Field>, num: int)
    ensures Readable(Dict(fields)) == ReadableFields(fields)
    ensures Meaning(Dict(fields), num, None) == DictItem(MeaningsOf(fields, num, None))
  {
  }

  lemma FilterMeans(method_: seq<Byte>, length: nat, num: int)
    requires AllRegular(method_)
    ensures var inner := [Field(CFM, Name(method_)), Field(AUTH_EVENT, Name(DOC_OPEN)), Field(LENGTH, Integer(length))];
            && ReadableFields(inner)
            && NameAt(MeaningsOf(inner, num, None), CFM) == Some(method_)
  {
    hide MeaningsOf, Find, AllRegular, Ascii;
    KeysAreRegular();
    NamesAreRegular();
    var inner := [Field(CFM, Name(method_)), Field(AUTH_EVENT, Name(DOC_OPEN)), Field(LENGTH, Integer(length))];
    AllReadable(inner);
    EntryIs(inner, 0, num);
  }

  lemma FiltersMean(method_: seq<Byte>, length: nat, num: int)
    requires AllRegular(method_)
    ensures Readable(Filters(method_, length)) && Meaning(Filters(method_, length), num, None).DictItem?
    ensures NameAt(DictAt(Meaning(Filters(method_, length), num, None).pairs, STDCF), CFM) == Some(method_)
  {
    hide MeaningsOf, Find, AllRegular, Ascii, Readable, Meaning, ReadableFields, NameAt;
    NamesAreRegular();
    FilterMeans(method_, length, num);
    var inner := [Field(CFM, Name(method_)), Field(AUTH_EVENT, Name(DOC_OPEN)), Field(LENGTH, Integer(length))];
    var outer := [Field(STDCF, Dict(inner))];
    DictOf(inner, num);
    DictOf(outer, num);
    AllReadable(outer);
    EntryIs(outer, 0, num);
  }

  /** What the dictionary says to a reader. */
  predicate SaysScheme(pairs: seq<Pair>, scheme: S.Scheme, e: E.Entries) {
    && SchemeIn(pairs) == Some(scheme)
    && TextAt(pairs, OWNER) == e.o && TextAt(pairs, USER) == e.u && NumberAt(pairs, PERMISSIONS) == E.P
    && (scheme == S.Rc4Of40 ==> NumberAt(pairs, REVISION) == 2)
    && (scheme == S.Aes128 ==> NumberAt(pairs, REVISION) == 4 && NumberAt(pairs, LENGTH) == 128)
    && (scheme == S.Aes256 ==>
          TextAt(pairs, OE) == e.oe && TextAt(pairs, UE) == e.ue && TextAt(pairs, PERMS) == e.perms)
  }

  lemma SimpleMeans(value: Value, num: int)
    ensures value.Integer? ==> Readable(value) && Meaning(value, num, None) == Whole(value.number)
    ensures value.Name? && AllRegular(value.name) ==> Readable(value)
    ensures value.Name? ==> Meaning(value, num, None) == NameItem(value.name)
  {
  }

  lemma Rc4DictionaryRead(e: E.Entries, num: int)
    ensures Readable(Dictionary(S.Rc4Of40, e)) && Meaning(Dictionary(S.Rc4Of40, e), num, None).DictItem?
    ensures SaysScheme(Meaning(Dictionary(S.Rc4Of40, e), num, None).pairs, S.Rc4Of40, e)
  {
    hide MeaningsOf, Find, AllRegular, Ascii, Hex, HexRaw, TextAt, Meaning, Readable, ReadableFields;
    var fields := Dictionary(S.Rc4Of40, e).fields;
    KeysAreRegular();
    NamesAreRegular();
    forall i | 0 <= i < 6
      ensures Find(MeaningsOf(fields, num, None), fields[i].key) == Some(Meaning(fields[i].value, num, None))
      ensures i != 3 && i != 4 ==> AllRegular(fields[i].key) && Readable(fields[i].value)
      ensures fields[i].value.Integer? ==> Meaning(fields[i].value, num, None) == Whole(fields[i].value.number)
      ensures fields[i].value.Name? ==> Meaning(fields[i].value, num, None) == NameItem(fields[i].value.name)
    {
      Rc4Entry(e, num, i);
    }
    assert fields[0].key == FILTER && fields[1].key == V && fields[2].key == REVISION && fields[5].key == PERMISSIONS;
    HexEntry(fields, 3, num, e.o);
    HexEntry(fields, 4, num, e.u);
    AllReadable(fields);
    DictOf(fields, num);
  }

  lemma Rc4Entry(e: E.Entries, num: int, i: nat)
    requires i < 6
    ensures var fields := Dictionary(S.Rc4Of40, e).fields;
            && Find(MeaningsOf(fields, num, None), fields[i].key) == Some(Meaning(fields[i].value, num, None))
            && (i != 3 && i != 4 ==> AllRegular(fields[i].key) && Readable(fields[i].value))
            && (fields[i].value.Integer? ==> Meaning(fields[i].value, num, None) == Whole(fields[i].value.number))
            && (fields[i].value.Name? ==> Meaning(fields[i].value, num, None) == NameItem(fields[i].value.name))
  {
    hide MeaningsOf, Find, AllRegular, Ascii, HexRaw, Mark, Meaning, Readable;
    Marks();
    KeysAreRegular();
    NamesAreRegular();
    EntryIs(Dictionary(S.Rc4Of40, e).fields, i, num);
    SimpleMeans(Dictionary(S.Rc4Of40, e).fields[i].value, num);
  }

  lemma Aes128Entry(e: E.Entries, num: int, i: nat)
    requires i < |Dictionary(S.Aes128, e).fields|
    ensures var fields := Dictionary(S.Aes128, e).fields;
            && Find(MeaningsOf(fields, num, None), fields[i].key) == Some(Meaning(fields[i].value, num, None))
            && (fields[i].value.Integer? ==> Meaning(fields[i].value, num, None) == Whole(fields[i].value.number))
            && (fields[i].value.Name? ==> Meaning(fields[i].value, num, None) == NameItem(fields[i].value.name))
  {
    hide MeaningsOf, Find, Ascii, HexRaw, Mark, Filters, Meaning;
    Marks();
    EntryIs(Dictionary(S.Aes128, e).fields, i, num);
    SimpleMeans(Dictionary(S.Aes128, e).fields[i].value, num);
  }

  lemma Aes128DictionaryReadable(e: E.Entries, num: int)
    ensures Readable(Dictionary(S.Aes128, e))
    ensures Meaning(Dictionary(S.Aes128, e), num, None)
              == DictItem(MeaningsOf(Dictionary(S.Aes128, e).fields, num, None))
  {
    hide MeaningsOf, AllRegular, Ascii, HexRaw, Filters, Meaning, Readable, ReadableFields;
    KeysAreRegular();
    NamesAreRegular();
    FiltersMean(AESV2, 16, num);
    var fields := Dictionary(S.Aes128, e).fields;
    DictOf(fields, num);
    forall i | 0 <= i < |fields|
      ensures AllRegular(fields[i].key) && Readable(fields[i].value)
    {
      SimpleMeans(fields[i].value, num);
      if 7 <= i < 9 {
        HexRawMeans([e.o, e.u][i - 7], num, None);
      }
    }
    AllReadable(fields);
  }

  lemma Aes128SchemeRead(e: E.Entries, num: int)
    ensures var pairs := MeaningsOf(Dictionary(S.Aes128, e).fields, num, None);
            && SchemeIn(pairs) == Some(S.Aes128) && NumberAt(pairs, PERMISSIONS) == E.P
            && NumberAt(pairs, REVISION) == 4 && NumberAt(pairs, LENGTH) == 128
  {
    hide MeaningsOf, Find, Ascii, HexRaw, Filters, Meaning;
    NamesAreRegular();
    FiltersMean(AESV2, 16, num);
    Aes128Entry(e, num, 0);
    Aes128Entry(e, num, 1);
    Aes128Entry(e, num, 2);
    Aes128Entry(e, num, 3);
    Aes128Entry(e, num, 4);
    Aes128Entry(e, num, 5);
    Aes128Entry(e, num, 6);
    Aes128Entry(e, num, 9);
  }

  lemma Aes128TextsRead(e: E.Entries, num: int)
    ensures var pairs := MeaningsOf(Dictionary(S.Aes128, e).fields, num, None);
            TextAt(pairs, OWNER) == e.o && TextAt(pairs, USER) == e.u
  {
    hide MeaningsOf, Find, Ascii, HexRaw, Filters, Meaning, TextAt;
    var fields := Dictionary(S.Aes128, e).fields;
    Aes128Entry(e, num, 7);
    HexEntry(fields, 7, num, e.o);
    Aes128Entry(e, num, 8);
    HexEntry(fields, 8, num, e.u);
  }

  lemma Aes256Entry(e: E.Entries, num: int, i: nat)
    requires i < |Dictionary(S.Aes256, e).fields|
    ensures var fields := Dictionary(S.Aes256, e).fields;
            && Find(MeaningsOf(fields, num, None), fields[i].key) == Some(Meaning(fields[i].value, num, None))
            && (fields[i].value.Integer? ==> Meaning(fields[i].value, num, None) == Whole(fields[i].value.number))
            && (fields[i].value.Name? ==> Meaning(fields[i].value, num, None) == NameItem(fields[i].value.name))
  {
    hide MeaningsOf, Find, Ascii, HexRaw, Mark, Filters, Meaning;
    Marks();
    EntryIs(Dictionary(S.Aes256, e).fields, i, num);
    SimpleMeans(Dictionary(S.Aes256, e).fields[i].value, num);
  }

  lemma Aes256DictionaryReadable(e: E.Entries, num: int)
    ensures Readable(Dictionary(S.Aes256, e))
    ensures Meaning(Dictionary(S.Aes256, e), num, None)
              == DictItem(MeaningsOf(Dictionary(S.Aes256, e).fields, num, None))
  {
    hide MeaningsOf, AllRegular, Ascii, HexRaw, Filters, Meaning, Readable, ReadableFields;
    KeysAreRegular();
    NamesAreRegular();
    FiltersMean(AESV3, 32, num);
    var fields := Dictionary(S.Aes256, e).fields;
    DictOf(fields, num);
    forall i | 0 <= i < |fields|
      ensures AllRegular(fields[i].key) && Readable(fields[i].value)
    {
      SimpleMeans(fields[i].value, num);
      if 7 <= i < 12 {
        HexRawMeans([e.o, e.u, e.oe, e.ue, e.perms][i - 7], num, None);
      }
    }
    AllReadable(fields);
  }

  lemma Aes256SchemeRead(e: E.Entries, num: int)
    ensures var pairs := MeaningsOf(Dictionary(S.Aes256, e).fields, num, None);
            && SchemeIn(pairs) == Some(S.Aes256) && NumberAt(pairs, PERMISSIONS) == E.P
            && NumberAt(pairs, REVISION) == 6 && NumberAt(pairs, LENGTH) == 256
  {
    hide MeaningsOf, Find, Ascii, HexRaw, Filters, Meaning;
    NamesAreRegular();
    FiltersMean(AESV3, 32, num);
    Aes256Entry(e, num, 0);
    Aes256Entry(e, num, 1);
    Aes256Entry(e, num, 2);
    Aes256Entry(e, num, 3);
    Aes256Entry(e, num, 4);
    Aes256Entry(e, num, 5);
    Aes256Entry(e, num, 6);
    Aes256Entry(e, num, 12);
  }

  lemma Aes256TextsRead(e: E.Entries, num: int)
    ensures var pairs := MeaningsOf(Dictionary(S.Aes256, e).fields, num, None);
            && TextAt(pairs, OWNER) == e.o && TextAt(pairs, USER) == e.u
            && TextAt(pairs, OE) == e.oe && TextAt(pairs, UE) == e.ue && TextAt(pairs, PERMS) == e.perms
  {
    hide MeaningsOf, Find, Ascii, HexRaw, Filters, Meaning, TextAt;
    var fields := Dictionary(S.Aes256, e).fields;
    Aes256Entry(e, num, 7);
    HexEntry(fields, 7, num, e.o);
    Aes256Entry(e, num, 8);
    HexEntry(fields, 8, num, e.u);
    Aes256Entry(e, num, 9);
    HexEntry(fields, 9, num, e.oe);
    Aes256Entry(e, num, 10);
    HexEntry(fields, 10, num, e.ue);
    Aes256Entry(e, num, 11);
    HexEntry(fields, 11, num, e.perms);
  }

  /** The dictionary is read back, under each scheme. */
  lemma DictionaryRead(scheme: S.Scheme, e: E.Entries, num: int)
    ensures Readable(Dictionary(scheme, e)) && Meaning(Dictionary(scheme, e), num, None).DictItem?
    ensures SaysScheme(Meaning(Dictionary(scheme, e), num, None).pairs, scheme, e)
  {
    hide MeaningsOf, Readable, Meaning, Dictionary, TextAt, NumberAt, SchemeIn;
    match scheme {
      case Rc4Of40 => Rc4DictionaryRead(e, num);
      case Aes128 =>
        Aes128DictionaryReadable(e, num);
        Aes128SchemeRead(e, num);
        Aes128TextsRead(e, num);
      case Aes256 =>
        Aes256DictionaryReadable(e, num);
        Aes256SchemeRead(e, num);
        Aes256TextsRead(e, num);
    }
  }

  // ------------------------------------------------------------ either password opens the dictionary

  lemma OldKeyFound(h: S.Hashes, pairs: seq<Pair>, user: seq<Byte>, owner: seq<Byte>, docId: seq<Byte>,
                    scheme: S.Scheme, e: E.Entries)
    requires scheme != S.Aes256 && SaysScheme(pairs, scheme, e)
    requires var d := E.PublishedBy(h, user, owner, docId, Revision(scheme), KeyLength(scheme));
             e.o == d.o && e.u == d.u
    ensures var key := E.FileKey(h, E.PadPassword(user), e.o, docId, Revision(scheme), KeyLength(scheme));
            && OldKeyIn(h, pairs, docId, user, false) == Some(key)
            && OldKeyIn(h, pairs, docId, owner, true) == Some(key)
  {
    hide SchemeIn, E.OwnerEntry, E.UserEntry, E.FileKey, E.PadPassword, S.OpenByOwner, S.OpenByUser, TextAt, NumberAt;
    E.EitherPasswordOpens(h, user, owner, docId, Revision(scheme), KeyLength(scheme));
  }

  function Revision(scheme: S.Scheme): nat {
    match scheme
    case Rc4Of40 => 2
    case Aes128 => 4
    case Aes256 => 6
  }

  /** In bytes. */
  function KeyLength(scheme: S.Scheme): (n: nat)
    ensures scheme != S.Aes256 ==> 0 < n <= 16
  {
    match scheme
    case Rc4Of40 => 5
    case Aes128 => 16
    case Aes256 => 32
  }

  /** The published dictionary gives the file key to both passwords. */
  ghost predicate Opens(h: S.Hashes, box: seq<Byte>, dictionary: Value, docId: seq<Byte>, user: seq<Byte>,
                        owner: seq<Byte>, access: Opened)
    requires |box| == 256
  {
    && Readable(dictionary)
    && forall num :: OpensAt(h, box, Meaning(dictionary, num, None), docId, user, owner, access)
  }

  predicate OpensAt(h: S.Hashes, box: seq<Byte>, item: Item, docId: seq<Byte>, user: seq<Byte>, owner: seq<Byte>,
                    access: Opened)
    requires |box| == 256
  {
    && item.DictItem?
    && KeyIn(h, box, item.pairs, docId, user, false) == Some(access)
    && KeyIn(h, box, item.pairs, docId, owner, true) == Some(access)
  }

  lemma OldOpens(h: S.Hashes, box: seq<Byte>, user: seq<Byte>, owner: seq<Byte>, docId: seq<Byte>, scheme: S.Scheme,
                 e: E.Entries)
    requires |box| == 256 && scheme != S.Aes256
    requires var d := E.PublishedBy(h, user, owner, docId, Revision(scheme), KeyLength(scheme));
             e.o == d.o && e.u == d.u
    ensures var key := E.FileKey(h, E.PadPassword(user), e.o, docId, Revision(scheme), KeyLength(scheme));
            Opens(h, box, Dictionary(scheme, e), docId, user, owner, Opened(scheme, key))
  {
    hide Dictionary, Meaning, Readable, OldKeyIn, E.PublishedBy, E.FileKey, E.PadPassword, TextAt, NumberAt, SchemeIn;
    var key := E.FileKey(h, E.PadPassword(user), e.o, docId, Revision(scheme), KeyLength(scheme));
    DictionaryRead(scheme, e, 0);
    forall num
      ensures OpensAt(h, box, Meaning(Dictionary(scheme, e), num, None), docId, user, owner,
                      Opened(scheme, key))
    {
      DictionaryRead(scheme, e, num);
      OldKeyFound(h, Meaning(Dictionary(scheme, e), num, None).pairs, user, owner, docId, scheme, e);
    }
  }

  lemma NewOpens(h: S.Hashes, box: seq<Byte>, user: seq<Byte>, owner: seq<Byte>, docId: seq<Byte>, key: S.Key32,
                 e: E.Entries)
    requires |box| == 256
    requires S.Open256(h, box, user, e.u, e.ue, []) == Some(key)
               && S.Open256(h, box, owner, e.o, e.oe, e.u) == Some(key)
    requires S.Permissions(box, key, e.perms) == Some(E.P)
    ensures Opens(h, box, Dictionary(S.Aes256, e), docId, user, owner, Opened(S.Aes256, key))
  {
    hide Dictionary, Meaning, Readable, S.Open256, S.Permissions, TextAt, NumberAt, SchemeIn;
    DictionaryRead(S.Aes256, e, 0);
    forall num
      ensures OpensAt(h, box, Meaning(Dictionary(S.Aes256, e), num, None), docId, user, owner, Opened(S.Aes256, key))
    {
      DictionaryRead(S.Aes256, e, num);
    }
  }

  /** `Encryption`: its file key and its dictionary. */
  method NewEncryption(h: S.Hashes, box: seq<Byte>, scheme: S.Scheme, user: seq<Byte>, owner: seq<Byte>,
                       docId: seq<Byte>)
    returns (key: seq<Byte>, dictionary: Value)
    requires IsBijection(box)
    ensures S.FitsScheme(scheme, key) && Encodable(dictionary)
    ensures Opens(h, box, dictionary, docId, user, owner, Opened(scheme, key))
  {
    hide Opens, Dictionary, E.PublishedBy, E.OwnerEntry, E.UserEntry, E.FileKey, E.PadPassword, S.Open256,
         S.Permissions;
    var e;
    if scheme == S.Aes256 {
      var seed;
      seed, e := E.Entries256(h, box, user, owner, Ascii("cliora-bp07-aes256"));
      NewOpens(h, box, user, owner, docId, seed, e);
      key := seed;
    } else {
      var o, u;
      o, u, key := E.PasswordEntries(h, user, owner, docId, Revision(scheme), KeyLength(scheme));
      e := E.Entries(u, [], o, [], []);
      OldOpens(h, box, user, owner, docId, scheme, e);
    }
    DictionaryEncodable(scheme, e);
    dictionary := Dictionary(scheme, e);
  }

  lemma DictionaryEncodable(scheme: S.Scheme, e: E.Entries)
    ensures Encodable(Dictionary(scheme, e))
  {
    hide Ascii, Hex, Filters;
    FiltersEncodable(AESV2, 16);
    FiltersEncodable(AESV3, 32);
    AllEncodable(Dictionary(scheme, e).fields);
  }

  lemma FiltersEncodable(method_: seq<Byte>, length: nat)
    ensures Encodable(Filters(method_, length))
  {
    hide Ascii;
    var inner := [Field(CFM, Name(method_)), Field(AUTH_EVENT, Name(DOC_OPEN)), Field(LENGTH, Integer(length))];
    AllEncodable(inner);
    AllEncodable([Field(STDCF, Dict(inner))]);
  }

  lemma {:induction false} AllEncodable(fields: seq<Field>)
    requires forall i :: 0 <= i < |fields| ==> Encodable(fields[i].value)
    ensures EncodableFields(fields)
  {
    hide Encodable;
    if fields != [] {
      AllEncodable(fields[1..]);
    }
  }

  // ------------------------------------------------------------ an encrypted file

  /** The handler that `Encryption` is to `pdf`. */
  function HandlerOf(h: S.Hashes, box: seq<Byte>, scheme: S.Scheme, key: seq<Byte>, dictionary: Value): Handler
    requires |box| == 256 && S.FitsScheme(scheme, key)
  {
    Handler((num: int, data: seq<Byte>) => E.Encrypted(h, box, scheme, key, num, data), dictionary)
  }

  /** A handler that changes nothing: under it a string means exactly its bytes. */
  const EXACT := Handler((num: int, data: seq<Byte>) => Some(data), Unsupported)

  /** Raw bytes are written as they are, also where everything else is encrypted. */
  predicate NoRaw(value: Value)
    decreases value, 0
  {
    match value
    case Raw(_) => false
    case List(items) => NoRawItems(items)
    case Dict(fields) => NoRawFields(fields)
    case _ => true
  }

  predicate NoRawItems(items: seq<Value>)
    decreases items, 1
  {
    items == [] || (NoRaw(items[0]) && NoRawItems(items[1..]))
  }

  predicate NoRawFields(fields: seq<Field>)
    decreases fields, 1
  {
    fields == [] || (NoRaw(fields[0].value) && NoRawFields(fields[1..]))
  }

  /** What was read of an encrypted value decrypts to what was passed in. */
  lemma {:induction false} ValueIsClear(h: S.Hashes, box: seq<Byte>, o: Opened, dictionary: Value, n: nat, value: Value)
    requires IsBijection(box) && S.FitsScheme(o.scheme, o.key) && S.NumberFits(o.scheme, n) && NoRaw(value)
    requires Serialised(value, n, Some(HandlerOf(h, box, o.scheme, o.key, dictionary))).Some?
    ensures Clear(h, box, o, n, Meaning(value, n, Some(HandlerOf(h, box, o.scheme, o.key, dictionary))))
         == Some(Meaning(value, n, Some(EXACT)))
    decreases value, 0
  {
    hide E.Encrypted, S.Decrypted, S.NumberFits, Hex, Ascii, Latin1;
    match value {
      case Text(chars) =>
        var data := Latin1(chars).value;
        E.DecryptionInvertsEncryption(h, box, o.scheme, o.key, n, data);
      case List(items) => ItemsAreClear(h, box, o, dictionary, n, items);
      case Dict(fields) => FieldsAreClear(h, box, o, dictionary, n, fields);
      case _ =>
    }
  }

  lemma {:induction false} ItemsAreClear(h: S.Hashes, box: seq<Byte>, o: Opened, dictionary: Value, n: nat,
                                         items: seq<Value>)
    requires IsBijection(box) && S.FitsScheme(o.scheme, o.key) && S.NumberFits(o.scheme, n) && NoRawItems(items)
    requires SerialisedItems(items, n, Some(HandlerOf(h, box, o.scheme, o.key, dictionary))).Some?
    ensures ClearItems(h, box, o, n, Meanings(items, n, Some(HandlerOf(h, box, o.scheme, o.key, dictionary))))
         == Some(Meanings(items, n, Some(EXACT)))
    decreases items, 0
  {
    hide S.NumberFits, Ascii, Clear, Serialised, Meaning, HandlerOf, NoRaw;
    if items != [] {
      var enc := Some(HandlerOf(h, box, o.scheme, o.key, dictionary));
      if |items| == 1 {
        assert items[1..] == [];
      }
      ValueIsClear(h, box, o, dictionary, n, items[0]);
      ItemsAreClear(h, box, o, dictionary, n, items[1..]);
      assert Meanings(items, n, enc)[1..] == Meanings(items[1..], n, enc);
    }
  }

  lemma {:induction false} FieldsAreClear(h: S.Hashes, box: seq<Byte>, o: Opened, dictionary: Value, n: nat,
                                          fields: seq<Field>)
    requires IsBijection(box) && S.FitsScheme(o.scheme, o.key) && S.NumberFits(o.scheme, n) && NoRawFields(fields)
    requires SerialisedEntries(fields, n, Some(HandlerOf(h, box, o.scheme, o.key, dictionary))).Some?
    ensures ClearPairs(h, box, o, n, MeaningsOf(fields, n, Some(HandlerOf(h, box, o.scheme, o.key, dictionary))))
         == Some(MeaningsOf(fields, n, Some(EXACT)))
    decreases fields, 0
  {
    hide S.NumberFits, Ascii, Clear, Serialised, Meaning, HandlerOf, NoRaw;
    if fields != [] {
      var enc := Some(HandlerOf(h, box, o.scheme, o.key, dictionary));
      if |fields| == 1 {
        assert fields[1..] == [];
      }
      ValueIsClear(h, box, o, dictionary, n, fields[0].value);
      FieldsAreClear(h, box, o, dictionary, n, fields[1..]);
      assert MeaningsOf(fields, n, enc)[1..] == MeaningsOf(fields[1..], n, enc);
    }
  }

  /** A reader that has the password opens the file. */
  lemma FileOpens(h: S.Hashes, box: seq<Byte>, objects: seq<Object>, root: int, access: Opened, dictionary: Value,
                  docId: seq<Byte>, user: seq<Byte>, owner: seq<Byte>, file: seq<Byte>)
    requires |box| == 256 && S.FitsScheme(access.scheme, access.key)
    requires PdfBytes(objects, root, Some(HandlerOf(h, box, access.scheme, access.key, dictionary)), docId)
               == Some(file)
    requires Fits(file) && Opens(h, box, dictionary, docId, user, owner, access)
    ensures Open(h, box, file, user, false) == Some(access) && Open(h, box, file, owner, true) == Some(access)
  {
    hide TrailerIn, ObjectIn, PdfBytes, Meaning, Readable, KeyIn, Find, E.Encrypted;
    var enc := Some(HandlerOf(h, box, access.scheme, access.key, dictionary));
    TrailerIsRead(objects, root, enc, docId);
    EncryptionIsRead(objects, root, enc, docId);
    var item := Meaning(dictionary, |objects| + 1, None);
    assert OpensAt(h, box, item, docId, user, owner, access);
  }

  /** What a reader with this password recovers: where to start, the data of every stream,
      and every value whose names can be told apart, its strings exactly. */
  ghost predicate Recovers(h: S.Hashes, box: seq<Byte>, file: seq<Byte>, password: seq<Byte>, asOwner: bool,
                           scheme: S.Scheme, objects: seq<Object>, root: int)
    requires |box| == 256
  {
    && TrailerIn(file).Some?
    && Find(TrailerIn(file).value, ROOT) == Some(Reference(root))
    && forall i :: 0 <= i < |objects| && ReadableObject(objects[i]) ==>
         RecoversObject(h, box, file, password, asOwner, scheme, objects[i], i + 1)
  }

  predicate RecoversObject(h: S.Hashes, box: seq<Byte>, file: seq<Byte>, password: seq<Byte>, asOwner: bool,
                           scheme: S.Scheme, object_: Object, n: nat)
    requires |box| == 256
  {
    match object_
    case Stream(_, data) => StreamIn(h, box, file, password, asOwner, n) == Some(data)
    case Plain(value) =>
      NoRaw(value) && S.NumberFits(scheme, n)
      ==> ValueIn(h, box, file, password, asOwner, n) == Some(Meaning(value, n, Some(EXACT)))
  }

  lemma ObjectRecovered(h: S.Hashes, box: seq<Byte>, objects: seq<Object>, root: int, access: Opened, dictionary: Value,
                        docId: seq<Byte>, file: seq<Byte>, password: seq<Byte>, asOwner: bool, n: nat)
    requires IsBijection(box) && S.FitsScheme(access.scheme, access.key)
    requires PdfBytes(objects, root, Some(HandlerOf(h, box, access.scheme, access.key, dictionary)), docId)
               == Some(file)
    requires Fits(file) && Open(h, box, file, password, asOwner) == Some(access)
    requires 1 <= n <= |objects| && ReadableObject(objects[n - 1])
    ensures RecoversObject(h, box, file, password, asOwner, access.scheme, objects[n - 1], n)
  {
    hide ObjectIn, PdfBytes, Meaning, MeaningsOf, Readable, ReadableFields, Open, Find, E.Encrypted, S.Decrypted, Clear,
      NoRaw, S.NumberFits;
    var enc := Some(HandlerOf(h, box, access.scheme, access.key, dictionary));
    EveryObjectIsRead(objects, root, enc, docId, n);
    match objects[n - 1] {
      case Stream(_, data) =>
        E.DecryptionInvertsEncryption(h, box, access.scheme, access.key, n, data);
      case Plain(value) =>
        if NoRaw(value) && S.NumberFits(access.scheme, n) {
          ValueWasWritten(objects, root, enc, docId, n);
          ValueIsClear(h, box, access, dictionary, n, value);
        }
    }
  }

  lemma ValueWasWritten(objects: seq<Object>, root: int, enc: Option<Handler>, docId: seq<Byte>, n: nat)
    requires PdfBytes(objects, root, enc, docId).Some? && Fits(PdfBytes(objects, root, enc, docId).value)
    requires 1 <= n <= |objects| && objects[n - 1].Plain?
    ensures Serialised(objects[n - 1].value, n, enc).Some?
  {
    hide *;
    var all, bodies := Written(objects, root, enc, docId);
    AllStartsWith(objects, enc, all);
    EveryObjectIsReached(objects, root, enc, docId, all, bodies, n);
    HandlerOfObject(enc, |objects|, n);
    PlainWritten(objects[n - 1], n, enc);
  }

  lemma PlainWritten(object_: Object, n: nat, enc: Option<Handler>)
    requires object_.Plain? && Body(object_, n, enc).Some?
    ensures Serialised(object_.value, n, enc).Some?
  {
    hide Serialised;
  }

  /** The main result: in a file encrypted for two passwords, either of them, and nothing
      else, recovers everything that was put in. */
  lemma EitherPasswordRecovers(h: S.Hashes, box: seq<Byte>, objects: seq<Object>, root: int, access: Opened,
                               dictionary: Value, docId: seq<Byte>, user: seq<Byte>, owner: seq<Byte>, file: seq<Byte>)
    requires IsBijection(box) && S.FitsScheme(access.scheme, access.key)
    requires PdfBytes(objects, root, Some(HandlerOf(h, box, access.scheme, access.key, dictionary)), docId)
               == Some(file)
    requires Fits(file) && Opens(h, box, dictionary, docId, user, owner, access)
    ensures Recovers(h, box, file, user, false, access.scheme, objects, root)
    ensures Recovers(h, box, file, owner, true, access.scheme, objects, root)
  {
    hide PdfBytes, Find, Open, Opens, RecoversObject, ReadableObject, TrailerIn, E.Encrypted;
    TrailerIsRead(objects, root, Some(HandlerOf(h, box, access.scheme, access.key, dictionary)), docId);
    FileOpens(h, box, objects, root, access, dictionary, docId, user, owner, file);
    forall i | 0 <= i < |objects| && ReadableObject(objects[i])
      ensures RecoversObject(h, box, file, user, false, access.scheme, objects[i], i + 1)
      ensures RecoversObject(h, box, file, owner, true, access.scheme, objects[i], i + 1)
    {
      ObjectRecovered(h, box, objects, root, access, dictionary, docId, file, user, false, i + 1);
      ObjectRecovered(h, box, objects, root, access, dictionary, docId, file, owner, true, i + 1);
    }
  }

  lemma EncryptedRaisesIff(h: S.Hashes, box: seq<Byte>, objects: seq<Object>, root: int, access: Opened,
                           dictionary: Value, docId: seq<Byte>)
    requires IsBijection(box) && S.FitsScheme(access.scheme, access.key) && Encodable(dictionary)
    ensures PdfBytes(objects, root, Some(HandlerOf(h, box, access.scheme, access.key, dictionary)), docId).None?
        <==> objects == []
             || exists i :: 0 <= i < |objects| && !Writable(objects[i], true, S.NumberFits(access.scheme, i + 1))
  {
    hide PdfBytes, E.Encrypted, Writable, S.Decrypted, S.NumberFits, Encodable;
    var enc := Some(HandlerOf(h, box, access.scheme, access.key, dictionary));
    var fits := (n: int) => S.NumberFits(access.scheme, n);
    forall n, data | 1 <= n <= |objects|
      ensures enc.value.encrypt(n, data).Some? == fits(n)
    {
      E.DecryptionInvertsEncryption(h, box, access.scheme, access.key, n, data);
    }
    RaisesIff(objects, root, enc, docId, fits);
  }

  /** The last two statements of `encrypted_pdf`. */
  method EncryptedPdf(h: S.Hashes, box: seq<Byte>, objects: seq<Object>, root: int, scheme: S.Scheme,
                      user: seq<Byte>, owner: seq<Byte>, docId: seq<Byte>) returns (r: Option<seq<Byte>>)
    requires IsBijection(box)
    ensures r.None?
        <==> objects == [] || exists i :: 0 <= i < |objects| && !Writable(objects[i], true, S.NumberFits(scheme, i + 1))
    ensures r.Some? && Fits(r.value) ==> Recovers(h, box, r.value, user, false, scheme, objects, root)
    ensures r.Some? && Fits(r.value) ==> Recovers(h, box, r.value, owner, true, scheme, objects, root)
  {
    hide Opens, Recovers, PdfBytes, E.Encrypted;
    var key, dictionary := NewEncryption(h, box, scheme, user, owner, docId);
    r := Pdf(objects, root, Some(HandlerOf(h, box, scheme, key, dictionary)), docId);
    EncryptedRaisesIff(h, box, objects, root, Opened(scheme, key), dictionary, docId);
    if r.Some? && Fits(r.value) {
      EitherPasswordRecovers(h, box, objects, root, Opened(scheme, key), dictionary, docId, user, owner, r.value);
    }
  }
}
