/** The paging cursor (`encode_cursor`, `decode_cursor`): base64url without its
    padding, which is put back exactly (section 5 of RFC 4648). */
module Base64Cursor {
  import opened Nums

  // ------------------------------------------------------------ the alphabet

  /** The character for a 6-bit value. */
  function Letter(v: nat): (c: char)
    requires v < 64
    ensures c != '='
  {
    if v < 26 then 'A' + v as char
    else if v < 52 then 'a' + (v - 26) as char
    else if v < 62 then '0' + (v - 52) as char
    else if v == 62 then '-' else '_'
  }

  /** The value of a character, None for one outside the alphabet. The decoder
      translates the two url-safe characters first, and so knows all four. */
  function LetterValue(c: char): (v: Option<nat>)
    ensures v.Some? ==> v.value < 64
  {
    if 'A' <= c <= 'Z' then Some((c - 'A') as nat)
    else if 'a' <= c <= 'z' then Some((c - 'a') as nat + 26)
    else if '0' <= c <= '9' then Some((c - '0') as nat + 52)
    else if c == '-' || c == '+' then Some(62)
    else if c == '_' || c == '/' then Some(63)
    else None
  }

  lemma LetterReads(v: nat)
    requires v < 64
    ensures LetterValue(Letter(v)) == Some(v)
  {
  }

  // ------------------------------------------------------------ encoding

  function Encode(data: seq<Byte>): string {
    if data == [] then ""
    else if |data| == 1 then [Letter(data[0] / 4), Letter(data[0] % 4 * 16)] + "=="
    else if |data| == 2 then
      [Letter(data[0] / 4), Letter(data[0] % 4 * 16 + data[1] / 16), Letter(data[1] % 16 * 4)] + "="
    else Group(data[0], data[1], data[2]) + Encode(data[3..])
  }

  function Group(a: Byte, b: Byte, c: Byte): (s: string)
    ensures |s| == 4
  {
    [Letter(a / 4), Letter(a % 4 * 16 + b / 16), Letter(b % 16 * 4 + c / 64), Letter(c % 64)]
  }

  /** Three bytes are one number of 24 bits, and four letters are its digits to the base
      64 (section 4 of RFC 4648); what is short of three bytes is filled up with zeros. */
  lemma GroupIsNumber(a: Byte, b: Byte, c: Byte)
    ensures var n: nat := 65536 * a + 256 * b + c;
            && Group(a, b, c) == [Letter(n / 262144), Letter(n / 4096 % 64), Letter(n / 64 % 64), Letter(n % 64)]
            && Encode([a, b, c]) == Group(a, b, c)
            && Encode([a, b]) == Group(a, b, 0)[..3] + "="
            && Encode([a]) == Group(a, 0, 0)[..2] + "=="
  {
    assert [a, b, c][3..] == [] && Encode([]) == "";
    FirstDigits(a, b, c);
    LastDigits(a, b, c);
    hide Letter;
  }

  lemma FirstDigits(a: Byte, b: Byte, c: Byte)
    ensures var n: nat := 65536 * a + 256 * b + c; n / 262144 == a / 4 && n / 4096 % 64 == a % 4 * 16 + b / 16
  {
    var n: nat := 65536 * a + 256 * b + c;
    var high := 16 * a + b / 16;
    assert n == 4096 * high + 256 * (b % 16) + c;
    assert n / 4096 == high;
    assert high == 64 * (a / 4) + (a % 4 * 16 + b / 16);
  }

  lemma LastDigits(a: Byte, b: Byte, c: Byte)
    ensures var n: nat := 65536 * a + 256 * b + c; n / 64 % 64 == b % 16 * 4 + c / 64 && n % 64 == c % 64
  {
    var n: nat := 65536 * a + 256 * b + c;
    assert n == 64 * (1024 * a + 4 * b + c / 64) + c % 64;
    assert n / 64 == 64 * (16 * a + b / 16) + (b % 16 * 4 + c / 64);
  }

  // ------------------------------------------------------------ decoding

  /** The decoder's position in a group of four, its bits in hand, its padding
      characters in a row, and its output. */
  datatype Decoder = Decoder(position: nat, left: nat, pads: nat, out: seq<Byte>)

  predicate Sensible(d: Decoder) {
    d.position < 4
    && d.left < (match d.position case 0 => 1 case 1 => 64 case 2 => 16 case _ => 4)
  }

  function Fed(d: Decoder, v: nat): (r: Decoder)
    requires Sensible(d) && v < 64
    ensures Sensible(r)
  {
    match d.position
    case 0 => Decoder(1, v, 0, d.out)
    case 1 => Decoder(2, v % 16, 0, d.out + [(d.left * 4 + v / 16) as int])
    case 2 => Decoder(3, v % 4, 0, d.out + [(d.left * 16 + v / 4) as int])
    case _ => Decoder(0, 0, 0, d.out + [(d.left * 64 + v) as int])
  }

  /** The lenient decoder: characters outside the alphabet are skipped, padding
      that completes a group ends the input; None stands for binascii.Error. */
  function DecodeFrom(d: Decoder, s: string): Option<seq<Byte>>
    requires Sensible(d)
    decreases |s|
  {
    if s == "" then if d.position == 0 then Some(d.out) else None
    else if s[0] == '=' then
      if d.position >= 2 && d.position + d.pads + 1 >= 4 then Some(d.out)
      else DecodeFrom(if d.position >= 2 then d.(pads := d.pads + 1) else d, s[1..])
    else
      var v := LetterValue(s[0]);
      DecodeFrom(if v.Some? then Fed(d, v.value) else d, s[1..])
  }

  function Decode(s: string): Option<seq<Byte>> {
    DecodeFrom(Decoder(0, 0, 0, []), s)
  }

  lemma OneLetter(d: Decoder, v: nat, rest: string)
    requires Sensible(d) && v < 64
    ensures DecodeFrom(d, [Letter(v)] + rest) == DecodeFrom(Fed(d, v), rest)
  {
    LetterReads(v);
    hide Letter, LetterValue;
    assert ([Letter(v)] + rest)[1..] == rest;
  }

  lemma OneGroup(out: seq<Byte>, a: Byte, b: Byte, c: Byte, rest: string)
    ensures DecodeFrom(Decoder(0, 0, 0, out), Group(a, b, c) + rest)
              == DecodeFrom(Decoder(0, 0, 0, out + [a, b, c]), rest)
  {
    hide Letter, LetterValue, DecodeFrom;
    var v0, v1: nat, v2: nat, v3 := a / 4, a % 4 * 16 + b / 16, b % 16 * 4 + c / 64, c % 64;
    assert Group(a, b, c) + rest == [Letter(v0)] + ([Letter(v1)] + ([Letter(v2)] + ([Letter(v3)] + rest)));
    OneLetter(Decoder(0, 0, 0, out), v0, [Letter(v1)] + ([Letter(v2)] + ([Letter(v3)] + rest)));
    var d1 := Decoder(1, v0, 0, out);
    OneLetter(d1, v1, [Letter(v2)] + ([Letter(v3)] + rest));
    Joined(a, b);
    var d2 := Decoder(2, b / 16, 0, out + [a]);
    assert Fed(d1, v1) == d2;
    OneLetter(d2, v2, [Letter(v3)] + rest);
    Joined2(b, c);
    var d3 := Decoder(3, c / 64, 0, out + [a] + [b]);
    assert Fed(d2, v2) == d3;
    OneLetter(d3, v3, rest);
    assert Fed(d3, v3).out == out + [a] + [b] + [c] == out + [a, b, c];
  }

  lemma Joined(a: Byte, b: Byte)
    ensures (a % 4 * 16 + b / 16) / 16 == a % 4 && (a % 4 * 16 + b / 16) % 16 == b / 16
    ensures a / 4 * 4 + a % 4 == a
  {
  }

  lemma Joined2(b: Byte, c: Byte)
    ensures (b % 16 * 4 + c / 64) / 4 == b % 16 && (b % 16 * 4 + c / 64) % 4 == c / 64
    ensures b / 16 * 16 + b % 16 == b && c / 64 * 64 + c % 64 == c
  {
  }

  /** The decoder inverts the encoder, whatever it has put out before. */
  lemma {:induction false} DecodesFrom(out: seq<Byte>, data: seq<Byte>)
    ensures DecodeFrom(Decoder(0, 0, 0, out), Encode(data)) == Some(out + data)
    decreases |data|
  {
    hide Group, DecodeFrom, Letter;
    if data == [] {
      NothingLeft(out);
      assert out + data == out;
    } else if |data| == 1 {
      OneLeft(out, data[0]);
      assert data == [data[0]];
    } else if |data| == 2 {
      TwoLeft(out, data[0], data[1]);
      assert data == [data[0], data[1]];
    } else {
      OneGroup(out, data[0], data[1], data[2], Encode(data[3..]));
      DecodesFrom(out + [data[0], data[1], data[2]], data[3..]);
      assert out + [data[0], data[1], data[2]] + data[3..] == out + data;
    }
  }

  lemma NothingLeft(out: seq<Byte>)
    ensures DecodeFrom(Decoder(0, 0, 0, out), "") == Some(out)
  {
  }

  lemma OneLeft(out: seq<Byte>, a: Byte)
    ensures DecodeFrom(Decoder(0, 0, 0, out), [Letter(a / 4), Letter(a % 4 * 16)] + "==") == Some(out + [a])
  {
    hide Letter, LetterValue;
    assert [Letter(a / 4), Letter(a % 4 * 16)] + "==" == [Letter(a / 4)] + ([Letter(a % 4 * 16)] + "==");
    OneLetter(Decoder(0, 0, 0, out), a / 4, [Letter(a % 4 * 16)] + "==");
    OneLetter(Decoder(1, a / 4, 0, out), a % 4 * 16, "==");
    assert Fed(Decoder(1, a / 4, 0, out), a % 4 * 16) == Decoder(2, 0, 0, out + [a]);
    assert "=="[1..] == "=";
  }

  lemma TwoLeft(out: seq<Byte>, a: Byte, b: Byte)
    ensures DecodeFrom(Decoder(0, 0, 0, out),
                       [Letter(a / 4), Letter(a % 4 * 16 + b / 16), Letter(b % 16 * 4)] + "=") == Some(out + [a, b])
  {
    hide Letter, LetterValue;
    var v1: nat, v2 := a % 4 * 16 + b / 16, b % 16 * 4;
    assert [Letter(a / 4), Letter(v1), Letter(v2)] + "=" == [Letter(a / 4)] + ([Letter(v1)] + ([Letter(v2)] + "="));
    OneLetter(Decoder(0, 0, 0, out), a / 4, [Letter(v1)] + ([Letter(v2)] + "="));
    Joined(a, b);
    OneLetter(Decoder(1, a / 4, 0, out), v1, [Letter(v2)] + "=");
    assert Fed(Decoder(1, a / 4, 0, out), v1) == Decoder(2, b / 16, 0, out + [a]);
    OneLetter(Decoder(2, b / 16, 0, out + [a]), v2, "=");
    Joined2(b, 0);
    assert Fed(Decoder(2, b / 16, 0, out + [a]), v2) == Decoder(3, 0, 0, out + [a] + [b]);
    assert out + [a] + [b] == out + [a, b];
  }

  // ------------------------------------------------------------ the padding

  /** `rstrip("=")`. */
  function Stripped(s: string): string {
    if s != "" && s[|s| - 1] == '=' then Stripped(s[..|s| - 1]) else s
  }

  /** `cursor + "=" * (-len(cursor) % 4)`. */
  function Padded(s: string): string {
    s + seq((4 - |s| % 4) % 4, _ => '=')
  }

  function Pads(k: nat): (r: string)
    ensures |r| == k
  {
    seq(k, _ => '=')
  }

  /** An encoding without its padding characters, of which there are at most two. */
  function Body(data: seq<Byte>): (r: string)
    ensures '=' !in r
    decreases |data|
  {
    if data == [] then ""
    else if |data| == 1 then [Letter(data[0] / 4), Letter(data[0] % 4 * 16)]
    else if |data| == 2 then
      [Letter(data[0] / 4), Letter(data[0] % 4 * 16 + data[1] / 16), Letter(data[1] % 16 * 4)]
    else Group(data[0], data[1], data[2]) + Body(data[3..])
  }

  function PadCount(n: nat): (k: nat)
    ensures k <= 2
  {
    if n % 3 == 1 then 2 else if n % 3 == 2 then 1 else 0
  }

  lemma {:induction false} EncodingShape(data: seq<Byte>)
    ensures Encode(data) == Body(data) + Pads(PadCount(|data|))
    ensures |Encode(data)| % 4 == 0
    decreases |data|
  {
    hide Letter;
    if |data| == 1 {
      assert Pads(2) == "==";
    } else if |data| == 2 {
      assert Pads(1) == "=";
    } else if |data| >= 3 {
      hide Group, Pads;
      EncodingShape(data[3..]);
      var g, rest := Group(data[0], data[1], data[2]), data[3..];
      assert g + (Body(rest) + Pads(PadCount(|rest|))) == g + Body(rest) + Pads(PadCount(|rest|));
    }
  }

  lemma {:induction false} StrippedTail(body: string, k: nat)
    requires '=' !in body
    ensures Stripped(body + Pads(k)) == body
  {
    var s := body + Pads(k);
    if k == 0 {
      assert s == body;
    } else {
      StrippedTail(body, k - 1);
      assert s[..|s| - 1] == body + Pads(k - 1);
    }
  }

  /** What `decode_cursor` puts back is what `encode_cursor` took off. */
  lemma PaddingRestored(data: seq<Byte>)
    ensures Padded(Stripped(Encode(data))) == Encode(data)
  {
    hide Encode, Stripped, Body;
    var body, k := Body(data), PadCount(|data|);
    EncodingShape(data);
    StrippedTail(body, k);
    assert |body| + k == |Encode(data)|;
    assert (4 - |body| % 4) % 4 == k;
  }

  // ------------------------------------------------------------ the cursor

  /** How a cursor's two fields become a JSON payload and back; `parse` is None
      where the source answers 422. */
  datatype Json<!C(==)> = Json(render: C -> seq<Byte>, parse: seq<Byte> -> Option<C>)

  function EncodeCursor<C>(json: Json<C>, cursor: C): string {
    Stripped(Encode(json.render(cursor)))
  }

  function DecodeCursor<C>(json: Json<C>, text: string): Option<C> {
    var payload := Decode(Padded(text));
    if payload.None? then None else json.parse(payload.value)
  }

  lemma CursorRoundTrip<C>(json: Json<C>, cursor: C)
    requires json.parse(json.render(cursor)) == Some(cursor)
    ensures DecodeCursor(json, EncodeCursor(json, cursor)) == Some(cursor)
  {
    var data := json.render(cursor);
    PaddingRestored(data);
    DecodesFrom([], data);
    assert [] + data == data;
  }
}
