/** One binary preview (`stream_binary_preview`): which bytes a response body
    carries, and what its outcome label says about them. */
module PreviewStream {
  import opened Nums

  const CHUNK := 524288
  const MAX_CHUNKS := 32
  const MAX_SIZE := CHUNK * MAX_CHUNKS
  const MAX_SIDE := 8192

  // ------------------------------------------------------------ accepting an opened handle

  datatype Json = Str(text: string) | Num(number: int) | Null | Other

  /** The fields of a `filesystem.preview_opened` payload; Null when absent. */
  datatype Opened = Opened(previewId: Json, mime: Json, kind: Json, size: Json, chunkSize: Json, chunkCount: Json,
                           width: Json, height: Json)

  datatype Handle = Handle(previewId: string, kind: string, size: int, chunkCount: int, width: Option<int>,
                           height: Option<int>)

  function KindOf(mime: Json): Option<string> {
    if mime in [Str("image/png"), Str("image/jpeg"), Str("image/webp"), Str("image/gif")] then Some("image")
    else if mime == Str("application/pdf") then Some("pdf")
    else None
  }

  function CeilChunks(size: int): int { (size + CHUNK - 1) / CHUNK }

  predicate Side(v: Json) { v.Num? && 1 <= v.number <= MAX_SIDE }

  /** `_accept_opened`; None stands for the 502 it raises. */
  function Accept(p: Opened): Option<Handle> {
    var kind := KindOf(p.mime);
    if && p.previewId.Str? && |p.previewId.text| == 26
       && kind.Some? && p.kind == Str(kind.value)
       && p.size.Num? && 1 <= p.size.number <= MAX_SIZE
       && p.chunkSize == Num(CHUNK)
       && p.chunkCount == Num(if CeilChunks(p.size.number) > 1 then CeilChunks(p.size.number) else 1)
       && (kind.value == "image" ==> Side(p.width) && Side(p.height))
       && (kind.value == "pdf" ==> p.width == Null && p.height == Null)
    then
      var image := kind.value == "image";
      Some(Handle(p.previewId.text, kind.value, p.size.number, p.chunkCount.number,
                  if image then Some(p.width.number) else None, if image then Some(p.height.number) else None))
    else None
  }

  /** A handle whose chunks tile its size. */
  predicate Tiled(h: Handle) {
    1 <= h.chunkCount <= MAX_CHUNKS && 1 <= h.size - CHUNK * (h.chunkCount - 1) <= CHUNK
  }

  lemma AcceptedIsTiled(p: Opened)
    ensures Accept(p).Some? ==> Tiled(Accept(p).value)
    ensures Accept(p).Some? ==> (Accept(p).value.width.Some? <==> Accept(p).value.kind == "image")
    ensures Accept(p).Some? ==> |Accept(p).value.previewId| == 26
  {
  }

  /** A handle as the daemon may open it: images have both sides, documents neither. */
  predicate IsHandle(h: Handle) {
    && |h.previewId| == 26 && Tiled(h)
    && if h.kind == "image" then
         h.width.Some? && h.height.Some? && 1 <= h.width.value <= MAX_SIDE && 1 <= h.height.value <= MAX_SIDE
       else h.kind == "pdf" && h.width.None? && h.height.None?
  }

  /** The types a preview may have, and what kind of preview they are. */
  const KINDS: map<string, string> :=
    map["image/png" := "image", "image/jpeg" := "image", "image/webp" := "image", "image/gif" := "image",
        "application/pdf" := "pdf"]

  /** The payload with which a daemon announces a handle. */
  function Announced(h: Handle, mime: string): Opened {
    var side := (v: Option<int>) => if v.None? then Null else Num(v.value);
    Opened(Str(h.previewId), Str(mime), Str(h.kind), Num(h.size), Num(CHUNK), Num(h.chunkCount), side(h.width),
           side(h.height))
  }

  /** Exactly the announcements of such handles are accepted, and as what they announce. */
  lemma AcceptedIff(p: Opened)
    ensures forall h, mime :: IsHandle(h) && mime in KINDS && KINDS[mime] == h.kind && p == Announced(h, mime) ==>
              Accept(p) == Some(h)
    ensures Accept(p).Some? ==>
              && p.mime.Str? && p.mime.text in KINDS && IsHandle(Accept(p).value)
              && KINDS[p.mime.text] == Accept(p).value.kind && p == Announced(Accept(p).value, p.mime.text)
  {
    assert "image" != "pdf" by { assert "image"[0] != "pdf"[0]; }
    TypesOf(p.mime);
    hide KindOf;
  }

  lemma TypesOf(mime: Json)
    ensures KindOf(mime) == if mime.Str? && mime.text in KINDS then Some(KINDS[mime.text]) else None
  {
  }

  // ------------------------------------------------------------ chunks

  function Expected(h: Handle, index: int): int {
    if index == h.chunkCount - 1 then h.size - CHUNK * index else CHUNK
  }

  /** The bytes of the first `k` chunks. */
  function Extent(h: Handle, k: nat): int {
    if k == 0 then 0 else Extent(h, k - 1) + Expected(h, k - 1)
  }

  lemma {:induction false} ExtentIs(h: Handle, k: nat)
    requires Tiled(h) && k <= h.chunkCount
    ensures Extent(h, k) == if k == h.chunkCount then h.size else CHUNK * k
    ensures forall i :: 0 <= i < h.chunkCount ==> 1 <= Expected(h, i) <= CHUNK
  {
    if k > 0 {
      ExtentIs(h, k - 1);
    }
  }

  /** A daemon's answer: a preview_data frame, with its fields, or another frame,
      with its error code if it is an error. */
  datatype Message = Data(previewId: Json, index: Json, data: string) | Another(error: Option<string>)

  /** `_preview_chunk`; `decode` is strict base64. */
  function Chunk(decode: string -> Option<seq<Byte>>, m: Message, h: Handle, index: int): Option<seq<Byte>> {
    if !m.Data? || m.previewId != Str(h.previewId) || m.index != Num(index) then None
    else
      var data := decode(m.data);
      if data.Some? && |data.value| == Expected(h, index) then data else None
  }

  function ChunkOutcome(m: Message): string {
    if m.Another? && m.error.Some? then m.error.value else "INTERNAL_ERROR"
  }

  // ------------------------------------------------------------ one stream

  /** What request number `index` meets. */
  datatype Answer = Answered(message: Message) | ApiError(code: string) | Cancelled | Raised

  /** One turn of the loop: whether the budget is spent, what the request meets,
      and whether the generator is closed at its yield. */
  datatype Turn = Turn(expired: bool, answer: Answer, closed: bool)

  /** How the generator ended: by itself or with an exception going through. */
  datatype Ending = Ending(outcome: string, raised: bool, complete: bool)

  /** What the turns from `index` on make of a stream: its chunks and its ending. */
  function Streamed(decode: string -> Option<seq<Byte>>, h: Handle, turns: seq<Turn>, index: nat)
    : (seq<seq<Byte>>, Ending)
    requires index <= h.chunkCount <= |turns|
    decreases h.chunkCount - index
  {
    if index == h.chunkCount then ([], Ending("OK", false, true))
    else if turns[index].expired then ([], Ending("REQUEST_TIMEOUT", false, false))
    else
      match turns[index].answer
      case ApiError(code) => ([], Ending(code, false, false))
      case Cancelled => ([], Ending("CANCELLED", true, false))
      case Raised => ([], Ending("OK", true, false))
      case Answered(message) =>
        var data := Chunk(decode, message, h, index);
        if data.None? then ([], Ending(ChunkOutcome(message), false, false))
        else if turns[index].closed then ([data.value], Ending("CANCELLED", true, false))
        else
          var rest := Streamed(decode, h, turns, index + 1);
          ([data.value] + rest.0, rest.1)
  }

  function Concat(chunks: seq<seq<Byte>>): seq<Byte> {
    if chunks == [] then [] else chunks[0] + Concat(chunks[1..])
  }

  lemma {:induction false} ConcatSnoc(chunks: seq<seq<Byte>>, chunk: seq<Byte>)
    ensures Concat(chunks + [chunk]) == Concat(chunks) + chunk
  {
    if chunks == [] {
      assert [chunk][1..] == [];
    } else {
      ConcatSnoc(chunks[1..], chunk);
      assert (chunks + [chunk])[1..] == chunks[1..] + [chunk];
    }
  }

  /** Whatever data the node sends for this preview, it is the chunk of its snapshot that
      it says it is. */
  predicate Honest(decode: string -> Option<seq<Byte>>, h: Handle, turns: seq<Turn>, snapshot: seq<Byte>)
    requires Tiled(h) && |snapshot| == h.size
  {
    forall i :: 0 <= i < |turns| ==> IsSlice(decode, h, turns[i].answer, snapshot)
  }

  predicate IsSlice(decode: string -> Option<seq<Byte>>, h: Handle, answer: Answer, snapshot: seq<Byte>)
    requires Tiled(h) && |snapshot| == h.size
  {
    match answer
    case Answered(Data(Str(id), Num(j), data)) =>
      id == h.previewId && decode(data).Some? ==> 0 <= j < h.chunkCount && decode(data).value == Slice(h, snapshot, j)
    case _ => true
  }

  /** Chunk `j` of the snapshot. */
  function Slice(h: Handle, snapshot: seq<Byte>, j: nat): seq<Byte>
    requires Tiled(h) && |snapshot| == h.size && j < h.chunkCount
  {
    snapshot[CHUNK * j..if j == h.chunkCount - 1 then h.size else CHUNK * (j + 1)]
  }

  /** Every stream yields a prefix of the snapshot, the whole of it when the loop
      ran out, and never more bytes than promised. */
  lemma {:induction false} StreamIsPrefix(decode: string -> Option<seq<Byte>>, h: Handle, turns: seq<Turn>,
                                          snapshot: seq<Byte>, index: nat)
    requires Tiled(h) && |snapshot| == h.size && index <= h.chunkCount <= |turns|
    requires Honest(decode, h, turns, snapshot)
    ensures 0 <= Extent(h, index) <= h.size
    ensures var r := Streamed(decode, h, turns, index);
            Concat(r.0) <= snapshot[Extent(h, index)..]
            && (r.1.complete ==> Concat(r.0) == snapshot[Extent(h, index)..])
    decreases h.chunkCount - index
  {
    ExtentIs(h, index);
    if index < h.chunkCount && !turns[index].expired && turns[index].answer.Answered? {
      var data := Chunk(decode, turns[index].answer.message, h, index);
      if data.Some? {
        ExtentIs(h, index + 1);
        StreamIsPrefix(decode, h, turns, snapshot, index + 1);
        assert IsSlice(decode, h, turns[index].answer, snapshot);
        var rest := snapshot[Extent(h, index)..];
        assert rest == data.value + snapshot[Extent(h, index + 1)..];
        var later := Streamed(decode, h, turns, index + 1).0;
        assert ([data.value] + later)[1..] == later;
        assert Concat([data.value] + later) == data.value + Concat(later);
        assert [data.value][1..] == [] && Concat([data.value]) == data.value;
      }
    }
  }

  /** Whatever the node sends, the number of bytes is right. */
  lemma {:induction false} StreamLength(decode: string -> Option<seq<Byte>>, h: Handle, turns: seq<Turn>, index: nat)
    requires Tiled(h) && index <= h.chunkCount <= |turns|
    ensures var r := Streamed(decode, h, turns, index);
            Extent(h, index) + |Concat(r.0)| <= h.size
            && (r.1.complete ==> Extent(h, index) + |Concat(r.0)| == h.size)
    decreases h.chunkCount - index
  {
    ExtentIs(h, index);
    if index < h.chunkCount && !turns[index].expired && turns[index].answer.Answered? {
      var data := Chunk(decode, turns[index].answer.message, h, index);
      if data.Some? {
        ExtentIs(h, index + 1);
        StreamLength(decode, h, turns, index + 1);
        var later := Streamed(decode, h, turns, index + 1).0;
        assert ([data.value] + later)[1..] == later;
        assert [data.value][1..] == [] && Concat([data.value]) == data.value;
      }
    }
  }

  /** Every turn in time, unclosed, and answered with the chunk that was asked for. */
  predicate Served(decode: string -> Option<seq<Byte>>, h: Handle, turns: seq<Turn>, snapshot: seq<Byte>)
    requires Tiled(h) && |snapshot| == h.size && h.chunkCount <= |turns|
  {
    forall i :: 0 <= i < h.chunkCount ==>
      && !turns[i].expired && !turns[i].closed && turns[i].answer.Answered?
      && turns[i].answer.message.Data?
      && turns[i].answer.message.previewId == Str(h.previewId) && turns[i].answer.message.index == Num(i)
      && decode(turns[i].answer.message.data) == Some(Slice(h, snapshot, i))
  }

  /** Then the stream is the snapshot, and says so. */
  lemma {:induction false} ServedIsWhole(decode: string -> Option<seq<Byte>>, h: Handle, turns: seq<Turn>,
                                         snapshot: seq<Byte>, index: nat)
    requires Tiled(h) && |snapshot| == h.size && index <= h.chunkCount <= |turns|
    requires Served(decode, h, turns, snapshot)
    ensures 0 <= Extent(h, index) <= h.size
    ensures Streamed(decode, h, turns, index).1 == Ending("OK", false, true)
    ensures Concat(Streamed(decode, h, turns, index).0) == snapshot[Extent(h, index)..]
    decreases h.chunkCount - index
  {
    ExtentIs(h, index);
    if index < h.chunkCount {
      ExtentIs(h, index + 1);
      ServedIsWhole(decode, h, turns, snapshot, index + 1);
      var slice, later := Slice(h, snapshot, index), Streamed(decode, h, turns, index + 1).0;
      assert snapshot[Extent(h, index)..] == slice + snapshot[Extent(h, index + 1)..];
      assert ([slice] + later)[1..] == later;
    }
  }

  /** The turn at which the stream stopped before its end, if it did. */
  function StopsAt(decode: string -> Option<seq<Byte>>, h: Handle, turns: seq<Turn>, index: nat): (r: Option<nat>)
    requires index <= h.chunkCount <= |turns|
    ensures r.Some? ==> index <= r.value < h.chunkCount
    decreases h.chunkCount - index
  {
    if index == h.chunkCount then None
    else if !turns[index].expired && turns[index].answer.Answered? && !turns[index].closed
            && Chunk(decode, turns[index].answer.message, h, index).Some?
    then StopsAt(decode, h, turns, index + 1)
    else Some(index)
  }

  /** Where and how every stream ends: a chunk for each turn before, and the ending that
      the turn it stopped at asks for. */
  lemma {:induction false} StopSays(decode: string -> Option<seq<Byte>>, h: Handle, turns: seq<Turn>, index: nat)
    requires index <= h.chunkCount <= |turns|
    ensures var ((chunks, ending), stop) := (Streamed(decode, h, turns, index), StopsAt(decode, h, turns, index));
            if stop.None? then |chunks| == h.chunkCount - index && ending == Ending("OK", false, true)
            else
              var turn := turns[stop.value];
              var answered := !turn.expired && turn.answer.Answered?;
              var sent := answered && Chunk(decode, turn.answer.message, h, stop.value).Some?;
              && |chunks| == stop.value - index + (if sent then 1 else 0)
              && (turn.expired ==> ending == Ending("REQUEST_TIMEOUT", false, false))
              && (sent ==> turn.closed && ending == Ending("CANCELLED", true, false))
              && (answered && !sent ==> ending == Ending(ChunkOutcome(turn.answer.message), false, false))
              && (!turn.expired ==>
                    match turn.answer
                    case ApiError(code) => ending == Ending(code, false, false)
                    case Cancelled => ending == Ending("CANCELLED", true, false)
                    case Raised => ending == Ending("OK", true, false)
                    case Answered(_) => true)
    decreases h.chunkCount - index
  {
    hide Chunk, ChunkOutcome;
    if index < h.chunkCount && !turns[index].expired && turns[index].answer.Answered? {
      if Chunk(decode, turns[index].answer.message, h, index).Some? && !turns[index].closed {
        StopSays(decode, h, turns, index + 1);
      }
    }
  }

  /** What makes a stream that stopped at this turn carry the label "OK" all the
      same: an exception that is neither an ApiError nor a cancellation, or an
      error code that reads "OK". */
  predicate FalselyOk(turn: Turn) {
    && !turn.expired
    && match turn.answer
       case Raised => true
       case ApiError(code) => code == "OK"
       case Answered(Another(Some(code))) => code == "OK"
       case _ => false
  }

  /** The exact meaning of the label: "OK" is a complete body, except in those
      two cases. */
  lemma {:induction false} OkMeansComplete(decode: string -> Option<seq<Byte>>, h: Handle, turns: seq<Turn>, index: nat)
    requires index <= h.chunkCount <= |turns|
    ensures var e, stop := Streamed(decode, h, turns, index).1, StopsAt(decode, h, turns, index);
            && (e.complete <==> stop.None?)
            && (e.outcome == "OK" <==> e.complete || FalselyOk(turns[stop.value]))
            && (e.raised ==> !e.complete)
    decreases h.chunkCount - index
  {
    if index < h.chunkCount && !turns[index].expired {
      match turns[index].answer
      case Answered(message) =>
        if Chunk(decode, message, h, index).Some? && !turns[index].closed {
          OkMeansComplete(decode, h, turns, index + 1);
        }
      case _ =>
    }
  }

  /** The label lies: the first request raises, nothing was sent, and it says OK. */
  lemma OkWithoutABody(decode: string -> Option<seq<Byte>>)
    ensures var h, turns := Handle("01234567890123456789012345", "pdf", 7, 1, None, None), [Turn(false, Raised, false)];
            Tiled(h) && Streamed(decode, h, turns, 0) == ([], Ending("OK", true, false))
  {
  }

  /** The loop of `stream_binary_preview`. `out` is what it yielded. */
  method Stream(decode: string -> Option<seq<Byte>>, h: Handle, turns: seq<Turn>)
    returns (out: seq<seq<Byte>>, ending: Ending, sent: nat, chunks: nat)
    requires 0 <= h.chunkCount <= |turns|
    ensures (out, ending) == Streamed(decode, h, turns, 0)
    ensures sent == |Concat(out)| && chunks == |out|
  {
    hide Chunk, Expected, Concat;
    out, ending, sent, chunks := [], Ending("OK", false, true), 0, 0;
    NothingSent();
    assert [] + Streamed(decode, h, turns, 0).0 == Streamed(decode, h, turns, 0).0;
    for index := 0 to h.chunkCount
      invariant sent == |Concat(out)| && chunks == |out|
      invariant Streamed(decode, h, turns, 0)
             == (out + Streamed(decode, h, turns, index).0, Streamed(decode, h, turns, index).1)
      invariant ending == Ending("OK", false, true)
    {
      var turn := turns[index];
      if turn.expired {
        ending := Ending("REQUEST_TIMEOUT", false, false);
        assert out + [] == out;
        return;
      }
      if !turn.answer.Answered? {
        ending := match turn.answer
          case ApiError(code) => Ending(code, false, false)
          case Cancelled => Ending("CANCELLED", true, false)
          case Raised => Ending("OK", true, false);
        assert out + [] == out;
        return;
      }
      var data := Chunk(decode, turn.answer.message, h, index);
      if data.None? {
        ending := Ending(ChunkOutcome(turn.answer.message), false, false);
        assert out + [] == out;
        return;
      }
      sent := sent + |data.value|;
      chunks := chunks + 1;
      ghost var later := Streamed(decode, h, turns, index + 1).0;
      assert out + ([data.value] + later) == out + [data.value] + later;
      ConcatSnoc(out, data.value);
      out := out + [data.value];
      if turn.closed {
        ending := Ending("CANCELLED", true, false);
        return;
      }
    }
    assert out + [] == out;
  }

  lemma NothingSent()
    ensures |Concat([])| == 0
  {
  }
}
