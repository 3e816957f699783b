/** The completion audit of a binary preview (`BinaryPreviewCompletionMiddleware`). */
module Completion {
  import opened Nums
  import S = PreviewStream

  /** What the server and the application exchange: body messages with their
      bytes, any other message, and what `receive` returns. */
  datatype Event = Body(bytes: seq<Byte>) | OtherSend | Disconnect | OtherReceive

  datatype State = State(sent: nat, disconnected: bool, audits: nat)

  const START := State(0, false, 0)

  function Step(s: State, e: Event, size: nat): State {
    match e
    case Disconnect => s.(disconnected := true)
    case Body(bytes) =>
      var sent := s.sent + |bytes|;
      State(sent, s.disconnected, s.audits + if sent == size && bytes != [] && !s.disconnected then 1 else 0)
    case _ => s
  }

  function Run(es: seq<Event>, size: nat): State {
    if es == [] then START else Step(Run(es[..|es| - 1], size), es[|es| - 1], size)
  }

  // ------------------------------------------------------------ what was sent

  function Sent(es: seq<Event>): seq<Byte> {
    if es == [] then []
    else Sent(es[..|es| - 1]) + if es[|es| - 1].Body? then es[|es| - 1].bytes else []
  }

  /** The whole body went out, ending with the event before `k`, on a connection
      not known to be gone. */
  predicate CompletedAt(es: seq<Event>, size: nat, k: nat) {
    && 0 < k <= |es|
    && es[k - 1].Body? && es[k - 1].bytes != []
    && |Sent(es[..k])| == size
    && Disconnect !in es[..k]
  }

  lemma {:induction false} RunCounts(es: seq<Event>, size: nat)
    ensures Run(es, size).sent == |Sent(es)|
    ensures Run(es, size).disconnected <==> Disconnect in es
  {
    if es != [] {
      var front := es[..|es| - 1];
      assert es == front + [es[|es| - 1]];
      RunCounts(front, size);
    }
  }

  lemma {:induction false} SentGrows(es: seq<Event>, j: nat, k: nat)
    requires j <= k <= |es|
    ensures |Sent(es[..j])| <= |Sent(es[..k])|
    ensures j < k && es[k - 1].Body? && es[k - 1].bytes != [] ==> |Sent(es[..j])| < |Sent(es[..k])|
  {
    if j < k {
      SentGrows(es, j, k - 1);
      assert es[..k][..k - 1] == es[..k - 1];
    }
  }

  /** There is at most one such moment. */
  lemma CompletedOnce(es: seq<Event>, size: nat, j: nat, k: nat)
    requires CompletedAt(es, size, j) && CompletedAt(es, size, k)
    ensures j == k
  {
    if j < k {
      SentGrows(es, j, k);
    } else if k < j {
      SentGrows(es, k, j);
    }
  }

  /** Adding an event completes the body only at the end. */
  lemma CompletedEarlier(es: seq<Event>, size: nat, k: nat)
    requires es != [] && 0 < k < |es|
    ensures CompletedAt(es, size, k) == CompletedAt(es[..|es| - 1], size, k)
  {
    assert es[..|es| - 1][..k] == es[..k];
  }

  /** The main result: the audit fires exactly once if the body was sent whole with
      no disconnect seen by then, and otherwise never. */
  lemma {:induction false} AuditsExactlyOnce(es: seq<Event>, size: nat)
    ensures Run(es, size).audits <= 1
    ensures Run(es, size).audits == 1 <==> exists k :: CompletedAt(es, size, k)
  {
    if es != [] {
      var n, front, e := |es|, es[..|es| - 1], es[|es| - 1];
      AuditsExactlyOnce(front, size);
      RunCounts(front, size);
      assert es[..n] == es && es == front + [e];
      forall k | 0 < k < n
        ensures CompletedAt(es, size, k) == CompletedAt(front, size, k)
      {
        CompletedEarlier(es, size, k);
      }
      if CompletedAt(es, size, n) {
        forall k | CompletedAt(front, size, k)
          ensures false
        {
          CompletedEarlier(es, size, k);
          CompletedOnce(es, size, k, n);
        }
      }
      if exists k :: CompletedAt(es, size, k) {
        var k :| CompletedAt(es, size, k);
        assert k == n || CompletedAt(front, size, k);
      }
      if exists k :: CompletedAt(front, size, k) {
        var k :| CompletedAt(front, size, k);
        assert CompletedAt(es, size, k);
      }
    }
  }

  /** A body cut short is never audited, nor is an empty one. */
  lemma ShortBodyIsNotAudited(es: seq<Event>, size: nat)
    requires |Sent(es)| < size || size == 0
    ensures Run(es, size).audits == 0
  {
    AuditsExactlyOnce(es, size);
    assert es[..|es|] == es;
    forall k | CompletedAt(es, size, k)
      ensures false
    {
      SentGrows(es, 0, k);
      SentGrows(es, k, |es|);
    }
  }

  // ------------------------------------------------------------ the audit of a preview stream

  /** A streamed response: one body message for each chunk, and an empty last one. */
  function BodyOf(chunks: seq<seq<Byte>>): seq<Event> {
    seq(|chunks| + 1, i requires 0 <= i <= |chunks| => if i < |chunks| then Body(chunks[i]) else Body([]))
  }

  lemma {:induction false} SentIsConcat(chunks: seq<seq<Byte>>, k: nat)
    requires k <= |chunks|
    ensures Sent(BodyOf(chunks)[..k]) == S.Concat(chunks[..k])
  {
    var es := BodyOf(chunks);
    if k == 0 {
      assert es[..0] == [] && chunks[..0] == [];
    } else {
      SentIsConcat(chunks, k - 1);
      assert es[..k][..k - 1] == es[..k - 1];
      S.ConcatSnoc(chunks[..k - 1], chunks[k - 1]);
      assert chunks[..k] == chunks[..k - 1] + [chunks[k - 1]];
    }
  }

  /** The chunks of a stream are never empty. */
  lemma {:induction false} ChunksNonEmpty(decode: string -> Option<seq<Byte>>, h: S.Handle, turns: seq<S.Turn>,
                                          index: nat)
    requires S.Tiled(h) && index <= h.chunkCount <= |turns|
    ensures forall i :: 0 <= i < |S.Streamed(decode, h, turns, index).0| ==>
              S.Streamed(decode, h, turns, index).0[i] != []
    decreases h.chunkCount - index
  {
    S.ExtentIs(h, 0);
    if index < h.chunkCount && !turns[index].expired && turns[index].answer.Answered?
       && S.Chunk(decode, turns[index].answer.message, h, index).Some? && !turns[index].closed {
      ChunksNonEmpty(decode, h, turns, index + 1);
    }
  }

  /** A preview whose client stays is audited exactly when all its bytes were sent;
      in particular whenever the stream ran to its end. */
  lemma StreamIsAuditedIffWhole(decode: string -> Option<seq<Byte>>, h: S.Handle, turns: seq<S.Turn>)
    requires S.Tiled(h) && 0 <= h.chunkCount <= |turns|
    ensures var (chunks, ending) := S.Streamed(decode, h, turns, 0);
            && (Run(BodyOf(chunks), h.size).audits == 1 <==> |S.Concat(chunks)| == h.size)
            && (ending.complete ==> Run(BodyOf(chunks), h.size).audits == 1)
  {
    hide S.Chunk, S.Streamed, S.Concat, S.Expected, Run, Sent;
    var (chunks, ending) := S.Streamed(decode, h, turns, 0);
    S.StreamLength(decode, h, turns, 0);
    S.ExtentIs(h, 0);
    ChunksNonEmpty(decode, h, turns, 0);
    AuditsExactlyOnce(BodyOf(chunks), h.size);
    WholeIffCompleted(chunks, h.size);
  }

  lemma WholeIffCompleted(chunks: seq<seq<Byte>>, size: nat)
    requires size > 0 && |S.Concat(chunks)| <= size && forall i :: 0 <= i < |chunks| ==> chunks[i] != []
    ensures (exists k: nat :: CompletedAt(BodyOf(chunks), size, k)) <==> |S.Concat(chunks)| == size
  {
    hide S.Concat, Sent;
    var es, n := BodyOf(chunks), |chunks|;
    SentIsConcat(chunks, n);
    assert chunks[..n] == chunks;
    assert Disconnect !in es[..n];
    if |S.Concat(chunks)| == size {
      NothingSentYet(chunks);
      assert CompletedAt(es, size, n);
    }
    if exists k: nat :: CompletedAt(es, size, k) {
      var k: nat :| CompletedAt(es, size, k);
      assert k <= n;
      SentGrows(es, k, n);
    }
  }

  lemma NothingSentYet(chunks: seq<seq<Byte>>)
    ensures chunks == [] ==> S.Concat(chunks) == []
  {
  }

  /** The closures of one response. */
  class Wrappers {
    const size: nat
    var sent: nat
    var disconnected: bool
    var audits: nat

    function View(): State
      reads this
    {
      State(sent, disconnected, audits)
    }

    constructor (size_: nat)
      ensures View() == START && size == size_
    {
      size, sent, disconnected, audits := size_, 0, false, 0;
    }

    /** `receive_wrapper`. */
    method Receive(e: Event)
      requires e.Disconnect? || e.OtherReceive?
      modifies this
      ensures View() == Step(old(View()), e, size)
    {
      if e.Disconnect? {
        disconnected := true;
      }
    }

    /** `send_wrapper`, after the server took the message. */
    method Send(e: Event)
      requires e.Body? || e.OtherSend?
      modifies this
      ensures View() == Step(old(View()), e, size)
    {
      if e.Body? {
        sent := sent + |e.bytes|;
        if sent == size && e.bytes != [] && !disconnected {
          audits := audits + 1;
        }
      }
    }
  }
}
