/** Fan-out of one session's terminal output to its browsers, and the single
    writer marker (`TerminalRelay`). Nothing in a method suspends while a lock is
    held, so each method is one step. */
module Relay {
  import opened Nums
  import opened TerminalQueue

  /** Sessions and connections are named by numbers, channels by any `C`. */
  datatype Hub<C> = Hub(sessions: map<nat, map<nat, C>>, writer: map<nat, nat>, channels: map<C, Channel>)

  function Members<C>(h: Hub<C>, sid: nat): map<nat, C> {
    if sid in h.sessions then h.sessions[sid] else map[]
  }

  predicate Listens<C(==)>(h: Hub<C>, sid: nat, c: C) {
    exists cid :: cid in Members(h, sid) && Members(h, sid)[cid] == c
  }

  // ------------------------------------------------------------ the steps

  predicate IsWriter<C>(h: Hub<C>, sid: nat, cid: nat) {
    sid in h.writer && h.writer[sid] == cid
  }

  function Joined<C>(h: Hub<C>, sid: nat, cid: nat, c: C, state: Channel, canWrite: bool): Hub<C> {
    Hub(h.sessions[sid := Members(h, sid)[cid := c]],
        if canWrite && sid !in h.writer then h.writer[sid := cid] else h.writer,
        h.channels[c := state])
  }

  function Left<C>(h: Hub<C>, sid: nat, cid: nat): Hub<C> {
    var left := Members(h, sid) - {cid};
    Hub(if sid !in h.sessions then h.sessions
        else if left == map[] then h.sessions - {sid}
        else h.sessions[sid := left],
        if IsWriter(h, sid, cid) then h.writer - {sid} else h.writer,
        h.channels)
  }

  function HandedOver<C>(h: Hub<C>, sid: nat, cid: nat): Hub<C> {
    if cid in Members(h, sid) then h.(writer := h.writer[sid := cid]) else h
  }

  function OutputRouted<C>(h: Hub<C>, sid: nat, payload: seq<Byte>): Hub<C> {
    h.(channels := map c | c in h.channels ::
         if Listens(h, sid, c) then PushOutput(h.channels[c], payload) else h.channels[c])
  }

  function ControlRouted<C>(h: Hub<C>, sid: nat, text: string): Hub<C> {
    h.(channels := map c | c in h.channels ::
         if Listens(h, sid, c) then PushControl(h.channels[c], text) else h.channels[c])
  }

  lemma IsOutputRouted<C>(h: Hub<C>, g: Hub<C>, sid: nat, payload: seq<Byte>, sent: set<C>)
    requires g.sessions == h.sessions && g.writer == h.writer && g.channels.Keys == h.channels.Keys
    requires forall c :: c in sent <==> Listens(h, sid, c)
    requires forall c :: c in h.channels ==>
               g.channels[c] == if c in sent then PushOutput(h.channels[c], payload) else h.channels[c]
    ensures g == OutputRouted(h, sid, payload)
  {
    hide PushOutput, Listens;
    assert g.channels == OutputRouted(h, sid, payload).channels;
  }

  lemma IsControlRouted<C>(h: Hub<C>, g: Hub<C>, sid: nat, text: string, sent: set<C>)
    requires g.sessions == h.sessions && g.writer == h.writer && g.channels.Keys == h.channels.Keys
    requires forall c :: c in sent <==> Listens(h, sid, c)
    requires forall c :: c in h.channels ==>
               g.channels[c] == if c in sent then PushControl(h.channels[c], text) else h.channels[c]
    ensures g == ControlRouted(h, sid, text)
  {
    hide PushControl, Listens;
    assert g.channels == ControlRouted(h, sid, text).channels;
  }

  // ------------------------------------------------------------ runs

  /** A connection makes its channel and subscribes it; a drain is one `get`. */
  datatype Event =
    | Subscribed(sid: nat, cid: nat, channel: nat, limits: Limits, canWrite: bool)
    | Unsubscribed(sid: nat, cid: nat)
    | TookOver(sid: nat, cid: nat)
    | Routed(sid: nat, payload: seq<Byte>)
    | Notified(sid: nat, text: string)
    | Drained(channel: nat)
    | Closed(channel: nat)

  predicate CanDrain(h: Hub<nat>, c: nat) {
    c in h.channels && h.channels[c].items != []
  }

  function Step(h: Hub<nat>, e: Event): Hub<nat> {
    match e
    case Subscribed(sid, cid, c, limits, canWrite) => Joined(h, sid, cid, c, Empty(limits), canWrite)
    case Unsubscribed(sid, cid) => Left(h, sid, cid)
    case TookOver(sid, cid) => HandedOver(h, sid, cid)
    case Routed(sid, payload) => OutputRouted(h, sid, payload)
    case Notified(sid, text) => ControlRouted(h, sid, text)
    case Drained(c) => if CanDrain(h, c) then h.(channels := h.channels[c := Take(h.channels[c])]) else h
    case Closed(c) => if c in h.channels then h.(channels := h.channels[c := Shut(h.channels[c])]) else h
  }

  const START: Hub<nat> := Hub(map[], map[], map[])

  function Run(es: seq<Event>): Hub<nat> {
    if es == [] then START else Step(Run(Front(es)), Last(es))
  }

  function Front<T>(s: seq<T>): seq<T>
    requires s != []
  {
    s[..|s| - 1]
  }

  function Last<T>(s: seq<T>): T
    requires s != []
  {
    s[|s| - 1]
  }

  /** Every connection makes a new channel. */
  predicate NewChannels(es: seq<Event>) {
    es != [] ==> NewChannels(Front(es)) && (Last(es).Subscribed? ==> Last(es).channel !in Run(Front(es)).channels)
  }

  // ------------------------------------------------------------ one writer per session

  predicate WritersAreMembers<C>(h: Hub<C>) {
    forall sid :: sid in h.writer ==> h.writer[sid] in Members(h, sid)
  }

  predicate NoEmptySession<C>(h: Hub<C>) {
    forall sid :: sid in h.sessions ==> h.sessions[sid] != map[]
  }

  lemma StepKeepsWriters(h: Hub<nat>, e: Event)
    requires WritersAreMembers(h) && NoEmptySession(h)
    ensures WritersAreMembers(Step(h, e)) && NoEmptySession(Step(h, e))
  {
    var g := Step(h, e);
    match e
    case Subscribed(sid, cid, c, limits, canWrite) =>
      assert cid in g.sessions[sid];
    case Unsubscribed(sid, cid) =>
      forall s | s in g.writer
        ensures g.writer[s] in Members(g, s)
      {
        assert h.writer[s] in Members(h, s);
        if s == sid {
          assert h.writer[s] in Members(h, sid) - {cid};
        }
      }
    case _ =>
  }

  /** The writer marker always names a current subscriber. */
  lemma {:induction false} WriterIsSubscriber(es: seq<Event>)
    ensures WritersAreMembers(Run(es)) && NoEmptySession(Run(es))
  {
    if es != [] {
      WriterIsSubscriber(Front(es));
      StepKeepsWriters(Run(Front(es)), Last(es));
    }
  }

  // ------------------------------------------------------------ who listens to what

  /** Subscribed channels exist, and no channel is subscribed twice. */
  predicate Wired<C>(h: Hub<C>) {
    && (forall sid, cid :: sid in h.sessions && cid in h.sessions[sid] ==> h.sessions[sid][cid] in h.channels)
    && (forall s, i, t, j :: s in h.sessions && i in h.sessions[s] && t in h.sessions && j in h.sessions[t] ==>
          h.sessions[s][i] == h.sessions[t][j] ==> s == t && i == j)
  }

  lemma JoinedWired<C>(h: Hub<C>, sid: nat, cid: nat, c: C, state: Channel, canWrite: bool)
    requires Wired(h) && c !in h.channels
    ensures Wired(Joined(h, sid, cid, c, state, canWrite))
  {
    var g := Joined(h, sid, cid, c, state, canWrite);
    forall s, i | s in g.sessions && i in g.sessions[s]
      ensures (s == sid && i == cid) || (s in h.sessions && i in h.sessions[s] && g.sessions[s][i] == h.sessions[s][i])
      ensures s == sid && i == cid ==> g.sessions[s][i] == c
    {
    }
  }

  lemma LeftWired<C>(h: Hub<C>, sid: nat, cid: nat)
    requires Wired(h)
    ensures Wired(Left(h, sid, cid))
  {
    var g := Left(h, sid, cid);
    forall s, i | s in g.sessions && i in g.sessions[s]
      ensures s in h.sessions && i in h.sessions[s] && g.sessions[s][i] == h.sessions[s][i]
    {
    }
  }

  lemma StepKeepsWired(h: Hub<nat>, e: Event)
    requires Wired(h) && (e.Subscribed? ==> e.channel !in h.channels)
    ensures Wired(Step(h, e))
  {
    match e
    case Subscribed(sid, cid, c, limits, canWrite) => JoinedWired(h, sid, cid, c, Empty(limits), canWrite);
    case Unsubscribed(sid, cid) => LeftWired(h, sid, cid);
    case _ =>
      var g := Step(h, e);
      assert g.sessions == h.sessions && g.channels.Keys >= h.channels.Keys;
  }

  lemma {:induction false} RunWired(es: seq<Event>)
    requires NewChannels(es)
    ensures Wired(Run(es))
  {
    if es != [] {
      RunWired(Front(es));
      StepKeepsWired(Run(Front(es)), Last(es));
    }
  }

  lemma StrangersDoNotListen(h: Hub<nat>, sid: nat, c: nat)
    requires Wired(h) && c !in h.channels
    ensures !Listens(h, sid, c)
  {
  }

  // ------------------------------------------------------------ what a channel is offered and yields

  /** What an event routes to the channel: something only while it is subscribed. */
  function Offered(h: Hub<nat>, e: Event, c: nat): seq<Item> {
    if e.Routed? && Listens(h, e.sid, c) then [Output(e.payload)]
    else if e.Notified? && Listens(h, e.sid, c) then [Control(e.text)]
    else []
  }

  function Drawn(h: Hub<nat>, e: Event, c: nat): seq<Item> {
    if e == Drained(c) && CanDrain(h, c) then [h.channels[c].items[0]] else []
  }

  /** Everything routed to the channel while it was subscribed. */
  function Offers(es: seq<Event>, c: nat): seq<Item> {
    if es == [] then [] else Offers(Front(es), c) + Offered(Run(Front(es)), Last(es), c)
  }

  /** Everything its browser dequeued. */
  function Taken(es: seq<Event>, c: nat): seq<Item> {
    if es == [] then [] else Taken(Front(es), c) + Drawn(Run(Front(es)), Last(es), c)
  }

  /** What its browser dequeued, then what is still queued. */
  function Stream(es: seq<Event>, c: nat): seq<Item> {
    Taken(es, c) + if c in Run(es).channels then Run(es).channels[c].items else []
  }

  /** The order-preserving part of `offers` that was accepted; the overflow
      sentinel and the end mark are the channel's own. */
  predicate Accepted(stream: seq<Item>, offers: seq<Item>) {
    if stream == [] then true
    else if Last(stream).Overflow? || Last(stream).End? then Accepted(Front(stream), offers)
    else
      offers != []
      && ((Last(stream) == Last(offers) && Accepted(Front(stream), Front(offers))) || Accepted(stream, Front(offers)))
  }

  lemma {:induction false} AcceptedLater(stream: seq<Item>, offers: seq<Item>, x: Item)
    requires Accepted(stream, offers)
    ensures Accepted(stream, offers + [x])
    decreases |stream|
  {
    assert Front(offers + [x]) == offers;
    if stream != [] && (Last(stream).Overflow? || Last(stream).End?) {
      AcceptedLater(Front(stream), offers, x);
    }
  }

  lemma AcceptedNow(stream: seq<Item>, offers: seq<Item>, x: Item)
    requires Accepted(stream, offers)
    ensures Accepted(stream + [x], offers + [x])
    ensures x.Overflow? || x.End? ==> Accepted(stream + [x], offers)
  {
    assert Front(offers + [x]) == offers && Front(stream + [x]) == stream;
    if x.Overflow? || x.End? {
      AcceptedLater(stream, offers, x);
    }
  }

  lemma {:induction false} AcceptedPrefix(stream: seq<Item>, more: seq<Item>, offers: seq<Item>)
    requires Accepted(stream + more, offers)
    ensures Accepted(stream, offers)
    decreases |more|, |offers|
  {
    var s := stream + more;
    if more == [] {
      assert s == stream;
    } else {
      assert Front(s) == stream + Front(more) && Last(s) == Last(more);
      if Last(s).Overflow? || Last(s).End? {
        AcceptedPrefix(stream, Front(more), offers);
      } else if Last(s) == Last(offers) && Accepted(Front(s), Front(offers)) {
        AcceptedPrefix(stream, Front(more), Front(offers));
        AcceptedLater(stream, Front(offers), Last(offers));
        assert Front(offers) + [Last(offers)] == offers;
      } else {
        AcceptedPrefix(stream, more, Front(offers));
        AcceptedLater(stream, Front(offers), Last(offers));
        assert Front(offers) + [Last(offers)] == offers;
      }
    }
  }

  /** What holds of one channel, its stream and its offers, after any run. */
  predicate Delivered(state: Channel, stream: seq<Item>, offers: seq<Item>) {
    && Outputs(stream) <= Outputs(offers)
    && (!state.overflowed && !state.closed ==> Outputs(stream) == Outputs(offers))
    && Overflows(stream) <= (if state.overflowed then 1 else 0)
    && (!state.closed ==> Overflows(stream) == if state.overflowed then 1 else 0)
    && EndsAtOverflow(stream)
    && Accepted(stream, offers)
  }

  /** The effect of one output offered to a channel. */
  lemma OfferedOutput(state: Channel, taken: seq<Item>, offers: seq<Item>, payload: seq<Byte>)
    requires Delivered(state, taken + state.items, offers)
    ensures Delivered(PushOutput(state, payload), taken + PushOutput(state, payload).items, offers + [Output(payload)])
  {
    hide Outputs, Overflows, EndsAtOverflow, Accepted;
    var stream, x := taken + state.items, Output(payload);
    OutputsAppend(offers, [x]);
    One(x);
    AcceptedLater(stream, offers, x);
    AcceptedNow(stream, offers, x);
    if state.closed || state.overflowed {
    } else if state.frames >= state.limits.frames || state.bytes + |payload| > state.limits.bytes {
      assert taken + (state.items + [Overflow]) == stream + [Overflow];
      OneMore(stream, Overflow);
      AcceptedNow(stream, offers + [x], Overflow);
    } else {
      assert taken + (state.items + [x]) == stream + [x];
      OneMore(stream, x);
    }
  }

  lemma OfferedControl(state: Channel, taken: seq<Item>, offers: seq<Item>, text: string)
    requires Delivered(state, taken + state.items, offers)
    ensures Delivered(PushControl(state, text), taken + PushControl(state, text).items, offers + [Control(text)])
  {
    hide Outputs, Overflows, EndsAtOverflow, Accepted;
    var stream, x := taken + state.items, Control(text);
    OutputsAppend(offers, [x]);
    One(x);
    assert Outputs(offers) + [] == Outputs(offers);
    AcceptedLater(stream, offers, x);
    AcceptedNow(stream, offers, x);
    if !ControlRefused(state) {
      assert taken + (state.items + [x]) == stream + [x];
      OneMore(stream, x);
    }
  }

  lemma Shutting(state: Channel, taken: seq<Item>, offers: seq<Item>)
    requires Delivered(state, taken + state.items, offers)
    ensures Delivered(Shut(state), taken + Shut(state).items, offers)
  {
    hide Outputs, Overflows, EndsAtOverflow, Accepted;
    if !state.closed {
      OutputsAppend(taken, state.items);
      CountsAppend(taken, state.items);
      EndsAtOverflowPrefix(taken, state.items);
      AcceptedPrefix(taken, state.items, offers);
      AcceptedNow(taken, offers, End);
      OneMore(taken, End);
    }
  }

  lemma EndsAtOverflowPrefix(a: seq<Item>, b: seq<Item>)
    requires EndsAtOverflow(a + b)
    ensures EndsAtOverflow(a)
  {
    assert forall i :: 0 <= i < |a| ==> a[i] == (a + b)[i];
  }

  /** One event, seen by one channel that exists already. */
  lemma StepDelivers(h: Hub<nat>, e: Event, c: nat, taken: seq<Item>, offers: seq<Item>)
    requires c in h.channels && (e.Subscribed? ==> e.channel != c)
    requires Delivered(h.channels[c], taken + h.channels[c].items, offers)
    ensures Delivered(Step(h, e).channels[c], taken + Drawn(h, e, c) + Step(h, e).channels[c].items,
                      offers + Offered(h, e, c))
  {
    hide Delivered, Listens, PushOutput, PushControl;
    var state := h.channels[c];
    assert offers + [] == offers && taken + [] == taken;
    match e
    case Routed(sid, payload) =>
      OfferedOutput(state, taken, offers, payload);
    case Notified(sid, text) =>
      OfferedControl(state, taken, offers, text);
    case Closed(d) =>
      Shutting(state, taken, offers);
    case Drained(d) =>
      if d == c && CanDrain(h, c) {
        var items := state.items;
        assert taken + items == taken + [items[0]] + items[1..];
        DrainedDelivers(state, taken + items, offers);
      }
    case _ =>
  }

  lemma NewChannelsLast(es: seq<Event>)
    requires es != [] && NewChannels(es)
    ensures Last(es).Subscribed? ==> Last(es).channel !in Run(Front(es)).channels
    ensures NewChannels(Front(es))
  {
  }

  lemma DrainedDelivers(state: Channel, stream: seq<Item>, offers: seq<Item>)
    requires Delivered(state, stream, offers) && state.items != []
    ensures Delivered(Take(state), stream, offers)
  {
  }

  /** Over any run: nothing is reordered, outputs are cut only by the channel's
      own overflow or close, and there is at most one overflow sentinel. */
  lemma {:induction false} RunDelivers(es: seq<Event>, c: nat)
    requires NewChannels(es) && c in Run(es).channels
    ensures Delivered(Run(es).channels[c], Stream(es, c), Offers(es, c))
    ensures Sound(Run(es).channels[c])
  {
    hide Delivered, Sound, Step, NewChannels, Offered, Drawn;
    RunStarts(es, c);
    NewChannelsLast(es);
    var front := Front(es);
    if c in Run(front).channels {
      RunDelivers(front, c);
      StepDelivers(Run(front), Last(es), c, Taken(front, c), Offers(front, c));
      StepSound(Run(front), Last(es), c);
    } else {
      BeforeItExists(front, c);
      FirstStep(es, c);
    }
  }

  lemma RunStarts(es: seq<Event>, c: nat)
    ensures c in Run(es).channels ==> es != []
    ensures es != [] && NewChannels(es) && Last(es).Subscribed? && c in Run(Front(es)).channels ==>
              Last(es).channel != c
    ensures es != [] && c in Run(Front(es)).channels ==> c in Run(es).channels
  {
    if es != [] {
      ChannelsGrow(Run(Front(es)), Last(es));
    }
  }

  lemma StepSound(h: Hub<nat>, e: Event, c: nat)
    requires c in h.channels && Sound(h.channels[c]) && (e.Subscribed? ==> e.channel != c)
    ensures Sound(Step(h, e).channels[c])
  {
    hide Sound, Listens, PushOutput, PushControl, Take, Shut;
    var state := h.channels[c];
    match e
    case Routed(sid, payload) => PushOutputSound(state, payload);
    case Notified(sid, text) => PushControlSound(state, text);
    case Drained(d) => if state.items != [] { TakeSound(state); }
    case Closed(d) => ShutSound(state);
    case _ =>
  }

  lemma {:induction false} BeforeItExists(es: seq<Event>, c: nat)
    requires NewChannels(es) && c !in Run(es).channels
    ensures Offers(es, c) == [] && Taken(es, c) == []
  {
    if es != [] {
      var h := Run(Front(es));
      RunWired(Front(es));
      assert c !in h.channels by { ChannelsGrow(h, Last(es)); }
      BeforeItExists(Front(es), c);
      if Last(es).Routed? || Last(es).Notified? {
        StrangersDoNotListen(h, Last(es).sid, c);
      }
    }
  }

  lemma ChannelsGrow(h: Hub<nat>, e: Event)
    ensures h.channels.Keys <= Step(h, e).channels.Keys
    ensures forall c :: c in Step(h, e).channels ==> c in h.channels || (e.Subscribed? && e.channel == c)
  {
  }

  lemma FirstStep(es: seq<Event>, c: nat)
    requires es != [] && NewChannels(es) && c in Run(es).channels && c !in Run(Front(es)).channels
    requires Offers(Front(es), c) == [] && Taken(Front(es), c) == []
    ensures Delivered(Run(es).channels[c], Stream(es, c), Offers(es, c)) && Sound(Run(es).channels[c])
  {
    ChannelsGrow(Run(Front(es)), Last(es));
    EmptySound(Last(es).limits);
  }

  // ------------------------------------------------------------ the offers are a run of the session's output

  function SessionOutput(es: seq<Event>, sid: nat): seq<seq<Byte>> {
    if es == [] then []
    else SessionOutput(Front(es), sid) + if Last(es).Routed? && Last(es).sid == sid then [Last(es).payload] else []
  }

  /** The connection leaves its session, or makes a new channel. */
  predicate Ends(e: Event, sid: nat, cid: nat) {
    (e.Unsubscribed? || e.Subscribed?) && e.sid == sid && e.cid == cid
  }

  /** The event that ends the subscription of event `i`, or the length of the run. */
  function Until(es: seq<Event>, i: nat): (k: nat)
    requires i < |es| && es[i].Subscribed?
    ensures i < k <= |es|
  {
    if |es| == i + 1 then |es|
    else
      var before := Until(Front(es), i);
      if before < |es| - 1 || Ends(Last(es), es[i].sid, es[i].cid) then before else |es|
  }

  /** Where the channel stands: under its connection, or nowhere. */
  ghost predicate StandsAt<C>(h: Hub<C>, sid: nat, cid: nat, c: C) {
    sid in h.sessions && cid in h.sessions[sid] && h.sessions[sid][cid] == c
  }

  ghost predicate StandsNowhere<C(!new)>(h: Hub<C>, c: C) {
    forall s, i :: !StandsAt(h, s, i, c)
  }

  lemma StepStands(h: Hub<nat>, e: Event, sid: nat, cid: nat, c: nat)
    requires Wired(h) && (e.Subscribed? ==> e.channel != c)
    requires StandsAt(h, sid, cid, c) || StandsNowhere(h, c)
    ensures StandsAt(h, sid, cid, c) && !Ends(e, sid, cid) ==> StandsAt(Step(h, e), sid, cid, c)
    ensures StandsNowhere(h, c) || Ends(e, sid, cid) ==> StandsNowhere(Step(h, e), c)
  {
    hide PushOutput, PushControl, Take, Shut, Listens;
    var g := Step(h, e);
    forall s, i | StandsAt(g, s, i, c)
      ensures StandsAt(h, s, i, c) && !(Ends(e, s, i))
    {
      StandsBefore(h, e, s, i, c);
    }
    if StandsAt(h, sid, cid, c) && !Ends(e, sid, cid) {
      StandsAfter(h, e, sid, cid, c);
    }
    if Ends(e, sid, cid) {
      OnlyThere(h, sid, cid, c);
    }
  }

  lemma StandsAfter(h: Hub<nat>, e: Event, s: nat, i: nat, c: nat)
    requires StandsAt(h, s, i, c) && !Ends(e, s, i)
    ensures StandsAt(Step(h, e), s, i, c)
  {
    hide PushOutput, PushControl, Take, Shut, Listens;
    if e.Unsubscribed? && e.sid == s {
      assert i in Members(h, s) - {e.cid};
    }
  }

  lemma OnlyThere(h: Hub<nat>, sid: nat, cid: nat, c: nat)
    requires Wired(h) && (StandsAt(h, sid, cid, c) || StandsNowhere(h, c))
    ensures forall s, i :: StandsAt(h, s, i, c) ==> s == sid && i == cid
  {
  }

  lemma StandsBefore(h: Hub<nat>, e: Event, s: nat, i: nat, c: nat)
    requires StandsAt(Step(h, e), s, i, c) && (e.Subscribed? ==> e.channel != c)
    ensures StandsAt(h, s, i, c) && !Ends(e, s, i)
  {
    hide PushOutput, PushControl, Take, Shut, Listens;
  }

  /** A channel is subscribed exactly until the end of its subscription: under its own
      connection, and then nowhere any more. */
  lemma {:induction false} StandsUntilTheEnd(es: seq<Event>, i: nat)
    requires NewChannels(es) && i < |es| && es[i].Subscribed?
    ensures es[i].channel in Run(es).channels
    ensures if Until(es, i) == |es| then StandsAt(Run(es), es[i].sid, es[i].cid, es[i].channel)
            else StandsNowhere(Run(es), es[i].channel)
  {
    hide StandsAt, StandsNowhere, Wired;
    NewChannelsLast(es);
    RunWired(Front(es));
    if |es| == i + 1 {
      JoinStands(Run(Front(es)), Last(es));
    } else {
      StandsUntilTheEnd(Front(es), i);
      ChannelsGrow(Run(Front(es)), Last(es));
      hide Step, Run, NewChannels;
      StepStands(Run(Front(es)), Last(es), es[i].sid, es[i].cid, es[i].channel);
    }
  }

  lemma JoinStands(h: Hub<nat>, e: Event)
    requires e.Subscribed?
    ensures StandsAt(Step(h, e), e.sid, e.cid, e.channel) && e.channel in Step(h, e).channels
  {
  }

  lemma StandingListens(h: Hub<nat>, sid: nat, c: nat)
    ensures Listens(h, sid, c) <==> exists cid :: StandsAt(h, sid, cid, c)
  {
    if Listens(h, sid, c) {
      var cid :| cid in Members(h, sid) && Members(h, sid)[cid] == c;
      assert StandsAt(h, sid, cid, c);
    }
    if cid :| StandsAt(h, sid, cid, c) {
      assert cid in Members(h, sid);
    }
  }

  /** It listens to its own session until then, and to no other. */
  lemma ListensUntilTheEnd(es: seq<Event>, i: nat)
    requires NewChannels(es) && i < |es| && es[i].Subscribed?
    ensures es[i].channel in Run(es).channels
    ensures forall sid :: Listens(Run(es), sid, es[i].channel) <==> sid == es[i].sid && Until(es, i) == |es|
  {
    StandsUntilTheEnd(es, i);
    RunWired(es);
    hide Listens, Run, Until;
    var h, c := Run(es), es[i].channel;
    forall sid
      ensures Listens(h, sid, c) <==> sid == es[i].sid && Until(es, i) == |es|
    {
      StandingListens(h, sid, c);
    }
  }

  /** Every subscriber came by a subscription that has not ended. */
  lemma {:induction false} SubscribersSubscribed(es: seq<Event>, sid: nat, cid: nat, c: nat) returns (i: nat)
    requires NewChannels(es) && StandsAt(Run(es), sid, cid, c)
    ensures i < |es| && es[i].Subscribed? && es[i].sid == sid && es[i].cid == cid && es[i].channel == c
    ensures Until(es, i) == |es|
  {
    NewChannelsLast(es);
    RunWired(es);
    var e := Last(es);
    if e.Subscribed? && e.channel == c {
      i := |es| - 1;
      JoinStands(Run(Front(es)), e);
      hide Run;
    } else {
      StandsBefore(Run(Front(es)), e, sid, cid, c);
      i := SubscribersSubscribed(Front(es), sid, cid, c);
    }
  }

  /** What was offered is everything the session produced from the subscription
      until its end. */
  lemma {:induction false} OffersAreContiguous(es: seq<Event>, i: nat)
    requires NewChannels(es) && i < |es| && es[i].Subscribed?
    ensures Outputs(Offers(es, es[i].channel)) == SessionOutput(es[i + 1..Until(es, i)], es[i].sid)
  {
    hide Listens, NewChannels, Outputs, Offers, Wired, Run, Ends;
    var sid, c := es[i].sid, es[i].channel;
    var front, e := Front(es), Last(es);
    NewChannelsLast(es);
    if |es| == i + 1 {
      NothingYet(es);
      FrontSlice(es, i + 1, |es|);
    } else {
      OffersAreContiguous(front, i);
      ListensUntilTheEnd(front, i);
      OutputsSoFar(es, c);
      EndsRoutesNothing(e, sid, es[i].cid);
      FrontSlice(es, i + 1, Until(es, i));
    }
  }

  lemma EndsRoutesNothing(e: Event, sid: nat, cid: nat)
    ensures Ends(e, sid, cid) ==> !e.Routed?
  {
  }

  lemma FrontSlice<T>(s: seq<T>, a: nat, b: nat)
    requires a <= b <= |s|
    ensures b < |s| ==> s[a..b] == Front(s)[a..b]
    ensures a < b == |s| ==> Front(s[a..b]) == Front(s)[a..b - 1] && Last(s[a..b]) == Last(s)
    ensures a == b ==> s[a..b] == []
  {
  }

  lemma OfferedOutputs(before: seq<Item>, h: Hub<nat>, e: Event, c: nat)
    ensures Outputs(before + Offered(h, e, c))
         == if e.Routed? && Listens(h, e.sid, c) then Outputs(before) + [e.payload] else Outputs(before)
  {
    hide Listens, Outputs;
    assert before + [] == before;
    if e.Routed? {
      One(Output(e.payload));
      OutputsAppend(before, [Output(e.payload)]);
    } else if e.Notified? {
      One(Control(e.text));
      OutputsAppend(before, [Control(e.text)]);
      assert Outputs(before) + [] == Outputs(before);
    }
  }

  lemma OutputsSoFar(es: seq<Event>, c: nat)
    requires es != []
    ensures Outputs(Offers(es, c))
         == if Last(es).Routed? && Listens(Run(Front(es)), Last(es).sid, c)
            then Outputs(Offers(Front(es), c)) + [Last(es).payload]
            else Outputs(Offers(Front(es), c))
  {
    hide Listens, Outputs, Offered;
    OfferedOutputs(Offers(Front(es), c), Run(Front(es)), Last(es), c);
  }

  /** The subscription itself offers nothing. */
  lemma NothingYet(es: seq<Event>)
    requires NewChannels(es) && es != [] && Last(es).Subscribed?
    ensures Outputs(Offers(es, Last(es).channel)) == []
  {
    BeforeItExists(Front(es), Last(es).channel);
  }

  // ------------------------------------------------------------ when a channel overflows

  /** What the events of a run are to one channel, without counters or flags. */
  function Past(es: seq<Event>, c: nat): (h: History)
    ensures IsHistory(h)
  {
    if es == [] then History([], 0, false, 0)
    else
      var h, e := Past(Front(es), c), Last(es);
      match e
      case Subscribed(_, _, d, _, _) => if d == c then History([], 0, false, 0) else h
      case Routed(sid, payload) =>
        if Listens(Run(Front(es)), sid, c) then Heard(h, LimitsOf(Front(es), c), Output(payload)) else h
      case Notified(sid, text) =>
        if Listens(Run(Front(es)), sid, c) then Heard(h, LimitsOf(Front(es), c), Control(text)) else h
      case Drained(d) => if d == c && h.taken < |h.stream| then h.(taken := h.taken + 1) else h
      case Closed(d) => if d == c then Finished(h) else h
      case _ => h
  }

  /** The limits its connection made the channel with. */
  function LimitsOf(es: seq<Event>, c: nat): Limits {
    if es == [] then Limits(0, 0, 0)
    else if Last(es).Subscribed? && Last(es).channel == c then Last(es).limits
    else LimitsOf(Front(es), c)
  }

  /** Over every run each channel, with its counters and flags, stands for its past. */
  lemma {:induction false} RunRefines(es: seq<Event>, c: nat)
    requires NewChannels(es) && c in Run(es).channels
    ensures Refines(Run(es).channels[c], Past(es, c)) && Run(es).channels[c].limits == LimitsOf(es, c)
  {
    hide NewChannels, Refines, Listens, PushOutput, PushControl, Take, Shut, Heard, Finished;
    RunStarts(es, c);
    NewChannelsLast(es);
    var h, e := Run(Front(es)), Last(es);
    if c in h.channels {
      RunRefines(Front(es), c);
      StepRefines(h, e, c, Past(Front(es), c), LimitsOf(Front(es), c));
    } else {
      ChannelsGrow(h, e);
      EmptyRefines(e.limits);
    }
  }

  lemma StepRefines(h: Hub<nat>, e: Event, c: nat, past: History, limits: Limits)
    requires c in h.channels && Refines(h.channels[c], past) && h.channels[c].limits == limits
    requires e.Subscribed? ==> e.channel != c
    ensures var state := Step(h, e).channels[c];
            && state.limits == limits
            && (e.Routed? ==>
                  Refines(state, if Listens(h, e.sid, c) then Heard(past, limits, Output(e.payload)) else past))
            && (e.Notified? ==>
                  Refines(state, if Listens(h, e.sid, c) then Heard(past, limits, Control(e.text)) else past))
            && (e.Drained? ==>
                  Refines(state,
                          if e.channel == c && past.taken < |past.stream| then past.(taken := past.taken + 1)
                          else past))
            && (e.Closed? ==> Refines(state, if e.channel == c then Finished(past) else past))
            && (e.Subscribed? || e.Unsubscribed? || e.TookOver? ==> state == h.channels[c])
  {
    hide Refines, Listens, Heard, Finished, PushOutput, PushControl, Take, Shut;
    var state := h.channels[c];
    SameLimits(state);
    RefinesWaiting(state, past);
    match e
    case Routed(_, payload) => OutputHeard(state, past, payload);
    case Notified(_, text) => ControlHeard(state, past, text);
    case Drained(d) =>
      if d == c && state.items != [] {
        TakenFromHistory(state, past);
      }
    case Closed(_) => CloseFinishes(state, past);
    case _ =>
  }

  lemma SameLimits(c: Channel)
    ensures forall payload :: PushOutput(c, payload).limits == c.limits
    ensures forall text :: PushControl(c, text).limits == c.limits
    ensures c.items != [] ==> Take(c).limits == c.limits
    ensures Shut(c).limits == c.limits
  {
  }

  lemma RefinesWaiting(c: Channel, past: History)
    requires Refines(c, past)
    ensures IsHistory(past) && (c.items == [] <==> past.taken == |past.stream|)
  {
  }

  /** Whether event `k` routed an output to the channel of subscription `i`, not closed by
      then, beside which it already held as many outputs, or bytes of them, as it may. */
  predicate TooMuch(es: seq<Event>, i: nat, k: nat)
    requires i < |es| && es[i].Subscribed?
  {
    var c := es[i].channel;
    && i < k < |es| && k < Until(es, i) && es[k].Routed? && es[k].sid == es[i].sid && Closed(c) !in es[i + 1..k]
    && c in Run(es[..k]).channels
    && NoRoom(Run(es[..k]).channels[c].items, es[i].limits, |es[k].payload|)
  }

  lemma TooMuchInFront(es: seq<Event>, i: nat, k: nat)
    requires i < |es| - 1 && es[i].Subscribed? && k < |es| - 1
    ensures TooMuch(es, i, k) == TooMuch(Front(es), i, k)
  {
    assert i < k ==> es[..k] == Front(es)[..k] && es[i + 1..k] == Front(es)[i + 1..k];
    hide Run, NoRoom;
  }

  /** A routed output makes a channel overflow exactly if there is no room for it. */
  lemma StepOverflows(h: Hub<nat>, e: Event, c: nat)
    requires c in h.channels && CountersExact(h.channels[c]) && (e.Subscribed? ==> e.channel != c)
    ensures var before, after := h.channels[c], Step(h, e).channels[c];
            && after.limits == before.limits
            && (after.closed <==> before.closed || e == Closed(c))
            && (after.overflowed <==>
                  before.overflowed
                  || (e.Routed? && Listens(h, e.sid, c) && !before.closed
                      && NoRoom(before.items, before.limits, |e.payload|)))
  {
    hide Listens, Outputs, Controls, Total;
  }

  lemma ClosedLater(es: seq<Event>, i: nat, c: nat)
    requires i + 1 < |es|
    ensures Closed(c) in es[i + 1..] <==> Closed(c) in Front(es)[i + 1..] || Last(es) == Closed(c)
    ensures es[i + 1..|es| - 1] == Front(es)[i + 1..]
  {
    assert es[i + 1..] == Front(es)[i + 1..] + [Last(es)];
  }

  /** Over every run: a channel has the limits it was made with, is closed exactly if its
      connection closed it, and has overflowed exactly if some output was too much. */
  lemma {:induction false} OverflowsIffTooMuch(es: seq<Event>, i: nat)
    requires NewChannels(es) && i < |es| && es[i].Subscribed?
    ensures es[i].channel in Run(es).channels
    ensures var state := Run(es).channels[es[i].channel];
            && state.limits == es[i].limits
            && (state.closed <==> Closed(es[i].channel) in es[i + 1..])
            && (state.overflowed <==> exists k :: TooMuch(es, i, k))
  {
    hide NewChannels, TooMuch, Listens, NoRoom, Until, Step, CountersExact;
    NewChannelsLast(es);
    var front, e, c := Front(es), Last(es), es[i].channel;
    if |es| == i + 1 {
      FirstIsEmpty(Run(front), e);
      NothingTooMuchYet(es, i);
      assert es[i + 1..] == [];
    } else {
      OverflowsIffTooMuch(front, i);
      RunDelivers(front, c);
      ListensUntilTheEnd(front, i);
      ChannelsGrow(Run(front), e);
      CountersOfSound(Run(front).channels[c]);
      StepOverflows(Run(front), e, c);
      ClosedLater(es, i, c);
      LastTooMuch(es, i);
      if exists k :: TooMuch(front, i, k) {
        var k: nat :| TooMuch(front, i, k);
        TooMuchIsWithin(front, i, k);
        TooMuchInFront(es, i, k);
      }
      if k: nat :| TooMuch(es, i, k) {
        TooMuchIsWithin(es, i, k);
        if k < |es| - 1 {
          TooMuchInFront(es, i, k);
        }
      }
    }
  }

  lemma FirstIsEmpty(h: Hub<nat>, e: Event)
    requires e.Subscribed?
    ensures e.channel in Step(h, e).channels && Step(h, e).channels[e.channel] == Empty(e.limits)
  {
  }

  lemma NothingTooMuchYet(es: seq<Event>, i: nat)
    requires i + 1 == |es| && es[i].Subscribed?
    ensures forall k :: !TooMuch(es, i, k)
  {
  }

  lemma TooMuchIsWithin(es: seq<Event>, i: nat, k: nat)
    requires i < |es| && es[i].Subscribed? && TooMuch(es, i, k)
    ensures i < k < |es|
  {
  }

  lemma CountersOfSound(c: Channel)
    requires Sound(c)
    ensures CountersExact(c)
  {
  }

  /** What the last event was, if it was too much. */
  lemma LastTooMuch(es: seq<Event>, i: nat)
    requires i < |es| - 1 && es[i].Subscribed? && es[i].channel in Run(Front(es)).channels
    ensures TooMuch(es, i, |es| - 1)
       <==> Last(es).Routed? && Last(es).sid == es[i].sid && Until(Front(es), i) == |es| - 1
            && Closed(es[i].channel) !in Front(es)[i + 1..]
            && NoRoom(Run(Front(es)).channels[es[i].channel].items, es[i].limits, |Last(es).payload|)
  {
    ClosedLater(es, i, es[i].channel);
    assert es[..|es| - 1] == Front(es);
    hide Run, NoRoom;
  }

  /** The main result. What a browser dequeued plus what is still queued is a
      contiguous run of its session's output, from its subscription to the end of
      it. It is all of that unless the channel was closed, or an output came beside
      which it already held its full share. */
  lemma BrowserSeesContiguousOutput(es: seq<Event>, i: nat)
    requires NewChannels(es) && i < |es| && es[i].Subscribed?
    ensures es[i].channel in Run(es).channels
    ensures var state, seen, produced := Run(es).channels[es[i].channel], Outputs(Stream(es, es[i].channel)),
                                         SessionOutput(es[i + 1..Until(es, i)], es[i].sid);
            && seen <= produced
            && (seen == produced || Closed(es[i].channel) in es[i + 1..] || exists k :: TooMuch(es, i, k))
            && Overflows(Stream(es, es[i].channel)) <= (if exists k :: TooMuch(es, i, k) then 1 else 0)
            && EndsAtOverflow(Stream(es, es[i].channel))
            && CountersExact(state)
  {
    hide Listens, NewChannels, Outputs, Overflows, EndsAtOverflow, Run, Stream, Accepted, CountersExact, TooMuch, Until;
    OverflowsIffTooMuch(es, i);
    OffersAreContiguous(es, i);
    RunDelivers(es, es[i].channel);
  }

  // ------------------------------------------------------------ who writes

  /** Whether event `k` makes the connection the writer: it takes over as a subscriber, or
      subscribes with the right to write while nobody is. */
  predicate Grants(es: seq<Event>, k: nat, sid: nat, cid: nat)
    requires k < |es|
  {
    var h, e := Run(es[..k]), es[k];
    || (e == TookOver(sid, cid) && cid in Members(h, sid))
    || (e.Subscribed? && e.sid == sid && e.cid == cid && e.canWrite && sid !in h.writer)
  }

  /** Whether event `k` takes the role from it. */
  predicate Revokes(es: seq<Event>, k: nat, sid: nat, cid: nat)
    requires k < |es|
  {
    var h, e := Run(es[..k]), es[k];
    e == Unsubscribed(sid, cid) || (e.TookOver? && e.sid == sid && e.cid != cid && e.cid in Members(h, sid))
  }

  /** The connection was granted the role at event `k` and has kept it. */
  predicate KeptSince(es: seq<Event>, k: nat, sid: nat, cid: nat) {
    k < |es| && Grants(es, k, sid, cid) && forall j :: k < j < |es| ==> !Revokes(es, j, sid, cid)
  }

  lemma StepWriter(h: Hub<nat>, e: Event, sid: nat, cid: nat)
    ensures IsWriter(Step(h, e), sid, cid)
       <==> (|| (e == TookOver(sid, cid) && cid in Members(h, sid))
             || (e.Subscribed? && e.sid == sid && e.cid == cid && e.canWrite && sid !in h.writer)
             || (IsWriter(h, sid, cid)
                 && !(e == Unsubscribed(sid, cid)
                      || (e.TookOver? && e.sid == sid && e.cid != cid && e.cid in Members(h, sid)))))
  {
    hide PushOutput, PushControl, Take, Shut, Listens;
  }

  lemma KeptInFront(es: seq<Event>, k: nat, sid: nat, cid: nat)
    requires k < |es| - 1
    ensures KeptSince(es, k, sid, cid) <==> KeptSince(Front(es), k, sid, cid) && !Revokes(es, |es| - 1, sid, cid)
  {
    assert forall j :: 0 <= j < |es| - 1 ==> es[..j] == Front(es)[..j] && es[j] == Front(es)[j];
    hide Run, Members;
    assert forall j :: 0 <= j < |es| - 1 ==> Revokes(es, j, sid, cid) == Revokes(Front(es), j, sid, cid);
    assert Grants(es, k, sid, cid) == Grants(Front(es), k, sid, cid);
  }

  /** Over every run, who is the writer: whoever was granted the role and has kept it. */
  lemma {:induction false} WriterIffKept(es: seq<Event>, sid: nat, cid: nat)
    ensures IsWriter(Run(es), sid, cid) <==> exists k :: KeptSince(es, k, sid, cid)
  {
    if es != [] {
      var n := |es| - 1;
      WriterIffKept(Front(es), sid, cid);
      StepWriter(Run(Front(es)), Last(es), sid, cid);
      assert es[..n] == Front(es);
      assert KeptSince(es, n, sid, cid) <==> Grants(es, n, sid, cid);
      hide Grants, Revokes, Step, IsWriter;
      forall k | 0 <= k < n
        ensures KeptSince(es, k, sid, cid) <==> KeptSince(Front(es), k, sid, cid) && !Revokes(es, n, sid, cid)
      {
        KeptInFront(es, k, sid, cid);
      }
      WriterKeeps(es, sid, cid);
    }
  }

  lemma WriterKeeps(es: seq<Event>, sid: nat, cid: nat)
    requires es != []
    requires forall k :: 0 <= k < |es| - 1 ==>
               (KeptSince(es, k, sid, cid) <==> KeptSince(Front(es), k, sid, cid) && !Revokes(es, |es| - 1, sid, cid))
    ensures (exists k :: KeptSince(es, k, sid, cid))
       <==> KeptSince(es, |es| - 1, sid, cid)
            || ((exists k :: KeptSince(Front(es), k, sid, cid)) && !Revokes(es, |es| - 1, sid, cid))
  {
    hide Grants, Revokes;
    if k: nat :| KeptSince(es, k, sid, cid) {
      assert k < |es| - 1 ==> KeptSince(Front(es), k, sid, cid);
    }
    if k: nat :| KeptSince(Front(es), k, sid, cid) {
      assert k < |es| - 1;
    }
  }

  // ------------------------------------------------------------ a slow browser harms only itself

  /** Draining or closing some other channel. */
  predicate Foreign(e: Event, c: nat) {
    (e.Drained? || e.Closed?) && e.channel != c
  }

  /** The run without what other browsers do to their own channels. */
  function Alone(es: seq<Event>, c: nat): seq<Event> {
    if es == [] then [] else Alone(Front(es), c) + if Foreign(Last(es), c) then [] else [Last(es)]
  }

  predicate AlikeFor(h: Hub<nat>, g: Hub<nat>, c: nat) {
    && h.sessions == g.sessions && h.writer == g.writer && h.channels.Keys == g.channels.Keys
    && (c in h.channels ==> h.channels[c] == g.channels[c])
  }

  lemma StepKeepsAlike(h: Hub<nat>, g: Hub<nat>, e: Event, c: nat)
    requires AlikeFor(h, g, c)
    ensures AlikeFor(Step(h, e), if Foreign(e, c) then g else Step(g, e), c)
  {
    hide PushOutput, PushControl, Take, Shut;
    if e.Routed? || e.Notified? {
      forall d
        ensures Listens(h, e.sid, d) == Listens(g, e.sid, d)
      {
        assert Members(h, e.sid) == Members(g, e.sid);
      }
    }
  }

  /** Whether and when other browsers drain their channels changes nothing for
      this one: not its state, not what it dequeued, not anyone's role. */
  lemma {:induction false} OthersDoNotMatter(es: seq<Event>, c: nat)
    ensures AlikeFor(Run(es), Run(Alone(es, c)), c)
    ensures Taken(es, c) == Taken(Alone(es, c), c)
  {
    hide Step, Foreign, Alone;
    NothingAlone(c);
    if es != [] {
      var front, e := Front(es), Last(es);
      OthersDoNotMatter(front, c);
      StepKeepsAlike(Run(front), Run(Alone(front, c)), e, c);
      AloneNext(es, c);
      ForeignIsNotOurs(e, c);
    }
  }

  lemma NothingAlone(c: nat)
    ensures Alone([], c) == []
  {
  }

  lemma AloneNext(es: seq<Event>, c: nat)
    requires es != []
    ensures var alone := Alone(es, c);
            if Foreign(Last(es), c) then alone == Alone(Front(es), c)
            else alone != [] && Front(alone) == Alone(Front(es), c) && Last(alone) == Last(es)
  {
    hide Foreign;
  }

  lemma ForeignIsNotOurs(e: Event, c: nat)
    ensures Foreign(e, c) ==> e != Drained(c)
  {
  }

  // ------------------------------------------------------------ the class

  class TerminalRelay {
    var sessions: map<nat, map<nat, BrowserChannel>>
    var writer: map<nat, nat>
    ghost var channels: set<BrowserChannel>

    /** The hub this object stands for. */
    ghost function View(): Hub<BrowserChannel>
      reads this, channels
    {
      Hub(sessions, writer, map c | c in channels :: c.State())
    }

    ghost predicate Valid()
      reads this, channels
    {
      Wired(View())
    }

    constructor ()
      ensures Valid() && View() == Hub(map[], map[], map[])
    {
      sessions, writer, channels := map[], map[], {};
    }

    method Subscribe(sid: nat, cid: nat, channel: BrowserChannel, canWrite: bool) returns (isWriter: bool)
      requires Valid() && channel !in channels
      modifies this
      ensures Valid() && channels == old(channels) + {channel}
      ensures View() == Joined(old(View()), sid, cid, channel, channel.State(), canWrite)
      ensures isWriter == IsWriter(View(), sid, cid)
    {
      hide Wired;
      JoinedWired(View(), sid, cid, channel, channel.State(), canWrite);
      var subs: map<nat, BrowserChannel> := if sid in sessions then sessions[sid] else map[];
      sessions := sessions[sid := subs[cid := channel]];
      if canWrite && sid !in writer {
        writer := writer[sid := cid];
      }
      channels := channels + {channel};
      assert View().channels == old(View()).channels[channel := channel.State()];
      assert View() == Joined(old(View()), sid, cid, channel, channel.State(), canWrite);
      isWriter := sid in writer && writer[sid] == cid;
    }

    method Unsubscribe(sid: nat, cid: nat)
      requires Valid()
      modifies this
      ensures Valid() && channels == old(channels)
      ensures View() == Left(old(View()), sid, cid)
    {
      hide Wired;
      LeftWired(View(), sid, cid);
      if sid in sessions {
        var subs := sessions[sid] - {cid};
        if subs == map[] {
          sessions := sessions - {sid};
        } else {
          sessions := sessions[sid := subs];
        }
      }
      if sid in writer && writer[sid] == cid {
        writer := writer - {sid};
      }
      assert View() == Left(old(View()), sid, cid);
    }

    method Takeover(sid: nat, cid: nat) returns (done: bool)
      requires Valid()
      modifies this
      ensures Valid() && channels == old(channels)
      ensures View() == HandedOver(old(View()), sid, cid)
      ensures done == (cid in Members(old(View()), sid)) && (done ==> IsWriter(View(), sid, cid))
    {
      if sid !in sessions || cid !in sessions[sid] {
        return false;
      }
      writer := writer[sid := cid];
      done := true;
    }

    /** The subscribers' channels, in some order. */
    method Subscribers(sid: nat) returns (subs: seq<BrowserChannel>)
      requires Valid()
      ensures forall c :: c in subs <==> Listens(View(), sid, c)
      ensures forall c :: c in subs ==> c in channels
      ensures forall i, j :: 0 <= i < j < |subs| ==> subs[i] != subs[j]
    {
      subs := [];
      var members: map<nat, BrowserChannel> := if sid in sessions then sessions[sid] else map[];
      assert members == Members(View(), sid);
      var left := members.Keys;
      while left != {}
        invariant left <= members.Keys
        invariant forall i :: i in members && i !in left ==> members[i] in subs
        invariant forall c :: c in subs ==> exists i :: i in members && i !in left && members[i] == c
        invariant forall i, j :: 0 <= i < j < |subs| ==> subs[i] != subs[j]
      {
        var cid :| cid in left;
        NotYet(sid, members, left, cid, subs);
        subs := subs + [members[cid]];
        left := left - {cid};
      }
      MembersAreKnown(sid);
    }

    lemma NotYet(sid: nat, members: map<nat, BrowserChannel>, left: set<nat>, cid: nat, subs: seq<BrowserChannel>)
      requires Valid() && members == Members(View(), sid) && cid in left && cid in members
      requires forall c :: c in subs ==> exists i :: i in members && i !in left && members[i] == c
      ensures members[cid] !in subs
    {
    }

    lemma MembersAreKnown(sid: nat)
      requires Valid()
      ensures forall c :: Listens(View(), sid, c) ==> c in channels
    {
    }

    method RouteOutput(sid: nat, payload: seq<Byte>)
      requires Valid()
      modifies channels
      ensures View() == OutputRouted(old(View()), sid, payload)
    {
      var subs := Subscribers(sid);
      hide PushOutput, Listens, Wired, Sound, BrowserChannel.State;
      ghost var sent: set<BrowserChannel> := {};
      for k := 0 to |subs|
        invariant forall c :: c in sent <==> exists j :: 0 <= j < k && subs[j] == c
        invariant forall c :: c in channels ==>
                    c.State() == if c in sent then PushOutput(old(c.State()), payload) else old(c.State())
      {
        assert subs[k] in channels && subs[k] !in sent;
        subs[k].SendOutput(payload);
        sent := sent + {subs[k]};
      }
      assert forall c :: c in sent <==> c in subs;
      IsOutputRouted(old(View()), View(), sid, payload, sent);
    }

    method RouteControl(sid: nat, text: string)
      requires Valid()
      modifies channels
      ensures View() == ControlRouted(old(View()), sid, text)
    {
      var subs := Subscribers(sid);
      hide PushControl, Listens, Wired, Sound, BrowserChannel.State;
      ghost var sent: set<BrowserChannel> := {};
      for k := 0 to |subs|
        invariant forall c :: c in sent <==> exists j :: 0 <= j < k && subs[j] == c
        invariant forall c :: c in channels ==>
                    c.State() == if c in sent then PushControl(old(c.State()), text) else old(c.State())
      {
        assert subs[k] in channels && subs[k] !in sent;
        var refused := subs[k].SendControl(text);
        sent := sent + {subs[k]};
      }
      assert forall c :: c in sent <==> c in subs;
      IsControlRouted(old(View()), View(), sid, text, sent);
    }
  }
}
