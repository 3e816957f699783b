/** The stream slots of binary previews (`_PreviewStreams`, `release_slot`): however
    opens, generators and abandonments interleave, the counters are the number of
    outstanding slots, and each slot is given back exactly once. */
module PreviewSlots {
  import opened Nums

  // ------------------------------------------------------------ the two counters

  datatype Slots = Slots(byUser: map<nat, int>, byNode: map<nat, int>)

  /** A Counter reads zero where it holds nothing. */
  function Count(counter: map<nat, int>, key: nat): int {
    if key in counter then counter[key] else 0
  }

  function Plus(counter: map<nat, int>, key: nat): map<nat, int> {
    counter[key := Count(counter, key) + 1]
  }

  function Minus(counter: map<nat, int>, key: nat): map<nat, int> {
    if Count(counter, key) - 1 <= 0 then counter - {key} else counter[key := Count(counter, key) - 1]
  }

  datatype Limits = Limits(perUser: nat, perNode: nat)

  predicate CanAcquire(s: Slots, user: nat, node: nat, limits: Limits) {
    Count(s.byUser, user) < limits.perUser && Count(s.byNode, node) < limits.perNode
  }

  function Acquired(s: Slots, user: nat, node: nat): Slots {
    Slots(Plus(s.byUser, user), Plus(s.byNode, node))
  }

  function Released(s: Slots, user: nat, node: nat): Slots {
    Slots(Minus(s.byUser, user), Minus(s.byNode, node))
  }

  class PreviewStreams {
    var byUser: map<nat, int>
    var byNode: map<nat, int>

    function State(): Slots
      reads this
    {
      Slots(byUser, byNode)
    }

    constructor ()
      ensures State() == Slots(map[], map[])
    {
      byUser, byNode := map[], map[];
    }

    method Acquire(user: nat, node: nat, perUser: nat, perNode: nat) returns (ok: bool)
      modifies this
      ensures ok == CanAcquire(old(State()), user, node, Limits(perUser, perNode))
      ensures State() == if ok then Acquired(old(State()), user, node) else old(State())
    {
      if Count(byUser, user) >= perUser || Count(byNode, node) >= perNode {
        return false;
      }
      byUser := byUser[user := Count(byUser, user) + 1];
      byNode := byNode[node := Count(byNode, node) + 1];
      ok := true;
    }

    method Release(user: nat, node: nat)
      modifies this
      ensures State() == Released(old(State()), user, node)
    {
      byUser := byUser[user := Count(byUser, user) - 1];
      byNode := byNode[node := Count(byNode, node) - 1];
      if byUser[user] <= 0 {
        byUser := byUser - {user};
      }
      if byNode[node] <= 0 {
        byNode := byNode - {node};
      }
      assert State() == Released(old(State()), user, node);
    }
  }

  /** The slot of one stream. */
  class BinaryPreviewStream {
    const actor: nat
    const node: nat
    var released: bool

    constructor (actor_: nat, node_: nat)
      ensures actor == actor_ && node == node_ && !released
    {
      actor, node, released := actor_, node_, false;
    }

    method ReleaseSlot(slots: PreviewStreams)
      modifies this, slots
      ensures released
      ensures slots.State() == if old(released) then old(slots.State()) else Released(old(slots.State()), actor, node)
    {
      if !released {
        released := true;
        slots.Release(actor, node);
      }
    }
  }

  // ------------------------------------------------------------ the life of a preview

  /** The generator of a stream: not yet iterated, in its loop, in its `finally`
      waiting for the node's close, or over. */
  datatype Generator = Unstarted | Looping | Closing | Over

  /** One call of `open_binary_preview`, and the stream it may have produced.
      `abandoning` counts the calls of `abandon_binary_preview` that wait for the
      node's close; `abandoned` says one was made. */
  datatype Preview = Preview(user: nat, node: nat, opening: bool, failed: bool, generator: Generator,
                             abandoning: nat, abandoned: bool, finished: bool, released: bool)

  datatype World = World(slots: Slots, previews: map<nat, Preview>)

  datatype Event =
    | Open(id: nat, user: nat, node: nat)
    | OpenFails(id: nat)
    | OpenSucceeds(id: nat)
    | Start(id: nat)
    | Finally(id: nat)
    | CloseReturns(id: nat)
    | NeverStarted(id: nat)
    | Abandon(id: nat)
    | AbandonReturns(id: nat)

  predicate Streams(w: World, id: nat) {
    id in w.previews && !w.previews[id].opening && !w.previews[id].failed
  }

  /** When an event can happen: opens are new calls, and generators follow Python's
      rules (an unstarted one that is closed runs nothing). */
  predicate Legal(w: World, e: Event) {
    match e
    case Open(id, user, node) => id !in w.previews
    case OpenFails(id) => id in w.previews && w.previews[id].opening
    case OpenSucceeds(id) => id in w.previews && w.previews[id].opening
    case Start(id) => Streams(w, id) && w.previews[id].generator == Unstarted
    case Finally(id) => Streams(w, id) && w.previews[id].generator == Looping
    case CloseReturns(id) => Streams(w, id) && w.previews[id].generator == Closing
    case NeverStarted(id) => Streams(w, id) && w.previews[id].generator == Unstarted
    case Abandon(id) => Streams(w, id)
    case AbandonReturns(id) => Streams(w, id) && w.previews[id].abandoning > 0
  }

  function Put(w: World, id: nat, p: Preview): World {
    w.(previews := w.previews[id := p])
  }

  /** `release_slot`. */
  function ReleaseSlot(w: World, id: nat): World
    requires id in w.previews
  {
    var p := w.previews[id];
    if p.released then w
    else World(Released(w.slots, p.user, p.node), w.previews[id := p.(released := true)])
  }

  function Step(w: World, e: Event, limits: Limits): World
    requires Legal(w, e)
  {
    match e
    case Open(id, user, node) =>
      if !CanAcquire(w.slots, user, node, limits) then w
      else
        World(Acquired(w.slots, user, node),
              w.previews[id := Preview(user, node, true, false, Unstarted, 0, false, false, false)])
    case OpenFails(id) =>
      // The `finally` of an open that does not own a stream gives the slot back itself.
      var p := w.previews[id];
      World(Released(w.slots, p.user, p.node), w.previews[id := p.(opening := false, failed := true, released := true)])
    case OpenSucceeds(id) => Put(w, id, w.previews[id].(opening := false))
    case Start(id) => Put(w, id, w.previews[id].(generator := Looping))
    case Finally(id) => Put(w, id, w.previews[id].(generator := Closing, finished := true))
    case CloseReturns(id) => ReleaseSlot(Put(w, id, w.previews[id].(generator := Over)), id)
    case NeverStarted(id) => Put(w, id, w.previews[id].(generator := Over))
    case Abandon(id) =>
      var p := w.previews[id].(abandoned := true);
      Put(w, id, if p.finished then p else p.(finished := true, abandoning := p.abandoning + 1))
    case AbandonReturns(id) =>
      ReleaseSlot(Put(w, id, w.previews[id].(abandoning := w.previews[id].abandoning - 1)), id)
  }

  const START := World(Slots(map[], map[]), map[])

  ghost predicate Reaches(es: seq<Event>, w: World, limits: Limits) {
    if es == [] then w == START
    else
      var e := es[|es| - 1];
      exists v :: Reaches(es[..|es| - 1], v, limits) && Legal(v, e) && w == Step(v, e, limits)
  }

  // ------------------------------------------------------------ the counters count

  function HeldBy(w: World, user: nat): set<nat> {
    set id | id in w.previews && !w.previews[id].released && w.previews[id].user == user
  }

  function HeldOn(w: World, node: nat): set<nat> {
    set id | id in w.previews && !w.previews[id].released && w.previews[id].node == node
  }

  /** Each counter is the number of slots not given back, and within its limit. */
  ghost predicate Balanced(w: World, limits: Limits) {
    && (forall u :: |HeldBy(w, u)| == Count(w.slots.byUser, u) <= limits.perUser)
    && (forall n :: |HeldOn(w, n)| == Count(w.slots.byNode, n) <= limits.perNode)
  }

  /** Nothing is forgotten: a stream that said it is finished has given its slot
      back, or someone who will is still waiting for the node. */
  predicate Accounted(p: Preview) {
    && (p.opening ==> !p.released && p.generator == Unstarted && !p.finished)
    && (p.failed ==> p.released)
    && (p.finished && !p.released ==> p.generator == Closing || p.abandoning > 0)
    && (p.generator == Closing ==> p.finished)
    && (p.abandoned ==> p.finished)
    && (p.abandoning > 0 ==> p.abandoned)
    && (p.released && !p.failed ==> p.finished)
  }

  ghost predicate Inv(w: World, limits: Limits) {
    && Balanced(w, limits)
    && forall id :: id in w.previews ==> Accounted(w.previews[id])
  }

  lemma CountChange(counter: map<nat, int>, key: nat, k: nat)
    requires Count(counter, key) >= 0
    ensures Count(Plus(counter, key), k) == Count(counter, k) + if k == key then 1 else 0
    ensures Count(counter, key) >= 1 ==> Count(Minus(counter, key), k) == Count(counter, k) - if k == key then 1 else 0
  {
  }

  /** The set of held ids after preview `id` became `p`. */
  lemma HeldChange(w: World, v: World, id: nat, p: Preview, k: nat)
    requires v.previews == w.previews[id := p]
    requires id in w.previews ==> w.previews[id].user == p.user && w.previews[id].node == p.node
    ensures var before, now := id in w.previews && !w.previews[id].released, !p.released;
            && |HeldBy(v, k)|
               == |HeldBy(w, k)| + (if p.user == k && now then 1 else 0) - (if p.user == k && before then 1 else 0)
            && |HeldOn(v, k)|
               == |HeldOn(w, k)| + (if p.node == k && now then 1 else 0) - (if p.node == k && before then 1 else 0)
  {
    SameOthers(w, v, id, k);
    Without(HeldBy(v, k), id);
    Without(HeldBy(w, k), id);
    Without(HeldOn(v, k), id);
    Without(HeldOn(w, k), id);
    HeldItself(w, id, k);
    HeldItself(v, id, k);
    hide HeldBy, HeldOn;
  }

  lemma HeldItself(w: World, id: nat, k: nat)
    ensures id in HeldBy(w, k) <==> id in w.previews && !w.previews[id].released && w.previews[id].user == k
    ensures id in HeldOn(w, k) <==> id in w.previews && !w.previews[id].released && w.previews[id].node == k
  {
  }

  lemma SameOthers(w: World, v: World, id: nat, k: nat)
    requires v.previews.Keys == w.previews.Keys + {id}
    requires forall d :: d in w.previews && d != id ==> v.previews[d] == w.previews[d]
    ensures HeldBy(v, k) - {id} == HeldBy(w, k) - {id}
    ensures HeldOn(v, k) - {id} == HeldOn(w, k) - {id}
  {
  }

  lemma Without(s: set<nat>, id: nat)
    ensures |s| == |s - {id}| + if id in s then 1 else 0
  {
    if id in s {
      assert s == (s - {id}) + {id};
    } else {
      assert s == s - {id};
    }
  }

  /** A change that neither takes nor gives back a slot. */
  lemma PutKeepsBalance(w: World, id: nat, p: Preview, limits: Limits)
    requires Balanced(w, limits) && id in w.previews
    requires p.user == w.previews[id].user && p.node == w.previews[id].node && p.released == w.previews[id].released
    ensures Balanced(Put(w, id, p), limits)
  {
    hide HeldBy, HeldOn, Count;
    forall k
      ensures |HeldBy(Put(w, id, p), k)| == |HeldBy(w, k)| && |HeldOn(Put(w, id, p), k)| == |HeldOn(w, k)|
    {
      HeldChange(w, Put(w, id, p), id, p, k);
    }
  }

  lemma ReleaseKeepsBalance(w: World, id: nat, p: Preview, limits: Limits)
    requires Balanced(w, limits) && id in w.previews && !w.previews[id].released && p.released
    requires p.user == w.previews[id].user && p.node == w.previews[id].node
    ensures Balanced(World(Released(w.slots, p.user, p.node), w.previews[id := p]), limits)
  {
    var v := World(Released(w.slots, p.user, p.node), w.previews[id := p]);
    HeldChange(w, v, id, p, p.user);
    HeldChange(w, v, id, p, p.node);
    hide HeldBy, HeldOn, Count, Minus;
    forall k
      ensures Count(v.slots.byUser, k) == |HeldBy(v, k)| <= limits.perUser
      ensures Count(v.slots.byNode, k) == |HeldOn(v, k)| <= limits.perNode
    {
      HeldChange(w, v, id, p, k);
      CountChange(w.slots.byUser, p.user, k);
      CountChange(w.slots.byNode, p.node, k);
    }
  }

  lemma AcquireKeepsBalance(w: World, id: nat, p: Preview, limits: Limits)
    requires Balanced(w, limits) && id !in w.previews && !p.released && CanAcquire(w.slots, p.user, p.node, limits)
    ensures Balanced(World(Acquired(w.slots, p.user, p.node), w.previews[id := p]), limits)
  {
    var v := World(Acquired(w.slots, p.user, p.node), w.previews[id := p]);
    hide HeldBy, HeldOn, Count, Plus;
    forall k
      ensures Count(v.slots.byUser, k) == |HeldBy(v, k)| <= limits.perUser
      ensures Count(v.slots.byNode, k) == |HeldOn(v, k)| <= limits.perNode
    {
      HeldChange(w, v, id, p, k);
      CountChange(w.slots.byUser, p.user, k);
      CountChange(w.slots.byNode, p.node, k);
    }
  }

  lemma ReleaseSlotKeepsBalance(w: World, id: nat, limits: Limits)
    requires Balanced(w, limits) && id in w.previews
    ensures Balanced(ReleaseSlot(w, id), limits)
  {
    hide Balanced, Released;
    if !w.previews[id].released {
      ReleaseKeepsBalance(w, id, w.previews[id].(released := true), limits);
    }
  }

  lemma StepKeepsBalance(w: World, e: Event, limits: Limits)
    requires Inv(w, limits) && Legal(w, e)
    ensures Balanced(Step(w, e, limits), limits)
  {
    hide Balanced, CanAcquire, Acquired, Released, ReleaseSlot;
    match e
    case Open(id, user, node) =>
      if CanAcquire(w.slots, user, node, limits) {
        AcquireKeepsBalance(w, id, Preview(user, node, true, false, Unstarted, 0, false, false, false), limits);
      }
    case OpenFails(id) =>
      ReleaseKeepsBalance(w, id, w.previews[id].(opening := false, failed := true, released := true), limits);
    case OpenSucceeds(id) => PutKeepsBalance(w, id, w.previews[id].(opening := false), limits);
    case Start(id) => PutKeepsBalance(w, id, w.previews[id].(generator := Looping), limits);
    case Finally(id) => PutKeepsBalance(w, id, w.previews[id].(generator := Closing, finished := true), limits);
    case CloseReturns(id) =>
      var p := w.previews[id].(generator := Over);
      PutKeepsBalance(w, id, p, limits);
      ReleaseSlotKeepsBalance(Put(w, id, p), id, limits);
    case NeverStarted(id) => PutKeepsBalance(w, id, w.previews[id].(generator := Over), limits);
    case Abandon(id) =>
      var p := w.previews[id].(abandoned := true);
      PutKeepsBalance(w, id, if p.finished then p else p.(finished := true, abandoning := p.abandoning + 1), limits);
    case AbandonReturns(id) =>
      var p := w.previews[id].(abandoning := w.previews[id].abandoning - 1);
      PutKeepsBalance(w, id, p, limits);
      ReleaseSlotKeepsBalance(Put(w, id, p), id, limits);
  }

  lemma StepKeepsAccounts(w: World, e: Event, limits: Limits)
    requires Legal(w, e) && forall id :: id in w.previews ==> Accounted(w.previews[id])
    ensures forall id :: id in Step(w, e, limits).previews ==> Accounted(Step(w, e, limits).previews[id])
  {
    hide CanAcquire, Acquired, Released;
    var v := Step(w, e, limits);
    forall id | id in v.previews
      ensures Accounted(v.previews[id])
    {
      if id != e.id {
        assert id in w.previews && v.previews[id] == w.previews[id];
      }
    }
  }

  /** Over every run: the counters equal the outstanding slots and never pass
      their limits. */
  lemma {:induction false} EveryRunIsBalanced(es: seq<Event>, w: World, limits: Limits)
    requires Reaches(es, w, limits)
    ensures Inv(w, limits)
  {
    if es == [] {
      assert forall k :: HeldBy(w, k) == {} && HeldOn(w, k) == {};
    } else {
      var e := es[|es| - 1];
      var v :| Reaches(es[..|es| - 1], v, limits) && Legal(v, e) && w == Step(v, e, limits);
      EveryRunIsBalanced(es[..|es| - 1], v, limits);
      StepKeepsBalance(v, e, limits);
      StepKeepsAccounts(v, e, limits);
    }
  }

  /** No counter keeps an entry that counts nothing. */
  predicate Lean(s: Slots) {
    (forall u :: u in s.byUser ==> s.byUser[u] > 0) && forall n :: n in s.byNode ==> s.byNode[n] > 0
  }

  lemma StepKeepsLean(w: World, e: Event, limits: Limits)
    requires Inv(w, limits) && Lean(w.slots) && Legal(w, e)
    ensures Lean(Step(w, e, limits).slots)
  {
    hide HeldBy, HeldOn, Streams;
    CountsAreCounts(w, limits);
    hide Inv;
  }

  lemma CountsAreCounts(w: World, limits: Limits)
    requires Inv(w, limits)
    ensures forall k :: Count(w.slots.byUser, k) >= 0 && Count(w.slots.byNode, k) >= 0
  {
    hide Count;
    forall k
      ensures Count(w.slots.byUser, k) >= 0 && Count(w.slots.byNode, k) >= 0
    {
      assert |HeldBy(w, k)| == Count(w.slots.byUser, k) && |HeldOn(w, k)| == Count(w.slots.byNode, k);
    }
  }

  /** Over every run the counters have an entry for exactly the users and the nodes with a
      slot out: they do not grow with the users that come and go. */
  lemma {:induction false} EntriesAreHeld(es: seq<Event>, w: World, limits: Limits, k: nat)
    requires Reaches(es, w, limits)
    ensures Lean(w.slots)
    ensures k in w.slots.byUser <==> HeldBy(w, k) != {}
    ensures k in w.slots.byNode <==> HeldOn(w, k) != {}
  {
    EveryRunIsBalanced(es, w, limits);
    if es != [] {
      var e := es[|es| - 1];
      var v :| Reaches(es[..|es| - 1], v, limits) && Legal(v, e) && w == Step(v, e, limits);
      EveryRunIsBalanced(es[..|es| - 1], v, limits);
      EntriesAreHeld(es[..|es| - 1], v, limits, k);
      StepKeepsLean(v, e, limits);
    }
    assert |HeldBy(w, k)| == Count(w.slots.byUser, k) && |HeldOn(w, k)| == Count(w.slots.byNode, k);
    hide Reaches, Inv;
    assert HeldBy(w, k) == {} <==> |HeldBy(w, k)| == 0;
    assert HeldOn(w, k) == {} <==> |HeldOn(w, k)| == 0;
  }

  /** An open gets a slot exactly while its user and its node have fewer slots out than
      they may. */
  lemma OpenAdmittedIff(w: World, id: nat, user: nat, node: nat, limits: Limits)
    requires Inv(w, limits) && Legal(w, Open(id, user, node))
    ensures var v := Step(w, Open(id, user, node), limits);
            if |HeldBy(w, user)| < limits.perUser && |HeldOn(w, node)| < limits.perNode then
              id in v.previews && HeldBy(v, user) == HeldBy(w, user) + {id} && HeldOn(v, node) == HeldOn(w, node) + {id}
            else v == w
  {
    hide Count;
  }

  /** A slot is given back at most once, and is never taken again. */
  lemma ReleasedOnce(w: World, e: Event, id: nat, limits: Limits)
    requires Inv(w, limits) && Legal(w, e) && id in w.previews && w.previews[id].released
    ensures id in Step(w, e, limits).previews && Step(w, e, limits).previews[id].released
    ensures e.id == id ==> Step(w, e, limits).slots == w.slots
  {
    assert Accounted(w.previews[id]);
  }

  /** And at least once: when the open failed, or when the response has closed the
      generator and abandoned the stream and no call waits for the node any more. */
  lemma ReleasedInTheEnd(w: World, id: nat, limits: Limits)
    requires Inv(w, limits) && id in w.previews
    requires w.previews[id].failed
             || (w.previews[id].generator == Over && w.previews[id].abandoned && w.previews[id].abandoning == 0)
    ensures w.previews[id].released
  {
    assert Accounted(w.previews[id]);
  }

  /** With every preview over, both counters are back at zero everywhere. */
  lemma QuietCountersAreZero(w: World, limits: Limits, k: nat)
    requires Inv(w, limits)
    requires forall id :: id in w.previews ==>
               w.previews[id].failed
               || (w.previews[id].generator == Over && w.previews[id].abandoned && w.previews[id].abandoning == 0)
    ensures Count(w.slots.byUser, k) == 0 && Count(w.slots.byNode, k) == 0
  {
    forall id | id in w.previews
      ensures w.previews[id].released
    {
      ReleasedInTheEnd(w, id, limits);
    }
    assert HeldBy(w, k) == {} && HeldOn(w, k) == {};
  }

  /** Closing a generator that never ran releases nothing by itself: the call of
      `abandon_binary_preview` after it is what gives the slot back. */
  lemma AbandonIsNeeded(w: World, id: nat, limits: Limits)
    requires Legal(w, NeverStarted(id)) && Accounted(w.previews[id]) && !w.previews[id].finished
    ensures var v := Step(w, NeverStarted(id), limits);
            && v.slots == w.slots && !v.previews[id].released
            && Legal(v, Abandon(id)) && Legal(Step(v, Abandon(id), limits), AbandonReturns(id))
            && Step(Step(v, Abandon(id), limits), AbandonReturns(id), limits).previews[id].released
  {
  }
}
