/** Node connections and request correlation (`NodeConnectionRegistry`). A request
    is two steps, what happens before its first await and what happens when it
    resumes; every other operation but `close_all` runs without a suspension. */
module Registry {
  import opened Nums

  datatype Future = Waiting | Replied(message: string) | Failed

  /** The registry's mutable state; connections and futures are named by any types. */
  datatype Table<C, F> = Table(connections: map<nat, C>, pending: map<C, map<string, F>>, futures: map<F, Future>)

  function PendingOf<C, F>(t: Table<C, F>, c: C): map<string, F> {
    if c in t.pending then t.pending[c] else map[]
  }

  // ------------------------------------------------------------ the operations

  /** `_fail_pending`. */
  function FailedPending<C, F>(t: Table<C, F>, c: C): Table<C, F> {
    if c !in t.pending then t
    else
      t.(pending := t.pending[c := map[]],
         futures := map f | f in t.futures ::
           if f in t.pending[c].Values && t.futures[f] == Waiting then Failed else t.futures[f])
  }

  /** `register` with a new connection object. */
  function Registered<C, F>(t: Table<C, F>, node: nat, c: C): Table<C, F> {
    var next := t.(connections := t.connections[node := c], pending := t.pending[c := map[]]);
    if node in t.connections then FailedPending(next, t.connections[node]) else next
  }

  predicate IsCurrent<C, F>(t: Table<C, F>, node: nat, c: C) {
    node in t.connections && t.connections[node] == c
  }

  function Removed<C, F>(t: Table<C, F>, node: nat, c: C): Table<C, F> {
    FailedPending(if IsCurrent(t, node, c) then t.(connections := t.connections - {node}) else t, c)
  }

  function Evicted<C, F>(t: Table<C, F>, node: nat): Table<C, F> {
    if node in t.connections then Removed(t, node, t.connections[node]) else t
  }

  datatype Admission = Admitted | Offline | Busy

  function Admit<C, F>(t: Table<C, F>, node: nat, max: nat): Admission {
    if node !in t.connections then Offline
    else if |PendingOf(t, t.connections[node])| >= max then Busy
    else Admitted
  }

  /** `request` up to its first await, on a connected node. */
  function Begun<C, F>(t: Table<C, F>, node: nat, rid: string, f: F): Table<C, F>
    requires node in t.connections
  {
    var c := t.connections[node];
    t.(pending := t.pending[c := PendingOf(t, c)[rid := f]], futures := t.futures[f := Waiting])
  }

  /** Whether `resolve_response` finds a waiter. */
  predicate Resolvable<C, F>(t: Table<C, F>, node: nat, rid: string) {
    && node in t.connections
    && rid in PendingOf(t, t.connections[node])
    && PendingOf(t, t.connections[node])[rid] in t.futures
    && t.futures[PendingOf(t, t.connections[node])[rid]] == Waiting
  }

  function Resolved<C, F>(t: Table<C, F>, node: nat, rid: string, message: string): Table<C, F> {
    if Resolvable(t, node, rid) then
      t.(futures := t.futures[PendingOf(t, t.connections[node])[rid] := Replied(message)])
    else t
  }

  /** The `finally` of `request`. */
  function Dropped<C, F>(t: Table<C, F>, c: C, rid: string): Table<C, F> {
    if c in t.pending then t.(pending := t.pending[c := t.pending[c] - {rid}]) else t
  }

  // ------------------------------------------------------------ runs

  datatype Task = Task(conn: nat, rid: string)

  datatype Outcome = Answered(message: string) | NodeOffline | NodeBusy | RequestTimeout | Cancelled | SendFailed

  /** How a suspended request resumes. A timeout or a cancellation may come after
      the future is done: it then wins over the reply. */
  datatype Resumption = FutureDone | TimedOut | Abandoned | SendRaised

  datatype World = World(table: Table<nat, nat>, draining: set<nat>, tasks: map<nat, Task>, outcomes: map<nat, Outcome>)

  datatype Event =
    | Register(node: nat, conn: nat)
    | Remove(node: nat, conn: nat)
    | Evict(node: nat)
    | CloseAll(first: nat)
    | DrainOne(conn: nat)
    | Begin(task: nat, node: nat, rid: string)
    | Resolve(node: nat, rid: string, message: string)
    | Resume(task: nat, how: Resumption)

  predicate Open(w: World, task: nat) {
    task in w.tasks && task !in w.outcomes && task in w.table.futures
  }

  /** The outcome of a request that resumes. */
  function OutcomeOf(w: World, task: nat, how: Resumption): Outcome
    requires Open(w, task) && (how == FutureDone ==> w.table.futures[task] != Waiting)
  {
    match how
    case TimedOut => RequestTimeout
    case Abandoned => Cancelled
    case SendRaised => SendFailed
    case FutureDone =>
      if w.table.futures[task] == Failed then NodeOffline else Answered(w.table.futures[task].message)
  }

  /** Connections, tasks and request ids are new where the source makes them. */
  predicate Legal(w: World, e: Event) {
    match e
    case Register(node, c) => c !in w.table.pending
    case CloseAll(first) => w.table.connections != map[] ==> first in w.table.connections.Values
    case DrainOne(c) => c in w.draining
    case Begin(task, node, rid) =>
      task !in w.tasks && task !in w.outcomes && task !in w.table.futures
      && forall t :: t in w.tasks ==> w.tasks[t].rid != rid
    case Resume(task, how) => Open(w, task) && (how == FutureDone ==> w.table.futures[task] != Waiting)
    case _ => true
  }

  /** `close_all` clears the connections and fails the first of them in one step; each
      of the others is failed after one more suspension. */
  function Cleared(w: World): World {
    w.(table := w.table.(connections := map[]), draining := w.draining + w.table.connections.Values)
  }

  function Drained(w: World, c: nat): World {
    w.(table := FailedPending(w.table, c), draining := w.draining - {c})
  }

  function Step(w: World, e: Event, max: nat): World
    requires Legal(w, e)
  {
    match e
    case Register(node, c) => w.(table := Registered(w.table, node, c))
    case Remove(node, c) => w.(table := Removed(w.table, node, c))
    case Evict(node) => w.(table := Evicted(w.table, node))
    case CloseAll(first) => if w.table.connections == map[] then w else Drained(Cleared(w), first)
    case DrainOne(c) => Drained(w, c)
    case Resolve(node, rid, message) => w.(table := Resolved(w.table, node, rid, message))
    case Resume(task, how) =>
      w.(table := Dropped(w.table, w.tasks[task].conn, w.tasks[task].rid),
         outcomes := w.outcomes[task := OutcomeOf(w, task, how)])
    case Begin(task, node, rid) =>
      match Admit(w.table, node, max)
      case Offline => w.(outcomes := w.outcomes[task := NodeOffline])
      case Busy => w.(outcomes := w.outcomes[task := NodeBusy])
      case Admitted =>
        w.(table := Begun(w.table, node, rid, task), tasks := w.tasks[task := Task(w.table.connections[node], rid)])
  }

  const START := World(Table(map[], map[], map[]), {}, map[], map[])

  /** The run `es` is legal and leads to `w`. */
  ghost predicate Reaches(es: seq<Event>, w: World, max: nat) {
    if es == [] then w == START
    else
      var e := es[|es| - 1];
      exists v :: Reaches(es[..|es| - 1], v, max) && Legal(v, e) && w == Step(v, e, max)
  }

  // ------------------------------------------------------------ the invariant

  ghost predicate Current(w: World, c: nat) {
    exists node :: node in w.table.connections && w.table.connections[node] == c
  }

  /** Live connections are known, and belong to one node. */
  ghost predicate ConnectionsSound(w: World) {
    && (forall n :: n in w.table.connections ==> w.table.connections[n] in w.table.pending)
    && (forall n, m :: n in w.table.connections && m in w.table.connections && n != m ==>
          w.table.connections[n] != w.table.connections[m])
    && (forall c :: c in w.draining ==> c in w.table.pending && !Current(w, c))
  }

  /** No waiter is stranded: what it waits for is in the table of a connection
      that is current, or that `close_all` is about to fail. */
  ghost predicate WaitersReachable(w: World) {
    forall t :: Open(w, t) && w.table.futures[t] == Waiting ==>
      var c, rid := w.tasks[t].conn, w.tasks[t].rid;
      rid in PendingOf(w.table, c) && PendingOf(w.table, c)[rid] == t && (Current(w, c) || c in w.draining)
  }

  /** No entry leaks: each belongs to a request that has not ended. */
  ghost predicate EntriesOpen(w: World) {
    forall c, rid :: c in w.table.pending && rid in w.table.pending[c] ==>
      var t := w.table.pending[c][rid];
      Open(w, t) && w.tasks[t] == Task(c, rid)
  }

  ghost predicate WithinBound(w: World, max: nat) {
    forall c :: c in w.table.pending ==> |w.table.pending[c]| <= max
  }

  /** A connection that is no longer current has an empty table, except while
      `close_all` has not come to it yet. */
  ghost predicate OldTablesEmpty(w: World) {
    forall c :: c in w.table.pending && !Current(w, c) && c !in w.draining ==> w.table.pending[c] == map[]
  }

  ghost predicate TasksDistinct(w: World) {
    && (forall t :: t in w.tasks ==> t in w.table.futures)
    && (forall t, u :: t in w.tasks && u in w.tasks && t != u ==> w.tasks[t].rid != w.tasks[u].rid)
  }

  /** An answer is what the daemon replied. */
  ghost predicate AnswersGenuine(w: World) {
    forall t :: t in w.outcomes && w.outcomes[t].Answered? ==>
      t in w.table.futures && w.table.futures[t] == Replied(w.outcomes[t].message)
  }

  ghost predicate Inv(w: World, max: nat) {
    && ConnectionsSound(w)
    && WaitersReachable(w)
    && EntriesOpen(w)
    && WithinBound(w, max)
    && OldTablesEmpty(w)
    && TasksDistinct(w)
    && AnswersGenuine(w)
  }

  // ------------------------------------------------------------ failing a table

  /** `_fail_pending` wakes every waiter of the connection and no other. */
  lemma FailKeepsOthers<C, F>(t: Table<C, F>, c: C)
    ensures FailedPending(t, c).connections == t.connections
    ensures FailedPending(t, c).pending.Keys == t.pending.Keys
    ensures FailedPending(t, c).futures.Keys == t.futures.Keys
    ensures PendingOf(FailedPending(t, c), c) == map[]
    ensures forall d :: d in t.pending && d != c ==> FailedPending(t, c).pending[d] == t.pending[d]
    ensures forall f :: f in t.futures && t.futures[f] != Waiting ==> FailedPending(t, c).futures[f] == t.futures[f]
    ensures forall f :: f in t.futures && t.futures[f] == Waiting ==>
              FailedPending(t, c).futures[f] == if f in PendingOf(t, c).Values then Failed else Waiting
  {
  }

  /** What a waiter of an open request relies on, `c` being about to be failed. */
  ghost predicate WaitersReachableBut(w: World, c: nat) {
    forall t :: Open(w, t) && w.table.futures[t] == Waiting ==>
      var d, rid := w.tasks[t].conn, w.tasks[t].rid;
      && rid in PendingOf(w.table, d) && PendingOf(w.table, d)[rid] == t
      && (d == c || Current(w, d) || d in w.draining)
  }

  ghost predicate OldTablesEmptyBut(w: World, c: nat) {
    forall d :: d in w.table.pending && d != c && !Current(w, d) && d !in w.draining ==> w.table.pending[d] == map[]
  }

  /** A world in which only `c` may have lost its place. */
  ghost predicate InvBut(w: World, c: nat, max: nat) {
    && ConnectionsSound(w)
    && WaitersReachableBut(w, c)
    && EntriesOpen(w)
    && WithinBound(w, max)
    && OldTablesEmptyBut(w, c)
    && TasksDistinct(w)
    && AnswersGenuine(w)
  }

  /** The same connections are current and the same requests open. */
  ghost predicate SameStanding(w: World, v: World) {
    && v.tasks == w.tasks && v.outcomes == w.outcomes
    && (forall d :: Current(v, d) == Current(w, d))
    && (forall t :: Open(v, t) == Open(w, t))
  }

  lemma Standing(w: World, v: World)
    requires v.table.connections == w.table.connections && v.table.futures.Keys == w.table.futures.Keys
    requires v.tasks == w.tasks && v.outcomes == w.outcomes
    ensures SameStanding(w, v)
  {
    forall d
      ensures Current(v, d) == Current(w, d)
    {
    }
  }

  lemma WaiterIsInTable(w: World, c: nat, t: nat)
    requires WaitersReachableBut(w, c) && Open(w, t) && w.table.futures[t] == Waiting
    ensures w.tasks[t].conn == c ==> t in PendingOf(w.table, c).Values
  {
    if w.tasks[t].conn == c {
      assert w.tasks[t].rid in PendingOf(w.table, c);
    }
  }

  lemma FailWaiters(w: World, v: World, c: nat)
    requires WaitersReachableBut(w, c) && TasksDistinct(w)
    requires v == w.(table := FailedPending(w.table, c)) && SameStanding(w, v)
    ensures WaitersReachable(v)
  {
    FailKeepsOthers(w.table, c);
    hide FailedPending, SameStanding, Current;
    forall t | Open(v, t) && v.table.futures[t] == Waiting
      ensures Open(w, t) && w.table.futures[t] == Waiting
      ensures w.tasks[t].conn != c
    {
      assert Open(w, t);
      WaiterIsInTable(w, c, t);
    }
    StandingOf(w, v);
  }

  lemma StandingOf(w: World, v: World)
    requires SameStanding(w, v)
    ensures forall d :: Current(v, d) == Current(w, d)
    ensures forall t :: Open(v, t) == Open(w, t)
  {
  }

  lemma FailEntries(w: World, v: World, c: nat, max: nat)
    requires EntriesOpen(w) && WithinBound(w, max) && TasksDistinct(w) && AnswersGenuine(w)
    requires v == w.(table := FailedPending(w.table, c)) && SameStanding(w, v)
    ensures EntriesOpen(v) && WithinBound(v, max) && TasksDistinct(v) && AnswersGenuine(v)
  {
    FailKeepsOthers(w.table, c);
    StandingOf(w, v);
    hide FailedPending, SameStanding, Current;
  }

  lemma FailConnections(w: World, v: World, c: nat)
    requires ConnectionsSound(w) && OldTablesEmptyBut(w, c)
    requires v == w.(table := FailedPending(w.table, c)) && SameStanding(w, v)
    ensures ConnectionsSound(v) && OldTablesEmpty(v)
  {
    FailKeepsOthers(w.table, c);
    StandingOf(w, v);
    hide FailedPending, SameStanding, Current;
  }

  /** `_fail_pending` makes good a connection's loss of its place. */
  lemma FailRestores(w: World, c: nat, max: nat)
    requires InvBut(w, c, max)
    ensures Inv(w.(table := FailedPending(w.table, c)), max)
  {
    hide FailedPending, SameStanding, WaitersReachable, WaitersReachableBut, EntriesOpen, WithinBound, TasksDistinct,
         AnswersGenuine, ConnectionsSound, OldTablesEmpty, OldTablesEmptyBut;
    var v := w.(table := FailedPending(w.table, c));
    FailKeepsOthers(w.table, c);
    Standing(w, v);
    FailWaiters(w, v, c);
    FailEntries(w, v, c, max);
    FailConnections(w, v, c);
  }

  // ------------------------------------------------------------ every step keeps it

  /** Taking node's connection away leaves only that connection to be failed. */
  lemma UnlinkingLeavesOne(w: World, node: nat, c: nat, max: nat)
    requires Inv(w, max) && IsCurrent(w.table, node, c)
    ensures InvBut(w.(table := w.table.(connections := w.table.connections - {node})), c, max)
  {
    var v := w.(table := w.table.(connections := w.table.connections - {node}));
    CurrentAfterUnlinking(w, v, node, c);
    UnlinkedTables(w, v, c, max);
    hide Current;
    assert ConnectionsSound(v);
  }

  /** Only `c` ceased to be current, and no table changed. */
  lemma UnlinkedTables(w: World, v: World, c: nat, max: nat)
    requires Inv(w, max) && v == w.(table := w.table.(connections := v.table.connections))
    requires forall d :: Current(v, d) <==> Current(w, d) && d != c
    ensures WaitersReachableBut(v, c) && EntriesOpen(v) && WithinBound(v, max) && OldTablesEmptyBut(v, c)
    ensures TasksDistinct(v) && AnswersGenuine(v)
  {
    hide Current, ConnectionsSound;
    forall t
      ensures Open(v, t) == Open(w, t)
    {
    }
  }

  lemma CurrentAfterUnlinking(w: World, v: World, node: nat, c: nat)
    requires ConnectionsSound(w) && IsCurrent(w.table, node, c)
    requires v.table.connections == w.table.connections - {node}
    ensures forall d :: Current(v, d) <==> Current(w, d) && d != c
  {
    forall d
      ensures Current(v, d) <==> Current(w, d) && d != c
    {
      if Current(w, d) && d != c {
        var n :| n in w.table.connections && w.table.connections[n] == d;
        assert n in v.table.connections && v.table.connections[n] == d;
      }
    }
  }

  lemma InvIsInvBut(w: World, c: nat, max: nat)
    requires Inv(w, max)
    ensures InvBut(w, c, max)
  {
  }

  lemma RemoveKeeps(w: World, node: nat, c: nat, max: nat)
    requires Inv(w, max)
    ensures Inv(w.(table := Removed(w.table, node, c)), max)
  {
    hide Inv, InvBut, FailedPending;
    if IsCurrent(w.table, node, c) {
      UnlinkingLeavesOne(w, node, c, max);
      FailRestores(w.(table := w.table.(connections := w.table.connections - {node})), c, max);
    } else {
      InvIsInvBut(w, c, max);
      FailRestores(w, c, max);
    }
  }

  /** What linking a new connection leaves alone. */
  ghost predicate Linked(w: World, v: World, node: nat, c: nat) {
    && c !in w.table.pending
    && v == w.(table := w.table.(connections := w.table.connections[node := c], pending := w.table.pending[c := map[]]))
  }

  lemma LinkedTables(w: World, v: World, node: nat, c: nat)
    requires Linked(w, v, node, c)
    ensures forall d :: PendingOf(v.table, d) == PendingOf(w.table, d)
    ensures forall d :: d in v.table.pending <==> d == c || d in w.table.pending
    ensures forall t :: Open(v, t) == Open(w, t)
    ensures v.table.futures == w.table.futures && v.tasks == w.tasks && v.draining == w.draining
              && v.outcomes == w.outcomes
  {
  }

  lemma LinkedWaiters(w: World, v: World, node: nat, c: nat, old_: nat)
    requires Linked(w, v, node, c) && WaitersReachable(w)
    requires forall d :: Current(w, d) && (d != old_ || node !in w.table.connections) ==> Current(v, d)
    ensures WaitersReachableBut(v, old_) && (node !in w.table.connections ==> WaitersReachable(v))
  {
    LinkedTables(w, v, node, c);
    hide Current, Open, PendingOf, Linked;
  }

  lemma LinkedRest(w: World, v: World, node: nat, c: nat, max: nat)
    requires Linked(w, v, node, c) && EntriesOpen(w) && WithinBound(w, max) && TasksDistinct(w) && AnswersGenuine(w)
    ensures EntriesOpen(v) && WithinBound(v, max) && TasksDistinct(v) && AnswersGenuine(v)
  {
    LinkedTables(w, v, node, c);
    hide Open;
    forall d | d in w.table.pending
      ensures v.table.pending[d] == w.table.pending[d]
    {
    }
    assert v.table.pending[c] == map[];
    hide Linked;
  }

  lemma LinkedOld(w: World, v: World, node: nat, c: nat, old_: nat)
    requires Linked(w, v, node, c) && OldTablesEmpty(w)
    requires Current(v, c) && forall d :: Current(w, d) && (d != old_ || node !in w.table.connections) ==> Current(v, d)
    ensures OldTablesEmptyBut(v, old_) && (node !in w.table.connections ==> OldTablesEmpty(v))
  {
    LinkedTables(w, v, node, c);
    hide Current, Open;
    forall d | d in w.table.pending
      ensures v.table.pending[d] == w.table.pending[d]
    {
    }
    hide Linked;
  }

  /** A new connection in the place of the node's old one, if it had one. */
  lemma LinkingLeavesOne(w: World, v: World, node: nat, c: nat, old_: nat, max: nat)
    requires Inv(w, max) && Linked(w, v, node, c)
    requires node in w.table.connections ==> old_ == w.table.connections[node]
    ensures InvBut(v, old_, max) && (node !in w.table.connections ==> Inv(v, max))
  {
    CurrentAfterLinking(w, v, node, c, old_);
    hide Current, ConnectionsSound, WaitersReachable, WaitersReachableBut, EntriesOpen, WithinBound, TasksDistinct,
         AnswersGenuine, OldTablesEmpty, OldTablesEmptyBut;
    LinkedConnections(w, v, node, c);
    LinkedWaiters(w, v, node, c, old_);
    LinkedRest(w, v, node, c, max);
    LinkedOld(w, v, node, c, old_);
  }

  lemma LinkedConnections(w: World, v: World, node: nat, c: nat)
    requires ConnectionsSound(w) && Linked(w, v, node, c)
    requires forall d :: Current(v, d) ==> d == c || Current(w, d)
    ensures ConnectionsSound(v)
  {
    hide Current;
  }

  lemma CurrentAfterLinking(w: World, v: World, node: nat, c: nat, old_: nat)
    requires node in w.table.connections ==> old_ == w.table.connections[node]
    requires v.table.connections == w.table.connections[node := c]
    ensures Current(v, c)
    ensures forall d :: Current(v, d) ==> d == c || Current(w, d)
    ensures forall d :: Current(w, d) && (d != old_ || node !in w.table.connections) ==> Current(v, d)
  {
    assert node in v.table.connections && v.table.connections[node] == c;
    forall d | Current(w, d) && (d != old_ || node !in w.table.connections)
      ensures Current(v, d)
    {
      var n :| n in w.table.connections && w.table.connections[n] == d;
      assert n in v.table.connections && v.table.connections[n] == d;
    }
    forall d | Current(v, d)
      ensures d == c || Current(w, d)
    {
      var n :| n in v.table.connections && v.table.connections[n] == d;
      assert n == node || (n in w.table.connections && w.table.connections[n] == d);
    }
  }

  lemma RegisterKeeps(w: World, node: nat, c: nat, max: nat)
    requires Inv(w, max) && c !in w.table.pending
    ensures Inv(w.(table := Registered(w.table, node, c)), max)
  {
    hide Inv, InvBut, FailedPending;
    var previous := if node in w.table.connections then w.table.connections[node] else 0;
    var t := w.table.(connections := w.table.connections[node := c], pending := w.table.pending[c := map[]]);
    LinkingLeavesOne(w, w.(table := t), node, c, previous, max);
    if node in w.table.connections {
      FailRestores(w.(table := t), previous, max);
    }
  }

  lemma ClearedKeeps(w: World, max: nat)
    requires Inv(w, max)
    ensures Inv(Cleared(w), max)
  {
    var v := Cleared(w);
    forall d
      ensures !Current(v, d)
      ensures Current(w, d) ==> d in v.draining
    {
    }
    forall t
      ensures Open(v, t) == Open(w, t)
    {
    }
  }

  lemma DrainKeeps(w: World, c: nat, max: nat)
    requires Inv(w, max) && c in w.draining
    ensures Inv(Drained(w, c), max)
  {
    hide FailedPending;
    var v := w.(draining := w.draining - {c});
    Standing(w, v);
    StandingOf(w, v);
    DrainedLeavesOne(w, v, c, max);
    hide *;
    FailRestores(v, c, max);
  }

  lemma DrainedLeavesOne(w: World, v: World, c: nat, max: nat)
    requires Inv(w, max) && v == w.(draining := w.draining - {c})
    requires forall d :: Current(v, d) == Current(w, d)
    requires forall t :: Open(v, t) == Open(w, t)
    ensures InvBut(v, c, max)
  {
    hide Current;
  }

  lemma RidUnused(w: World, c: nat, rid: string)
    requires EntriesOpen(w) && c in w.table.pending && forall t :: t in w.tasks ==> w.tasks[t].rid != rid
    ensures rid !in w.table.pending[c]
  {
    assert forall r :: r in w.table.pending[c] ==> w.tasks[w.table.pending[c][r]].rid == r;
  }

  /** What a request that is admitted changes. */
  ghost predicate IsBegun(w: World, v: World, task: nat, c: nat, rid: string) {
    && v.table.connections == w.table.connections && v.draining == w.draining && v.outcomes == w.outcomes
    && c in w.table.pending && rid !in w.table.pending[c]
    && v.table.pending.Keys == w.table.pending.Keys
    && v.table.pending[c] == PendingOf(w.table, c)[rid := task]
    && (forall d :: d in w.table.pending && d != c ==> v.table.pending[d] == w.table.pending[d])
    && task !in w.table.futures && v.table.futures == w.table.futures[task := Waiting]
    && task !in w.tasks && v.tasks == w.tasks[task := Task(c, rid)]
    && (forall t :: t in w.tasks ==> w.tasks[t].rid != rid)
    && (forall t :: Open(v, t) <==> Open(w, t) || t == task)
    && (forall d :: Current(v, d) == Current(w, d))
  }

  lemma BegunFrame(w: World, v: World, task: nat, node: nat, rid: string, max: nat)
    requires Inv(w, max) && Legal(w, Begin(task, node, rid)) && Admit(w.table, node, max) == Admitted
    requires v == Step(w, Begin(task, node, rid), max)
    ensures var c := w.table.connections[node];
            IsBegun(w, v, task, c, rid) && Current(w, c) && |w.table.pending[c]| < max
  {
    hide Current, Open, WaitersReachable, EntriesOpen, WithinBound, TasksDistinct, AnswersGenuine, OldTablesEmpty;
    RidUnused(w, w.table.connections[node], rid);
    BegunCurrent(w, v, task, node, rid, max);
    BegunOpen(w, v, task, node, rid, max);
  }

  lemma BegunCurrent(w: World, v: World, task: nat, node: nat, rid: string, max: nat)
    requires Legal(w, Begin(task, node, rid)) && Admit(w.table, node, max) == Admitted
    requires v == Step(w, Begin(task, node, rid), max)
    ensures Current(w, w.table.connections[node])
    ensures forall d :: Current(v, d) == Current(w, d)
  {
    assert v.table.connections == w.table.connections;
    forall d
      ensures Current(v, d) == Current(w, d)
    {
    }
  }

  lemma BegunOpen(w: World, v: World, task: nat, node: nat, rid: string, max: nat)
    requires Legal(w, Begin(task, node, rid)) && Admit(w.table, node, max) == Admitted
    requires v == Step(w, Begin(task, node, rid), max)
    ensures forall t :: Open(v, t) <==> Open(w, t) || t == task
  {
  }

  /** The entries of a table after a request began. */
  lemma BegunEntries(w: World, v: World, task: nat, c: nat, rid: string)
    requires IsBegun(w, v, task, c, rid)
    ensures forall d, r :: d in w.table.pending ==>
              (r in v.table.pending[d] <==> r in w.table.pending[d] || (d == c && r == rid))
    ensures forall d, r :: d in w.table.pending && r in w.table.pending[d] ==>
              v.table.pending[d][r] == w.table.pending[d][r]
    ensures v.table.pending[c][rid] == task
    ensures |v.table.pending[c]| == |w.table.pending[c]| + 1
    ensures forall t :: Open(w, t) ==> t in w.tasks && t != task && v.tasks[t] == w.tasks[t]
  {
    hide Current;
  }

  lemma BegunWaiters(w: World, v: World, task: nat, c: nat, rid: string)
    requires IsBegun(w, v, task, c, rid) && WaitersReachable(w) && Current(w, c)
    ensures WaitersReachable(v)
  {
    BegunEntries(w, v, task, c, rid);
    hide Current, Open;
    forall t | Open(v, t) && v.table.futures[t] == Waiting
      ensures var d, r := v.tasks[t].conn, v.tasks[t].rid;
              && r in PendingOf(v.table, d) && PendingOf(v.table, d)[r] == t && (Current(v, d) || d in v.draining)
    {
      if t != task {
        assert Open(w, t);
      }
    }
  }

  lemma BegunOpenEntries(w: World, v: World, task: nat, c: nat, rid: string)
    requires IsBegun(w, v, task, c, rid) && EntriesOpen(w)
    ensures EntriesOpen(v)
  {
    BegunEntries(w, v, task, c, rid);
    hide Current, Open;
    forall d, r | d in v.table.pending && r in v.table.pending[d]
      ensures Open(v, v.table.pending[d][r]) && v.tasks[v.table.pending[d][r]] == Task(d, r)
    {
      if r in w.table.pending[d] {
        assert Open(w, w.table.pending[d][r]);
      }
    }
  }

  lemma BegunTables(w: World, v: World, task: nat, c: nat, rid: string, max: nat)
    requires IsBegun(w, v, task, c, rid) && Current(w, c) && |w.table.pending[c]| < max
    requires WithinBound(w, max) && OldTablesEmpty(w)
    ensures WithinBound(v, max) && OldTablesEmpty(v)
  {
    BegunEntries(w, v, task, c, rid);
    hide Current, Open;
  }

  lemma BegunTasks(w: World, v: World, task: nat, c: nat, rid: string)
    requires IsBegun(w, v, task, c, rid) && TasksDistinct(w) && AnswersGenuine(w)
    ensures TasksDistinct(v) && AnswersGenuine(v)
  {
    hide Current, Open;
  }

  lemma BegunConnections(w: World, v: World, task: nat, c: nat, rid: string)
    requires IsBegun(w, v, task, c, rid) && ConnectionsSound(w)
    ensures ConnectionsSound(v)
  {
    hide Current, Open;
  }

  lemma BeginKeeps(w: World, task: nat, node: nat, rid: string, max: nat)
    requires Inv(w, max) && Legal(w, Begin(task, node, rid)) && Admit(w.table, node, max) == Admitted
    ensures Inv(Step(w, Begin(task, node, rid), max), max)
  {
    var v, c := Step(w, Begin(task, node, rid), max), w.table.connections[node];
    BegunFrame(w, v, task, node, rid, max);
    hide Step, Legal, Current, IsBegun, WaitersReachable, EntriesOpen, WithinBound, TasksDistinct, AnswersGenuine,
         ConnectionsSound, OldTablesEmpty;
    BegunWaiters(w, v, task, c, rid);
    BegunOpenEntries(w, v, task, c, rid);
    BegunTables(w, v, task, c, rid, max);
    BegunTasks(w, v, task, c, rid);
    BegunConnections(w, v, task, c, rid);
  }

  ghost predicate IsResolved(w: World, v: World) {
    && v == w.(table := w.table.(futures := v.table.futures)) && v.table.futures.Keys == w.table.futures.Keys
    && (forall f :: f in w.table.futures && v.table.futures[f] == Waiting ==> w.table.futures[f] == Waiting)
    && (forall f :: f in w.table.futures && w.table.futures[f] != Waiting ==> v.table.futures[f] == w.table.futures[f])
  }

  lemma ResolvedWaiters(w: World, v: World)
    requires WaitersReachable(w) && IsResolved(w, v) && SameStanding(w, v)
    ensures WaitersReachable(v)
  {
    StandingOf(w, v);
    hide Current, SameStanding;
    forall t | Open(v, t) && v.table.futures[t] == Waiting
      ensures Open(w, t) && w.table.futures[t] == Waiting
    {
    }
    hide Open, IsResolved;
  }

  lemma ResolvedRest(w: World, v: World, max: nat)
    requires EntriesOpen(w) && TasksDistinct(w) && AnswersGenuine(w) && IsResolved(w, v) && SameStanding(w, v)
    ensures EntriesOpen(v) && TasksDistinct(v) && AnswersGenuine(v)
  {
    StandingOf(w, v);
    hide Current, Open, SameStanding;
  }

  lemma ResolvedTables(w: World, v: World, max: nat)
    requires ConnectionsSound(w) && OldTablesEmpty(w) && WithinBound(w, max) && IsResolved(w, v) && SameStanding(w, v)
    ensures ConnectionsSound(v) && OldTablesEmpty(v) && WithinBound(v, max)
  {
    StandingOf(w, v);
    hide Current, Open, SameStanding;
  }

  lemma ResolveKeeps(w: World, node: nat, rid: string, message: string, max: nat)
    requires Inv(w, max)
    ensures Inv(w.(table := Resolved(w.table, node, rid, message)), max)
  {
    hide Current, Resolved, SameStanding, ConnectionsSound, WaitersReachable, EntriesOpen, WithinBound, TasksDistinct,
         AnswersGenuine, OldTablesEmpty;
    var v := w.(table := Resolved(w.table, node, rid, message));
    ResolvedOnlyWaiting(w.table, node, rid, message);
    Standing(w, v);
    ResolvedWaiters(w, v);
    ResolvedRest(w, v, max);
    ResolvedTables(w, v, max);
  }

  lemma ResolvedOnlyWaiting<C, F>(t: Table<C, F>, node: nat, rid: string, message: string)
    ensures Resolved(t, node, rid, message).connections == t.connections
    ensures Resolved(t, node, rid, message).pending == t.pending
    ensures Resolved(t, node, rid, message).futures.Keys == t.futures.Keys
    ensures forall f :: f in t.futures && Resolved(t, node, rid, message).futures[f] == Waiting ==>
              t.futures[f] == Waiting
    ensures forall f :: f in t.futures && t.futures[f] != Waiting ==>
              Resolved(t, node, rid, message).futures[f] == t.futures[f]
  {
  }

  /** What a request that ends changes. */
  lemma ResumedFrame(w: World, v: World, task: nat, how: Resumption, max: nat)
    requires Inv(w, max) && Legal(w, Resume(task, how)) && v == Step(w, Resume(task, how), max)
    ensures v.table.connections == w.table.connections && v.table.futures == w.table.futures
    ensures v.draining == w.draining && v.tasks == w.tasks
    ensures task in w.tasks && v.table == Dropped(w.table, w.tasks[task].conn, w.tasks[task].rid)
    ensures v.table.pending.Keys == w.table.pending.Keys
    ensures forall t :: Open(v, t) <==> Open(w, t) && t != task
    ensures forall d :: Current(v, d) == Current(w, d)
    ensures v.outcomes.Keys == w.outcomes.Keys + {task}
    ensures forall t :: t in w.outcomes ==> t != task && v.outcomes[t] == w.outcomes[t]
    ensures v.outcomes[task].Answered? ==>
              task in w.table.futures && w.table.futures[task] == Replied(v.outcomes[task].message)
  {
    hide Inv;
    forall d
      ensures Current(v, d) == Current(w, d)
    {
    }
  }

  /** Dropping an entry of `c` under `rid` touches no other entry. */
  lemma DroppedEntries(t: Table<nat, nat>, c: nat, rid: string)
    ensures Dropped(t, c, rid).pending.Keys == t.pending.Keys
    ensures forall d, r :: d in t.pending ==>
              (r in Dropped(t, c, rid).pending[d] <==> r in t.pending[d] && (d != c || r != rid))
    ensures forall d, r :: d in t.pending && r in Dropped(t, c, rid).pending[d] ==>
              Dropped(t, c, rid).pending[d][r] == t.pending[d][r]
  {
  }

  lemma ResumedWaiters(w: World, v: World, task: nat, how: Resumption, max: nat)
    requires Inv(w, max) && Legal(w, Resume(task, how)) && v == Step(w, Resume(task, how), max)
    ensures WaitersReachable(v)
  {
    ResumedFrame(w, v, task, how, max);
    var c, rid := w.tasks[task].conn, w.tasks[task].rid;
    DroppedEntries(w.table, c, rid);
    hide Step, Legal, Current, Open, Dropped, WithinBound, ConnectionsSound, OldTablesEmpty, AnswersGenuine;
    forall t | Open(v, t) && v.table.futures[t] == Waiting
      ensures var d, r := v.tasks[t].conn, v.tasks[t].rid;
              && r in PendingOf(v.table, d) && PendingOf(v.table, d)[r] == t && (Current(v, d) || d in v.draining)
    {
      assert Open(w, t) && t != task;
      TaskOf(w, t);
      assert w.tasks[t].rid != rid;
    }
  }

  lemma TaskOf(w: World, t: nat)
    requires Open(w, t)
    ensures t in w.tasks
  {
  }

  lemma ResumedRest(w: World, v: World, task: nat, how: Resumption, max: nat)
    requires Inv(w, max) && Legal(w, Resume(task, how)) && v == Step(w, Resume(task, how), max)
    ensures EntriesOpen(v) && TasksDistinct(v) && AnswersGenuine(v)
  {
    ResumedFrame(w, v, task, how, max);
    hide Step, Legal, Current, Dropped, WithinBound, WaitersReachable, ConnectionsSound, OldTablesEmpty, EntriesOpen,
         Open, TasksDistinct, AnswersGenuine;
    ResumedEntries(w, v, task);
    ResumedAnswers(w, v, task);
  }

  lemma ResumedAnswers(w: World, v: World, task: nat)
    requires TasksDistinct(w) && AnswersGenuine(w)
    requires v.tasks == w.tasks && v.table.futures == w.table.futures && v.outcomes.Keys == w.outcomes.Keys + {task}
    requires forall t :: t in w.outcomes ==> t != task && v.outcomes[t] == w.outcomes[t]
    requires v.outcomes[task].Answered? ==>
               task in w.table.futures && w.table.futures[task] == Replied(v.outcomes[task].message)
    ensures TasksDistinct(v) && AnswersGenuine(v)
  {
  }

  lemma ResumedEntries(w: World, v: World, task: nat)
    requires EntriesOpen(w) && TasksDistinct(w) && Open(w, task) && v.tasks == w.tasks
    requires v.table == Dropped(w.table, w.tasks[task].conn, w.tasks[task].rid)
    requires forall t :: Open(v, t) <==> Open(w, t) && t != task
    ensures EntriesOpen(v)
  {
    var c, rid := w.tasks[task].conn, w.tasks[task].rid;
    DroppedEntries(w.table, c, rid);
    hide Dropped, Open;
    forall d, r | d in v.table.pending && r in v.table.pending[d]
      ensures Open(v, v.table.pending[d][r]) && v.tasks[v.table.pending[d][r]] == Task(d, r)
    {
      assert r in w.table.pending[d] && v.table.pending[d][r] == w.table.pending[d][r];
    }
  }

  lemma ResumedTables(w: World, v: World, task: nat, how: Resumption, max: nat)
    requires Inv(w, max) && Legal(w, Resume(task, how)) && v == Step(w, Resume(task, how), max)
    ensures WithinBound(v, max) && OldTablesEmpty(v) && ConnectionsSound(v)
  {
    ResumedFrame(w, v, task, how, max);
    SmallerTable(w.table, w.tasks[task].conn, w.tasks[task].rid);
    hide Step, Legal, Current, Dropped, EntriesOpen, WaitersReachable, AnswersGenuine;
  }

  lemma ResumeKeeps(w: World, task: nat, how: Resumption, max: nat)
    requires Inv(w, max) && Legal(w, Resume(task, how))
    ensures Inv(Step(w, Resume(task, how), max), max)
  {
    hide Step, Legal, WaitersReachable, EntriesOpen, WithinBound, TasksDistinct, AnswersGenuine, ConnectionsSound,
         OldTablesEmpty;
    var v := Step(w, Resume(task, how), max);
    ResumedWaiters(w, v, task, how, max);
    ResumedRest(w, v, task, how, max);
    ResumedTables(w, v, task, how, max);
  }

  lemma SmallerTable(t: Table<nat, nat>, c: nat, rid: string)
    ensures forall d :: d in t.pending ==>
              d in Dropped(t, c, rid).pending && |Dropped(t, c, rid).pending[d]| <= |t.pending[d]|
              && (t.pending[d] == map[] ==> Dropped(t, c, rid).pending[d] == map[])
  {
    if c in t.pending {
      var before, after := t.pending[c], t.pending[c] - {rid};
      assert after.Keys == before.Keys - {rid};
      assert |after| == |after.Keys| && |before| == |before.Keys|;
    }
  }

  lemma StepKeeps(w: World, e: Event, max: nat)
    requires Inv(w, max) && Legal(w, e)
    ensures Inv(Step(w, e, max), max)
  {
    hide Inv, Removed, Registered, FailedPending, Begun, Resolved, Dropped;
    match e
    case Register(node, c) => RegisterKeeps(w, node, c, max);
    case Remove(node, c) => RemoveKeeps(w, node, c, max);
    case Evict(node) =>
      if node in w.table.connections {
        RemoveKeeps(w, node, w.table.connections[node], max);
      }
    case CloseAll(first) =>
      if w.table.connections != map[] {
        ClearedKeeps(w, max);
        DrainKeeps(Cleared(w), first, max);
      }
    case DrainOne(c) => DrainKeeps(w, c, max);
    case Resolve(node, rid, message) => ResolveKeeps(w, node, rid, message, max);
    case Resume(task, how) => ResumeKeeps(w, task, how, max);
    case Begin(task, node, rid) =>
      if Admit(w.table, node, max) == Admitted {
        BeginKeeps(w, task, node, rid, max);
      } else {
        RefusalKeeps(w, task, node, rid, max);
      }
  }

  lemma RefusalKeeps(w: World, task: nat, node: nat, rid: string, max: nat)
    requires Inv(w, max) && Legal(w, Begin(task, node, rid)) && Admit(w.table, node, max) != Admitted
    ensures Inv(Step(w, Begin(task, node, rid), max), max)
  {
    var v := Step(w, Begin(task, node, rid), max);
    forall d
      ensures Current(v, d) == Current(w, d)
    {
    }
    forall t
      ensures Open(v, t) == Open(w, t)
    {
    }
  }

  // ------------------------------------------------------------ over every run

  /** The protocol's invariant: bounded tables, no stranded waiter, no leaked
      entry, genuine answers, in every world a legal run reaches. */
  lemma {:induction false} EveryRunIsSound(es: seq<Event>, w: World, max: nat)
    requires Reaches(es, w, max)
    ensures Inv(w, max)
  {
    if es != [] {
      var e := es[|es| - 1];
      var v :| Reaches(es[..|es| - 1], v, max) && Legal(v, e) && w == Step(v, e, max);
      EveryRunIsSound(es[..|es| - 1], v, max);
      StepKeeps(v, e, max);
    }
  }

  // ------------------------------------------------------------ what the events of a run mean

  function Before(es: seq<Event>): seq<Event>
    requires es != []
  {
    es[..|es| - 1]
  }

  /** The node's current connection: the last one registered and not taken away since. */
  function Link(es: seq<Event>, node: nat): Option<nat> {
    if es == [] then None
    else
      var before := Link(Before(es), node);
      match es[|es| - 1]
      case Register(n, c) => if n == node then Some(c) else before
      case Remove(n, c) => if n == node && before == Some(c) then None else before
      case Evict(n) => if n == node then None else before
      case CloseAll(_) => None
      case _ => before
  }

  /** Whether an event after the run `es` fails what waits on the connection: it is
      superseded, removed or evicted, or its turn in a `close_all` has come. */
  ghost predicate FailsNext(es: seq<Event>, e: Event, c: nat) {
    match e
    case Register(n, _) => Link(es, n) == Some(c)
    case Remove(_, d) => d == c
    case Evict(n) => Link(es, n) == Some(c)
    case CloseAll(d) => d == c && exists n :: Link(es, n) == Some(c)
    case DrainOne(d) => d == c
    case _ => false
  }

  /** The requests in the connection's table: begun below the bound, not over, and not
      failed. */
  ghost function InFlight(es: seq<Event>, c: nat, max: nat): set<nat> {
    if es == [] then {}
    else
      var front, e := Before(es), es[|es| - 1];
      var before := InFlight(front, c, max);
      if e.Begin? then if Link(front, e.node) == Some(c) && |before| < max then before + {e.task} else before
      else if e.Resume? then before - {e.task}
      else if FailsNext(front, e, c) then {}
      else before
  }

  /** A request that was admitted, and what has been decided about it. */
  datatype Request = Request(conn: nat, rid: string, decision: Future)

  /** The request of a task: it waits until the first reply with its id on its connection,
      or the first failing of that, whichever comes first. */
  ghost function RequestOf(es: seq<Event>, task: nat, max: nat): Option<Request> {
    if es == [] then None
    else
      var front, e := Before(es), es[|es| - 1];
      var before := RequestOf(front, task, max);
      if e.Begin? && e.task == task then
        var link := Link(front, e.node);
        if link.Some? && |InFlight(front, link.value, max)| < max then Some(Request(link.value, e.rid, Waiting))
        else before
      else if before.None? || before.value.decision != Waiting then before
      else if FailsNext(front, e, before.value.conn) then Some(before.value.(decision := Failed))
      else if e.Resolve? && e.rid == before.value.rid && Link(front, e.node) == Some(before.value.conn) then
        Some(before.value.(decision := Replied(e.message)))
      else before
  }

  // ------------------------------------------------------------ every world is what its events mean

  ghost predicate LinksAgree(es: seq<Event>, w: World) {
    forall n :: Link(es, n) == if n in w.table.connections then Some(w.table.connections[n]) else None
  }

  ghost predicate TablesAgree(es: seq<Event>, w: World, max: nat) {
    forall c :: PendingOf(w.table, c).Values == InFlight(es, c, max)
  }

  /** Admitted requests are the tasks, and the future of one that is not over is decided
      as the events say. */
  ghost predicate RequestsAgree(es: seq<Event>, w: World, max: nat) {
    forall t :: RequestAgrees(RequestOf(es, t, max), w, t)
  }

  ghost predicate RequestAgrees(r: Option<Request>, w: World, t: nat) {
    && (t in w.tasks <==> r.Some?)
    && (t in w.tasks ==>
          w.tasks[t] == Task(r.value.conn, r.value.rid) && t in w.table.futures
          && (t !in w.outcomes ==> w.table.futures[t] == r.value.decision))
  }

  lemma LinksStep(es: seq<Event>, v: World, e: Event, max: nat)
    requires LinksAgree(es, v) && Legal(v, e)
    ensures LinksAgree(es + [e], Step(v, e, max))
  {
    hide FailedPending;
    assert Before(es + [e]) == es;
    FailingLinks(v.table);
    forall n
      ensures Link(es + [e], n)
           == if n in Step(v, e, max).table.connections then Some(Step(v, e, max).table.connections[n]) else None
    {
      assert Link(es, n) == if n in v.table.connections then Some(v.table.connections[n]) else None;
    }
  }

  /** Failing a table changes no link. */
  lemma FailingLinks(t: Table<nat, nat>)
    ensures forall u: Table<nat, nat>, c :: FailedPending(u, c).connections == u.connections
  {
  }

  /** What an event does to the table of one connection. */
  lemma StepTable(es: seq<Event>, v: World, e: Event, c: nat, max: nat)
    requires Inv(v, max) && Legal(v, e) && LinksAgree(es, v) && !e.Begin? && !e.Resume?
    ensures PendingOf(Step(v, e, max).table, c) == if FailsNext(es, e, c) then map[] else PendingOf(v.table, c)
  {
    hide Inv, WaitersReachable, EntriesOpen, WithinBound, OldTablesEmpty, TasksDistinct, AnswersGenuine, Link;
    var t := v.table;
    match e
    case Register(n, d) =>
      var next := t.(connections := t.connections[n := d], pending := t.pending[d := map[]]);
      assert Link(es, n) == if n in t.connections then Some(t.connections[n]) else None;
      if n in t.connections {
        FailedTable(next, t.connections[n], c);
      }
      NewIsNotLinked(v, d, max);
    case Remove(n, d) =>
      FailedTable(if IsCurrent(t, n, d) then t.(connections := t.connections - {n}) else t, d, c);
    case Evict(n) =>
      assert Link(es, n) == if n in t.connections then Some(t.connections[n]) else None;
      if n in t.connections {
        FailedTable(t.(connections := t.connections - {n}), t.connections[n], c);
      }
    case CloseAll(d) =>
      if t.connections != map[] {
        FailedTable(Cleared(v).table, d, c);
        var n :| n in t.connections && t.connections[n] == d;
        assert Link(es, n) == Some(d);
      } else {
        NothingLinked(es, v);
      }
    case DrainOne(d) => FailedTable(t, d, c);
    case _ =>
  }

  lemma NothingLinked(es: seq<Event>, v: World)
    requires LinksAgree(es, v) && v.table.connections == map[]
    ensures forall n :: Link(es, n) == None
  {
    hide Link;
  }

  lemma NewIsNotLinked(v: World, d: nat, max: nat)
    requires Inv(v, max) && d !in v.table.pending
    ensures forall n :: n in v.table.connections ==> v.table.connections[n] != d
    ensures PendingOf(v.table, d) == map[]
  {
    hide WaitersReachable, EntriesOpen, WithinBound, OldTablesEmpty, TasksDistinct, AnswersGenuine;
  }

  lemma FailedTable(t: Table<nat, nat>, c: nat, d: nat)
    ensures PendingOf(FailedPending(t, c), d) == if d == c then map[] else PendingOf(t, d)
  {
  }

  lemma {:induction false} AsManyValues(m: map<string, nat>)
    requires forall r, q :: r in m && q in m && r != q ==> m[r] != m[q]
    ensures |m| == |m.Values|
    decreases |m|
  {
    if m == map[] {
      assert m.Values == {};
    } else {
      var r :| r in m;
      var rest := m - {r};
      assert m == rest[r := m[r]];
      AsManyValues(rest);
      ValuesWithOne(rest, r, m[r]);
      assert m[r] !in rest.Values;
    }
  }

  lemma ValuesWithOne(m: map<string, nat>, r: string, x: nat)
    requires r !in m
    ensures m[r := x].Values == m.Values + {x}
  {
    forall v
      ensures v in m[r := x].Values <==> v in m.Values + {x}
    {
      ValuesOfMore(m, r, x, v);
    }
  }

  lemma ValuesOfMore(m: map<string, nat>, r: string, x: nat, v: nat)
    requires r !in m
    ensures v in m[r := x].Values <==> v in m.Values || v == x
  {
    if v in m.Values {
      var q :| q in m && m[q] == v;
      assert m[r := x][q] == v;
    }
    assert m[r := x][r] == x;
  }

  lemma ValuesWithoutOne(m: map<string, nat>, r: string, x: nat)
    requires forall q :: q in m && m[q] == x ==> q == r
    requires r in m ==> m[r] == x
    ensures (m - {r}).Values == m.Values - {x}
  {
    var less := m - {r};
    forall v
      ensures v in less.Values <==> v in m.Values && v != x
    {
      if v in m.Values && v != x {
        var q :| q in m && m[q] == v;
        assert q in less && less[q] == v;
      }
      if v in less.Values {
        var q :| q in less && less[q] == v;
        assert q in m && m[q] == v;
      }
    }
  }

  lemma TableIsInjective(w: World, c: nat, max: nat)
    requires Inv(w, max)
    ensures |PendingOf(w.table, c)| == |PendingOf(w.table, c).Values|
    ensures forall r :: r in PendingOf(w.table, c) ==>
              PendingOf(w.table, c)[r] in w.tasks && w.tasks[PendingOf(w.table, c)[r]] == Task(c, r)
  {
    hide WaitersReachable, ConnectionsSound, WithinBound, OldTablesEmpty, TasksDistinct, AnswersGenuine;
    AsManyValues(PendingOf(w.table, c));
  }

  lemma BegunTable(w: World, node: nat, task: nat, rid: string, c: nat, max: nat)
    requires Inv(w, max) && Legal(w, Begin(task, node, rid)) && node in w.table.connections
    ensures PendingOf(Begun(w.table, node, rid, task), c).Values
         == if c == w.table.connections[node] then PendingOf(w.table, c).Values + {task}
             else PendingOf(w.table, c).Values
  {
    BegunIs(w.table, node, rid, task, c);
    if c == w.table.connections[node] {
      NewIdIsFree(w, node, task, rid, c, max);
      hide *;
      ValuesWithOne(PendingOf(w.table, c), rid, task);
    }
  }

  lemma NewIdIsFree(w: World, node: nat, task: nat, rid: string, c: nat, max: nat)
    requires Inv(w, max) && Legal(w, Begin(task, node, rid))
    ensures rid !in PendingOf(w.table, c)
  {
    TableIsInjective(w, c, max);
    hide Inv, PendingOf;
  }

  lemma BegunIs(t: Table<nat, nat>, node: nat, rid: string, f: nat, c: nat)
    requires node in t.connections
    ensures PendingOf(Begun(t, node, rid, f), c)
         == if c == t.connections[node] then PendingOf(t, c)[rid := f] else PendingOf(t, c)
  {
  }

  lemma DroppedTable(w: World, task: nat, c: nat, max: nat)
    requires Inv(w, max) && Open(w, task)
    ensures PendingOf(Dropped(w.table, w.tasks[task].conn, w.tasks[task].rid), c).Values
         == PendingOf(w.table, c).Values - {task}
  {
    TableIsInjective(w, c, max);
    var d, rid := w.tasks[task].conn, w.tasks[task].rid;
    DroppedIs(w.table, d, rid, c);
    var before := PendingOf(w.table, c);
    OnlyOwnEntry(w, task, c, max);
    hide Inv, Dropped, PendingOf;
    if c == d {
      ValuesWithoutOne(before, rid, task);
    } else {
      assert task !in before.Values;
    }
  }

  lemma DroppedIs(t: Table<nat, nat>, d: nat, rid: string, c: nat)
    ensures PendingOf(Dropped(t, d, rid), c) == if c == d then PendingOf(t, c) - {rid} else PendingOf(t, c)
  {
  }

  /** Only the entry under its id can be the request's, and that only on its connection. */
  lemma OnlyOwnEntry(w: World, task: nat, c: nat, max: nat)
    requires Inv(w, max) && Open(w, task)
    ensures forall q :: q in PendingOf(w.table, c) && PendingOf(w.table, c)[q] == task ==>
              q == w.tasks[task].rid && c == w.tasks[task].conn
    ensures c == w.tasks[task].conn && w.tasks[task].rid in PendingOf(w.table, c) ==>
              PendingOf(w.table, c)[w.tasks[task].rid] == task
  {
    TableIsInjective(w, c, max);
    hide WaitersReachable, ConnectionsSound, WithinBound, OldTablesEmpty, AnswersGenuine, EntriesOpen;
  }

  lemma TablesStep(es: seq<Event>, v: World, e: Event, max: nat)
    requires Inv(v, max) && Legal(v, e) && LinksAgree(es, v) && TablesAgree(es, v, max)
    ensures TablesAgree(es + [e], Step(v, e, max), max)
  {
    hide Inv, Link, FailedPending, Registered, Removed, Evicted, Resolved, Begun, Dropped;
    assert Before(es + [e]) == es;
    forall c
      ensures PendingOf(Step(v, e, max).table, c).Values == InFlight(es + [e], c, max)
    {
      assert PendingOf(v.table, c).Values == InFlight(es, c, max);
      if e.Begin? {
        assert Link(es, e.node) == if e.node in v.table.connections then Some(v.table.connections[e.node]) else None;
        if e.node in v.table.connections {
          TableIsInjective(v, v.table.connections[e.node], max);
          assert PendingOf(v.table, v.table.connections[e.node]).Values
                   == InFlight(es, v.table.connections[e.node], max);
          BegunTable(v, e.node, e.task, e.rid, c, max);
        }
      } else if e.Resume? {
        DroppedTable(v, e.task, c, max);
      } else {
        StepTable(es, v, e, c, max);
        var empty: map<string, nat> := map[];
        assert empty.Values == {};
      }
    }
  }

  /** A waiter is in the table of its connection and in no other. */
  lemma WaiterInItsTable(w: World, t: nat, c: nat, max: nat)
    requires Inv(w, max) && Open(w, t) && w.table.futures[t] == Waiting
    ensures t in PendingOf(w.table, c).Values <==> w.tasks[t].conn == c
    ensures forall r :: r in PendingOf(w.table, c) && PendingOf(w.table, c)[r] == t ==> r == w.tasks[t].rid
    ensures w.tasks[t].conn == c ==>
              w.tasks[t].rid in PendingOf(w.table, c) && PendingOf(w.table, c)[w.tasks[t].rid] == t
  {
    hide ConnectionsSound, WithinBound, OldTablesEmpty, TasksDistinct, AnswersGenuine;
  }

  /** The connection whose table an event fails. */
  function FailedBy(v: World, e: Event): Option<nat> {
    match e
    case Register(n, _) => if n in v.table.connections then Some(v.table.connections[n]) else None
    case Remove(_, d) => Some(d)
    case Evict(n) => if n in v.table.connections then Some(v.table.connections[n]) else None
    case CloseAll(d) => if v.table.connections == map[] then None else Some(d)
    case DrainOne(d) => Some(d)
    case _ => None
  }

  lemma FailsNextIs(es: seq<Event>, v: World, e: Event, c: nat)
    requires LinksAgree(es, v) && Legal(v, e)
    ensures FailsNext(es, e, c) <==> FailedBy(v, e) == Some(c)
  {
    hide Link;
    if e.CloseAll? {
      if v.table.connections == map[] {
        NothingLinked(es, v);
      } else {
        var n :| n in v.table.connections && v.table.connections[n] == e.first;
        assert Link(es, n) == Some(e.first);
      }
    } else if e.Register? || e.Evict? {
      assert Link(es, e.node) == if e.node in v.table.connections then Some(v.table.connections[e.node]) else None;
    }
  }

  lemma SameFailing(t: Table<nat, nat>, u: Table<nat, nat>, d: nat)
    requires u.futures == t.futures && (d in u.pending <==> d in t.pending)
    requires d in t.pending ==> u.pending[d] == t.pending[d]
    ensures FailedPending(u, d).futures == FailedPending(t, d).futures
  {
  }

  lemma StepFails(v: World, e: Event, max: nat)
    requires Legal(v, e) && !e.Begin? && !e.Resume? && !e.Resolve?
    ensures FailedBy(v, e) == None ==> Step(v, e, max).table.futures == v.table.futures
    ensures FailedBy(v, e).Some? ==>
              Step(v, e, max).table.futures == FailedPending(v.table, FailedBy(v, e).value).futures
  {
    var t := v.table;
    hide FailedPending;
    match e
    case Register(n, c) =>
      var next := t.(connections := t.connections[n := c], pending := t.pending[c := map[]]);
      if n in t.connections && t.connections[n] != c {
        SameFailing(t, next, t.connections[n]);
      } else if n in t.connections {
        EmptyFails(next, c);
        EmptyFails(t, c);
      }
    case Remove(n, c) =>
      SameFailing(t, if IsCurrent(t, n, c) then t.(connections := t.connections - {n}) else t, c);
    case Evict(n) =>
      if n in t.connections {
        SameFailing(t, t.(connections := t.connections - {n}), t.connections[n]);
      }
    case CloseAll(c) =>
      SameFailing(t, Cleared(v).table, c);
    case _ =>
  }

  lemma EmptyFails(t: Table<nat, nat>, c: nat)
    requires PendingOf(t, c) == map[]
    ensures FailedPending(t, c).futures == t.futures
  {
    if c in t.pending {
      assert t.pending[c].Values == {};
    }
  }

  lemma ResolvedFuture(t: Table<nat, nat>, node: nat, rid: string, message: string, f: nat)
    requires f in t.futures && t.futures[f] == Waiting
    ensures var after := Resolved(t, node, rid, message).futures;
            && f in after
            && after[f] == if node in t.connections && rid in PendingOf(t, t.connections[node])
                              && PendingOf(t, t.connections[node])[rid] == f then Replied(message)
                           else Waiting
  {
    hide PendingOf;
  }

  /** What a reply does to a future that waits. */
  lemma StepResolves(es: seq<Event>, v: World, e: Event, t: nat, max: nat)
    requires Inv(v, max) && LinksAgree(es, v) && e.Resolve? && Open(v, t) && v.table.futures[t] == Waiting
    ensures t in Resolved(v.table, e.node, e.rid, e.message).futures
    ensures Resolved(v.table, e.node, e.rid, e.message).futures[t]
         == if e.rid == v.tasks[t].rid && Link(es, e.node) == Some(v.tasks[t].conn) then Replied(e.message) else Waiting
  {
    var table := v.table;
    ResolvedFuture(table, e.node, e.rid, e.message, t);
    assert Link(es, e.node) == if e.node in table.connections then Some(table.connections[e.node]) else None;
    if e.node in table.connections {
      ItsEntry(v, t, table.connections[e.node], e.rid, max);
    }
    hide Link, Inv, Open, LinksAgree, Resolved, PendingOf;
  }

  lemma ItsEntry(w: World, t: nat, c: nat, rid: string, max: nat)
    requires Inv(w, max) && Open(w, t) && w.table.futures[t] == Waiting
    ensures rid in PendingOf(w.table, c) && PendingOf(w.table, c)[rid] == t <==> w.tasks[t] == Task(c, rid)
  {
    WaiterInItsTable(w, t, c, max);
    hide Inv, Open;
    if rid in PendingOf(w.table, c) && PendingOf(w.table, c)[rid] == t {
      assert t in PendingOf(w.table, c).Values;
    }
  }

  /** What an event does to a future that waits. */
  lemma StepFuture(es: seq<Event>, v: World, e: Event, t: nat, max: nat)
    requires Inv(v, max) && Legal(v, e) && LinksAgree(es, v) && !e.Begin? && !e.Resume?
    requires Open(v, t) && v.table.futures[t] == Waiting
    ensures t in Step(v, e, max).table.futures
    ensures Step(v, e, max).table.futures[t]
         == if FailsNext(es, e, v.tasks[t].conn) then Failed
            else if e.Resolve? && e.rid == v.tasks[t].rid && Link(es, e.node) == Some(v.tasks[t].conn) then
              Replied(e.message)
            else Waiting
  {
    FailsNextIs(es, v, e, v.tasks[t].conn);
    assert t in v.table.futures;
    if e.Resolve? {
      StepResolves(es, v, e, t, max);
    } else {
      StepFails(v, e, max);
      hide FailsNext, Step, Link, Inv, FailedPending, Open, Legal, LinksAgree;
      if FailedBy(v, e).Some? {
        FailKeepsOthers(v.table, FailedBy(v, e).value);
        WaiterInItsTable(v, t, FailedBy(v, e).value, max);
      }
    }
  }

  lemma RequestOfBegin(es: seq<Event>, e: Event, t: nat, max: nat)
    requires e.Begin?
    ensures var link := Link(es, e.node);
            RequestOf(es + [e], t, max)
            == if e.task == t && link.Some? && |InFlight(es, link.value, max)| < max then
                 Some(Request(link.value, e.rid, Waiting))
               else RequestOf(es, t, max)
  {
    assert Before(es + [e]) == es;
    hide Link, InFlight;
  }

  lemma SameRequest(r: Option<Request>, v: World, w: World, t: nat)
    requires RequestAgrees(r, v, t) && (t in w.tasks <==> t in v.tasks)
    requires t in v.tasks ==>
               w.tasks[t] == v.tasks[t] && t in w.table.futures && t in v.table.futures
               && w.table.futures[t] == v.table.futures[t] && (t in w.outcomes <==> t in v.outcomes)
    ensures RequestAgrees(r, w, t)
  {
  }

  lemma RequestBegins(es: seq<Event>, v: World, e: Event, t: nat, max: nat)
    requires Inv(v, max) && Legal(v, e) && LinksAgree(es, v) && TablesAgree(es, v, max) && e.Begin?
    requires RequestAgrees(RequestOf(es, t, max), v, t)
    ensures RequestAgrees(RequestOf(es + [e], t, max), Step(v, e, max), t)
  {
    AdmissionAgrees(es, v, e.node, max);
    TasksHaveFutures(v, max);
    RequestOfBegin(es, e, t, max);
    BeginsTask(v, e, t, max);
    hide *;
    var w := Step(v, e, max);
    if e.task != t || Admit(v.table, e.node, max) != Admitted {
      SameRequest(RequestOf(es, t, max), v, w, t);
    } else {
      NewRequest(RequestOf(es + [e], t, max).value, w, t);
    }
  }

  lemma NewRequest(r: Request, w: World, t: nat)
    requires t in w.tasks && w.tasks[t] == Task(r.conn, r.rid)
    requires t in w.table.futures && w.table.futures[t] == r.decision
    ensures RequestAgrees(Some(r), w, t)
  {
  }

  lemma BeginsTask(v: World, e: Event, t: nat, max: nat)
    requires Legal(v, e) && e.Begin? && forall u :: u in v.tasks ==> u in v.table.futures
    ensures var w := Step(v, e, max);
            if Admit(v.table, e.node, max) == Admitted then
              && e.node in v.table.connections && w.tasks == v.tasks[e.task := Task(v.table.connections[e.node], e.rid)]
              && w.outcomes == v.outcomes && w.table.futures == v.table.futures[e.task := Waiting]
              && e.task !in v.tasks && e.task !in v.outcomes
            else
              w.tasks == v.tasks && w.table == v.table && e.task !in v.tasks
              && forall u :: u in v.tasks ==> (u in w.outcomes <==> u in v.outcomes)
  {
    hide PendingOf;
  }

  lemma AdmissionAgrees(es: seq<Event>, v: World, node: nat, max: nat)
    requires Inv(v, max) && LinksAgree(es, v) && TablesAgree(es, v, max)
    ensures Link(es, node) == if node in v.table.connections then Some(v.table.connections[node]) else None
    ensures Admit(v.table, node, max)
         == if Link(es, node).None? then Offline
            else if |InFlight(es, Link(es, node).value, max)| >= max then Busy
            else Admitted
  {
    hide Link, InFlight;
    assert Link(es, node) == if node in v.table.connections then Some(v.table.connections[node]) else None;
    if node in v.table.connections {
      var c := v.table.connections[node];
      TableIsInjective(v, c, max);
      assert PendingOf(v.table, c).Values == InFlight(es, c, max);
    }
    hide Inv;
  }

  lemma TasksHaveFutures(w: World, max: nat)
    requires Inv(w, max)
    ensures forall t :: t in w.tasks ==> t in w.table.futures
  {
  }

  lemma RequestResumes(es: seq<Event>, v: World, e: Event, t: nat, max: nat)
    requires Legal(v, e) && e.Resume? && RequestAgrees(RequestOf(es, t, max), v, t)
    ensures RequestAgrees(RequestOf(es + [e], t, max), Step(v, e, max), t)
  {
    assert Before(es + [e]) == es;
    hide Link, InFlight;
  }

  lemma RequestGoesOn(es: seq<Event>, v: World, e: Event, t: nat, max: nat)
    requires Inv(v, max) && Legal(v, e) && LinksAgree(es, v) && !e.Begin? && !e.Resume?
    requires RequestAgrees(RequestOf(es, t, max), v, t)
    ensures RequestAgrees(RequestOf(es + [e], t, max), Step(v, e, max), t)
  {
    assert Before(es + [e]) == es;
    FuturesAreOneShot(v, e, max);
    SameTasks(v, e, max);
    if Open(v, t) && v.table.futures[t] == Waiting {
      StepFuture(es, v, e, t, max);
    }
    hide Step, Link, InFlight, FailsNext, Inv, LinksAgree, Legal;
  }

  lemma SameTasks(v: World, e: Event, max: nat)
    requires Legal(v, e) && !e.Begin? && !e.Resume?
    ensures Step(v, e, max).tasks == v.tasks && Step(v, e, max).outcomes == v.outcomes
  {
    hide FailedPending, Registered, Removed, Evicted, Resolved;
  }

  lemma RequestsStep(es: seq<Event>, v: World, e: Event, t: nat, max: nat)
    requires Inv(v, max) && Legal(v, e) && LinksAgree(es, v) && TablesAgree(es, v, max)
    requires RequestAgrees(RequestOf(es, t, max), v, t)
    ensures RequestAgrees(RequestOf(es + [e], t, max), Step(v, e, max), t)
  {
    hide *;
    if e.Begin? {
      RequestBegins(es, v, e, t, max);
    } else if e.Resume? {
      RequestResumes(es, v, e, t, max);
    } else {
      RequestGoesOn(es, v, e, t, max);
    }
  }

  // ------------------------------------------------------------ what a request ends with

  /** Whether the event after the run `es` ends the request, and with what. */
  ghost predicate Over(es: seq<Event>, e: Event, t: nat, o: Outcome, max: nat) {
    || (e.Begin? && e.task == t && Link(es, e.node).None? && o == NodeOffline)
    || (e.Begin? && e.task == t && Link(es, e.node).Some? && |InFlight(es, Link(es, e.node).value, max)| >= max
        && o == NodeBusy)
    || (e == Resume(t, TimedOut) && o == RequestTimeout)
    || (e == Resume(t, Abandoned) && o == Cancelled)
    || (e == Resume(t, SendRaised) && o == SendFailed)
    || (e == Resume(t, FutureDone) && RequestOf(es, t, max).Some?
        && match RequestOf(es, t, max).value.decision
           case Waiting => false
           case Failed => o == NodeOffline
           case Replied(message) => o == Answered(message))
  }

  ghost predicate OverAt(es: seq<Event>, r: nat, t: nat, o: Outcome, max: nat) {
    r < |es| && Over(es[..r], es[r], t, o, max)
  }

  predicate HasOutcome(w: World, t: nat, o: Outcome) { t in w.outcomes && w.outcomes[t] == o }

  lemma StepOutcome(es: seq<Event>, v: World, e: Event, t: nat, o: Outcome, max: nat)
    requires Inv(v, max) && Legal(v, e) && LinksAgree(es, v) && TablesAgree(es, v, max)
    requires RequestAgrees(RequestOf(es, t, max), v, t)
    ensures HasOutcome(Step(v, e, max), t, o) <==> HasOutcome(v, t, o) || Over(es, e, t, o, max)
  {
    if e.Begin? {
      AdmissionAgrees(es, v, e.node, max);
      BeginOutcome(v, e, max);
      hide Step, Link, InFlight, Inv, LinksAgree, TablesAgree, RequestOf, Admit;
    } else if e.Resume? {
      ResumeOutcome(es, v, e, t, o, max);
    } else {
      SameTasks(v, e, max);
      hide Step, Link, InFlight, Inv, LinksAgree, TablesAgree, RequestOf;
    }
  }

  lemma ResumeOutcome(es: seq<Event>, v: World, e: Event, t: nat, o: Outcome, max: nat)
    requires Inv(v, max) && Legal(v, e) && RequestAgrees(RequestOf(es, t, max), v, t) && e.Resume?
    ensures HasOutcome(Step(v, e, max), t, o) <==> HasOutcome(v, t, o) || Over(es, e, t, o, max)
  {
    hide Link, InFlight, Inv, RequestOf, Dropped;
  }

  lemma BeginOutcome(v: World, e: Event, max: nat)
    requires Legal(v, e) && e.Begin?
    ensures e.task !in v.outcomes
    ensures Step(v, e, max).outcomes
         == match Admit(v.table, e.node, max)
            case Offline => v.outcomes[e.task := NodeOffline]
            case Busy => v.outcomes[e.task := NodeBusy]
            case Admitted => v.outcomes
  {
  }

  lemma OverLater(es: seq<Event>, e: Event, t: nat, o: Outcome, max: nat)
    ensures (exists r :: OverAt(es + [e], r, t, o, max))
              <==> (exists r :: OverAt(es, r, t, o, max)) || Over(es, e, t, o, max)
  {
    hide Over;
    var all, n := es + [e], |es|;
    forall r: nat
      ensures OverAt(all, r, t, o, max) <==> OverAt(es, r, t, o, max) || (r == n && Over(es, e, t, o, max))
    {
      if r < n {
        assert all[..r] == es[..r] && all[r] == es[r];
      } else if r == n {
        assert all[..n] == es && all[n] == e;
      }
    }
    if Over(es, e, t, o, max) {
      assert OverAt(all, n, t, o, max);
    }
    if r: nat :| OverAt(es, r, t, o, max) {
      assert OverAt(all, r, t, o, max);
    }
  }

  ghost predicate Means(es: seq<Event>, w: World, max: nat) {
    LinksAgree(es, w) && TablesAgree(es, w, max) && RequestsAgree(es, w, max)
  }

  lemma NothingHappened(max: nat)
    ensures Means([], START, max)
    ensures forall t, o :: !HasOutcome(START, t, o)
    ensures forall t, o, r :: !OverAt([], r, t, o, max)
  {
    var empty: map<string, nat> := map[];
    assert empty.Values == {};
  }

  lemma MeaningStep(es: seq<Event>, v: World, e: Event, max: nat)
    requires Inv(v, max) && Legal(v, e) && Means(es, v, max)
    ensures Means(es + [e], Step(v, e, max), max)
  {
    LinksStep(es, v, e, max);
    TablesStep(es, v, e, max);
    var after := Step(v, e, max);
    hide Step, LinksAgree, TablesAgree, Inv, RequestAgrees, RequestOf, Legal;
    forall t
      ensures RequestAgrees(RequestOf(es + [e], t, max), after, t)
    {
      assert RequestAgrees(RequestOf(es, t, max), v, t);
      RequestsStep(es, v, e, t, max);
    }
  }

  /** The main result. Over every run the connections, the tables and the requests are what
      the events say, and a request has an outcome exactly if an event ended it with that. */
  lemma {:induction false} OutcomesAreWhatHappened(es: seq<Event>, w: World, max: nat)
    requires Reaches(es, w, max)
    ensures Means(es, w, max)
    ensures forall t, o :: HasOutcome(w, t, o) <==> exists r :: OverAt(es, r, t, o, max)
  {
    hide Means, OverAt, HasOutcome, Step, Legal, Inv;
    NothingHappened(max);
    if es != [] {
      var front, e := Before(es), es[|es| - 1];
      var v :| Reaches(front, v, max) && Legal(v, e) && w == Step(v, e, max);
      assert es == front + [e];
      EveryRunIsSound(front, v, max);
      OutcomesAreWhatHappened(front, v, max);
      MeaningStep(front, v, e, max);
      forall t, o
        ensures HasOutcome(w, t, o) <==> exists r :: OverAt(es, r, t, o, max)
      {
        MeaningOf(front, v, t, max);
        StepOutcome(front, v, e, t, o, max);
        OverLater(front, e, t, o, max);
      }
    }
  }

  lemma MeaningOf(es: seq<Event>, w: World, t: nat, max: nat)
    requires Means(es, w, max)
    ensures LinksAgree(es, w) && TablesAgree(es, w, max) && RequestAgrees(RequestOf(es, t, max), w, t)
  {
  }

  // ------------------------------------------------------------ answered, and lost

  /** Event `b` begins the request, on a connection that has room for it. */
  ghost predicate AdmittedAt(es: seq<Event>, b: nat, t: nat, conn: nat, rid: string, max: nat) {
    && b < |es| && es[b].Begin? && es[b].task == t && es[b].rid == rid
    && Link(es[..b], es[b].node) == Some(conn) && |InFlight(es[..b], conn, max)| < max
  }

  /** Event `k` is a reply with that id on that connection. */
  ghost predicate RepliesAt(es: seq<Event>, k: nat, conn: nat, rid: string) {
    k < |es| && es[k].Resolve? && es[k].rid == rid && Link(es[..k], es[k].node) == Some(conn)
  }

  ghost predicate FailsAt(es: seq<Event>, k: nat, conn: nat) {
    k < |es| && FailsNext(es[..k], es[k], conn)
  }

  /** Between `b` and `k` came neither a reply nor a failing. */
  ghost predicate NothingBetween(es: seq<Event>, b: nat, k: nat, conn: nat, rid: string) {
    forall j :: b < j < k ==> !RepliesAt(es, j, conn, rid) && !FailsAt(es, j, conn)
  }

  ghost predicate BeginsOnce(es: seq<Event>, t: nat) {
    forall a, b :: 0 <= a < b < |es| && es[a].Begin? && es[b].Begin? ==> !(es[a].task == t && es[b].task == t)
  }

  lemma {:induction false} TaskIdsAreNew(es: seq<Event>, w: World, t: nat, max: nat)
    requires Reaches(es, w, max)
    ensures BeginsOnce(es, t)
    ensures (exists b :: 0 <= b < |es| && es[b].Begin? && es[b].task == t) ==> t in w.tasks || t in w.outcomes
  {
    if es != [] {
      var front, e := Before(es), es[|es| - 1];
      var v :| Reaches(front, v, max) && Legal(v, e) && w == Step(v, e, max);
      TaskIdsAreNew(front, v, t, max);
      TasksGrow(v, e, max);
      assert es == front + [e];
      hide Step, Reaches;
    }
  }

  lemma TasksGrow(v: World, e: Event, max: nat)
    requires Legal(v, e)
    ensures v.tasks.Keys <= Step(v, e, max).tasks.Keys && v.outcomes.Keys <= Step(v, e, max).outcomes.Keys
    ensures e.Begin? ==> e.task in Step(v, e, max).tasks || e.task in Step(v, e, max).outcomes
    ensures e.Begin? ==> e.task !in v.tasks && e.task !in v.outcomes
  {
    hide FailedPending, Registered, Removed, Evicted, Resolved, PendingOf;
  }

  /** What a longer run says about the events of a shorter one. */
  lemma PrefixSays(es: seq<Event>, n: nat, t: nat, conn: nat, rid: string, max: nat)
    requires n <= |es|
    ensures forall b :: 0 <= b < n ==>
              (AdmittedAt(es[..n], b, t, conn, rid, max) <==> AdmittedAt(es, b, t, conn, rid, max))
    ensures forall k :: 0 <= k < n ==> (RepliesAt(es[..n], k, conn, rid) <==> RepliesAt(es, k, conn, rid))
    ensures forall k :: 0 <= k < n ==> (FailsAt(es[..n], k, conn) <==> FailsAt(es, k, conn))
  {
    assert forall k :: 0 <= k < n ==> es[..n][..k] == es[..k] && es[..n][k] == es[k];
    hide Link, InFlight, FailsNext;
  }

  /** How a request stands, told by the events: admitted at `b`; and, unless it waits, first
      decided at `k`. */
  ghost predicate Stands(es: seq<Event>, t: nat, r: Request, b: nat, k: nat, max: nat) {
    && AdmittedAt(es, b, t, r.conn, r.rid, max)
    && b < k <= |es| && NothingBetween(es, b, k, r.conn, r.rid)
    && match r.decision
       case Waiting => k == |es|
       case Failed => FailsAt(es, k, r.conn)
       case Replied(message) => RepliesAt(es, k, r.conn, r.rid) && es[k].message == message
  }

  lemma StandsLater(es: seq<Event>, t: nat, r: Request, b: nat, k: nat, max: nat)
    requires es != [] && Stands(Before(es), t, r, b, k, max)
    ensures r.decision != Waiting ==> Stands(es, t, r, b, k, max)
    ensures AdmittedAt(es, b, t, r.conn, r.rid, max) && b < k < |es| && NothingBetween(es, b, k, r.conn, r.rid)
    ensures r.decision == Waiting ==> k == |es| - 1
  {
    PrefixSays(es, |es| - 1, t, r.conn, r.rid, max);
    hide AdmittedAt, RepliesAt, FailsAt;
    assert forall j :: 0 <= j < |es| - 1 ==> es[..|es| - 1][j] == es[j];
  }

  lemma {:induction false} RequestStands(es: seq<Event>, t: nat, max: nat) returns (b: nat, k: nat)
    requires RequestOf(es, t, max).Some?
    ensures Stands(es, t, RequestOf(es, t, max).value, b, k, max)
  {
    var front, e, n := Before(es), es[|es| - 1], |es| - 1;
    assert front == es[..n];
    if e.Begin? && e.task == t && Link(front, e.node).Some? && |InFlight(front, Link(front, e.node).value, max)| < max {
      b, k := n, n + 1;
      hide Link, InFlight, RepliesAt, FailsAt;
    } else {
      b, k := RequestStands(front, t, max);
      k := StandsOn(es, t, b, k, max);
    }
  }

  /** One event later. */
  lemma StandsOn(es: seq<Event>, t: nat, b: nat, k: nat, max: nat) returns (k': nat)
    requires es != [] && RequestOf(Before(es), t, max).Some?
    requires Stands(Before(es), t, RequestOf(Before(es), t, max).value, b, k, max)
    requires var e := es[|es| - 1]; var link := Link(Before(es), if e.Begin? then e.node else 0);
             !(e.Begin? && e.task == t && link.Some? && |InFlight(Before(es), link.value, max)| < max)
    ensures RequestOf(es, t, max).Some? && Stands(es, t, RequestOf(es, t, max).value, b, k', max)
  {
    var before := RequestOf(Before(es), t, max).value;
    StandsLater(es, t, before, b, k, max);
    k' := k;
    if before.decision == Waiting {
      LastDecides(es, before, max, t);
      var r := RequestOf(es, t, max).value;
      hide RequestOf, AdmittedAt, RepliesAt, FailsAt, Link, InFlight;
      if r.decision == Waiting {
        k' := |es|;
      }
    } else {
      hide Stands, Link, InFlight;
    }
  }

  /** What the last event makes of a request that waited. */
  lemma LastDecides(es: seq<Event>, before: Request, max: nat, t: nat)
    requires es != [] && before.decision == Waiting && RequestOf(Before(es), t, max) == Some(before)
    requires var e := es[|es| - 1]; var link := Link(Before(es), if e.Begin? then e.node else 0);
             !(e.Begin? && e.task == t && link.Some? && |InFlight(Before(es), link.value, max)| < max)
    ensures RequestOf(es, t, max).Some?
    ensures var n, r := |es| - 1, RequestOf(es, t, max).value;
            if FailsAt(es, n, before.conn) then r == before.(decision := Failed)
            else if RepliesAt(es, n, before.conn, before.rid) then r == before.(decision := Replied(es[n].message))
            else r == before
  {
    assert es[..|es| - 1] == Before(es);
    hide Link, InFlight, FailsNext;
  }

  /** A request that was admitted is known, and stands in one way only. */
  lemma {:induction false} AdmittedIsKnown(es: seq<Event>, b: nat, t: nat, conn: nat, rid: string, max: nat)
    requires AdmittedAt(es, b, t, conn, rid, max)
    ensures RequestOf(es, t, max).Some?
  {
    hide Link, InFlight, FailsNext;
    var n := |es| - 1;
    assert es[..n] == Before(es);
    if b < n {
      PrefixSays(es, n, t, conn, rid, max);
      AdmittedIsKnown(Before(es), b, t, conn, rid, max);
    }
  }

  /** The request began at `b`, was first decided at `k`, and resumed as done at `r`. */
  ghost predicate DecidedAndResumed(es: seq<Event>, t: nat, conn: nat, rid: string, b: nat, k: nat, r: nat, max: nat) {
    && b < k < r < |es| && es[r] == Resume(t, FutureDone)
    && AdmittedAt(es, b, t, conn, rid, max) && NothingBetween(es, b, k, conn, rid)
  }

  ghost predicate AnsweredBy(es: seq<Event>, t: nat, m: string, conn: nat, rid: string, b: nat, k: nat, r: nat,
                             max: nat) {
    DecidedAndResumed(es, t, conn, rid, b, k, r, max) && RepliesAt(es, k, conn, rid) && es[k].message == m
  }

  ghost predicate LostBy(es: seq<Event>, t: nat, conn: nat, rid: string, b: nat, k: nat, r: nat, max: nat) {
    DecidedAndResumed(es, t, conn, rid, b, k, r, max) && FailsAt(es, k, conn)
  }

  /** A request is answered with a message exactly if it was admitted, the first thing to
      come of it was a reply with its id and that message on its connection, before any
      failing of the connection, and it resumed as done. */
  lemma AnsweredIff(es: seq<Event>, w: World, t: nat, m: string, max: nat)
    requires Reaches(es, w, max)
    ensures HasOutcome(w, t, Answered(m))
       <==> exists conn, rid, b, k, r :: AnsweredBy(es, t, m, conn, rid, b, k, r, max)
  {
    OutcomesAreWhatHappened(es, w, max);
    TaskIdsAreNew(es, w, t, max);
    if HasOutcome(w, t, Answered(m)) {
      var r: nat :| OverAt(es, r, t, Answered(m), max);
      var b, k := RequestStands(es[..r], t, max);
      var request := RequestOf(es[..r], t, max).value;
      PrefixSays(es, r, t, request.conn, request.rid, max);
      hide AdmittedAt, RepliesAt, FailsAt, RequestOf;
      assert AnsweredBy(es, t, m, request.conn, request.rid, b, k, r, max);
    }
    if conn: nat, rid: string, b: nat, k: nat, r: nat :| AnsweredBy(es, t, m, conn, rid, b, k, r, max) {
      var request := DecisionFound(es, t, conn, rid, b, k, r, max);
      hide AdmittedAt, FailsAt, RequestOf;
      assert OverAt(es, r, t, Answered(m), max);
    }
  }

  /** It ends offline exactly if it began without a connection, or the first thing to come
      of it was a failing of its connection, and it resumed as done. */
  lemma OfflineIff(es: seq<Event>, w: World, t: nat, max: nat)
    requires Reaches(es, w, max)
    ensures HasOutcome(w, t, NodeOffline)
       <==> (exists b :: BeganUnlinked(es, b, t)) || exists conn, rid, b, k, r :: LostBy(es, t, conn, rid, b, k, r, max)
  {
    OutcomesAreWhatHappened(es, w, max);
    TaskIdsAreNew(es, w, t, max);
    if HasOutcome(w, t, NodeOffline) {
      var r: nat :| OverAt(es, r, t, NodeOffline, max);
      if es[r].Begin? {
        assert BeganUnlinked(es, r, t);
      } else {
        var b, k := RequestStands(es[..r], t, max);
        var request := RequestOf(es[..r], t, max).value;
        PrefixSays(es, r, t, request.conn, request.rid, max);
        hide AdmittedAt, RepliesAt, FailsAt, RequestOf;
        assert LostBy(es, t, request.conn, request.rid, b, k, r, max);
      }
    }
    if b: nat :| BeganUnlinked(es, b, t) {
      assert OverAt(es, b, t, NodeOffline, max);
    }
    if conn: nat, rid: string, b: nat, k: nat, r: nat :| LostBy(es, t, conn, rid, b, k, r, max) {
      var request := DecisionFound(es, t, conn, rid, b, k, r, max);
      hide AdmittedAt, RepliesAt, RequestOf;
      assert OverAt(es, r, t, NodeOffline, max);
    }
  }

  ghost predicate BeganUnlinked(es: seq<Event>, b: nat, t: nat) {
    b < |es| && es[b].Begin? && es[b].task == t && Link(es[..b], es[b].node).None?
  }

  lemma DecisionFound(es: seq<Event>, t: nat, conn: nat, rid: string, b: nat, k: nat, r: nat, max: nat)
    returns (request: Request)
    requires DecidedAndResumed(es, t, conn, rid, b, k, r, max) && BeginsOnce(es, t)
    requires RepliesAt(es, k, conn, rid) || FailsAt(es, k, conn)
    ensures RequestOf(es[..r], t, max) == Some(request)
    ensures FailsAt(es, k, conn) ==> request.decision == Failed
    ensures RepliesAt(es, k, conn, rid) ==> request.decision == Replied(es[k].message)
  {
    PrefixSays(es, r, t, conn, rid, max);
    AdmittedIsKnown(es[..r], b, t, conn, rid, max);
    request := RequestOf(es[..r], t, max).value;
    var b', k' := RequestStands(es[..r], t, max);
    SameBeginning(es[..r], t, request, b', k', conn, rid, b, max);
    OneDecides(es[..r], k, conn, rid);
    hide AdmittedAt, RequestOf, Link, InFlight, FailsNext;
    assert k' == k;
  }

  lemma OneDecides(es: seq<Event>, k: nat, conn: nat, rid: string)
    ensures !(RepliesAt(es, k, conn, rid) && FailsAt(es, k, conn))
  {
  }

  lemma SameBeginning(es: seq<Event>, t: nat, request: Request, b': nat, k': nat, conn: nat, rid: string, b: nat,
                      max: nat)
    requires Stands(es, t, request, b', k', max) && AdmittedAt(es, b, t, conn, rid, max) && BeginsOnce(es, t)
    ensures b' == b && request.conn == conn && request.rid == rid
  {
    hide Link, InFlight, NothingBetween;
  }

  /** A request has one outcome: it is decided once, and never changes. */
  lemma OneOutcome(w: World, e: Event, max: nat)
    requires Inv(w, max) && Legal(w, e)
    ensures forall t :: t in w.outcomes ==>
              t in Step(w, e, max).outcomes && Step(w, e, max).outcomes[t] == w.outcomes[t]
    ensures forall t :: t in Step(w, e, max).outcomes && t !in w.outcomes ==>
              (e.Begin? && e.task == t && t !in w.tasks) || (e.Resume? && e.task == t && t in w.tasks)
  {
  }

  /** Once every request has ended, no table holds anything. */
  lemma NothingLeaks(w: World, max: nat)
    requires Inv(w, max) && forall t :: t in w.tasks ==> t in w.outcomes
    ensures forall c :: c in w.table.pending ==> w.table.pending[c] == map[]
  {
    forall c, rid | c in w.table.pending && rid in w.table.pending[c]
      ensures Open(w, w.table.pending[c][rid])
    {
    }
    hide Inv;
    assert forall c, rid :: c in w.table.pending ==> rid !in w.table.pending[c];
  }

  /** A reply reaches at most one waiter, the one its request id names on the
      node's current connection; a done future is never changed again. */
  lemma ReplyResolvesOne(w: World, node: nat, rid: string, message: string, max: nat)
    requires Inv(w, max)
    ensures var after := Resolved(w.table, node, rid, message);
            && after.connections == w.table.connections && after.pending == w.table.pending
            && after.futures.Keys == w.table.futures.Keys
            && (!Resolvable(w.table, node, rid) ==> after == w.table)
            && (Resolvable(w.table, node, rid) ==>
                  exists t :: Open(w, t) && w.tasks[t] == Task(w.table.connections[node], rid)
                    && w.table.futures[t] == Waiting && after.futures[t] == Replied(message)
                    && forall u :: u in w.table.futures && u != t ==> after.futures[u] == w.table.futures[u])
  {
    hide WaitersReachable, WithinBound, TasksDistinct, AnswersGenuine, OldTablesEmpty;
    if Resolvable(w.table, node, rid) {
      var t := w.table.pending[w.table.connections[node]][rid];
      assert Open(w, t);
    }
  }

  lemma FuturesAreOneShot(w: World, e: Event, max: nat)
    requires Inv(w, max) && Legal(w, e)
    ensures forall t :: t in w.table.futures ==> t in Step(w, e, max).table.futures
    ensures forall t :: t in w.table.futures && w.table.futures[t] != Waiting ==>
              Step(w, e, max).table.futures[t] == w.table.futures[t]
  {
    hide Inv, FailedPending;
    var t := w.table;
    match e
    case Register(node, c) =>
      if node in t.connections {
        var next := t.(connections := t.connections[node := c], pending := t.pending[c := map[]]);
        FailKeepsOthers(next, t.connections[node]);
      }
    case Remove(node, c) =>
      FailKeepsOthers(if IsCurrent(t, node, c) then t.(connections := t.connections - {node}) else t, c);
    case Evict(node) =>
      if node in t.connections {
        FailKeepsOthers(t.(connections := t.connections - {node}), t.connections[node]);
      }
    case CloseAll(first) => FailKeepsOthers(Cleared(w).table, first);
    case DrainOne(c) => FailKeepsOthers(t, c);
    case _ =>
  }

  /** Removing an old socket late drops neither its replacement nor any request
      made on the replacement. */
  lemma LateRemoveIsHarmless(t: Table<nat, nat>, node: nat, old_: nat, m: nat)
    requires node in t.connections && t.connections[node] != old_ && m != old_
    ensures Removed(t, node, old_).connections == t.connections
    ensures PendingOf(Removed(t, node, old_), m) == PendingOf(t, m)
    ensures forall f :: f in t.futures && f !in PendingOf(t, old_).Values ==>
              Removed(t, node, old_).futures[f] == t.futures[f]
  {
  }

  /** Why request ids have to be new: a second request under an id in use takes the
      first one's entry, and neither a reply nor a failure reaches the first again. */
  lemma ReusedIdStrandsTheFirst(t: Table<nat, nat>, node: nat, rid: string, first: nat, second: nat, message: string)
    requires node in t.connections && first != second && first !in PendingOf(t, t.connections[node]).Values
    ensures var c := t.connections[node];
            var u := Begun(Begun(t, node, rid, first), node, rid, second);
            && u.futures[first] == Waiting && first !in PendingOf(u, c).Values
            && Resolved(u, node, rid, message).futures[first] == Waiting
            && FailedPending(u, c).futures[first] == Waiting
  {
    var c := t.connections[node];
    var u := Begun(Begun(t, node, rid, first), node, rid, second);
    assert forall r :: r in PendingOf(u, c) ==>
             r == rid || (r in PendingOf(t, c) && PendingOf(u, c)[r] == PendingOf(t, c)[r]);
    assert PendingOf(u, c)[rid] == second;
  }

  // ------------------------------------------------------------ old connections stay empty

  ghost predicate Retired(w: World, c: nat) {
    c in w.table.pending && !Current(w, c) && c !in w.draining
  }

  /** A connection that is out stays out, with an empty table. */
  lemma RetiredForGood(w: World, e: Event, c: nat, max: nat)
    requires Inv(w, max) && Legal(w, e) && Retired(w, c)
    ensures Retired(Step(w, e, max), c) && Step(w, e, max).table.pending[c] == map[]
  {
    var v := Step(w, e, max);
    StepKeeps(w, e, max);
    StaysRetired(w, e, c, max);
    hide Step, Legal, Current;
  }

  lemma StaysRetired(w: World, e: Event, c: nat, max: nat)
    requires Legal(w, e) && Retired(w, c)
    ensures Retired(Step(w, e, max), c)
  {
    var v := Step(w, e, max);
    forall n | n in v.table.connections
      ensures v.table.connections[n] != c
    {
      assert n in w.table.connections ==> w.table.connections[n] != c;
    }
  }

  lemma NoEventsYet(max: nat)
    ensures Reaches([], START, max)
  {
  }

  lemma ReachesNext(es: seq<Event>, v: World, e: Event, w: World, max: nat)
    requires Reaches(es, v, max) && Legal(v, e) && w == Step(v, e, max)
    ensures Reaches(es + [e], w, max)
  {
    hide Legal, Step;
    var f := es + [e];
    assert f[..|f| - 1] == es && f[|f| - 1] == e;
    assert Reaches(f[..|f| - 1], v, max) && Legal(v, f[|f| - 1]) && w == Step(v, f[|f| - 1], max);
  }

  /** Two connections, a request on the second, and `close_all` up to its first
      suspension, which is after failing the first. */
  lemma ClosingWorlds() returns (a: World, b: World, c: World, d: World)
    ensures Legal(START, Register(1, 7)) && a == Step(START, Register(1, 7), 1)
    ensures Legal(a, Register(2, 8)) && b == Step(a, Register(2, 8), 1)
    ensures Legal(b, Begin(3, 2, "r")) && c == Step(b, Begin(3, 2, "r"), 1)
    ensures Legal(c, CloseAll(7)) && d == Step(c, CloseAll(7), 1)
    ensures 8 in d.table.pending && !Current(d, 8) && "r" in d.table.pending[8]
  {
    a := START.(table := Registered(START.table, 1, 7));
    assert a.table.connections == map[1 := 7] && a.table.pending == map[7 := map[]];
    b := a.(table := Registered(a.table, 2, 8));
    assert b.table.connections == map[1 := 7, 2 := 8] && b.table.pending == map[7 := map[], 8 := map[]];
    assert Admit(b.table, 2, 1) == Admitted;
    c := b.(table := Begun(b.table, 2, "r", 3), tasks := map[3 := Task(8, "r")]);
    assert c.table.connections[1] == 7;
    d := Drained(Cleared(c), 7);
    FailKeepsOthers(Cleared(c).table, 7);
  }

  /** While `close_all` is suspended on closing one socket, the connections after it
      are no longer current and still have their waiters: emptiness needs the exception
      for connections being drained. */
  lemma CloseAllLeavesWaiters()
    ensures exists es: seq<Event>, w: World ::
              Reaches(es, w, 1) && 8 in w.table.pending && !Current(w, 8) && w.table.pending[8] != map[]
  {
    hide Legal, Step, Current, Reaches;
    var a, b, c, d := ClosingWorlds();
    NoEventsYet(1);
    ReachesNext([], START, Register(1, 7), a, 1);
    ReachesNext([] + [Register(1, 7)], a, Register(2, 8), b, 1);
    ReachesNext([] + [Register(1, 7)] + [Register(2, 8)], b, Begin(3, 2, "r"), c, 1);
    ReachesNext([] + [Register(1, 7)] + [Register(2, 8)] + [Begin(3, 2, "r")], c, CloseAll(7), d, 1);
  }

  // ------------------------------------------------------------ the classes

  /** The future a request waits on. */
  class Reply {
    var state: Future

    constructor ()
      ensures state == Waiting
    {
      state := Waiting;
    }
  }

  class NodeConnection {
    var pending: map<string, Reply>

    constructor ()
      ensures pending == map[]
    {
      pending := map[];
    }
  }

  class NodeConnectionRegistry {
    const pendingMax: nat
    var connections: map<nat, NodeConnection>
    ghost var known: set<NodeConnection>
    ghost var issued: set<Reply>

    ghost function View(): Table<NodeConnection, Reply>
      reads this, known, issued
    {
      Table(connections, map c | c in known :: c.pending, map f | f in issued :: f.state)
    }

    ghost predicate Valid()
      reads this, known
    {
      && connections.Values <= known
      && forall c, rid :: c in known && rid in c.pending ==> c.pending[rid] in issued
    }

    constructor (pendingMax_: nat)
      ensures Valid() && View() == Table(map[], map[], map[]) && pendingMax == pendingMax_
      ensures known == {} && issued == {}
    {
      pendingMax, connections, known, issued := pendingMax_, map[], {}, {};
    }

    /** `_fail_pending`. */
    method FailPending(connection: NodeConnection)
      requires Valid() && connection in known
      modifies connection, issued
      ensures Valid() && View() == FailedPending(old(View()), connection)
    {
      var left := connection.pending.Keys;
      while left != {}
        invariant left <= connection.pending.Keys
        invariant connection.pending == old(connection.pending)
        invariant forall f :: f in issued && old(f.state) != Waiting ==> f.state == old(f.state)
        invariant forall f :: f in issued && old(f.state) == Waiting ==>
                    f.state == Waiting || (f.state == Failed && f in connection.pending.Values)
        invariant forall rid :: rid in connection.pending && rid !in left ==>
                    connection.pending[rid].state == (if old(connection.pending[rid].state) == Waiting
                                                      then Failed else old(connection.pending[rid].state))
      {
        var rid :| rid in left;
        var future := connection.pending[rid];
        if future.state == Waiting {
          future.state := Failed;
        }
        left := left - {rid};
      }
      connection.pending := map[];
      IsFailedPending(old(View()), View(), connection);
    }

    method Register(node: nat) returns (connection: NodeConnection, previous: NodeConnection?)
      requires Valid()
      modifies this, known, issued
      ensures Valid() && known == old(known) + {connection} && fresh(connection) && issued == old(issued)
      ensures View() == Registered(old(View()), node, connection)
      ensures previous == if node in old(connections) then old(connections[node]) else null
    {
      connection := new NodeConnection();
      previous := if node in connections then connections[node] else null;
      connections := connections[node := connection];
      known := known + {connection};
      ghost var t := old(View());
      assert View() == t.(connections := t.connections[node := connection], pending := t.pending[connection := map[]]);
      if previous != null {
        FailPending(previous);
      }
    }

    method Remove(node: nat, connection: NodeConnection)
      requires Valid() && connection in known
      modifies this, connection, issued
      ensures Valid() && known == old(known) && issued == old(issued)
      ensures View() == Removed(old(View()), node, connection)
    {
      if node in connections && connections[node] == connection {
        connections := connections - {node};
      }
      FailPending(connection);
    }

    method Evict(node: nat) returns (connection: NodeConnection?)
      requires Valid()
      modifies this, known, issued
      ensures Valid() && known == old(known) && issued == old(issued)
      ensures View() == Evicted(old(View()), node)
      ensures connection == if node in old(connections) then old(connections[node]) else null
    {
      connection := if node in connections then connections[node] else null;
      if connection != null {
        connections := connections - {node};
        FailPending(connection);
      }
    }

    /** `close_all` up to its first await; each connection in `left` is then passed to
        `FailPending`, with a suspension after each. */
    method StartClosing() returns (first: NodeConnection?, left: set<NodeConnection>)
      requires Valid()
      modifies this, known, issued
      ensures Valid() && known == old(known) && issued == old(issued)
      ensures old(connections) == map[] ==> first == null && left == {} && View() == old(View())
      ensures old(connections) != map[] ==>
                && first != null && first in old(connections).Values && left == old(connections).Values - {first}
                && View() == FailedPending(old(View()).(connections := map[]), first)
    {
      left, first := connections.Values, null;
      if connections == map[] {
        return;
      }
      var node :| node in connections;
      first := connections[node];
      connections := map[];
      left := left - {first};
      FailPending(first);
    }

    /** `request` up to its first await; `reply` is what it then waits on. */
    method StartRequest(node: nat, rid: string) returns (admission: Admission, reply: Reply?)
      requires Valid()
      modifies this, known
      ensures Valid() && known == old(known)
      ensures admission == Admit(old(View()), node, pendingMax)
      ensures admission == Admitted ==> reply != null && fresh(reply) && View() == Begun(old(View()), node, rid, reply)
      ensures admission != Admitted ==> reply == null && View() == old(View())
    {
      if node !in connections {
        return Offline, null;
      }
      var connection := connections[node];
      assert View().pending[connection] == connection.pending;
      if |connection.pending| >= pendingMax {
        return Busy, null;
      }
      admission := Admitted;
      reply := new Reply();
      connection.pending := connection.pending[rid := reply];
      issued := issued + {reply};
      ghost var t, u := old(View()), View();
      assert u.futures == t.futures[reply := Waiting];
      assert u.pending == t.pending[connection := t.pending[connection][rid := reply]];
    }

    /** The `finally` of `request`. */
    method EndRequest(connection: NodeConnection, rid: string)
      requires Valid() && connection in known
      modifies connection
      ensures Valid() && View() == Dropped(old(View()), connection, rid)
    {
      connection.pending := connection.pending - {rid};
    }

    method ResolveResponse(node: nat, rid: string, message: string) returns (found: bool)
      requires Valid()
      modifies issued
      ensures Valid() && View() == Resolved(old(View()), node, rid, message)
      ensures found == Resolvable(old(View()), node, rid)
    {
      if node !in connections {
        return false;
      }
      var connection := connections[node];
      assert View().pending[connection] == connection.pending;
      if rid !in connection.pending || connection.pending[rid].state != Waiting {
        return false;
      }
      connection.pending[rid].state := Replied(message);
      found := true;
    }
  }

  lemma IsFailedPending<C, F>(t: Table<C, F>, u: Table<C, F>, c: C)
    requires c in t.pending && u.connections == t.connections && u.pending == t.pending[c := map[]]
    requires u.futures.Keys == t.futures.Keys
    requires forall f :: f in t.futures ==>
               u.futures[f] == if f in t.pending[c].Values && t.futures[f] == Waiting then Failed else t.futures[f]
    ensures u == FailedPending(t, c)
  {
  }
}
