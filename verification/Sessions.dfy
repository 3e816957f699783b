/** The session and system-terminal state machine (`SessionService`), each request
    as the one transaction its route makes of it. */
module Sessions {
  import opened Nums
  import opened Counting

  datatype Status = Starting | Running | Disconnected | Exited | Failed | Terminating | Terminated

  /** `_TRANSITIONS`. */
  predicate CanTransition(from: Status, to: Status) {
    match from
    case Starting => to in {Running, Failed, Exited}
    case Running => to in {Disconnected, Exited, Terminating, Failed}
    case Disconnected => to in {Running, Exited, Terminating, Failed}
    case Terminating => to in {Terminated, Failed, Exited}
    case _ => false
  }

  predicate IsTerminal(s: Status) { s in {Exited, Failed, Terminated} }

  /** The repository's ACTIVE_STATES are exactly the states that are not terminal,
      and the terminal ones are exactly those with no way out. */
  predicate IsActive(s: Status) { s in {Starting, Running, Disconnected, Terminating} }

  lemma StatesAgree(s: Status)
    ensures IsActive(s) <==> !IsTerminal(s)
    ensures IsTerminal(s) <==> forall to :: !CanTransition(s, to)
  {
    assert CanTransition(Starting, Running) && CanTransition(Running, Exited);
    assert CanTransition(Disconnected, Running) && CanTransition(Terminating, Exited);
  }

  const SHELL := "shell"

  datatype Session = Session(node: nat, user: nat, runtime: string, status: Status, startedAt: Option<int>,
                             endedAt: Option<int>, parent: Option<nat>)

  type Table = map<nat, Session>

  /** What a request finds out about a node and its daemon. */
  datatype Node = Node(exists_: bool, enabled: bool, connected: bool, available: set<string>)

  /** What the daemon answers to `session.start`. */
  datatype StartReply = Started | Refused | RequestError(code: string)

  datatype Limits = Limits(perNode: nat, perUser: nat)

  datatype Outcome = Done(id: nat) | Error(code: string) | Ignored

  function ActiveOn(t: Table, node: nat): set<nat> {
    set id | id in t && t[id].node == node && IsActive(t[id].status)
  }

  function ActiveOf(t: Table, user: nat): set<nat> {
    set id | id in t && t[id].user == user && IsActive(t[id].status)
  }

  function LiveChildren(t: Table, parent: nat): set<nat> {
    set id | id in t && t[id].parent == Some(parent) && IsActive(t[id].status)
  }

  // ------------------------------------------------------------ the operations

  /** `_require_runtime`. */
  function RuntimeProblem(n: Node, runtime: string): Option<string> {
    if runtime !in {"claude", "codex", SHELL, "fake"} then Some("RUNTIME_NOT_ALLOWED")
    else if runtime != "fake" && runtime !in n.available then Some("RUNTIME_NOT_FOUND")
    else None
  }

  datatype Request = Request(actor: nat, node: nat, runtime: string, inRoots: bool, rows: int, columns: int)

  /** The checks of `create` before its insert, in their order. */
  function CreateProblem(t: Table, n: Node, limits: Limits, r: Request): Option<string> {
    if !n.exists_ then Some("NODE_NOT_FOUND")
    else if !n.enabled then Some("NODE_DISABLED")
    else if !n.connected then Some("NODE_OFFLINE")
    else if RuntimeProblem(n, r.runtime).Some? then RuntimeProblem(n, r.runtime)
    else if !r.inRoots then Some("WORKSPACE_OUTSIDE_ALLOWED_ROOT")
    else if r.rows < 2 || r.rows > 300 || r.columns < 2 || r.columns > 500 then Some("INVALID_TERMINAL_SIZE")
    else if |ActiveOn(t, r.node)| >= limits.perNode then Some("SESSION_LIMIT_REACHED")
    else if |ActiveOf(t, r.actor)| >= limits.perUser then Some("SESSION_LIMIT_REACHED")
    else None
  }

  /** The row `create` leaves, by the daemon's answer. */
  function NewRow(r: Request, parent: Option<nat>, reply: StartReply, now: int): Session {
    if reply == Started then Session(r.node, r.actor, r.runtime, Running, Some(now), None, parent)
    else Session(r.node, r.actor, r.runtime, Failed, None, Some(now), None)
  }

  function CreateOutcome(id: nat, reply: StartReply): Outcome {
    match reply
    case Started => Done(id)
    case Refused => Error("SESSION_START_FAILED")
    case RequestError(code) => Error(code)
  }

  function Created(t: Table, n: Node, limits: Limits, r: Request, parent: Option<nat>, id: nat, reply: StartReply,
                   now: int)
    : (Table, Outcome)
  {
    var problem := CreateProblem(t, n, limits, r);
    if problem.Some? then (t, Error(problem.value))
    else (t[id := NewRow(r, parent, reply, now)], CreateOutcome(id, reply))
  }

  /** `_terminate_child`: the row ends whatever the node answers. */
  function Ended(s: Session, now: int): Session {
    s.(status := Terminated, endedAt := Some(now))
  }

  /** `_terminate_children`. */
  function ChildrenEnded(t: Table, parent: nat, now: int): Table {
    map id | id in t :: if id in LiveChildren(t, parent) then Ended(t[id], now) else t[id]
  }

  /** `may_open_shell`; `permitted` is the action. */
  predicate MayOpenShell(s: Session, actor: nat, permitted: bool) {
    s.runtime != SHELL && !IsTerminal(s.status) && permitted && s.user == actor
  }

  /** The route and `open_shell`; `watched` says which shells somebody is viewing. */
  function ShellOpened(t: Table, n: Node, limits: Limits, r: Request, parent: nat, permitted: bool, watched: set<nat>,
                       id: nat, reply: StartReply, now: int): (Table, Outcome)
  {
    if parent !in t then (t, Error("SESSION_NOT_FOUND"))
    else if !MayOpenShell(t[parent], r.actor, permitted) then (t, Error("FORBIDDEN"))
    else if !n.exists_ then (t, Error("NODE_NOT_FOUND"))
    else if !n.enabled then (t, Error("NODE_DISABLED"))
    else if !n.connected then (t, Error("NODE_OFFLINE"))
    else if RuntimeProblem(n, SHELL).Some? then (t, Error(RuntimeProblem(n, SHELL).value))
    else if LiveChildren(t, parent) * watched != {} then (t, Error("SHELL_ALREADY_OPEN"))
    else
      Created(ChildrenEnded(t, parent, now), n, limits, r.(node := t[parent].node, runtime := SHELL), Some(parent),
          id, reply, now)
  }

  /** The terminate route: a request the daemon does not answer changes nothing. */
  function TerminatedBy(t: Table, id: nat, answered: Option<string>, now: int): (Table, Outcome) {
    if id !in t then (t, Error("SESSION_NOT_FOUND"))
    else if !CanTransition(t[id].status, Terminating) then (t, Error("SESSION_INVALID_STATE"))
    else if answered.Some? then (t, Error(answered.value))
    else (ChildrenEnded(t[id := Ended(t[id], now)], id, now), Done(id))
  }

  /** `apply_status_changed`; None is a status the daemon made up. */
  function StatusApplied(t: Table, id: nat, status: Option<Status>, now: int): (Table, Outcome) {
    if id !in t || status.None? || !CanTransition(t[id].status, status.value) then (t, Ignored)
    else if IsTerminal(status.value) then
      (ChildrenEnded(t[id := t[id].(status := status.value, endedAt := Some(now))], id, now), Done(id))
    else (t[id := t[id].(status := status.value)], Done(id))
  }

  /** `delete`, with the foreign key's cascade to the session's shells. */
  function Deleted(t: Table, id: nat): (Table, Outcome) {
    if id !in t then (t, Error("SESSION_NOT_FOUND"))
    else if !IsTerminal(t[id].status) then (t, Error("SESSION_INVALID_STATE"))
    else (t - ({id} + set c | c in t && t[c].parent == Some(id)), Done(id))
  }

  // ------------------------------------------------------------ runs

  datatype Event =
    | Create(n: Node, r: Request, id: nat, reply: StartReply, now: int)
    | OpenShell(n: Node, r: Request, parent: nat, permitted: bool, watched: set<nat>, id: nat, reply: StartReply,
                now: int)
    | Terminate(id: nat, answered: Option<string>, now: int)
    | StatusChanged(id: nat, status: Option<Status>, now: int)
    | Delete(id: nat)

  /** New sessions get new ids. */
  predicate Fresh(t: Table, e: Event) {
    e.Create? || e.OpenShell? ==> e.id !in t && forall c :: c in t ==> t[c].parent != Some(e.id)
  }

  function Step(t: Table, e: Event, limits: Limits): Table {
    match e
    case Create(n, r, id, reply, now) => Created(t, n, limits, r, None, id, reply, now).0
    case OpenShell(n, r, parent, permitted, watched, id, reply, now) =>
      ShellOpened(t, n, limits, r, parent, permitted, watched, id, reply, now).0
    case Terminate(id, answered, now) => TerminatedBy(t, id, answered, now).0
    case StatusChanged(id, status, now) => StatusApplied(t, id, status, now).0
    case Delete(id) => Deleted(t, id).0
  }

  ghost predicate Reaches(es: seq<Event>, t: Table, limits: Limits) {
    if es == [] then t == map[]
    else
      var e := es[|es| - 1];
      exists u :: Reaches(es[..|es| - 1], u, limits) && Fresh(u, e) && t == Step(u, e, limits)
  }

  // ------------------------------------------------------------ the invariant

  /** A live shell has a live parent, which is no shell itself, and shares its
      owner and node. */
  predicate ShellsHaveParents(t: Table) {
    forall id :: id in t && t[id].parent.Some? && IsActive(t[id].status) ==>
      var p := t[id].parent.value;
      && p in t && IsActive(t[p].status) && t[p].runtime != SHELL && t[p].parent.None?
      && t[p].user == t[id].user && t[p].node == t[id].node && t[id].runtime == SHELL
  }

  predicate OneShellEach(t: Table) {
    forall i, j :: i in t && j in t && i != j && IsActive(t[i].status) && IsActive(t[j].status) && t[i].parent.Some? ==>
      t[i].parent != t[j].parent
  }

  /** Ended sessions, and no others, carry an end time. */
  predicate EndsRecorded(t: Table) {
    forall id :: id in t ==> (IsTerminal(t[id].status) <==> t[id].endedAt.Some?)
  }

  ghost predicate WithinCaps(t: Table, limits: Limits) {
    && (forall n :: |ActiveOn(t, n)| <= limits.perNode)
    && (forall u :: |ActiveOf(t, u)| <= limits.perUser)
  }

  predicate OnlyShellsHaveParents(t: Table) {
    forall id :: id in t && t[id].parent.Some? ==> t[id].runtime == SHELL
  }

  ghost predicate Inv(t: Table, limits: Limits) {
    ShellsHaveParents(t) && OneShellEach(t) && EndsRecorded(t) && WithinCaps(t, limits) && OnlyShellsHaveParents(t)
  }

  // ------------------------------------------------------------ fewer active sessions

  /** Every row of `u` is a row of `t` that kept its place or ended. */
  predicate OnlyEnds(t: Table, u: Table) {
    forall id :: id in u ==>
      && id in t && u[id].node == t[id].node && u[id].user == t[id].user
      && (IsActive(u[id].status) ==> IsActive(t[id].status))
  }

  lemma EndingKeepsCaps(t: Table, u: Table, limits: Limits)
    requires WithinCaps(t, limits) && OnlyEnds(t, u)
    ensures WithinCaps(u, limits)
  {
    forall n
      ensures |ActiveOn(u, n)| <= limits.perNode
    {
      SubsetIsSmaller(ActiveOn(u, n), ActiveOn(t, n));
    }
    forall n
      ensures |ActiveOf(u, n)| <= limits.perUser
    {
      SubsetIsSmaller(ActiveOf(u, n), ActiveOf(t, n));
    }
  }

  lemma InsertCounts(t: Table, id: nat, s: Session, k: nat)
    requires id !in t
    ensures |ActiveOn(t[id := s], k)| == |ActiveOn(t, k)| + if k == s.node && IsActive(s.status) then 1 else 0
    ensures |ActiveOf(t[id := s], k)| == |ActiveOf(t, k)| + if k == s.user && IsActive(s.status) then 1 else 0
  {
    GrowsByOne(ActiveOn(t, k), ActiveOn(t[id := s], k), id, k == s.node && IsActive(s.status));
    GrowsByOne(ActiveOf(t, k), ActiveOf(t[id := s], k), id, k == s.user && IsActive(s.status));
  }

  lemma InsertKeepsCaps(t: Table, id: nat, s: Session, limits: Limits)
    requires WithinCaps(t, limits) && id !in t
    requires IsActive(s.status) ==> |ActiveOn(t, s.node)| < limits.perNode && |ActiveOf(t, s.user)| < limits.perUser
    ensures WithinCaps(t[id := s], limits)
  {
    hide ActiveOn, ActiveOf, IsActive;
    var u := t[id := s];
    forall k
      ensures |ActiveOn(u, k)| <= limits.perNode
    {
      InsertCounts(t, id, s, k);
    }
    forall k
      ensures |ActiveOf(u, k)| <= limits.perUser
    {
      InsertCounts(t, id, s, k);
    }
  }

  // ------------------------------------------------------------ each operation keeps the invariant

  /** What ending the children of `parent` changes. */
  lemma ChildrenEndedFrame(t: Table, parent: nat, now: int)
    ensures var u := ChildrenEnded(t, parent, now);
            && u.Keys == t.Keys
            && (forall id :: id in t ==>
                  u[id] == if t[id].parent == Some(parent) && IsActive(t[id].status) then Ended(t[id], now) else t[id])
            && LiveChildren(u, parent) == {}
  {
  }

  lemma EndChildrenKeeps(t: Table, parent: nat, now: int, limits: Limits)
    requires Inv(t, limits)
    ensures Inv(ChildrenEnded(t, parent, now), limits)
  {
    ChildrenEndedFrame(t, parent, now);
    hide ChildrenEnded, LiveChildren;
    var u := ChildrenEnded(t, parent, now);
    EndingKeepsCaps(t, u, limits);
    hide WithinCaps;
    assert ShellsHaveParents(u) by {
      forall id | id in u && u[id].parent.Some? && IsActive(u[id].status)
        ensures u[id] == t[id] && u[u[id].parent.value] == t[u[id].parent.value]
      {
        assert t[t[id].parent.value].parent.None?;
      }
    }
  }

  /** A session ends together with its children. */
  lemma EndKeeps(t: Table, id: nat, status: Status, now: int, limits: Limits)
    requires Inv(t, limits) && id in t && IsTerminal(status)
    ensures Inv(ChildrenEnded(t[id := t[id].(status := status, endedAt := Some(now))], id, now), limits)
  {
    hide ChildrenEnded, LiveChildren, WithinCaps, ShellsHaveParents, OneShellEach, EndsRecorded, OnlyShellsHaveParents;
    var mid := t[id := t[id].(status := status, endedAt := Some(now))];
    ChildrenEndedFrame(mid, id, now);
    var u := ChildrenEnded(mid, id, now);
    EndedWithChildren(t, u, id, status, now);
    EndingKeepsCaps(t, u, limits);
    EndedRest(t, u, id, status, now);
    InvParts(u, limits);
  }

  lemma InvParts(t: Table, limits: Limits)
    requires ShellsHaveParents(t) && OneShellEach(t) && EndsRecorded(t) && WithinCaps(t, limits)
               && OnlyShellsHaveParents(t)
    ensures Inv(t, limits)
  {
  }

  lemma EndedRest(t: Table, u: Table, id: nat, status: Status, now: int)
    requires id in t && IsTerminal(status) && u.Keys == t.Keys
    requires OneShellEach(t) && EndsRecorded(t) && OnlyShellsHaveParents(t)
    requires u[id] == if t[id].parent == Some(id) && IsActive(status) then Ended(t[id], now)
                      else t[id].(status := status, endedAt := Some(now))
    requires forall c :: c in t && c != id ==>
               u[c] == if t[c].parent == Some(id) && IsActive(t[c].status) then Ended(t[c], now) else t[c]
    ensures OneShellEach(u) && EndsRecorded(u) && OnlyShellsHaveParents(u)
  {
    forall c | c in t
      ensures u[c].parent == t[c].parent && u[c].runtime == t[c].runtime
      ensures IsActive(u[c].status) ==> IsActive(t[c].status)
      ensures u[c] == t[c] || (u[c].endedAt.Some? && IsTerminal(u[c].status))
    {
    }
    hide IsActive, IsTerminal;
  }

  lemma EndedWithChildren(t: Table, u: Table, id: nat, status: Status, now: int)
    requires id in t && IsTerminal(status) && u.Keys == t.Keys && ShellsHaveParents(t)
    requires u[id] == if t[id].parent == Some(id) && IsActive(status) then Ended(t[id], now)
                      else t[id].(status := status, endedAt := Some(now))
    requires forall c :: c in t && c != id ==>
               u[c] == if t[c].parent == Some(id) && IsActive(t[c].status) then Ended(t[c], now) else t[c]
    ensures ShellsHaveParents(u)
  {
    forall c | c in u && u[c].parent.Some? && IsActive(u[c].status)
      ensures u[c] == t[c] && u[c].parent.value != id && u[u[c].parent.value] == t[u[c].parent.value]
    {
      assert t[t[c].parent.value].parent.None?;
    }
  }

  lemma MoveKeeps(t: Table, id: nat, status: Status, limits: Limits)
    requires Inv(t, limits) && id in t && CanTransition(t[id].status, status) && !IsTerminal(status)
    ensures Inv(t[id := t[id].(status := status)], limits)
  {
    var u := t[id := t[id].(status := status)];
    EndingKeepsCaps(t, u, limits);
    hide WithinCaps;
  }

  /** Deleting an ended session takes only ended sessions with it. */
  lemma DeleteTakesOnlyEnded(t: Table, id: nat, limits: Limits)
    requires Inv(t, limits)
    ensures forall c :: c in t && c !in Deleted(t, id).0 ==> IsTerminal(t[c].status)
    ensures forall c :: c in Deleted(t, id).0 ==> Deleted(t, id).0[c] == t[c]
  {
    StatesAgree(Starting);
    forall c | c in t && c !in Deleted(t, id).0
      ensures IsTerminal(t[c].status)
    {
      StatesAgree(t[c].status);
    }
  }

  lemma DeleteKeeps(t: Table, id: nat, limits: Limits)
    requires Inv(t, limits)
    ensures Inv(Deleted(t, id).0, limits)
  {
    var u := Deleted(t, id).0;
    DeleteTakesOnlyEnded(t, id, limits);
    EndingKeepsCaps(t, u, limits);
    hide WithinCaps, Deleted;
  }

  /** A new row is a session without a parent, or the only live shell of its parent. */
  lemma InsertKeeps(t: Table, id: nat, s: Session, limits: Limits)
    requires Inv(t, limits) && id !in t && (forall c :: c in t ==> t[c].parent != Some(id))
    requires IsTerminal(s.status) <==> s.endedAt.Some?
    requires IsActive(s.status) ==> |ActiveOn(t, s.node)| < limits.perNode && |ActiveOf(t, s.user)| < limits.perUser
    requires s.parent.Some? ==>
               var p := s.parent.value;
               && s.runtime == SHELL && IsActive(s.status) && LiveChildren(t, p) == {}
               && p in t && IsActive(t[p].status) && t[p].runtime != SHELL && t[p].user == s.user && t[p].node == s.node
    ensures Inv(t[id := s], limits)
  {
    InsertKeepsCaps(t, id, s, limits);
    hide WithinCaps, ActiveOn, ActiveOf;
    var u := t[id := s];
    if s.parent.Some? {
      forall c | c in t && t[c].parent == s.parent
        ensures !IsActive(t[c].status)
      {
        assert c !in LiveChildren(t, s.parent.value);
      }
    }
  }

  lemma CreateKeeps(t: Table, n: Node, limits: Limits, r: Request, parent: Option<nat>, id: nat, reply: StartReply,
                    now: int)
    requires Inv(t, limits) && id !in t && (forall c :: c in t ==> t[c].parent != Some(id))
    requires parent.Some? ==>
               var p := parent.value;
               && r.runtime == SHELL && LiveChildren(t, p) == {}
               && p in t && IsActive(t[p].status) && t[p].runtime != SHELL && t[p].user == r.actor
               && t[p].node == r.node
    ensures Inv(Created(t, n, limits, r, parent, id, reply, now).0, limits)
  {
    hide Inv, LiveChildren, ActiveOn, ActiveOf, RuntimeProblem;
    if CreateProblem(t, n, limits, r).None? {
      InsertKeeps(t, id, NewRow(r, parent, reply, now), limits);
    }
  }

  lemma OpenShellKeeps(t: Table, n: Node, limits: Limits, r: Request, parent: nat, permitted: bool, watched: set<nat>,
                       id: nat, reply: StartReply, now: int)
    requires Inv(t, limits) && id !in t && (forall c :: c in t ==> t[c].parent != Some(id))
    ensures Inv(ShellOpened(t, n, limits, r, parent, permitted, watched, id, reply, now).0, limits)
  {
    hide Inv, LiveChildren, RuntimeProblem, ChildrenEnded, Created;
    if parent in t && MayOpenShell(t[parent], r.actor, permitted) {
      EndChildrenKeeps(t, parent, now, limits);
      ChildrenEndedFrame(t, parent, now);
      var u := ChildrenEnded(t, parent, now);
      ParentIsNoChild(t, parent, limits);
      StatesAgree(t[parent].status);
      CreateKeeps(u, n, limits, r.(node := t[parent].node, runtime := SHELL), Some(parent), id, reply, now);
    }
  }

  lemma ParentIsNoChild(t: Table, parent: nat, limits: Limits)
    requires Inv(t, limits) && parent in t && t[parent].runtime != SHELL
    ensures t[parent].parent.None?
  {
  }

  lemma StepKeeps(t: Table, e: Event, limits: Limits)
    requires Inv(t, limits) && Fresh(t, e)
    ensures Inv(Step(t, e, limits), limits)
  {
    hide Inv, Created, ShellOpened, ChildrenEnded, Deleted, CanTransition, IsTerminal;
    match e
    case Create(n, r, id, reply, now) => CreateKeeps(t, n, limits, r, None, id, reply, now);
    case OpenShell(n, r, parent, permitted, watched, id, reply, now) =>
      OpenShellKeeps(t, n, limits, r, parent, permitted, watched, id, reply, now);
    case Terminate(id, answered, now) =>
      if id in t {
        TerminatedIsTerminal();
        EndKeeps(t, id, Terminated, now, limits);
      }
    case StatusChanged(id, status, now) =>
      if id in t && status.Some? && CanTransition(t[id].status, status.value) {
        if IsTerminal(status.value) {
          EndKeeps(t, id, status.value, now, limits);
        } else {
          MoveKeeps(t, id, status.value, limits);
        }
      }
    case Delete(id) => DeleteKeeps(t, id, limits);
  }

  lemma TerminatedIsTerminal()
    ensures IsTerminal(Terminated)
  {
  }

  /** The main result, over every run: one live shell per session, no live shell
      without a live parent, end times exactly on ended sessions, caps kept. */
  lemma {:induction false} EveryRunIsSound(es: seq<Event>, t: Table, limits: Limits)
    requires Reaches(es, t, limits)
    ensures Inv(t, limits)
  {
    if es == [] {
      assert forall n :: ActiveOn(t, n) == {} && ActiveOf(t, n) == {};
    } else {
      var e := es[|es| - 1];
      var u :| Reaches(es[..|es| - 1], u, limits) && Fresh(u, e) && t == Step(u, e, limits);
      EveryRunIsSound(es[..|es| - 1], u, limits);
      StepKeeps(u, e, limits);
    }
  }

  /** No event revives an ended session or changes anything about it; it can only
      be deleted. Every other change of state is one the table of transitions
      allows, or the forced end of a session or of its shell. */
  lemma EndedForGood(t: Table, e: Event, id: nat, limits: Limits)
    requires Inv(t, limits) && Fresh(t, e) && id in t
    ensures IsTerminal(t[id].status) && id in Step(t, e, limits) ==> Step(t, e, limits)[id] == t[id]
    ensures !IsTerminal(t[id].status) ==>
              && id in Step(t, e, limits)
              && var now := Step(t, e, limits)[id].status;
                 now == t[id].status || CanTransition(t[id].status, now) || now == Terminated
  {
    StatesAgree(t[id].status);
    hide WithinCaps, CreateProblem, RuntimeProblem, NewRow, CreateOutcome;
    if e.Delete? {
      DeleteTakesOnlyEnded(t, e.id, limits);
    }
  }

  /** A shell opens only where nobody is watching the old one, which it replaces. */
  lemma OneShellAfterOpening(t: Table, n: Node, limits: Limits, r: Request, parent: nat, permitted: bool,
                             watched: set<nat>, id: nat, reply: StartReply, now: int)
    requires id !in t
    ensures var (u, outcome) := ShellOpened(t, n, limits, r, parent, permitted, watched, id, reply, now);
            outcome == Done(id) ==>
              && LiveChildren(u, parent) == {id} && LiveChildren(t, parent) * watched == {}
              && u[id].user == r.actor == t[parent].user && u[id].node == t[parent].node
  {
    hide ChildrenEnded, RuntimeProblem, CreateProblem;
    if parent in t {
      ChildrenEndedFrame(t, parent, now);
      var v := ChildrenEnded(t, parent, now);
      var row := NewRow(r.(node := t[parent].node, runtime := SHELL), Some(parent), reply, now);
      OnlyChild(v, parent, id, row);
      var (u, outcome) := ShellOpened(t, n, limits, r, parent, permitted, watched, id, reply, now);
      if outcome == Done(id) {
        assert u == v[id := row];
        assert LiveChildren(u, parent) == {id};
      }
    }
  }

  lemma OnlyChild(t: Table, parent: nat, id: nat, row: Session)
    requires id !in t && LiveChildren(t, parent) == {}
    ensures row.parent == Some(parent) && IsActive(row.status) ==> LiveChildren(t[id := row], parent) == {id}
  {
    var u := t[id := row];
    forall c | c in LiveChildren(u, parent)
      ensures c == id
    {
      assert c != id ==> c in LiveChildren(t, parent);
    }
  }

  // ------------------------------------------------------------ what the answers mean

  const LIVE_STATES := {Starting, Running, Disconnected, Terminating}

  /** The transitions of the session life cycle, one by one. */
  const ALLOWED := {
    (Starting, Running), (Starting, Failed), (Starting, Exited),
    (Running, Disconnected), (Running, Exited), (Running, Terminating), (Running, Failed),
    (Disconnected, Running), (Disconnected, Exited), (Disconnected, Terminating), (Disconnected, Failed),
    (Terminating, Terminated), (Terminating, Failed), (Terminating, Exited)}

  lemma AllowedAre(from: Status, to: Status)
    ensures CanTransition(from, to) <==> (from, to) in ALLOWED
    ensures IsActive(from) <==> from in LIVE_STATES
    ensures IsTerminal(from) <==> from !in LIVE_STATES
  {
  }

  predicate IsLiveShellOf(s: Session, parent: nat) { s.parent == Some(parent) && s.status in LIVE_STATES }

  /** `u` is `t` except that `id` became `row` and its live shells ended. */
  predicate EndsWithShells(t: Table, u: Table, id: nat, row: Session, now: int) {
    && id in t && u.Keys == t.Keys && u[id] == row
    && forall c :: c in t && c != id ==>
         u[c] == if IsLiveShellOf(t[c], id) then t[c].(status := Terminated, endedAt := Some(now)) else t[c]
  }

  /** Terminating succeeds exactly for a running or disconnected session whose node
      answered. The session and its live shells have then ended, and nothing else has
      changed; otherwise nothing has. */
  lemma TerminateMeans(t: Table, id: nat, answered: Option<string>, now: int)
    ensures var (u, outcome) := TerminatedBy(t, id, answered, now);
            && (outcome == Done(id) <==> id in t && t[id].status in {Running, Disconnected} && answered.None?)
            && (if outcome == Done(id) then
                  EndsWithShells(t, u, id, t[id].(status := Terminated, endedAt := Some(now)), now)
                  && forall c :: c in u ==> !IsLiveShellOf(u[c], id)
                else
                  u == t
                  && outcome == Error(if id !in t then "SESSION_NOT_FOUND"
                                      else if t[id].status !in {Running, Disconnected} then "SESSION_INVALID_STATE"
                                      else answered.value))
  {
    hide ChildrenEnded, LiveChildren;
    if id in t {
      ChildrenEndedFrame(t[id := Ended(t[id], now)], id, now);
    }
  }

  /** A status the daemon reports is applied exactly if it is an allowed change; a final
      one ends the live shells as well. */
  lemma StatusMeans(t: Table, id: nat, status: Option<Status>, now: int)
    ensures var (u, outcome) := StatusApplied(t, id, status, now);
            && (outcome == Done(id) <==> id in t && status.Some? && (t[id].status, status.value) in ALLOWED)
            && (outcome != Done(id) ==> u == t && outcome == Ignored)
            && (outcome == Done(id) ==>
                  if status.value in LIVE_STATES then u == t[id := t[id].(status := status.value)]
                  else EndsWithShells(t, u, id, t[id].(status := status.value, endedAt := Some(now)), now))
  {
    hide ChildrenEnded, LiveChildren;
    if id in t && status.Some? {
      AllowedAre(t[id].status, status.value);
      AllowedAre(status.value, status.value);
      ChildrenEndedFrame(t[id := t[id].(status := status.value, endedAt := Some(now))], id, now);
    }
  }

  /** The live sessions on a node, or of a user, counted one by one. */
  function LiveOnNode(t: Table, node: nat): set<nat> {
    set id | id in t && t[id].node == node && t[id].status in LIVE_STATES
  }

  function LiveOfUser(t: Table, user: nat): set<nat> {
    set id | id in t && t[id].user == user && t[id].status in LIVE_STATES
  }

  predicate NodeReady(n: Node, runtime: string) {
    n.exists_ && n.enabled && n.connected
    && (runtime == "fake" || (runtime in {"claude", "codex", "shell"} && runtime in n.available))
  }

  /** Everything a new session needs. */
  predicate MayStart(t: Table, n: Node, limits: Limits, r: Request) {
    && NodeReady(n, r.runtime) && r.inRoots
    && 2 <= r.rows <= 300 && 2 <= r.columns <= 500
    && |LiveOnNode(t, r.node)| < limits.perNode && |LiveOfUser(t, r.actor)| < limits.perUser
  }

  lemma SameCounts(t: Table, k: nat)
    ensures LiveOnNode(t, k) == ActiveOn(t, k) && LiveOfUser(t, k) == ActiveOf(t, k)
  {
    forall id | id in t
      ensures IsActive(t[id].status) <==> t[id].status in LIVE_STATES
    {
      AllowedAre(t[id].status, Running);
    }
    hide IsActive;
  }

  lemma MayStartIs(t: Table, n: Node, limits: Limits, r: Request)
    ensures CreateProblem(t, n, limits, r).None? <==> MayStart(t, n, limits, r)
  {
    SameCounts(t, r.node);
    SameCounts(t, r.actor);
    hide ActiveOn, ActiveOf, LiveOnNode, LiveOfUser;
  }

  /** A session starts exactly if everything it needs is there and the daemon starts it:
      it is then running, for that user, node and runtime. One the daemon does not start
      has failed; one that lacks something leaves nothing. */
  lemma CreateMeans(t: Table, n: Node, limits: Limits, r: Request, parent: Option<nat>, id: nat, reply: StartReply,
                    now: int)
    ensures var (u, outcome) := Created(t, n, limits, r, parent, id, reply, now);
            && (outcome == Done(id) <==> MayStart(t, n, limits, r) && reply == Started)
            && u == if !MayStart(t, n, limits, r) then t
                    else if reply == Started then
                      t[id := Session(r.node, r.actor, r.runtime, Running, Some(now), None, parent)]
                    else t[id := Session(r.node, r.actor, r.runtime, Failed, None, Some(now), None)]
  {
    hide CreateProblem, MayStart;
    MayStartIs(t, n, limits, r);
  }

  /** Everything a system terminal needs of its session. */
  predicate MayOpen(t: Table, n: Node, r: Request, parent: nat, permitted: bool, watched: set<nat>) {
    && parent in t && t[parent].runtime != "shell" && t[parent].status in LIVE_STATES
    && permitted && t[parent].user == r.actor
    && NodeReady(n, "shell")
    && forall c :: c in t && IsLiveShellOf(t[c], parent) ==> c !in watched
  }

  /** The table once the shells of a session have ended. */
  predicate ShellsEnded(t: Table, u: Table, parent: nat, now: int) {
    u.Keys == t.Keys
    && forall c :: c in t ==>
         u[c] == if IsLiveShellOf(t[c], parent) then t[c].(status := Terminated, endedAt := Some(now)) else t[c]
  }

  /** A terminal opens exactly for the owner of a live session, on a ready node, with
      nobody watching its old one, if a new session may start once that has ended. */
  lemma OpenMeans(t: Table, n: Node, limits: Limits, r: Request, parent: nat, permitted: bool, watched: set<nat>,
                  id: nat, reply: StartReply, now: int)
    requires id !in t
    ensures var (u, outcome) := ShellOpened(t, n, limits, r, parent, permitted, watched, id, reply, now);
            if !MayOpen(t, n, r, parent, permitted, watched) then u == t && outcome != Done(id)
            else
              exists ended :: ShellsEnded(t, ended, parent, now)
                && var request := r.(node := t[parent].node, runtime := "shell");
                   && (outcome == Done(id) <==> MayStart(ended, n, limits, request) && reply == Started)
                   && u == if !MayStart(ended, n, limits, request) then ended
                           else if reply == Started then
                             ended[id := Session(t[parent].node, r.actor, "shell", Running, Some(now), None,
                                 Some(parent))]
                           else ended[id := Session(t[parent].node, r.actor, "shell", Failed, None, Some(now), None)]
  {
    hide Created, ChildrenEnded, MayStart;
    MayOpenIs(t, n, r, parent, permitted, watched);
    if MayOpen(t, n, r, parent, permitted, watched) {
      var ended := ChildrenEnded(t, parent, now);
      EndedShells(t, parent, now);
      var request := r.(node := t[parent].node, runtime := SHELL);
      CreateMeans(ended, n, limits, request, Some(parent), id, reply, now);
      hide *;
      assert ShellsEnded(t, ended, parent, now);
    }
  }

  lemma EndedShells(t: Table, parent: nat, now: int)
    ensures ShellsEnded(t, ChildrenEnded(t, parent, now), parent, now)
  {
    ChildrenEndedFrame(t, parent, now);
    hide ChildrenEnded, LiveChildren;
  }

  lemma MayOpenIs(t: Table, n: Node, r: Request, parent: nat, permitted: bool, watched: set<nat>)
    ensures MayOpen(t, n, r, parent, permitted, watched)
       <==> parent in t && MayOpenShell(t[parent], r.actor, permitted) && n.exists_ && n.enabled && n.connected
            && RuntimeProblem(n, SHELL).None? && LiveChildren(t, parent) * watched == {}
  {
    var both := LiveChildren(t, parent) * watched;
    if parent in t {
      AllowedAre(t[parent].status, Running);
    }
    hide LiveChildren;
    LiveShellsAre(t, parent);
    if both == {} {
      forall c | c in t && IsLiveShellOf(t[c], parent)
        ensures c !in watched
      {
        assert c !in both;
      }
    } else {
      var c :| c in both;
      assert IsLiveShellOf(t[c], parent);
    }
  }

  lemma LiveShellsAre(t: Table, parent: nat)
    ensures forall c :: c in LiveChildren(t, parent) <==> c in t && IsLiveShellOf(t[c], parent)
  {
  }

  /** Deleting succeeds exactly for an ended session, which then is gone with its shells. */
  lemma DeleteMeans(t: Table, id: nat)
    ensures var (u, outcome) := Deleted(t, id);
            && (outcome == Done(id) <==> id in t && t[id].status !in LIVE_STATES)
            && (if outcome == Done(id) then
                  forall c :: (c in u <==> c in t && c != id && t[c].parent != Some(id)) && (c in u ==> u[c] == t[c])
                else u == t)
  {
    if id in t {
      AllowedAre(t[id].status, Running);
    }
  }

  // ------------------------------------------------------------ the service

  /** The rows of one database; each method is one committed or rolled back
      transaction. */
  class SessionService {
    const limits: Limits
    var rows: Table

    constructor (limits_: Limits)
      ensures rows == map[] && limits == limits_
    {
      limits, rows := limits_, map[];
    }

    method Create(n: Node, r: Request, id: nat, reply: StartReply, now: int) returns (outcome: Outcome)
      requires id !in rows
      modifies this
      ensures (rows, outcome) == Created(old(rows), n, limits, r, None, id, reply, now)
    {
      outcome := CreateWith(n, r, None, id, reply, now);
    }

    /** `create`, followed by what `open_shell` adds to a session that started. */
    method CreateWith(n: Node, r: Request, parent: Option<nat>, id: nat, reply: StartReply, now: int)
      returns (outcome: Outcome)
      requires id !in rows
      modifies this
      ensures (rows, outcome) == Created(old(rows), n, limits, r, parent, id, reply, now)
    {
      hide ActiveOn, ActiveOf, RuntimeProblem, IsTerminal;
      var problem := CreateProblem(rows, n, limits, r);
      if problem.Some? {
        return Error(problem.value);
      }
      ghost var before := rows;
      rows := rows[id := Session(r.node, r.actor, r.runtime, Starting, None, None, None)];
      if reply != Started {
        // `_fail`: a starting session may always fail.
        if CanTransition(rows[id].status, Failed) {
          rows := rows[id := rows[id].(status := Failed)];
        }
        rows := rows[id := rows[id].(endedAt := Some(now))];
        assert rows == before[id := NewRow(r, parent, reply, now)];
        return CreateOutcome(id, reply);
      }
      if !CanTransition(rows[id].status, Running) {
        return Error("SESSION_INVALID_STATE");
      }
      rows := rows[id := rows[id].(status := Running)];
      rows := rows[id := rows[id].(startedAt := Some(now))];
      rows := rows[id := rows[id].(parent := parent)];
      assert rows == before[id := NewRow(r, parent, reply, now)];
      outcome := Done(id);
    }

    method OpenShell(n: Node, r: Request, parent: nat, permitted: bool, watched: set<nat>, id: nat, reply: StartReply,
                     now: int) returns (outcome: Outcome)
      requires id !in rows
      modifies this
      ensures (rows, outcome) == ShellOpened(old(rows), n, limits, r, parent, permitted, watched, id, reply, now)
    {
      hide Created, RuntimeProblem, ChildrenEnded;
      if parent !in rows {
        return Error("SESSION_NOT_FOUND");
      }
      if !MayOpenShell(rows[parent], r.actor, permitted) {
        return Error("FORBIDDEN");
      }
      if !n.exists_ {
        return Error("NODE_NOT_FOUND");
      }
      if !n.enabled {
        return Error("NODE_DISABLED");
      }
      if !n.connected {
        return Error("NODE_OFFLINE");
      }
      var problem := RuntimeProblem(n, SHELL);
      if problem.Some? {
        return Error(problem.value);
      }
      if LiveChildren(rows, parent) * watched != {} {
        return Error("SHELL_ALREADY_OPEN");
      }
      ChildrenEndedFrame(rows, parent, now);
      TerminateChildren(parent, now);
      outcome := CreateWith(n, r.(node := rows[parent].node, runtime := SHELL), Some(parent), id, reply, now);
    }

    /** The loop over `live_children`. */
    method TerminateChildren(parent: nat, now: int)
      modifies this
      ensures rows == ChildrenEnded(old(rows), parent, now)
    {
      var left := LiveChildren(rows, parent);
      ghost var all := left;
      while left != {}
        invariant left <= all == LiveChildren(old(rows), parent)
        invariant rows.Keys == old(rows).Keys
        invariant forall id :: id in rows ==>
                    rows[id] == if id in all - left then Ended(old(rows)[id], now) else old(rows)[id]
      {
        var child :| child in left;
        rows := rows[child := rows[child].(status := Terminated)];
        rows := rows[child := rows[child].(endedAt := Some(now))];
        left := left - {child};
      }
    }

    /** `answered` is the error of the stop request, if it fails. */
    method Terminate(id: nat, answered: Option<string>, now: int) returns (outcome: Outcome)
      modifies this
      ensures (rows, outcome) == TerminatedBy(old(rows), id, answered, now)
    {
      if id !in rows {
        return Error("SESSION_NOT_FOUND");
      }
      if IsTerminal(rows[id].status) || !CanTransition(rows[id].status, Terminating) {
        return Error("SESSION_INVALID_STATE");
      }
      var before := rows;
      rows := rows[id := rows[id].(status := Terminating)];
      if answered.Some? {
        rows := before;
        return Error(answered.value);
      }
      rows := rows[id := rows[id].(status := Terminated)];
      rows := rows[id := rows[id].(endedAt := Some(now))];
      TerminateChildren(id, now);
      assert before[id := Ended(before[id], now)] == before[id := before[id].(status := Terminating)]
        [id := before[id].(status := Terminated)][id := Ended(before[id], now)];
      outcome := Done(id);
    }

    method ApplyStatusChanged(id: nat, status: Option<Status>, now: int) returns (outcome: Outcome)
      modifies this
      ensures (rows, outcome) == StatusApplied(old(rows), id, status, now)
    {
      if id !in rows || status.None? || !CanTransition(rows[id].status, status.value) {
        return Ignored;
      }
      var before := rows;
      rows := rows[id := rows[id].(status := status.value)];
      if IsTerminal(status.value) {
        rows := rows[id := rows[id].(endedAt := Some(now))];
        assert rows == before[id := before[id].(status := status.value, endedAt := Some(now))];
        TerminateChildren(id, now);
      }
      outcome := Done(id);
    }

    method Delete(id: nat) returns (outcome: Outcome)
      modifies this
      ensures (rows, outcome) == Deleted(old(rows), id)
    {
      if id !in rows {
        return Error("SESSION_NOT_FOUND");
      }
      if !IsTerminal(rows[id].status) {
        return Error("SESSION_INVALID_STATE");
      }
      rows := rows - ({id} + set c | c in rows && rows[c].parent == Some(id));
      outcome := Done(id);
    }
  }
}
