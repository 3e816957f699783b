/** The life of a forwarded port (`TunnelService`): what is live, for how long, and
    how many at once. Each operation is the one transaction its route makes of it. */
module Tunnels {
  import opened Nums
  import opened Counting
  import P = PortPolicy

  datatype Tunnel = Tunnel(node: nat, port: int, protection: string, owner: nat, expiresAt: int, closedAt: Option<int>,
                           url: Option<string>, urlChanges: nat, errorCode: Option<string>, upstream: Option<int>)

  type Rows = map<nat, Tunnel>

  /** The repository's one predicate. */
  predicate Live(t: Tunnel, now: int) {
    t.closedAt.None? && t.expiresAt > now
  }

  datatype State = Closed | Expired | Failed | Unavailable | Opening | Running

  /** `derive_state`. */
  function DeriveState(t: Tunnel, connected: bool, now: int): State {
    if t.closedAt.Some? then Closed
    else if t.expiresAt <= now then Expired
    else if t.errorCode.Some? then Failed
    else if !connected then Unavailable
    else if t.url.None? then Opening
    else Running
  }

  /** The derived state and the SQL predicate agree on what has ended, and a
      recorded failure outranks what will pass by itself. */
  lemma StateAgreesWithLive(t: Tunnel, connected: bool, now: int)
    ensures Live(t, now) <==> DeriveState(t, connected, now) !in {Closed, Expired}
    ensures Live(t, now) && t.errorCode.Some? <==> DeriveState(t, connected, now) == Failed
    ensures DeriveState(t, connected, now) == Running <==> Live(t, now) && t.errorCode.None? && connected && t.url.Some?
  {
  }

  function LiveSet(rows: Rows, now: int): set<nat> {
    set id | id in rows && Live(rows[id], now)
  }

  function LiveOn(rows: Rows, node: nat, now: int): set<nat> {
    set id | id in rows && rows[id].node == node && Live(rows[id], now)
  }

  function LiveOf(rows: Rows, owner: nat, now: int): set<nat> {
    set id | id in rows && rows[id].owner == owner && Live(rows[id], now)
  }

  // ------------------------------------------------------------ creating

  datatype Integration = Integration(enabled: bool, budget: int, defaultTtl: int, defaultProtection: string, pro: bool)

  /** What a request finds: the integration row, the node, its policy, the settings,
      and whether this user has created a tunnel on this node before. */
  datatype Env = Env(integration: Option<Integration>, nodeExists: bool, nodeEnabled: bool, policy: P.Policy,
                     ready: bool, connected: bool, perUser: int, maxTtl: int, known: bool)

  /** `ips` is the number of addresses in the allowlist, None if one is invalid. */
  datatype Request = Request(actor: nat, node: nat, port: int, protection: string, ips: Option<nat>, ttl: Option<int>,
                             acknowledgeThird: bool, acknowledgePublic: bool)

  /** What the credential store has, on the paid tier, and what the daemon answers; a
      URL that is not https is None. */
  datatype Credential = NoCredential | Unreadable(code: string) | Readable

  datatype Reply = RequestError(code: string) | NotOpened(code: string)
                 | Opened(url: Option<string>, authenticated: bool, upstream: Option<int>)

  datatype Answer = Answer(credential: Credential, reply: Reply)

  /** Crashed is an IntegrityError, after which nothing is committed. */
  datatype Outcome = Done(id: nat) | Error(code: string) | Crashed

  function LimitProblem(rows: Rows, env: Env, i: Integration, r: Request, now: int): bool {
    |LiveSet(rows, now)| >= i.budget
    || |LiveOn(rows, r.node, now)| >= env.policy.cap
    || |LiveOf(rows, r.actor, now)| >= env.perUser
  }

  function Protection(i: Integration, r: Request): string {
    if r.protection == "" then i.defaultProtection else r.protection
  }

  predicate OnPort(t: Tunnel, node: nat, port: int) { t.node == node && t.port == port }

  predicate LiveOnPort(rows: Rows, node: nat, port: int, now: int) {
    exists id :: id in rows && OnPort(rows[id], node, port) && Live(rows[id], now)
  }

  /** The partial unique index on (node, port) counts every row not closed. */
  predicate IndexTaken(rows: Rows, node: nat, port: int) {
    exists id :: id in rows && OnPort(rows[id], node, port) && rows[id].closedAt.None?
  }

  /** `_bounded_ttl`; None where it raises. */
  function BoundedTtl(requested: Option<int>, defaultTtl: int, maxTtl: int): Option<int> {
    if requested.None? then Some(P.Min(defaultTtl, maxTtl))
    else if requested.value < 60 || requested.value > maxTtl then None
    else requested
  }

  /** The checks of `create` before its insert, in their order. */
  function CreateProblem(rows: Rows, env: Env, r: Request, now: int): Option<string> {
    if env.integration.None? || !env.integration.value.enabled then Some("TUNNEL_INTEGRATION_DISABLED")
    else
      var i := env.integration.value;
      if !env.nodeExists then Some("NODE_NOT_FOUND")
      else if !env.nodeEnabled then Some("NODE_DISABLED")
      else if env.policy.blocked.Some? then
        Some(if env.policy.blocked == Some(P.Integration) then "TUNNEL_INTEGRATION_DISABLED"
             else "TUNNEL_NODE_DISABLED")
      else if !env.ready then Some("TUNNEL_PROVIDER_NOT_CONFIGURED")
      else if !env.connected then Some("NODE_OFFLINE")
      else if !P.Permits(env.policy.ports, r.port) then Some("TUNNEL_PORT_NOT_ALLOWED")
      else if LimitProblem(rows, env, i, r, now) then Some("TUNNEL_LIMIT_REACHED")
      else if Protection(i, r) !in {"basic", "ipallow", "public"} then Some("INVALID_ARGUMENT")
      else if Protection(i, r) == "ipallow" && (r.ips.None? || r.ips.value == 0) then Some("INVALID_ARGUMENT")
      else if Protection(i, r) == "public" && !r.acknowledgePublic then Some("INVALID_ARGUMENT")
      else if !r.acknowledgeThird && !env.known then Some("INVALID_ARGUMENT")
      else if LiveOnPort(rows, r.node, r.port, now) then Some("TUNNEL_PORT_NOT_ALLOWED")
      else if BoundedTtl(r.ttl, i.defaultTtl, env.maxTtl).None? then Some("INVALID_ARGUMENT")
      else None
  }

  /** Why the row inserted by `create` is removed again, if it is. */
  function OpenProblem(pro: bool, answer: Answer): Option<string> {
    if pro && answer.credential.NoCredential? then Some("TUNNEL_PROVIDER_UNAUTHORIZED")
    else
      match answer.reply
      case RequestError(code) => Some(code)
      case NotOpened(code) => Some(code)
      case Opened(url, authenticated, _) =>
        if url.None? then Some("TUNNEL_PROVIDER_UNAVAILABLE")
        else if pro && !authenticated then Some("TUNNEL_PROVIDER_UNAUTHORIZED")
        else None
  }

  /** The row as it is inserted. */
  function NewTunnel(env: Env, r: Request, now: int): Tunnel
    requires env.integration.Some? && BoundedTtl(r.ttl, env.integration.value.defaultTtl, env.maxTtl).Some?
  {
    var i := env.integration.value;
    Tunnel(r.node, r.port, Protection(i, r), r.actor, now + BoundedTtl(r.ttl, i.defaultTtl, env.maxTtl).value, None,
           None, 0, None, None)
  }

  /** Whether the credential store raises after the insert and outside the handler
      that would remove the row. */
  predicate CredentialRaises(env: Env, answer: Answer)
    requires env.integration.Some?
  {
    env.integration.value.pro && answer.credential.Unreadable?
  }

  /** `create`, and the commit its route makes even after an error. */
  function Created(rows: Rows, env: Env, r: Request, id: nat, answer: Answer, now: int): (Rows, Outcome) {
    var problem := CreateProblem(rows, env, r, now);
    if problem.Some? then (rows, Error(problem.value))
    else if IndexTaken(rows, r.node, r.port) then (rows, Crashed)
    else if CredentialRaises(env, answer) then (rows[id := NewTunnel(env, r, now)], Error(answer.credential.code))
    else
      var refusal := OpenProblem(env.integration.value.pro, answer);
      if refusal.Some? then (rows, Error(refusal.value))
      else
        (rows[id := NewTunnel(env, r, now).(url := answer.reply.url, upstream := answer.reply.upstream)], Done(id))
  }

  // ------------------------------------------------------------ the other operations

  /** `_end`. */
  function Ended(rows: Rows, id: nat, now: int): Rows
    requires id in rows
  {
    rows[id := rows[id].(closedAt := Some(now))]
  }

  function ClosedBy(rows: Rows, id: nat, now: int): (Rows, Outcome) {
    if id !in rows then (rows, Error("NOT_FOUND"))
    else if rows[id].closedAt.None? then (Ended(rows, id, now), Done(id))
    else (rows, Done(id))
  }

  function Extended(rows: Rows, integration: Option<Integration>, maxTtl: int, id: nat, now: int): (Rows, Outcome) {
    if integration.None? || !integration.value.enabled then (rows, Error("TUNNEL_INTEGRATION_DISABLED"))
    else if id !in rows then (rows, Error("NOT_FOUND"))
    else if !Live(rows[id], now) then (rows, Error("TUNNEL_LIMIT_REACHED"))
    else
      var deadline := P.Min(rows[id].expiresAt + integration.value.defaultTtl, now + maxTtl);
      if deadline <= rows[id].expiresAt then (rows, Error("TUNNEL_LIMIT_REACHED"))
      else (rows[id := rows[id].(expiresAt := deadline)], Done(id))
  }

  /** The request that `rotate_password` makes of `create`. */
  function RotationRequest(t: Tunnel, actor: nat, now: int): Request {
    Request(actor, t.node, t.port, "basic", Some(0), Some(P.Max(t.expiresAt - now, 60)), true, false)
  }

  /** `rotate_password`: whatever `create` then refuses, the old tunnel stays closed. */
  function Rotated(rows: Rows, env: Env, actor: nat, id: nat, fresh_: nat, answer: Answer, now: int): (Rows, Outcome) {
    if id !in rows then (rows, Error("NOT_FOUND"))
    else if rows[id].protection != "basic" then (rows, Error("INVALID_ARGUMENT"))
    else
      var r := Created(Ended(rows, id, now), env, RotationRequest(rows[id], actor, now), fresh_, answer, now);
      if r.1 == Crashed then (rows, Crashed) else r
  }

  function ClosedForNode(rows: Rows, node: nat, now: int): Rows {
    map id | id in rows :: if id in LiveOn(rows, node, now) then rows[id].(closedAt := Some(now)) else rows[id]
  }

  /** A `tunnel.status` event; `id` is None if it is no identifier. */
  datatype Report = Report(id: Option<nat>, state: string, url: Option<string>, upstream: Option<int>,
                           code: Option<string>)

  function Reported(rows: Rows, node: nat, m: Report, now: int): Rows {
    if m.id.None? || m.id.value !in rows then rows
    else
      var id, t := m.id.value, rows[m.id.value];
      if t.node != node || t.closedAt.Some? then rows
      else if m.state == "running" then
        var moved := if m.url.Some? && m.url != t.url then t.(url := m.url, urlChanges := t.urlChanges + 1) else t;
        rows[id := moved.(upstream := if m.upstream.Some? then m.upstream else t.upstream, errorCode := None)]
      else if m.state == "reconnecting" then rows[id := t.(errorCode := None)]
      else if m.state == "failed" then
        rows[id := t.(errorCode := Some(if m.code.Some? then m.code.value else "TUNNEL_PROVIDER_UNAVAILABLE"))]
      else if m.state == "closed" then Ended(rows, id, now)
      else rows
  }

  // ------------------------------------------------------------ runs

  datatype World = World(rows: Rows, clock: int)

  datatype Event =
    | Create(env: Env, r: Request, id: nat, answer: Answer, now: int)
    | Close(id: nat, now: int)
    | Extend(integration: Option<Integration>, maxTtl: int, id: nat, now: int)
    | Rotate(env: Env, actor: nat, id: nat, fresh_: nat, answer: Answer, now: int)
    | CloseForNode(node: nat, now: int)
    | Status(node: nat, m: Report, now: int)

  /** The highest limits in force at any time of the run. */
  datatype Bounds = Bounds(fleet: int, perNode: map<nat, int>, perUser: int, maxTtl: int)

  predicate EnvWithin(env: Env, node: nat, b: Bounds) {
    && (env.integration.Some? ==> env.integration.value.budget <= b.fleet)
    && node in b.perNode && env.policy.cap <= b.perNode[node]
    && env.perUser <= b.perUser && env.maxTtl <= b.maxTtl
  }

  /** Time does not go back, new tunnels get new ids, and no limit is higher than
      the bounds say. */
  predicate Legal(w: World, e: Event, b: Bounds) {
    && e.now >= w.clock
    && match e
       case Create(env, r, id, answer, now) => id !in w.rows && EnvWithin(env, r.node, b)
       case Rotate(env, actor, id, fresh_, answer, now) =>
         fresh_ !in w.rows && (id in w.rows ==> EnvWithin(env, w.rows[id].node, b))
       case Extend(integration, maxTtl, id, now) => maxTtl <= b.maxTtl
       case _ => true
  }

  function Step(w: World, e: Event): World {
    World(match e
          case Create(env, r, id, answer, now) => Created(w.rows, env, r, id, answer, now).0
          case Close(id, now) => ClosedBy(w.rows, id, now).0
          case Extend(integration, maxTtl, id, now) => Extended(w.rows, integration, maxTtl, id, now).0
          case Rotate(env, actor, id, fresh_, answer, now) => Rotated(w.rows, env, actor, id, fresh_, answer, now).0
          case CloseForNode(node, now) => ClosedForNode(w.rows, node, now)
          case Status(node, m, now) => Reported(w.rows, node, m, now),
          e.now)
  }

  ghost predicate Reaches(es: seq<Event>, w: World, b: Bounds) {
    if es == [] then w.rows == map[]
    else
      var e := es[|es| - 1];
      exists v :: Reaches(es[..|es| - 1], v, b) && Legal(v, e, b) && w == Step(v, e)
  }

  // ------------------------------------------------------------ the invariant

  predicate ExpiryBounded(rows: Rows, now: int, maxTtl: int) {
    forall id :: id in rows ==> rows[id].expiresAt <= now + maxTtl
  }

  /** The index: at most one row that is not closed for each node and port. */
  predicate OnePerPort(rows: Rows) {
    forall i, j :: i in rows && j in rows && i != j && rows[i].closedAt.None? && rows[j].closedAt.None? ==>
      !OnPort(rows[i], rows[j].node, rows[j].port)
  }

  ghost predicate WithinBounds(rows: Rows, now: int, b: Bounds) {
    && (LiveSet(rows, now) != {} ==> |LiveSet(rows, now)| <= b.fleet)
    && (forall n :: LiveOn(rows, n, now) != {} ==> n in b.perNode && |LiveOn(rows, n, now)| <= b.perNode[n])
    && (forall u :: LiveOf(rows, u, now) != {} ==> |LiveOf(rows, u, now)| <= b.perUser)
  }

  ghost predicate Inv(rows: Rows, now: int, b: Bounds) {
    ExpiryBounded(rows, now, b.maxTtl) && OnePerPort(rows) && WithinBounds(rows, now, b)
  }

  /** Every row of `after` that is live at `then_` was live in `before` at `now`. */
  predicate NothingRevives(before: Rows, now: int, after: Rows, then_: int) {
    forall id :: id in after && Live(after[id], then_) ==>
      id in before && Live(before[id], now) && before[id].node == after[id].node && before[id].owner == after[id].owner
  }

  lemma FewerKeepBounds(before: Rows, now: int, after: Rows, then_: int, b: Bounds)
    requires WithinBounds(before, now, b) && NothingRevives(before, now, after, then_)
    ensures WithinBounds(after, then_, b)
  {
    FewerLive(before, now, after, then_);
    hide LiveSet, LiveOn, LiveOf, NothingRevives;
    SubsetIsSmaller(LiveSet(after, then_), LiveSet(before, now));
    forall n
      ensures |LiveOn(after, n, then_)| <= |LiveOn(before, n, now)|
    {
      SubsetIsSmaller(LiveOn(after, n, then_), LiveOn(before, n, now));
    }
    forall u
      ensures |LiveOf(after, u, then_)| <= |LiveOf(before, u, now)|
    {
      SubsetIsSmaller(LiveOf(after, u, then_), LiveOf(before, u, now));
    }
  }

  lemma FewerLive(before: Rows, now: int, after: Rows, then_: int)
    requires NothingRevives(before, now, after, then_)
    ensures LiveSet(after, then_) <= LiveSet(before, now)
    ensures forall n :: LiveOn(after, n, then_) <= LiveOn(before, n, now)
    ensures forall u :: LiveOf(after, u, then_) <= LiveOf(before, u, now)
  {
  }

  /** Waiting changes nothing for the worse. */
  lemma WaitingKeeps(rows: Rows, now: int, then_: int, b: Bounds)
    requires Inv(rows, now, b) && now <= then_
    ensures Inv(rows, then_, b)
  {
    FewerKeepBounds(rows, now, rows, then_, b);
    hide WithinBounds;
  }

  // ------------------------------------------------------------ each operation keeps it

  /** A row changed in place, with its deadline within the ceiling. */
  lemma ChangeKeeps(rows: Rows, id: nat, t: Tunnel, now: int, b: Bounds)
    requires Inv(rows, now, b) && id in rows
    requires t.node == rows[id].node && t.port == rows[id].port && t.owner == rows[id].owner
    requires t.closedAt.None? ==> rows[id].closedAt.None?
    requires Live(t, now) ==> Live(rows[id], now)
    requires t.expiresAt <= now + b.maxTtl
    ensures Inv(rows[id := t], now, b)
  {
    FewerKeepBounds(rows, now, rows[id := t], now, b);
    hide WithinBounds;
  }

  lemma ClosedForNodeKeeps(rows: Rows, node: nat, now: int, b: Bounds)
    requires Inv(rows, now, b)
    ensures Inv(ClosedForNode(rows, node, now), now, b)
    ensures LiveOn(ClosedForNode(rows, node, now), node, now) == {}
  {
    FewerKeepBounds(rows, now, ClosedForNode(rows, node, now), now, b);
    hide WithinBounds;
  }

  lemma InsertCounts(rows: Rows, id: nat, t: Tunnel, now: int, k: nat)
    requires id !in rows
    ensures |LiveSet(rows[id := t], now)| == |LiveSet(rows, now)| + if Live(t, now) then 1 else 0
    ensures |LiveOn(rows[id := t], k, now)| == |LiveOn(rows, k, now)| + if Live(t, now) && t.node == k then 1 else 0
    ensures |LiveOf(rows[id := t], k, now)| == |LiveOf(rows, k, now)| + if Live(t, now) && t.owner == k then 1 else 0
  {
    GrowsByOne(LiveSet(rows, now), LiveSet(rows[id := t], now), id, Live(t, now));
    GrowsByOne(LiveOn(rows, k, now), LiveOn(rows[id := t], k, now), id, Live(t, now) && t.node == k);
    GrowsByOne(LiveOf(rows, k, now), LiveOf(rows[id := t], k, now), id, Live(t, now) && t.owner == k);
  }

  lemma InsertKeeps(rows: Rows, id: nat, t: Tunnel, now: int, b: Bounds)
    requires Inv(rows, now, b) && id !in rows && t.expiresAt <= now + b.maxTtl
    requires !IndexTaken(rows, t.node, t.port)
    requires |LiveSet(rows, now)| < b.fleet
    requires t.node in b.perNode && |LiveOn(rows, t.node, now)| < b.perNode[t.node]
    requires |LiveOf(rows, t.owner, now)| < b.perUser
    ensures Inv(rows[id := t], now, b)
  {
    InsertOnePerPort(rows, id, t);
    hide LiveSet, LiveOn, LiveOf, Live, IndexTaken, OnePerPort;
    var after := rows[id := t];
    forall k
      ensures |LiveOn(after, k, now)| <= |LiveOn(rows, k, now)| + if t.node == k then 1 else 0
      ensures |LiveOf(after, k, now)| <= |LiveOf(rows, k, now)| + if t.owner == k then 1 else 0
      ensures |LiveSet(after, now)| <= |LiveSet(rows, now)| + 1
    {
      InsertCounts(rows, id, t, now, k);
    }
    InsertCounts(rows, id, t, now, 0);
  }

  lemma InsertOnePerPort(rows: Rows, id: nat, t: Tunnel)
    requires OnePerPort(rows) && id !in rows && !IndexTaken(rows, t.node, t.port)
    ensures OnePerPort(rows[id := t])
  {
  }

  lemma CreatedKeeps(rows: Rows, env: Env, r: Request, id: nat, answer: Answer, now: int, b: Bounds)
    requires Inv(rows, now, b) && id !in rows && EnvWithin(env, r.node, b)
    ensures Inv(Created(rows, env, r, id, answer, now).0, now, b)
  {
    hide Inv, LiveSet, LiveOn, LiveOf, LiveOnPort, IndexTaken, P.Permits;
    var result := Created(rows, env, r, id, answer, now);
    if CreateProblem(rows, env, r, now).None? && !IndexTaken(rows, r.node, r.port) {
      InsertKeeps(rows, id, NewTunnel(env, r, now), now, b);
      if result.1.Done? {
        InsertKeeps(rows, id, result.0[id], now, b);
      }
    }
  }

  lemma ExtendedKeeps(rows: Rows, integration: Option<Integration>, maxTtl: int, id: nat, now: int, b: Bounds)
    requires Inv(rows, now, b) && maxTtl <= b.maxTtl
    ensures Inv(Extended(rows, integration, maxTtl, id, now).0, now, b)
  {
    hide Inv;
    var result := Extended(rows, integration, maxTtl, id, now);
    if result.1.Done? {
      ChangeKeeps(rows, id, result.0[id], now, b);
    }
  }

  lemma EndedKeeps(rows: Rows, id: nat, now: int, b: Bounds)
    requires Inv(rows, now, b) && id in rows
    ensures Inv(Ended(rows, id, now), now, b)
  {
    ChangeKeeps(rows, id, rows[id].(closedAt := Some(now)), now, b);
  }

  lemma ReportedKeeps(rows: Rows, node: nat, m: Report, now: int, b: Bounds)
    requires Inv(rows, now, b)
    ensures Inv(Reported(rows, node, m, now), now, b)
  {
    var after := Reported(rows, node, m, now);
    if m.id.Some? && m.id.value in rows {
      var id := m.id.value;
      assert after == rows[id := after[id]];
      ChangeKeeps(rows, id, after[id], now, b);
    }
  }

  lemma RotatedKeeps(rows: Rows, env: Env, actor: nat, id: nat, fresh_: nat, answer: Answer, now: int, b: Bounds)
    requires Inv(rows, now, b) && fresh_ !in rows && (id in rows ==> EnvWithin(env, rows[id].node, b))
    ensures Inv(Rotated(rows, env, actor, id, fresh_, answer, now).0, now, b)
  {
    hide Inv, Created, EnvWithin;
    if id in rows {
      EndedKeeps(rows, id, now, b);
      CreatedKeeps(Ended(rows, id, now), env, RotationRequest(rows[id], actor, now), fresh_, answer, now, b);
    }
  }

  lemma StepKeeps(w: World, e: Event, b: Bounds)
    requires Inv(w.rows, w.clock, b) && Legal(w, e, b)
    ensures Inv(Step(w, e).rows, Step(w, e).clock, b)
  {
    hide Inv, Created, Extended, Rotated, ClosedForNode, Reported, EnvWithin, Live;
    WaitingKeeps(w.rows, w.clock, e.now, b);
    match e
    case Create(env, r, id, answer, now) => CreatedKeeps(w.rows, env, r, id, answer, now, b);
    case Close(id, now) =>
      if id in w.rows {
        EndedKeeps(w.rows, id, now, b);
      }
    case Extend(integration, maxTtl, id, now) => ExtendedKeeps(w.rows, integration, maxTtl, id, now, b);
    case Rotate(env, actor, id, fresh_, answer, now) => RotatedKeeps(w.rows, env, actor, id, fresh_, answer, now, b);
    case CloseForNode(node, now) => ClosedForNodeKeeps(w.rows, node, now, b);
    case Status(node, m, now) => ReportedKeeps(w.rows, node, m, now, b);
  }

  /** The main result, over every run with time moving forward: every deadline is
      within the ceiling, no two tunnels are live on one port of a node, and the
      fleet, node and user counts stay within the highest limits ever in force. */
  lemma {:induction false} EveryRunIsBounded(es: seq<Event>, w: World, b: Bounds)
    requires Reaches(es, w, b)
    ensures Inv(w.rows, w.clock, b)
    ensures forall i, j ::
              i in w.rows && j in w.rows && i != j && Live(w.rows[i], w.clock) && Live(w.rows[j], w.clock) ==>
              !OnPort(w.rows[i], w.rows[j].node, w.rows[j].port)
  {
    if es == [] {
      assert LiveSet(w.rows, w.clock) == {};
      assert forall n :: LiveOn(w.rows, n, w.clock) == {} && LiveOf(w.rows, n, w.clock) == {};
    } else {
      var e := es[|es| - 1];
      var v :| Reaches(es[..|es| - 1], v, b) && Legal(v, e, b) && w == Step(v, e);
      EveryRunIsBounded(es[..|es| - 1], v, b);
      StepKeeps(v, e, b);
    }
  }

  // ------------------------------------------------------------ ended for good

  /** A tunnel that was closed or has expired is never live again. */
  lemma EndedForGood(w: World, e: Event, id: nat, b: Bounds)
    requires Legal(w, e, b) && id in w.rows && !Live(w.rows[id], w.clock)
    ensures id in Step(w, e).rows && !Live(Step(w, e).rows[id], Step(w, e).clock)
  {
    hide CreateProblem, OpenProblem, IndexTaken, NewTunnel;
  }

  /** Nor is a live tunnel ever shortened or moved to another port, owner or node. */
  lemma NeverShortened(w: World, e: Event, id: nat, b: Bounds)
    requires Legal(w, e, b) && id in w.rows
    ensures id in Step(w, e).rows
    ensures var t, u := w.rows[id], Step(w, e).rows[id];
            u.node == t.node && u.port == t.port && u.owner == t.owner && u.protection == t.protection
            && u.expiresAt >= t.expiresAt
  {
    hide CreateProblem, OpenProblem, IndexTaken, NewTunnel;
  }

  // ------------------------------------------------------------ the index and the check before it

  /** The check is looser than the index it stands in for: an accepted request
      crashes exactly when the port still holds a tunnel that expired and was never
      closed. */
  lemma CrashesIffExpiredIsUnclosed(rows: Rows, env: Env, r: Request, id: nat, answer: Answer, now: int)
    requires CreateProblem(rows, env, r, now).None?
    ensures Created(rows, env, r, id, answer, now).1 == Crashed
       <==> exists old_ :: old_ in rows && OnPort(rows[old_], r.node, r.port)
                           && rows[old_].closedAt.None? && rows[old_].expiresAt <= now
  {
    hide LimitProblem, P.Permits, OpenProblem, NewTunnel;
    if IndexTaken(rows, r.node, r.port) {
      var old_ :| old_ in rows && OnPort(rows[old_], r.node, r.port) && rows[old_].closedAt.None?;
      assert !Live(rows[old_], now);
    }
  }

  /** A refused request leaves no row behind, except in one case: on the paid tier,
      with every check passed, a stored credential that cannot be read. The row that
      then stays is live and has no URL. */
  lemma RefusedLeavesARowIff(rows: Rows, env: Env, r: Request, id: nat, answer: Answer, now: int)
    requires id !in rows
    ensures var (after, outcome) := Created(rows, env, r, id, answer, now);
            outcome.Error? ==>
              (after != rows <==>
                 CreateProblem(rows, env, r, now).None? && !IndexTaken(rows, r.node, r.port)
                 && CredentialRaises(env, answer))
              && (after != rows ==>
                    id in after && after[id].url.None? && DeriveState(after[id], true, now) in {Opening, Expired})
  {
    hide CreateProblem, IndexTaken, OpenProblem;
    var (after, outcome) := Created(rows, env, r, id, answer, now);
    assert id in after ==> after != rows;
  }

  /** Rotating asks for what remains of the old deadline, but the ceiling may have been
      lowered since. Where nothing else is in the way, the lifetime is refused exactly
      when what remains is above the ceiling now in force; the old tunnel is closed by
      then and nothing takes its place. */
  lemma RotationTtlRefusedIff(rows: Rows, env: Env, actor: nat, id: nat, fresh_: nat, answer: Answer, now: int)
    requires id in rows && rows[id].protection == "basic"
    requires CreateProblem(Ended(rows, id, now), env.(maxTtl := P.Max(rows[id].expiresAt - now, 60)),
                           RotationRequest(rows[id], actor, now), now).None?
    ensures var problem := CreateProblem(Ended(rows, id, now), env, RotationRequest(rows[id], actor, now), now);
            && (problem.Some? <==> P.Max(rows[id].expiresAt - now, 60) > env.maxTtl)
            && (problem.Some? ==> Rotated(rows, env, actor, id, fresh_, answer, now)
                                  == (Ended(rows, id, now), Error("INVALID_ARGUMENT")))
  {
    hide LimitProblem, P.Permits, LiveOnPort;
    var old_ := env.(maxTtl := P.Max(rows[id].expiresAt - now, 60));
    assert env.integration == old_.integration && env.policy == old_.policy && env.perUser == old_.perUser;
    SameLimits(Ended(rows, id, now), old_, env, env.integration.value, RotationRequest(rows[id], actor, now), now);
  }

  lemma SameLimits(rows: Rows, env: Env, env': Env, i: Integration, r: Request, now: int)
    requires env.policy == env'.policy && env.perUser == env'.perUser
    ensures LimitProblem(rows, env, i, r, now) == LimitProblem(rows, env', i, r, now)
  {
  }

  /** So it never is while the ceiling in force is the highest of the run. */
  lemma RotationTtlFits(rows: Rows, env: Env, actor: nat, id: nat, now: int, b: Bounds, defaultTtl: int)
    requires Inv(rows, now, b) && id in rows && env.maxTtl == b.maxTtl && b.maxTtl >= 60
    ensures BoundedTtl(RotationRequest(rows[id], actor, now).ttl, defaultTtl, env.maxTtl).Some?
  {
    hide OnePerPort, WithinBounds;
  }

  /** Extending an extended tunnel at the same instant fails exactly when the
      ceiling was reached. */
  lemma ExtendStopsAtCeiling(rows: Rows, integration: Option<Integration>, maxTtl: int, id: nat, now: int)
    requires integration.Some? && integration.value.enabled && integration.value.defaultTtl > 0
    requires id in rows && Live(rows[id], now) && rows[id].expiresAt <= now + maxTtl
    ensures var result := Extended(rows, integration, maxTtl, id, now);
            && (result.1.Done? <==> rows[id].expiresAt < now + maxTtl)
            && (result.1.Done? ==> rows[id].expiresAt < result.0[id].expiresAt <= now + maxTtl)
  {
  }

  // ------------------------------------------------------------ what the answers mean

  predicate PortIn(ranges: seq<P.Range>, port: int) {
    exists k :: 0 <= k < |ranges| && ranges[k].low <= port <= ranges[k].high
  }

  /** A tunnel that counts: nobody closed it, and its time is not over. */
  predicate Counts(t: Tunnel, now: int) { t.closedAt == None && now < t.expiresAt }

  predicate RoomLeft(rows: Rows, env: Env, r: Request, now: int)
    requires env.integration.Some?
  {
    && |set id | id in rows && Counts(rows[id], now)| < env.integration.value.budget
    && |set id | id in rows && rows[id].node == r.node && Counts(rows[id], now)| < env.policy.cap
    && |set id | id in rows && rows[id].owner == r.actor && Counts(rows[id], now)| < env.perUser
  }

  /** What the chosen protection asks for, and the acknowledgement of the third party. */
  predicate ProtectionReady(i: Integration, env: Env, r: Request) {
    var chosen := if r.protection != "" then r.protection else i.defaultProtection;
    && (chosen == "basic"
        || (chosen == "ipallow" && r.ips.Some? && r.ips.value > 0)
        || (chosen == "public" && r.acknowledgePublic))
    && (r.acknowledgeThird || env.known)
  }

  /** Every gate of a request, on the environment and the request. */
  predicate MayForward(rows: Rows, env: Env, r: Request, now: int) {
    && env.integration.Some? && env.integration.value.enabled
    && env.nodeExists && env.nodeEnabled && env.policy.blocked == None && env.ready && env.connected
    && PortIn(env.policy.ports, r.port)
    && RoomLeft(rows, env, r, now)
    && ProtectionReady(env.integration.value, env, r)
    && (forall id :: id in rows && Counts(rows[id], now) ==> !(rows[id].node == r.node && rows[id].port == r.port))
    && (r.ttl.Some? ==> 60 <= r.ttl.value <= env.maxTtl)
  }

  /** The daemon opened it, with a URL, and on the paid tier with the stored credential. */
  predicate DaemonOpened(env: Env, answer: Answer)
    requires env.integration.Some?
  {
    && answer.reply.Opened? && answer.reply.url.Some?
    && (env.integration.value.pro ==> answer.credential.Readable? && answer.reply.authenticated)
  }

  lemma SameCounts(rows: Rows, now: int, node: nat, owner: nat)
    ensures (set id | id in rows && Counts(rows[id], now)) == LiveSet(rows, now)
    ensures (set id | id in rows && rows[id].node == node && Counts(rows[id], now)) == LiveOn(rows, node, now)
    ensures (set id | id in rows && rows[id].owner == owner && Counts(rows[id], now)) == LiveOf(rows, owner, now)
  {
  }

  lemma RoomIs(rows: Rows, env: Env, r: Request, now: int)
    requires env.integration.Some?
    ensures RoomLeft(rows, env, r, now) <==> !LimitProblem(rows, env, env.integration.value, r, now)
  {
    SameCounts(rows, now, r.node, r.actor);
    hide LiveSet, LiveOn, LiveOf;
  }

  lemma PermitsIs(ranges: seq<P.Range>, port: int)
    ensures P.Permits(ranges, port) <==> PortIn(ranges, port)
  {
    if P.Permits(ranges, port) {
      var k :| 0 <= k < |ranges| && P.Contains(ranges[k], port);
    }
    if PortIn(ranges, port) {
      var k :| 0 <= k < |ranges| && ranges[k].low <= port <= ranges[k].high;
      assert P.Contains(ranges[k], port);
    }
  }

  lemma MayForwardIs(rows: Rows, env: Env, r: Request, now: int)
    ensures CreateProblem(rows, env, r, now).None? <==> MayForward(rows, env, r, now)
  {
    PermitsIs(env.policy.ports, r.port);
    if env.integration.Some? {
      RoomIs(rows, env, r, now);
    }
    hide LimitProblem, RoomLeft, P.Permits, PortIn;
    PortFreeIs(rows, r.node, r.port, now);
    hide LiveOnPort;
  }

  lemma PortFreeIs(rows: Rows, node: nat, port: int, now: int)
    ensures !LiveOnPort(rows, node, port, now)
       <==> forall id :: id in rows && Counts(rows[id], now) ==> !(rows[id].node == node && rows[id].port == port)
  {
    if LiveOnPort(rows, node, port, now) {
      var id :| id in rows && OnPort(rows[id], node, port) && Live(rows[id], now);
      assert Counts(rows[id], now);
    } else {
      forall id | id in rows && Counts(rows[id], now)
        ensures !(rows[id].node == node && rows[id].port == port)
      {
        assert OnPort(rows[id], node, port) <==> rows[id].node == node && rows[id].port == port;
      }
    }
  }

  /** The row of a tunnel that was opened. */
  function Forwarded(env: Env, r: Request, answer: Answer, now: int): Tunnel
    requires env.integration.Some? && DaemonOpened(env, answer)
  {
    var i := env.integration.value;
    var lifetime := if r.ttl.Some? then r.ttl.value else if i.defaultTtl < env.maxTtl then i.defaultTtl else env.maxTtl;
    Tunnel(r.node, r.port, if r.protection != "" then r.protection else i.defaultProtection, r.actor, now + lifetime,
           None, answer.reply.url, 0, None, answer.reply.upstream)
  }

  /** A request succeeds exactly if every gate is open, no row of the port is left
      unclosed, and the daemon opened the tunnel; the row is then what was asked for.
      Otherwise nothing is added, except behind a credential that cannot be read. */
  lemma CreateMeans(rows: Rows, env: Env, r: Request, id: nat, answer: Answer, now: int)
    requires id !in rows
    ensures var (after, outcome) := Created(rows, env, r, id, answer, now);
            var free := forall old_ :: old_ in rows && rows[old_].node == r.node && rows[old_].port == r.port ==>
                          rows[old_].closedAt.Some?;
            && (outcome == Done(id) <==> MayForward(rows, env, r, now) && free && DaemonOpened(env, answer))
            && (outcome == Done(id) ==> after == rows[id := Forwarded(env, r, answer, now)])
            && (outcome != Done(id) && after != rows ==>
                  env.integration.Some? && env.integration.value.pro && answer.credential.Unreadable?)
  {
    MayForwardIs(rows, env, r, now);
    IndexIs(rows, r.node, r.port);
    hide CreateProblem, IndexTaken, RoomLeft, PortIn, ProtectionReady;
    ProblemHasIntegration(rows, env, r, now);
  }

  /** Rotating a password: only a password tunnel is touched; it ends at once, and a new
      one for what remained of its time is asked for on the same port, whose gates and
      whose daemon decide. A crash takes the ending back, and a refusal does not. */
  lemma RotateMeans(rows: Rows, env: Env, actor: nat, id: nat, fresh_: nat, answer: Answer, now: int)
    requires fresh_ !in rows
    ensures var (after, outcome) := Rotated(rows, env, actor, id, fresh_, answer, now);
            if id !in rows then after == rows && outcome == Error("NOT_FOUND")
            else if rows[id].protection != "basic" then after == rows && outcome == Error("INVALID_ARGUMENT")
            else
              var old_ := rows[id];
              var ended := rows[id := old_.(closedAt := Some(now))];
              var left := if old_.expiresAt - now < 60 then 60 else old_.expiresAt - now;
              var r := Request(actor, old_.node, old_.port, "basic", Some(0), Some(left), true, false);
              var free := forall other ::
                            other in ended && ended[other].node == r.node && ended[other].port == r.port ==>
                            ended[other].closedAt.Some?;
              && (outcome == Done(fresh_) <==> MayForward(ended, env, r, now) && free && DaemonOpened(env, answer))
              && (outcome == Done(fresh_) ==> after == ended[fresh_ := Forwarded(env, r, answer, now)])
              && (outcome == Crashed <==> MayForward(ended, env, r, now) && !free)
              && (outcome == Crashed ==> after == rows)
              && (outcome.Error? ==>
                    after == ended
                    || (env.integration.Some? && env.integration.value.pro && answer.credential.Unreadable?))
  {
    if id in rows && rows[id].protection == "basic" {
      var ended, r := Ended(rows, id, now), RotationRequest(rows[id], actor, now);
      CreateMeans(ended, env, r, fresh_, answer, now);
      MayForwardIs(ended, env, r, now);
      IndexIs(ended, r.node, r.port);
      CrashIs(ended, env, r, fresh_, answer, now);
      hide Created, MayForward, CreateProblem, IndexTaken, DaemonOpened, Forwarded;
    }
  }

  lemma CrashIs(rows: Rows, env: Env, r: Request, id: nat, answer: Answer, now: int)
    ensures Created(rows, env, r, id, answer, now).1 == Crashed
       <==> CreateProblem(rows, env, r, now).None? && IndexTaken(rows, r.node, r.port)
    ensures Created(rows, env, r, id, answer, now).1.Done? ==> Created(rows, env, r, id, answer, now).1 == Done(id)
  {
    hide CreateProblem, IndexTaken, OpenProblem;
    ProblemHasIntegration(rows, env, r, now);
  }

  datatype Gate = Gate(open: bool, code: string)

  /** The gates in the order in which a request meets them, with what a closed one answers. */
  function Gates(rows: Rows, env: Env, r: Request, now: int): seq<Gate> {
    var i := env.integration;
    [Gate(i.Some? && i.value.enabled, "TUNNEL_INTEGRATION_DISABLED"),
     Gate(env.nodeExists, "NODE_NOT_FOUND"),
     Gate(env.nodeEnabled, "NODE_DISABLED"),
     Gate(env.policy.blocked != Some(P.Integration), "TUNNEL_INTEGRATION_DISABLED"),
     Gate(env.policy.blocked == None, "TUNNEL_NODE_DISABLED"),
     Gate(env.ready, "TUNNEL_PROVIDER_NOT_CONFIGURED"),
     Gate(env.connected, "NODE_OFFLINE"),
     Gate(PortIn(env.policy.ports, r.port), "TUNNEL_PORT_NOT_ALLOWED"),
     Gate(i.Some? && RoomLeft(rows, env, r, now), "TUNNEL_LIMIT_REACHED"),
     Gate(i.Some? && ProtectionReady(i.value, env, r), "INVALID_ARGUMENT"),
     Gate(forall id :: id in rows && Counts(rows[id], now) ==> !(rows[id].node == r.node && rows[id].port == r.port),
          "TUNNEL_PORT_NOT_ALLOWED"),
     Gate(r.ttl.Some? ==> 60 <= r.ttl.value <= env.maxTtl, "INVALID_ARGUMENT")]
  }

  /** The first closed gate decides what a refused request is told, before any row or
      daemon is touched. */
  lemma FirstGateAnswers(rows: Rows, env: Env, r: Request, id: nat, answer: Answer, now: int, k: nat)
    requires k < |Gates(rows, env, r, now)| && !Gates(rows, env, r, now)[k].open
    requires forall j :: 0 <= j < k ==> Gates(rows, env, r, now)[j].open
    ensures Created(rows, env, r, id, answer, now) == (rows, Error(Gates(rows, env, r, now)[k].code))
  {
    hide Created, CreateProblem, Gates;
    FirstClosed(rows, env, r, now, k);
    ProblemStops(rows, env, r, id, answer, now);
  }

  lemma FirstClosed(rows: Rows, env: Env, r: Request, now: int, k: nat)
    requires k < |Gates(rows, env, r, now)| && !Gates(rows, env, r, now)[k].open
    requires forall j :: 0 <= j < k ==> Gates(rows, env, r, now)[j].open
    ensures CreateProblem(rows, env, r, now) == Some(Gates(rows, env, r, now)[k].code)
  {
    var gates := Gates(rows, env, r, now);
    PermitsIs(env.policy.ports, r.port);
    PortFreeIs(rows, r.node, r.port, now);
    if env.integration.Some? {
      RoomIs(rows, env, r, now);
    }
    hide LimitProblem, RoomLeft, P.Permits, PortIn, LiveOnPort, Live, Counts;
    assert k > 0 ==> gates[0].open && (k > 1 ==> gates[1].open) && (k > 2 ==> gates[2].open);
    assert k > 3 ==> gates[3].open && (k > 4 ==> gates[4].open) && (k > 5 ==> gates[5].open);
    assert k > 6 ==> gates[6].open && (k > 7 ==> gates[7].open) && (k > 8 ==> gates[8].open);
    assert k > 9 ==> gates[9].open && (k > 10 ==> gates[10].open);
  }

  lemma ProblemStops(rows: Rows, env: Env, r: Request, id: nat, answer: Answer, now: int)
    requires CreateProblem(rows, env, r, now).Some?
    ensures Created(rows, env, r, id, answer, now) == (rows, Error(CreateProblem(rows, env, r, now).value))
  {
  }

  lemma ProblemHasIntegration(rows: Rows, env: Env, r: Request, now: int)
    ensures CreateProblem(rows, env, r, now).None? ==>
              env.integration.Some? && BoundedTtl(r.ttl, env.integration.value.defaultTtl, env.maxTtl).Some?
  {
    hide LimitProblem, P.Permits, LiveOnPort;
  }

  lemma IndexIs(rows: Rows, node: nat, port: int)
    ensures IndexTaken(rows, node, port)
       <==> !(forall id :: id in rows && rows[id].node == node && rows[id].port == port ==> rows[id].closedAt.Some?)
  {
    if !(forall id :: id in rows && rows[id].node == node && rows[id].port == port ==> rows[id].closedAt.Some?) {
      var id :| id in rows && rows[id].node == node && rows[id].port == port && rows[id].closedAt.None?;
      assert OnPort(rows[id], node, port);
    }
  }

  /** A tunnel forwarded under the effective policy is on a port from 1024 to 65535 that
      every layer with a list has a readable spec for. */
  lemma ForwardedPortIsAllowed(rows: Rows, env: Env, r: Request, id: nat, answer: Answer, now: int,
                               integration: P.Layer, settings: P.Layer, report: P.Layer, perNode: int)
    requires id !in rows && P.LeastCap(P.Caps(perNode, settings, report)).Some?
    requires env.policy == P.EffectivePolicy(integration, settings, report, perNode)
    requires Created(rows, env, r, id, answer, now).1 == Done(id)
    ensures 1024 <= r.port <= 65535
    ensures P.Allows(integration.ports, r.port) && P.Allows(settings.ports, r.port) && P.Allows(report.ports, r.port)
    ensures integration.enabled && settings.enabled && report.enabled
  {
    CreateMeans(rows, env, r, id, answer, now);
    PermitsIs(env.policy.ports, r.port);
    hide Created, P.Permits, PortIn, P.Allows, RoomLeft;
    P.PolicyPermits(integration, settings, report, perNode, r.port);
    P.BlockedByFirstRefusal(integration, settings, report, perNode);
    hide P.EffectivePolicy;
  }

  /** Event `k` created the row, by a request on a port that its policy permitted. */
  predicate CreatedBy(es: seq<Event>, k: nat, id: nat, port: int) {
    k < |es|
    && match es[k]
       case Create(env, r, i, _, _) => i == id && r.port == port && PortIn(env.policy.ports, port)
       case Rotate(env, _, _, i, _, _) => i == id && PortIn(env.policy.ports, port)
       case _ => false
  }

  lemma NewRowPermitted(w: World, e: Event, id: nat, b: Bounds)
    requires Legal(w, e, b) && id !in w.rows && id in Step(w, e).rows
    ensures CreatedBy([e], 0, id, Step(w, e).rows[id].port)
  {
    match e
    case Create(env, r, i, answer, now) =>
      PermittedRow(w.rows, env, r, i, answer, now);
    case Rotate(env, actor, i, fresh_, answer, now) =>
      if i in w.rows {
        PermittedRow(Ended(w.rows, i, now), env, RotationRequest(w.rows[i], actor, now), fresh_, answer, now);
      }
    case _ =>
  }

  lemma PermittedRow(rows: Rows, env: Env, r: Request, id: nat, answer: Answer, now: int)
    ensures var after := Created(rows, env, r, id, answer, now).0;
            after != rows ==>
              after == rows[id := after[id]] && after[id].port == r.port && PortIn(env.policy.ports, r.port)
  {
    MayForwardIs(rows, env, r, now);
    hide CreateProblem, IndexTaken, RoomLeft, PortIn, ProtectionReady;
    ProblemHasIntegration(rows, env, r, now);
  }

  /** Over every run, each row was created on a port that the policy of its request
      permitted. */
  lemma {:induction false} EveryPortWasPermitted(es: seq<Event>, w: World, b: Bounds, id: nat) returns (k: nat)
    requires Reaches(es, w, b) && id in w.rows
    ensures CreatedBy(es, k, id, w.rows[id].port)
  {
    var n := |es| - 1;
    var e := es[n];
    var v :| Reaches(es[..n], v, b) && Legal(v, e, b) && w == Step(v, e);
    hide Reaches, PortIn;
    if id in v.rows {
      NeverShortened(v, e, id, b);
      k := EveryPortWasPermitted(es[..n], v, b, id);
      hide Step, Legal;
      assert es[..n][k] == es[k];
    } else {
      NewRowPermitted(v, e, id, b);
      k := n;
    }
  }

  /** Closing succeeds exactly for a known tunnel. It is closed then, since now if it was
      not before, and no other has changed. */
  lemma CloseMeans(rows: Rows, id: nat, now: int)
    ensures var (after, outcome) := ClosedBy(rows, id, now);
            && (outcome == Done(id) <==> id in rows)
            && (id !in rows ==> after == rows)
            && (id in rows ==>
                  && after.Keys == rows.Keys && after[id].closedAt.Some?
                  && after[id]
                     == rows[id].(closedAt := if rows[id].closedAt.Some? then rows[id].closedAt else Some(now))
                  && forall other :: other in rows && other != id ==> after[other] == rows[other])
  {
  }

  /** Extending succeeds exactly for a live tunnel below the ceiling. The deadline then
      moves by the default lifetime, but not beyond the ceiling; nothing else changes. */
  lemma ExtendMeans(rows: Rows, integration: Option<Integration>, maxTtl: int, id: nat, now: int)
    ensures var (after, outcome) := Extended(rows, integration, maxTtl, id, now);
            && (outcome == Done(id) <==>
                  integration.Some? && integration.value.enabled && id in rows && Counts(rows[id], now)
                  && integration.value.defaultTtl > 0 && rows[id].expiresAt < now + maxTtl)
            && (if outcome != Done(id) then after == rows
                else
                  var wanted := rows[id].expiresAt + integration.value.defaultTtl;
                  after == rows[id := rows[id].(expiresAt := if wanted <= now + maxTtl then wanted else now + maxTtl)])
  {
  }

  /** A node's tunnels are closed exactly where they were live, and all others stay. */
  lemma ClosedForNodeMeans(rows: Rows, node: nat, now: int)
    ensures var after := ClosedForNode(rows, node, now);
            && after.Keys == rows.Keys
            && forall id :: id in rows ==>
                 after[id] == if rows[id].node == node && Counts(rows[id], now) then rows[id].(closedAt := Some(now))
                              else rows[id]
  {
  }

  /** A report changes only the tunnel it names, and that only if it is of the reporting
      node and not closed: running brings its URL and counts a change of it, failed its
      error, closed ends it. */
  lemma ReportMeans(rows: Rows, node: nat, m: Report, now: int)
    ensures var after := Reported(rows, node, m, now);
            && after.Keys == rows.Keys
            && (forall id :: id in rows && m.id != Some(id) ==> after[id] == rows[id])
            && (m.id.Some? && m.id.value in rows ==>
                  var t, u := rows[m.id.value], after[m.id.value];
                  var heard := t.node == node && t.closedAt == None;
                  && (!heard || m.state !in {"running", "reconnecting", "failed", "closed"} ==> u == t)
                  && (heard && m.state == "running" ==>
                        && u.errorCode == None
                        && u.url == (if m.url.Some? then m.url else t.url)
                        && u.urlChanges == t.urlChanges + (if m.url.Some? && m.url != t.url then 1 else 0)
                        && u.upstream == (if m.upstream.Some? then m.upstream else t.upstream)
                        && u == t.(url := u.url, urlChanges := u.urlChanges, upstream := u.upstream, errorCode := None))
                  && (heard && m.state == "reconnecting" ==> u == t.(errorCode := None))
                  && (heard && m.state == "failed" ==>
                        u == t.(errorCode := if m.code.Some? then m.code else Some("TUNNEL_PROVIDER_UNAVAILABLE")))
                  && (heard && m.state == "closed" ==> u == t.(closedAt := Some(now))))
  {
  }

  // ------------------------------------------------------------ the three failures happen

  /** A deployment with nothing in the way of a request. */
  function SampleEnv(pro: bool, maxTtl: int): Env {
    Env(Some(Integration(true, 5, 3600, "basic", pro)), true, true,
        P.Policy(None, [P.Range(P.FLOOR, P.CEILING)], 3), true, true, 5, maxTtl, true)
  }

  function SampleRequest(ttl: int): Request {
    Request(7, 1, 5173, "basic", Some(0), Some(ttl), true, false)
  }

  const SAMPLE_BOUNDS := Bounds(5, map[1 := 3], 5, 86400)

  /** Such a request is accepted whenever no tunnel is live. */
  lemma SampleAccepted(rows: Rows, pro: bool, maxTtl: int, ttl: int, now: int)
    requires forall id :: id in rows ==> !Live(rows[id], now)
    requires 60 <= ttl <= maxTtl
    ensures CreateProblem(rows, SampleEnv(pro, maxTtl), SampleRequest(ttl), now).None?
  {
    var env, r := SampleEnv(pro, maxTtl), SampleRequest(ttl);
    assert LiveSet(rows, now) == {} && LiveOn(rows, r.node, now) == {} && LiveOf(rows, r.actor, now) == {};
    assert P.Contains(env.policy.ports[0], r.port);
  }

  /** Opening a tunnel in an empty deployment, as a run of one step. */
  lemma SampleRun(ttl: int) returns (e: Event, w: World)
    requires 60 <= ttl <= 86400
    ensures e == Create(SampleEnv(false, 86400), SampleRequest(ttl), 0,
                        Answer(NoCredential, Opened(Some("https://a"), false, None)), 0)
    ensures w == World(map[0 := Tunnel(1, 5173, "basic", 7, ttl, None, Some("https://a"), 0, None, None)], 0)
    ensures Reaches([e], w, SAMPLE_BOUNDS)
  {
    e := Create(SampleEnv(false, 86400), SampleRequest(ttl), 0,
                Answer(NoCredential, Opened(Some("https://a"), false, None)), 0);
    var v := World(map[], 0);
    SampleAccepted(v.rows, false, 86400, ttl, 0);
    w := Step(v, e);
    OneStepRun(v, e, SAMPLE_BOUNDS);
    hide CreateProblem, P.Permits, LimitProblem, Reaches;
    assert w.rows == map[0 := w.rows[0]];
  }

  lemma OneStepRun(v: World, e: Event, b: Bounds)
    requires v.rows == map[] && Legal(v, e, b)
    ensures Reaches([e], Step(v, e), b)
  {
    hide Legal, Step;
    var es := [e];
    assert es[..|es| - 1] == [] && es[|es| - 1] == e;
    assert Reaches(es[..|es| - 1], v, b) && Legal(v, es[|es| - 1], b) && Step(v, e) == Step(v, es[|es| - 1]);
  }

  /** A port whose tunnel expired a second ago cannot be forwarded again. */
  lemma ExpiredPortCrashes() returns (es: seq<Event>, w: World, answer: Answer)
    ensures Reaches(es, w, SAMPLE_BOUNDS)
    ensures CreateProblem(w.rows, SampleEnv(false, 86400), SampleRequest(60), 61).None?
    ensures Created(w.rows, SampleEnv(false, 86400), SampleRequest(60), 1, answer, 61).1 == Crashed
  {
    var e;
    e, w := SampleRun(60);
    es, answer := [e], Answer(NoCredential, Opened(Some("https://b"), false, None));
    SampleAccepted(w.rows, false, 86400, 60, 61);
    hide Reaches, CreateProblem;
    assert OnPort(w.rows[0], 1, 5173);
    CrashesIffExpiredIsUnclosed(w.rows, SampleEnv(false, 86400), SampleRequest(60), 1, answer, 61);
  }

  /** On the paid tier, a credential that cannot be read leaves a live tunnel that
      has no URL, behind an error. */
  lemma UnreadableCredentialLeavesARow() returns (answer: Answer)
    ensures var (after, outcome) := Created(map[], SampleEnv(true, 86400), SampleRequest(60), 0, answer, 0);
            outcome == Error("TUNNEL_PROVIDER_UNAUTHORIZED") && 0 in after && Live(after[0], 0) && after[0].url.None?
  {
    answer := Answer(Unreadable("TUNNEL_PROVIDER_UNAUTHORIZED"), Opened(Some("https://a"), true, None));
    SampleAccepted(map[], true, 86400, 60, 0);
    hide CreateProblem;
  }

  /** After the ceiling went down, rotating a password ends the tunnel. */
  lemma RotationLosesTheTunnel() returns (es: seq<Event>, w: World, answer: Answer)
    ensures Reaches(es, w, SAMPLE_BOUNDS) && 0 in w.rows && Live(w.rows[0], 0)
    ensures EnvWithin(SampleEnv(false, 3600), 1, SAMPLE_BOUNDS)
    ensures var (after, outcome) := Rotated(w.rows, SampleEnv(false, 3600), 7, 0, 1, answer, 0);
            outcome == Error("INVALID_ARGUMENT") && after.Keys == {0} && !Live(after[0], 0)
  {
    var e;
    e, w := SampleRun(7200);
    es, answer := [e], Answer(NoCredential, Opened(Some("https://b"), false, None));
    SampleAccepted(Ended(w.rows, 0, 0), false, 7200, 7200, 0);
    hide Reaches, CreateProblem;
    assert RotationRequest(w.rows[0], 7, 0) == SampleRequest(7200);
    assert SampleEnv(false, 3600).(maxTtl := 7200) == SampleEnv(false, 7200);
    RotationTtlRefusedIff(w.rows, SampleEnv(false, 3600), 7, 0, 1, answer, 0);
  }

  // ------------------------------------------------------------ the service

  class TunnelService {
    var rows: Rows

    constructor ()
      ensures rows == map[]
    {
      rows := map[];
    }

    method Create(env: Env, r: Request, id: nat, answer: Answer, now: int) returns (outcome: Outcome)
      requires id !in rows
      modifies this
      ensures (rows, outcome) == Created(old(rows), env, r, id, answer, now)
    {
      hide LimitProblem, P.Permits, LiveOnPort, IndexTaken, Protection;
      var problem := CreateProblem(rows, env, r, now);
      if problem.Some? {
        return Error(problem.value);
      }
      var i := env.integration.value;
      if IndexTaken(rows, r.node, r.port) {
        return Crashed;
      }
      ghost var before := rows;
      var ttl := BoundedTtl(r.ttl, i.defaultTtl, env.maxTtl).value;
      rows := rows[id := Tunnel(r.node, r.port, Protection(i, r), r.actor, now + ttl, None, None, 0, None, None)];
      if i.pro && answer.credential.Unreadable? {
        return Error(answer.credential.code);
      }
      var refusal := OpenProblem(i.pro, answer);
      if refusal.Some? {
        rows := rows - {id};
        assert rows == before;
        return Error(refusal.value);
      }
      rows := rows[id := rows[id].(url := answer.reply.url)];
      rows := rows[id := rows[id].(upstream := answer.reply.upstream)];
      assert rows == before[id := rows[id]];
      outcome := Done(id);
    }

    /** `_end`. */
    method End(id: nat, now: int)
      requires id in rows
      modifies this
      ensures rows == Ended(old(rows), id, now)
    {
      rows := rows[id := rows[id].(closedAt := Some(now))];
    }

    method Close(id: nat, now: int) returns (outcome: Outcome)
      modifies this
      ensures (rows, outcome) == ClosedBy(old(rows), id, now)
    {
      if id !in rows {
        return Error("NOT_FOUND");
      }
      if rows[id].closedAt.None? {
        End(id, now);
      }
      outcome := Done(id);
    }

    method Extend(integration: Option<Integration>, maxTtl: int, connected: bool, id: nat, now: int)
      returns (outcome: Outcome)
      modifies this
      ensures (rows, outcome) == Extended(old(rows), integration, maxTtl, id, now)
    {
      if integration.None? || !integration.value.enabled {
        return Error("TUNNEL_INTEGRATION_DISABLED");
      }
      if id !in rows {
        return Error("NOT_FOUND");
      }
      if DeriveState(rows[id], connected, now) in {Closed, Expired} {
        return Error("TUNNEL_LIMIT_REACHED");
      }
      var ceiling := now + maxTtl;
      var extended := rows[id].expiresAt + integration.value.defaultTtl;
      if extended > ceiling {
        extended := ceiling;
      }
      if extended <= rows[id].expiresAt {
        return Error("TUNNEL_LIMIT_REACHED");
      }
      rows := rows[id := rows[id].(expiresAt := extended)];
      outcome := Done(id);
    }

    method RotatePassword(env: Env, actor: nat, id: nat, fresh_: nat, answer: Answer, now: int)
      returns (outcome: Outcome)
      requires fresh_ !in rows
      modifies this
      ensures (rows, outcome) == Rotated(old(rows), env, actor, id, fresh_, answer, now)
    {
      hide Created;
      if id !in rows {
        return Error("NOT_FOUND");
      }
      if rows[id].protection != "basic" {
        return Error("INVALID_ARGUMENT");
      }
      var before, request := rows, RotationRequest(rows[id], actor, now);
      End(id, now);
      outcome := Create(env, request, fresh_, answer, now);
      if outcome == Crashed {
        rows := before;
      }
    }

    method CloseForNode(node: nat, now: int) returns (count: nat)
      modifies this
      ensures rows == ClosedForNode(old(rows), node, now) && count == |LiveOn(old(rows), node, now)|
    {
      var left := LiveOn(rows, node, now);
      ghost var all := left;
      count := |left|;
      while left != {}
        invariant left <= all == LiveOn(old(rows), node, now)
        invariant rows.Keys == old(rows).Keys
        invariant forall id :: id in rows ==>
                    rows[id] == if id in all - left then old(rows)[id].(closedAt := Some(now)) else old(rows)[id]
      {
        var id :| id in left;
        End(id, now);
        left := left - {id};
      }
    }

    method ApplyStatus(node: nat, m: Report, now: int)
      modifies this
      ensures rows == Reported(old(rows), node, m, now)
    {
      if m.id.None? || m.id.value !in rows {
        return;
      }
      var id := m.id.value;
      ghost var before := rows;
      if rows[id].node != node || rows[id].closedAt.Some? {
        return;
      }
      if m.state == "running" {
        if m.url.Some? && m.url != rows[id].url {
          rows := rows[id := rows[id].(url := m.url, urlChanges := rows[id].urlChanges + 1)];
        }
        if m.upstream.Some? {
          rows := rows[id := rows[id].(upstream := m.upstream)];
        }
        rows := rows[id := rows[id].(errorCode := None)];
        assert rows == before[id := rows[id]];
      } else if m.state == "reconnecting" {
        rows := rows[id := rows[id].(errorCode := None)];
      } else if m.state == "failed" {
        var code := if m.code.Some? then m.code.value else "TUNNEL_PROVIDER_UNAVAILABLE";
        rows := rows[id := rows[id].(errorCode := Some(code))];
      } else if m.state == "closed" {
        End(id, now);
      }
    }
  }
}
