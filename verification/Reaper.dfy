/** The idle reaper of system terminals (`ShellReaper`): one timer per shell, a
    bounded number of attempts, and a look at the watchers before each. */
module Reaper {
  import opened Nums

  const MAX_ATTEMPTS := 5

  /** A task from its start until its done-callback has run. */
  datatype Phase = Sleeping | Finished | Collected

  datatype Timer = Timer(session: nat, attempt: nat, cancelled: bool, phase: Phase)

  /** `armed` is `_tasks`; `reaped` are the shells that were terminated. */
  datatype World = World(armed: map<nat, nat>, timers: map<nat, Timer>, reaped: set<nat>)

  /** What an attempt meets: a database session that ended, a shell that could be
      terminated, or an ApiError. */
  datatype Attempt = AlreadyEnded | Stopped | Refused

  datatype Event =
    | Schedule(session: nat, task: nat)
    | Wake(task: nat, watched: bool, attempt: Attempt)
    | Callback(task: nat)
    | CancelAll

  predicate Legal(w: World, e: Event) {
    match e
    case Schedule(s, t) => t !in w.timers
    case Wake(t, _, _) => t in w.timers && w.timers[t].phase == Sleeping
    case Callback(t) => t in w.timers && w.timers[t].phase == Finished
    case CancelAll => forall s :: s in w.armed ==> w.armed[s] in w.timers
  }

  /** One round of the loop in `_reap`. */
  function Woken(t: Timer, watched: bool, attempt: Attempt): Timer {
    if t.cancelled || watched || attempt != Refused || t.attempt == MAX_ATTEMPTS then t.(phase := Finished)
    else t.(attempt := t.attempt + 1)
  }

  function Step(w: World, e: Event): World
    requires Legal(w, e)
  {
    match e
    case Schedule(s, t) =>
      if s in w.armed then w
      else w.(armed := w.armed[s := t], timers := w.timers[t := Timer(s, 1, false, Sleeping)])
    case Wake(t, watched, attempt) =>
      var timer := w.timers[t];
      World(w.armed, w.timers[t := Woken(timer, watched, attempt)],
            if !timer.cancelled && !watched && attempt == Stopped then w.reaped + {timer.session} else w.reaped)
    case Callback(t) =>
      World(w.armed - {w.timers[t].session}, w.timers[t := w.timers[t].(phase := Collected)], w.reaped)
    case CancelAll =>
      World(map[],
            map t | t in w.timers :: if t in w.armed.Values then w.timers[t].(cancelled := true) else w.timers[t],
            w.reaped)
  }

  const START := World(map[], map[], {})

  /** Cancelled but not collected yet: its callback still comes. */
  predicate Stale(w: World, t: nat) {
    t in w.timers && w.timers[t].cancelled && w.timers[t].phase != Collected
  }

  /** Nothing is scheduled for a shell whose cancelled timer is still to be collected. */
  predicate Settled(w: World, e: Event) {
    e.Schedule? ==> forall t :: t in w.timers && Stale(w, t) ==> w.timers[t].session != e.session
  }

  ghost predicate Reaches(es: seq<Event>, w: World) {
    if es == [] then w == START
    else
      var e := es[|es| - 1];
      exists v :: Reaches(es[..|es| - 1], v) && Legal(v, e) && Settled(v, e) && w == Step(v, e)
  }

  // ------------------------------------------------------------ one timer per shell

  predicate Active(w: World, t: nat) {
    t in w.timers && !w.timers[t].cancelled && w.timers[t].phase != Collected
  }

  /** Every active timer is the armed one of its shell, and nothing else is armed. */
  predicate ActiveIsArmed(w: World) {
    && (forall s :: s in w.armed ==> Active(w, w.armed[s]) && w.timers[w.armed[s]].session == s)
    && (forall t :: t in w.timers && Active(w, t) ==>
          w.timers[t].session in w.armed && w.armed[w.timers[t].session] == t)
  }

  /** A shell with a stale timer has only one, and is not armed. */
  predicate OneStale(w: World) {
    && (forall t :: t in w.timers && Stale(w, t) ==> w.timers[t].session !in w.armed)
    && (forall t, u :: t in w.timers && u in w.timers && t != u && Stale(w, t) && Stale(w, u) ==>
          w.timers[t].session != w.timers[u].session)
  }

  predicate Inv(w: World) {
    && ActiveIsArmed(w)
    && OneStale(w)
    && forall t :: t in w.timers ==> 1 <= w.timers[t].attempt <= MAX_ATTEMPTS
  }

  lemma ArmedKeeps(w: World, e: Event)
    requires ActiveIsArmed(w) && OneStale(w) && Legal(w, e) && Settled(w, e)
    ensures ActiveIsArmed(Step(w, e))
  {
    if e.CancelAll? {
      AllAreCancelled(w);
    }
  }

  lemma AllAreCancelled(w: World)
    requires ActiveIsArmed(w)
    ensures forall t :: t in w.timers && Active(w, t) ==> t in w.armed.Values
  {
    forall t | t in w.timers && Active(w, t)
      ensures t in w.armed.Values
    {
      assert w.armed[w.timers[t].session] == t;
    }
  }

  lemma StaleKeeps(w: World, e: Event)
    requires ActiveIsArmed(w) && OneStale(w) && Legal(w, e) && Settled(w, e)
    ensures OneStale(Step(w, e))
  {
    var v := Step(w, e);
    match e
    case Schedule(s, t) =>
      assert forall u :: Stale(v, u) ==> Stale(w, u) && v.timers[u] == w.timers[u];
    case Wake(t, _, _) =>
      SameSessions(w, v);
    case Callback(t) =>
      SameSessions(w, v);
    case CancelAll =>
      CancelledAreStale(w);
  }

  /** A wake or a callback makes no timer stale. */
  lemma SameSessions(w: World, v: World)
    requires OneStale(w) && v.timers.Keys == w.timers.Keys && v.armed.Keys <= w.armed.Keys
    requires forall t :: t in w.timers ==>
               v.timers[t].session == w.timers[t].session && (Stale(v, t) ==> Stale(w, t))
    ensures OneStale(v)
  {
    hide Stale;
  }

  lemma CancelledAreStale(w: World)
    requires ActiveIsArmed(w) && OneStale(w) && Legal(w, CancelAll)
    ensures OneStale(Step(w, CancelAll))
  {
    var v := Step(w, CancelAll);
    forall t | Stale(v, t)
      ensures Stale(w, t) || (w.timers[t].session in w.armed && w.armed[w.timers[t].session] == t)
    {
    }
    forall t, u | t in v.timers && u in v.timers && t != u && Stale(v, t) && Stale(v, u)
      ensures v.timers[t].session != v.timers[u].session
    {
      assert v.timers[t].session == w.timers[t].session && v.timers[u].session == w.timers[u].session;
    }
  }

  lemma StepKeeps(w: World, e: Event)
    requires Inv(w) && Legal(w, e) && Settled(w, e)
    ensures Inv(Step(w, e))
  {
    ArmedKeeps(w, e);
    StaleKeeps(w, e);
    hide ActiveIsArmed, OneStale;
  }

  /** Over every settled run a shell has at most one timer. */
  lemma {:induction false} OneTimerPerShell(es: seq<Event>, w: World)
    requires Reaches(es, w)
    ensures Inv(w)
    ensures forall t, u :: t in w.timers && u in w.timers && t != u && Active(w, t) && Active(w, u) ==>
              w.timers[t].session != w.timers[u].session
  {
    if es != [] {
      var e := es[|es| - 1];
      var v :| Reaches(es[..|es| - 1], v) && Legal(v, e) && Settled(v, e) && w == Step(v, e);
      OneTimerPerShell(es[..|es| - 1], v);
      StepKeeps(v, e);
    }
  }

  /** A callback forgets a timer that is not its own exactly when its shell has been
      armed again. */
  lemma CallbackForgetsIff(w: World, t: nat)
    requires Legal(w, Callback(t))
    ensures (exists s :: s in w.armed && w.armed[s] != t && s !in Step(w, Callback(t)).armed)
       <==> w.timers[t].session in w.armed && w.armed[w.timers[t].session] != t
  {
  }

  /** Without settling first, arming after `cancel_all` can end with two timers for
      one shell: the cancelled one's callback removes the new one's entry. */
  lemma UnsettledRunHasTwoTimers()
    ensures var a := Step(START, Schedule(7, 1));
            var b := Step(a, CancelAll);
            var c := Step(b, Schedule(7, 2));
            Legal(c, Wake(1, false, Refused))
            && var d := Step(c, Wake(1, false, Refused));
               Legal(d, Callback(1))
               && var e := Step(d, Callback(1));
                  Legal(e, Schedule(7, 3))
                  && var f := Step(e, Schedule(7, 3));
                     Active(f, 2) && Active(f, 3) && f.timers[2].session == f.timers[3].session
  {
    var a := Step(START, Schedule(7, 1));
    assert a.armed == map[7 := 1];
    var b := Step(a, CancelAll);
    assert 1 in a.armed.Values by {
      assert a.armed[7] == 1;
    }
    assert b.timers == map[1 := Timer(7, 1, true, Sleeping)] && b.armed == map[];
    var c := Step(b, Schedule(7, 2));
    var d := Step(c, Wake(1, false, Refused));
    var e := Step(d, Callback(1));
    assert 7 !in e.armed;
  }

  // ------------------------------------------------------------ settling is exactly what is needed

  predicate TwoTimers(w: World) {
    exists t, u :: t in w.timers && u in w.timers && t != u && Active(w, t) && Active(w, u)
                   && w.timers[t].session == w.timers[u].session
  }

  /** The settled run `es` leads from `w` to `v`. */
  ghost predicate Continues(w: World, es: seq<Event>, v: World)
    decreases |es|
  {
    if es == [] then v == w
    else Legal(w, es[0]) && Settled(w, es[0]) && Continues(Step(w, es[0]), es[1..], v)
  }

  lemma {:induction false} ContinuingKeeps(w: World, es: seq<Event>, v: World)
    requires Inv(w) && Continues(w, es, v)
    ensures Inv(v) && !TwoTimers(v)
    decreases |es|
  {
    if es == [] {
    } else {
      StepKeeps(w, es[0]);
      ContinuingKeeps(Step(w, es[0]), es[1..], v);
    }
  }

  lemma ContinueOne(w: World, e: Event, es: seq<Event>, v: World)
    requires Legal(w, e) && Settled(w, e) && Continues(Step(w, e), es, v)
    ensures Continues(w, [e] + es, v)
  {
    assert ([e] + es)[1..] == es;
  }

  lemma {:induction false} FreshTask(tasks: set<nat>) returns (t: nat)
    ensures forall u :: u in tasks ==> u < t
    decreases |tasks|
  {
    if tasks == {} {
      t := 0;
    } else {
      var u :| u in tasks;
      t := FreshTask(tasks - {u});
      t := if u < t then t else u + 1;
      forall x | x in tasks
        ensures x < t
      {
        assert x == u || x in tasks - {u};
      }
    }
  }

  /** However the run goes on from here, settled, no shell has two timers. */
  ghost predicate StaysSingle(w: World) {
    forall es, v :: Continues(w, es, v) ==> !TwoTimers(v)
  }

  /** In any world of a settled run, scheduling is safe exactly when it is settled: if
      it is not, the run can go on, settled from there, to two timers for the shell. */
  lemma SettlingIsExact(w: World, s: nat, t: nat)
    requires Inv(w) && Legal(w, Schedule(s, t))
    ensures Settled(w, Schedule(s, t))
       <==> StaysSingle(Step(w, Schedule(s, t)))
  {
    var next := Step(w, Schedule(s, t));
    if Settled(w, Schedule(s, t)) {
      StepKeeps(w, Schedule(s, t));
      forall es, v | Continues(next, es, v)
        ensures !TwoTimers(v)
      {
        ContinuingKeeps(next, es, v);
      }
    } else {
      var u :| u in w.timers && Stale(w, u) && w.timers[u].session == s;
      var es, v := TwoTimersFollow(w, s, t, u);
      hide Continues, TwoTimers;
      assert Continues(next, es, v);
    }
  }

  lemma TwoTimersFollow(w: World, s: nat, t: nat, u: nat) returns (es: seq<Event>, v: World)
    requires Inv(w) && Legal(w, Schedule(s, t)) && u in w.timers && Stale(w, u) && w.timers[u].session == s
    ensures Continues(Step(w, Schedule(s, t)), es, v) && TwoTimers(v)
  {
    var a := Step(w, Schedule(s, t));
    var wake := Wake(u, false, Refused);
    var b := if a.timers[u].phase == Sleeping then Step(a, wake) else a;
    var c := Step(b, Callback(u));
    var n := FreshTask(c.timers.Keys);
    v := Step(c, Schedule(s, n));
    assert Active(v, t) && Active(v, n);
    assert Continues(v, [], v);
    ContinueOne(c, Schedule(s, n), [], v);
    es := [Schedule(s, n)] + [];
    ContinueOne(b, Callback(u), es, v);
    es := [Callback(u)] + es;
    if a.timers[u].phase == Sleeping {
      ContinueOne(a, wake, es, v);
      es := [wake] + es;
    }
  }

  // ------------------------------------------------------------ what a timer does

  /** A timer ends within five attempts: each either ends it or uses one up. */
  lemma WakingEndsOrCounts(w: World, t: nat, watched: bool, attempt: Attempt)
    requires Inv(w) && Legal(w, Wake(t, watched, attempt))
    ensures var timer, now := w.timers[t], Step(w, Wake(t, watched, attempt)).timers[t];
            now.phase == Finished || (now.attempt == timer.attempt + 1 <= MAX_ATTEMPTS && now.phase == Sleeping)
  {
  }

  /** The timer was armed for the shell at step `j`, and `cancel_all` has not run since. */
  predicate ArmedSince(es: seq<Event>, s: nat, t: nat, j: nat) {
    j < |es| && es[j] == Schedule(s, t) && forall m :: j < m < |es| ==> !es[m].CancelAll?
  }

  lemma {:induction false} SleepingWasArmed(es: seq<Event>, w: World, t: nat) returns (j: nat)
    requires Reaches(es, w) && t in w.timers && !w.timers[t].cancelled && w.timers[t].phase == Sleeping
    ensures ArmedSince(es, w.timers[t].session, t, j)
  {
    var n := |es| - 1;
    var e := es[n];
    var v :| Reaches(es[..n], v) && Legal(v, e) && Settled(v, e) && w == Step(v, e);
    OneTimerPerShell(es[..n], v);
    hide Reaches;
    SleptBefore(v, e, t);
    if t !in v.timers {
      j := n;
    } else {
      j := SleepingWasArmed(es[..n], v, t);
      StillArmed(es, w.timers[t].session, t, j);
    }
  }

  lemma SleptBefore(v: World, e: Event, t: nat)
    requires Inv(v) && Legal(v, e) && t in Step(v, e).timers
    requires !Step(v, e).timers[t].cancelled && Step(v, e).timers[t].phase == Sleeping
    ensures if t in v.timers then
              !v.timers[t].cancelled && v.timers[t].phase == Sleeping && !e.CancelAll?
              && v.timers[t].session == Step(v, e).timers[t].session
            else e == Schedule(Step(v, e).timers[t].session, t)
  {
    hide OneStale;
    if e.CancelAll? {
      AllAreCancelled(v);
    }
  }

  lemma StillArmed(es: seq<Event>, s: nat, t: nat, j: nat)
    requires es != [] && ArmedSince(es[..|es| - 1], s, t, j) && !es[|es| - 1].CancelAll?
    ensures ArmedSince(es, s, t, j)
  {
    assert forall m :: 0 <= m < |es| - 1 ==> es[..|es| - 1][m] == es[m];
  }

  /** A shell is terminated only by a timer that was armed for it, was not dropped by a
      `cancel_all` since, and found nobody watching when it woke. */
  lemma {:induction false} OnlyUnwatchedAreReaped(es: seq<Event>, w: World, s: nat) returns (j: nat, k: nat)
    requires Reaches(es, w) && s in w.reaped
    ensures k < |es| && es[k].Wake? && !es[k].watched && es[k].attempt == Stopped
    ensures ArmedSince(es[..k], s, es[k].task, j)
  {
    var n := |es| - 1;
    var e := es[n];
    var v :| Reaches(es[..n], v) && Legal(v, e) && Settled(v, e) && w == Step(v, e);
    if s in v.reaped {
      j, k := OnlyUnwatchedAreReaped(es[..n], v, s);
      assert es[..n][..k] == es[..k];
    } else {
      k := n;
      j := SleepingWasArmed(es[..n], v, e.task);
    }
  }

  // ------------------------------------------------------------ armed and reaped, by the events

  /** The world after a settled run; None if the events cannot happen in this order. */
  function Run(es: seq<Event>): Option<World> {
    if es == [] then Some(START)
    else
      var v, e := Run(es[..|es| - 1]), es[|es| - 1];
      if v.None? || !Legal(v.value, e) || !Settled(v.value, e) then None else Some(Step(v.value, e))
  }

  lemma {:induction false} RunReaches(es: seq<Event>, w: World)
    ensures Reaches(es, w) <==> Run(es) == Some(w)
  {
    if es != [] {
      var front := es[..|es| - 1];
      forall v
        ensures Reaches(front, v) <==> Run(front) == Some(v)
      {
        RunReaches(front, v);
      }
    }
  }

  /** The timer of a shell as it should be: the first that was scheduled with none there,
      until its own callback or a `cancel_all`. */
  function Holder(es: seq<Event>, s: nat): Option<nat> {
    if es == [] then None
    else
      var before := Holder(es[..|es| - 1], s);
      match es[|es| - 1]
      case Schedule(other, t) => if other == s && before.None? then Some(t) else before
      case Callback(t) => if before == Some(t) then None else before
      case CancelAll => None
      case _ => before
  }

  /** In a settled run `_tasks` holds exactly those timers, although a callback knows only
      its shell. */
  lemma {:induction false} ArmedIsHolder(es: seq<Event>, w: World, s: nat)
    requires Reaches(es, w)
    ensures Holder(es, s) == if s in w.armed then Some(w.armed[s]) else None
  {
    if es != [] {
      var e := es[|es| - 1];
      var v :| Reaches(es[..|es| - 1], v) && Legal(v, e) && Settled(v, e) && w == Step(v, e);
      OneTimerPerShell(es[..|es| - 1], v);
      ArmedIsHolder(es[..|es| - 1], v, s);
      hide Reaches;
      if e.Callback? && s in v.armed {
        OwnCallback(v, e.task, s);
      }
    }
  }

  lemma OwnCallback(v: World, t: nat, s: nat)
    requires Inv(v) && Legal(v, Callback(t)) && s in v.armed
    ensures v.timers[t].session == s <==> v.armed[s] == t
  {
    assert Active(v, t) || Stale(v, t);
  }

  predicate ReapsAt(es: seq<Event>, k: nat, s: nat) {
    k < |es| && es[k].Wake? && !es[k].watched && es[k].attempt == Stopped && Holder(es[..k], s) == Some(es[k].task)
  }

  lemma ReapsEarlier(es: seq<Event>, k: nat, s: nat)
    requires es != [] && k < |es| - 1
    ensures ReapsAt(es, k, s) == ReapsAt(es[..|es| - 1], k, s)
  {
    assert es[..|es| - 1][..k] == es[..k];
  }

  /** The main result: a shell was terminated exactly if its timer woke, nobody was
      watching, and the node stopped it. */
  lemma {:induction false} ReapedIff(es: seq<Event>, w: World, s: nat)
    requires Reaches(es, w)
    ensures s in w.reaped <==> exists k :: ReapsAt(es, k, s)
  {
    if es != [] {
      var n := |es| - 1;
      var e := es[n];
      var v :| Reaches(es[..n], v) && Legal(v, e) && Settled(v, e) && w == Step(v, e);
      OneTimerPerShell(es[..n], v);
      ArmedIsHolder(es[..n], v, s);
      ReapedIff(es[..n], v, s);
      hide Reaches, Holder;
      forall k: nat | k < n
        ensures ReapsAt(es, k, s) == ReapsAt(es[..n], k, s)
      {
        ReapsEarlier(es, k, s);
      }
      ReapedNow(v, e, s);
      assert ReapsAt(es, n, s)
        <==> e.Wake? && !e.watched && e.attempt == Stopped && s in v.armed && v.armed[s] == e.task;
      if exists k :: ReapsAt(es, k, s) {
        var k :| ReapsAt(es, k, s);
        assert k == n || ReapsAt(es[..n], k, s);
      }
      if exists k :: ReapsAt(es[..n], k, s) {
        var k :| ReapsAt(es[..n], k, s);
        assert ReapsAt(es, k, s);
      }
    }
  }

  lemma ReapedNow(v: World, e: Event, s: nat)
    requires Inv(v) && Legal(v, e)
    ensures s in Step(v, e).reaped
       <==> s in v.reaped
            || (e.Wake? && !e.watched && e.attempt == Stopped && s in v.armed && v.armed[s] == e.task)
  {
  }

  /** A timer after these rounds, if nothing has ended it before. */
  function AfterRounds(looks: seq<Look>): Timer {
    if looks == [] then Timer(0, 1, false, Sleeping)
    else
      var timer, look := AfterRounds(looks[..|looks| - 1]), looks[|looks| - 1];
      if timer.phase == Finished then timer else Woken(timer.(cancelled := look.cancelled), look.watched, look.attempt)
  }

  /** A timer ends in its first round that does not retry, and in the fifth at the latest. */
  lemma {:induction false} TimerEndsIff(looks: seq<Look>)
    ensures AfterRounds(looks).phase == Finished
       <==> |looks| >= MAX_ATTEMPTS || exists i :: 0 <= i < |looks| && !Retries(looks[i])
    ensures AfterRounds(looks).phase != Finished ==> AfterRounds(looks).attempt == |looks| + 1
    ensures AfterRounds(looks).phase != Collected
  {
    if looks != [] {
      var front := looks[..|looks| - 1];
      TimerEndsIff(front);
      assert forall i :: 0 <= i < |front| ==> front[i] == looks[i];
    }
  }

  // ------------------------------------------------------------ the class

  class Task {
    const session: nat
    var cancelled: bool

    constructor (session_: nat)
      ensures session == session_ && !cancelled
    {
      session, cancelled := session_, false;
    }
  }

  /** What a round of `_reap` meets after its sleep. */
  datatype Look = Look(cancelled: bool, watched: bool, attempt: Attempt)

  predicate Retries(l: Look) { !l.cancelled && !l.watched && l.attempt == Refused }

  class ShellReaper {
    var tasks: map<nat, Task>

    constructor ()
      ensures tasks == map[]
    {
      tasks := map[];
    }

    method Schedule(session: nat) returns (task: Task?)
      modifies this
      ensures session in old(tasks) ==> task == null && tasks == old(tasks)
      ensures session !in old(tasks) ==>
                task != null && fresh(task) && task.session == session && !task.cancelled
                && tasks == old(tasks)[session := task]
    {
      if session in tasks {
        return null;
      }
      task := new Task(session);
      tasks := tasks[session := task];
    }

    /** The done-callback: it knows the shell, not which timer of it has ended. */
    method Forget(session: nat)
      modifies this
      ensures tasks == old(tasks) - {session}
    {
      tasks := tasks - {session};
    }

    method CancelAll()
      modifies this, tasks.Values
      ensures tasks == map[]
      ensures forall t :: t in old(tasks.Values) ==> t.cancelled
    {
      var left := tasks.Values;
      ghost var all := left;
      while left != {}
        invariant left <= all && all == old(tasks.Values) == tasks.Values
        invariant forall t :: t in all - left ==> t.cancelled
      {
        var t :| t in left;
        t.cancelled := true;
        left := left - {t};
      }
      tasks := map[];
    }

    /** `_reap`: the shell is terminated in the first round that does not retry, if
        it is terminated at all. */
    method Reap(looks: seq<Look>) returns (stopped: bool, rounds: nat)
      requires |looks| >= MAX_ATTEMPTS
      ensures 1 <= rounds <= MAX_ATTEMPTS
      ensures forall k :: 0 <= k < rounds - 1 ==> Retries(looks[k])
      ensures rounds < MAX_ATTEMPTS ==> !Retries(looks[rounds - 1])
      ensures var last := looks[rounds - 1];
              stopped <==> !last.cancelled && !last.watched && last.attempt == Stopped
    {
      for attempt := 1 to MAX_ATTEMPTS + 1
        invariant forall k :: 0 <= k < attempt - 1 ==> Retries(looks[k])
      {
        var look := looks[attempt - 1];
        if look.cancelled || look.watched || look.attempt == AlreadyEnded {
          return false, attempt;
        }
        if look.attempt == Stopped {
          return true, attempt;
        }
      }
      return false, MAX_ATTEMPTS;
    }
  }
}
