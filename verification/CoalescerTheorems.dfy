/** What the coalescer guarantees over every run: exclusion, no lost request, no deadlock, and an end
    to the work when nobody asks for more. */
module CoalescerTheorems {
  import opened Coalescer

  lemma BootIsInvariant(maxSlots: nat)
    ensures Invariant(BOOT, maxSlots)
  {
  }

  // ---------------------------------------------------------------- at every await point

  /** Pending requests and queued activities go together, and whatever is pending has a live task
      that was never retired. */
  lemma PendingIsServed(steps: seq<Step>, maxSlots: nat, w: World, account: nat)
    requires Reaches(BOOT, maxSlots, steps, w)
    ensures account in w.s.pending <==> account in w.s.pendingActivity
    ensures account in w.s.pending ==>
      account in w.s.running && Serves(w.s, w.s.running[account], account)
  {
    hide Exclusive;
    hide Accounted;
    hide AllKept;
    BootIsInvariant(maxSlots);
    RunKeeps(BOOT, maxSlots, steps, w);
  }

  /** Passes of one account exclude each other from the moment they hold its lock, no more passes
      than slots are in their bodies, and none of those waits for an account lock. */
  lemma PassesExclude(steps: seq<Step>, maxSlots: nat, w: World, t: nat, u: nat)
    requires Reaches(BOOT, maxSlots, steps, w)
    requires Holds(w.s, t) && Holds(w.s, u) && w.s.tasks[t].account == w.s.tasks[u].account
    ensures t == u
    ensures |w.s.slots| <= maxSlots
    ensures forall x :: x in w.s.slots ==> Holds(w.s, x)
  {
    hide Registered;
    hide Accounted;
    hide AllKept;
    BootIsInvariant(maxSlots);
    RunKeeps(BOOT, maxSlots, steps, w);
  }

  ghost predicate Reachable(w: World, maxSlots: nat) {
    exists steps :: Reaches(BOOT, maxSlots, steps, w)
  }

  lemma ReachableIsInvariant(w: World, maxSlots: nat)
    requires Reachable(w, maxSlots)
    ensures Invariant(w, maxSlots)
  {
    hide Invariant;
    var steps :| Reaches(BOOT, maxSlots, steps, w);
    BootIsInvariant(maxSlots);
    RunKeeps(BOOT, maxSlots, steps, w);
  }

  ghost predicate ReportsQueue(s: State, x: nat, a: nat) {
    a in s.pendingActivity && s.pendingActivity[a] == x
  }

  ghost predicate ReportsPass(s: State, x: nat, t: nat) {
    t in s.tasks && s.tasks[t].at.Syncing? && s.tasks[t].at.activity == x
  }

  /** An activity is open exactly when it reports an account's queued requests or a task's pass; and what it reports
      is one thing only. */
  lemma ActivitiesReportWork(w: World, maxSlots: nat, x: nat)
    requires Reachable(w, maxSlots)
    ensures x in w.s.activities <==> (exists a :: ReportsQueue(w.s, x, a)) || (exists t :: ReportsPass(w.s, x, t))
    ensures forall a, b :: ReportsQueue(w.s, x, a) && ReportsQueue(w.s, x, b) ==> a == b
    ensures forall t, u :: ReportsPass(w.s, x, t) && ReportsPass(w.s, x, u) ==> t == u
    ensures forall a, t :: !(ReportsQueue(w.s, x, a) && ReportsPass(w.s, x, t))
  {
    ReachableIsInvariant(w, maxSlots);
    hide Registered;
    hide Exclusive;
    hide AllKept;
    if x in w.s.activities {
      assert Justified(w.s, x, w.work[x], {});
      match w.work[x] {
        case QueuedFor(a) => assert ReportsQueue(w.s, x, a);
        case PassOf(t) => assert ReportsPass(w.s, x, t);
      }
    }
    forall a | ReportsQueue(w.s, x, a) ensures x in w.s.activities && w.work[x] == QueuedFor(a) {
      assert Reports(w.s, w.work, x, QueuedFor(a));
    }
    forall t | ReportsPass(w.s, x, t) ensures x in w.s.activities && w.work[x] == PassOf(t) {
      assert Reports(w.s, w.work, x, PassOf(t));
    }
  }

  /** So when no task is left, nothing is pending, no activity is open and no slot is taken. */
  lemma NoActivityLeaks(w: World, maxSlots: nat)
    requires Reachable(w, maxSlots)
    requires forall t :: t in w.s.tasks ==> w.s.tasks[t].at.Finished?
    ensures w.s.pending == map[] && w.s.activities == {} && w.s.slots == {}
  {
    ReachableIsInvariant(w, maxSlots);
    hide Accounted;
    hide AllKept;
    assert forall a :: a in w.s.pending ==> a in w.s.running && Serves(w.s, w.s.running[a], a);
    assert w.s.pending.Keys == {} && w.s.pendingActivity.Keys == {};
    forall x ensures x !in w.s.activities {
      ActivitiesReportWork(w, maxSlots, x);
    }
    forall x ensures x !in w.s.slots {
    }
  }

  // ---------------------------------------------------------------- no request is lost

  ghost predicate NoCancel(steps: seq<Step>, account: nat) {
    forall i :: 0 <= i < |steps| ==> steps[i] != CancelAccount(account)
  }

  /** Requests for `account` from the `since`-th on were not dropped, and no cancelled task carries one. */
  ghost predicate Safe(w: World, account: nat, since: nat) {
    forall i :: since <= i < |w.tickets| && w.tickets[i].account == account ==>
      && w.tickets[i].fate != Dropped
      && (w.tickets[i].fate.Carried? ==>
            w.tickets[i].fate.task in w.s.tasks && !w.s.tasks[w.tickets[i].fate.task].cancelled)
  }

  lemma OtherCancelKeepsFlags(s: State, account: nat, t: nat)
    requires Registered(s, {}) && t in s.tasks && s.tasks[t].account != account
    ensures Cancel(s, account).tasks[t] == s.tasks[t]
  {
    if account in s.running {
      assert Serves(s, s.running[account], account);
    }
  }

  lemma HeadClears(w: World, t: nat, u: nat)
    requires t in w.s.tasks && !w.s.tasks[t].cancelled && u in w.s.tasks && !w.s.tasks[u].cancelled
    ensures u in Head(w, t).s.tasks && !Head(w, t).s.tasks[u].cancelled
  {
  }

  lemma HeadSafe(w: World, account: nat, since: nat, t: nat)
    requires t in w.s.tasks && !w.s.tasks[t].cancelled && Safe(w, account, since)
    ensures Safe(Head(w, t).(now := w.now + 1), account, since)
  {
    var w' := Head(w, t);
    forall i | since <= i < |w'.tickets| && w'.tickets[i].account == account
      ensures w'.tickets[i].fate != Dropped
      ensures w'.tickets[i].fate.Carried? ==>
                w'.tickets[i].fate.task in w'.s.tasks && !w'.s.tasks[w'.tickets[i].fate.task].cancelled
    {
      if w.tickets[i].fate.Carried? {
        HeadClears(w, t, w.tickets[i].fate.task);
      }
    }
  }

  lemma ServeSafe(w: World, account: nat, since: nat, t: nat)
    requires Inside(w.s, t) && Safe(w, account, since)
    ensures Safe(Serve(w, t), account, since) && !Serve(w, t).s.tasks[t].cancelled
  {
    var w' := Serve(w, t);
    forall i | since <= i < |w'.tickets| && w'.tickets[i].account == account
      ensures w'.tickets[i].fate != Dropped
      ensures w'.tickets[i].fate.Carried? ==>
                w'.tickets[i].fate.task in w'.s.tasks && !w'.s.tasks[w'.tickets[i].fate.task].cancelled
    {
    }
  }

  lemma StepSafe(w: World, maxSlots: nat, step: Step, account: nat, since: nat)
    requires Invariant(w, maxSlots) && Can(w, maxSlots, step) && step != CancelAccount(account)
    requires Safe(w, account, since) && since <= |w.tickets|
    ensures Safe(Apply(w, maxSlots, step), account, since)
    ensures since <= |Apply(w, maxSlots, step).tickets|
  {
    hide Exclusive;
    hide Accounted;
    var w' := Apply(w, maxSlots, step);
    match step
    case Start(t) => HeadSafe(w, account, since, t);
    case Return(t) =>
      ServeSafe(w, account, since, t);
      HeadSafe(Serve(w, t), account, since, t);
    case Swallow(t) =>
      ServeSafe(w, account, since, t);
      HeadSafe(Serve(w, t), account, since, t);
    case Request_(a, r) => AskSafe(w, maxSlots, a, r, account, since);
    case Unwind(t) => UnwindSafe(w, maxSlots, t, account, since);
    case CancelAccount(a) => CancelSafe(w, maxSlots, a, account, since);
    case _ =>
      hide Registered;
      assert forall t :: t in w.s.tasks ==> t in w'.s.tasks && w'.s.tasks[t].cancelled == w.s.tasks[t].cancelled;
  }

  lemma AskSafe(w: World, maxSlots: nat, a: nat, r: Request, account: nat, since: nat)
    requires Registered(w.s, {}) && Safe(w, account, since)
    ensures Safe(Apply(w, maxSlots, Request_(a, r)), account, since)
  {
    NextTaskIsNew(w.s, {});
    var w' := Apply(w, maxSlots, Request_(a, r));
    forall i | since <= i < |w'.tickets| && w'.tickets[i].account == account
      ensures w'.tickets[i].fate != Dropped
      ensures w'.tickets[i].fate.Carried? ==>
                w'.tickets[i].fate.task in w'.s.tasks && !w'.s.tasks[w'.tickets[i].fate.task].cancelled
    {
      if i < |w.tickets| {
        assert w'.tickets[i] == w.tickets[i];
      }
    }
  }

  lemma UnwindSafe(w: World, maxSlots: nat, t: nat, account: nat, since: nat)
    requires Can(w, maxSlots, Unwind(t)) && Safe(w, account, since)
    ensures Safe(Apply(w, maxSlots, Unwind(t)), account, since)
  {
    var w' := Apply(w, maxSlots, Unwind(t));
    forall i | since <= i < |w'.tickets| && w'.tickets[i].account == account
      ensures w'.tickets[i].fate != Dropped
      ensures w'.tickets[i].fate.Carried? ==>
                w'.tickets[i].fate.task in w'.s.tasks && !w'.s.tasks[w'.tickets[i].fate.task].cancelled
    {
      assert w.tickets[i].fate != Carried(t);
    }
  }

  lemma CancelSafe(w: World, maxSlots: nat, a: nat, account: nat, since: nat)
    requires Registered(w.s, {}) && AllKept(w) && Safe(w, account, since) && a != account
    ensures Safe(Apply(w, maxSlots, CancelAccount(a)), account, since)
  {
    var w' := Apply(w, maxSlots, CancelAccount(a));
    forall i | since <= i < |w'.tickets| && w'.tickets[i].account == account
      ensures w'.tickets[i].fate != Dropped
      ensures w'.tickets[i].fate.Carried? ==>
                w'.tickets[i].fate.task in w'.s.tasks && !w'.s.tasks[w'.tickets[i].fate.task].cancelled
    {
      assert w'.tickets[i] == w.tickets[i] && Kept(w, w.tickets[i]);
      if w.tickets[i].fate.Carried? {
        OtherCancelKeepsFlags(w.s, a, w.tickets[i].fate.task);
      }
    }
  }

  lemma {:induction false} RunSafe(
    from: World, maxSlots: nat, steps: seq<Step>, to: World, account: nat, since: nat)
    requires Invariant(from, maxSlots) && Reaches(from, maxSlots, steps, to) && NoCancel(steps, account)
    requires Safe(from, account, since) && since <= |from.tickets|
    ensures Safe(to, account, since)
    decreases |steps|
  {
    hide Invariant;
    hide Safe;
    if steps != [] {
      var next := Apply(from, maxSlots, steps[0]);
      StepKeeps(from, maxSlots, steps[0]);
      StepSafe(from, maxSlots, steps[0], account, since);
      assert NoCancel(steps[1..], account);
      RunSafe(next, maxSlots, steps[1..], to, account, since);
    }
  }

  /** Coalescing loses nothing. Whatever happened before, if a request is made at `from` and its
      account is not cancelled afterwards, then once no task of the account is left the request has
      been served: a pass whose body began after the request asked for everything it asked for. */
  lemma CoalescingLosesNothing(
    before: seq<Step>, from: World, account: nat, request: Request, after: seq<Step>, to: World, maxSlots: nat)
    requires Reaches(BOOT, maxSlots, before, from)
    requires Reaches(Apply(from, maxSlots, Request_(account, request)), maxSlots, after, to)
    requires NoCancel(after, account)
    requires forall t :: t in to.s.tasks && to.s.tasks[t].account == account ==> to.s.tasks[t].at.Finished?
    ensures
      var i := |from.tickets|;
      && i < |to.tickets|
      && to.tickets[i].account == account && to.tickets[i].request == request
      && to.tickets[i].fate.Served?
      && Covers(to.tickets[i].fate.through, request)
      && from.now < to.tickets[i].fate.began
  {
    hide Invariant;
    hide Ask;
    var i := |from.tickets|;
    var asked := Apply(from, maxSlots, Request_(account, request));
    BootIsInvariant(maxSlots);
    RunKeeps(BOOT, maxSlots, before, from);
    StepKeeps(from, maxSlots, Request_(account, request));
    RunKeeps(asked, maxSlots, after, to);
    assert Safe(asked, account, i);
    hide Safe;
    RunSafe(asked, maxSlots, after, to, account, i);
    TicketStays(asked, maxSlots, after, to, i);
    SettledIsServed(to, maxSlots, i, i);
  }

  lemma PendingHasTask(s: State, account: nat)
    requires Registered(s, {}) && account in s.pending
    ensures account in s.running && Serves(s, s.running[account], account)
  {
  }

  /** Once no task of the account is left, a request that was never dropped has been served. */
  lemma SettledIsServed(w: World, maxSlots: nat, i: nat, since: nat)
    requires Invariant(w, maxSlots) && since <= i < |w.tickets| && Safe(w, w.tickets[i].account, since)
    requires forall t :: t in w.s.tasks && w.s.tasks[t].account == w.tickets[i].account ==> w.s.tasks[t].at.Finished?
    ensures
      var k := w.tickets[i];
      k.fate.Served? && Covers(k.fate.through, k.request) && k.asked < k.fate.began
  {
    hide Exclusive;
    hide Accounted;
    var k := w.tickets[i];
    assert Kept(w, k);
    if k.fate.Queued? {
      PendingHasTask(w.s, k.account);
    }
  }

  lemma {:induction false} TicketStays(from: World, maxSlots: nat, steps: seq<Step>, to: World, i: nat)
    requires Reaches(from, maxSlots, steps, to) && i < |from.tickets|
    ensures i < |to.tickets|
    ensures to.tickets[i] == from.tickets[i].(fate := to.tickets[i].fate)
    decreases |steps|
  {
    if steps != [] {
      TicketStays(Apply(from, maxSlots, steps[0]), maxSlots, steps[1..], to, i);
    }
  }

  // ---------------------------------------------------------------- no deadlock, and an end

  /** Steps that serve what was asked; new requests, cancellations and foreign lock holders are not. */
  ghost predicate Service(step: Step) {
    !step.Request_? && !step.CancelAccount? && !step.LockElsewhere?
  }

  /** As long as some task is unfinished, some service step is possible. */
  lemma NoDeadlock(w: World, maxSlots: nat, t: nat) returns (step: Step)
    requires Invariant(w, maxSlots) && 0 < maxSlots
    requires t in w.s.tasks && !w.s.tasks[t].at.Finished?
    ensures Service(step) && Can(w, maxSlots, step)
    decreases if Inside(w.s, t) then 0 else if Holds(w.s, t) then 1 else 2
  {
    hide Registered;
    hide Accounted;
    hide AllKept;
    var s := w.s;
    if s.tasks[t].cancelled {
      step := Unwind(t);
    } else if s.tasks[t].at.Unstarted? {
      step := Start(t);
    } else if Inside(s, t) {
      step := Return(t);
    } else if Holds(s, t) {
      if |s.slots| < maxSlots {
        step := TakeSlot(t);
      } else {
        var u :| u in s.slots;
        assert Inside(s, u);
        step := NoDeadlock(w, maxSlots, u);
      }
    } else {
      var a := s.tasks[t].account;
      if a !in s.lock {
        step := TakeLock(t);
      } else if s.lock[a].Elsewhere? {
        step := UnlockElsewhere(a);
      } else {
        assert Holds(s, s.lock[a].task);
        step := NoDeadlock(w, maxSlots, s.lock[a].task);
      }
    }
  }

  ghost function Rank(task: Task): nat {
    match task.at
    case Unstarted => 1
    case Finished => 0
    case Syncing(_, _, phase) => if phase.AwaitLock? then 3 else if phase.AwaitSlot? then 2 else 1
  }

  ghost function TotalRank(tasks: map<nat, Task>, keys: set<nat>): nat
    requires keys <= tasks.Keys
    decreases |keys|
  {
    if keys == {} then 0 else
      var t :| t in keys;
      Rank(tasks[t]) + TotalRank(tasks, keys - {t})
  }

  /** Changing one task changes the total by that task's change. */
  lemma {:induction false} TotalRankChanges(before: map<nat, Task>, after: map<nat, Task>, keys: set<nat>, t: nat)
    requires keys <= before.Keys && keys <= after.Keys
    requires forall u :: u in keys && u != t ==> after[u] == before[u]
    ensures t in keys ==> TotalRank(after, keys) + Rank(before[t]) == TotalRank(before, keys) + Rank(after[t])
    ensures t !in keys ==> TotalRank(after, keys) == TotalRank(before, keys)
    decreases |keys|
  {
    if keys != {} {
      var u :| u in keys && TotalRank(before, keys) == Rank(before[u]) + TotalRank(before, keys - {u});
      var v :| v in keys && TotalRank(after, keys) == Rank(after[v]) + TotalRank(after, keys - {v});
      TotalRankAny(after, keys, u);
      TotalRankChanges(before, after, keys - {u}, t);
    }
  }

  lemma {:induction false} TotalRankAny(tasks: map<nat, Task>, keys: set<nat>, u: nat)
    requires keys <= tasks.Keys && u in keys
    ensures TotalRank(tasks, keys) == Rank(tasks[u]) + TotalRank(tasks, keys - {u})
    decreases |keys|
  {
    var v :| v in keys && TotalRank(tasks, keys) == Rank(tasks[v]) + TotalRank(tasks, keys - {v});
    if u != v {
      TotalRankAny(tasks, keys - {v}, u);
      TotalRankAny(tasks, keys - {u}, v);
      assert keys - {v} - {u} == keys - {u} - {v};
    }
  }

  ghost function LockedElsewhere(s: State): set<nat> {
    set a | a in s.lock && s.lock[a].Elsewhere?
  }

  /** Work left: a pending request weighs one whole pass. */
  ghost function Work(s: State): nat {
    4 * |s.pending| + TotalRank(s.tasks, s.tasks.Keys) + |s.retired| + |LockedElsewhere(s)|
  }

  lemma OneTaskMoves(s: State, r: State, t: nat)
    requires t in s.tasks && t in r.tasks && r.tasks == s.tasks[t := r.tasks[t]]
    ensures TotalRank(r.tasks, r.tasks.Keys) + Rank(s.tasks[t]) == TotalRank(s.tasks, s.tasks.Keys) + Rank(r.tasks[t])
  {
    assert r.tasks.Keys == s.tasks.Keys;
    TotalRankChanges(s.tasks, r.tasks, s.tasks.Keys, t);
  }

  lemma HeadWork(s: State, t: nat)
    requires t in s.tasks && Rank(s.tasks[t]) == 1
    ensures Work(DrainHead(s, t)) < Work(s)
  {
    var r := DrainHead(s, t);
    OneTaskMoves(s, r, t);
    assert LockedElsewhere(r) == LockedElsewhere(s);
    if HasPending(s, t) {
      assert r.pending.Keys == s.pending.Keys - {s.tasks[t].account};
      assert |r.pending| == |s.pending| - 1;
    }
  }

  lemma EndPassWork(s: State, t: nat)
    requires t in s.tasks && s.tasks[t].at.Syncing?
    ensures Work(EndPass(s, t)) == Work(s)
  {
    var r := EndPass(s, t);
    OneTaskMoves(s, r, t);
    assert LockedElsewhere(r) == LockedElsewhere(s);
  }

  lemma LeaveWork(s: State, t: nat)
    requires t in s.tasks && !s.tasks[t].at.Finished?
    ensures Work(Leave(s, t)) < Work(s)
  {
    var r := Leave(s, t);
    OneTaskMoves(s, r, t);
    assert LockedElsewhere(r) == LockedElsewhere(s);
  }

  /** Every service step leaves strictly less work. */
  lemma ServiceStepWorks(w: World, maxSlots: nat, step: Step)
    requires Service(step) && Can(w, maxSlots, step)
    ensures Work(Apply(w, maxSlots, step).s) < Work(w.s)
  {
    hide Work;
    var s, r := w.s, Apply(w, maxSlots, step).s;
    match step
    case Start(t) => HeadWork(s, t);
    case Return(t) =>
      EndPassWork(s, t);
      HeadWork(EndPass(s, t), t);
    case Swallow(t) =>
      EndPassWork(s, t);
      HeadWork(EndPass(s, t), t);
    case Unwind(t) =>
      if s.tasks[t].at.Unstarted? {
        AbandonWork(s, r, t);
      } else {
        EndPassWork(s, t);
        LeaveWork(EndPass(s, t), t);
      }
    case TakeLock(t) => PhaseWork(s, r, t);
    case TakeSlot(t) => PhaseWork(s, r, t);
    case Reap(t) => ReapWork(s, t);
    case UnlockElsewhere(a) => UnlockWork(s, a);
  }

  lemma AbandonWork(s: State, r: State, t: nat)
    requires t in s.tasks && s.tasks[t].at.Unstarted?
    requires r == s.(tasks := s.tasks[t := s.tasks[t].(at := Finished, cancelled := false)])
    ensures Work(r) < Work(s)
  {
    OneTaskMoves(s, r, t);
    assert LockedElsewhere(r) == LockedElsewhere(s);
  }

  lemma PhaseWork(s: State, r: State, t: nat)
    requires t in s.tasks && t in r.tasks && r.tasks == s.tasks[t := r.tasks[t]] && Rank(r.tasks[t]) < Rank(s.tasks[t])
    requires r.pending == s.pending && r.retired == s.retired
    requires forall a :: a in r.lock && r.lock[a].Elsewhere? <==> a in s.lock && s.lock[a].Elsewhere?
    ensures Work(r) < Work(s)
  {
    OneTaskMoves(s, r, t);
    assert LockedElsewhere(r) == LockedElsewhere(s);
  }

  lemma ReapWork(s: State, t: nat)
    requires t in s.retired
    ensures Work(s.(retired := s.retired - {t})) < Work(s)
  {
    var r := s.(retired := s.retired - {t});
    assert LockedElsewhere(r) == LockedElsewhere(s);
    assert |r.retired| == |s.retired| - 1;
  }

  lemma UnlockWork(s: State, a: nat)
    requires a in s.lock && s.lock[a].Elsewhere?
    ensures Work(s.(lock := s.lock - {a})) < Work(s)
  {
    var r := s.(lock := s.lock - {a});
    assert LockedElsewhere(r) == LockedElsewhere(s) - {a};
    assert a in LockedElsewhere(s);
  }

  /** Without new requests the work ends: no run of service steps is longer than the work at hand. */
  lemma {:induction false} ServiceRunsEnd(from: World, maxSlots: nat, steps: seq<Step>, to: World)
    requires Reaches(from, maxSlots, steps, to)
    requires forall i :: 0 <= i < |steps| ==> Service(steps[i])
    ensures |steps| + Work(to.s) <= Work(from.s)
    decreases |steps|
  {
    hide Work;
    if steps != [] {
      ServiceStepWorks(from, maxSlots, steps[0]);
      ServiceRunsEnd(Apply(from, maxSlots, steps[0]), maxSlots, steps[1..], to);
    }
  }

  // ---------------------------------------------------------------- what becomes of a cancelled task

  /** Only two steps move a cancelled task. Delivering the cancellation ends it. Swallowing it, when the open it waited
      for fails, ends its pass as any other failure does: the task is no longer cancelled, and it runs another pass
      exactly when something is pending for its account. */
  lemma WhatBecomesOfACancelledTask(w: World, maxSlots: nat, step: Step, t: nat)
    requires Reachable(w, maxSlots) && Can(w, maxSlots, step)
    requires t in w.s.tasks && w.s.tasks[t].cancelled
    ensures
      var r := Apply(w, maxSlots, step).s;
      && t in r.tasks
      && (step != Unwind(t) && step != Swallow(t) ==> r.tasks[t] == w.s.tasks[t])
      && (step == Unwind(t) ==> r.tasks[t].at.Finished? && r.running == w.s.running && r.pending == w.s.pending)
      && (step == Swallow(t) ==>
            && !r.tasks[t].cancelled && r.running == w.s.running
            && (r.tasks[t].at.Syncing? <==> HasPending(w.s, t))
            && (!r.tasks[t].at.Syncing? ==> r.tasks[t].at.Finished?))
  {
    ReachableIsInvariant(w, maxSlots);
    hide Exclusive;
    hide Accounted;
    hide AllKept;
    RetiredIsNotRegistered(w.s, t);
    assert w.s.nextTask !in w.s.tasks;
    if step == Swallow(t) {
      SwallowedGoesToTheHead(w, maxSlots, t);
    } else if step == Unwind(t) {
      UnwindingEnds(w, maxSlots, t);
    } else {
      match step
      case Unwind(u) => AnotherUnwinds(w, maxSlots, u, t);
      case CancelAccount(a) => CancellingLeavesTheCancelled(w.s, a, t);
      case Request_(a, r) => AskingLeavesTasks(w.s, a, r, t);
      case _ => OthersLeaveATaskAlone(w, maxSlots, step, t);
    }
    hide Registered;
    hide Head;
    hide Serve;
    hide Cancel;
    hide Ask;
    hide HasPending;
  }

  lemma UnwindingEnds(w: World, maxSlots: nat, t: nat)
    requires Can(w, maxSlots, Unwind(t))
    requires !(w.s.tasks[t].account in w.s.running && w.s.running[w.s.tasks[t].account] == t)
    ensures
      var r := Apply(w, maxSlots, Unwind(t)).s;
      t in r.tasks && r.tasks[t].at.Finished? && r.running == w.s.running && r.pending == w.s.pending
  {
    hide Refate;
    if !w.s.tasks[t].at.Unstarted? {
      var s1 := EndPass(w.s, t);
      assert t in s1.tasks && s1.tasks[t].account == w.s.tasks[t].account && s1.running == w.s.running && s1.pending == w.s.pending;
      hide EndPass;
      assert Apply(w, maxSlots, Unwind(t)).s == Leave(s1, t);
    }
  }

  lemma AnotherUnwinds(w: World, maxSlots: nat, u: nat, t: nat)
    requires Can(w, maxSlots, Unwind(u)) && u != t && t in w.s.tasks
    ensures t in Apply(w, maxSlots, Unwind(u)).s.tasks && Apply(w, maxSlots, Unwind(u)).s.tasks[t] == w.s.tasks[t]
  {
    hide Refate;
  }

  lemma CancellingLeavesTheCancelled(s: State, a: nat, t: nat)
    requires t in s.tasks && s.tasks[t].cancelled
    ensures t in Cancel(s, a).tasks && Cancel(s, a).tasks[t] == s.tasks[t]
  {
  }

  lemma AskingLeavesTasks(s: State, a: nat, r: Request, t: nat)
    requires t in s.tasks && s.nextTask !in s.tasks
    ensures t in Ask(s, a, r).tasks && Ask(s, a, r).tasks[t] == s.tasks[t]
  {
  }

  lemma OthersLeaveATaskAlone(w: World, maxSlots: nat, step: Step, t: nat)
    requires Can(w, maxSlots, step) && t in w.s.tasks
    requires !step.Unwind? && !step.CancelAccount? && !step.Request_? && step != Swallow(t)
    requires w.s.tasks[t].cancelled
    ensures t in Apply(w, maxSlots, step).s.tasks && Apply(w, maxSlots, step).s.tasks[t] == w.s.tasks[t]
  {
  }

  lemma SwallowedGoesToTheHead(w: World, maxSlots: nat, t: nat)
    requires Can(w, maxSlots, Swallow(t))
    requires !(w.s.tasks[t].account in w.s.running && w.s.running[w.s.tasks[t].account] == t)
    ensures
      var r := Apply(w, maxSlots, Swallow(t)).s;
      && t in r.tasks && !r.tasks[t].cancelled && r.running == w.s.running
      && (if HasPending(w.s, t) then r.tasks[t].at.Syncing? else r.tasks[t].at.Finished?)
  {
  }

  /** When it does go on, it takes over whatever was asked for its account since it was retired, and with it every
      queued request, from under the task that is registered to serve them. */
  lemma RetiredTaskGoesOnDraining(w: World, maxSlots: nat, t: nat)
    requires Reachable(w, maxSlots) && Can(w, maxSlots, Swallow(t)) && HasPending(w.s, t)
    ensures
      var w' := Apply(w, maxSlots, Swallow(t));
      var account := w.s.tasks[t].account;
      && t in w'.s.retired && account in w.s.running && w'.s.running == w.s.running && w.s.running[account] != t
      && w'.s.tasks[t].at.Syncing? && w'.s.tasks[t].at.request == w.s.pending[account]
      && account !in w'.s.pending
      && forall i :: 0 <= i < |w.tickets| && w.tickets[i].account == account && w.tickets[i].fate.Queued? ==>
           w'.tickets[i].fate == Carried(t)
  {
    ReachableIsInvariant(w, maxSlots);
    hide Exclusive;
    hide Accounted;
    hide AllKept;
    RetiredIsNotRegistered(w.s, t);
  }

  lemma {:induction false} ReachesFurther(from: World, maxSlots: nat, steps: seq<Step>, to: World, step: Step)
    requires Reaches(from, maxSlots, steps, to) && Can(to, maxSlots, step)
    ensures Reaches(from, maxSlots, steps + [step], Apply(to, maxSlots, step))
    decreases |steps|
  {
    hide Apply;
    hide Can;
    if steps == [] {
      assert (steps + [step])[1..] == [];
    } else {
      assert (steps + [step])[1..] == steps[1..] + [step];
      ReachesFurther(Apply(from, maxSlots, steps[0]), maxSlots, steps[1..], to, step);
    }
  }

  lemma Onward(w: World, maxSlots: nat, step: Step) returns (w': World)
    requires Reachable(w, maxSlots) && Can(w, maxSlots, step)
    ensures w' == Apply(w, maxSlots, step) && Reachable(w', maxSlots)
  {
    hide Apply;
    hide Can;
    w' := Apply(w, maxSlots, step);
    var steps :| Reaches(BOOT, maxSlots, steps, w);
    ReachesFurther(BOOT, maxSlots, steps, w, step);
  }

  /** A request is taken up. */
  lemma APassStarts(maxSlots: nat, account: nat) returns (w: World)
    ensures Reachable(w, maxSlots)
    ensures w.s == IDLE.(running := map[account := 0], activities := {0}, nextTask := 1, nextActivity := 1,
                         tasks := map[0 := Task(account, false, Syncing(Request(All, true), 0, AwaitLock))])
  {
    assert Reaches(BOOT, maxSlots, [], BOOT);
    w := BOOT;
    hide Reachable;
    hide Refate;
    w := Onward(w, maxSlots, Request_(account, Request(All, true)));
    w := Onward(w, maxSlots, Start(0));
  }

  /** Its pass is in its body. */
  lemma APassOpens(maxSlots: nat, account: nat) returns (w: World)
    requires 0 < maxSlots
    ensures Reachable(w, maxSlots) && w.s.running == map[account := 0] && w.s.pending == map[] && w.s.pendingActivity == map[]
    ensures 0 in w.s.tasks && w.s.tasks[0].account == account && !w.s.tasks[0].cancelled
    ensures w.s.tasks[0].at.Syncing? && w.s.tasks[0].at.phase.InBody? && w.s.nextTask == 1
  {
    w := APassStarts(maxSlots, account);
    hide Reachable;
    hide Refate;
    w := Onward(w, maxSlots, TakeLock(0));
    w := Onward(w, maxSlots, TakeSlot(0));
  }

  /** The account is unscheduled while the pass waits for its connection. */
  lemma AnOpenIsCancelled(maxSlots: nat, account: nat) returns (w: World)
    requires 0 < maxSlots
    ensures Reachable(w, maxSlots) && w.s.running == map[] && w.s.pending == map[] && w.s.pendingActivity == map[]
    ensures 0 in w.s.tasks && w.s.tasks[0].account == account && w.s.tasks[0].cancelled
    ensures w.s.tasks[0].at.Syncing? && w.s.tasks[0].at.phase.InBody? && w.s.nextTask == 1
  {
    w := APassOpens(maxSlots, account);
    hide Reachable;
    hide Refate;
    w := Onward(w, maxSlots, CancelAccount(account));
  }

  /** It happens: the account is asked for again, and only then the open fails. */
  lemma ARetiredTaskMayGoOn(maxSlots: nat, account: nat) returns (w: World)
    requires 0 < maxSlots
    ensures Reachable(w, maxSlots) && Can(w, maxSlots, Swallow(0)) && HasPending(w.s, 0) && w.s.tasks[0].account == account
  {
    w := AnOpenIsCancelled(maxSlots, account);
    hide Reachable;
    hide Merge;
    hide Refate;
    w := Onward(w, maxSlots, Request_(account, Request(All, true)));
  }
}
