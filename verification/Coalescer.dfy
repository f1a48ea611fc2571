/** One running pass and one merged follow-up per account: the request coalescer as a state machine
    whose steps are the stretches of code between two awaits, across every generation of tasks. */
module Coalescer {

  // ---------------------------------------------------------------- requests and their merge

  /** Folder ids to sync; `All` is the absent scope. */
  datatype Scope = All | Only(folders: set<nat>)

  datatype Request = Request(scope: Scope, discover: bool)

  predicate ScopeCovers(a: Scope, b: Scope) {
    a.All? || (b.Only? && b.folders <= a.folders)
  }

  /** Whatever `b` asks for, `a` asks for too. */
  predicate Covers(a: Request, b: Request) {
    ScopeCovers(a.scope, b.scope) && (b.discover ==> a.discover)
  }

  function Merge(previous: Request, latest: Request): Request {
    Request(
      if previous.scope.All? || latest.scope.All? then All else Only(previous.scope.folders + latest.scope.folders),
      latest.discover || previous.discover)
  }

  /** Merging is the least upper bound: it keeps both requests and asks for nothing more. */
  lemma MergeIsJoin(a: Request, b: Request, c: Request)
    ensures Covers(Merge(a, b), a) && Covers(Merge(a, b), b)
    ensures Covers(c, Merge(a, b)) <==> Covers(c, a) && Covers(c, b)
    ensures Merge(a, b) == Merge(b, a) && Merge(a, a) == a && Merge(Merge(a, b), c) == Merge(a, Merge(b, c))
  {
    if a.scope.Only? && b.scope.Only? {
      assert a.scope.folders + b.scope.folders == b.scope.folders + a.scope.folders;
      assert a.scope.folders + a.scope.folders == a.scope.folders;
      if c.scope.Only? {
        assert (a.scope.folders + b.scope.folders) + c.scope.folders == a.scope.folders + (b.scope.folders + c.scope.folders);
      }
    } else if a.scope.Only? {
      assert a.scope.folders + a.scope.folders == a.scope.folders;
    }
  }

  lemma CoversTransitive(a: Request, b: Request, c: Request)
    requires Covers(a, b) && Covers(b, c)
    ensures Covers(a, c)
  {
  }

  // ---------------------------------------------------------------- state

  /** Where a pass stands: for the account lock, then for a concurrency slot, then in its body,
      entered at the instant `began`. */
  datatype Phase = AwaitLock | AwaitSlot | InBody(began: nat)

  /** A drain task: not yet run, inside a pass, or finished. */
  datatype Position = Unstarted | Syncing(request: Request, activity: nat, phase: Phase) | Finished

  /** `cancelled`: a cancellation was requested and not yet delivered. */
  datatype Task = Task(account: nat, cancelled: bool, at: Position)

  datatype Owner = Pass(task: nat) | Elsewhere

  datatype State = State(
    running: map<nat, nat>,             // account -> task
    pending: map<nat, Request>,
    pendingActivity: map<nat, nat>,
    retired: set<nat>,
    tasks: map<nat, Task>,              // every task ever created
    activities: set<nat>,               // begun and not finished
    lock: map<nat, Owner>,              // account locks that are held
    slots: set<nat>,                    // tasks inside the semaphore
    nextTask: nat,
    nextActivity: nat)

  const IDLE := State(map[], map[], map[], {}, map[], {}, map[], {}, 0, 0)

  /** Merge into what is pending, under one activity. */
  function Enqueue(s: State, account: nat, request: Request): State {
    var merged := if account in s.pending then Merge(s.pending[account], request) else request;
    if account in s.pendingActivity then
      s.(pending := s.pending[account := merged])
    else
      s.(pending := s.pending[account := merged],
         pendingActivity := s.pendingActivity[account := s.nextActivity],
         activities := s.activities + {s.nextActivity},
         nextActivity := s.nextActivity + 1)
  }

  function EnsureTask(s: State, account: nat): State {
    if account in s.running then s
    else s.(running := s.running[account := s.nextTask],
            tasks := s.tasks[s.nextTask := Task(account, false, Unstarted)],
            nextTask := s.nextTask + 1)
  }

  /** `request_sync` */
  function Ask(s: State, account: nat, request: Request): State {
    EnsureTask(Enqueue(s, account, request), account)
  }

  function TakePending(s: State, t: nat): State
    requires t in s.tasks && s.tasks[t].account in s.pending && s.tasks[t].account in s.pendingActivity
  {
    var account := s.tasks[t].account;
    s.(pending := s.pending - {account},
       pendingActivity := s.pendingActivity - {account},
       tasks := s.tasks[t := s.tasks[t].(at := Syncing(s.pending[account], s.pendingActivity[account], AwaitLock))])
  }

  /** The task's last act: only its own registration is removed. */
  function Leave(s: State, t: nat): State
    requires t in s.tasks
  {
    var account := s.tasks[t].account;
    s.(running := if account in s.running && s.running[account] == t then s.running - {account} else s.running,
       tasks := s.tasks[t := s.tasks[t].(at := Finished, cancelled := false)])
  }

  predicate HasPending(s: State, t: nat) {
    t in s.tasks && s.tasks[t].account in s.pending && s.tasks[t].account in s.pendingActivity
  }

  /** The drain loop's head: take the pending request, or leave and deregister. */
  function DrainHead(s: State, t: nat): State
    requires t in s.tasks
  {
    if HasPending(s, t) then TakePending(s, t) else Leave(s, t)
  }

  /** The pass of `t` is over: its activity ends, its lock and slot are free. */
  function EndPass(s: State, t: nat): State
    requires t in s.tasks && s.tasks[t].at.Syncing?
  {
    var account := s.tasks[t].account;
    s.(activities := s.activities - {s.tasks[t].at.activity},
       lock := if account in s.lock && s.lock[account] == Pass(t) then s.lock - {account} else s.lock,
       slots := s.slots - {t},
       tasks := s.tasks[t := s.tasks[t].(cancelled := false)])
  }

  function DropPending(s: State, account: nat): State {
    var s1 := s.(pending := s.pending - {account});
    if account in s.pendingActivity then
      s1.(pendingActivity := s.pendingActivity - {account},
          activities := s.activities - {s.pendingActivity[account]})
    else s1
  }

  function Retire(s: State, account: nat): State {
    if account in s.running && s.running[account] in s.tasks then
      var t := s.running[account];
      s.(running := s.running - {account},
         retired := s.retired + {t},
         tasks := s.tasks[t := s.tasks[t].(cancelled := true)])
    else s
  }

  /** `cancel_account`: drop what is pending and retire the running task. */
  function Cancel(s: State, account: nat): State {
    Retire(DropPending(s, account), account)
  }

  // ---------------------------------------------------------------- history of requests

  /** What became of one call of `request_sync`. A pass that ended is known by its request, by
      the instant it entered its body, and by whether its body returned. */
  datatype Fate =
    | Queued
    | Carried(task: nat)
    | Served(through: Request, began: nat)
    | Dropped

  datatype Ticket = Ticket(account: nat, request: Request, asked: nat, fate: Fate)

  /** What an open activity reports: requests queued for an account, or a task's pass. */
  datatype Work = QueuedFor(account: nat) | PassOf(task: nat)

  /** The state, and the history kept to reason about it. */
  datatype World = World(s: State, tickets: seq<Ticket>, work: map<nat, Work>, now: nat)

  const BOOT := World(IDLE, [], map[], 0)

  function Refate(tickets: seq<Ticket>, account: nat, from: Fate, to: Fate): (r: seq<Ticket>)
    ensures |r| == |tickets|
    ensures forall i :: 0 <= i < |r| ==>
              r[i] == if tickets[i].account == account && tickets[i].fate == from
                      then tickets[i].(fate := to) else tickets[i]
  {
    seq(|tickets|, i requires 0 <= i < |tickets| =>
      if tickets[i].account == account && tickets[i].fate == from then tickets[i].(fate := to) else tickets[i])
  }

  datatype Step =
    | Request_(account: nat, request: Request)  // request_sync, by any caller
    | Start(task: nat)                          // a task runs for the first time
    | TakeLock(task: nat)
    | TakeSlot(task: nat)
    | Return(task: nat)                         // the pass returned, or raised and was logged
    | Unwind(task: nat)                         // a requested cancellation is delivered
    | Swallow(task: nat)                        // a failing open replaces the cancellation
    | CancelAccount(account: nat)
    | Reap(task: nat)                           // done callback
    | LockElsewhere(account: nat)               // a watcher or token refresh takes the account lock
    | UnlockElsewhere(account: nat)

  ghost predicate InPhase(s: State, t: nat, cancelled: bool) {
    t in s.tasks && s.tasks[t].at.Syncing? && s.tasks[t].cancelled == cancelled
  }

  ghost predicate Can(w: World, maxSlots: nat, step: Step) {
    var s := w.s;
    match step
    case Request_(_, _) => true
    case Start(t) => t in s.tasks && s.tasks[t].at.Unstarted? && !s.tasks[t].cancelled
    case TakeLock(t) => InPhase(s, t, false) && s.tasks[t].at.phase.AwaitLock? && s.tasks[t].account !in s.lock
    case TakeSlot(t) => InPhase(s, t, false) && s.tasks[t].at.phase.AwaitSlot? && |s.slots| < maxSlots
    case Return(t) => InPhase(s, t, false) && s.tasks[t].at.phase.InBody?
    case Unwind(t) => t in s.tasks && s.tasks[t].cancelled && !s.tasks[t].at.Finished?
    case Swallow(t) => InPhase(s, t, true) && s.tasks[t].at.phase.InBody?
    case CancelAccount(_) => true
    case Reap(t) => t in s.retired && t in s.tasks && s.tasks[t].at.Finished?
    case LockElsewhere(a) => a !in s.lock
    case UnlockElsewhere(a) => a in s.lock && s.lock[a].Elsewhere?
  }

  ghost function Apply(w: World, maxSlots: nat, step: Step): World
    requires Can(w, maxSlots, step)
  {
    var s := w.s;
    var w' :=
      match step
      case Request_(a, r) =>
        w.(s := Ask(s, a, r), tickets := w.tickets + [Ticket(a, r, w.now, Queued)], work := EnqueueWork(s, w.work, a))
      case Start(t) => Head(w, t)
      case TakeLock(t) =>
        w.(s := s.(lock := s.lock[s.tasks[t].account := Pass(t)],
                   tasks := s.tasks[t := s.tasks[t].(at := s.tasks[t].at.(phase := AwaitSlot))]))
      case TakeSlot(t) =>
        w.(s := s.(slots := s.slots + {t},
                   tasks := s.tasks[t := s.tasks[t].(at := s.tasks[t].at.(phase := InBody(w.now)))]))
      case Return(t) => Head(Serve(w, t), t)
      case Swallow(t) => Head(Serve(w, t), t)
      case Unwind(t) =>
        if s.tasks[t].at.Unstarted? then
          // The coroutine never ran: not even its `finally` does.
          w.(s := s.(tasks := s.tasks[t := s.tasks[t].(at := Finished, cancelled := false)]))
        else
          w.(s := Leave(EndPass(s, t), t),
             tickets := Refate(w.tickets, s.tasks[t].account, Carried(t), Dropped))
      case CancelAccount(a) => w.(s := Cancel(s, a), tickets := Refate(w.tickets, a, Queued, Dropped))
      case Reap(t) => w.(s := s.(retired := s.retired - {t}))
      case LockElsewhere(a) => w.(s := s.(lock := s.lock[a := Elsewhere]))
      case UnlockElsewhere(a) => w.(s := s.(lock := s.lock - {a}));
    w'.(now := w.now + 1)
  }

  ghost function EnqueueWork(s: State, work: map<nat, Work>, account: nat): map<nat, Work> {
    if account in s.pendingActivity then work else work[s.nextActivity := QueuedFor(account)]
  }

  /** The loop head; every request queued for the account now rides on this task's next pass. */
  ghost function Head(w: World, t: nat): World
    requires t in w.s.tasks
  {
    if HasPending(w.s, t) then
      var account := w.s.tasks[t].account;
      w.(s := TakePending(w.s, t),
         tickets := Refate(w.tickets, account, Queued, Carried(t)),
         work := w.work[w.s.pendingActivity[account] := PassOf(t)])
    else
      w.(s := Leave(w.s, t))
  }

  ghost function Serve(w: World, t: nat): World
    requires t in w.s.tasks && w.s.tasks[t].at.Syncing? && w.s.tasks[t].at.phase.InBody?
  {
    var task := w.s.tasks[t];
    w.(s := EndPass(w.s, t),
       tickets := Refate(w.tickets, task.account, Carried(t), Served(task.at.request, task.at.phase.began)))
  }

  /** `to` is reached from `from` by these steps. */
  ghost predicate Reaches(from: World, maxSlots: nat, steps: seq<Step>, to: World)
    decreases |steps|
  {
    if steps == [] then to == from
    else Can(from, maxSlots, steps[0]) && Reaches(Apply(from, maxSlots, steps[0]), maxSlots, steps[1..], to)
  }

  // ---------------------------------------------------------------- the inductive invariant

  /** Registration: what is pending has an activity and, outside `owed`, a registered task; a
      registered task is its account's, live, not cancelled and not retired; every other task
      that may still start or be cancelled is a retired one. */
  ghost predicate Registered(s: State, owed: set<nat>) {
    && s.pending.Keys == s.pendingActivity.Keys
    && s.pending.Keys - owed <= s.running.Keys
    && (forall a :: a in s.running ==> Serves(s, s.running[a], a))
    && (forall t :: t in s.tasks && s.tasks[t].at.Unstarted? && !s.tasks[t].cancelled ==>
          s.tasks[t].account in s.running && s.running[s.tasks[t].account] == t)
    && (forall t :: t in s.tasks && s.tasks[t].cancelled ==> t in s.retired && !s.tasks[t].at.Finished?)
    && s.retired <= s.tasks.Keys
    && (forall t :: t in s.tasks ==> t < s.nextTask)
  }

  ghost predicate Serves(s: State, t: nat, account: nat) {
    && t in s.tasks && t !in s.retired
    && s.tasks[t].account == account && !s.tasks[t].at.Finished? && !s.tasks[t].cancelled
  }

  ghost predicate Holds(s: State, t: nat) {
    t in s.tasks && s.tasks[t].at.Syncing? && !s.tasks[t].at.phase.AwaitLock?
  }

  ghost predicate Inside(s: State, t: nat) {
    t in s.tasks && s.tasks[t].at.Syncing? && s.tasks[t].at.phase.InBody?
  }

  /** Mutual exclusion: a pass past its lock is the one its account's lock names, and exactly the
      passes in their bodies hold slots. Tasks in `but` hold nothing, whatever their position says. */
  ghost predicate Exclusive(s: State, maxSlots: nat, but: set<nat>) {
    && (forall a :: a in s.lock && s.lock[a].Pass? ==>
          s.lock[a].task !in but && Holds(s, s.lock[a].task) && s.tasks[s.lock[a].task].account == a)
    && (forall t :: Holds(s, t) && t !in but ==>
          s.tasks[t].account in s.lock && s.lock[s.tasks[t].account] == Pass(t))
    && (forall t :: t in s.slots <==> Inside(s, t) && t !in but)
    && |s.slots| <= maxSlots
  }

  /** Activities: the open ones are exactly those of queued requests and of passes, each reporting
      one thing. Tasks in `but` have none, whatever their position says. */
  ghost predicate Accounted(s: State, work: map<nat, Work>, but: set<nat>) {
    && (forall a :: a in s.pendingActivity ==> Reports(s, work, s.pendingActivity[a], QueuedFor(a)))
    && (forall t :: t in s.tasks && s.tasks[t].at.Syncing? && t !in but ==>
          Reports(s, work, s.tasks[t].at.activity, PassOf(t)))
    && (forall x :: x in s.activities ==> x < s.nextActivity && x in work && Justified(s, x, work[x], but))
  }

  ghost predicate Reports(s: State, work: map<nat, Work>, x: nat, what: Work) {
    x in s.activities && x in work && work[x] == what
  }

  ghost predicate Justified(s: State, x: nat, what: Work, but: set<nat>) {
    match what
    case QueuedFor(a) => a in s.pendingActivity && s.pendingActivity[a] == x
    case PassOf(t) => t !in but && t in s.tasks && s.tasks[t].at.Syncing? && s.tasks[t].at.activity == x
  }

  /** No request is lost: each is still queued under a pending scope that covers it, rides on a pass
      that covers it, was served by one whose body began after it was asked, or was dropped. */
  ghost predicate Kept(w: World, k: Ticket) {
    && k.asked < w.now
    && match k.fate
       case Queued => k.account in w.s.pending && Covers(w.s.pending[k.account], k.request)
       case Carried(t) =>
         && t in w.s.tasks && w.s.tasks[t].account == k.account && w.s.tasks[t].at.Syncing?
         && Covers(w.s.tasks[t].at.request, k.request)
         && (w.s.tasks[t].at.phase.InBody? ==> k.asked < w.s.tasks[t].at.phase.began)
       case Served(through, began) => Covers(through, k.request) && k.asked < began
       case Dropped => true
  }

  ghost predicate AllKept(w: World) {
    forall i :: 0 <= i < |w.tickets| ==> Kept(w, w.tickets[i])
  }

  ghost predicate Invariant(w: World, maxSlots: nat) {
    Registered(w.s, {}) && Exclusive(w.s, maxSlots, {}) && Accounted(w.s, w.work, {}) && AllKept(w)
  }

  // ---------------------------------------------------------------- preservation, operation by operation

  lemma EnqueueRegistered(s: State, account: nat, request: Request)
    requires Registered(s, {})
    ensures Registered(Enqueue(s, account, request), {account})
  {
  }

  lemma EnqueueExclusive(s: State, maxSlots: nat, account: nat, request: Request)
    requires Exclusive(s, maxSlots, {})
    ensures Exclusive(Enqueue(s, account, request), maxSlots, {})
  {
    var r := Enqueue(s, account, request);
    assert forall u :: (Holds(s, u) <==> Holds(r, u));
    assert forall u :: (Inside(s, u) <==> Inside(r, u));
  }

  lemma EnqueueAccounted(s: State, work: map<nat, Work>, account: nat, request: Request)
    requires Accounted(s, work, {})
    ensures Accounted(Enqueue(s, account, request), EnqueueWork(s, work, account), {})
  {
  }

  lemma EnsureTaskRegistered(s: State, account: nat)
    requires Registered(s, {account})
    ensures Registered(EnsureTask(s, account), {})
  {
    assert s.nextTask !in s.tasks;
  }

  lemma EnsureTaskExclusive(s: State, maxSlots: nat, account: nat)
    requires s.nextTask !in s.tasks
    requires Exclusive(s, maxSlots, {})
    ensures Exclusive(EnsureTask(s, account), maxSlots, {})
  {
    var r := EnsureTask(s, account);
    assert forall u :: (Holds(s, u) <==> Holds(r, u));
    assert forall u :: (Inside(s, u) <==> Inside(r, u));
  }

  lemma EnsureTaskAccounted(s: State, work: map<nat, Work>, account: nat)
    requires s.nextTask !in s.tasks
    requires Accounted(s, work, {})
    ensures Accounted(EnsureTask(s, account), work, {})
  {
  }

  lemma TakePendingRegistered(s: State, t: nat)
    requires Registered(s, {}) && HasPending(s, t) && !s.tasks[t].cancelled && !s.tasks[t].at.Finished?
    ensures Registered(TakePending(s, t), {})
  {
  }

  lemma TakePendingExclusive(s: State, maxSlots: nat, t: nat)
    requires HasPending(s, t)
    requires Exclusive(s, maxSlots, {t})
    ensures Exclusive(TakePending(s, t), maxSlots, {})
  {
    var r := TakePending(s, t);
    assert forall u :: u != t ==> (Holds(s, u) <==> Holds(r, u));
    assert forall u :: u != t ==> (Inside(s, u) <==> Inside(r, u));
  }

  lemma TakePendingAccounted(s: State, work: map<nat, Work>, t: nat)
    requires HasPending(s, t)
    requires Accounted(s, work, {t})
    ensures Accounted(TakePending(s, t), work[s.pendingActivity[s.tasks[t].account] := PassOf(t)], {})
  {
  }

  lemma LeaveRegistered(s: State, t: nat)
    requires Registered(s, {}) && t in s.tasks && !s.tasks[t].cancelled && !HasPending(s, t)
    ensures Registered(Leave(s, t), {})
  {
  }

  lemma LeaveExclusive(s: State, maxSlots: nat, t: nat)
    requires t in s.tasks
    requires Exclusive(s, maxSlots, {t})
    ensures Exclusive(Leave(s, t), maxSlots, {})
  {
    var r := Leave(s, t);
    assert forall u :: u != t ==> (Holds(s, u) <==> Holds(r, u));
    assert forall u :: u != t ==> (Inside(s, u) <==> Inside(r, u));
  }

  lemma LeaveAccounted(s: State, work: map<nat, Work>, t: nat)
    requires t in s.tasks
    requires Accounted(s, work, {t})
    ensures Accounted(Leave(s, t), work, {})
  {
  }

  lemma EndPassRegistered(s: State, t: nat)
    requires Registered(s, {}) && t in s.tasks && s.tasks[t].at.Syncing?
    ensures Registered(EndPass(s, t), {})
  {
  }

  lemma EndPassExclusive(s: State, maxSlots: nat, t: nat)
    requires t in s.tasks && s.tasks[t].at.Syncing?
    requires Exclusive(s, maxSlots, {})
    ensures Exclusive(EndPass(s, t), maxSlots, {t})
  {
    var r := EndPass(s, t);
    Shrinks(s.slots, t);
    assert forall u :: (Holds(s, u) <==> Holds(r, u));
    assert forall u :: (Inside(s, u) <==> Inside(r, u));
  }

  lemma EndPassAccounted(s: State, work: map<nat, Work>, t: nat)
    requires t in s.tasks && s.tasks[t].at.Syncing?
    requires Accounted(s, work, {})
    ensures Accounted(EndPass(s, t), work, {t})
  {
  }

  lemma Shrinks(s: set<nat>, t: nat)
    ensures |s - {t}| <= |s|
  {
    if t in s {
      assert |s - {t}| == |s| - 1;
    } else {
      assert s - {t} == s;
    }
  }

  lemma DropPendingRegistered(s: State, account: nat)
    requires Registered(s, {})
    ensures Registered(DropPending(s, account), {})
  {
  }

  lemma DropPendingExclusive(s: State, maxSlots: nat, account: nat)
    requires Exclusive(s, maxSlots, {})
    ensures Exclusive(DropPending(s, account), maxSlots, {})
  {
    var r := DropPending(s, account);
    assert forall u :: (Holds(s, u) <==> Holds(r, u));
    assert forall u :: (Inside(s, u) <==> Inside(r, u));
  }

  lemma DropPendingAccounted(s: State, work: map<nat, Work>, account: nat)
    requires Accounted(s, work, {})
    ensures Accounted(DropPending(s, account), work, {})
  {
  }

  lemma RetireRegistered(s: State, account: nat)
    requires Registered(s, {}) && account !in s.pending
    ensures Registered(Retire(s, account), {})
  {
    if account in s.running {
      var r := Retire(s, account);
      forall a | a in r.running ensures Serves(r, r.running[a], a) {
        assert Serves(s, s.running[a], a) && Serves(s, s.running[account], account);
      }
    }
  }

  lemma RetireExclusive(s: State, maxSlots: nat, account: nat)
    requires Exclusive(s, maxSlots, {})
    ensures Exclusive(Retire(s, account), maxSlots, {})
  {
    var r := Retire(s, account);
    assert forall u :: (Holds(s, u) <==> Holds(r, u));
    assert forall u :: (Inside(s, u) <==> Inside(r, u));
  }

  lemma RetireAccounted(s: State, work: map<nat, Work>, account: nat)
    requires Accounted(s, work, {})
    ensures Accounted(Retire(s, account), work, {})
  {
  }


  // ---------------------------------------------------------------- preservation of tickets

  lemma AskTickets(w: World, account: nat, request: Request)
    requires AllKept(w) && w.s.nextTask !in w.s.tasks
    ensures
      var tickets := w.tickets + [Ticket(account, request, w.now, Queued)];
      AllKept(World(Ask(w.s, account, request), tickets, EnqueueWork(w.s, w.work, account), w.now + 1))
  {
    var tickets := w.tickets + [Ticket(account, request, w.now, Queued)];
    var w' := World(Ask(w.s, account, request), tickets, EnqueueWork(w.s, w.work, account), w.now + 1);
    AskGrows(w.s, account, request);
    forall i | 0 <= i < |tickets| ensures Kept(w', tickets[i]) {
      if i < |w.tickets| {
        assert Kept(w, w.tickets[i]);
        hide Ask;
        hide Covers;
        if w.tickets[i].fate.Queued? && w.tickets[i].account == account {
          CoversTransitive(w'.s.pending[account], w.s.pending[account], w.tickets[i].request);
        }
      }
    }
  }

  /** Asking leaves every task as it was and every pending request covered, the new one included. */
  lemma AskGrows(s: State, account: nat, request: Request)
    requires s.nextTask !in s.tasks
    ensures
      var r := Ask(s, account, request);
      && (forall t :: t in s.tasks ==> t in r.tasks && r.tasks[t] == s.tasks[t])
      && account in r.pending && Covers(r.pending[account], request)
      && (forall a :: a in s.pending ==> a in r.pending && Covers(r.pending[a], s.pending[a]))
  {
    if account in s.pending {
      MergeIsJoin(s.pending[account], request, s.pending[account]);
    }
    forall a | a in s.pending ensures Covers(s.pending[a], s.pending[a]) {
    }
    hide Merge;
    hide Covers;
  }

  ghost predicate NoneCarried(w: World, t: nat) {
    forall i :: 0 <= i < |w.tickets| ==> w.tickets[i].fate != Carried(t)
  }

  lemma UnstartedCarriesNone(w: World, t: nat)
    requires AllKept(w) && t in w.s.tasks && !w.s.tasks[t].at.Syncing?
    ensures NoneCarried(w, t)
  {
    forall i | 0 <= i < |w.tickets| ensures w.tickets[i].fate != Carried(t) {
      assert Kept(w, w.tickets[i]);
    }
  }

  lemma HeadTickets(w: World, t: nat)
    requires AllKept(w) && NoneCarried(w, t) && t in w.s.tasks
    ensures AllKept(Head(w, t).(now := w.now + 1))
  {
    var w' := Head(w, t).(now := w.now + 1);
    forall i | 0 <= i < |w'.tickets| ensures Kept(w', w'.tickets[i]) {
      assert Kept(w, w.tickets[i]);
      if HasPending(w.s, t) {
      } else {
        assert w'.tickets[i] == w.tickets[i];
      }
    }
  }

  lemma ServeTickets(w: World, t: nat)
    requires AllKept(w) && Inside(w.s, t)
    ensures AllKept(Serve(w, t)) && NoneCarried(Serve(w, t), t)
  {
    var w' := Serve(w, t);
    forall i | 0 <= i < |w'.tickets|
      ensures Kept(w', w'.tickets[i]) && w'.tickets[i].fate != Carried(t)
    {
      assert Kept(w, w.tickets[i]);
    }
  }

  lemma UnwindTickets(w: World, t: nat)
    requires AllKept(w) && t in w.s.tasks && w.s.tasks[t].at.Syncing?
    ensures AllKept(World(Leave(EndPass(w.s, t), t), Refate(w.tickets, w.s.tasks[t].account, Carried(t), Dropped), w.work, w.now + 1))
  {
    var w' := World(Leave(EndPass(w.s, t), t), Refate(w.tickets, w.s.tasks[t].account, Carried(t), Dropped), w.work, w.now + 1);
    forall i | 0 <= i < |w'.tickets| ensures Kept(w', w'.tickets[i]) {
      assert Kept(w, w.tickets[i]);
    }
  }

  lemma CancelTickets(w: World, account: nat)
    requires AllKept(w)
    ensures AllKept(World(Cancel(w.s, account), Refate(w.tickets, account, Queued, Dropped), w.work, w.now + 1))
  {
    var w' := World(Cancel(w.s, account), Refate(w.tickets, account, Queued, Dropped), w.work, w.now + 1);
    forall i | 0 <= i < |w'.tickets| ensures Kept(w', w'.tickets[i]) {
      assert Kept(w, w.tickets[i]);
    }
  }

  /** Moving a task on, or the locks, loses no ticket as long as requests and pending stay. */
  lemma PhaseTickets(w: World, s': State)
    requires AllKept(w) && s'.pending == w.s.pending
    requires forall t :: t in w.s.tasks && w.s.tasks[t].at.Syncing? ==>
               && t in s'.tasks && s'.tasks[t].account == w.s.tasks[t].account && s'.tasks[t].at.Syncing?
               && s'.tasks[t].at.request == w.s.tasks[t].at.request
               && (s'.tasks[t].at.phase == w.s.tasks[t].at.phase || !s'.tasks[t].at.phase.InBody?
                   || s'.tasks[t].at.phase.began == w.now)
    ensures AllKept(w.(s := s', now := w.now + 1))
  {
    var w' := w.(s := s', now := w.now + 1);
    forall i | 0 <= i < |w'.tickets| ensures Kept(w', w'.tickets[i]) {
      assert Kept(w, w.tickets[i]);
    }
  }

  // ---------------------------------------------------------------- every step, every run

  lemma HeadKeeps(w: World, maxSlots: nat, t: nat)
    requires Registered(w.s, {}) && Exclusive(w.s, maxSlots, {t}) && Accounted(w.s, w.work, {t})
    requires AllKept(w) && NoneCarried(w, t)
    requires t in w.s.tasks && !w.s.tasks[t].cancelled && !w.s.tasks[t].at.Finished?
    ensures Invariant(Head(w, t).(now := w.now + 1), maxSlots)
  {
    hide Registered;
    hide Exclusive;
    hide Accounted;
    hide AllKept;
    HeadTickets(w, t);
    if HasPending(w.s, t) {
      TakePendingRegistered(w.s, t);
      TakePendingExclusive(w.s, maxSlots, t);
      TakePendingAccounted(w.s, w.work, t);
    } else {
      LeaveRegistered(w.s, t);
      LeaveExclusive(w.s, maxSlots, t);
      LeaveAccounted(w.s, w.work, t);
    }
  }

  lemma AskKeeps(w: World, maxSlots: nat, account: nat, request: Request)
    requires Invariant(w, maxSlots)
    ensures Invariant(Apply(w, maxSlots, Request_(account, request)), maxSlots)
  {
    hide Registered;
    hide Exclusive;
    hide Accounted;
    hide AllKept;
    var s := Enqueue(w.s, account, request);
    EnqueueRegistered(w.s, account, request);
    EnqueueExclusive(w.s, maxSlots, account, request);
    EnqueueAccounted(w.s, w.work, account, request);
    EnsureTaskRegistered(s, account);
    NextTaskIsNew(w.s, {});
    NextTaskIsNew(s, {account});
    EnsureTaskExclusive(s, maxSlots, account);
    EnsureTaskAccounted(s, EnqueueWork(w.s, w.work, account), account);
    AskTickets(w, account, request);
  }

  lemma NextTaskIsNew(s: State, owed: set<nat>)
    requires Registered(s, owed)
    ensures s.nextTask !in s.tasks
  {
  }

  /** What `Registered` says of a task that a step is about to move. */
  lemma UnstartedHoldsNothing(s: State, work: map<nat, Work>, maxSlots: nat, t: nat)
    requires t in s.tasks && !s.tasks[t].at.Syncing?
    ensures Exclusive(s, maxSlots, {}) ==> Exclusive(s, maxSlots, {t})
    ensures Accounted(s, work, {}) ==> Accounted(s, work, {t})
  {
  }

  lemma StartKeeps(w: World, maxSlots: nat, t: nat)
    requires Invariant(w, maxSlots) && Can(w, maxSlots, Start(t))
    ensures Invariant(Apply(w, maxSlots, Start(t)), maxSlots)
  {
    hide Registered;
    hide Exclusive;
    hide Accounted;
    hide AllKept;
    UnstartedCarriesNone(w, t);
    UnstartedHoldsNothing(w.s, w.work, maxSlots, t);
    HeadKeeps(w, maxSlots, t);
  }

  lemma EndPassThenHeadKeeps(w: World, maxSlots: nat, t: nat)
    requires Invariant(w, maxSlots) && Inside(w.s, t)
    ensures Invariant(Head(Serve(w, t), t).(now := w.now + 1), maxSlots)
  {
    hide Registered;
    hide Exclusive;
    hide Accounted;
    hide AllKept;
    hide NoneCarried;
    EndPassRegistered(w.s, t);
    EndPassExclusive(w.s, maxSlots, t);
    EndPassAccounted(w.s, w.work, t);
    ServeTickets(w, t);
    HeadKeeps(Serve(w, t), maxSlots, t);
  }

  lemma UnwindKeeps(w: World, maxSlots: nat, t: nat)
    requires Invariant(w, maxSlots) && Can(w, maxSlots, Unwind(t))
    ensures Invariant(Apply(w, maxSlots, Unwind(t)), maxSlots)
  {
    hide Registered;
    hide Exclusive;
    hide Accounted;
    hide AllKept;
    RetiredIsNotRegistered(w.s, t);
    if w.s.tasks[t].at.Unstarted? {
      AbandonKeeps(w.s, w.work, maxSlots, t);
      PhaseTickets(w, Apply(w, maxSlots, Unwind(t)).s);
    } else {
      var s := EndPass(w.s, t);
      EndPassRegistered(w.s, t);
      EndPassExclusive(w.s, maxSlots, t);
      EndPassAccounted(w.s, w.work, t);
      RetiredLeavesQuietly(s, t);
      LeaveExclusive(s, maxSlots, t);
      LeaveAccounted(s, w.work, t);
      UnwindTickets(w, t);
    }
  }

  /** An old generation's cleanup never removes its successor: a task being cancelled is registered
      nowhere, so its last act leaves `running` as it is. */
  lemma RetiredIsNotRegistered(s: State, t: nat)
    requires Registered(s, {}) && t in s.tasks && s.tasks[t].cancelled
    ensures t in s.retired && forall a :: a in s.running ==> s.running[a] != t
    ensures Leave(s, t).running == s.running
    ensures s.tasks[t].at.Syncing? ==> Leave(EndPass(s, t), t).running == s.running
  {
    forall a | a in s.running ensures s.running[a] != t {
      assert Serves(s, s.running[a], a);
    }
  }

  lemma RetiredLeavesQuietly(s: State, t: nat)
    requires Registered(s, {}) && t in s.tasks && forall a :: a in s.running ==> s.running[a] != t
    ensures Registered(Leave(s, t), {})
  {
  }

  /** The task's `finally` never ran: it is finished and nothing else changed. */
  function Abandon(s: State, t: nat): State
    requires t in s.tasks
  {
    s.(tasks := s.tasks[t := s.tasks[t].(at := Finished, cancelled := false)])
  }

  lemma AbandonRegistered(s: State, t: nat)
    requires t in s.tasks && (forall a :: a in s.running ==> s.running[a] != t) && Registered(s, {})
    ensures Registered(Abandon(s, t), {})
  {
    var r := Abandon(s, t);
    assert forall a :: a in s.running ==> (Serves(r, s.running[a], a) <==> Serves(s, s.running[a], a));
  }

  lemma AbandonExclusive(s: State, maxSlots: nat, t: nat)
    requires t in s.tasks && s.tasks[t].at.Unstarted? && Exclusive(s, maxSlots, {})
    ensures Exclusive(Abandon(s, t), maxSlots, {})
  {
    var r := Abandon(s, t);
    assert forall u :: Holds(s, u) <==> Holds(r, u);
    assert forall u :: Inside(s, u) <==> Inside(r, u);
    assert forall u :: Holds(s, u) ==> r.tasks[u] == s.tasks[u];
    hide Holds;
    hide Inside;
  }

  lemma AbandonAccounted(s: State, work: map<nat, Work>, t: nat)
    requires t in s.tasks && s.tasks[t].at.Unstarted? && Accounted(s, work, {})
    ensures Accounted(Abandon(s, t), work, {})
  {
  }

  lemma AbandonKeeps(s: State, work: map<nat, Work>, maxSlots: nat, t: nat)
    requires t in s.tasks && s.tasks[t].at.Unstarted? && forall a :: a in s.running ==> s.running[a] != t
    requires Registered(s, {}) && Exclusive(s, maxSlots, {}) && Accounted(s, work, {})
    ensures Registered(Abandon(s, t), {}) && Exclusive(Abandon(s, t), maxSlots, {}) && Accounted(Abandon(s, t), work, {})
  {
    AbandonRegistered(s, t);
    AbandonExclusive(s, maxSlots, t);
    AbandonAccounted(s, work, t);
    hide *;
  }

  lemma CancelKeeps(w: World, maxSlots: nat, account: nat)
    requires Invariant(w, maxSlots)
    ensures Invariant(Apply(w, maxSlots, CancelAccount(account)), maxSlots)
  {
    hide Registered;
    hide Exclusive;
    hide Accounted;
    hide AllKept;
    var s := DropPending(w.s, account);
    DropPendingRegistered(w.s, account);
    DropPendingExclusive(w.s, maxSlots, account);
    DropPendingAccounted(w.s, w.work, account);
    RetireRegistered(s, account);
    RetireExclusive(s, maxSlots, account);
    RetireAccounted(s, w.work, account);
    CancelTickets(w, account);
  }

  /** Only locks, slots and the phases of passes differ. */
  ghost predicate SameButPhases(s: State, r: State) {
    && r == s.(tasks := r.tasks, lock := r.lock, slots := r.slots)
    && r.tasks.Keys == s.tasks.Keys
    && forall t :: t in s.tasks ==>
         r.tasks[t] == s.tasks[t]
         || (s.tasks[t].at.Syncing? && r.tasks[t].at.Syncing?
             && r.tasks[t] == s.tasks[t].(at := s.tasks[t].at.(phase := r.tasks[t].at.phase)))
  }

  lemma PhasesKeep(s: State, r: State, work: map<nat, Work>)
    requires SameButPhases(s, r)
    ensures Registered(s, {}) ==> Registered(r, {})
    ensures Accounted(s, work, {}) ==> Accounted(r, work, {})
  {
    assert Registered(s, {}) ==> Registered(r, {}) by {
      hide Accounted;
    }
    assert Accounted(s, work, {}) ==> Accounted(r, work, {}) by {
      hide Registered;
    }
  }

  lemma TakeLockExclusive(w: World, maxSlots: nat, t: nat)
    requires Exclusive(w.s, maxSlots, {}) && Can(w, maxSlots, TakeLock(t))
    ensures Exclusive(Apply(w, maxSlots, TakeLock(t)).s, maxSlots, {})
  {
    var s, r := w.s, Apply(w, maxSlots, TakeLock(t)).s;
    assert forall u :: u != t ==> (Holds(s, u) <==> Holds(r, u));
    assert forall u :: Inside(s, u) <==> Inside(r, u);
  }

  lemma TakeSlotExclusive(w: World, maxSlots: nat, t: nat)
    requires Exclusive(w.s, maxSlots, {}) && Can(w, maxSlots, TakeSlot(t))
    ensures Exclusive(Apply(w, maxSlots, TakeSlot(t)).s, maxSlots, {})
  {
    var s, r := w.s, Apply(w, maxSlots, TakeSlot(t)).s;
    assert forall u :: Holds(s, u) <==> Holds(r, u);
    assert forall u :: u != t ==> (Inside(s, u) <==> Inside(r, u));
  }

  lemma OutsideExclusive(s: State, r: State, maxSlots: nat, account: nat)
    requires Exclusive(s, maxSlots, {}) && r == s.(lock := r.lock)
    requires account in s.lock ==> s.lock[account].Elsewhere?
    requires r.lock == s.lock - {account} || r.lock == s.lock[account := Elsewhere]
    ensures Exclusive(r, maxSlots, {})
  {
    assert forall u :: Holds(s, u) <==> Holds(r, u);
    assert forall u :: Inside(s, u) <==> Inside(r, u);
  }

  lemma ReapKeeps(s: State, t: nat, work: map<nat, Work>, maxSlots: nat)
    requires t in s.tasks && s.tasks[t].at.Finished?
    ensures Registered(s, {}) ==> Registered(s.(retired := s.retired - {t}), {})
    ensures Exclusive(s, maxSlots, {}) ==> Exclusive(s.(retired := s.retired - {t}), maxSlots, {})
    ensures Accounted(s, work, {}) ==> Accounted(s.(retired := s.retired - {t}), work, {})
  {
    var r := s.(retired := s.retired - {t});
    assert Registered(s, {}) ==> Registered(r, {}) by {
      hide Accounted;
      hide Exclusive;
    }
    assert Exclusive(s, maxSlots, {}) ==> Exclusive(r, maxSlots, {}) by {
      hide Registered;
      hide Accounted;
      assert forall u :: Holds(s, u) <==> Holds(r, u);
      assert forall u :: Inside(s, u) <==> Inside(r, u);
    }
  }

  lemma LockStepsKeep(w: World, maxSlots: nat, step: Step)
    requires Invariant(w, maxSlots) && Can(w, maxSlots, step)
    requires step.TakeLock? || step.TakeSlot? || step.Reap? || step.LockElsewhere? || step.UnlockElsewhere?
    ensures Invariant(Apply(w, maxSlots, step), maxSlots)
  {
    hide Registered;
    hide Exclusive;
    hide Accounted;
    hide AllKept;
    var r := Apply(w, maxSlots, step).s;
    PhaseTickets(w, r);
    match step
    case TakeLock(t) =>
      TakeLockExclusive(w, maxSlots, t);
      PhasesKeep(w.s, r, w.work);
    case TakeSlot(t) =>
      TakeSlotExclusive(w, maxSlots, t);
      PhasesKeep(w.s, r, w.work);
    case Reap(t) =>
      ReapKeeps(w.s, t, w.work, maxSlots);
    case LockElsewhere(a) =>
      OutsideExclusive(w.s, r, maxSlots, a);
      PhasesKeep(w.s, r, w.work);
    case UnlockElsewhere(a) =>
      OutsideExclusive(w.s, r, maxSlots, a);
      PhasesKeep(w.s, r, w.work);
  }

  lemma StepKeeps(w: World, maxSlots: nat, step: Step)
    requires Invariant(w, maxSlots) && Can(w, maxSlots, step)
    ensures Invariant(Apply(w, maxSlots, step), maxSlots)
  {
    hide Registered;
    hide Exclusive;
    hide Accounted;
    hide AllKept;
    match step
    case Request_(a, r) => AskKeeps(w, maxSlots, a, r);
    case Start(t) => StartKeeps(w, maxSlots, t);
    case Return(t) => EndPassThenHeadKeeps(w, maxSlots, t);
    case Swallow(t) => EndPassThenHeadKeeps(w, maxSlots, t);
    case Unwind(t) => UnwindKeeps(w, maxSlots, t);
    case CancelAccount(a) => CancelKeeps(w, maxSlots, a);
    case _ => LockStepsKeep(w, maxSlots, step);
  }

  /** Over every run from an idle process, at every await point: the invariant. */
  lemma {:induction false} RunKeeps(from: World, maxSlots: nat, steps: seq<Step>, to: World)
    requires Invariant(from, maxSlots) && Reaches(from, maxSlots, steps, to)
    ensures Invariant(to, maxSlots)
    decreases |steps|
  {
    hide Invariant;
    if steps != [] {
      StepKeeps(from, maxSlots, steps[0]);
      RunKeeps(Apply(from, maxSlots, steps[0]), maxSlots, steps[1..], to);
    }
  }
}
