/** From a change on the server to the cache of one inbox folder: the mailbox, the IDLE watcher, the coalescer
    and the passes it runs over the folder's mirror, interleaved in every possible way. */
module EndToEnd {
  import opened Prelude
  import opened Coalescer
  import opened MailServer
  import opened Mirror
  import opened MirrorTheorems
  import opened MirrorRuns
  import opened MirrorFreshness

  /** One inbox folder of one account, and its mailbox on the server at every instant. */
  datatype Site = Site(maxSlots: nat, account: nat, folder: nat, trace: Trace)

  /** The mailbox as it was found counts as the change at instant 0. */
  ghost predicate Changed(trace: Trace, c: nat) {
    c == 0 || trace(c) != trace(c - 1)
  }

  /** Where the folder's watcher stands. `heard`: responses were read and a request will follow. */
  datatype Watcher =
    | Stopped                   // no watcher task, or one that is going
    | Polling                   // the server has no IDLE: asleep until the next attempt
    | Reconnecting              // connecting or backing off
    | Subscribed                // IDLE accepted, the catch-up request not yet made
    | Checking                  // at the loop's head, in or before idle_check
    | Ending(heard: bool)       // responses read, or renewal due: DONE not yet sent
    | Silent(heard: bool)       // DONE completed, the next IDLE not yet accepted
    | Resubscribed(heard: bool) // IDLE accepted again, not yet resumed
  {
    /** A request for the folder follows from here, or from the subscription under way. */
    predicate WillRequest() {
      Reconnecting? || Subscribed? || ((Ending? || Silent? || Resubscribed?) && heard)
    }

    /** The server pushes changes as they happen. */
    predicate Listening() {
      Subscribed? || Checking? || Ending? || Resubscribed?
    }

    /** Neither pushed, nor certain to be asked for: only the supervisor's interval check is left. */
    predicate Deaf() {
      Stopped? || Polling? || (Silent? && !heard)
    }
  }

  /** The watcher state shown to the user. */
  datatype Shown = Connecting | Reconciling | Connected

  /** `now` is the mailbox's latest instant. `db` is the folder as last committed, at instant `written`; `synced`
      the instant the last successful pass over it began. `entered` is when each task's pass entered its body,
      `done` the tasks whose pass is through with the folder. `owed` is left to the interval check. `astray`: a watcher
      was stopped while it was connecting, and may have gone on beside its replacement. */
  datatype Mail = Mail(
    w: World,
    now: nat,
    db: FolderState, written: nat, synced: Option<nat>,
    watcher: Watcher, since: nat, unread: set<nat>, owed: set<nat>,
    entered: map<nat, nat>, done: set<nat>,
    shown: Shown, astray: bool)

  const QUIET := Mail(BOOT, 0, EMPTY, 0, None, Reconnecting, 0, {}, {}, map[], {}, Connecting, false)

  datatype Move =
    | Elapse                               // an instant passes; the mailbox may change
    | Coalesce(step: Step)                 // any step of the coalescer
    | Work(task: nat, at: nat -> nat, fault: Interrupt) // a pass is through with the folder
    | Launch | Halt                        // the supervisor starts or stops the watcher
    | NoIdle | Retry                       // the server has no IDLE; the long sleep ends
    | Subscribe
    | CatchUp                              // IDLE is on: ask for the folder, enter the loop
    | Read                                 // idle_check returns responses
    | RenewalDue                           // idle_check returned nothing and the renewal time has come
    | EndIdle                              // idle_done, its own responses discarded
    | Reidle
    | Resume                               // after re-IDLE: ask for the folder if something was heard
    | Disconnect                           // BYE or failure: back off and reconnect
    | IntervalCheck                        // the supervisor asks for an overdue inbox folder
    | StrayCatchUp                         // a watcher gone astray has IDLE on, and asks for the folder
    | StrayFails                           // it connects, fails or falls back to polling

  function Wants(folder: nat): Request {
    Request(Only({folder}), false)
  }

  function UpTo(n: nat): (r: set<nat>)
    ensures forall c: nat :: c in r <==> c <= n
  {
    if n == 0 then {0} else UpTo(n - 1) + {n}
  }

  ghost predicate CarriesFolder(s: State, t: nat, site: Site) {
    t in s.tasks && s.tasks[t].account == site.account && s.tasks[t].at.Syncing?
    && Covers(s.tasks[t].at.request, Wants(site.folder))
  }

  ghost predicate AtWork(s: State, t: nat, site: Site) {
    t in s.tasks && s.tasks[t].account == site.account && s.tasks[t].at.Syncing? && s.tasks[t].at.phase.InBody?
  }

  /** A pass over the folder whose awaits fall on this schedule. */
  ghost function FolderPass(m: Mail, site: Site, at: nat -> nat, fault: Interrupt): Outcome {
    Mirror.Pass(m.db, Sampled(site.trace, at), 0, fault)
  }

  /** The pass of `t`, in its body, worked on the folder with its awaits on this schedule and is through with it now.
      A pass whose cancellation is on its way does not complete. */
  ghost predicate Works(m: Mail, site: Site, t: nat, at: nat -> nat, fault: Interrupt) {
    && CarriesFolder(m.w.s, t, site) && AtWork(m.w.s, t, site)
    && t !in m.done && t in m.entered && Forward(at) && m.entered[t] <= at(0)
    && at(FolderPass(m, site, at, fault).time) == m.now
    && (m.w.s.tasks[t].cancelled ==> !FolderPass(m, site, at, fault).completed)
  }

  ghost predicate CanMove(m: Mail, site: Site, move: Move) {
    match move
    case Elapse => true
    case Coalesce(step) => Can(m.w, site.maxSlots, step)
    case Work(t, at, fault) => Works(m, site, t, at, fault)
    case Launch => m.watcher.Stopped?
    case Halt => true
    case NoIdle => m.watcher.Reconnecting?
    case Retry => m.watcher.Polling?
    case Subscribe => m.watcher.Reconnecting?
    case CatchUp => m.watcher.Subscribed?
    case Read => m.watcher.Checking? && m.unread != {}
    case RenewalDue => m.watcher.Checking?
    case EndIdle => m.watcher.Ending?
    case Reidle => m.watcher.Silent?
    case Resume => m.watcher.Resubscribed?
    case Disconnect => !m.watcher.Stopped? && !m.watcher.Polling?
    case IntervalCheck => true
    case StrayCatchUp => m.astray
    case StrayFails => m.astray
  }

  ghost function AskFolder(m: Mail, site: Site): Mail {
    m.(w := Apply(m.w, site.maxSlots, Request_(site.account, Wants(site.folder))))
  }

  /** The watcher stops listening for good or for long: everything so far is left to the interval check. */
  ghost function Deafen(m: Mail, watcher: Watcher): Mail {
    m.(watcher := watcher, unread := {}, owed := m.owed + UpTo(m.now), shown := Connecting,
       astray := m.astray || (watcher.Stopped? && m.watcher.Reconnecting?))
  }

  ghost function ApplyMove(m: Mail, site: Site, move: Move): Mail
    requires CanMove(m, site, move)
  {
    match move
    case Elapse => Tick(m, site)
    case Coalesce(step) => ApplyCoalesce(m, site, step)
    case Work(t, at, fault) => DoWork(m, site, t, at, fault)
    case Launch => m.(watcher := Reconnecting)
    case Halt => Deafen(m, Stopped)
    case NoIdle => Deafen(m, Polling)
    case Retry => m.(watcher := Reconnecting)
    case Subscribe => m.(watcher := Subscribed, since := m.now, unread := {})
    case CatchUp => AskFolder(m, site).(watcher := Checking, shown := Reconciling)
    case Read => m.(watcher := Ending(true), unread := {})
    case RenewalDue => m.(watcher := Ending(false))
    case EndIdle =>
      m.(watcher := Silent(m.watcher.heard), unread := {},
         owed := if m.watcher.heard then m.owed else m.owed + m.unread)
    case Reidle => m.(watcher := Resubscribed(m.watcher.heard))
    case Resume =>
      if m.watcher.heard then AskFolder(m, site).(watcher := Checking) else m.(watcher := Checking)
    case Disconnect => m.(watcher := Reconnecting, unread := {}, shown := Connecting)
    case IntervalCheck => AskFolder(m, site).(owed := {})
    case StrayCatchUp => AskFolder(m, site).(shown := Reconciling)
    case StrayFails => m.(shown := Connecting)
  }

  ghost function Tick(m: Mail, site: Site): Mail {
    var c := m.now + 1;
    if Changed(site.trace, c) then
      m.(now := c,
         unread := if m.watcher.Listening() then m.unread + {c} else m.unread,
         owed := if m.watcher.Deaf() then m.owed + {c} else m.owed)
    else m.(now := c)
  }

  /** The folder's pass takes effect. A successful one shows a reconciling folder as connected; one that fails
      leaves what it was to read to the interval check. */
  ghost function DoWork(m: Mail, site: Site, t: nat, at: nat -> nat, fault: Interrupt): Mail
    requires Works(m, site, t, at, fault)
  {
    var p := FolderPass(m, site, at, fault);
    var m' := m.(db := p.db, written := m.now, done := m.done + {t});
    if p.completed then m'.(synced := Some(at(0)), shown := if m.shown.Reconciling? then Connected else m.shown)
    else m'.(owed := m.owed + UpTo(m.entered[t]))
  }

  /** A coalescer step. A pass that ends without having got to the folder leaves what it was to read to the interval
      check. Unscheduling an account stops its watchers before it cancels its passes. */
  ghost function ApplyCoalesce(m: Mail, site: Site, step: Step): Mail
    requires Can(m.w, site.maxSlots, step)
  {
    var m' := m.(w := Apply(m.w, site.maxSlots, step));
    match step
    case TakeSlot(t) => m'.(entered := m.entered[t := m.now], done := m.done - {t})
    case Return(t) => m'.(owed := m.owed + Unread(m, site, t))
    case Swallow(t) => m'.(owed := m.owed + Unread(m, site, t))
    case CancelAccount(a) => if a == site.account then Deafen(m', Stopped) else m'
    case _ => m'
  }

  /** What the ending pass of `t` was to read of the folder and did not get to. */
  ghost function Unread(m: Mail, site: Site, t: nat): set<nat> {
    if CarriesFolder(m.w.s, t, site) && t in m.entered && t !in m.done then UpTo(m.entered[t]) else {}
  }

  ghost predicate Moves(from: Mail, site: Site, moves: seq<Move>, to: Mail)
    decreases |moves|
  {
    if moves == [] then to == from
    else CanMove(from, site, moves[0]) && Moves(ApplyMove(from, site, moves[0]), site, moves[1..], to)
  }

  // ---------------------------------------------------------------- where a change can be

  /** The last successful pass began no earlier than the change. */
  predicate Reflected(m: Mail, c: nat) {
    m.synced.Some? && c <= m.synced.value
  }

  ghost predicate PendingCovers(s: State, site: Site) {
    site.account in s.pending && Covers(s.pending[site.account], Wants(site.folder))
  }

  /** A pass that was not cancelled covers the folder and has yet to begin, or began after the change and is not
      through with the folder. */
  ghost predicate PassCovers(m: Mail, site: Site, c: nat, t: nat) {
    && CarriesFolder(m.w.s, t, site)
    && !m.w.s.tasks[t].cancelled
    && (AtWork(m.w.s, t, site) ==> t !in m.done && t in m.entered && c <= m.entered[t])
  }

  ghost predicate WorkOutstanding(m: Mail, site: Site, c: nat) {
    || PendingCovers(m.w.s, site)
    || (exists t :: PassCovers(m, site, c, t))
  }

  ghost predicate Traced(m: Mail, site: Site, c: nat) {
    || Reflected(m, c)
    || c in m.unread
    || c in m.owed
    || m.watcher.WillRequest()
    || WorkOutstanding(m, site, c)
  }

  ghost predicate NothingLost(m: Mail, site: Site) {
    forall c: nat :: c <= m.now && Changed(site.trace, c) ==> Traced(m, site, c)
  }

  ghost predicate ShownMeansSubscribed(m: Mail) {
    !m.shown.Connecting? && !m.astray ==>
      !m.watcher.Stopped? && !m.watcher.Polling? && !m.watcher.Reconnecting? && !m.watcher.Subscribed?
  }

  /** Passes write one after the other: the one in its body entered it after everything written before. */
  ghost predicate Timely(m: Mail, site: Site) {
    && m.written <= m.now && m.since <= m.now
    && (m.synced.Some? ==> m.synced.value <= m.written)
    && (forall t :: t in m.entered ==> m.entered[t] <= m.now)
    && forall t :: AtWork(m.w.s, t, site) ==> t in m.entered && (t !in m.done ==> m.written <= m.entered[t])
  }

  /** What is committed is sound, and since the last successful pass began, fresh. */
  ghost predicate CacheSound(m: Mail, site: Site) {
    && Sound(m.db, site.trace(m.written))
    && (m.synced.Some? ==> Fresh(m.db, site.trace, m.synced.value, m.written))
  }

  ghost predicate MailInvariant(m: Mail, site: Site) {
    && Invariant(m.w, site.maxSlots)
    && NothingLost(m, site) && ShownMeansSubscribed(m) && Timely(m, site) && CacheSound(m, site)
  }

  // ---------------------------------------------------------------- the order of writes

  lemma OneBody(s: State, maxSlots: nat, site: Site, t: nat, u: nat)
    requires Exclusive(s, maxSlots, {}) && AtWork(s, t, site) && AtWork(s, u, site)
    ensures t == u
  {
    assert Holds(s, t) && Holds(s, u);
  }

  /** A coalescer step other than taking a slot lets no pass into its body. */
  lemma BodiesAreEntered(w: World, maxSlots: nat, site: Site, step: Step, u: nat)
    requires Can(w, maxSlots, step) && !step.TakeSlot? && w.s.nextTask !in w.s.tasks
    requires AtWork(Apply(w, maxSlots, step).s, u, site)
    ensures AtWork(w.s, u, site)
  {
    match step
    case Start(t) => HeadEntersNone(w, t, site, u);
    case Return(t) => HeadEntersNone(Serve(w, t), t, site, u);
    case Swallow(t) => HeadEntersNone(Serve(w, t), t, site, u);
    case Unwind(t) => UnwindEntersNone(w, maxSlots, site, t, u);
    case CancelAccount(a) => CancelEntersNone(w.s, a, site, u);
    case Request_(a, r) => AskEntersNone(w.s, a, r, site, u);
    case TakeLock(_) =>
    case Reap(_) =>
    case LockElsewhere(_) =>
    case UnlockElsewhere(_) =>
  }

  lemma UnwindEntersNone(w: World, maxSlots: nat, site: Site, t: nat, u: nat)
    requires Can(w, maxSlots, Unwind(t)) && AtWork(Apply(w, maxSlots, Unwind(t)).s, u, site)
    ensures AtWork(w.s, u, site)
  {
  }

  lemma CancelEntersNone(s: State, a: nat, site: Site, u: nat)
    requires AtWork(Cancel(s, a), u, site)
    ensures AtWork(s, u, site)
  {
  }

  lemma AskEntersNone(s: State, a: nat, r: Request, site: Site, u: nat)
    requires AtWork(Ask(s, a, r), u, site)
    ensures AtWork(s, u, site)
  {
  }

  lemma HeadEntersNone(w: World, t: nat, site: Site, u: nat)
    requires t in w.s.tasks && AtWork(Head(w, t).s, u, site)
    ensures AtWork(w.s, u, site)
  {
  }

  lemma BodyIsTimely(m: Mail, site: Site, step: Step, u: nat)
    requires Timely(m, site) && m.w.s.nextTask !in m.w.s.tasks && Can(m.w, site.maxSlots, step)
    requires AtWork(ApplyCoalesce(m, site, step).w.s, u, site)
    ensures
      var m' := ApplyCoalesce(m, site, step);
      u in m'.entered && (u !in m'.done ==> m'.written <= m'.entered[u])
  {
    if step.TakeSlot? {
      assert u == step.task || AtWork(m.w.s, u, site);
    } else {
      BodiesAreEntered(m.w, site.maxSlots, site, step, u);
    }
    hide Apply;
    hide Can;
    hide Unread;
  }

  lemma CoalesceIsTimely(m: Mail, site: Site, step: Step)
    requires Timely(m, site) && Registered(m.w.s, {}) && Can(m.w, site.maxSlots, step)
    ensures Timely(ApplyCoalesce(m, site, step), site)
  {
    RegisteredKeys(m.w.s);
    hide Registered;
    hide Apply;
    hide Can;
    hide Unread;
    var m' := ApplyCoalesce(m, site, step);
    forall u | AtWork(m'.w.s, u, site)
      ensures u in m'.entered && (u !in m'.done ==> m'.written <= m'.entered[u])
    {
      BodyIsTimely(m, site, step, u);
    }
    hide AtWork;
  }

  lemma WorkIsTimely(m: Mail, site: Site, t: nat, at: nat -> nat, fault: Interrupt)
    requires Timely(m, site) && Exclusive(m.w.s, site.maxSlots, {}) && Works(m, site, t, at, fault)
    ensures Timely(DoWork(m, site, t, at, fault), site)
  {
    hide FolderPass;
    var m' := DoWork(m, site, t, at, fault);
    forall u | AtWork(m'.w.s, u, site)
      ensures u in m'.entered && (u !in m'.done ==> m'.written <= m'.entered[u])
    {
      OneBody(m.w.s, site.maxSlots, site, t, u);
    }
  }

  // ---------------------------------------------------------------- the cache

  lemma PassStaysSound(db: FolderState, trace: Trace, at: nat -> nat, written: nat, fault: Interrupt)
    requires LegalTrace(trace) && Forward(at) && written <= at(0) && Sound(db, trace(written))
    ensures
      var p := Mirror.Pass(db, Sampled(trace, at), 0, fault);
      at(0) <= at(p.time) && Sound(db, trace(at(0))) && Sound(p.db, trace(at(p.time)))
  {
    hide Mirror.Pass;
    hide Sound;
    hide Evolves;
    var sub := Sampled(trace, at);
    SampledIsLegal(trace, at);
    assert Evolves(trace(written), trace(at(0))) && sub(0) == trace(at(0));
    SoundSurvivesServerChange(db, trace(written), trace(at(0)));
    PassSound(db, sub, 0, fault);
  }

  /** However far a pass in its body got: what it has committed is sound and as fresh as before. */
  lemma PassKeepsCache(m: Mail, site: Site, t: nat, at: nat -> nat, fault: Interrupt)
    requires LegalTrace(site.trace) && Timely(m, site) && CacheSound(m, site)
    requires AtWork(m.w.s, t, site) && t !in m.done && Forward(at) && m.entered[t] <= at(0)
    ensures m.written <= at(0) <= at(FolderPass(m, site, at, fault).time) && Sound(m.db, site.trace(at(0)))
    ensures Sound(FolderPass(m, site, at, fault).db, site.trace(at(FolderPass(m, site, at, fault).time)))
    ensures m.synced.Some? ==>
      Fresh(FolderPass(m, site, at, fault).db, site.trace, m.synced.value, at(FolderPass(m, site, at, fault).time))
  {
    hide Mirror.Pass;
    hide Sound;
    hide Fresh;
    hide LegalTrace;
    assert m.written <= m.entered[t];
    PassStaysSound(m.db, site.trace, at, m.written, fault);
    if m.synced.Some? {
      PassKeepsFresh(m.db, site.trace, at, m.synced.value, m.written, 0, fault);
    }
  }

  lemma WorkKeepsCache(m: Mail, site: Site, t: nat, at: nat -> nat, fault: Interrupt)
    requires LegalTrace(site.trace) && Timely(m, site) && CacheSound(m, site) && Works(m, site, t, at, fault)
    ensures CacheSound(DoWork(m, site, t, at, fault), site)
  {
    PassKeepsCache(m, site, t, at, fault);
    if FolderPass(m, site, at, fault).completed {
      CompletedIsFreshOnTheClock(m, site, at, fault);
    }
    hide FolderPass;
    hide Sound;
    hide Fresh;
    hide Evolves;
  }

  lemma CompletedIsFreshOnTheClock(m: Mail, site: Site, at: nat -> nat, fault: Interrupt)
    requires LegalTrace(site.trace) && Forward(at) && Sound(m.db, site.trace(at(0))) && FolderPass(m, site, at, fault).completed
    ensures Fresh(FolderPass(m, site, at, fault).db, site.trace, at(0), at(FolderPass(m, site, at, fault).time))
  {
    hide Mirror.Pass;
    hide Sound;
    hide Fresh;
    var sub := Sampled(site.trace, at);
    SampledIsLegal(site.trace, at);
    assert sub(0) == site.trace(at(0));
    CompletedPassIsFresh(m.db, sub, 0, fault);
    FreshOnTheClock(FolderPass(m, site, at, fault).db, site.trace, at, 0, FolderPass(m, site, at, fault).time);
  }

  // ---------------------------------------------------------------- nothing is lost

  /** Asking for the folder accounts for every change so far. */
  lemma AskFolderTraces(m: Mail, site: Site)
    requires Invariant(m.w, site.maxSlots)
    ensures Invariant(AskFolder(m, site).w, site.maxSlots) && PendingCovers(AskFolder(m, site).w.s, site)
  {
    hide Invariant;
    StepKeeps(m.w, site.maxSlots, Request_(site.account, Wants(site.folder)));
    var p := m.w.s.pending;
    if site.account in p {
      MergeIsJoin(p[site.account], Wants(site.folder), p[site.account]);
    }
  }

  ghost predicate WaitsWithFolder(s: State, t: nat, site: Site) {
    CarriesFolder(s, t, site) && !s.tasks[t].cancelled && !s.tasks[t].at.phase.InBody?
  }

  /** A move under which every way of accounting for work survives. */
  ghost predicate KeepsWork(m: Mail, m': Mail, site: Site) {
    && (PendingCovers(m.w.s, site) ==>
          PendingCovers(m'.w.s, site) || exists t :: WaitsWithFolder(m'.w.s, t, site))
    && forall t, c: nat :: c <= m.now && PassCovers(m, site, c, t) ==>
         PassCovers(m', site, c, t) || Reflected(m', c) || c in m'.owed
  }

  /** Nothing the watcher holds is let go of. */
  ghost predicate KeepsWatch(m: Mail, m': Mail) {
    && m.now == m'.now
    && (m.synced.Some? ==> m'.synced.Some? && m.synced.value <= m'.synced.value)
    && m.unread <= m'.unread + m'.owed && m.owed <= m'.owed
    && (m.watcher.WillRequest() ==> m'.watcher.WillRequest())
  }

  lemma WaitingPassCovers(m: Mail, site: Site, c: nat, t: nat)
    requires WaitsWithFolder(m.w.s, t, site)
    ensures PassCovers(m, site, c, t)
  {
  }

  lemma KeptWorkTraces(m: Mail, m': Mail, site: Site)
    requires NothingLost(m, site) && KeepsWork(m, m', site) && KeepsWatch(m, m')
    ensures NothingLost(m', site)
  {
    hide CarriesFolder;
    hide WaitsWithFolder;
    hide Changed;
    forall c: nat | c <= m'.now && Changed(site.trace, c) ensures Traced(m', site, c) {
      assert Traced(m, site, c);
      if WorkOutstanding(m, site, c) {
        if PendingCovers(m.w.s, site) {
          if !PendingCovers(m'.w.s, site) {
            var t :| WaitsWithFolder(m'.w.s, t, site);
            WaitingPassCovers(m', site, c, t);
          }
        } else {
          var t :| PassCovers(m, site, c, t);
          assert PassCovers(m', site, c, t) || Reflected(m', c) || c in m'.owed;
        }
      }
    }
  }

  lemma HeadKeepsCarriers(w: World, t: nat, site: Site, u: nat)
    requires t in w.s.tasks && u != t && CarriesFolder(w.s, u, site)
    ensures CarriesFolder(Head(w, t).s, u, site)
    ensures Head(w, t).s.tasks[u] == w.s.tasks[u]
  {
  }

  lemma HeadHandsOver(w: World, t: nat, site: Site)
    requires t in w.s.tasks && !w.s.tasks[t].cancelled && PendingCovers(w.s, site)
    requires w.s.pending.Keys == w.s.pendingActivity.Keys
    ensures PendingCovers(Head(w, t).s, site) || WaitsWithFolder(Head(w, t).s, t, site)
  {
  }

  lemma RegisteredKeys(s: State)
    requires Registered(s, {})
    ensures s.pending.Keys == s.pendingActivity.Keys && s.nextTask !in s.tasks
    ensures forall a :: a in s.running ==> Serves(s, s.running[a], a)
  {
  }

  lemma PendingSurvives(w: World, site: Site, step: Step)
    requires w.s.pending.Keys == w.s.pendingActivity.Keys
    requires Can(w, site.maxSlots, step) && step != CancelAccount(site.account) && PendingCovers(w.s, site)
    ensures
      var r := Apply(w, site.maxSlots, step).s;
      PendingCovers(r, site) || exists t :: WaitsWithFolder(r, t, site)
  {
    match step
    case Start(t) => HeadHandsOver(w, t, site);
    case Return(t) => HeadHandsOver(Serve(w, t), t, site);
    case Swallow(t) => HeadHandsOver(Serve(w, t), t, site);
    case Request_(a, r) => RequestKeepsPending(w, site, a, r);
    case _ =>
  }

  lemma RequestKeepsPending(w: World, site: Site, a: nat, r: Request)
    requires PendingCovers(w.s, site)
    ensures PendingCovers(Apply(w, site.maxSlots, Request_(a, r)).s, site)
  {
    if a == site.account {
      var p := w.s.pending[a];
      MergeIsJoin(p, r, p);
      CoversTransitive(Merge(p, r), p, Wants(site.folder));
      hide Covers;
      hide Merge;
    }
  }

  /** A coalescer step leaves a covering pass as it was, or it was that pass's end. */
  lemma PassSurvives(w: World, site: Site, step: Step, t: nat)
    requires w.s.nextTask !in w.s.tasks
    requires forall a :: a in w.s.running ==> Serves(w.s, w.s.running[a], a)
    requires Can(w, site.maxSlots, step) && step != CancelAccount(site.account)
    requires CarriesFolder(w.s, t, site) && !w.s.tasks[t].cancelled && step != Return(t)
    ensures
      var r := Apply(w, site.maxSlots, step).s;
      && CarriesFolder(r, t, site) && !r.tasks[t].cancelled
      && (AtWork(r, t, site) <==> AtWork(w.s, t, site) || step == TakeSlot(t))
  {
    match step
    case Start(u) => HeadKeepsCarriers(w, u, site, t);
    case Return(u) => PassSurvivesServing(w, site, u, t);
    case Swallow(u) => PassSurvivesServing(w, site, u, t);
    case CancelAccount(a) => PassSurvivesCancel(w.s, a, site, t);
    case Unwind(u) => PassSurvivesUnwinding(w, site, u, t);
    case Request_(a, r) => PassSurvivesAsking(w.s, a, r, t);
    case TakeLock(_) =>
    case TakeSlot(_) =>
    case Reap(_) =>
    case LockElsewhere(_) =>
    case UnlockElsewhere(_) =>
  }

  lemma PassSurvivesServing(w: World, site: Site, u: nat, t: nat)
    requires u in w.s.tasks && w.s.tasks[u].at.Syncing? && w.s.tasks[u].at.phase.InBody?
    requires u != t && CarriesFolder(w.s, t, site)
    ensures t in Head(Serve(w, u), u).s.tasks && Head(Serve(w, u), u).s.tasks[t] == w.s.tasks[t]
  {
    hide Refate;
    assert CarriesFolder(Serve(w, u).s, t, site);
    HeadKeepsCarriers(Serve(w, u), u, site, t);
  }

  lemma PassSurvivesUnwinding(w: World, site: Site, u: nat, t: nat)
    requires Can(w, site.maxSlots, Unwind(u)) && u != t && t in w.s.tasks
    ensures
      var r := Apply(w, site.maxSlots, Unwind(u)).s;
      t in r.tasks && r.tasks[t] == w.s.tasks[t]
  {
    hide Refate;
  }

  lemma PassSurvivesAsking(s: State, a: nat, r: Request, t: nat)
    requires t in s.tasks && s.nextTask !in s.tasks
    ensures t in Ask(s, a, r).tasks && Ask(s, a, r).tasks[t] == s.tasks[t]
  {
    hide Merge;
  }

  lemma PassSurvivesCancel(s: State, a: nat, site: Site, t: nat)
    requires forall b :: b in s.running ==> Serves(s, s.running[b], b)
    requires a != site.account && CarriesFolder(s, t, site)
    ensures t in Cancel(s, a).tasks && Cancel(s, a).tasks[t] == s.tasks[t]
  {
    if a in s.running {
      assert Serves(s, s.running[a], a);
    }
  }

  /** A pass that ends without having got to the folder leaves every change it was to read to the interval check. */
  lemma ReturnOwes(m: Mail, site: Site, t: nat, c: nat)
    requires Timely(m, site) && Can(m.w, site.maxSlots, Return(t)) && c <= m.now && PassCovers(m, site, c, t)
    ensures c in ApplyCoalesce(m, site, Return(t)).owed
  {
    hide Apply;
    hide Covers;
    hide Timely;
  }

  lemma CoalesceKeepsPass(m: Mail, site: Site, step: Step, t: nat, c: nat)
    requires Registered(m.w.s, {}) && Timely(m, site) && Can(m.w, site.maxSlots, step) && step != CancelAccount(site.account)
    requires c <= m.now && PassCovers(m, site, c, t)
    ensures var m' := ApplyCoalesce(m, site, step); PassCovers(m', site, c, t) || c in m'.owed
  {
    RegisteredKeys(m.w.s);
    hide Registered;
    if step == Return(t) {
      hide *;
      ReturnOwes(m, site, t, c);
    } else {
      PassSurvives(m.w, site, step, t);
      hide Apply;
      hide Can;
      hide Covers;
      hide Timely;
      hide Unread;
    }
  }

  lemma CoalesceKeepsWork(m: Mail, site: Site, step: Step)
    requires Registered(m.w.s, {}) && Timely(m, site) && Can(m.w, site.maxSlots, step) && step != CancelAccount(site.account)
    ensures KeepsWork(m, ApplyCoalesce(m, site, step), site)
  {
    RegisteredKeys(m.w.s);
    var m' := ApplyCoalesce(m, site, step);
    if PendingCovers(m.w.s, site) {
      PendingSurvives(m.w, site, step);
    }
    hide Registered;
    hide Timely;
    assert m'.w == Apply(m.w, site.maxSlots, step);
    hide Apply;
    forall t, c: nat | c <= m.now && PassCovers(m, site, c, t)
      ensures PassCovers(m', site, c, t) || Reflected(m', c) || c in m'.owed
    {
      CoalesceKeepsPass(m, site, step, t, c);
    }
  }

  lemma WillRequestTraces(m: Mail, site: Site)
    requires m.watcher.WillRequest() || PendingCovers(m.w.s, site)
    ensures NothingLost(m, site)
  {
  }

  lemma DeafenedTraces(m: Mail, site: Site, watcher: Watcher)
    ensures NothingLost(Deafen(m, watcher), site)
  {
    hide PassCovers;
    hide PendingCovers;
    hide Changed;
  }

  /** A coalescer step leaves the cache and, short of unscheduling the account, the watcher. */
  lemma CoalesceKeepsWatch(m: Mail, site: Site, step: Step)
    requires Can(m.w, site.maxSlots, step)
    ensures
      var m' := ApplyCoalesce(m, site, step);
      && m'.w == Apply(m.w, site.maxSlots, step)
      && (CacheSound(m, site) ==> CacheSound(m', site)) && (ShownMeansSubscribed(m) ==> ShownMeansSubscribed(m'))
      && (step != CancelAccount(site.account) ==> KeepsWatch(m, m'))
      && (step == CancelAccount(site.account) ==> m' == Deafen(m.(w := m'.w), Stopped))
  {
    hide Apply;
    hide Can;
    hide Unread;
    hide Sound;
    hide Fresh;
  }

  lemma CoalesceKeeps(m: Mail, site: Site, step: Step)
    requires MailInvariant(m, site) && Can(m.w, site.maxSlots, step)
    ensures MailInvariant(ApplyCoalesce(m, site, step), site)
  {
    var m' := ApplyCoalesce(m, site, step);
    assert Registered(m.w.s, {});
    hide Registered;
    CoalesceKeepsWatch(m, site, step);
    hide ApplyCoalesce;
    hide Apply;
    hide Can;
    hide NothingLost;
    hide Timely;
    hide CacheSound;
    hide ShownMeansSubscribed;
    StepKeeps(m.w, site.maxSlots, step);
    hide Invariant;
    CoalesceIsTimely(m, site, step);
    if step == CancelAccount(site.account) {
      hide Deafen;
      DeafenedTraces(m.(w := m'.w), site, Stopped);
    } else {
      CoalesceKeepsWork(m, site, step);
      hide KeepsWork;
      hide KeepsWatch;
      KeptWorkTraces(m, m', site);
    }
  }

  lemma WorkKeeps(m: Mail, site: Site, t: nat, at: nat -> nat, fault: Interrupt)
    requires LegalTrace(site.trace) && MailInvariant(m, site) && Works(m, site, t, at, fault)
    ensures MailInvariant(DoWork(m, site, t, at, fault), site)
  {
    hide Registered;
    hide Accounted;
    hide AllKept;
    hide FolderPass;
    WorkKeepsCache(m, site, t, at, fault);
    WorkIsTimely(m, site, t, at, fault);
    hide Exclusive;
    hide CacheSound;
    var m' := DoWork(m, site, t, at, fault);
    WorkKeepsWork(m, site, t, at, fault);
    hide KeepsWork;
    hide NothingLost;
    assert KeepsWatch(m, m');
    KeptWorkTraces(m, m', site);
  }

  lemma WorkKeepsWork(m: Mail, site: Site, t: nat, at: nat -> nat, fault: Interrupt)
    requires Works(m, site, t, at, fault)
    ensures KeepsWork(m, DoWork(m, site, t, at, fault), site)
  {
    hide FolderPass;
    hide Covers;
    var m' := DoWork(m, site, t, at, fault);
    forall u, c: nat | c <= m.now && PassCovers(m, site, c, u)
      ensures PassCovers(m', site, c, u) || Reflected(m', c) || c in m'.owed
    {
      if u == t {
        assert c <= m.entered[t];
      }
    }
  }

  lemma ElapseKeeps(m: Mail, site: Site)
    requires NothingLost(m, site)
    ensures NothingLost(Tick(m, site), site)
  {
    var m' := Tick(m, site);
    forall c: nat | c <= m'.now && Changed(site.trace, c) ensures Traced(m', site, c) {
      if c <= m.now {
        assert Traced(m, site, c);
        if t :| PassCovers(m, site, c, t) {
          assert PassCovers(m', site, c, t);
        }
      }
    }
  }

  /** The watcher's own moves touch neither passes nor what is pending. */
  lemma WatcherMoveKeeps(m: Mail, site: Site, move: Move)
    requires NothingLost(m, site) && CanMove(m, site, move)
    requires move.Launch? || move.Retry? || move.Subscribe? || move.Read? || move.RenewalDue? || move.EndIdle?
             || move.Reidle? || move.Disconnect? || move.StrayFails? || (move.Resume? && !m.watcher.heard)
    ensures NothingLost(ApplyMove(m, site, move), site)
  {
    hide FolderPass;
    hide Changed;
    var m' := ApplyMove(m, site, move);
    forall c: nat | c <= m'.now && Changed(site.trace, c) ensures Traced(m', site, c) {
      assert Traced(m, site, c);
      if t :| PassCovers(m, site, c, t) {
        assert PassCovers(m', site, c, t);
      }
    }
  }

  lemma MoveTraces(m: Mail, site: Site, move: Move)
    requires Invariant(m.w, site.maxSlots) && NothingLost(m, site) && CanMove(m, site, move)
    requires !move.Coalesce? && !move.Work?
    ensures
      var m' := ApplyMove(m, site, move);
      Invariant(m'.w, site.maxSlots) && NothingLost(m', site)
  {
    hide Invariant;
    hide NothingLost;
    hide FolderPass;
    var m' := ApplyMove(m, site, move);
    match move
    case Elapse => ElapseKeeps(m, site);
    case Halt => DeafenedTraces(m, site, Stopped);
    case NoIdle => DeafenedTraces(m, site, Polling);
    case CatchUp =>
      AskFolderTraces(m, site);
      WillRequestTraces(m', site);
    case IntervalCheck =>
      AskFolderTraces(m, site);
      WillRequestTraces(m', site);
    case StrayCatchUp =>
      AskFolderTraces(m, site);
      WillRequestTraces(m', site);
    case Resume =>
      if m.watcher.heard {
        AskFolderTraces(m, site);
        WillRequestTraces(m', site);
      } else {
        WatcherMoveKeeps(m, site, move);
      }
    case _ => WatcherMoveKeeps(m, site, move);
  }

  lemma AskedIsTimely(m: Mail, site: Site)
    requires Timely(m, site) && Registered(m.w.s, {})
    ensures Timely(AskFolder(m, site), site)
  {
    RegisteredKeys(m.w.s);
    hide Registered;
    var m' := AskFolder(m, site);
    forall u | AtWork(m'.w.s, u, site) ensures AtWork(m.w.s, u, site) {
      BodiesAreEntered(m.w, site.maxSlots, site, Request_(site.account, Wants(site.folder)), u);
    }
    hide Apply;
  }

  /** With the coalescer and the folder as they were, time may pass. */
  ghost predicate Later(m: Mail, m': Mail) {
    && m'.w == m.w && m'.written == m.written && m'.synced == m.synced && m'.entered == m.entered && m'.done == m.done
    && m.now <= m'.now && m'.since <= m'.now
  }

  lemma LaterIsTimely(m: Mail, m': Mail, site: Site)
    requires Timely(m, site) && Later(m, m')
    ensures Timely(m', site)
  {
    hide AtWork;
  }

  predicate Asks(m: Mail, move: Move) {
    move.CatchUp? || move.IntervalCheck? || move.StrayCatchUp? || (move.Resume? && m.watcher.Resubscribed? && m.watcher.heard)
  }

  lemma MoveIsLater(m: Mail, site: Site, move: Move)
    requires CanMove(m, site, move) && !move.Coalesce? && !move.Work? && m.since <= m.now
    ensures Later(if Asks(m, move) then AskFolder(m, site) else m, ApplyMove(m, site, move))
  {
    hide Apply;
    hide Can;
    hide Works;
    hide Changed;
    hide UpTo;
  }

  lemma MoveIsTimely(m: Mail, site: Site, move: Move)
    requires Timely(m, site) && Registered(m.w.s, {}) && CanMove(m, site, move)
    requires !move.Coalesce? && !move.Work?
    ensures Timely(ApplyMove(m, site, move), site)
  {
    assert m.since <= m.now;
    hide *;
    AskedIsTimely(m, site);
    MoveIsLater(m, site, move);
    LaterIsTimely(if Asks(m, move) then AskFolder(m, site) else m, ApplyMove(m, site, move), site);
  }

  lemma MoveKeepsCache(m: Mail, site: Site, move: Move)
    requires CacheSound(m, site) && ShownMeansSubscribed(m) && CanMove(m, site, move)
    requires !move.Coalesce? && !move.Work?
    ensures CacheSound(ApplyMove(m, site, move), site) && ShownMeansSubscribed(ApplyMove(m, site, move))
  {
    hide FolderPass;
    hide Changed;
    hide Apply;
    hide Can;
    hide Sound;
    hide Fresh;
    hide Works;
  }

  lemma MoveKeeps(m: Mail, site: Site, move: Move)
    requires LegalTrace(site.trace) && MailInvariant(m, site) && CanMove(m, site, move)
    ensures MailInvariant(ApplyMove(m, site, move), site)
  {
    hide MailInvariant;
    hide LegalTrace;
    hide ApplyCoalesce;
    hide DoWork;
    hide Works;
    hide Can;
    match move
    case Coalesce(step) => CoalesceKeeps(m, site, step);
    case Work(t, at, fault) => WorkKeeps(m, site, t, at, fault);
    case _ => OtherMoveKeeps(m, site, move);
  }

  lemma OtherMoveKeeps(m: Mail, site: Site, move: Move)
    requires MailInvariant(m, site) && CanMove(m, site, move) && !move.Coalesce? && !move.Work?
    ensures MailInvariant(ApplyMove(m, site, move), site)
  {
    assert Registered(m.w.s, {});
    hide Registered;
    hide Invariant;
    hide NothingLost;
    hide Timely;
    hide CacheSound;
    hide ShownMeansSubscribed;
    hide ApplyMove;
    hide CanMove;
    MoveTraces(m, site, move);
    MoveIsTimely(m, site, move);
    MoveKeepsCache(m, site, move);
  }

  lemma {:induction false} MovesKeep(from: Mail, site: Site, moves: seq<Move>, to: Mail)
    requires LegalTrace(site.trace) && MailInvariant(from, site) && Moves(from, site, moves, to)
    ensures MailInvariant(to, site)
    decreases |moves|
  {
    hide MailInvariant;
    hide LegalTrace;
    hide ApplyMove;
    hide CanMove;
    if moves != [] {
      MoveKeeps(from, site, moves[0]);
      MovesKeep(ApplyMove(from, site, moves[0]), site, moves[1..], to);
    }
  }

  ghost predicate Reachable(m: Mail, site: Site) {
    exists moves :: Moves(QUIET, site, moves, m)
  }

  lemma ReachableIsInvariant(m: Mail, site: Site)
    requires LegalTrace(site.trace) && Reachable(m, site)
    ensures MailInvariant(m, site)
  {
    var moves :| Moves(QUIET, site, moves, m);
    QuietIsInvariant(site);
    MovesKeep(QUIET, site, moves, m);
  }

  lemma QuietIsInvariant(site: Site)
    requires LegalTrace(site.trace)
    ensures MailInvariant(QUIET, site)
  {
    BootInvariant(site.maxSlots);
    assert Evolves(site.trace(0), site.trace(0));
    StartIsSound(site.trace(0));
    hide Invariant;
    hide Sound;
  }

  lemma BootInvariant(maxSlots: nat)
    ensures Invariant(BOOT, maxSlots)
  {
  }
}
