/** What the whole chain guarantees for one inbox folder, and where its guarantees end. */
module EndToEndTheorems {
  import opened Prelude
  import opened Coalescer
  import opened MailServer
  import opened Mirror
  import opened MirrorTheorems
  import opened MirrorRuns
  import opened MirrorFreshness
  import opened MirrorReads
  import opened EndToEnd

  /** No lost update. In every reachable state, each change to the folder is in the cache, or in an unread IDLE
      response, or about to be asked for by the watcher, or covered by the pending request or by a pass that is not
      through with the folder, or owed to the interval check. */
  lemma NoLostUpdate(m: Mail, site: Site, c: nat)
    requires LegalTrace(site.trace) && Reachable(m, site) && c <= m.now && Changed(site.trace, c)
    ensures Traced(m, site, c)
  {
    ReachableIsInvariant(m, site);
  }

  /** What "in the cache" is worth, in every reachable state: the committed rows are sound, and every row was on the
      server at some instant since the last successful pass began, with exactly its flags; while UIDVALIDITY holds, no
      message that was there all the while is missing. */
  lemma ReflectedMeansCached(m: Mail, site: Site)
    requires LegalTrace(site.trace) && Reachable(m, site)
    ensures Sound(m.db, site.trace(m.now))
    ensures m.synced.Some? ==> m.synced.value <= m.now && Fresh(m.db, site.trace, m.synced.value, m.now)
  {
    ReachableIsInvariant(m, site);
    hide Sound;
    hide Fresh;
    SoundLater(m.db, site.trace, m.written, m.now);
    if m.synced.Some? {
      FreshAges(m.db, site.trace, m.synced.value, m.written, m.now);
    }
  }

  /** What a pass at work has committed by any of its awaits, its k-th, is what it would leave if interrupted there: it
      is sound and no less fresh than what was there when the pass began. */
  lemma MidwayIsSound(m: Mail, site: Site, t: nat, at: nat -> nat, k: nat)
    requires LegalTrace(site.trace) && Reachable(m, site)
    requires AtWork(m.w.s, t, site) && t !in m.done && Forward(at) && t in m.entered && m.entered[t] <= at(0)
    requires at(FolderPass(m, site, at, At(k)).time) <= m.now
    ensures Sound(FolderPass(m, site, at, At(k)).db, site.trace(m.now))
    ensures m.synced.Some? ==> Fresh(FolderPass(m, site, at, At(k)).db, site.trace, m.synced.value, m.now)
  {
    hide FolderPass;
    hide Sound;
    hide Fresh;
    hide LegalTrace;
    hide AtWork;
    ReachableIsInvariant(m, site);
    hide Invariant;
    hide NothingLost;
    PassKeepsCache(m, site, t, at, At(k));
    var p := FolderPass(m, site, at, At(k));
    SoundLater(p.db, site.trace, at(p.time), m.now);
    if m.synced.Some? {
      FreshAges(p.db, site.trace, m.synced.value, at(p.time), m.now);
    }
  }

  lemma SoundLater(db: FolderState, trace: Trace, from: nat, now: nat)
    requires LegalTrace(trace) && from <= now && Sound(db, trace(from))
    ensures Sound(db, trace(now))
  {
    hide Sound;
    hide Evolves;
    assert Evolves(trace(from), trace(now));
    SoundSurvivesServerChange(db, trace(from), trace(now));
  }

  ghost predicate CaughtUp(m: Mail, site: Site) {
    forall c: nat :: c <= m.now && Changed(site.trace, c) ==> Reflected(m, c)
  }

  lemma {:induction false} NoChangeIsStill(trace: Trace, from: nat, until: nat)
    requires from <= until && forall c: nat :: from < c <= until ==> !Changed(trace, c)
    ensures Still(trace, from, until)
    decreases until
  {
    if from < until {
      assert !Changed(trace, until);
      NoChangeIsStill(trace, from, until - 1);
    }
  }

  lemma StillIsNoChange(trace: Trace, from: nat, until: nat, c: nat)
    requires Still(trace, from, until) && from < c <= until
    ensures !Changed(trace, c)
  {
    assert trace(c) == trace(until) && trace(c - 1) == trace(until);
  }

  /** A cache that reflects every change is an exact copy of the mailbox. */
  lemma CaughtUpMirrors(m: Mail, site: Site)
    requires LegalTrace(site.trace) && Reachable(m, site) && CaughtUp(m, site)
    ensures Mirrors(m.db, site.trace(m.now))
  {
    ReflectedMeansCached(m, site);
    hide Sound;
    hide Fresh;
    assert Changed(site.trace, 0);
    NoChangeIsStill(site.trace, m.synced.value, m.now);
    FreshAndStillMirrors(m.db, site.trace, m.synced.value, m.now);
  }

  /** Settled means caught up: a subscribed watcher with nothing unread, nothing owed that is not in the cache, nothing
      pending and no pass left has an exact copy of the mailbox. */
  lemma SettledIsCaughtUp(m: Mail, site: Site)
    requires LegalTrace(site.trace) && Reachable(m, site)
    requires m.watcher.Checking? && m.unread == {} && forall c: nat :: c in m.owed ==> Reflected(m, c)
    requires site.account !in m.w.s.pending
    requires forall t :: t in m.w.s.tasks && m.w.s.tasks[t].account == site.account ==> !m.w.s.tasks[t].at.Syncing?
    ensures CaughtUp(m, site) && Mirrors(m.db, site.trace(m.now))
  {
    hide Mirrors;
    hide LegalTrace;
    forall c: nat | c <= m.now && Changed(site.trace, c) ensures Reflected(m, c) {
      NoLostUpdate(m, site, c);
    }
    CaughtUpMirrors(m, site);
  }

  // ---------------------------------------------------------------- connected

  /** What "connected" is worth: each change is in the cache, or work that covers it is outstanding, or it waits in
      the IDLE loop, or it is owed to the interval check; and if a watcher went astray, whose state is what is shown, the
      folder's own watcher may have yet to subscribe. */
  lemma ConnectedMeans(m: Mail, site: Site, c: nat)
    requires LegalTrace(site.trace) && Reachable(m, site) && c <= m.now && Changed(site.trace, c)
    requires m.shown.Connected?
    ensures
      || Reflected(m, c) || c in m.unread || c in m.owed
      || WorkOutstanding(m, site, c)
      || ((m.watcher.Ending? || m.watcher.Silent? || m.watcher.Resubscribed?) && m.watcher.heard)
      || (m.astray && (m.watcher.Reconnecting? || m.watcher.Subscribed?))
  {
    ReachableIsInvariant(m, site);
    assert Traced(m, site, c);
  }

  /** Connected is an exact copy exactly when nothing slipped past the pass that shows it: UIDVALIDITY held, what is there
      now was listed, and what was listed and there when it was read is there now with the flags that were read. And
      every change so far is in the cache exactly when there was none since the pass began on the folder. */
  lemma ConnectedExactly(m: Mail, site: Site, t: nat, at: nat -> nat, fault: Interrupt)
    requires LegalTrace(site.trace) && Reachable(m, site) && Works(m, site, t, at, fault)
    requires m.shown.Reconciling? && FolderPass(m, site, at, fault).completed
    ensures
      var m' := DoWork(m, site, t, at, fault);
      && m'.shown.Connected?
      && (Mirrors(m'.db, site.trace(m.now)) <==> NothingSlipped(m.db, Sampled(site.trace, at), 0, fault))
      && (CaughtUp(m', site) <==> Still(site.trace, at(0), m.now))
      && (CaughtUp(m', site) ==> Mirrors(m'.db, site.trace(m.now)))
  {
    hide FolderPass;
    hide Mirrors;
    hide NothingSlipped;
    hide LegalTrace;
    hide CaughtUp;
    hide Works;
    hide Still;
    var m' := DoWork(m, site, t, at, fault);
    ReachableIsInvariant(m, site);
    CopiesExactly(m, site, t, at, fault);
    hide MailInvariant;
    CatchesUpExactly(m, site, t, at, fault);
    if CaughtUp(m', site) {
      ReachesFurther(m, site, Work(t, at, fault));
      CaughtUpMirrors(m', site);
    }
  }

  lemma CatchesUpExactly(m: Mail, site: Site, t: nat, at: nat -> nat, fault: Interrupt)
    requires LegalTrace(site.trace) && Reachable(m, site) && Works(m, site, t, at, fault)
    requires FolderPass(m, site, at, fault).completed
    ensures CaughtUp(DoWork(m, site, t, at, fault), site) <==> Still(site.trace, at(0), m.now)
  {
    hide FolderPass;
    hide Works;
    hide Reachable;
    hide LegalTrace;
    hide Changed;
    var m' := DoWork(m, site, t, at, fault);
    StartsInTime(m, site, t, at, fault);
    assert m'.now == m.now && m'.synced == Some(at(0));
    hide DoWork;
    if CaughtUp(m', site) {
      forall c: nat | at(0) < c <= m.now ensures !Changed(site.trace, c) {
        assert Changed(site.trace, c) ==> Reflected(m', c);
      }
      NoChangeIsStill(site.trace, at(0), m.now);
    }
    if Still(site.trace, at(0), m.now) {
      forall c: nat | c <= m'.now && Changed(site.trace, c) ensures Reflected(m', c) {
        if at(0) < c {
          StillIsNoChange(site.trace, at(0), m.now, c);
        }
      }
    }
  }

  lemma CopiesExactly(m: Mail, site: Site, t: nat, at: nat -> nat, fault: Interrupt)
    requires LegalTrace(site.trace) && MailInvariant(m, site) && Works(m, site, t, at, fault)
    requires FolderPass(m, site, at, fault).completed
    ensures Mirrors(FolderPass(m, site, at, fault).db, site.trace(m.now))
       <==> NothingSlipped(m.db, Sampled(site.trace, at), 0, fault)
  {
    hide Invariant;
    hide NothingLost;
    hide Mirror.Pass;
    hide Mirrors;
    hide NothingSlipped;
    hide Sound;
    hide Fresh;
    hide LegalTrace;
    PassKeepsCache(m, site, t, at, fault);
    SampledIsLegal(site.trace, at);
    assert Sampled(site.trace, at)(0) == site.trace(at(0));
    CompletedPassMirrorsExactly(m.db, Sampled(site.trace, at), 0, fault);
  }

  lemma StartsInTime(m: Mail, site: Site, t: nat, at: nat -> nat, fault: Interrupt)
    requires LegalTrace(site.trace) && Reachable(m, site) && Works(m, site, t, at, fault)
    ensures m.written <= m.entered[t] <= at(0) <= m.now
  {
    hide FolderPass;
    ReachableIsInvariant(m, site);
    PassKeepsCache(m, site, t, at, fault);
  }

  /** No change since the pass entered its body is enough; and a pass that entered it after the watcher subscribed
      leaves no change from before the subscription out of the cache. */
  lemma CatchUpCoversTheGap(m: Mail, site: Site, t: nat, at: nat -> nat, fault: Interrupt)
    requires LegalTrace(site.trace) && Reachable(m, site) && Works(m, site, t, at, fault)
    requires FolderPass(m, site, at, fault).completed
    ensures
      var m' := DoWork(m, site, t, at, fault);
      && (Still(site.trace, m.entered[t], m.now) ==> CaughtUp(m', site) && Mirrors(m'.db, site.trace(m.now)))
      && (m.since <= m.entered[t] ==>
            (forall c: nat :: c <= m.since ==> Reflected(m', c)) && Fresh(m'.db, site.trace, m.since, m.now))
  {
    hide FolderPass;
    hide Mirrors;
    hide LegalTrace;
    hide Fresh;
    var m' := DoWork(m, site, t, at, fault);
    StartsInTime(m, site, t, at, fault);
    ReachesFurther(m, site, Work(t, at, fault));
    if Still(site.trace, m.entered[t], m.now) {
      forall c: nat | c <= m'.now && Changed(site.trace, c) ensures Reflected(m', c) {
        if at(0) < c {
          StillIsNoChange(site.trace, m.entered[t], m.now, c);
        }
      }
      CaughtUpMirrors(m', site);
    }
    ReflectedMeansCached(m', site);
    if m.since <= m.entered[t] {
      FreshEarlier(m'.db, site.trace, m.since, at(0), m.now);
    }
  }

  lemma FreshEarlier(db: FolderState, trace: Trace, earlier: nat, since: nat, now: nat)
    requires LegalTrace(trace) && earlier <= since <= now && Fresh(db, trace, since, now)
    ensures Fresh(db, trace, earlier, now)
  {
    forall id | id in db.rows ensures SeenWithin(trace, earlier, now, db.rows[id]) {
      SeenLonger(trace, since, now, earlier, now, db.rows[id]);
    }
    if trace(now).validity == trace(earlier).validity {
      ValidityHeld(trace, earlier, since, now);
      forall u | u in trace(earlier).messages && u in trace(now).messages ensures u in UidsOf(db.rows) {
        SeenTwiceWasThere(trace, earlier, now, u);
        ThereThen(trace, earlier, now, u, since);
      }
    }
  }

  lemma {:induction false} MovesFurther(from: Mail, site: Site, moves: seq<Move>, to: Mail, move: Move)
    requires Moves(from, site, moves, to) && CanMove(to, site, move)
    ensures Moves(from, site, moves + [move], ApplyMove(to, site, move))
    decreases |moves|
  {
    hide ApplyMove;
    hide CanMove;
    if moves == [] {
      assert (moves + [move])[1..] == [];
    } else {
      assert (moves + [move])[1..] == moves[1..] + [move];
      MovesFurther(ApplyMove(from, site, moves[0]), site, moves[1..], to, move);
    }
  }

  lemma ReachesFurther(m: Mail, site: Site, move: Move)
    requires Reachable(m, site) && CanMove(m, site, move)
    ensures Reachable(ApplyMove(m, site, move), site)
  {
    hide ApplyMove;
    hide CanMove;
    var moves :| Moves(QUIET, site, moves, m);
    MovesFurther(QUIET, site, moves, m, move);
  }

  lemma Onward(m: Mail, site: Site, move: Move) returns (m': Mail)
    requires Reachable(m, site) && CanMove(m, site, move)
    ensures m' == ApplyMove(m, site, move) && Reachable(m', site)
  {
    hide ApplyMove;
    hide CanMove;
    m' := ApplyMove(m, site, move);
    ReachesFurther(m, site, move);
  }

  // ---------------------------------------------------------------- connected too early

  ghost predicate Untouched(m: Mail) {
    m.watcher.Reconnecting? && m.db == EMPTY && m.synced == None && m.done == {}
  }

  /** Someone else's request for the account is taken up. */
  lemma APassStarts(site: Site) returns (m: Mail)
    ensures Reachable(m, site) && Untouched(m) && m.now == 0
    ensures 0 in m.w.s.tasks && m.w.s.tasks[0] == Task(site.account, false, Syncing(Request(All, true), 0, AwaitLock))
    ensures m.w.s.lock == map[] && m.w.s.slots == {}
  {
    assert Moves(QUIET, site, [], QUIET);
    m := QUIET;
    hide Reachable;
    m := Onward(m, site, Coalesce(Request_(site.account, Request(All, true))));
    m := Onward(m, site, Coalesce(Start(0)));
  }

  /** It is in its body. */
  lemma APassIsUnderWay(site: Site) returns (m: Mail)
    requires 0 < site.maxSlots
    ensures Reachable(m, site) && Untouched(m) && m.now == 0
    ensures CarriesFolder(m.w.s, 0, site) && AtWork(m.w.s, 0, site) && !m.w.s.tasks[0].cancelled
    ensures 0 in m.entered && m.entered[0] == 0
  {
    m := APassStarts(site);
    hide Reachable;
    m := Onward(m, site, Coalesce(TakeLock(0)));
    m := Onward(m, site, Coalesce(TakeSlot(0)));
  }

  lemma AskKeepsPass(w: World, site: Site)
    requires 0 in w.s.tasks && w.s.nextTask != 0
    ensures
      var r := Apply(w, site.maxSlots, Request_(site.account, Wants(site.folder))).s;
      0 in r.tasks && r.tasks[0] == w.s.tasks[0]
  {
    hide Merge;
  }

  /** An instant later the watcher subscribes; the pass is still at work. */
  lemma TheWatcherSubscribes(site: Site) returns (m: Mail)
    requires 0 < site.maxSlots && LegalTrace(site.trace)
    ensures Reachable(m, site) && m.now == 1 && m.watcher.Subscribed? && 0 !in m.done
    ensures CarriesFolder(m.w.s, 0, site) && AtWork(m.w.s, 0, site) && !m.w.s.tasks[0].cancelled
    ensures 0 in m.entered && m.entered[0] == 0 && m.w.s.nextTask !in m.w.s.tasks
  {
    m := APassIsUnderWay(site);
    ReachableIsInvariant(m, site);
    RegisteredKeys(m.w.s);
    hide MailInvariant;
    hide Invariant;
    hide Registered;
    hide Reachable;
    hide LegalTrace;
    hide Works;
    hide Can;
    hide Apply;
    hide Changed;
    m := Onward(m, site, Elapse);
    m := Onward(m, site, Subscribe);
  }

  /** It asks for the folder. */
  lemma TheWatcherCatchesUp(site: Site) returns (m: Mail)
    requires 0 < site.maxSlots && LegalTrace(site.trace)
    ensures Reachable(m, site) && m.now == 1 && m.shown.Reconciling? && m.watcher.Checking? && 0 !in m.done
    ensures CarriesFolder(m.w.s, 0, site) && AtWork(m.w.s, 0, site) && !m.w.s.tasks[0].cancelled
    ensures 0 in m.entered && m.entered[0] == 0
  {
    m := TheWatcherSubscribes(site);
    hide Reachable;
    hide LegalTrace;
    hide Works;
    AskKeepsPass(m.w, site);
    hide Apply;
    hide Can;
    m := Onward(m, site, CatchUp);
  }

  /** A pass that lists the folder at instant 0 and is through with it at instant 1. */
  function Across(i: nat): nat {
    if i <= 2 then 0 else 1
  }

  lemma AcrossCompletes(m: Mail, site: Site)
    ensures Forward(Across) && FolderPass(m, site, Across, Never).completed
    ensures Across(FolderPass(m, site, Across, Never).time) == 1
    ensures Sampled(site.trace, Across)(2) == site.trace(0)
  {
    hide Mirror.Pass;
    hide Backfilled;
    hide Walked;
    PassUnfolds(m.db, Sampled(site.trace, Across), 0, Never);
  }

  /** "Connected" does not mean caught up, whatever the mailbox: a pass that listed the folder before a message arrived,
      and is through with it after the watcher subscribed, shows the folder connected without the message. */
  lemma ConnectedTooEarly(site: Site, u: nat) returns (m: Mail)
    requires 0 < site.maxSlots && LegalTrace(site.trace)
    requires u !in site.trace(0).messages && u in site.trace(1).messages
    ensures Reachable(m, site)
    ensures m.shown.Connected? && m.watcher.Checking? && !Mirrors(m.db, site.trace(m.now))
  {
    m := TheWatcherCatchesUp(site);
    AcrossCompletes(m, site);
    hide FolderPass;
    hide Reachable;
    hide LegalTrace;
    hide Apply;
    hide Mirrors;
    MissedIsSlipped(m, site, u);
    ConnectedExactly(m, site, 0, Across, Never);
    m := Onward(m, site, Work(0, Across, Never));
  }

  lemma MissedIsSlipped(m: Mail, site: Site, u: nat)
    requires u !in site.trace(0).messages && u in site.trace(1).messages
    ensures !NothingSlipped(m.db, Sampled(site.trace, Across), 0, Never)
  {
    AcrossCompletes(m, site);
    hide Mirror.Pass;
  }

  // ---------------------------------------------------------------- settling

  /** The watcher subscribes and asks for the folder. */
  lemma TheCatchUpIsAsked(site: Site) returns (m: Mail)
    ensures Reachable(m, site) && m == QUIET.(w := m.w, watcher := Checking, shown := Reconciling)
    ensures m.w.s == Ask(IDLE, site.account, Wants(site.folder))
  {
    assert Moves(QUIET, site, [], QUIET);
    m := QUIET;
    hide Reachable;
    hide Works;
    hide Changed;
    m := Onward(m, site, Subscribe);
    hide Ask;
    m := Onward(m, site, CatchUp);
  }

  /** Its pass is started. */
  lemma TheCatchUpStarts(site: Site) returns (m: Mail)
    ensures Reachable(m, site) && m == QUIET.(w := m.w, watcher := Checking, shown := Reconciling)
    ensures m.w.s.tasks == map[0 := Task(site.account, false, Syncing(Wants(site.folder), 0, AwaitLock))]
    ensures m.w.s.lock == map[] && m.w.s.slots == {} && m.w.s.pending == map[] && m.w.s.pendingActivity == map[]
  {
    m := TheCatchUpIsAsked(site);
    hide Reachable;
    hide Works;
    hide Changed;
    m := Onward(m, site, Coalesce(Start(0)));
  }

  lemma TheCatchUpIsAtWork(site: Site) returns (m: Mail)
    requires 0 < site.maxSlots
    ensures Reachable(m, site)
    ensures m == QUIET.(w := m.w, watcher := Checking, shown := Reconciling, entered := map[0 := 0])
    ensures exists began :: m.w.s.tasks == map[0 := Task(site.account, false, Syncing(Wants(site.folder), 0, InBody(began)))]
    ensures m.w.s.pending == map[] && m.w.s.pendingActivity == map[]
  {
    m := TheCatchUpStarts(site);
    hide Reachable;
    m := Onward(m, site, Coalesce(TakeLock(0)));
    m := Onward(m, site, Coalesce(TakeSlot(0)));
  }

  /** A pass whose awaits all fall on instant 0. */
  function AtOnce(i: nat): nat {
    0
  }

  lemma AtOnceMirrors(m: Mail, site: Site)
    requires LegalTrace(site.trace) && Reachable(m, site) && m.now == 0
    ensures Forward(AtOnce) && FolderPass(m, site, AtOnce, Never).completed
    ensures Mirrors(FolderPass(m, site, AtOnce, Never).db, site.trace(0))
  {
    hide Mirror.Pass;
    hide Sound;
    hide Fresh;
    hide Mirrors;
    hide LegalTrace;
    ReflectedMeansCached(m, site);
    hide Reachable;
    var sub := Sampled(site.trace, AtOnce);
    SampledIsLegal(site.trace, AtOnce);
    assert forall i: nat :: sub(i) == site.trace(0);
    QuietPassMirrors(m.db, sub, 0);
  }

  lemma TheCatchUpSucceeds(site: Site) returns (m: Mail)
    requires 0 < site.maxSlots && LegalTrace(site.trace)
    ensures Reachable(m, site) && m.watcher.Checking? && m.unread == {} && m.owed == {} && m.now == 0
    ensures m.shown.Connected? && m.synced.Some? && 0 in m.done && Mirrors(m.db, site.trace(0))
    ensures exists began :: m.w.s.tasks == map[0 := Task(site.account, false, Syncing(Wants(site.folder), 0, InBody(began)))]
    ensures m.w.s.pending == map[] && m.w.s.pendingActivity == map[]
  {
    hide Reachable;
    hide LegalTrace;
    hide Can;
    hide Apply;
    hide FolderPass;
    hide Mirrors;
    m := TheCatchUpIsAtWork(site);
    AtOnceMirrors(m, site);
    m := Onward(m, site, Work(0, AtOnce, Never));
  }

  /** The settled state is reached, whatever the mailbox: by the watcher's first catch-up, and it is an exact copy. */
  lemma SettlingHappens(site: Site) returns (m: Mail)
    requires 0 < site.maxSlots && LegalTrace(site.trace)
    ensures Reachable(m, site) && Settled(m, site) && m.shown.Connected? && m.owed == {} && m.synced.Some?
    ensures m.now == 0 && Mirrors(m.db, site.trace(0))
  {
    m := TheCatchUpSucceeds(site);
    hide Reachable;
    hide LegalTrace;
    hide Mirrors;
    hide Works;
    hide Changed;
    m := Onward(m, site, Coalesce(Return(0)));
  }

  // ---------------------------------------------------------------- what is left to the interval check

  /** The move lets go of the change: it comes while nobody listens; the watcher stops, or falls back to polling, or its
      account is unscheduled; DONE discards its response when nothing else was heard; or the pass that was to read it
      fails, or ends without having got to the folder. */
  ghost predicate Leaves(m: Mail, site: Site, move: Move, c: nat) {
    match move
    case Elapse => c == m.now + 1 && Changed(site.trace, c) && m.watcher.Deaf()
    case Halt => c <= m.now
    case NoIdle => c <= m.now
    case Coalesce(CancelAccount(a)) => a == site.account && c <= m.now
    case EndIdle => m.watcher.Ending? && !m.watcher.heard && c in m.unread
    case Work(t, at, fault) => t in m.entered && c <= m.entered[t] && !FolderPass(m, site, at, fault).completed
    case Coalesce(Return(t)) => MissesFolder(m, site, t) && c <= m.entered[t]
    case Coalesce(Swallow(t)) => MissesFolder(m, site, t) && c <= m.entered[t]
    case _ => false
  }

  /** The pass was to work on the folder and has not. */
  ghost predicate MissesFolder(m: Mail, site: Site, t: nat) {
    CarriesFolder(m.w.s, t, site) && t in m.entered && t !in m.done
  }

  ghost predicate Unchecked(moves: seq<Move>) {
    forall i :: 0 <= i < |moves| ==> !moves[i].IntervalCheck?
  }

  /** Some move of the run left the change, and no interval check came after it. */
  ghost predicate LeftOver(from: Mail, site: Site, moves: seq<Move>, c: nat)
    decreases |moves|
  {
    moves != [] && CanMove(from, site, moves[0])
    && ((Leaves(from, site, moves[0], c) && Unchecked(moves[1..]))
        || LeftOver(ApplyMove(from, site, moves[0]), site, moves[1..], c))
  }

  lemma StepOwes(m: Mail, site: Site, move: Move, c: nat)
    requires CanMove(m, site, move)
    ensures c in ApplyMove(m, site, move).owed <==> (c in m.owed && !move.IntervalCheck?) || Leaves(m, site, move, c)
  {
    hide FolderPass;
    hide Changed;
    hide Apply;
    hide Can;
    hide CarriesFolder;
    hide AtWork;
    hide AskFolder;
    hide UpTo;
    hide Forward;
    assert AskFolder(m, site).owed == m.owed by { AskingOwesNothing(m, site); }
  }

  lemma AskingOwesNothing(m: Mail, site: Site)
    ensures AskFolder(m, site).owed == m.owed
  {
  }

  lemma {:induction false} RunOwes(from: Mail, site: Site, moves: seq<Move>, to: Mail, c: nat)
    requires Moves(from, site, moves, to)
    ensures c in to.owed <==> (c in from.owed && Unchecked(moves)) || LeftOver(from, site, moves, c)
    decreases |moves|
  {
    hide ApplyMove;
    hide CanMove;
    hide Leaves;
    if moves != [] {
      StepOwes(from, site, moves[0], c);
      RunOwes(ApplyMove(from, site, moves[0]), site, moves[1..], to, c);
      assert moves == [moves[0]] + moves[1..];
      assert Unchecked(moves) <==> !moves[0].IntervalCheck? && Unchecked(moves[1..]);
    }
  }

  /** What the interval check is owed, over every run: a change is owed at the end if, and only if, some move left it and
      no interval check came after. Every other change is in the cache or on its way there. */
  lemma OwedExactly(site: Site, moves: seq<Move>, m: Mail, c: nat)
    requires LegalTrace(site.trace) && Moves(QUIET, site, moves, m)
    ensures c in m.owed <==> LeftOver(QUIET, site, moves, c)
    ensures c <= m.now && Changed(site.trace, c) && !LeftOver(QUIET, site, moves, c) ==>
      Reflected(m, c) || c in m.unread || m.watcher.WillRequest() || WorkOutstanding(m, site, c)
  {
    hide LeftOver;
    hide WorkOutstanding;
    RunOwes(QUIET, site, moves, m, c);
    if c <= m.now && Changed(site.trace, c) {
      assert Reachable(m, site);
      NoLostUpdate(m, site, c);
    }
  }

  // ---------------------------------------------------------------- the renewal gap

  ghost predicate Settled(m: Mail, site: Site) {
    && m.watcher.Checking? && m.unread == {} && site.account !in m.w.s.pending
    && forall t :: t in m.w.s.tasks && m.w.s.tasks[t].account == site.account ==> !m.w.s.tasks[t].at.Syncing?
  }

  /** The renewal gap is real, from any settled state: a change during a pure renewal, whether its response comes
      before DONE completes and is discarded or the change comes while nobody listens, leaves the watcher back in its
      loop and the change neither cached nor unread nor asked for nor covered; only the interval check still owes it. */
  lemma RenewalGap(m: Mail, site: Site, beforeDone: bool) returns (m': Mail)
    requires LegalTrace(site.trace) && Reachable(m, site) && Settled(m, site) && Changed(site.trace, m.now + 1)
    ensures Reachable(m', site) && Settled(m', site) && m'.w == m.w && m'.now == m.now + 1
    ensures !Reflected(m', m'.now) && m'.now !in m'.unread && !m'.watcher.WillRequest()
    ensures !WorkOutstanding(m', site, m'.now) && m'.now in m'.owed
  {
    ReflectedMeansCached(m, site);
    m' := GapOpens(m, site, beforeDone);
    hide Reachable;
    hide Changed;
    hide Apply;
    hide Can;
    hide Works;
    hide Sound;
    hide Fresh;
    hide LegalTrace;
    m' := Onward(m', site, Reidle);
    m' := Onward(m', site, Resume);
  }

  lemma GapOpens(m: Mail, site: Site, beforeDone: bool) returns (m': Mail)
    requires Reachable(m, site) && m.watcher.Checking? && m.unread == {} && Changed(site.trace, m.now + 1)
    ensures Reachable(m', site) && m.now + 1 in m'.owed
    ensures m' == m.(now := m.now + 1, watcher := Silent(false), owed := m'.owed)
  {
    hide Reachable;
    hide Changed;
    hide Apply;
    hide Can;
    hide Works;
    m' := Onward(m, site, RenewalDue);
    if beforeDone {
      m' := Onward(m', site, Elapse);
      m' := Onward(m', site, EndIdle);
    } else {
      m' := Onward(m', site, EndIdle);
      m' := Onward(m', site, Elapse);
    }
  }
}
