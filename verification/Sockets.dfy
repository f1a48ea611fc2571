/** Who owns the IDLE connection of a folder: every generation of watcher tasks for one folder, stepping
    from await to await, over the shared registry of clients and tasks. Folders have separate registry
    entries, so one folder is the general case. */
module Sockets {
  import opened Prelude

  /** The await a watcher is suspended at. `doomed`: a cancellation was delivered and is on its way out. */
  datatype At =
    | Unstarted
    | Acquiring                              // the account lock, the session, the account row
    | Opening(doomed: bool)                  // the shielded open
    | Leaving(client: nat, doomed: bool)     // leaving session and lock with an open client
    | Using(client: nat)                     // select, capability, idle, idle_check, idle_done
    | LoggingOut(client: nat)                // the server has no IDLE
    | Resting                                // the long sleep after that
    | Backoff(held: Option<nat>)             // the sleep of the failure handler
    | Shutting(client: nat, doomed: bool)    // `client.shutdown` of the inner cleanup
    | Closing                                // the outer cleanup
    | Ended

  function ClientOf(at: At): Option<nat> {
    match at
    case Leaving(c, _) => Some(c)
    case Using(c) => Some(c)
    case LoggingOut(c) => Some(c)
    case Backoff(h) => h
    case Shutting(c, _) => Some(c)
    case _ => None
  }

  predicate InUse(at: At, c: nat) {
    at == Using(c) || at == LoggingOut(c)
  }

  predicate Doomed(at: At) {
    (at.Opening? || at.Leaving? || at.Shutting?) && at.doomed
  }

  /** On the way out: nothing but cleanup remains. */
  predicate Retreating(at: At) {
    Doomed(at) || at.Closing? || at.Ended?
  }

  /** `cancel`: a cancellation was requested and not yet delivered. */
  datatype Watcher = Watcher(at: At, cancel: bool)

  datatype State = State(
    registered: Option<nat>,    // the folder's entry in the client registry
    task: Option<nat>,          // the folder's entry in the task registry
    watchers: map<nat, Watcher>,
    owner: map<nat, nat>,       // client -> the watcher that opened it
    interrupted: set<nat>,      // clients whose socket was shut down
    released: set<nat>,         // clients logged out or shut down
    dropped: set<nat>,          // clients whose shutdown was called off before it ran, still connected
    known: set<nat>,            // clients that were ever registered
    swallowed: set<nat>,        // watchers whose cancellation was replaced by a failure
    nextWatcher: nat,
    nextClient: nat)

  const INITIAL := State(None, None, map[], map[], {}, {}, {}, {}, {}, 0, 0)

  datatype Step =
    | Start | Stop
    | Run(w: nat) | Gone(w: nat) | TryOpen(w: nat) | Opened(w: nat) | Leave(w: nat)
    | NoIdle(w: nat) | LoggedOut(w: nat) | Wake(w: nat) | Fail(w: nat)
    | ShutDone(w: nat) | CloseDone(w: nat)
    | Deliver(w: nat, ran: bool) | Swallow(w: nat)

  /** `_close` with an expected client. */
  function Close(s: State, expected: Option<nat>): State {
    if s.registered.Some? && s.registered == expected then
      s.(registered := None, interrupted := s.interrupted + {s.registered.value})
    else s
  }

  function Move(s: State, w: nat, at: At): State {
    s.(watchers := s.watchers[w := Watcher(at, false)])
  }

  /** The failure handler: identity-guarded close, then sleep. */
  function Handle(s: State, w: nat, held: Option<nat>): State {
    Move(Close(s, held), w, Backoff(held))
  }

  /** The inner cleanup, then the outer one: a held client is closed if still registered and then shut down. */
  function Cleanup(s: State, w: nat, held: Option<nat>): State {
    Move(Close(s, held), w, if held.Some? then Shutting(held.value, true) else Closing)
  }

  /** `_stop_folder` */
  function StopFolder(s: State): State {
    var closed := Close(s, s.registered);
    match s.task
    case None => closed
    case Some(t) =>
      if t in s.watchers && !s.watchers[t].at.Ended? then
        closed.(task := None, watchers := s.watchers[t := s.watchers[t].(cancel := true)])
      else closed.(task := None)
  }

  function Register(s: State, w: nat, c: nat): State {
    Move(s, w, Using(c)).(registered := Some(c), known := s.known + {c})
  }

  /** A cancellation is delivered at the await the watcher is suspended at. */
  function Cancelled(s: State, w: nat, at: At, ran: bool): State {
    match at
    case Unstarted => Move(s, w, Ended)
    case Acquiring => Cleanup(s, w, None)
    case Opening(_) => Move(s, w, Opening(true))
    case Leaving(c, _) => Cleanup(s, w, Some(c))
    case Using(c) => Cleanup(s, w, Some(c))
    case LoggingOut(c) => Cleanup(s, w, Some(c))
    case Resting => Cleanup(s, w, None)
    case Backoff(h) => Cleanup(s, w, h)
    case Shutting(c, _) =>
      var out := Close(Move(s, w, Closing), Some(c));
      if ran then out.(released := out.released + {c})
      else if c in out.interrupted || c in out.released then out
      else out.(dropped := out.dropped + {c})
    case Closing => Move(s, w, Ended)
    case Ended => s
  }

  /** A failure where the watcher is suspended: its held client, if any, is closed. */
  function Failed(s: State, w: nat): State
    requires w in s.watchers
  {
    Handle(s, w, ClientOf(s.watchers[w].at))
  }

  /** An await of watcher `w` ends without a pending cancellation. */
  predicate Ready(s: State, w: nat) {
    w in s.watchers && !s.watchers[w].cancel
  }

  predicate Can(s: State, step: Step) {
    match step
    case Start => s.task.None?
    case Stop => true
    case Run(w) => Ready(s, w) && s.watchers[w].at.Unstarted?
    case Gone(w) => Ready(s, w) && s.watchers[w].at.Acquiring?
    case TryOpen(w) => Ready(s, w) && s.watchers[w].at.Acquiring?
    case Opened(w) => Ready(s, w) && s.watchers[w].at.Opening?
    case Leave(w) => Ready(s, w) && s.watchers[w].at.Leaving?
    case NoIdle(w) => Ready(s, w) && s.watchers[w].at.Using?
    case LoggedOut(w) => Ready(s, w) && s.watchers[w].at.LoggingOut?
    case Wake(w) => Ready(s, w) && (s.watchers[w].at.Resting? || s.watchers[w].at.Backoff?)
    case Fail(w) =>
      Ready(s, w) && var at := s.watchers[w].at;
      at.Acquiring? || at == Opening(false) || (at.Leaving? && !at.doomed) || at.Using? || at.LoggingOut?
    case ShutDone(w) => Ready(s, w) && s.watchers[w].at.Shutting?
    case CloseDone(w) => Ready(s, w) && s.watchers[w].at.Closing?
    case Deliver(w, _) => w in s.watchers && s.watchers[w].cancel && !s.watchers[w].at.Ended?
    case Swallow(w) =>
      w in s.watchers && var at := s.watchers[w].at;
      if s.watchers[w].cancel then at.Acquiring? else (at.Opening? || at.Leaving?) && at.doomed
  }

  function Apply(s: State, step: Step): State
    requires Can(s, step)
  {
    match step
    case Start =>
      s.(task := Some(s.nextWatcher), watchers := s.watchers[s.nextWatcher := Watcher(Unstarted, false)],
         nextWatcher := s.nextWatcher + 1)
    case Stop => StopFolder(s)
    case Run(w) => Move(s, w, Acquiring)
    case Gone(w) => Move(s, w, Closing)
    case TryOpen(w) => Move(s, w, Opening(false))
    case Opened(w) =>
      Move(s, w, Leaving(s.nextClient, s.watchers[w].at.doomed)).
        (owner := s.owner[s.nextClient := w], nextClient := s.nextClient + 1)
    case Leave(w) =>
      var at := s.watchers[w].at;
      if at.doomed then Cleanup(s, w, Some(at.client)) else Register(s, w, at.client)
    case NoIdle(w) => Move(s, w, LoggingOut(s.watchers[w].at.client))
    case LoggedOut(w) =>
      Move(s, w, Resting).(registered := None, released := s.released + {s.watchers[w].at.client})
    case Wake(w) =>
      var held := ClientOf(s.watchers[w].at);
      if held.Some? then Move(Close(s, held), w, Shutting(held.value, false)) else Move(s, w, Acquiring)
    case Fail(w) => Failed(s, w)
    case ShutDone(w) =>
      var at := s.watchers[w].at;
      var shut := s.(released := s.released + {at.client});
      if at.doomed then Move(Close(shut, Some(at.client)), w, Closing) else Move(shut, w, Acquiring)
    case CloseDone(w) => Move(s, w, Ended)
    case Deliver(w, ran) => Cancelled(s, w, s.watchers[w].at, ran)
    case Swallow(w) => Failed(s, w).(swallowed := s.swallowed + {w})
  }

  function Actor(step: Step): Option<nat> {
    match step
    case Start => None
    case Stop => None
    case Run(w) => Some(w) case Gone(w) => Some(w) case TryOpen(w) => Some(w) case Opened(w) => Some(w)
    case Leave(w) => Some(w) case NoIdle(w) => Some(w) case LoggedOut(w) => Some(w) case Wake(w) => Some(w)
    case Fail(w) => Some(w) case ShutDone(w) => Some(w) case CloseDone(w) => Some(w)
    case Deliver(w, _) => Some(w) case Swallow(w) => Some(w)
  }

  ghost predicate Reaches(s: State, steps: seq<Step>, t: State)
    decreases |steps|
  {
    if steps == [] then s == t
    else Can(s, steps[0]) && Reaches(Apply(s, steps[0]), steps[1..], t)
  }

  // ---------------------------------------------------------------- what one step of a watcher touches

  function Own(at: At): set<nat> {
    match ClientOf(at) case None => {} case Some(c) => {c}
  }

  function Disposed(s: State): set<nat> {
    s.interrupted + s.released + s.dropped
  }

  ghost predicate SameElsewhere(s: State, t: State, w: nat) {
    && w in s.watchers && w in t.watchers && t.watchers == s.watchers[w := t.watchers[w]] && !t.watchers[w].cancel
    && t.task == s.task && t.owner == s.owner && t.nextWatcher == s.nextWatcher && t.nextClient == s.nextClient
    && s.swallowed <= t.swallowed <= s.swallowed + {w}
  }

  ghost predicate TouchesOwn(s: State, t: State, mine: set<nat>) {
    && s.interrupted <= t.interrupted <= s.interrupted + mine
    && s.released <= t.released <= s.released + mine
    && s.dropped <= t.dropped <= s.dropped + mine
    && s.known <= t.known <= s.known + mine
  }

  /** Watcher `w` moved and, of all clients, touched at most the one it held; it lets go of none undisposed. */
  ghost predicate Framed(s: State, t: State, w: nat) {
    && SameElsewhere(s, t, w) && TouchesOwn(s, t, Own(s.watchers[w].at))
    && Own(t.watchers[w].at) <= Own(s.watchers[w].at) <= Own(t.watchers[w].at) + Disposed(t)
  }

  predicate Moves(step: Step) {
    Actor(step).Some? && !step.Opened?
  }

  lemma StepLeavesTheRest(s: State, step: Step)
    requires Can(s, step) && Moves(step)
    ensures SameElsewhere(s, Apply(s, step), Actor(step).value)
  {
  }

  lemma StepTouchesOwn(s: State, step: Step)
    requires Can(s, step) && Moves(step)
    ensures TouchesOwn(s, Apply(s, step), Own(s.watchers[Actor(step).value].at))
  {
  }

  lemma StepDisposes(s: State, step: Step)
    requires Can(s, step) && Moves(step)
    ensures var before, after := Own(s.watchers[Actor(step).value].at), Own(Apply(s, step).watchers[Actor(step).value].at);
      after <= before <= after + Disposed(Apply(s, step))
  {
  }

  lemma StepFrames(s: State, step: Step)
    requires Can(s, step) && Moves(step)
    ensures Framed(s, Apply(s, step), Actor(step).value)
  {
    StepLeavesTheRest(s, step);
    StepTouchesOwn(s, step);
    StepDisposes(s, step);
    hide Apply;
  }

  /** Retreat is one way: only a swallowed cancellation turns a watcher back. */
  lemma RetreatIsOneWay(s: State, step: Step)
    requires Can(s, step) && Moves(step)
    ensures var w := Actor(step).value; var before, after := s.watchers[w], Apply(s, step).watchers[w].at;
      && (!step.Swallow? && (before.cancel || Retreating(before.at)) ==> Retreating(after))
      && (Doomed(after) ==> before.cancel || Doomed(before.at))
      && (step.Swallow? ==> (before.cancel || Doomed(before.at)) && !Doomed(after))
      && (Apply(s, step).swallowed == if step.Swallow? then s.swallowed + {w} else s.swallowed)
  {
  }

  /** How the registration changes: it stays; the watcher's own is closed or popped; a pop or a new
      registration comes from a watcher that is neither cancelled nor on its way out. */
  lemma RegistrationChanges(s: State, step: Step)
    requires Can(s, step) && Moves(step)
    ensures var w, t := Actor(step).value, Apply(s, step); var at := s.watchers[w].at;
      || t.registered == s.registered
      || (t.registered == None && s.registered.Some? && s.registered == ClientOf(at) && s.registered.value in t.interrupted)
      || (!s.watchers[w].cancel && !Retreating(at) &&
          ((t.registered == None && at.LoggingOut? && at.client in t.released) ||
           (at.Leaving? && t.registered == Some(at.client) && t.watchers[w].at == Using(at.client))))
  {
  }

  lemma UseAndRegistration(s: State, step: Step, c: nat)
    requires Can(s, step) && Moves(step)
    ensures var w, t := Actor(step).value, Apply(s, step); var before, after := s.watchers[w].at, t.watchers[w].at;
      && (InUse(before, c) && !InUse(after, c) ==> t.registered != Some(c))
      && (InUse(before, c) && InUse(after, c) ==> t.registered == s.registered)
      && (!InUse(before, c) && InUse(after, c) ==> t.registered == Some(c))
      && (c in t.known && c !in s.known ==> t.registered == Some(c))
  {
  }

  lemma DropsOnlyTheConnected(s: State, step: Step, c: nat)
    requires Can(s, step) && Moves(step)
    requires c in Apply(s, step).dropped && c !in s.dropped
    ensures var w, t := Actor(step).value, Apply(s, step);
      && s.watchers[w].at.Shutting? && s.watchers[w].at.client == c
      && c !in t.interrupted && c !in t.released && t.registered != Some(c)
      && t.watchers[w].at.Closing?
  {
  }

  // ---------------------------------------------------------------- the invariant

  ghost predicate Booked(s: State) {
    && (forall w :: w in s.watchers ==> w < s.nextWatcher)
    && (forall c :: c in s.owner ==> c < s.nextClient && s.owner[c] in s.watchers)
    && (s.task.Some? ==> s.task.value in s.watchers)
    && s.swallowed <= s.watchers.Keys
    && s.interrupted + s.released + s.dropped + s.known <= s.owner.Keys
  }

  /** A watcher holds only a client it opened itself. */
  ghost predicate Held(s: State) {
    forall w, c :: w in s.watchers && c in Own(s.watchers[w].at) ==> c in s.owner && s.owner[c] == w
  }

  /** A client is still held by the watcher that opened it, or has been disposed of. */
  ghost predicate Settled(s: State) {
    forall c :: c in s.owner && s.owner[c] in s.watchers ==>
      c in Own(s.watchers[s.owner[c]].at) || c in Disposed(s)
  }

  /** A superseded watcher is cancelled or on its way out, unless it swallowed its cancellation. */
  ghost predicate Retiring(s: State) {
    forall w :: w in s.watchers && w !in s.swallowed && s.task != Some(w) ==>
      s.watchers[w].cancel || Retreating(s.watchers[w].at)
  }

  /** A watcher is cancelled at most once in its life, and only after it left the task registry. */
  ghost predicate CancelledOnce(s: State) {
    forall w :: w in s.watchers ==>
      && (s.watchers[w].cancel || Doomed(s.watchers[w].at) || w in s.swallowed ==> s.task != Some(w))
      && (s.watchers[w].cancel ==> !Doomed(s.watchers[w].at) && !s.watchers[w].at.Ended? && w !in s.swallowed)
      && (w in s.swallowed ==> !Doomed(s.watchers[w].at))
  }

  /** The registered client is in use by its owner, which is the current watcher or a swallower. */
  ghost predicate RegisteredIsUsed(s: State) {
    s.registered.Some? ==>
      var c := s.registered.value;
      && c in s.owner && s.owner[c] in s.watchers && InUse(s.watchers[s.owner[c]].at, c)
      && (s.task == Some(s.owner[c]) || s.owner[c] in s.swallowed)
  }

  /** With no cancellation swallowed, the client in use by the current watcher is the registered one. */
  ghost predicate UsedIsRegistered(s: State) {
    s.swallowed == {} && s.task.Some? && s.task.value in s.watchers ==>
      forall c: nat :: InUse(s.watchers[s.task.value].at, c) ==> s.registered == Some(c)
  }

  function Registered(s: State): set<nat> {
    match s.registered case None => {} case Some(c) => {c}
  }

  /** With no cancellation swallowed, a client that lost its registration is off the network. */
  ghost predicate KnownIsInterrupted(s: State) {
    s.swallowed == {} ==> s.known <= Registered(s) + s.interrupted + s.released && s.known !! s.dropped
  }

  /** Dropping is being let go of while connected, and the last thing a watcher does to a client: it drops at most one. */
  ghost predicate DroppedIsLost(s: State) {
    && s.dropped !! s.interrupted + s.released
    && (forall c :: c in s.dropped && c in s.owner && s.owner[c] in s.watchers ==> Final(s.watchers[s.owner[c]].at))
    && forall c, d :: c in s.dropped && d in s.dropped && c in s.owner && d in s.owner && s.owner[c] == s.owner[d] ==> c == d
  }

  /** Only the outer cleanup is left: no client is held, and none will be opened. */
  predicate Final(at: At) {
    at.Closing? || at.Ended?
  }

  /** Only registered clients are interrupted; a client that was released is held by no one. */
  ghost predicate KnownAndLive(s: State) {
    && Registered(s) + s.interrupted <= s.known
    && forall w, c :: w in s.watchers && c in Own(s.watchers[w].at) ==> c !in s.released
  }

  ghost predicate Invariant(s: State) {
    && Booked(s) && Held(s) && Settled(s) && Retiring(s) && CancelledOnce(s)
    && RegisteredIsUsed(s) && UsedIsRegistered(s) && KnownIsInterrupted(s) && DroppedIsLost(s) && KnownAndLive(s)
  }

  lemma InitiallyInvariant()
    ensures Invariant(INITIAL)
  {
  }

  lemma BookedKept(s: State, t: State, w: nat)
    requires Booked(s) && Held(s) && Framed(s, t, w)
    ensures Booked(t)
  {
    assert Own(s.watchers[w].at) <= s.owner.Keys;
  }

  lemma HeldKept(s: State, t: State, w: nat)
    requires Held(s) && Framed(s, t, w)
    ensures Held(t)
  {
  }

  lemma SettledKept(s: State, t: State, w: nat)
    requires Settled(s) && Framed(s, t, w)
    ensures Settled(t)
  {
  }

  lemma RetiringKept(s: State, step: Step)
    requires Retiring(s) && Can(s, step) && Moves(step)
    ensures Retiring(Apply(s, step))
  {
    StepFrames(s, step);
    RetreatIsOneWay(s, step);
    hide Apply;
    hide Retreating;
  }

  lemma CancelledOnceKept(s: State, step: Step)
    requires Retiring(s) && CancelledOnce(s) && Can(s, step) && Moves(step)
    ensures CancelledOnce(Apply(s, step))
  {
    StepFrames(s, step);
    RetreatIsOneWay(s, step);
    hide Apply;
    hide Doomed;
  }

  /** A superseded watcher that did not swallow its cancellation leaves every registration but its own alone. */
  lemma SupersededKeepsOff(s: State, step: Step)
    requires Retiring(s) && Can(s, step) && Moves(step)
    requires var w := Actor(step).value; w !in s.swallowed && s.task != Some(w)
    ensures var w, t := Actor(step).value, Apply(s, step);
      t.registered == s.registered
      || (t.registered == None && s.registered.Some? && s.registered == ClientOf(s.watchers[w].at)
          && s.registered.value in t.interrupted)
  {
    RegistrationChanges(s, step);
    hide Apply;
  }

  lemma RegisteredIsUsedKept(s: State, step: Step)
    requires Held(s) && Retiring(s) && RegisteredIsUsed(s) && Can(s, step) && Moves(step)
    ensures RegisteredIsUsed(Apply(s, step))
  {
    var t := Apply(s, step);
    if t.registered.Some? {
      var w := Actor(step).value;
      StepFrames(s, step);
      RegistrationChanges(s, step);
      UseAndRegistration(s, step, t.registered.value);
      hide Apply;
      if w !in s.swallowed && s.task != Some(w) {
        SupersededKeepsOff(s, step);
      }
    }
  }

  lemma UsedIsRegisteredKept(s: State, step: Step)
    requires Held(s) && Retiring(s) && UsedIsRegistered(s) && Can(s, step) && Moves(step)
    ensures UsedIsRegistered(Apply(s, step))
  {
    var w, t := Actor(step).value, Apply(s, step);
    StepFrames(s, step);
    if t.swallowed == {} && t.task.Some? && t.task.value in t.watchers {
      var v := t.task.value;
      forall c: nat | InUse(t.watchers[v].at, c)
        ensures t.registered == Some(c)
      {
        UseAndRegistration(s, step, c);
        hide Apply;
        if v != w {
          SupersededKeepsOff(s, step);
          assert v in s.watchers && c in Own(s.watchers[v].at);
          assert s.owner[c] == v;
          assert c !in Own(s.watchers[w].at);
        }
      }
    }
  }

  lemma KnownIsInterruptedKept(s: State, step: Step)
    requires Held(s) && Retiring(s) && RegisteredIsUsed(s) && UsedIsRegistered(s) && KnownIsInterrupted(s)
    requires DroppedIsLost(s) && Can(s, step) && Moves(step)
    ensures KnownIsInterrupted(Apply(s, step))
  {
    var w, t := Actor(step).value, Apply(s, step);
    StepFrames(s, step);
    if t.swallowed == {} {
      RegistrationChanges(s, step);
      forall c | c in t.known
        ensures c in Registered(t) + t.interrupted + t.released && c !in t.dropped
      {
        UseAndRegistration(s, step, c);
        if c in t.dropped && c !in s.dropped {
          DropsOnlyTheConnected(s, step, c);
        }
        hide Apply;
        assert c in Own(s.watchers[w].at) ==> c in s.owner && s.owner[c] == w;
        if s.registered == Some(c) && s.task != Some(w) {
          SupersededKeepsOff(s, step);
        }
      }
    }
  }

  lemma DroppedIsLostKept(s: State, step: Step)
    requires Held(s) && DroppedIsLost(s) && Can(s, step) && Moves(step)
    ensures DroppedIsLost(Apply(s, step))
  {
    var w, t := Actor(step).value, Apply(s, step);
    StepFrames(s, step);
    forall c | c in t.dropped
      ensures c !in t.interrupted && c !in t.released
      ensures c in t.owner && t.owner[c] in t.watchers ==> Final(t.watchers[t.owner[c]].at)
    {
      if c !in s.dropped {
        DropsOnlyTheConnected(s, step, c);
      }
      FinalStays(s, step);
      hide Apply;
    }
    forall c, d | c in t.dropped && d in t.dropped && c in t.owner && d in t.owner && t.owner[c] == t.owner[d]
      ensures c == d
    {
      DropsOne(s, step, c, d);
    }
  }

  lemma FinalStays(s: State, step: Step)
    requires Can(s, step) && Moves(step)
    ensures var w := Actor(step).value; Final(s.watchers[w].at) ==> Final(Apply(s, step).watchers[w].at)
  {
  }

  lemma DropsOne(s: State, step: Step, c: nat, d: nat)
    requires Held(s) && DroppedIsLost(s) && Can(s, step) && Moves(step)
    requires var t := Apply(s, step);
      c in t.dropped && d in t.dropped && c in t.owner && d in t.owner && t.owner[c] == t.owner[d]
    ensures c == d
  {
    var w := Actor(step).value;
    StepFrames(s, step);
    if c !in s.dropped {
      DropsOnlyTheConnected(s, step, c);
    }
    if d !in s.dropped {
      DropsOnlyTheConnected(s, step, d);
    }
    hide Apply;
    assert c !in s.dropped ==> c in Own(s.watchers[w].at);
    assert d !in s.dropped ==> d in Own(s.watchers[w].at);
  }

  lemma LetGoOnRelease(s: State, step: Step, c: nat)
    requires Can(s, step) && Moves(step)
    ensures var w, t := Actor(step).value, Apply(s, step);
      && (c in t.released && c !in s.released ==> Own(t.watchers[w].at) == {})
      && (c in t.interrupted && c !in s.interrupted ==> s.registered == Some(c))
  {
  }

  lemma KnownAndLiveKept(s: State, step: Step)
    requires Held(s) && KnownAndLive(s) && Can(s, step) && Moves(step)
    ensures KnownAndLive(Apply(s, step))
  {
    var w, t := Actor(step).value, Apply(s, step);
    StepFrames(s, step);
    forall c ensures c in Registered(t) + t.interrupted ==> c in t.known {
      LetGoOnRelease(s, step, c);
      NewlyRegisteredIsKnown(s, step);
      hide Apply;
      assert s.registered == Some(c) ==> c in Registered(s);
    }
    forall v, c | v in t.watchers && c in Own(t.watchers[v].at) ensures c !in t.released {
      LetGoOnRelease(s, step, c);
      hide Apply;
      assert v in s.watchers && c in Own(s.watchers[v].at);
      assert c in s.owner && s.owner[c] == v;
      assert c in Own(s.watchers[w].at) ==> s.owner[c] == w;
    }
  }

  lemma NewlyRegisteredIsKnown(s: State, step: Step)
    requires Can(s, step) && Moves(step)
    ensures var t := Apply(s, step); t.registered == s.registered || Registered(t) <= t.known
  {
  }

  lemma MoveKeeps(s: State, step: Step)
    requires Invariant(s) && Can(s, step) && Moves(step)
    ensures Invariant(Apply(s, step))
  {
    var w, t := Actor(step).value, Apply(s, step);
    StepFrames(s, step);
    RetiringKept(s, step);
    CancelledOnceKept(s, step);
    RegisteredIsUsedKept(s, step);
    UsedIsRegisteredKept(s, step);
    KnownIsInterruptedKept(s, step);
    DroppedIsLostKept(s, step);
    KnownAndLiveKept(s, step);
    BookedKept(s, t, w);
    HeldKept(s, t, w);
    SettledKept(s, t, w);
    hide *;
    assert Invariant(t) by { ShowInvariant(t); }
  }

  lemma ShowInvariant(s: State)
    requires Booked(s) && Held(s) && Settled(s) && Retiring(s) && CancelledOnce(s)
    requires RegisteredIsUsed(s) && UsedIsRegistered(s) && KnownIsInterrupted(s) && DroppedIsLost(s) && KnownAndLive(s)
    ensures Invariant(s)
  {
  }

  /** What a completed open does: watcher `w`, holding nothing, now holds a client no one knew. */
  ghost predicate Gained(s: State, t: State, w: nat) {
    && w in s.watchers && w in t.watchers && !s.watchers[w].cancel && s.watchers[w].at.Opening?
    && t.watchers[w] == Watcher(Leaving(s.nextClient, s.watchers[w].at.doomed), false)
    && t == s.(watchers := s.watchers[w := t.watchers[w]], owner := s.owner[s.nextClient := w], nextClient := s.nextClient + 1)
  }

  lemma GainedKeepsClients(s: State, t: State, w: nat)
    requires Gained(s, t, w) && Booked(s) && Held(s) && Settled(s)
    ensures Booked(t) && Held(t) && Settled(t)
  {
    assert s.nextClient !in s.owner;
    assert Own(s.watchers[w].at) == {} && Own(t.watchers[w].at) == {s.nextClient};
  }

  lemma GainedKeepsKnown(s: State, t: State, w: nat)
    requires Gained(s, t, w) && Booked(s) && KnownAndLive(s)
    ensures KnownAndLive(t)
  {
    assert s.nextClient !in s.owner;
    assert Own(t.watchers[w].at) == {s.nextClient};
  }

  lemma GainedKeepsRetreat(s: State, t: State, w: nat)
    requires Gained(s, t, w) && Retiring(s) && CancelledOnce(s)
    ensures Retiring(t) && CancelledOnce(t)
  {
  }

  lemma GainedKeepsRegistration(s: State, t: State, w: nat)
    requires Gained(s, t, w) && Booked(s)
    requires RegisteredIsUsed(s) && UsedIsRegistered(s) && KnownIsInterrupted(s) && DroppedIsLost(s)
    ensures RegisteredIsUsed(t) && UsedIsRegistered(t) && KnownIsInterrupted(t) && DroppedIsLost(t)
  {
    assert s.nextClient !in s.owner;
    assert Own(t.watchers[w].at) == {s.nextClient};
  }

  lemma OpenedKeeps(s: State, w: nat)
    requires Invariant(s) && Can(s, Opened(w))
    ensures Invariant(Apply(s, Opened(w)))
  {
    var t := Apply(s, Opened(w));
    GainedKeepsClients(s, t, w);
    GainedKeepsKnown(s, t, w);
    GainedKeepsRetreat(s, t, w);
    GainedKeepsRegistration(s, t, w);
    hide *;
    ShowInvariant(t);
  }

  /** What `create_task` does: the next watcher is there, holding nothing. */
  ghost predicate Started(s: State, t: State) {
    && s.nextWatcher !in s.watchers && t.watchers == s.watchers[s.nextWatcher := Watcher(Unstarted, false)]
    && s.task.None? && t == s.(task := Some(s.nextWatcher), watchers := t.watchers, nextWatcher := s.nextWatcher + 1)
  }

  lemma StartedKeepsClients(s: State, t: State)
    requires Started(s, t) && Booked(s) && Held(s) && Settled(s) && KnownAndLive(s)
    ensures Booked(t) && Held(t) && Settled(t) && KnownAndLive(t)
  {
  }

  lemma StartedKeepsRetreat(s: State, t: State)
    requires Started(s, t) && Booked(s) && Retiring(s) && CancelledOnce(s)
    ensures Retiring(t) && CancelledOnce(t)
  {
  }

  lemma StartedKeepsRegistration(s: State, t: State)
    requires Started(s, t) && Booked(s) && RegisteredIsUsed(s) && KnownIsInterrupted(s) && DroppedIsLost(s)
    ensures RegisteredIsUsed(t) && UsedIsRegistered(t) && KnownIsInterrupted(t) && DroppedIsLost(t)
  {
  }

  lemma StartKeeps(s: State)
    requires Invariant(s) && Can(s, Start)
    ensures Invariant(Apply(s, Start))
  {
    var t := Apply(s, Start);
    assert Started(s, t) by {
      assert s.nextWatcher !in s.watchers;
    }
    StartedKeepsClients(s, t);
    StartedKeepsRetreat(s, t);
    StartedKeepsRegistration(s, t);
    hide *;
    ShowInvariant(t);
  }

  predicate CancelledBy(s: State, w: nat)
    requires w in s.watchers
  {
    s.watchers[w].cancel || (s.task == Some(w) && !s.watchers[w].at.Ended?)
  }

  /** What `_stop_folder` does: the registered socket is cut, the current watcher is cancelled. */
  ghost predicate Stopped(s: State, t: State) {
    && t.registered == None && t.task == None && t.interrupted == s.interrupted + Registered(s)
    && t == s.(registered := None, task := None, interrupted := t.interrupted, watchers := t.watchers)
    && t.watchers.Keys == s.watchers.Keys
    && (forall w :: w in s.watchers ==> w in t.watchers && t.watchers[w].at == s.watchers[w].at)
    && (forall w :: w in s.watchers ==> w in t.watchers && t.watchers[w].cancel == CancelledBy(s, w))
  }

  lemma StopStops(s: State)
    ensures Stopped(s, Apply(s, Stop))
  {
  }

  lemma StoppedKeepsClients(s: State, t: State)
    requires Stopped(s, t) && Booked(s) && Held(s) && Settled(s) && RegisteredIsUsed(s)
    ensures Booked(t) && Held(t) && Settled(t)
  {
    hide Retreating;
  }

  lemma StoppedKeepsKnown(s: State, t: State)
    requires Stopped(s, t) && KnownAndLive(s)
    ensures KnownAndLive(t)
  {
    forall w, c | w in t.watchers && c in Own(t.watchers[w].at) ensures c !in t.released {
      assert w in s.watchers && c in Own(s.watchers[w].at);
    }
  }

  lemma StoppedKeepsRetreat(s: State, t: State)
    requires Stopped(s, t) && Retiring(s) && CancelledOnce(s)
    ensures Retiring(t) && CancelledOnce(t)
  {
  }

  lemma StoppedKeepsRegistration(s: State, t: State)
    requires Stopped(s, t) && KnownIsInterrupted(s) && DroppedIsLost(s) && RegisteredIsUsed(s)
    ensures RegisteredIsUsed(t) && UsedIsRegistered(t) && KnownIsInterrupted(t) && DroppedIsLost(t)
  {
  }

  lemma StopKeeps(s: State)
    requires Invariant(s)
    ensures Invariant(Apply(s, Stop))
  {
    StopStops(s);
    var t := Apply(s, Stop);
    StoppedKeepsClients(s, t);
    StoppedKeepsKnown(s, t);
    StoppedKeepsRetreat(s, t);
    StoppedKeepsRegistration(s, t);
    hide *;
    ShowInvariant(t);
  }

  lemma StepKeeps(s: State, step: Step)
    requires Invariant(s) && Can(s, step)
    ensures Invariant(Apply(s, step))
  {
    match step
    case Start => StartKeeps(s);
    case Stop => StopKeeps(s);
    case Opened(w) => OpenedKeeps(s, w);
    case _ => MoveKeeps(s, step);
  }

  lemma {:induction false} RunKeeps(s: State, steps: seq<Step>, t: State)
    requires Invariant(s) && Reaches(s, steps, t)
    ensures Invariant(t)
    decreases |steps|
  {
    hide Invariant;
    hide Apply;
    if steps != [] {
      StepKeeps(s, steps[0]);
      RunKeeps(Apply(s, steps[0]), steps[1..], t);
    }
  }

  ghost predicate Reachable(s: State) {
    exists steps :: Reaches(INITIAL, steps, s)
  }

  lemma ReachableIsInvariant(s: State)
    requires Reachable(s)
    ensures Invariant(s)
  {
    var steps :| Reaches(INITIAL, steps, s);
    InitiallyInvariant();
    RunKeeps(INITIAL, steps, s);
  }

  // ---------------------------------------------------------------- main results

  /** No watcher ever shuts down, logs out or drops a client another watcher opened. */
  lemma SocketsAreTouchedByTheirOwner(s: State, step: Step, c: nat)
    requires Reachable(s) && Can(s, step) && Actor(step).Some?
    requires c in s.owner && s.owner[c] != Actor(step).value
    ensures var t := Apply(s, step);
      && (c in t.interrupted <==> c in s.interrupted)
      && (c in t.released <==> c in s.released)
      && (c in t.dropped <==> c in s.dropped)
  {
    ReachableIsInvariant(s);
    if Moves(step) {
      StepFrames(s, step);
      hide Apply;
      assert c !in Own(s.watchers[Actor(step).value].at);
    }
  }

  /** The unconditional pop after a logout, and the registration of a new client. */
  predicate Takes(s: State, step: Step) {
    Can(s, step) && (step.LoggedOut? || (step.Leave? && !s.watchers[step.w].at.doomed))
  }

  /** Of the steps of other watchers, exactly those two cost a client its registration. */
  lemma RegistrationIsLostExactly(s: State, step: Step, c: nat)
    requires Reachable(s) && Can(s, step) && Actor(step).Some?
    requires s.registered == Some(c) && c in s.owner && s.owner[c] != Actor(step).value
    ensures Apply(s, step).registered != Some(c) <==> Takes(s, step)
  {
    ReachableIsInvariant(s);
    var w := Actor(step).value;
    if Moves(step) {
      assert c !in Own(s.watchers[w].at);
      if Takes(s, step) {
        TakingTakes(s, step, c);
      } else {
        OthersTakeNone(s, step);
      }
    }
  }

  lemma TakingTakes(s: State, step: Step, c: nat)
    requires Takes(s, step) && c !in Own(s.watchers[step.w].at)
    ensures Apply(s, step).registered != Some(c)
  {
  }

  lemma OthersTakeNone(s: State, step: Step)
    requires Can(s, step) && Moves(step) && !Takes(s, step)
    ensures var t := Apply(s, step);
      t.registered == s.registered || s.registered == ClientOf(s.watchers[Actor(step).value].at)
  {
  }

  /** On reachable states neither is open to a superseded watcher that swallowed nothing, and the current watcher
      displaces only a swallower: a registration is lost to another watcher only where a swallowed cancellation is
      involved. */
  lemma RegistrationIsLostOnlyToSwallowers(s: State, step: Step, c: nat)
    requires Reachable(s) && Can(s, step) && Actor(step).Some?
    requires s.registered == Some(c) && c in s.owner && s.owner[c] != Actor(step).value
    ensures Apply(s, step).registered != Some(c) ==>
      Actor(step).value in s.swallowed || (s.task == Actor(step) && s.owner[c] in s.swallowed)
  {
    RegistrationIsLostExactly(s, step, c);
    ReachableIsInvariant(s);
    hide Apply;
    hide Settled;
    hide DroppedIsLost;
    hide KnownIsInterrupted;
  }

  /** A cancellation reaches the watcher while its client's shutdown waits to run, and the client's socket was not cut
      before and is not now. */
  predicate CalledOff(s: State, step: Step, c: nat) {
    && step.Deliver? && !step.ran && step.w in s.watchers
    && s.watchers[step.w].at.Shutting? && s.watchers[step.w].at.client == c
    && c !in s.interrupted && s.registered != Some(c)
  }

  ghost predicate SometimeCalledOff(s: State, steps: seq<Step>, c: nat)
    decreases |steps|
  {
    steps != [] && Can(s, steps[0]) &&
    (CalledOff(s, steps[0], c) || SometimeCalledOff(Apply(s, steps[0]), steps[1..], c))
  }

  /** One step drops a client exactly when the client's shutdown is called off; and while no cancellation was swallowed,
      only a client that was never registered is still connected then. */
  lemma DropsExactlyTheCalledOff(s: State, step: Step, c: nat)
    requires RegisteredIsUsed(s) && KnownIsInterrupted(s) && KnownAndLive(s) && DroppedIsLost(s) && Can(s, step)
    ensures c in Apply(s, step).dropped <==> c in s.dropped || CalledOff(s, step, c)
    ensures CalledOff(s, step, c) && s.swallowed == {} ==> c !in s.known
    ensures step.Deliver? && !step.ran && s.watchers[step.w].at.Shutting? && s.watchers[step.w].at.client == c && c !in s.known ==>
      CalledOff(s, step, c)
  {
    if CalledOff(s, step, c) {
      assert c in Own(s.watchers[step.w].at);
    }
    if Moves(step) {
      StepFrames(s, step);
      if c in Apply(s, step).dropped && c !in s.dropped {
        DropsOnlyTheConnected(s, step, c);
        DropIsCalledOff(s, step, c);
      }
      if CalledOff(s, step, c) {
        CalledOffDrops(s, step, c);
      }
    }
    hide Apply;
  }

  lemma DropIsCalledOff(s: State, step: Step, c: nat)
    requires Can(s, step) && Moves(step)
    requires c in Apply(s, step).dropped && c !in s.dropped
    ensures CalledOff(s, step, c)
  {
  }

  lemma CalledOffDrops(s: State, step: Step, c: nat)
    requires Can(s, step) && CalledOff(s, step, c) && c !in s.released
    ensures c in Apply(s, step).dropped
  {
  }

  lemma InvariantParts(s: State)
    requires Invariant(s)
    ensures RegisteredIsUsed(s) && KnownIsInterrupted(s) && KnownAndLive(s) && DroppedIsLost(s)
  {
  }

  lemma {:induction false} RunDropsTheCalledOff(s: State, steps: seq<Step>, t: State, c: nat)
    requires Invariant(s) && Reaches(s, steps, t)
    ensures c in t.dropped <==> c in s.dropped || SometimeCalledOff(s, steps, c)
    decreases |steps|
  {
    hide Invariant;
    hide Apply;
    if steps != [] {
      StepKeeps(s, steps[0]);
      InvariantParts(s);
      DropsExactlyTheCalledOff(s, steps[0], c);
      RunDropsTheCalledOff(Apply(s, steps[0]), steps[1..], t, c);
    }
  }

  /** Every client of an ended watcher was logged out or shut down, except exactly those whose shutdown a cancellation
      called off before it ran, still connected. */
  lemma EndedWatchersLetGo(steps: seq<Step>, s: State, c: nat)
    requires Reaches(INITIAL, steps, s)
    requires c in s.owner && s.owner[c] in s.watchers && s.watchers[s.owner[c]].at.Ended?
    ensures c in s.interrupted || c in s.released <==> !SometimeCalledOff(INITIAL, steps, c)
  {
    InitiallyInvariant();
    RunKeeps(INITIAL, steps, s);
    RunDropsTheCalledOff(INITIAL, steps, s, c);
    hide SometimeCalledOff;
  }

  /** While no cancellation was swallowed, a client that ever made it into the registry is never among those. */
  lemma RegisteredClientsAreReleased(s: State, c: nat)
    requires Reachable(s) && s.swallowed == {}
    requires c in s.known && c in s.owner && s.owner[c] in s.watchers && s.watchers[s.owner[c]].at.Ended?
    ensures c in s.interrupted || c in s.released
  {
    ReachableIsInvariant(s);
  }

  /** A watcher never has two connections open, one it dropped included. */
  lemma OneConnectionPerWatcher(s: State, c: nat, d: nat)
    requires Reachable(s)
    requires c in s.owner && d in s.owner && s.owner[c] == s.owner[d]
    requires c !in s.interrupted + s.released && d !in s.interrupted + s.released
    ensures c == d
  {
    ReachableIsInvariant(s);
    hide RegisteredIsUsed;
    hide UsedIsRegistered;
    hide KnownIsInterrupted;
    hide KnownAndLive;
    hide Retiring;
    hide CancelledOnce;
    var at := s.watchers[s.owner[c]].at;
    assert c in Own(at) || c in s.dropped;
    assert d in Own(at) || d in s.dropped;
    assert Final(at) ==> Own(at) == {};
  }

  /** While no cancellation was swallowed, stopping a folder cuts the socket its watcher may be blocked on. */
  lemma StopCutsTheLiveSocket(s: State, c: nat)
    requires Reachable(s) && s.swallowed == {}
    requires s.task.Some? && s.task.value in s.watchers && InUse(s.watchers[s.task.value].at, c)
    ensures c in Apply(s, Stop).interrupted
  {
    ReachableIsInvariant(s);
    StopStops(s);
  }

  /** A watcher that swallowed its cancellation is never cancelled again. */
  lemma SwallowersAreOutOfReach(s: State, w: nat, ran: bool)
    requires Reachable(s) && w in s.swallowed
    ensures s.task != Some(w) && !Can(s, Deliver(w, ran)) && !Can(s, Swallow(w))
  {
    ReachableIsInvariant(s);
  }

  lemma {:induction false} ReachesFurther(s: State, steps: seq<Step>, t: State, step: Step)
    requires Reaches(s, steps, t) && Can(t, step)
    ensures Reaches(s, steps + [step], Apply(t, step))
    decreases |steps|
  {
    hide Apply;
    if steps == [] {
      assert (steps + [step])[1..] == [];
    } else {
      assert (steps + [step])[1..] == steps[1..] + [step];
      ReachesFurther(Apply(s, steps[0]), steps[1..], t, step);
    }
  }

  lemma Onward(s: State, step: Step) returns (t: State)
    requires Reachable(s) && Can(s, step)
    ensures t == Apply(s, step) && Reachable(t)
  {
    hide Apply;
    t := Apply(s, step);
    var steps :| Reaches(INITIAL, steps, s);
    ReachesFurther(INITIAL, steps, s, step);
  }

  /** Between the open and the registration something fails. */
  lemma AnOpenIsLeftFailing() returns (s: State)
    ensures Reachable(s) && s.swallowed == {} && s.registered == None && s.interrupted == {} && s.released == {}
    ensures s.task == Some(0) && s.owner == map[0 := 0] && s.watchers == map[0 := Watcher(Backoff(Some(0)), false)]
  {
    s := AWatcherOpens();
    hide Reachable;
    s := Onward(s, Opened(0));
    s := AWatcherFails(s);
  }

  lemma AWatcherFails(s: State) returns (t: State)
    requires Reachable(s) && s.registered == None && s.watchers == map[0 := Watcher(Leaving(0, false), false)]
    ensures Reachable(t) && t == s.(watchers := map[0 := Watcher(Backoff(Some(0)), false)])
  {
    hide Reachable;
    t := Onward(s, Fail(0));
  }

  /** The exception is real, without any swallowed cancellation: the watcher is stopped while the shutdown of a client
      that was never registered waits to run. The watcher has ended and the client is still connected. */
  lemma AClientIsLeftConnected() returns (s: State)
    ensures Reachable(s) && s.swallowed == {} && 0 in s.watchers && s.watchers[0].at.Ended?
    ensures 0 in s.owner && s.owner[0] == 0 && 0 !in s.interrupted && 0 !in s.released
  {
    s := AnOpenIsLeftFailing();
    hide Reachable;
    s := Onward(s, Wake(0));
    s := Onward(s, Stop);
    s := Onward(s, Deliver(0, false));
    s := Onward(s, CloseDone(0));
  }

  /** A watcher is stopped while its connection is being opened, and the open fails. */
  const TURNED_BACK := INITIAL.(watchers := map[0 := Watcher(Backoff(None), false)], swallowed := {0}, nextWatcher := 1)

  lemma AWatcherOpens() returns (s: State)
    ensures Reachable(s)
    ensures s == INITIAL.(task := Some(0), watchers := map[0 := Watcher(Opening(false), false)], nextWatcher := 1)
  {
    assert Reaches(INITIAL, [], INITIAL);
    s := INITIAL;
    hide Reachable;
    s := Onward(s, Start);
    s := Onward(s, Run(0));
    s := Onward(s, TryOpen(0));
  }

  lemma AWatcherTurnsBack()
    ensures Reachable(TURNED_BACK)
  {
    var s := AWatcherOpens();
    hide Reachable;
    s := Onward(s, Stop);
    s := Onward(s, Deliver(0, true));
    s := Onward(s, Swallow(0));
    assert s.watchers == TURNED_BACK.watchers && s.swallowed == {0} && s.nextWatcher == 1;
    assert s == TURNED_BACK;
  }

  /** Its replacement connects. */
  const REPLACED := TURNED_BACK.(
    watchers := map[0 := Watcher(Backoff(None), false), 1 := Watcher(Using(0), false)],
    task := Some(1), registered := Some(0), owner := map[0 := 1], known := {0}, nextWatcher := 2, nextClient := 1)

  lemma AReplacementConnects()
    ensures Reachable(REPLACED)
  {
    AWatcherTurnsBack();
    var s := TURNED_BACK;
    hide Reachable;
    s := Onward(s, Start);
    s := Onward(s, Run(1));
    s := Onward(s, TryOpen(1));
    s := Onward(s, Opened(1));
    s := Onward(s, Leave(1));
    assert s.watchers == REPLACED.watchers && s.owner == REPLACED.owner && s.known == {0};
    assert s == REPLACED;
  }

  /** The open of a cancelled watcher fails, the watcher goes on, reconnects and displaces its replacement:
      the replacement's client is in use, unregistered, and out of `_stop_folder`'s reach. */
  lemma ASwallowerDisplacesItsReplacement() returns (s: State)
    ensures Reachable(s) && 0 in s.swallowed
    ensures s.task == Some(1) && 1 in s.watchers && InUse(s.watchers[1].at, 0)
    ensures s.registered == Some(1) && 1 in s.owner && s.owner[1] == 0 && 0 !in Apply(s, Stop).interrupted
  {
    AReplacementConnects();
    s := REPLACED;
    hide Reachable;
    s := Onward(s, Wake(0));
    s := Onward(s, TryOpen(0));
    s := Onward(s, Opened(0));
    s := Onward(s, Leave(0));
  }
}
