/** The client's view of work in progress: its own actions, and the server's list as the event stream and
    HTTP snapshots race to bring it. */
module ActivityStore {
  import opened Prelude

  const DEFAULT_PRIORITY := 100

  /** Local items carry the number of their id `local-n`; server items any id. */
  datatype WorkItem = WorkItem(
    id: nat, kind: nat, account: Option<nat>, folder: Option<nat>, folders: Option<seq<nat>>,
    message: Option<nat>, priority: Option<int>)

  datatype Store = Store(
    local: seq<WorkItem>, server: seq<WorkItem>, revision: nat,
    sequence: nat, snapshotRequest: nat, appliedSnapshot: nat)

  const FRESH := Store([], [], 0, 0, 0, 0)

  function BeginWork(s: Store, work: WorkItem): Store {
    s.(sequence := s.sequence + 1, local := s.local + [work.(id := s.sequence + 1)])
  }

  function Without(items: seq<WorkItem>, id: nat): seq<WorkItem> {
    if items == [] then []
    else (if items[0].id != id then [items[0]] else []) + Without(items[1..], id)
  }

  function FinishWork(s: Store, id: nat): Store {
    s.(local := Without(s.local, id))
  }

  /** A stream event, or with no items the clearing on disconnect. */
  function Receive(s: Store, items: seq<WorkItem>): Store {
    s.(server := items, revision := s.revision + 1)
  }

  function StartRefresh(s: Store): Store {
    s.(snapshotRequest := s.snapshotRequest + 1)
  }

  /** A snapshot reply counts only if nothing came on the stream since its request, and no later request did. */
  function Accept(s: Store, revision: nat, request: nat, items: seq<WorkItem>): Store {
    if s.revision == revision && request >= s.appliedSnapshot then
      s.(appliedSnapshot := request, server := items)
    else s
  }

  // ---------------------------------------------------------------- races

  /** A request in flight: what it captured, when it started and with which others in flight, and what the server
      rendered for it, when. */
  datatype Flight = Flight(revision: nat, started: nat, others: set<nat>, rendered: Option<nat>)

  /** `clock`: the server's versions so far; `shown`: the version of the list shown, none when it was cleared and
      nothing came since; `source`: the request that brought it, none when the stream did; `floor`: the version of the
      last stream event received, or the clock at the last clearing. */
  datatype World = World(
    store: Store, clock: nat, floor: nat, shown: Option<nat>, source: Option<nat>, flights: map<nat, Flight>)

  datatype Step =
    | Change                                  // the server's list changes
    | Event(version: nat)                     // a stream event arrives, however late
    | Disconnect
    | Refresh
    | Render(request: nat)
    | Reply(request: nat)
    | Drop(request: nat)                      // refused, aborted or malformed
    | Begin(work: WorkItem) | Finish(id: nat)

  const OPENED := World(FRESH, 0, 0, None, None, map[])

  predicate Can(w: World, step: Step) {
    match step
    case Event(v) => v <= w.clock
    case Render(r) => r in w.flights && w.flights[r].rendered.None?
    case Reply(r) => r in w.flights && w.flights[r].rendered.Some?
    case Drop(r) => r in w.flights
    case _ => true
  }

  predicate Accepts(w: World, r: nat)
    requires r in w.flights
  {
    w.store.revision == w.flights[r].revision && r >= w.store.appliedSnapshot
  }

  /** `timeline(v)` is the server's list at version `v`. */
  function Next(w: World, step: Step, timeline: nat -> seq<WorkItem>): World
    requires Can(w, step)
  {
    match step
    case Change => w.(clock := w.clock + 1)
    case Event(v) => w.(store := Receive(w.store, timeline(v)), floor := v, shown := Some(v), source := None)
    case Disconnect => w.(store := Receive(w.store, []), floor := w.clock, shown := None, source := None)
    case Refresh =>
      var store := StartRefresh(w.store);
      w.(store := store,
         flights := w.flights[store.snapshotRequest := Flight(w.store.revision, w.clock, w.flights.Keys, None)])
    case Render(r) => w.(flights := w.flights[r := w.flights[r].(rendered := Some(w.clock))])
    case Reply(r) =>
      var flight := w.flights[r];
      var w' := w.(store := Accept(w.store, flight.revision, r, timeline(flight.rendered.value)), flights := w.flights - {r});
      if Accepts(w, r) then w'.(shown := flight.rendered, source := Some(r)) else w'
    case Drop(r) => w.(flights := w.flights - {r})
    case Begin(work) => w.(store := BeginWork(w.store, work))
    case Finish(id) => w.(store := FinishWork(w.store, id))
  }

  ghost predicate Leads(w: World, steps: seq<Step>, v: World, timeline: nat -> seq<WorkItem>)
    decreases |steps|
  {
    if steps == [] then w == v
    else Can(w, steps[0]) && Leads(Next(w, steps[0], timeline), steps[1..], v, timeline)
  }

  /** A request that would still count started after the last event or clearing. */
  ghost predicate FlightsAreLater(w: World) {
    forall r :: r in w.flights ==>
      && r <= w.store.snapshotRequest
      && w.flights[r].revision <= w.store.revision
      && (w.flights[r].revision == w.store.revision ==> w.floor <= w.flights[r].started)
      && (w.flights[r].rendered.Some? ==> w.flights[r].started <= w.flights[r].rendered.value <= w.clock)
      && w.flights[r].started <= w.clock
  }

  /** What is shown: nothing since the last clearing, or the server's list at a version not before `floor`. */
  ghost predicate IsCurrent(w: World, timeline: nat -> seq<WorkItem>) {
    match w.shown
    case None => w.store.server == []
    case Some(v) => w.floor <= v <= w.clock && w.store.server == timeline(v)
  }

  /** A later request saw every earlier one that is still in flight. */
  ghost predicate FlightsSeeEarlier(w: World) {
    forall r, q :: r in w.flights && q in w.flights && q < r ==> q in w.flights[r].others
  }

  /** A request that may still count is newer than what is shown, unless it was made while the one that brought it was
      in flight. */
  ghost predicate FlightsAreNewer(w: World) {
    forall r :: r in w.flights && w.shown.Some? && Accepts(w, r) ==>
      && (w.source.None? ==> w.shown.value <= w.flights[r].started)
      && (w.source.Some? ==> w.source.value in w.flights[r].others || w.shown.value <= w.flights[r].started)
  }

  ghost predicate SourceIsApplied(w: World) {
    (w.source.Some? ==> w.source.value == w.store.appliedSnapshot && w.source.value !in w.flights)
  }

  ghost predicate Invariant(w: World, timeline: nat -> seq<WorkItem>) {
    && FlightsAreLater(w) && IsCurrent(w, timeline) && FlightsSeeEarlier(w) && FlightsAreNewer(w) && SourceIsApplied(w)
    && w.floor <= w.clock && w.store.appliedSnapshot <= w.store.snapshotRequest
  }

  lemma FlightsStayLater(w: World, step: Step, timeline: nat -> seq<WorkItem>)
    requires FlightsAreLater(w) && w.floor <= w.clock && Can(w, step)
    ensures FlightsAreLater(Next(w, step, timeline))
  {
  }

  lemma ShownStaysCurrent(w: World, step: Step, timeline: nat -> seq<WorkItem>)
    requires FlightsAreLater(w) && IsCurrent(w, timeline) && Can(w, step)
    ensures IsCurrent(Next(w, step, timeline), timeline)
  {
  }

  lemma FlightsStillSeeEarlier(w: World, step: Step, timeline: nat -> seq<WorkItem>)
    requires FlightsAreLater(w) && FlightsSeeEarlier(w) && Can(w, step)
    ensures FlightsSeeEarlier(Next(w, step, timeline))
  {
  }

  lemma FlightsStayNewer(w: World, step: Step, timeline: nat -> seq<WorkItem>)
    requires Invariant(w, timeline) && Can(w, step)
    ensures FlightsAreNewer(Next(w, step, timeline)) && SourceIsApplied(Next(w, step, timeline))
  {
  }

  lemma StepKeeps(w: World, step: Step, timeline: nat -> seq<WorkItem>)
    requires Invariant(w, timeline) && Can(w, step)
    ensures Invariant(Next(w, step, timeline), timeline)
  {
    FlightsStayLater(w, step, timeline);
    ShownStaysCurrent(w, step, timeline);
    FlightsStillSeeEarlier(w, step, timeline);
    FlightsStayNewer(w, step, timeline);
    hide FlightsAreLater;
    hide IsCurrent;
    hide FlightsSeeEarlier;
    hide FlightsAreNewer;
    hide SourceIsApplied;
  }

  lemma {:induction false} RunKeeps(w: World, steps: seq<Step>, v: World, timeline: nat -> seq<WorkItem>)
    requires Invariant(w, timeline) && Leads(w, steps, v, timeline)
    ensures Invariant(v, timeline)
    decreases |steps|
  {
    hide Invariant;
    if steps != [] {
      StepKeeps(w, steps[0], timeline);
      RunKeeps(Next(w, steps[0], timeline), steps[1..], v, timeline);
    }
  }

  ghost predicate Reachable(w: World, timeline: nat -> seq<WorkItem>) {
    exists steps :: Leads(OPENED, steps, w, timeline)
  }

  lemma ReachableIsInvariant(w: World, timeline: nat -> seq<WorkItem>)
    requires Reachable(w, timeline)
    ensures Invariant(w, timeline)
  {
    var steps :| Leads(OPENED, steps, w, timeline);
    RunKeeps(OPENED, steps, w, timeline);
  }

  /** For every interleaving of stream events and replies, the server list shown is the server's list at a version
      no older than the last stream event received; after a disconnect it is empty until something newer comes. */
  lemma ShownIsNeverOlderThanTheStream(w: World, timeline: nat -> seq<WorkItem>)
    requires Reachable(w, timeline)
    ensures w.shown.None? ==> w.store.server == []
    ensures w.shown.Some? ==> w.floor <= w.shown.value <= w.clock && w.store.server == timeline(w.shown.value)
  {
    ReachableIsInvariant(w, timeline);
  }

  // ---------------------------------------------------------------- when the list goes back

  predicate GoesBack(w: World, v: World) {
    w.shown.Some? && (v.shown.None? || v.shown.value < w.shown.value)
  }

  /** A reply takes the list back exactly when it counts and was rendered before the version shown. Then another reply,
      not the stream, brought that version; its request is the earlier one, and was still in flight when this one was
      made. */
  lemma ListGoesBackExactly(w: World, r: nat, timeline: nat -> seq<WorkItem>)
    requires Reachable(w, timeline) && Can(w, Reply(r))
    ensures GoesBack(w, Next(w, Reply(r), timeline)) <==>
      Accepts(w, r) && w.shown.Some? && w.flights[r].rendered.value < w.shown.value
    ensures GoesBack(w, Next(w, Reply(r), timeline)) ==>
      && w.flights[r].started < w.shown.value
      && w.source.Some? && w.source.value < r && w.source.value in w.flights[r].others
  {
    ReachableIsInvariant(w, timeline);
  }

  /** Every request is made when none is in flight. */
  ghost predicate OneAtATime(w: World, steps: seq<Step>, timeline: nat -> seq<WorkItem>)
    decreases |steps|
  {
    steps != [] && Can(w, steps[0]) ==>
      (steps[0].Refresh? ==> w.flights == map[]) && OneAtATime(Next(w, steps[0], timeline), steps[1..], timeline)
  }

  ghost predicate Alone(w: World) {
    forall r :: r in w.flights ==> w.flights[r].others == {}
  }

  ghost predicate Silent(steps: seq<Step>) {
    forall i :: 0 <= i < |steps| ==> !steps[i].Event? && !steps[i].Disconnect?
  }

  lemma AloneNeverGoesBack(w: World, step: Step, timeline: nat -> seq<WorkItem>)
    requires Invariant(w, timeline) && Alone(w) && Can(w, step) && !step.Event? && !step.Disconnect?
    ensures !GoesBack(w, Next(w, step, timeline))
  {
    hide FlightsSeeEarlier;
  }

  lemma StaysAlone(w: World, step: Step, timeline: nat -> seq<WorkItem>)
    requires Alone(w) && Can(w, step) && (step.Refresh? ==> w.flights == map[])
    ensures Alone(Next(w, step, timeline))
  {
  }

  lemma {:induction false} RunStaysAlone(w: World, steps: seq<Step>, v: World, timeline: nat -> seq<WorkItem>)
    requires Alone(w) && Leads(w, steps, v, timeline) && OneAtATime(w, steps, timeline)
    ensures Alone(v)
    decreases |steps|
  {
    hide Alone;
    if steps != [] {
      StaysAlone(w, steps[0], timeline);
      RunStaysAlone(Next(w, steps[0], timeline), steps[1..], v, timeline);
    }
  }

  lemma {:induction false} SilentRunNeverGoesBack(w: World, steps: seq<Step>, v: World, timeline: nat -> seq<WorkItem>)
    requires Invariant(w, timeline) && Alone(w) && Leads(w, steps, v, timeline) && OneAtATime(w, steps, timeline)
    requires Silent(steps)
    ensures !GoesBack(w, v)
    decreases |steps|
  {
    hide Invariant;
    hide Alone;
    if steps != [] {
      var next := Next(w, steps[0], timeline);
      StepKeeps(w, steps[0], timeline);
      StaysAlone(w, steps[0], timeline);
      AloneNeverGoesBack(w, steps[0], timeline);
      assert forall i :: 0 <= i < |steps| - 1 ==> steps[1..][i] == steps[i + 1];
      SilentRunNeverGoesBack(next, steps[1..], v, timeline);
    }
  }

  /** So if a request is only ever made when none is in flight, the list never goes back between stream events. */
  lemma OneAtATimeNeverGoesBack(
    before: seq<Step>, w: World, after: seq<Step>, v: World, timeline: nat -> seq<WorkItem>)
    requires Leads(OPENED, before, w, timeline) && OneAtATime(OPENED, before, timeline)
    requires Leads(w, after, v, timeline) && OneAtATime(w, after, timeline) && Silent(after)
    ensures !GoesBack(w, v)
  {
    RunKeeps(OPENED, before, w, timeline);
    RunStaysAlone(OPENED, before, w, timeline);
    SilentRunNeverGoesBack(w, after, v, timeline);
  }

  /** The applied request numbers never decrease, and never run ahead of the requests made. */
  lemma {:induction false} AppliedRequestsGrow(w: World, steps: seq<Step>, v: World, timeline: nat -> seq<WorkItem>)
    requires Leads(w, steps, v, timeline)
    ensures w.store.appliedSnapshot <= v.store.appliedSnapshot && w.store.revision <= v.store.revision
    decreases |steps|
  {
    if steps != [] {
      AppliedRequestsGrow(Next(w, steps[0], timeline), steps[1..], v, timeline);
    }
  }

  lemma {:induction false} LeadsFurther(w: World, steps: seq<Step>, v: World, step: Step, timeline: nat -> seq<WorkItem>)
    requires Leads(w, steps, v, timeline) && Can(v, step)
    ensures Leads(w, steps + [step], Next(v, step, timeline), timeline)
    decreases |steps|
  {
    hide Next;
    if steps == [] {
      assert (steps + [step])[1..] == [];
    } else {
      assert (steps + [step])[1..] == steps[1..] + [step];
      LeadsFurther(Next(w, steps[0], timeline), steps[1..], v, step, timeline);
    }
  }

  lemma Onward(w: World, step: Step, timeline: nat -> seq<WorkItem>) returns (v: World)
    requires Reachable(w, timeline) && Can(w, step)
    ensures v == Next(w, step, timeline) && Reachable(v, timeline)
  {
    hide Next;
    v := Next(w, step, timeline);
    var steps :| Leads(OPENED, steps, w, timeline);
    LeadsFurther(OPENED, steps, w, step, timeline);
  }

  /** Replies to overlapping requests may still take the list back, though not behind the stream: the earlier
      request is rendered last and answered first. */
  lemma AnOverlappingReplyMayGoBack(timeline: nat -> seq<WorkItem>) returns (w: World)
    ensures Reachable(w, timeline) && Can(w, Reply(2))
    ensures w.shown == Some(1) && Next(w, Reply(2), timeline).shown == Some(0)
  {
    assert Leads(OPENED, [], OPENED, timeline);
    w := OPENED;
    hide Reachable;
    w := Onward(w, Event(0), timeline);
    w := Onward(w, Refresh, timeline);
    w := Onward(w, Refresh, timeline);
    w := Onward(w, Render(2), timeline);
    w := Onward(w, Change, timeline);
    w := Onward(w, Render(1), timeline);
    w := Onward(w, Reply(1), timeline);
    assert 2 in w.flights && w.flights[2] == Flight(1, 0, {1}, Some(0));
  }

  // ---------------------------------------------------------------- the client's own items

  ghost predicate Rising(items: seq<WorkItem>) {
    forall i, j :: 0 <= i < j < |items| ==> items[i].id < items[j].id
  }

  /** Begun in id order, ids never reused. */
  ghost predicate Numbered(s: Store) {
    Rising(s.local) && forall item :: item in s.local ==> item.id <= s.sequence
  }

  lemma Uncons(items: seq<WorkItem>)
    requires items != []
    ensures items == [items[0]] + items[1..]
    ensures forall item :: item in items <==> item == items[0] || item in items[1..]
    ensures Rising(items) ==> Rising(items[1..]) && forall item :: item in items[1..] ==> items[0].id < item.id
  {
  }

  lemma RisingCons(first: WorkItem, rest: seq<WorkItem>)
    requires Rising(rest) && forall item :: item in rest ==> first.id < item.id
    ensures Rising([first] + rest)
  {
  }

  lemma RisingSnoc(front: seq<WorkItem>, last: WorkItem)
    requires Rising(front) && forall item :: item in front ==> item.id < last.id
    ensures Rising(front + [last])
  {
  }

  lemma {:induction false} WithoutMembers(items: seq<WorkItem>, id: nat)
    ensures forall item :: item in Without(items, id) <==> item in items && item.id != id
  {
    if items != [] {
      Uncons(items);
      hide Rising;
      WithoutMembers(items[1..], id);
    }
  }

  lemma {:induction false} WithoutRises(items: seq<WorkItem>, id: nat)
    requires Rising(items)
    ensures Rising(Without(items, id))
  {
    if items != [] {
      Uncons(items);
      hide Rising;
      WithoutRises(items[1..], id);
      WithoutMembers(items[1..], id);
      if items[0].id != id {
        RisingCons(items[0], Without(items[1..], id));
      } else {
        assert Without(items, id) == [] + Without(items[1..], id) == Without(items[1..], id);
      }
    }
  }

  lemma {:induction false} WithoutAbsent(items: seq<WorkItem>, id: nat)
    requires forall item :: item in items ==> item.id != id
    ensures Without(items, id) == items
  {
    if items != [] {
      assert items[0] in items;
      WithoutAbsent(items[1..], id);
    }
  }

  lemma {:induction false} WithoutAppended(items: seq<WorkItem>, last: WorkItem)
    requires forall item :: item in items ==> item.id != last.id
    ensures Without(items + [last], last.id) == items
  {
    if items == [] {
      assert items + [last] == [last];
      assert [last][1..] == [];
    } else {
      assert items[0] in items;
      assert (items + [last])[1..] == items[1..] + [last];
      WithoutAppended(items[1..], last);
    }
  }

  lemma LocalItemsStayNumbered(s: Store, work: WorkItem, id: nat)
    requires Numbered(s)
    ensures Numbered(BeginWork(s, work)) && Numbered(FinishWork(s, id))
  {
    WithoutRises(s.local, id);
    WithoutMembers(s.local, id);
    RisingSnoc(s.local, work.(id := s.sequence + 1));
    hide Rising;
  }

  lemma FreshIdIsUnused(s: Store)
    requires Numbered(s)
    ensures forall item :: item in s.local ==> item.id != s.sequence + 1
  {
    hide Rising;
  }

  /** A finisher removes the item its action began, leaves every other in place, is harmless when called again,
      and right after its action undoes it. */
  lemma FinisherRemovesOnlyItsOwn(s: Store, work: WorkItem, id: nat)
    requires Numbered(s)
    ensures forall item :: item in FinishWork(s, id).local <==> item in s.local && item.id != id
    ensures FinishWork(FinishWork(s, id), id) == FinishWork(s, id)
    ensures FinishWork(BeginWork(s, work), s.sequence + 1).local == s.local
  {
    FreshIdIsUnused(s);
    hide Numbered;
    hide Without;
    WithoutMembers(s.local, id);
    WithoutAbsent(Without(s.local, id), id);
    WithoutAppended(s.local, work.(id := s.sequence + 1));
  }

  // ---------------------------------------------------------------- what is displayed

  predicate SameWork(local: WorkItem, server: WorkItem) {
    if local.kind != server.kind then false
    else if local.message.Some? then local.message == server.message
    else if local.account.Some? && local.account != server.account then false
    else if local.folder.Some? then
      || server.folder == local.folder
      || (server.folders.None? && server.folder.None?)
      || (server.folders.Some? && local.folder.value in server.folders.value)
    else true
  }

  function Priority(item: WorkItem): int {
    match item.priority case None => DEFAULT_PRIORITY case Some(p) => p
  }

  function Reversed(items: seq<WorkItem>): seq<WorkItem> {
    if items == [] then [] else Reversed(items[1..]) + [items[0]]
  }

  /** Insert behind everything of at least its priority: the step of a stable descending sort. */
  function Insert(sorted: seq<WorkItem>, item: WorkItem): seq<WorkItem> {
    if sorted != [] && Priority(sorted[0]) >= Priority(item) then [sorted[0]] + Insert(sorted[1..], item)
    else [item] + sorted
  }

  function StableSort(items: seq<WorkItem>): seq<WorkItem>
    decreases |items|
  {
    if items == [] then [] else Insert(StableSort(items[..|items| - 1]), items[|items| - 1])
  }

  function Unmatched(local: seq<WorkItem>, server: seq<WorkItem>): seq<WorkItem> {
    if server == [] then []
    else (if exists own :: own in local && SameWork(own, server[0]) then [] else [server[0]]) + Unmatched(local, server[1..])
  }

  function VisibleWork(local: seq<WorkItem>, server: seq<WorkItem>): seq<WorkItem> {
    StableSort(Reversed(local)) + Unmatched(local, server)
  }

  /** Higher priority first, then the more recent action. */
  predicate Leading(a: WorkItem, b: WorkItem) {
    Priority(a) > Priority(b) || (Priority(a) == Priority(b) && a.id > b.id)
  }

  ghost predicate Led(items: seq<WorkItem>) {
    forall i, j :: 0 <= i < j < |items| ==> Leading(items[i], items[j])
  }

  lemma {:induction false} InsertAdds(sorted: seq<WorkItem>, item: WorkItem)
    ensures multiset(Insert(sorted, item)) == multiset(sorted) + multiset{item}
    ensures forall other :: other in Insert(sorted, item) <==> other in sorted || other == item
  {
    if sorted != [] {
      assert sorted == [sorted[0]] + sorted[1..];
      if Priority(sorted[0]) >= Priority(item) {
        InsertAdds(sorted[1..], item);
      }
    }
  }

  lemma LedCons(first: WorkItem, rest: seq<WorkItem>)
    requires Led(rest) && forall other :: other in rest ==> Leading(first, other)
    ensures Led([first] + rest)
  {
  }

  lemma {:induction false} InsertPlaces(sorted: seq<WorkItem>, item: WorkItem)
    requires Led(sorted) && forall other :: other in sorted ==> item.id < other.id
    ensures Led(Insert(sorted, item))
  {
    if sorted == [] {
    } else if Priority(sorted[0]) >= Priority(item) {
      InsertPlaces(sorted[1..], item);
      InsertAdds(sorted[1..], item);
      var rest := Insert(sorted[1..], item);
      assert sorted[0] in sorted;
      forall other | other in rest ensures Leading(sorted[0], other) {
        if other != item {
          var j :| 0 <= j < |sorted[1..]| && sorted[1..][j] == other;
          assert sorted[j + 1] == other;
        }
      }
      LedCons(sorted[0], rest);
    } else {
      forall other | other in sorted ensures Leading(item, other) {
        var j :| 0 <= j < |sorted| && sorted[j] == other;
        assert 0 < j ==> Leading(sorted[0], sorted[j]);
      }
      LedCons(item, sorted);
    }
  }

  ghost predicate Falling(items: seq<WorkItem>) {
    forall i, j :: 0 <= i < j < |items| ==> items[i].id > items[j].id
  }

  lemma FallingSnoc(front: seq<WorkItem>, last: WorkItem)
    requires Falling(front) && forall item :: item in front ==> item.id > last.id
    ensures Falling(front + [last])
  {
  }

  lemma Unsnoc(items: seq<WorkItem>)
    requires items != []
    ensures var front, last := items[..|items| - 1], items[|items| - 1];
      && items == front + [last]
      && (forall item :: item in items <==> item in front || item == last)
      && (Falling(items) ==> Falling(front) && forall item :: item in front ==> item.id > last.id)
  {
  }

  lemma {:induction false} ReversedHolds(items: seq<WorkItem>)
    ensures multiset(Reversed(items)) == multiset(items)
    ensures forall item :: item in Reversed(items) <==> item in items
  {
    if items != [] {
      Uncons(items);
      hide Rising;
      ReversedHolds(items[1..]);
      assert multiset(items) == multiset{items[0]} + multiset(items[1..]);
    }
  }

  lemma {:induction false} ReversedFalls(items: seq<WorkItem>)
    requires Rising(items)
    ensures Falling(Reversed(items))
  {
    if items != [] {
      Uncons(items);
      hide Rising;
      ReversedFalls(items[1..]);
      ReversedHolds(items[1..]);
      hide Falling;
      FallingSnoc(Reversed(items[1..]), items[0]);
    }
  }

  lemma {:induction false} SortHolds(items: seq<WorkItem>)
    ensures multiset(StableSort(items)) == multiset(items)
    ensures forall item :: item in StableSort(items) <==> item in items
    decreases |items|
  {
    if items != [] {
      var front, last := items[..|items| - 1], items[|items| - 1];
      Unsnoc(items);
      hide Falling;
      SortHolds(front);
      InsertAdds(StableSort(front), last);
      hide Insert;
      assert multiset(items) == multiset(front) + multiset{last};
    }
  }

  lemma {:induction false} SortLeads(items: seq<WorkItem>)
    requires Falling(items)
    ensures Led(StableSort(items))
    decreases |items|
  {
    if items != [] {
      var front, last := items[..|items| - 1], items[|items| - 1];
      Unsnoc(items);
      hide Falling;
      SortLeads(front);
      SortHolds(front);
      hide Led;
      InsertPlaces(StableSort(front), last);
    }
  }

  ghost predicate AccountedFor(local: seq<WorkItem>, item: WorkItem) {
    exists own :: own in local && SameWork(own, item)
  }

  /** `Unmatched` picks, in order, exactly the positions whose item no own action accounts for. */
  ghost predicate PicksUnmatched(local: seq<WorkItem>, server: seq<WorkItem>, picked: seq<WorkItem>, at: seq<nat>) {
    && Ascending(at) && |at| == |picked|
    && (forall k :: 0 <= k < |at| ==> at[k] < |server| && picked[k] == server[at[k]])
    && forall i: nat :: i < |server| ==> (i in at <==> !AccountedFor(local, server[i]))
  }

  function Shifted(at: seq<nat>): seq<nat> {
    seq(|at|, k requires 0 <= k < |at| => at[k] + 1)
  }

  lemma ShiftedHolds(at: seq<nat>)
    requires Ascending(at)
    ensures Ascending(Shifted(at)) && Ascending([0] + Shifted(at))
    ensures forall i: nat :: i + 1 in Shifted(at) <==> i in at
    ensures 0 !in Shifted(at)
  {
    forall i: nat | i in at ensures i + 1 in Shifted(at) {
      var k :| 0 <= k < |at| && at[k] == i;
      assert Shifted(at)[k] == i + 1;
    }
  }

  lemma PicksSkip(local: seq<WorkItem>, server: seq<WorkItem>, picked: seq<WorkItem>, rest: seq<nat>)
    requires server != [] && AccountedFor(local, server[0]) && PicksUnmatched(local, server[1..], picked, rest)
    ensures PicksUnmatched(local, server, picked, Shifted(rest))
  {
    hide AccountedFor;
    ShiftedHolds(rest);
    forall i: nat | i < |server| ensures i in Shifted(rest) <==> !AccountedFor(local, server[i]) {
      if 0 < i {
        assert server[i] == server[1..][i - 1] && (i - 1 + 1 in Shifted(rest) <==> i - 1 in rest);
      }
    }
    hide Ascending;
  }

  lemma PrependedHolds(at: seq<nat>)
    ensures forall i: nat :: i in [0] + Shifted(at) <==> i == 0 || i in Shifted(at)
  {
    hide Shifted;
    forall i: nat ensures i in [0] + Shifted(at) <==> i == 0 || i in Shifted(at) {
      assert i in [0] <==> i == 0;
    }
  }

  /** Picked from the tail, an element is picked from the whole one place further on. */
  lemma ShiftedPicks(server: seq<WorkItem>, picked: seq<WorkItem>, rest: seq<nat>, k: nat)
    requires server != [] && |rest| == |picked| && k < |rest| + 1
    requires forall i :: 0 <= i < |rest| ==> rest[i] < |server| - 1 && picked[i] == server[1..][rest[i]]
    ensures var at := [0] + Shifted(rest); at[k] < |server| && ([server[0]] + picked)[k] == server[at[k]]
  {
    if 0 < k {
      assert ([0] + Shifted(rest))[k] == Shifted(rest)[k - 1] == rest[k - 1] + 1;
      assert ([server[0]] + picked)[k] == picked[k - 1] == server[1..][rest[k - 1]];
    }
  }

  lemma PicksTake(local: seq<WorkItem>, server: seq<WorkItem>, picked: seq<WorkItem>, rest: seq<nat>)
    requires server != [] && !AccountedFor(local, server[0]) && PicksUnmatched(local, server[1..], picked, rest)
    ensures PicksUnmatched(local, server, [server[0]] + picked, [0] + Shifted(rest))
  {
    hide AccountedFor;
    ShiftedHolds(rest);
    PrependedHolds(rest);
    hide Ascending;
    hide Shifted;
    var at, all := [0] + Shifted(rest), [server[0]] + picked;
    forall k | 0 <= k < |at| ensures at[k] < |server| && all[k] == server[at[k]] {
      ShiftedPicks(server, picked, rest, k);
    }
    forall i: nat | i < |server| ensures i in at <==> !AccountedFor(local, server[i]) {
      if 0 < i {
        assert server[i] == server[1..][i - 1];
        assert i - 1 + 1 in Shifted(rest) <==> i - 1 in rest;
      }
    }
  }

  lemma {:induction false} UnmatchedPicks(local: seq<WorkItem>, server: seq<WorkItem>) returns (at: seq<nat>)
    ensures PicksUnmatched(local, server, Unmatched(local, server), at)
  {
    if server == [] {
      at := [];
    } else {
      var rest := UnmatchedPicks(local, server[1..]);
      hide PicksUnmatched;
      hide SameWork;
      if AccountedFor(local, server[0]) {
        at := Shifted(rest);
        PicksSkip(local, server, Unmatched(local, server[1..]), rest);
        assert Unmatched(local, server) == [] + Unmatched(local, server[1..]) == Unmatched(local, server[1..]);
      } else {
        at := [0] + Shifted(rest);
        PicksTake(local, server, Unmatched(local, server[1..]), rest);
      }
    }
  }

  /** The client's own actions come first, each exactly once, by priority and then most recent first. Of the server's
      items exactly those follow, in the server's order, that no action of this tab accounts for. */
  lemma VisibleWorkIsComplete(s: Store) returns (at: seq<nat>)
    requires Numbered(s)
    ensures var visible, own := VisibleWork(s.local, s.server), |s.local|;
      && own <= |visible| && multiset(visible[..own]) == multiset(s.local) && Led(visible[..own])
      && PicksUnmatched(s.local, s.server, visible[own..], at)
  {
    hide Led;
    hide PicksUnmatched;
    ReversedHolds(s.local);
    ReversedFalls(s.local);
    hide Rising;
    SortHolds(Reversed(s.local));
    SortLeads(Reversed(s.local));
    at := UnmatchedPicks(s.local, s.server);
    hide Falling;
    var visible, sorted := VisibleWork(s.local, s.server), StableSort(Reversed(s.local));
    hide StableSort;
    hide Unmatched;
    assert |sorted| == |multiset(sorted)| == |multiset(s.local)| == |s.local|;
    assert visible[..|sorted|] == sorted && visible[|sorted|..] == Unmatched(s.local, s.server);
  }

  // ---------------------------------------------------------------- the store in place

  class ActivityState {
    var local: seq<WorkItem>
    var server: seq<WorkItem>
    var revision: nat
    var sequence: nat
    var snapshotRequest: nat
    var appliedSnapshot: nat

    ghost function Model(): Store
      reads this
    {
      Store(local, server, revision, sequence, snapshotRequest, appliedSnapshot)
    }

    constructor ()
      ensures Model() == FRESH
    {
      local, server, revision, sequence, snapshotRequest, appliedSnapshot := [], [], 0, 0, 0, 0;
    }

    /** The returned id is what the finisher closes over. */
    method Begin(work: WorkItem) returns (id: nat)
      modifies this
      ensures Model() == BeginWork(old(Model()), work) && id == sequence
    {
      sequence := sequence + 1;
      id := sequence;
      local := local + [work.(id := id)];
    }

    method Finish(id: nat)
      modifies this
      ensures Model() == FinishWork(old(Model()), id)
    {
      var kept: seq<WorkItem> := [];
      var i := 0;
      while i < |local|
        invariant 0 <= i <= |local| && Model() == old(Model())
        invariant kept + Without(local[i..], id) == Without(local, id)
      {
        assert local[i..][1..] == local[i + 1..];
        if local[i].id != id {
          kept := kept + [local[i]];
        }
        i := i + 1;
      }
      local := kept;
    }

    method ReceiveActivity(items: seq<WorkItem>)
      modifies this
      ensures Model() == Receive(old(Model()), items)
    {
      server, revision := items, revision + 1;
    }

    /** `refreshActivity` up to its await. */
    method OpenRefresh() returns (captured: nat, request: nat)
      modifies this
      ensures Model() == StartRefresh(old(Model())) && captured == revision && request == snapshotRequest
    {
      captured := revision;
      snapshotRequest := snapshotRequest + 1;
      request := snapshotRequest;
    }

    /** `refreshActivity` after its await, `None` for a refused or malformed reply. */
    method CloseRefresh(captured: nat, request: nat, reply: Option<seq<WorkItem>>)
      modifies this
      ensures Model() == if reply.Some? then Accept(old(Model()), captured, request, reply.value) else old(Model())
    {
      if reply.Some? && revision == captured && request >= appliedSnapshot {
        appliedSnapshot, server := request, reply.value;
      }
    }
  }
}
