/** Work in progress as a forest: an item names the item it was begun under, and only items nothing active
    was begun under are shown. Ids are fresh, so an id is the instant its item was begun. */
module Activity {
  import opened Prelude

  datatype WorkState = Queued | Running

  /** `parent` is whatever the context names; it may have finished before. */
  datatype Item = Item(parent: Option<nat>, state: WorkState)

  datatype Forest = Forest(active: map<nat, Item>, next: nat)

  const NOTHING := Forest(map[], 0)

  datatype Op =
    | Begin(context: Option<nat>, state: WorkState)
    | Update(id: nat, state: WorkState)
    | Finish(id: nat)

  /** Beginning running work marks the active parent as running. */
  function Awaken(active: map<nat, Item>, context: Option<nat>, state: WorkState): map<nat, Item> {
    if context.Some? && context.value in active && state.Running? then
      active[context.value := active[context.value].(state := Running)]
    else active
  }

  function Apply(f: Forest, op: Op): Forest {
    match op
    case Begin(context, state) =>
      Forest(Awaken(f.active, context, state)[f.next := Item(context, state)], f.next + 1)
    case Update(id, state) =>
      if id in f.active then f.(active := f.active[id := f.active[id].(state := state)]) else f
    case Finish(id) => f.(active := f.active - {id})
  }

  /** The context of a task names an item that has been begun. */
  predicate Can(f: Forest, op: Op) {
    op.Begin? && op.context.Some? ==> op.context.value < f.next
  }

  function Parents(f: Forest): set<nat> {
    set i | i in f.active && f.active[i].parent.Some? :: f.active[i].parent.value
  }

  function Leaves(f: Forest): set<nat> {
    f.active.Keys - Parents(f)
  }

  datatype Shown = Shown(id: nat, item: Item)

  function Show(f: Forest, ids: seq<nat>): seq<Shown>
    requires forall i :: i in ids ==> i in f.active
  {
    seq(|ids|, i requires 0 <= i < |ids| => Shown(ids[i], f.active[ids[i]]))
  }

  /** `snapshot`: the leaves, oldest first. */
  function Snapshot(f: Forest): seq<Shown> {
    Show(f, Sorted(Leaves(f)))
  }

  ghost predicate Reaches(f: Forest, ops: seq<Op>, g: Forest)
    decreases |ops|
  {
    if ops == [] then f == g
    else Can(f, ops[0]) && Reaches(Apply(f, ops[0]), ops[1..], g)
  }

  // ---------------------------------------------------------------- the forest

  /** Every item was begun after its parent. */
  ghost predicate BornInOrder(f: Forest) {
    forall i :: i in f.active ==>
      i < f.next && (f.active[i].parent.Some? ==> f.active[i].parent.value < i)
  }

  lemma StepKeepsOrder(f: Forest, op: Op)
    requires BornInOrder(f) && Can(f, op)
    ensures BornInOrder(Apply(f, op))
  {
  }

  lemma {:induction false} RunKeepsOrder(f: Forest, ops: seq<Op>, g: Forest)
    requires BornInOrder(f) && Reaches(f, ops, g)
    ensures BornInOrder(g)
    decreases |ops|
  {
    if ops != [] {
      StepKeepsOrder(f, ops[0]);
      RunKeepsOrder(Apply(f, ops[0]), ops[1..], g);
    }
  }

  ghost predicate Reachable(f: Forest) {
    exists ops :: Reaches(NOTHING, ops, f)
  }

  /** A descent from an active item to an active item through parent links. */
  ghost predicate Descent(f: Forest, path: seq<nat>) {
    && path != []
    && (forall k :: 0 <= k < |path| ==> path[k] in f.active)
    && forall k :: 0 < k < |path| ==> f.active[path[k]].parent == Some(path[k - 1])
  }

  lemma {:induction false} DescentsAge(f: Forest, path: seq<nat>)
    requires BornInOrder(f) && Descent(f, path)
    ensures |path| > 1 ==> path[0] < path[|path| - 1]
    decreases |path|
  {
    if |path| > 1 {
      DescentsAge(f, path[1..]);
      assert f.active[path[1]].parent == Some(path[0]);
    }
  }

  /** Parent links never form a cycle. */
  lemma NoCycles(f: Forest, path: seq<nat>)
    requires Reachable(f) && Descent(f, path) && |path| > 1
    ensures path[0] != path[|path| - 1]
  {
    var ops :| Reaches(NOTHING, ops, f);
    RunKeepsOrder(NOTHING, ops, f);
    DescentsAge(f, path);
  }

  lemma {:induction false} DescendToLeaf(f: Forest, i: nat) returns (path: seq<nat>)
    requires BornInOrder(f) && i in f.active
    ensures Descent(f, path) && path[0] == i && path[|path| - 1] in Leaves(f)
    decreases f.next - i
  {
    path := [i];
    if i !in Leaves(f) {
      var child :| child in f.active && f.active[child].parent == Some(i);
      var rest := DescendToLeaf(f, child);
      path := [i] + rest;
    }
  }

  /** Every active item is shown, or stands above a shown one through active items. */
  lemma EveryItemIsRepresented(f: Forest, i: nat) returns (path: seq<nat>)
    requires Reachable(f) && i in f.active
    ensures Descent(f, path) && path[0] == i && path[|path| - 1] in Leaves(f)
  {
    var ops :| Reaches(NOTHING, ops, f);
    RunKeepsOrder(NOTHING, ops, f);
    path := DescendToLeaf(f, i);
  }

  lemma SnapshotShowsLeaves(f: Forest, i: nat)
    ensures (exists k :: 0 <= k < |Snapshot(f)| && Snapshot(f)[k].id == i) <==> i in Leaves(f)
  {
    var ids := Sorted(Leaves(f));
    if i in Leaves(f) {
      var k :| 0 <= k < |ids| && ids[k] == i;
      assert Snapshot(f)[k].id == i;
    }
  }

  /** Nothing is shown exactly when nothing is active. */
  lemma SnapshotIsEmptyWhenIdle(f: Forest)
    requires Reachable(f)
    ensures Snapshot(f) == [] <==> f.active == map[]
  {
    if f.active != map[] {
      assert f.active.Keys != {};
      var i :| i in f.active;
      var path := EveryItemIsRepresented(f, i);
      SnapshotShowsLeaves(f, path[|path| - 1]);
    }
  }

  // ---------------------------------------------------------------- well-nested use

  /** What a task does between its awaits and inside its `with track(…)` blocks; `Elsewhere` is what other
      tasks do meanwhile. */
  datatype Program =
    | Skip
    | Raise
    | Then(first: Program, second: Program)
    | Attempt(body: Program)                     // `try … except`
    | Track(state: WorkState, body: Program)
    | Elsewhere(op: Op)

  /** `begun`, `ended`: the items other tasks began and finished. */
  datatype Effect = Effect(forest: Forest, raised: bool, begun: set<nat>, ended: set<nat>)

  function Join(a: Effect, b: Effect): Effect {
    Effect(b.forest, b.raised, a.begun + b.begun, a.ended + b.ended)
  }

  function Exec(f: Forest, context: Option<nat>, p: Program): Effect
    decreases p
  {
    match p
    case Skip => Effect(f, false, {}, {})
    case Raise => Effect(f, true, {}, {})
    case Then(a, b) =>
      var first := Exec(f, context, a);
      if first.raised then first else Join(first, Exec(first.forest, context, b))
    case Attempt(body) => Exec(f, context, body).(raised := false)
    case Track(state, body) =>
      var inner := Exec(Apply(f, Begin(context, state)), Some(f.next), body);
      inner.(forest := Apply(inner.forest, Finish(f.next)))
    case Elsewhere(op) =>
      Effect(Apply(f, op), false, if op.Begin? then {f.next} else {}, if op.Finish? && op.id in f.active then {op.id} else {})
  }

  predicate IdsBelow(ids: set<nat>, low: nat, high: nat) {
    forall i :: i in ids ==> low <= i < high
  }

  lemma {:induction false} ExecBounds(f: Forest, context: Option<nat>, p: Program)
    requires IdsBelow(f.active.Keys, 0, f.next)
    ensures var e := Exec(f, context, p);
      && f.next <= e.forest.next
      && IdsBelow(e.begun, f.next, e.forest.next)
      && IdsBelow(e.ended, 0, e.forest.next)
      && IdsBelow(e.forest.active.Keys, 0, e.forest.next)
    decreases p
  {
    match p
    case Then(a, b) =>
      ExecBounds(f, context, a);
      var first := Exec(f, context, a);
      ExecBounds(first.forest, context, b);
    case Attempt(body) => ExecBounds(f, context, body);
    case Track(state, body) =>
      ExecBounds(Apply(f, Begin(context, state)), Some(f.next), body);
    case _ =>
  }

  /** However a program ends, nothing it began is left and nothing else is missing: the active set is the
      prior one as other tasks changed it. */
  lemma {:induction false} TrackRestores(f: Forest, context: Option<nat>, p: Program)
    requires IdsBelow(f.active.Keys, 0, f.next)
    ensures var e := Exec(f, context, p); e.forest.active.Keys == (f.active.Keys + e.begun) - e.ended
    decreases p
  {
    match p
    case Then(a, b) =>
      var first := Exec(f, context, a);
      ExecBounds(f, context, a);
      TrackRestores(f, context, a);
      if !first.raised {
        TrackRestores(first.forest, context, b);
        ExecBounds(first.forest, context, b);
      }
    case Attempt(body) => TrackRestores(f, context, body);
    case Track(state, body) =>
      var g := Apply(f, Begin(context, state));
      ExecBounds(g, Some(f.next), body);
      TrackRestores(g, Some(f.next), body);
    case _ =>
  }

  /** No other task interferes. */
  predicate Alone(p: Program) {
    match p
    case Then(a, b) => Alone(a) && Alone(b)
    case Attempt(body) => Alone(body)
    case Track(_, body) => Alone(body)
    case Elsewhere(_) => false
    case _ => true
  }

  /** Whether a program begins running work directly under its context, before it raises. */
  predicate Wakes(f: Forest, context: Option<nat>, p: Program)
    decreases p
  {
    match p
    case Then(a, b) =>
      Wakes(f, context, a) || (!Exec(f, context, a).raised && Wakes(Exec(f, context, a).forest, context, b))
    case Attempt(body) => Wakes(f, context, body)
    case Track(state, _) => state.Running?
    case _ => false
  }

  /** Left alone, a program restores every prior item as it was, except that the item it ran under is running
      if, and only if, the program began running work under it. */
  lemma {:induction false} TrackLeavesNoTrace(f: Forest, context: Option<nat>, p: Program)
    requires IdsBelow(f.active.Keys, 0, f.next) && Alone(p)
    requires context.Some? ==> context.value < f.next
    ensures Exec(f, context, p).forest.active
         == Awaken(f.active, context, if Wakes(f, context, p) then Running else Queued)
    decreases p
  {
    ExecBounds(f, context, p);
    match p
    case Then(a, b) =>
      var first := Exec(f, context, a);
      ExecBounds(f, context, a);
      TrackLeavesNoTrace(f, context, a);
      if !first.raised {
        TrackLeavesNoTrace(first.forest, context, b);
      }
    case Attempt(body) => TrackLeavesNoTrace(f, context, body);
    case Track(state, body) =>
      var g := Apply(f, Begin(context, state));
      TrackLeavesNoTrace(g, Some(f.next), body);
    case _ =>
  }

  // ---------------------------------------------------------------- the registry

  /** The module's dictionary; `published` collects the snapshots handed to the event stream. */
  class Registry {
    var active: map<nat, Item>
    var next: nat
    var published: seq<seq<Shown>>

    ghost function Model(): Forest
      reads this
    {
      Forest(active, next)
    }

    constructor ()
      ensures Model() == NOTHING && published == []
    {
      active, next, published := map[], 0, [];
    }

    method ShowAll(ids: seq<nat>) returns (shown: seq<Shown>)
      requires forall i :: i in ids ==> i in active
      ensures shown == Show(Model(), ids)
    {
      shown := [];
      for k := 0 to |ids|
        invariant |shown| == k
        invariant forall j :: 0 <= j < k ==> ids[j] in active && shown[j] == Shown(ids[j], active[ids[j]])
      {
        assert ids[k] in ids;
        shown := shown + [Shown(ids[k], active[ids[k]])];
      }
    }

    method Publish()
      modifies `published
      ensures published == old(published) + [Snapshot(Model())]
    {
      var parents := set i | i in active && active[i].parent.Some? :: active[i].parent.value;
      assert parents == Parents(Model());
      var ids := Sorted(active.Keys - parents);
      assert forall i :: i in ids ==> i in active;
      hide Show;
      hide Parents;
      var shown := ShowAll(ids);
      published := published + [shown];
    }

    method Begin(context: Option<nat>, state: WorkState) returns (id: nat)
      modifies this
      ensures Model() == Apply(old(Model()), Op.Begin(context, state))
      ensures id == old(next) && id in active
      ensures published == old(published) + [Snapshot(Model())]
    {
      id := next;
      if context.Some? && context.value in active && state.Running? {
        active := active[context.value := active[context.value].(state := Running)];
      }
      active := active[id := Item(context, state)];
      next := next + 1;
      Publish();
    }

    /** Unknown ids change nothing and publish nothing. */
    method Update(id: nat, state: WorkState)
      modifies this
      ensures Model() == Apply(old(Model()), Op.Update(id, state))
      ensures published == if id in old(active) then old(published) + [Snapshot(Model())] else old(published)
    {
      if id in active {
        active := active[id := active[id].(state := state)];
        Publish();
      }
    }

    method Finish(id: nat)
      modifies this
      ensures Model() == Apply(old(Model()), Op.Finish(id))
      ensures published == if id in old(active) then old(published) + [Snapshot(Model())] else old(published)
    {
      if id in active {
        active := active - {id};
        Publish();
      }
    }
  }
}
