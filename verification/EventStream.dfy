/** One subscriber of the event stream: a bounded queue that collapses to a single snapshot marker on
    overflow, and a reader that fills a marker in only when it gets to it. */
module EventStream {
  import opened Activity

  const CAPACITY := 64

  /** `Activities` carries the items shown at the time; the other kinds carry ids only. */
  datatype Event = Activities(items: seq<Shown>) | Other

  /** A queued entry is the `k`-th event published since subscribing, or the marker that replaced the queue
      when the `k`-th was published. */
  datatype Entry = Plain(k: nat, event: Event) | Marker(k: nat)

  /** What the client gets: an event as published, or a snapshot taken after `at` events were published. */
  datatype Received = Delivered(k: nat, event: Event) | Snapped(at: nat, items: seq<Shown>)

  /** `Filling`: the reader awaits the connection status for a snapshot; the items are read afterwards. */
  datatype Phase = Ready | Filling

  datatype Stream = Stream(queue: seq<Entry>, phase: Phase, received: seq<Received>, published: nat)

  /** Just subscribed: the initial snapshot is being filled in. */
  const SUBSCRIBED := Stream([], Filling, [], 0)

  function Publish(s: Stream, event: Event): Stream {
    s.(queue := if |s.queue| >= CAPACITY then [Marker(s.published)] else s.queue + [Plain(s.published, event)],
       published := s.published + 1)
  }

  /** `queue.get`: an event is yielded as it is, a marker must be filled in first. */
  function Take(s: Stream): Stream
    requires s.queue != []
  {
    match s.queue[0]
    case Plain(k, event) => s.(queue := s.queue[1..], received := s.received + [Delivered(k, event)])
    case Marker(_) => s.(queue := s.queue[1..], phase := Filling)
  }

  /** The status is there: the items are read now. */
  function Fill(s: Stream, items: seq<Shown>): Stream {
    s.(phase := Ready, received := s.received + [Snapped(s.published, items)])
  }

  // ---------------------------------------------------------------- runs

  datatype World = World(forest: Forest, stream: Stream)

  datatype Step = Work(op: Op) | Announce | TakeNext | FillIn

  predicate Publishes(f: Forest, op: Op) {
    op.Begin? || op.id in f.active
  }

  predicate Possible(w: World, step: Step) {
    match step
    case Work(op) => Can(w.forest, op)
    case Announce => true
    case TakeNext => w.stream.phase.Ready? && w.stream.queue != []
    case FillIn => w.stream.phase.Filling?
  }

  function Next(w: World, step: Step): World
    requires Possible(w, step)
  {
    match step
    case Work(op) =>
      var forest := Apply(w.forest, op);
      World(forest, if Publishes(w.forest, op) then Publish(w.stream, Activities(Snapshot(forest))) else w.stream)
    case Announce => w.(stream := Publish(w.stream, Other))
    case TakeNext => w.(stream := Take(w.stream))
    case FillIn => w.(stream := Fill(w.stream, Snapshot(w.forest)))
  }

  ghost predicate Leads(w: World, steps: seq<Step>, v: World)
    decreases |steps|
  {
    if steps == [] then w == v
    else Possible(w, steps[0]) && Leads(Next(w, steps[0]), steps[1..], v)
  }

  // ---------------------------------------------------------------- nothing is lost

  ghost predicate DeliveredIn(received: seq<Received>, k: nat) {
    exists j :: 0 <= j < |received| && received[j].Delivered? && received[j].k == k
  }

  /** A snapshot whose items were read after event `k` was published. */
  ghost predicate SupersededIn(received: seq<Received>, k: nat) {
    exists j :: 0 <= j < |received| && received[j].Snapped? && k < received[j].at
  }

  ghost predicate QueuedIn(queue: seq<Entry>, k: nat) {
    exists j :: 0 <= j < |queue| && ((queue[j].Plain? && queue[j].k == k) || (queue[j].Marker? && k <= queue[j].k))
  }

  /** Event `k` was delivered, or a snapshot taken after it was, or the queue or the reader still owes one of them. */
  ghost predicate Accounted(s: Stream, k: nat) {
    DeliveredIn(s.received, k) || SupersededIn(s.received, k) || QueuedIn(s.queue, k) || s.phase.Filling?
  }

  ghost predicate Sound(s: Stream) {
    && |s.queue| <= CAPACITY
    && (forall j :: 0 <= j < |s.queue| ==> s.queue[j].k < s.published)
    && forall k :: 0 <= k < s.published ==> Accounted(s, k)
  }

  lemma PublishIsSound(s: Stream, event: Event)
    requires Sound(s)
    ensures Sound(Publish(s, event))
  {
    var t := Publish(s, event);
    var last := |t.queue| - 1;
    forall k | 0 <= k < t.published ensures Accounted(t, k) {
      if k == s.published || |s.queue| >= CAPACITY {
        assert t.queue[last].k == s.published;
        assert QueuedIn(t.queue, k);
      } else if QueuedIn(s.queue, k) {
        var j :| 0 <= j < |s.queue| && ((s.queue[j].Plain? && s.queue[j].k == k) || (s.queue[j].Marker? && k <= s.queue[j].k));
        assert t.queue[j] == s.queue[j];
      } else {
        assert Accounted(s, k);
      }
    }
  }

  lemma ReceivedStays(before: seq<Received>, more: seq<Received>, k: nat)
    ensures DeliveredIn(before, k) ==> DeliveredIn(before + more, k)
    ensures SupersededIn(before, k) ==> SupersededIn(before + more, k)
  {
    assert forall j :: 0 <= j < |before| ==> (before + more)[j] == before[j];
  }

  lemma TakeIsSound(s: Stream)
    requires Sound(s) && s.phase.Ready? && s.queue != []
    ensures Sound(Take(s))
  {
    var t := Take(s);
    forall k | 0 <= k < t.published ensures Accounted(t, k) {
      assert Accounted(s, k);
      if s.queue[0].Plain? {
        ReceivedStays(s.received, [Delivered(s.queue[0].k, s.queue[0].event)], k);
        if QueuedIn(s.queue, k) {
          var j :| 0 <= j < |s.queue| && ((s.queue[j].Plain? && s.queue[j].k == k) || (s.queue[j].Marker? && k <= s.queue[j].k));
          if j == 0 {
            assert t.received[|s.received|] == Delivered(k, s.queue[0].event);
          } else {
            assert t.queue[j - 1] == s.queue[j];
          }
        }
      }
    }
  }

  lemma FillIsSound(s: Stream, items: seq<Shown>)
    requires Sound(s)
    ensures Sound(Fill(s, items))
  {
    var t := Fill(s, items);
    forall k | 0 <= k < t.published ensures Accounted(t, k) {
      assert t.received[|s.received|] == Snapped(s.published, items);
      assert SupersededIn(t.received, k);
    }
  }

  lemma StepIsSound(w: World, step: Step)
    requires Sound(w.stream) && Possible(w, step)
    ensures Sound(Next(w, step).stream)
  {
    match step
    case Work(op) => PublishIsSound(w.stream, Activities(Snapshot(Apply(w.forest, op))));
    case Announce => PublishIsSound(w.stream, Other);
    case TakeNext => TakeIsSound(w.stream);
    case FillIn => FillIsSound(w.stream, Snapshot(w.forest));
  }

  lemma {:induction false} RunIsSound(w: World, steps: seq<Step>, v: World)
    requires Sound(w.stream) && Leads(w, steps, v)
    ensures Sound(v.stream)
    decreases |steps|
  {
    hide Sound;
    if steps != [] {
      StepIsSound(w, steps[0]);
      RunIsSound(Next(w, steps[0]), steps[1..], v);
    }
  }

  /** In every run after subscribing, each event published since is delivered, or superseded by a snapshot whose
      items were read after it, or one of the two is still to come: from the queue, which never exceeds its
      bound, or from the reader. */
  lemma NoEventIsLost(f: Forest, steps: seq<Step>, w: World, k: nat)
    requires Leads(World(f, SUBSCRIBED), steps, w) && k < w.stream.published
    ensures |w.stream.queue| <= CAPACITY
    ensures DeliveredIn(w.stream.received, k) || SupersededIn(w.stream.received, k)
      || QueuedIn(w.stream.queue, k) || w.stream.phase.Filling?
  {
    RunIsSound(World(f, SUBSCRIBED), steps, w);
    assert Accounted(w.stream, k);
  }

  // ---------------------------------------------------------------- convergence

  /** The items the client shows after what it received: the latest that carried any. */
  function Displayed(received: seq<Received>): seq<Shown>
    decreases |received|
  {
    if received == [] then []
    else
      match received[|received| - 1]
      case Delivered(_, Activities(items)) => items
      case Snapped(_, items) => items
      case _ => Displayed(received[..|received| - 1])
  }

  /** The items the client will show after the queue, were it read in one go with `now` shown. */
  function Settling(queue: seq<Entry>, shown: seq<Shown>, now: seq<Shown>): seq<Shown>
    decreases |queue|
  {
    if queue == [] then shown
    else
      Settling(queue[1..],
               match queue[0] case Plain(_, Activities(items)) => items case Plain(_, Other) => shown case Marker(_) => now,
               now)
  }

  function Outlook(s: Stream, now: seq<Shown>): seq<Shown> {
    Settling(s.queue, if s.phase.Filling? then now else Displayed(s.received), now)
  }

  lemma {:induction false} SettlingAppends(queue: seq<Entry>, last: Entry, shown: seq<Shown>, now: seq<Shown>)
    ensures Settling(queue + [last], shown, now)
         == Settling([last], Settling(queue, shown, now), now)
    decreases |queue|
  {
    if queue == [] {
      assert queue + [last] == [last];
    } else {
      assert (queue + [last])[1..] == queue[1..] + [last];
      SettlingAppends(queue[1..], last,
        match queue[0] case Plain(_, Activities(items)) => items case Plain(_, Other) => shown case Marker(_) => now, now);
    }
  }

  lemma DisplayedLast(received: seq<Received>, last: Received)
    ensures Displayed(received + [last]) ==
      match last case Delivered(_, Activities(items)) => items case Snapped(_, items) => items case _ => Displayed(received)
  {
    assert (received + [last])[..|received|] == received;
  }

  /** The stream always leads to the present. */
  ghost predicate OnCourse(w: World) {
    Outlook(w.stream, Snapshot(w.forest)) == Snapshot(w.forest)
  }

  lemma PublishStaysOnCourse(s: Stream, before: seq<Shown>, event: Event, after: seq<Shown>)
    requires Outlook(s, before) == before
    requires event == Activities(after) || (event == Other && before == after)
    ensures Outlook(Publish(s, event), after) == after
  {
    var t := Publish(s, event);
    if |s.queue| < CAPACITY {
      var last := Plain(s.published, event);
      var shown := if s.phase.Filling? then after else Displayed(s.received);
      SettlingAppends(s.queue, last, shown, after);
      assert [last][1..] == [];
      assert t.queue == s.queue + [last];
    } else {
      var shown := if t.phase.Filling? then after else Displayed(t.received);
      assert t.queue == [Marker(s.published)] && t.queue[1..] == [];
      assert Settling(t.queue, shown, after) == Settling([], after, after) == after;
    }
  }

  lemma StepStaysOnCourse(w: World, step: Step)
    requires OnCourse(w) && Possible(w, step)
    ensures OnCourse(Next(w, step))
  {
    var now := Snapshot(w.forest);
    match step
    case Work(op) =>
      var after := Snapshot(Apply(w.forest, op));
      if Publishes(w.forest, op) {
        PublishStaysOnCourse(w.stream, now, Activities(after), after);
      } else {
        UnpublishedChangesNothing(w.forest, op);
      }
      hide Apply;
      hide Publish;
      hide Outlook;
      hide Snapshot;
    case Announce =>
      PublishStaysOnCourse(w.stream, now, Other, now);
      hide Publish;
      hide Outlook;
      hide Snapshot;
    case TakeNext => TakeStaysOnCourse(w.stream, now);
    case FillIn => FillStaysOnCourse(w.stream, now);
  }

  lemma UnpublishedChangesNothing(f: Forest, op: Op)
    requires !Publishes(f, op)
    ensures Snapshot(Apply(f, op)) == Snapshot(f)
  {
    assert Apply(f, op).active == f.active;
    assert Leaves(Apply(f, op)) == Leaves(f);
  }

  lemma TakeStaysOnCourse(s: Stream, now: seq<Shown>)
    requires s.phase.Ready? && s.queue != [] && Outlook(s, now) == now
    ensures Outlook(Take(s), now) == now
  {
    match s.queue[0]
    case Plain(k, event) => DisplayedLast(s.received, Delivered(k, event));
    case Marker(_) =>
  }

  lemma FillStaysOnCourse(s: Stream, now: seq<Shown>)
    requires s.phase.Filling? && Outlook(s, now) == now
    ensures Outlook(Fill(s, now), now) == now
  {
    DisplayedLast(s.received, Snapped(s.published, now));
  }

  lemma {:induction false} RunStaysOnCourse(w: World, steps: seq<Step>, v: World)
    requires OnCourse(w) && Leads(w, steps, v)
    ensures OnCourse(v)
    decreases |steps|
  {
    hide OnCourse;
    if steps != [] {
      StepStaysOnCourse(w, steps[0]);
      RunStaysOnCourse(Next(w, steps[0]), steps[1..], v);
    }
  }

  /** Whenever the queue is drained, the client shows exactly the current leaves. */
  lemma DrainedClientIsCurrent(f: Forest, steps: seq<Step>, w: World)
    requires Leads(World(f, SUBSCRIBED), steps, w)
    requires w.stream.queue == [] && w.stream.phase.Ready?
    ensures Displayed(w.stream.received) == Snapshot(w.forest)
  {
    RunStaysOnCourse(World(f, SUBSCRIBED), steps, w);
  }

  // ---------------------------------------------------------------- the queue in place

  class Queue {
    var entries: seq<Entry>
    var published: nat

    ghost predicate Valid()
      reads this
    {
      |entries| <= CAPACITY
    }

    constructor ()
      ensures Valid() && entries == [] && published == 0
    {
      entries, published := [], 0;
    }

    /** The body of `publish` for one subscriber: drain a full queue and leave one marker, or append. */
    method Put(event: Event)
      requires Valid()
      modifies this
      ensures Valid()
      ensures forall phase, received ::
        Stream(entries, phase, received, published) == Publish(Stream(old(entries), phase, received, old(published)), event)
    {
      if |entries| == CAPACITY {
        while entries != []
          invariant Valid() && published == old(published)
          decreases |entries|
        {
          entries := entries[1..];
        }
        entries := entries + [Marker(published)];
      } else {
        entries := entries + [Plain(published, event)];
      }
      published := published + 1;
    }
  }
}
