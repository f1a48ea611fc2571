/** The supervisor's timing policy: what one tick asks for and stamps, and how often over any run. */
module Supervision {
  import opened Coalescer

  datatype FolderInfo = FolderInfo(account: nat, isInbox: bool)

  /** What a tick reads: the clock, the interval now in force, the active accounts and their folders. */
  datatype Reading = Reading(now: int, interval: int, active: set<nat>, folders: map<nat, FolderInfo>)

  /** The interval setting is at least a minute; only folders of active accounts are read. */
  ghost predicate Valid(r: Reading) {
    60 <= r.interval && forall f :: f in r.folders ==> r.folders[f].account in r.active
  }

  function Inboxes(folders: map<nat, FolderInfo>): set<nat> {
    set f | f in folders && folders[f].isInbox
  }

  datatype Stamps = Stamps(full: map<nat, int>, inbox: map<nat, int>)

  datatype Ask = Ask(account: nat, request: Request)

  /** Python's `_last_inbox.get(folder, 0)` */
  function StampOf(stamps: map<nat, int>, f: nat): int {
    if f in stamps then stamps[f] else 0
  }

  predicate FullDue(s: Stamps, r: Reading, a: nat) {
    a !in s.full || r.now - s.full[a] >= r.interval
  }

  predicate InboxDue(s: Stamps, r: Reading, f: nat) {
    r.now - StampOf(s.inbox, f) >= r.interval
  }

  function Scheduled(folders: map<nat, FolderInfo>, a: nat): set<nat> {
    set f | f in folders && folders[f].account == a && !folders[f].isInbox
  }

  /** The first request of an account is for everything; later ones are for its scheduled folders. */
  function FullAsk(s: Stamps, r: Reading, a: nat): Ask {
    if a !in s.full then Ask(a, Request(All, true)) else Ask(a, Request(Only(Scheduled(r.folders, a)), true))
  }

  function InboxAsk(r: Reading, f: nat): Ask
    requires f in r.folders
  {
    Ask(r.folders[f].account, Request(Only({f}), false))
  }

  predicate InboxAsked(s: Stamps, r: Reading, f: nat) {
    f in Inboxes(r.folders) && r.folders[f].account in s.full && InboxDue(s, r, f)
  }

  predicate InboxStamped(s: Stamps, r: Reading, f: nat) {
    f in Inboxes(r.folders) && (r.folders[f].account !in s.full || InboxDue(s, r, f))
  }

  function NextStamps(s: Stamps, r: Reading): Stamps {
    Stamps(
      map a | a in r.active :: if FullDue(s, r, a) then r.now else s.full[a],
      map f | f in Inboxes(r.folders) && (f in s.inbox || InboxStamped(s, r, f)) ::
        if InboxStamped(s, r, f) then r.now else s.inbox[f])
  }

  function Asks(s: Stamps, r: Reading): set<Ask> {
    (set a | a in r.active && FullDue(s, r, a) :: FullAsk(s, r, a))
    + (set f | f in r.folders && InboxAsked(s, r, f) :: InboxAsk(r, f))
  }

  // ---------------------------------------------------------------- one tick

  /** After a tick every active account and every inbox folder was asked for less than one interval
      ago, counting a folder without a stamp as asked at the clock's zero. */
  lemma TickLeavesNothingOverdue(s: Stamps, r: Reading)
    requires Valid(r)
    ensures NextStamps(s, r).full.Keys == r.active
    ensures NextStamps(s, r).inbox.Keys <= Inboxes(r.folders)
    ensures forall a :: a in r.active ==> !FullDue(NextStamps(s, r), r, a)
    ensures forall f :: f in Inboxes(r.folders) ==> !InboxDue(NextStamps(s, r), r, f)
  {
    forall f | f in Inboxes(r.folders) ensures !InboxDue(NextStamps(s, r), r, f) {
      if f in NextStamps(s, r).inbox {
      } else {
        assert !InboxStamped(s, r, f);
      }
    }
  }

  /** A folder is left without a stamp exactly when it is new to an account that is not, while the
      clock is still within one interval of its zero. */
  lemma UnstampedExactly(s: Stamps, r: Reading, f: nat)
    requires f in Inboxes(r.folders)
    ensures f !in NextStamps(s, r).inbox <==>
            f !in s.inbox && r.folders[f].account in s.full && r.now < r.interval
  {
  }

  /** Whatever is overdue is asked for: an inbox folder by a request that covers it, an account by one
      that discovers and covers all its scheduled folders. */
  lemma OverdueIsAsked(s: Stamps, r: Reading)
    requires Valid(r)
    ensures forall f :: f in Inboxes(r.folders) && InboxDue(s, r, f) ==>
              exists k :: k in Asks(s, r) && k.account == r.folders[f].account && Covers(k.request, Request(Only({f}), false))
    ensures forall a :: a in r.active && FullDue(s, r, a) ==>
              exists k :: k in Asks(s, r) && k.account == a && Covers(k.request, Request(Only(Scheduled(r.folders, a)), true))
  {
    forall f | f in Inboxes(r.folders) && InboxDue(s, r, f)
      ensures exists k :: k in Asks(s, r) && k.account == r.folders[f].account && Covers(k.request, Request(Only({f}), false))
    {
      if r.folders[f].account in s.full {
        assert InboxAsk(r, f) in Asks(s, r);
      } else {
        assert FullAsk(s, r, r.folders[f].account) in Asks(s, r);
      }
    }
    forall a | a in r.active && FullDue(s, r, a)
      ensures exists k :: k in Asks(s, r) && k.account == a && Covers(k.request, Request(Only(Scheduled(r.folders, a)), true))
    {
      assert FullAsk(s, r, a) in Asks(s, r);
    }
  }

  // ---------------------------------------------------------------- any run

  /** A tick, or an account unscheduled (retried, edited, removed) between ticks. */
  datatype Event = Tick(reading: Reading) | Unscheduled(account: nat)

  function After(s: Stamps, e: Event): Stamps {
    match e
    case Tick(r) => NextStamps(s, r)
    case Unscheduled(a) => s.(full := s.full - {a})
  }

  function Replay(s: Stamps, events: seq<Event>): Stamps
    decreases |events|
  {
    if events == [] then s else Replay(After(s, events[0]), events[1..])
  }

  /** Ticks read a clock that never goes back, `last` being the latest reading so far. */
  ghost predicate Timely(last: int, events: seq<Event>)
    decreases |events|
  {
    events != [] ==>
      match events[0]
      case Tick(r) => Valid(r) && last <= r.now && Timely(r.now, events[1..])
      case Unscheduled(_) => Timely(last, events[1..])
  }

  ghost predicate InboxStays(events: seq<Event>, f: nat) {
    forall i :: 0 <= i < |events| && events[i].Tick? ==> f in Inboxes(events[i].reading.folders)
  }

  ghost predicate AccountStays(events: seq<Event>, a: nat) {
    forall i :: 0 <= i < |events| ==>
      match events[i] case Tick(r) => a in r.active case Unscheduled(b) => b != a
  }

  lemma {:induction false} InboxStampGrows(s: Stamps, events: seq<Event>, last: int, f: nat, at: int)
    requires Timely(last, events) && InboxStays(events, f)
    requires f in s.inbox && at <= s.inbox[f] && at <= last
    ensures f in Replay(s, events).inbox && at <= Replay(s, events).inbox[f]
    decreases |events|
  {
    if events != [] {
      var next := After(s, events[0]);
      assert InboxStays(events[1..], f);
      match events[0]
      case Tick(r) => InboxStampGrows(next, events[1..], r.now, f, at);
      case Unscheduled(_) => InboxStampGrows(next, events[1..], last, f, at);
    }
  }

  lemma {:induction false} FullStampGrows(s: Stamps, events: seq<Event>, last: int, a: nat, at: int)
    requires Timely(last, events) && AccountStays(events, a)
    requires a in s.full && at <= s.full[a] && at <= last
    ensures a in Replay(s, events).full && at <= Replay(s, events).full[a]
    decreases |events|
  {
    if events != [] {
      var next := After(s, events[0]);
      assert AccountStays(events[1..], a);
      match events[0]
      case Tick(r) => FullStampGrows(next, events[1..], r.now, a, at);
      case Unscheduled(_) => FullStampGrows(next, events[1..], last, a, at);
    }
  }

  /** Two interval checks of one inbox folder are never closer than the interval in force at the later
      one, however the interval changes in between, as long as every tick still sees the folder in
      the inbox. */
  lemma InboxChecksAreSpaced(s: Stamps, first: Reading, between: seq<Event>, second: Reading, f: nat)
    requires Valid(first) && Timely(first.now, between + [Tick(second)])
    requires InboxStays(between, f)
    requires InboxStamped(s, first, f)
    requires InboxAsked(Replay(NextStamps(s, first), between), second, f)
    ensures second.now - first.now >= second.interval
  {
    TimelyPrefix(first.now, between, Tick(second));
    InboxStampGrows(NextStamps(s, first), between, first.now, f, first.now);
  }

  /** The same for the account key, as long as the account stays active and is not unscheduled. */
  lemma FullChecksAreSpaced(s: Stamps, first: Reading, between: seq<Event>, second: Reading, a: nat)
    requires Valid(first) && Timely(first.now, between + [Tick(second)])
    requires a in first.active && AccountStays(between, a)
    requires FullDue(s, first, a)
    requires FullDue(Replay(NextStamps(s, first), between), second, a)
    ensures second.now - first.now >= second.interval
  {
    TimelyPrefix(first.now, between, Tick(second));
    FullStampGrows(NextStamps(s, first), between, first.now, a, first.now);
  }

  lemma {:induction false} TimelyPrefix(last: int, events: seq<Event>, e: Event)
    requires Timely(last, events + [e])
    ensures Timely(last, events)
    decreases |events|
  {
    if events != [] {
      assert (events + [e])[1..] == events[1..] + [e];
      match events[0]
      case Tick(r) => TimelyPrefix(r.now, events[1..], e);
      case Unscheduled(_) => TimelyPrefix(last, events[1..], e);
    }
  }

  /** The condition on the folder is needed: one that a tick sees leave the inbox loses its stamp, and
      is asked for again as soon as it is back, however recent the last check. */
  lemma ReturningInboxIsAskedAtOnce(s: Stamps, gone: Reading, back: Reading, f: nat)
    requires f !in Inboxes(gone.folders) && f in Inboxes(back.folders)
    requires back.folders[f].account in gone.active && back.interval <= back.now
    ensures InboxAsked(NextStamps(s, gone), back, f)
  {
  }
}
