/** The supervisor in its own form: `_tick` keeps one watcher task per inbox folder of an active
    account, stamps what it asks for, and forgets what is gone. */
module Supervisor {
  import opened Prelude
  import opened Coalescer
  import opened Supervision

  /** The stamps and the requests of the tick in progress. */
  datatype Ledger = Ledger(full: map<nat, int>, inbox: map<nat, int>, asked: set<Ask>)

  /** The inner loop's body: an overdue inbox folder of account `a` is asked for and stamped. */
  function CheckFolder(l: Ledger, r: Reading, a: nat, f: nat): Ledger
    requires f in r.folders
  {
    if r.folders[f].account == a && r.folders[f].isInbox && r.now - StampOf(l.inbox, f) >= r.interval then
      l.(asked := l.asked + {InboxAsk(r, f)}, inbox := l.inbox[f := r.now])
    else l
  }

  function CheckFolders(l: Ledger, r: Reading, a: nat, folders: seq<nat>): Ledger
    requires forall f :: f in folders ==> f in r.folders
    decreases |folders|
  {
    if folders == [] then l else CheckFolders(CheckFolder(l, r, a, folders[0]), r, a, folders[1..])
  }

  /** The outer loop's body up to its inner loop. */
  function CheckFull(l: Ledger, r: Reading, a: nat): Ledger {
    if a !in l.full then
      Ledger(l.full[a := r.now], StampAll(l.inbox, InboxesOf(r, a), r.now), l.asked + {Ask(a, Request(All, true))})
    else if r.now - l.full[a] >= r.interval then
      l.(full := l.full[a := r.now], asked := l.asked + {Ask(a, Request(Only(Scheduled(r.folders, a)), true))})
    else l
  }

  function Turns(l: Ledger, r: Reading, accounts: seq<nat>): Ledger
    decreases |accounts|
  {
    if accounts == [] then l
    else Turns(CheckFolders(CheckFull(l, r, accounts[0]), r, accounts[0], Sorted(r.folders.Keys)), r, accounts[1..])
  }

  /** What `_stop_folder` acts on: watcher tasks and their accounts, the clients registered with them, those whose socket
      was shut down, the tasks cancelled, and the folders with a shown watcher state. */
  datatype Registry = Registry(
    tasks: map<nat, nat>, accounts: map<nat, nat>, clients: map<nat, nat>, cut: set<nat>, cancelled: set<nat>, shown: set<nat>)

  function ValuesAt(m: map<nat, nat>, keys: set<nat>): set<nat> {
    set f | f in keys && f in m :: m[f]
  }

  /** Folders are stopped: their sockets are cut, their tasks cancelled, and every trace of them goes. */
  function StopAll(r: Registry, stopped: set<nat>): Registry {
    Registry(r.tasks - stopped, r.accounts - stopped, r.clients - stopped, r.cut + ValuesAt(r.clients, stopped),
             r.cancelled + ValuesAt(r.tasks, stopped), r.shown - stopped)
  }

  lemma ValuesGrow(m: map<nat, nat>, a: set<nat>, b: set<nat>)
    ensures ValuesAt(m, a) + ValuesAt(m - a, b) == ValuesAt(m, a + b)
    ensures ValuesAt(m, {}) == {} && m - a - b == m - (a + b) && m - {} == m
  {
    forall v | v in ValuesAt(m, a + b) ensures v in ValuesAt(m, a) + ValuesAt(m - a, b) {
      var f :| f in a + b && f in m && m[f] == v;
      assert f in a || f in m - a;
    }
  }

  lemma StopAllGrows(r: Registry, a: set<nat>, b: set<nat>)
    ensures StopAll(StopAll(r, a), b) == StopAll(r, a + b)
    ensures StopAll(r, {}) == r
  {
    ValuesGrow(r.clients, a, b);
    ValuesGrow(r.tasks, a, b);
    ValuesGrow(r.accounts, a, b);
    hide ValuesAt;
    assert r.shown - a - b == r.shown - (a + b);
  }

  function Pruned(w: Registry, r: Reading): Registry {
    w.(shown := w.shown * r.folders.Keys)
  }

  /** The watched folders of some accounts. */
  function WatchedOf(accounts: map<nat, nat>, of: set<nat>): set<nat> {
    set f | f in accounts && accounts[f] in of
  }

  /** The watched folders that are not wanted, or whose task has ended. */
  function Unwanted(tasks: map<nat, nat>, desired: set<nat>, done: set<nat>): set<nat> {
    set f | f in tasks && (f !in desired || tasks[f] in done)
  }

  class Scheduler {
    var tasks: map<nat, nat>         // folder -> watcher task
    var accounts: map<nat, nat>      // folder -> account
    var clients: map<nat, nat>       // folder -> registered client
    var cut: set<nat>                // clients whose socket was shut down
    var cancelled: set<nat>          // watcher tasks cancelled
    var shown: set<nat>              // folders with a shown watcher state
    var errors: set<nat>             // accounts with a shown error
    var dropped: set<nat>            // accounts whose requests were cancelled
    var lastFull: map<nat, int>
    var lastInbox: map<nat, int>
    var nextTask: nat
    var asked: set<Ask>              // requests made by the tick in progress

    ghost predicate Valid()
      reads this
    {
      tasks.Keys == accounts.Keys && forall f :: f in tasks ==> tasks[f] < nextTask
    }

    ghost function Current(): Ledger
      reads this
    {
      Ledger(lastFull, lastInbox, asked)
    }

    ghost function Watching(): Registry
      reads this
    {
      Registry(tasks, accounts, clients, cut, cancelled, shown)
    }

    ghost function CurrentStamps(): Stamps
      reads this
    {
      Stamps(lastFull, lastInbox)
    }

    constructor ()
      ensures Valid() && CurrentStamps() == Stamps(map[], map[])
      ensures Watching() == Registry(map[], map[], map[], {}, {}, {}) && errors == {} && dropped == {}
    {
      tasks, accounts, clients, cut, cancelled, shown := map[], map[], map[], {}, {}, {};
      errors, dropped, lastFull, lastInbox, nextTask, asked := {}, {}, map[], map[], 0, {};
    }

    /** `_stop_folder` */
    method StopFolder(f: nat)
      requires Valid()
      modifies this`tasks, this`accounts, this`clients, this`cut, this`cancelled, this`shown
      ensures Valid() && Watching() == StopAll(old(Watching()), {f})
    {
      if f in clients {
        cut := cut + {clients[f]};
        clients := clients - {f};
      }
      if f in tasks {
        cancelled := cancelled + {tasks[f]};
        tasks := tasks - {f};
      }
      accounts := accounts - {f};
      shown := shown - {f};
      assert clients == old(clients) - {f} && tasks == old(tasks) - {f};
      assert ValuesAt(old(clients), {f}) == if f in old(clients) then {old(clients)[f]} else {};
      assert ValuesAt(old(tasks), {f}) == if f in old(tasks) then {old(tasks)[f]} else {};
    }

    /** `unschedule_account_sync` */
    method Unschedule(a: nat)
      requires Valid()
      modifies this`tasks, this`accounts, this`clients, this`cut, this`cancelled, this`shown,
               this`errors, this`dropped, this`lastFull
      ensures Valid() && Watching() == StopAll(old(Watching()), WatchedOf(old(accounts), {a}))
      ensures lastFull == old(lastFull) - {a} && errors == old(errors) - {a} && dropped == old(dropped) + {a}
    {
      var items := accounts;
      var todo := accounts.Keys;
      ghost var stopped: set<nat> := {};
      StopAllGrows(Watching(), {}, {});
      while todo != {}
        invariant Valid() && Watching() == StopAll(old(Watching()), stopped)
        invariant todo <= old(accounts).Keys && lastFull == old(lastFull) && errors == old(errors) && dropped == old(dropped)
        invariant forall f :: f in stopped <==> f in old(accounts) && old(accounts)[f] == a && f !in todo
        decreases todo
      {
        var f :| f in todo;
        todo := todo - {f};
        if items[f] == a {
          hide StopAll;
          StopAllGrows(old(Watching()), stopped, {f});
          StopFolder(f);
          stopped := stopped + {f};
        }
      }
      assert stopped == WatchedOf(old(accounts), {a});
      dropped := dropped + {a};
      errors := errors - {a};
      lastFull := lastFull - {a};
    }

    /** Stop the watchers of folders no longer wanted and those whose task has ended. */
    method StopUnwanted(desired: set<nat>, done: set<nat>)
      requires Valid()
      modifies this`tasks, this`accounts, this`clients, this`cut, this`cancelled, this`shown
      ensures Valid() && Watching() == StopAll(old(Watching()), Unwanted(old(tasks), desired, done))
    {
      var todo := tasks.Keys;
      ghost var stopped: set<nat> := {};
      StopAllGrows(Watching(), {}, {});
      while todo != {}
        invariant Valid() && Watching() == StopAll(old(Watching()), stopped)
        invariant todo <= old(tasks).Keys && stopped !! todo
        invariant forall f :: f in stopped <==> f in old(tasks) && (f !in desired || old(tasks)[f] in done) && f !in todo
        decreases todo
      {
        var f :| f in todo;
        todo := todo - {f};
        assert tasks[f] == old(tasks)[f];
        if f !in desired || tasks[f] in done {
          hide StopAll;
          StopAllGrows(old(Watching()), stopped, {f});
          StopFolder(f);
          stopped := stopped + {f};
        }
      }
      assert stopped == Unwanted(old(tasks), desired, done);
    }

    /** Accounts that were stamped and are no longer active are unscheduled. */
    method UnscheduleInactive(active: set<nat>)
      requires Valid()
      modifies this`tasks, this`accounts, this`clients, this`cut, this`cancelled, this`shown,
               this`errors, this`dropped, this`lastFull
      ensures
        var gone := old(lastFull).Keys - active;
        && Valid() && Watching() == StopAll(old(Watching()), WatchedOf(old(accounts), gone))
        && lastFull == old(lastFull) - gone && errors == old(errors) - gone && dropped == old(dropped) + gone
    {
      var todo := lastFull.Keys - active;
      ghost var gone: set<nat> := {};
      StopAllGrows(Watching(), {}, {});
      assert WatchedOf(accounts, {}) == {};
      while todo != {}
        invariant Valid() && Watching() == StopAll(old(Watching()), WatchedOf(old(accounts), gone))
        invariant lastFull == old(lastFull) - gone && errors == old(errors) - gone && dropped == old(dropped) + gone
        invariant gone + todo == old(lastFull).Keys - active && gone !! todo
        decreases todo
      {
        var a :| a in todo;
        todo := todo - {a};
        ghost var before := WatchedOf(old(accounts), gone);
        assert WatchedOf(accounts, {a}) == WatchedOf(old(accounts), {a}) - before;
        StopAllGrows(old(Watching()), before, WatchedOf(accounts, {a}));
        hide StopAll;
        Unschedule(a);
        assert WatchedOf(old(accounts), gone + {a}) == before + (WatchedOf(old(accounts), {a}) - before);
        gone := gone + {a};
      }
    }

    /** Start a watcher for every wanted folder that has none. */
    method StartMissing(folders: map<nat, FolderInfo>)
      requires Valid() && tasks.Keys <= Inboxes(folders)
      modifies this`tasks, this`accounts, this`shown, this`nextTask
      ensures Valid() && tasks.Keys == Inboxes(folders)
      ensures shown == old(shown) + (tasks.Keys - old(tasks).Keys)
      ensures forall f :: f in old(tasks) ==> tasks[f] == old(tasks)[f] && accounts[f] == old(accounts)[f]
      ensures forall f :: f in tasks && f !in old(tasks) ==> accounts[f] == folders[f].account && old(nextTask) <= tasks[f]
    {
      var todo := Inboxes(folders);
      while todo != {}
        invariant Valid() && old(nextTask) <= nextTask && todo <= Inboxes(folders)
        invariant tasks.Keys <= Inboxes(folders) && Inboxes(folders) - todo <= tasks.Keys
        invariant shown == old(shown) + (tasks.Keys - old(tasks).Keys)
        invariant forall f :: f in old(tasks) ==> f in tasks && tasks[f] == old(tasks)[f] && accounts[f] == old(accounts)[f]
        invariant forall f :: f in tasks && f !in old(tasks) ==> accounts[f] == folders[f].account && old(nextTask) <= tasks[f]
        decreases todo
      {
        var f :| f in todo;
        todo := todo - {f};
        if f !in tasks {
          accounts := accounts[f := folders[f].account];
          shown := shown + {f};
          tasks := tasks[f := nextTask];
          nextTask := nextTask + 1;
        }
      }
    }

    /** `_tick` after its reading. `done` are the watcher tasks that have ended. */
    method Tick(r: Reading, done: set<nat>)
      requires Valid() && Supervision.Valid(r)
      modifies this
      ensures Valid() && tasks.Keys == accounts.Keys == Inboxes(r.folders)
      ensures KeptOrStopped(old(Watching()), Watching(), r, old(lastFull).Keys, done, old(nextTask))
      ensures errors == old(errors) * r.active && dropped == old(dropped) + (old(lastFull).Keys - r.active)
      ensures CurrentStamps() == NextStamps(old(CurrentStamps()), r)
      ensures asked == Asks(old(CurrentStamps()), r)
    {
      hide Inboxes;
      hide Turns;
      hide NextStamps;
      hide Asks;
      hide StampAll;
      hide Sorted;
      hide KeptOrStopped;
      ghost var before := CurrentStamps();
      SuperviseWatchers(r, done);
      ghost var start := Current();
      AskDue(r);
      TurnsMakeTick(before, r, start);
      lastInbox := lastInbox - (lastInbox.Keys - Inboxes(r.folders));
    }

    method SuperviseWatchers(r: Reading, done: set<nat>)
      requires Valid() && Supervision.Valid(r)
      modifies this`tasks, this`accounts, this`clients, this`cut, this`cancelled, this`shown,
               this`errors, this`dropped, this`nextTask, this`lastFull, this`asked
      ensures Valid() && tasks.Keys == Inboxes(r.folders)
      ensures KeptOrStopped(old(Watching()), Watching(), r, old(lastFull).Keys, done, old(nextTask))
      ensures errors == old(errors) * r.active && dropped == old(dropped) + (old(lastFull).Keys - r.active)
      ensures lastFull == old(lastFull) - (old(lastFull).Keys - r.active) && asked == {}
    {
      hide Inboxes;
      hide StopAll;
      hide Unwanted;
      hide WatchedOf;
      hide KeptOrStopped;
      asked := {};
      ghost var pruned := Pruned(Watching(), r);
      ghost var unwanted := Unwanted(pruned.tasks, Inboxes(r.folders), done);
      ghost var inactive := WatchedOf(pruned.accounts - unwanted, old(lastFull).Keys - r.active);
      StopWatchers(r, done);
      ghost var left := Watching();
      StoppedTasks(pruned, unwanted, inactive, r, done);
      StartMissing(r.folders);
      WatchersAccountedFor(old(Watching()), pruned, left, Watching(), r, unwanted, inactive, old(lastFull).Keys, done, old(nextTask));
    }

    /** What is shown of folders and accounts that are gone goes; unwanted watchers and inactive accounts are stopped. */
    method StopWatchers(r: Reading, done: set<nat>)
      requires Valid()
      modifies this`tasks, this`accounts, this`clients, this`cut, this`cancelled, this`shown,
               this`errors, this`dropped, this`lastFull
      ensures
        var pruned, gone := Pruned(old(Watching()), r), old(lastFull).Keys - r.active;
        var unwanted := Unwanted(pruned.tasks, Inboxes(r.folders), done);
        && Valid() && Watching() == StopAll(pruned, unwanted + WatchedOf(pruned.accounts - unwanted, gone))
        && errors == old(errors) * r.active && dropped == old(dropped) + gone && lastFull == old(lastFull) - gone
    {
      hide Inboxes;
      hide Unwanted;
      hide WatchedOf;
      shown := shown * r.folders.Keys;
      errors := errors * r.active;
      ghost var pruned := Watching();
      StopUnwanted(Inboxes(r.folders), done);
      ghost var unwanted := Unwanted(pruned.tasks, Inboxes(r.folders), done);
      assert accounts == pruned.accounts - unwanted;
      hide StopAll;
      UnscheduleInactive(r.active);
      StopAllGrows(pruned, unwanted, WatchedOf(pruned.accounts - unwanted, old(lastFull).Keys - r.active));
    }

    /** The loop over active accounts. */
    method AskDue(r: Reading)
      modifies this`lastFull, this`lastInbox, this`asked
      ensures Current() == Turns(old(Current()), r, Sorted(r.active))
    {
      hide Sorted;
      hide StampAll;
      var active := Sorted(r.active);
      for k := 0 to |active|
        invariant Turns(Current(), r, active[k..]) == Turns(old(Current()), r, active)
      {
        assert active[k..][1..] == active[k + 1..];
        var a := active[k];
        if a !in lastFull {
          asked := asked + {Ask(a, Request(All, true))};
          lastFull := lastFull[a := r.now];
          lastInbox := StampAll(lastInbox, InboxesOf(r, a), r.now);
        } else if r.now - lastFull[a] >= r.interval {
          asked := asked + {Ask(a, Request(Only(Scheduled(r.folders, a)), true))};
          lastFull := lastFull[a := r.now];
        }
        CheckInboxes(r, a);
      }
    }

    /** The inner loop: ask for every overdue inbox folder of the account. */
    method CheckInboxes(r: Reading, a: nat)
      modifies this`lastInbox, this`asked
      ensures Current() == CheckFolders(old(Current()), r, a, Sorted(r.folders.Keys))
    {
      var folders := Sorted(r.folders.Keys);
      hide Sorted;
      for k := 0 to |folders|
        invariant CheckFolders(Current(), r, a, folders[k..]) == CheckFolders(old(Current()), r, a, folders)
      {
        assert folders[k..][1..] == folders[k + 1..];
        var f := folders[k];
        assert f in folders;
        if r.folders[f].account == a && r.folders[f].isInbox {
          if r.now - StampOf(lastInbox, f) >= r.interval {
            asked := asked + {Ask(a, Request(Only({f}), false))};
            lastInbox := lastInbox[f := r.now];
          }
        }
      }
    }
  }

  ghost predicate StopsThese(
    before: Registry, after: Registry, r: Reading, stamped: set<nat>, done: set<nat>, nextTask: nat)
  {
    forall f :: f in before.tasks && IsStopped(before, r, stamped, done, f) ==>
      && before.tasks[f] in after.cancelled && f !in after.clients
      && (f in before.clients ==> before.clients[f] in after.cut)
      && (f in after.tasks ==> nextTask <= after.tasks[f])
  }

  ghost predicate KeepsTheOthers(before: Registry, after: Registry, r: Reading, stamped: set<nat>, done: set<nat>) {
    forall f :: f in before.tasks && !IsStopped(before, r, stamped, done, f) ==>
      && f in after.tasks && after.tasks[f] == before.tasks[f]
      && (f in before.clients <==> f in after.clients)
      && (f in before.clients && f in after.clients ==> after.clients[f] == before.clients[f])
  }

  ghost predicate CancelsOnlyThese(before: Registry, after: Registry, r: Reading, stamped: set<nat>, done: set<nat>) {
    && before.cancelled <= after.cancelled && before.cut <= after.cut
    && forall t :: t in after.cancelled && t !in before.cancelled ==>
         exists f :: f in before.tasks && before.tasks[f] == t && IsStopped(before, r, stamped, done, f)
  }

  /** A tick stops the watcher of a folder that is no longer wanted, whose task has ended, or whose account was stamped
      and is inactive: its socket is cut and its task cancelled. Every other watcher it keeps as it is. A task it starts
      is new. What is shown is of folders of active accounts only. */
  ghost predicate KeptOrStopped(
    before: Registry, after: Registry, r: Reading, stamped: set<nat>, done: set<nat>, nextTask: nat)
  {
    && StopsThese(before, after, r, stamped, done, nextTask) && KeepsTheOthers(before, after, r, stamped, done)
    && CancelsOnlyThese(before, after, r, stamped, done)
    && (forall f :: f in after.tasks && f !in before.tasks ==> nextTask <= after.tasks[f])
    && after.shown <= r.folders.Keys && after.tasks.Keys - before.tasks.Keys <= after.shown
  }

  ghost predicate IsStopped(before: Registry, r: Reading, stamped: set<nat>, done: set<nat>, f: nat)
    requires f in before.tasks
  {
    f !in Inboxes(r.folders) || before.tasks[f] in done
    || (f in before.accounts && before.accounts[f] in stamped && before.accounts[f] !in r.active)
  }

  lemma StoppedTasks(r: Registry, unwanted: set<nat>, inactive: set<nat>, reading: Reading, done: set<nat>)
    requires unwanted == Unwanted(r.tasks, Inboxes(reading.folders), done)
    ensures StopAll(r, unwanted).accounts == r.accounts - unwanted
    ensures StopAll(r, unwanted + inactive).tasks.Keys <= Inboxes(reading.folders)
  {
  }

  lemma WatchersAccountedFor(
    before: Registry, pruned: Registry, left: Registry, after: Registry, r: Reading,
    unwanted: set<nat>, inactive: set<nat>, stamped: set<nat>, done: set<nat>, nextTask: nat)
    requires before.tasks.Keys == before.accounts.Keys && pruned == before.(shown := before.shown * r.folders.Keys)
    requires unwanted == Unwanted(pruned.tasks, Inboxes(r.folders), done)
    requires inactive == WatchedOf(pruned.accounts - unwanted, stamped - r.active)
    requires left == StopAll(pruned, unwanted + inactive)
    requires after == left.(tasks := after.tasks, accounts := after.accounts, shown := after.shown)
    requires after.tasks.Keys == Inboxes(r.folders) && after.shown == left.shown + (after.tasks.Keys - left.tasks.Keys)
    requires forall f :: f in left.tasks ==> f in after.tasks && after.tasks[f] == left.tasks[f]
    requires forall f :: f in after.tasks && f !in left.tasks ==> nextTask <= after.tasks[f]
    ensures KeptOrStopped(before, after, r, stamped, done, nextTask)
  {
    var stopped := unwanted + inactive;
    forall f | f in before.tasks ensures f in stopped <==> IsStopped(before, r, stamped, done, f) {
    }
    assert Inboxes(r.folders) <= r.folders.Keys;
    hide IsStopped;
    hide Unwanted;
    hide WatchedOf;
    StoppedWatchers(before, pruned, left, after, r, stopped, stamped, done, nextTask);
    hide StopAll;
    hide StopsThese;
    hide KeepsTheOthers;
    hide CancelsOnlyThese;
  }

  lemma StoppedWatchers(
    before: Registry, pruned: Registry, left: Registry, after: Registry, r: Reading,
    stopped: set<nat>, stamped: set<nat>, done: set<nat>, nextTask: nat)
    requires pruned == before.(shown := before.shown * r.folders.Keys) && left == StopAll(pruned, stopped)
    requires forall f :: f in before.tasks ==> (f in stopped <==> IsStopped(before, r, stamped, done, f))
    requires after == left.(tasks := after.tasks, accounts := after.accounts, shown := after.shown)
    requires forall f :: f in left.tasks ==> f in after.tasks && after.tasks[f] == left.tasks[f]
    requires forall f :: f in after.tasks && f !in left.tasks ==> nextTask <= after.tasks[f]
    ensures StopsThese(before, after, r, stamped, done, nextTask) && KeepsTheOthers(before, after, r, stamped, done)
    ensures CancelsOnlyThese(before, after, r, stamped, done)
  {
    hide IsStopped;
    forall f | f in before.tasks && f in stopped
      ensures before.tasks[f] in after.cancelled && f !in after.clients
      ensures f in before.clients ==> before.clients[f] in after.cut
    {
      assert before.tasks[f] in ValuesAt(before.tasks, stopped);
      assert f in before.clients ==> before.clients[f] in ValuesAt(before.clients, stopped);
    }
  }

  function InboxesOf(r: Reading, a: nat): set<nat> {
    set f | f in r.folders && r.folders[f].account == a && r.folders[f].isInbox
  }

  function StampAll(stamps: map<nat, int>, folders: set<nat>, now: int): map<nat, int> {
    map f | f in stamps.Keys + folders :: if f in folders then now else stamps[f]
  }

  // ---------------------------------------------------------------- the loops compute one tick

  ghost predicate Listed(r: Reading, folders: seq<nat>) {
    forall f :: f in folders ==> f in r.folders
  }

  /** What the inner loop does to one folder's stamp, and what it asks for. */
  lemma {:induction false} CheckFoldersIs(l: Ledger, r: Reading, a: nat, folders: seq<nat>)
    requires Listed(r, folders) && 0 < r.interval
    ensures
      var n := CheckFolders(l, r, a, folders);
      && n.full == l.full
      && (forall f :: f in n.inbox <==> f in l.inbox || (f in folders && OverdueFor(l, r, a, f)))
      && (forall f :: f in n.inbox ==>
            n.inbox[f] == if f in folders && OverdueFor(l, r, a, f) then r.now else l.inbox[f])
      && (forall k :: k in n.asked <==> k in l.asked || exists f :: f in folders && OverdueFor(l, r, a, f) && k == InboxAsk(r, f))
    decreases |folders|
  {
    if folders != [] {
      var g, rest := folders[0], folders[1..];
      var m := CheckFolder(l, r, a, g);
      assert folders == [g] + rest;
      CheckFoldersIs(m, r, a, rest);
      assert forall f :: f != g ==> (OverdueFor(m, r, a, f) <==> OverdueFor(l, r, a, f));
      assert OverdueFor(l, r, a, g) ==> !OverdueFor(m, r, a, g);
      assert !OverdueFor(l, r, a, g) ==> m == l;
    }
  }

  ghost predicate OverdueFor(l: Ledger, r: Reading, a: nat, f: nat) {
    f in r.folders && r.folders[f].account == a && r.folders[f].isInbox && r.now - StampOf(l.inbox, f) >= r.interval
  }

  /** The ledger once exactly the accounts in `done` have had their turn. */
  ghost predicate FullAt(s: Stamps, r: Reading, l: Ledger, done: set<nat>) {
    && (forall a :: a in l.full <==> a in r.active && (a in s.full || a in done))
    && (forall a :: a in l.full ==> l.full[a] == if a in done && FullDue(s, r, a) then r.now else StampOf(s.full, a))
  }

  ghost predicate InboxAt(s: Stamps, r: Reading, l: Ledger, done: set<nat>) {
    && (forall f :: f in l.inbox <==> f in s.inbox || StampedBy(s, r, done, f))
    && (forall f :: f in l.inbox ==> l.inbox[f] == if StampedBy(s, r, done, f) then r.now else s.inbox[f])
  }

  ghost predicate StampedBy(s: Stamps, r: Reading, done: set<nat>, f: nat) {
    InboxStamped(s, r, f) && r.folders[f].account in done
  }

  ghost predicate AskedAt(s: Stamps, r: Reading, l: Ledger, done: set<nat>) {
    forall k :: k in l.asked <==> FullAskedBy(s, r, done, k) || InboxAskedBy(s, r, done, k)
  }

  ghost predicate FullAskedBy(s: Stamps, r: Reading, done: set<nat>, k: Ask) {
    k.account in done && FullDue(s, r, k.account) && k == FullAsk(s, r, k.account)
  }

  ghost predicate InboxAskedBy(s: Stamps, r: Reading, done: set<nat>, k: Ask) {
    exists f :: InboxAsked(s, r, f) && r.folders[f].account in done && k == InboxAsk(r, f)
  }

  ghost function Turn(l: Ledger, r: Reading, a: nat): Ledger {
    CheckFolders(CheckFull(l, r, a), r, a, Sorted(r.folders.Keys))
  }

  lemma CheckFullIs(l: Ledger, r: Reading, a: nat)
    ensures
      var m := CheckFull(l, r, a);
      var due := a !in l.full || r.now - l.full[a] >= r.interval;
      && m.full == (if due then l.full[a := r.now] else l.full)
      && (forall f :: f in m.inbox <==> f in l.inbox || (a !in l.full && f in InboxesOf(r, a)))
      && (forall f :: f in m.inbox ==> m.inbox[f] == if a !in l.full && f in InboxesOf(r, a) then r.now else l.inbox[f])
  {
  }

  lemma TurnFull(s: Stamps, r: Reading, l: Ledger, done: set<nat>, a: nat)
    requires Supervision.Valid(r) && a in r.active && a !in done && FullAt(s, r, l, done)
    ensures FullAt(s, r, Turn(l, r, a), done + {a})
  {
    var n := Turn(l, r, a);
    TurnStampsFull(l, r, a);
    hide Turn;
    assert a in l.full <==> a in s.full;
    forall b ensures b in n.full <==> b in r.active && (b in s.full || b in done + {a}) {
      if b != a {
        assert b in n.full <==> b in l.full;
      }
    }
    forall b | b in n.full
      ensures n.full[b] == if b in done + {a} && FullDue(s, r, b) then r.now else StampOf(s.full, b)
    {
      if b != a {
        assert b in l.full && n.full[b] == l.full[b];
      }
    }
  }

  lemma TurnStampsFull(l: Ledger, r: Reading, a: nat)
    requires Supervision.Valid(r)
    ensures Turn(l, r, a).full == if a !in l.full || r.now - l.full[a] >= r.interval then l.full[a := r.now] else l.full
  {
    CheckFoldersIs(CheckFull(l, r, a), r, a, Sorted(r.folders.Keys));
    CheckFullIs(l, r, a);
    hide *;
  }

  lemma OverdueNow(s: Stamps, r: Reading, l: Ledger, done: set<nat>, a: nat, f: nat)
    requires Supervision.Valid(r) && a in r.active && a !in done && FullAt(s, r, l, done) && InboxAt(s, r, l, done)
    ensures OverdueFor(CheckFull(l, r, a), r, a, f) <==> InboxAsked(s, r, f) && r.folders[f].account == a
  {
    if f in r.folders && r.folders[f].account == a && r.folders[f].isInbox {
      assert !StampedBy(s, r, done, f);
      assert StampOf(l.inbox, f) == StampOf(s.inbox, f);
      assert a in l.full <==> a in s.full;
      if a !in s.full {
        assert f in InboxesOf(r, a);
        assert StampOf(CheckFull(l, r, a).inbox, f) == r.now;
      }
    }
  }

  /** What a turn does to one folder's stamp. */
  lemma TurnStampsFolder(l: Ledger, r: Reading, a: nat, f: nat)
    requires Supervision.Valid(r)
    ensures
      var n, due := Turn(l, r, a).inbox, OverdueFor(CheckFull(l, r, a), r, a, f);
      var stamped := a !in l.full && f in InboxesOf(r, a);
      && (f in n <==> f in l.inbox || stamped || due)
      && (f in n ==> n[f] == if stamped || due then r.now else l.inbox[f])
  {
    hide CheckFolders;
    hide CheckFull;
    CheckFullIs(l, r, a);
    CheckFoldersIs(CheckFull(l, r, a), r, a, Sorted(r.folders.Keys));
    hide Sorted;
    assert f in r.folders ==> f in Sorted(r.folders.Keys);
  }

  ghost predicate InboxAtFolder(s: Stamps, r: Reading, l: Ledger, done: set<nat>, f: nat) {
    && (f in l.inbox <==> f in s.inbox || StampedBy(s, r, done, f))
    && (f in l.inbox ==> l.inbox[f] == if StampedBy(s, r, done, f) then r.now else s.inbox[f])
  }

  lemma TurnInboxFolder(s: Stamps, r: Reading, l: Ledger, done: set<nat>, a: nat, f: nat)
    requires Supervision.Valid(r) && a in r.active && a !in done && InboxAtFolder(s, r, l, done, f)
    requires a in l.full <==> a in s.full
    requires OverdueFor(CheckFull(l, r, a), r, a, f) <==> InboxAsked(s, r, f) && r.folders[f].account == a
    ensures InboxAtFolder(s, r, Turn(l, r, a), done + {a}, f)
  {
    hide Turn;
    hide CheckFull;
    hide CheckFolders;
    hide Sorted;
    TurnStampsFolder(l, r, a, f);
    hide OverdueFor;
    hide Supervision.Valid;
    hide InboxDue;
    assert StampedBy(s, r, done + {a}, f) <==> StampedBy(s, r, done, f) || (InboxStamped(s, r, f) && r.folders[f].account == a);
    assert InboxStamped(s, r, f) && r.folders[f].account == a
           <==> (a !in s.full && f in InboxesOf(r, a)) || (InboxAsked(s, r, f) && r.folders[f].account == a);
  }

  lemma TurnInbox(s: Stamps, r: Reading, l: Ledger, done: set<nat>, a: nat)
    requires Supervision.Valid(r) && a in r.active && a !in done && FullAt(s, r, l, done) && InboxAt(s, r, l, done)
    ensures InboxAt(s, r, Turn(l, r, a), done + {a})
  {
    hide Turn;
    hide CheckFull;
    hide CheckFolders;
    hide Sorted;
    hide Supervision.Valid;
    hide StampedBy;
    hide InboxAsked;
    assert a in l.full <==> a in s.full;
    var n := Turn(l, r, a);
    forall f
      ensures f in n.inbox <==> f in s.inbox || StampedBy(s, r, done + {a}, f)
      ensures f in n.inbox ==> n.inbox[f] == if StampedBy(s, r, done + {a}, f) then r.now else s.inbox[f]
    {
      assert InboxAtFolder(s, r, l, done, f);
      OverdueNow(s, r, l, done, a, f);
      TurnInboxFolder(s, r, l, done, a, f);
    }
  }

  lemma TurnAsked(s: Stamps, r: Reading, l: Ledger, done: set<nat>, a: nat)
    requires Supervision.Valid(r) && a in r.active && a !in done
    requires FullAt(s, r, l, done) && InboxAt(s, r, l, done) && AskedAt(s, r, l, done)
    ensures AskedAt(s, r, Turn(l, r, a), done + {a})
  {
    hide CheckFolders;
    var m, n := CheckFull(l, r, a), Turn(l, r, a);
    var folders := Sorted(r.folders.Keys);
    CheckFoldersIs(m, r, a, folders);
    forall f ensures OverdueFor(m, r, a, f) <==> InboxAsked(s, r, f) && r.folders[f].account == a {
      OverdueNow(s, r, l, done, a, f);
    }
    hide OverdueFor;
    hide InboxAsked;
    FullTurn(s, r, l, done, a);
    forall k ensures k in n.asked <==> FullAskedBy(s, r, done + {a}, k) || InboxAskedBy(s, r, done + {a}, k) {
      if k in n.asked && k !in m.asked {
        var f :| f in folders && OverdueFor(m, r, a, f) && k == InboxAsk(r, f);
        assert InboxAskedBy(s, r, done + {a}, k);
      }
      if InboxAskedBy(s, r, done + {a}, k) && !InboxAskedBy(s, r, done, k) {
        var f :| InboxAsked(s, r, f) && r.folders[f].account in done + {a} && k == InboxAsk(r, f);
        assert f in folders;
      }
      if InboxAskedBy(s, r, done, k) {
        var f :| InboxAsked(s, r, f) && r.folders[f].account in done && k == InboxAsk(r, f);
        assert InboxAskedBy(s, r, done + {a}, k);
      }
    }
  }

  lemma FullTurn(s: Stamps, r: Reading, l: Ledger, done: set<nat>, a: nat)
    requires a in r.active && a !in done && FullAt(s, r, l, done)
    ensures forall k :: k in CheckFull(l, r, a).asked <==> k in l.asked || (FullDue(s, r, a) && k == FullAsk(s, r, a))
    ensures forall k :: FullAskedBy(s, r, done + {a}, k) <==>
                        FullAskedBy(s, r, done, k) || (FullDue(s, r, a) && k == FullAsk(s, r, a))
  {
  }

  lemma {:induction false} TurnsReach(s: Stamps, r: Reading, l: Ledger, done: set<nat>, accounts: seq<nat>)
    requires Supervision.Valid(r) && Distinct(accounts) && Elements(accounts) <= r.active && Elements(accounts) !! done
    requires FullAt(s, r, l, done) && InboxAt(s, r, l, done) && AskedAt(s, r, l, done)
    ensures
      var n := Turns(l, r, accounts);
      var all := done + Elements(accounts);
      FullAt(s, r, n, all) && InboxAt(s, r, n, all) && AskedAt(s, r, n, all)
    decreases |accounts|
  {
    hide FullAt;
    hide InboxAt;
    hide AskedAt;
    hide CheckFolders;
    hide CheckFull;
    if accounts == [] {
      assert done + Elements(accounts) == done;
    } else {
      var a, rest := accounts[0], accounts[1..];
      assert accounts == [a] + rest;
      assert a in Elements(accounts);
      TurnFull(s, r, l, done, a);
      TurnInbox(s, r, l, done, a);
      TurnAsked(s, r, l, done, a);
      RestIsApart(accounts, done);
      TurnsReach(s, r, Turn(l, r, a), done + {a}, rest);
      assert done + {a} + Elements(rest) == done + Elements(accounts);
    }
  }

  lemma RestIsApart(accounts: seq<nat>, done: set<nat>)
    requires Distinct(accounts) && accounts != [] && Elements(accounts) !! done
    ensures Distinct(accounts[1..]) && Elements(accounts[1..]) <= Elements(accounts)
    ensures Elements(accounts[1..]) !! (done + {accounts[0]})
  {
  }

  lemma NobodyYet(s: Stamps, r: Reading, l: Ledger)
    requires l.full == s.full - (s.full.Keys - r.active) && l.inbox == s.inbox && l.asked == {}
    ensures FullAt(s, r, l, {}) && InboxAt(s, r, l, {}) && AskedAt(s, r, l, {})
  {
  }

  lemma TurnsMakeTick(s: Stamps, r: Reading, l: Ledger)
    requires Supervision.Valid(r)
    requires l.full == s.full - (s.full.Keys - r.active) && l.inbox == s.inbox && l.asked == {}
    ensures
      var n := Turns(l, r, Sorted(r.active));
      && Stamps(n.full, n.inbox - (n.inbox.Keys - Inboxes(r.folders))) == NextStamps(s, r)
      && n.asked == Asks(s, r)
  {
    hide Turns;
    hide FullAt;
    hide InboxAt;
    hide AskedAt;
    hide NextStamps;
    hide Asks;
    var accounts := Sorted(r.active);
    var n := Turns(l, r, accounts);
    assert Elements(accounts) == r.active;
    NobodyYet(s, r, l);
    TurnsReach(s, r, l, {}, accounts);
    assert {} + Elements(accounts) == r.active;
    AllStamps(s, r, n);
    AllAsks(s, r, n);
  }

  lemma AllStamps(s: Stamps, r: Reading, n: Ledger)
    requires Supervision.Valid(r) && FullAt(s, r, n, r.active) && InboxAt(s, r, n, r.active)
    ensures Stamps(n.full, n.inbox - (n.inbox.Keys - Inboxes(r.folders))) == NextStamps(s, r)
  {
    assert n.full == NextStamps(s, r).full;
    assert n.inbox - (n.inbox.Keys - Inboxes(r.folders)) == NextStamps(s, r).inbox;
  }

  lemma AllAsks(s: Stamps, r: Reading, n: Ledger)
    requires Supervision.Valid(r) && AskedAt(s, r, n, r.active)
    ensures n.asked == Asks(s, r)
  {
    forall k ensures k in n.asked <==> k in Asks(s, r) {
    }
  }
}
