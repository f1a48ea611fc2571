/** One pass over an account: discovery of its folders, selection by the request's scope, and each
    selected folder's pass isolated from the failures of the others. */
module AccountSync {
  import opened Prelude
  import opened MailServer
  import opened Mirror
  import opened MirrorTheorems
  import opened MirrorRuns
  import opened MirrorSession
  import Coalescer
  import CoalescerTheorems

  datatype Folder = Folder(path: string, isInbox: bool, state: FolderState)

  type Folders = map<nat, Folder>

  /** What the database promises: no two folders of an account share a path. */
  ghost predicate PathsUnique(folders: Folders) {
    forall i, j :: i in folders && j in folders && folders[i].path == folders[j].path ==> i == j
  }

  ghost predicate AllLocal(folders: Folders) {
    forall id :: id in folders ==> Local(folders[id].state)
  }

  predicate NamedInbox(path: string) {
    |path| == 5 && forall i :: 0 <= i < 5 ==> Fold(path[i]) == "inbox"[i]
  }

  /** The folders a pass is asked to sync: those in scope, and those its own discovery created. */
  predicate Selects(scope: Coalescer.Scope, existing: set<nat>, id: nat) {
    scope.All? || id in scope.folders || id !in existing
  }

  /** A request that covers another selects every folder the other selects. */
  lemma SelectionIsMonotone(wide: Coalescer.Request, narrow: Coalescer.Request, existing: set<nat>, id: nat)
    requires Coalescer.Covers(wide, narrow) && Selects(narrow.scope, existing, id)
    ensures Selects(wide.scope, existing, id)
  {
  }

  /** So merging requests neither loses a folder nor selects one that neither asked for. */
  lemma MergeSelectsBoth(a: Coalescer.Request, b: Coalescer.Request, existing: set<nat>, id: nat)
    ensures Selects(Coalescer.Merge(a, b).scope, existing, id)
            <==> Selects(a.scope, existing, id) || Selects(b.scope, existing, id)
  {
  }

  /** The folders after a successful LIST: exactly the listed paths; known folders keep their id and
      everything cached, new ones start empty and join the inbox only if named so. */
  ghost predicate Discovered(before: Folders, after: Folders, paths: seq<string>) {
    && PathsUnique(after)
    && (forall id :: id in after ==> after[id].path in paths)
    && (forall p :: p in paths ==> exists id :: id in after && after[id].path == p)
    && (forall id :: id in before ==> (id in after <==> before[id].path in paths))
    && (forall id :: id in before && id in after ==> after[id] == before[id])
    && (forall id :: id in after && id !in before ==>
          after[id] == Folder(after[id].path, NamedInbox(after[id].path), EMPTY))
  }

  /** `last_sync_status`: left alone, or "ok" or "error". */
  datatype Status = Untouched | Recorded(ok: bool)

  /** How an await of the account's own code ends: the pass goes on, leaves with an error, or is cancelled. */
  datatype Turn = GoesOn | Aborts | IsCancelled

  /** What `LIST` returns, or how it ends otherwise. */
  datatype Listing = Paths(paths: seq<string>) | NoPaths(cancelled: bool)

  function StatusOf(end: Turn, failed: set<nat>): Status {
    match end case GoesOn => Recorded(failed == {}) case Aborts => Recorded(false) case IsCancelled => Untouched
  }

  class Account {
    var folders: Folders
    var nextFolder: nat
    var clock: nat

    ghost predicate Valid()
      reads this
    {
      PathsUnique(folders) && AllLocal(folders) && forall id :: id in folders ==> id < nextFolder
    }

    constructor ()
      ensures Valid() && folders == map[]
    {
      folders, nextFolder, clock := map[], 0, 0;
    }

    /** `_discover_folders`, once LIST has returned `paths` (selectable, sorted, without repeats). */
    method Discover(paths: seq<string>) returns (ids: seq<nat>)
      requires Valid() && Distinct(paths)
      modifies this`folders, this`nextFolder
      ensures Valid() && Discovered(old(folders), folders, paths)
      ensures Lists(folders, ids, paths)
    {
      hide AllLocal;
      hide Distinct;
      hide PathsUnique;
      var existing := folders;
      ids := [];
      for k := 0 to |paths|
        invariant Valid() && Extended(existing, folders, paths[..k]) && existing == old(folders)
        invariant Lists(folders, ids, paths[..k])
      {
        var path := paths[k];
        assert paths[..k + 1] == paths[..k] + [path];
        NotYetListed(paths, k);
        if id :| id in existing && existing[id].path == path {
          ids := ids + [id];
        } else {
          AddFolder(path);
          ids := ids + [nextFolder - 1];
        }
      }
      assert paths[..|paths|] == paths;
      PruneIsDiscovery(existing, folders, ids, paths);
      PrunedIsValid(folders, paths);
      folders := Pruned(folders, paths);
    }

    /** The loop over the discovered folders. Looking a selected folder up may fail or be cancelled (`lookups`). A
        failing folder is recorded and the next one follows, unless the account's own code fails next or a
        cancellation comes (`turns`). The first `n` were dealt with; `starts` is when each pass began. */
    method SyncSelected(
      ids: seq<nat>, scope: Coalescer.Scope, existing: set<nat>,
      traces: nat -> Trace, faults: nat -> Interrupt, lookups: nat -> Turn, turns: nat -> Turn)
      returns (synced: set<nat>, failed: set<nat>, end: Turn, ghost n: nat, ghost starts: map<nat, nat>)
      requires Valid() && Distinct(ids)
      modifies this`folders, this`clock
      ensures Valid() && Isolated(old(folders), folders, traces, faults, starts, synced, failed)
      ensures InTurn(ids, old(folders), traces, faults, starts, old(clock), clock)
      ensures n <= |ids| && synced + failed == Chosen(ids[..n], scope, existing, old(folders.Keys))
      ensures match end
              case GoesOn => n == |ids| && WentOn(ids, n, scope, existing, lookups, turns, failed)
              case _ =>
                || (0 < n && ids[n - 1] in failed && end == turns(ids[n - 1])
                    && WentOn(ids, n - 1, scope, existing, lookups, turns, failed))
                || (n < |ids| && Selects(scope, existing, ids[n]) && end == lookups(ids[n])
                    && WentOn(ids, n, scope, existing, lookups, turns, failed))
    {
      hide AllLocal;
      hide PathsUnique;
      hide RanPass;
      hide Isolated;
      hide Chosen;
      hide Distinct;
      hide InTurn;
      hide WentOn;
      hide Pass;
      hide EndOf;
      hide Selects;
      synced, failed, end, n, starts := {}, {}, GoesOn, 0, map[];
      assert WentOn(ids, 0, scope, existing, lookups, turns, failed) by { NothingToGoOn(ids, scope, existing, lookups, turns); }
      NothingRan(folders, ids, scope, existing, traces, faults, clock);
      for k := 0 to |ids|
        invariant Valid() && Isolated(old(folders), folders, traces, faults, starts, synced, failed)
        invariant InTurn(ids[..k], old(folders), traces, faults, starts, old(clock), clock)
        invariant folders.Keys == old(folders.Keys) && old(clock) <= clock && n == k && end.GoesOn?
        invariant synced + failed == Chosen(ids[..k], scope, existing, old(folders.Keys))
        invariant WentOn(ids, k, scope, existing, lookups, turns, failed)
      {
        var id := ids[k];
        NextChosen(ids, k, scope, existing, old(folders.Keys));
        InTurnSkips(ids, k, old(folders), traces, faults, starts, old(clock), clock);
        if Selects(scope, existing, id) && lookups(id) != GoesOn {
          end := lookups(id);
          InTurnWhole(ids, k, old(folders), traces, faults, starts, old(clock), clock);
          return;
        }
        assert id !in synced + failed;
        assert Selects(scope, existing, id) ==> lookups(id).GoesOn?;
        ghost var before := folders;
        n := k + 1;
        if Selects(scope, existing, id) && id in folders {
          Undisturbed(old(folders), folders, traces, faults, starts, synced, failed, id);
          ghost var start := clock;
          var completed := SyncOne(id, traces(id), faults(id));
          OneMoreRan(old(folders), before, folders, traces, faults, starts, synced, failed, id, completed, start);
          InTurnGrows(ids, k, old(folders), traces, faults, starts, old(clock), start, clock);
          starts := starts[id := start];
          GoesOnWith(ids, k, scope, existing, lookups, turns, failed, completed);
          if completed {
            synced := synced + {id};
          } else {
            failed := failed + {id};
            if turns(id) != GoesOn {
              end := turns(id);
              InTurnWhole(ids, k + 1, old(folders), traces, faults, starts, old(clock), clock);
              return;
            }
          }
        } else {
          GoesOnPast(ids, k, scope, existing, lookups, turns, failed);
        }
      }
      assert ids[..|ids|] == ids;
    }

    /** One folder's pass in its own transaction scope, from the instant it is looked up. */
    method SyncOne(id: nat, trace: Trace, fault: Interrupt) returns (completed: bool)
      requires Valid() && id in folders
      modifies this`folders, this`clock
      ensures Valid() && id in folders && folders == old(folders)[id := folders[id]]
      ensures RanPass(old(folders[id]), folders[id], trace, fault, completed, old(clock))
      ensures clock == Pass(old(folders[id]).state, trace, old(clock), fault).time && old(clock) <= clock
    {
      hide Pass;
      hide Local;
      var folder := folders[id];
      var session := new FolderSession(folder.state, clock);
      completed := session.SyncFolderOrRollback(trace, fault);
      PassLocal(folder.state, trace, clock, fault);
      PassTakesNoTimeBack(folder.state, trace, clock, fault);
      folders := folders[id := folder.(state := session.committed)];
      clock := session.clock;
    }

    /** `sync_account`: `active` is whether the account is there and active, `opening` how the connection attempt ends,
        `listing` what LIST, its deletions and their commit come to, `records` whether the cleanup gets to write the
        status. A cancelled pass writes none. */
    method SyncAccount(
      active: bool, opening: Turn, listing: Listing, request: Coalescer.Request,
      traces: nat -> Trace, faults: nat -> Interrupt, lookups: nat -> Turn, turns: nat -> Turn, records: bool)
      returns (status: Status, ids: seq<nat>, synced: set<nat>, failed: set<nat>, end: Turn, ghost n: nat, ghost starts: map<nat, nat>)
      requires Valid() && (listing.Paths? ==> Distinct(listing.paths))
      modifies this
      ensures Valid()
      ensures status == if active && records then StatusOf(end, failed) else Untouched
      ensures !active || !opening.GoesOn? || (request.discover && listing.NoPaths?) ==>
                folders == old(folders) && synced == failed == {}
      ensures active && !opening.GoesOn? ==> end == opening
      ensures active && opening.GoesOn? && request.discover && listing.NoPaths? ==>
                end == if listing.cancelled then IsCancelled else Aborts
      ensures active && opening.GoesOn? && (request.discover ==> listing.Paths?) ==>
        PassedOver(PassRun(old(folders), folders, listing, ids, traces, faults, starts, synced, failed, end, n, old(clock), clock), request)
    {
      hide PassedOver;
      hide AllLocal;
      hide PathsUnique;
      ids, synced, failed, end, n, starts := [], {}, {}, GoesOn, 0, map[];
      status := Untouched;
      if !active {
        return;
      }
      if opening != GoesOn {
        end := opening;
      } else if request.discover && listing.NoPaths? {
        end := if listing.cancelled then IsCancelled else Aborts;
      } else {
        ids, synced, failed, end, n, starts := SyncListed(listing, request, traces, faults, lookups, turns);
      }
      if records {
        status := StatusOf(end, failed);
      }
    }

    /** With the connection open: discovery, if asked for, and the loop. */
    method SyncListed(
      listing: Listing, request: Coalescer.Request,
      traces: nat -> Trace, faults: nat -> Interrupt, lookups: nat -> Turn, turns: nat -> Turn)
      returns (ids: seq<nat>, synced: set<nat>, failed: set<nat>, end: Turn, ghost n: nat, ghost starts: map<nat, nat>)
      requires Valid() && (listing.Paths? ==> Distinct(listing.paths)) && (request.discover ==> listing.Paths?)
      modifies this
      ensures Valid()
      ensures PassedOver(PassRun(old(folders), folders, listing, ids, traces, faults, starts, synced, failed, end, n, old(clock), clock), request)
    {
      hide AllLocal;
      hide PathsUnique;
      hide Isolated;
      hide Discovered;
      hide Chosen;
      hide InTurn;
      hide WentOn;
      hide Lists;
      var existing := folders.Keys;
      if request.discover {
        ids := Discover(listing.paths);
        ListedIdsDistinct(folders, ids, listing.paths);
      } else {
        ids := Sorted(folders.Keys);
        SortedIsDistinct(folders.Keys);
      }
      hide Sorted;
      hide Distinct;
      ghost var discovered := folders;
      assert Follows(old(folders), discovered, listing, request, ids);
      synced, failed, end, n, starts := SyncSelected(ids, request.scope, existing, traces, faults, lookups, turns);
      ghost var run := PassRun(old(folders), folders, listing, ids, traces, faults, starts, synced, failed, end, n, old(clock), clock);
      assert PassedOverThese(run, discovered, request);
    }

    method AddFolder(path: string)
      requires Valid() && forall id :: id in folders ==> folders[id].path != path
      modifies this`folders, this`nextFolder
      ensures Valid() && nextFolder == old(nextFolder) + 1 && old(nextFolder) !in old(folders)
      ensures folders == old(folders)[old(nextFolder) := Folder(path, NamedInbox(path), EMPTY)]
    {
      folders := folders[nextFolder := Folder(path, NamedInbox(path), EMPTY)];
      nextFolder := nextFolder + 1;
    }
  }

  /** The folders the loop starts from: those LIST left, or, without discovery, those there were. */
  ghost predicate Follows(before: Folders, discovered: Folders, listing: Listing, request: Coalescer.Request, ids: seq<nat>) {
    if request.discover then listing.Paths? && Discovered(before, discovered, listing.paths) && Lists(discovered, ids, listing.paths)
    else discovered == before && Elements(ids) == discovered.Keys
  }

  /** One pass over an account that got as far as its folders: those it found and left, those it looked through, what
      the world did, when each folder's pass began and what became of it, and how and where in `ids` the loop ended. */
  datatype PassRun = PassRun(
    before: Folders, after: Folders, listing: Listing, ids: seq<nat>,
    traces: nat -> Trace, faults: nat -> Interrupt, starts: map<nat, nat>, synced: set<nat>, failed: set<nat>,
    end: Turn, n: nat, first: nat, last: nat)

  ghost predicate PassedOverThese(run: PassRun, discovered: Folders, request: Coalescer.Request) {
    && Follows(run.before, discovered, run.listing, request, run.ids)
    && Isolated(discovered, run.after, run.traces, run.faults, run.starts, run.synced, run.failed)
    && InTurn(run.ids, discovered, run.traces, run.faults, run.starts, run.first, run.last)
    && run.n <= |run.ids|
    && run.synced + run.failed == Chosen(run.ids[..run.n], request.scope, run.before.Keys, discovered.Keys)
    && (run.end.GoesOn? ==> run.n == |run.ids|)
  }

  /** Discovery, then isolated passes in turn over those the request selects, all of them unless the loop ended early. */
  ghost predicate PassedOver(run: PassRun, request: Coalescer.Request) {
    exists discovered: Folders :: PassedOverThese(run, discovered, request)
  }

  /** The pass worked on every folder the request selects, of those it left in the database: on all of them, or on those
      up to where its loop ended early. */
  ghost predicate WorkedOn(run: PassRun, request: Coalescer.Request) {
    && run.n <= |run.ids|
    && Chosen(run.ids[..run.n], request.scope, run.before.Keys, run.after.Keys) <= run.synced + run.failed
    && (run.end.GoesOn? ==> run.n == |run.ids|)
  }

  lemma SortedIsDistinct(s: set<nat>)
    ensures Distinct(Sorted(s)) && Elements(Sorted(s)) == s
  {
  }

  /** The folder's row changed by the pass over it that began at `t`, and by nothing else. */
  ghost predicate RanPass(before: Folder, after: Folder, trace: Trace, fault: Interrupt, completed: bool, t: nat) {
    var p := Pass(before.state, trace, t, fault);
    after == before.(state := p.db) && completed == p.completed
  }

  lemma PassTakesNoTimeBack(db: FolderState, trace: Trace, t: nat, fault: Interrupt)
    ensures t <= Pass(db, trace, t, fault).time
  {
    hide Pass;
    hide Backfilled;
    hide Walked;
    PassUnfolds(db, trace, t, fault);
  }

  /** The folders a pass works on: listed, selected, and still in the database. */
  ghost function Chosen(ids: seq<nat>, scope: Coalescer.Scope, existing: set<nat>, known: set<nat>): set<nat> {
    set id | id in ids && Selects(scope, existing, id) && id in known
  }

  /** Isolation: each chosen folder is as its own pass left it, succeeded or not, and no other folder changed. */
  ghost predicate Isolated(
    before: Folders, after: Folders, traces: nat -> Trace, faults: nat -> Interrupt, starts: map<nat, nat>,
    synced: set<nat>, failed: set<nat>)
  {
    && after.Keys == before.Keys
    && synced !! failed && starts.Keys == synced + failed
    && (forall id :: id in before && id !in synced && id !in failed ==> after[id] == before[id])
    && starts.Keys <= before.Keys
    && forall id :: id in starts ==> RanPass(before[id], after[id], traces(id), faults(id), id in synced, starts[id])
  }

  /** When the pass over a folder that ran was through with it. */
  ghost function EndOf(id: nat, before: Folders, traces: nat -> Trace, faults: nat -> Interrupt, starts: map<nat, nat>): nat
    requires id in starts && id in before
  {
    Pass(before[id].state, traces(id), starts[id], faults(id)).time
  }

  /** The passes ran one after the other, in the order of `ids`, between `first` and `last`. */
  ghost predicate InTurn(
    ids: seq<nat>, before: Folders, traces: nat -> Trace, faults: nat -> Interrupt, starts: map<nat, nat>, first: nat, last: nat)
  {
    && (forall id :: id in starts ==>
          id in ids && id in before && first <= starts[id] && EndOf(id, before, traces, faults, starts) <= last)
    && forall i, j :: 0 <= i < j < |ids| && ids[i] in starts && ids[j] in starts ==>
         ids[i] in before && EndOf(ids[i], before, traces, faults, starts) <= starts[ids[j]]
  }

  /** The loop had no reason to end in its first `k` turns. */
  ghost predicate WentOn(
    ids: seq<nat>, k: nat, scope: Coalescer.Scope, existing: set<nat>, lookups: nat -> Turn, turns: nat -> Turn, failed: set<nat>)
    requires k <= |ids|
  {
    && (forall i :: 0 <= i < k && Selects(scope, existing, ids[i]) ==> lookups(ids[i]).GoesOn?)
    && forall i :: 0 <= i < k && ids[i] in failed ==> turns(ids[i]).GoesOn?
  }

  lemma NothingToGoOn(ids: seq<nat>, scope: Coalescer.Scope, existing: set<nat>, lookups: nat -> Turn, turns: nat -> Turn)
    ensures WentOn(ids, 0, scope, existing, lookups, turns, {})
  {
  }

  lemma GoesOnPast(
    ids: seq<nat>, k: nat, scope: Coalescer.Scope, existing: set<nat>, lookups: nat -> Turn, turns: nat -> Turn,
    failed: set<nat>)
    requires k < |ids| && WentOn(ids, k, scope, existing, lookups, turns, failed) && ids[k] !in failed
    requires Selects(scope, existing, ids[k]) ==> lookups(ids[k]).GoesOn?
    ensures WentOn(ids, k + 1, scope, existing, lookups, turns, failed)
  {
  }

  lemma GoesOnWith(
    ids: seq<nat>, k: nat, scope: Coalescer.Scope, existing: set<nat>, lookups: nat -> Turn, turns: nat -> Turn,
    failed: set<nat>, completed: bool)
    requires k < |ids| && Distinct(ids) && WentOn(ids, k, scope, existing, lookups, turns, failed) && ids[k] !in failed
    requires lookups(ids[k]).GoesOn?
    ensures completed ==> WentOn(ids, k + 1, scope, existing, lookups, turns, failed)
    ensures !completed ==> WentOn(ids, k, scope, existing, lookups, turns, failed + {ids[k]})
    ensures !completed && turns(ids[k]).GoesOn? ==> WentOn(ids, k + 1, scope, existing, lookups, turns, failed + {ids[k]})
  {
  }

  lemma NothingRan(
    folders: Folders, ids: seq<nat>, scope: Coalescer.Scope, existing: set<nat>, traces: nat -> Trace,
    faults: nat -> Interrupt, clock: nat)
    ensures Isolated(folders, folders, traces, faults, map[], {}, {})
    ensures InTurn(ids[..0], folders, traces, faults, map[], clock, clock)
    ensures Chosen(ids[..0], scope, existing, folders.Keys) == {}
  {
  }

  lemma InTurnSkips(
    ids: seq<nat>, k: nat, before: Folders, traces: nat -> Trace, faults: nat -> Interrupt, starts: map<nat, nat>,
    first: nat, last: nat)
    requires k < |ids| && Distinct(ids) && InTurn(ids[..k], before, traces, faults, starts, first, last)
    ensures ids[k] !in starts && InTurn(ids[..k + 1], before, traces, faults, starts, first, last)
  {
    assert ids[..k + 1] == ids[..k] + [ids[k]];
    assert ids[k] !in ids[..k];
    hide EndOf;
  }

  lemma InTurnWhole(
    ids: seq<nat>, k: nat, before: Folders, traces: nat -> Trace, faults: nat -> Interrupt, starts: map<nat, nat>,
    first: nat, last: nat)
    requires k <= |ids| && Distinct(ids) && InTurn(ids[..k], before, traces, faults, starts, first, last)
    ensures InTurn(ids, before, traces, faults, starts, first, last)
    decreases |ids| - k
  {
    if k < |ids| {
      InTurnSkips(ids, k, before, traces, faults, starts, first, last);
      InTurnWhole(ids, k + 1, before, traces, faults, starts, first, last);
    } else {
      assert ids[..k] == ids;
    }
  }

  lemma InTurnGrows(
    ids: seq<nat>, k: nat, before: Folders, traces: nat -> Trace, faults: nat -> Interrupt, starts: map<nat, nat>,
    first: nat, start: nat, last: nat)
    requires k < |ids| && Distinct(ids) && InTurn(ids[..k], before, traces, faults, starts, first, start)
    requires first <= start <= last && ids[k] in before
    requires last == Pass(before[ids[k]].state, traces(ids[k]), start, faults(ids[k])).time
    ensures InTurn(ids[..k + 1], before, traces, faults, starts[ids[k] := start], first, last)
  {
    hide Pass;
    assert ids[..k + 1] == ids[..k] + [ids[k]];
    assert ids[k] !in ids[..k];
    var more := starts[ids[k] := start];
    forall id | id in starts ensures EndOf(id, before, traces, faults, more) == EndOf(id, before, traces, faults, starts) {
      assert id != ids[k];
    }
    assert EndOf(ids[k], before, traces, faults, more) == last;
    hide EndOf;
  }

  lemma NextChosen(ids: seq<nat>, k: nat, scope: Coalescer.Scope, existing: set<nat>, known: set<nat>)
    requires Distinct(ids) && k < |ids|
    ensures ids[k] !in Chosen(ids[..k], scope, existing, known)
    ensures Chosen(ids[..k + 1], scope, existing, known) ==
            Chosen(ids[..k], scope, existing, known) + (if Selects(scope, existing, ids[k]) && ids[k] in known then {ids[k]} else {})
  {
    assert ids[..k + 1] == ids[..k] + [ids[k]];
  }

  lemma Undisturbed(
    before: Folders, mid: Folders, traces: nat -> Trace, faults: nat -> Interrupt, starts: map<nat, nat>,
    synced: set<nat>, failed: set<nat>, id: nat)
    requires Isolated(before, mid, traces, faults, starts, synced, failed)
    requires id in mid && id !in synced && id !in failed
    ensures id in before && mid[id] == before[id]
  {
  }

  lemma OneMoreRan(
    before: Folders, mid: Folders, after: Folders, traces: nat -> Trace, faults: nat -> Interrupt, starts: map<nat, nat>,
    synced: set<nat>, failed: set<nat>, id: nat, completed: bool, start: nat)
    requires Isolated(before, mid, traces, faults, starts, synced, failed)
    requires id in mid && id in after && id !in synced && id !in failed && after == mid[id := after[id]]
    requires RanPass(mid[id], after[id], traces(id), faults(id), completed, start)
    ensures Isolated(before, after, traces, faults, starts[id := start],
                     if completed then synced + {id} else synced, if completed then failed else failed + {id})
  {
    hide RanPass;
    var more, done := starts[id := start], if completed then synced + {id} else synced;
    var lost := if completed then failed else failed + {id};
    assert id !in starts && mid[id] == before[id];
    assert done !! lost && more.Keys == done + lost;
    forall x | x in before && x !in done && x !in lost ensures after[x] == before[x] {
      assert x != id && x !in synced && x !in failed && after[x] == mid[x];
    }
    forall x | x in more ensures RanPass(before[x], after[x], traces(x), faults(x), x in done, more[x]) {
      if x != id {
        assert x in starts && after[x] == mid[x];
      }
    }
  }

  /** A pass for one request works on every folder that a request it covers selects. */
  lemma CoveringPassWorksOn(run: PassRun, wide: Coalescer.Request, narrow: Coalescer.Request)
    requires PassedOver(run, wide) && Coalescer.Covers(wide, narrow)
    ensures WorkedOn(run, narrow)
  {
    hide Follows;
    hide InTurn;
    hide Selects;
    hide Coalescer.Covers;
    var discovered :| PassedOverThese(run, discovered, wide);
    assert run.after.Keys == discovered.Keys;
    hide Isolated;
    forall id | id in Chosen(run.ids[..run.n], narrow.scope, run.before.Keys, run.after.Keys)
      ensures id in run.synced + run.failed
    {
      SelectionIsMonotone(wide, narrow, run.before.Keys, id);
    }
  }

  /** Coalescing loses no folder. If an account is not cancelled after a request, then once no task of it is left, a pass
      that began after the request has served it; and if that pass got as far as its folders, it worked on every one the
      request selects, up to where its loop ended. */
  lemma RequestedFoldersAreWorkedOn(
    before: seq<Coalescer.Step>, from: Coalescer.World, account: nat, request: Coalescer.Request,
    after: seq<Coalescer.Step>, to: Coalescer.World, maxSlots: nat)
    requires Coalescer.Reaches(Coalescer.BOOT, maxSlots, before, from)
    requires Coalescer.Reaches(Coalescer.Apply(from, maxSlots, Coalescer.Request_(account, request)), maxSlots, after, to)
    requires CoalescerTheorems.NoCancel(after, account)
    requires forall t :: t in to.s.tasks && to.s.tasks[t].account == account ==> to.s.tasks[t].at.Finished?
    ensures |from.tickets| < |to.tickets|
    ensures
      var fate := to.tickets[|from.tickets|].fate;
      && fate.Served? && from.now < fate.began
      && forall run :: PassedOver(run, fate.through) ==> WorkedOn(run, request)
  {
    CoalescerTheorems.CoalescingLosesNothing(before, from, account, request, after, to, maxSlots);
    var through := to.tickets[|from.tickets|].fate.through;
    hide *;
    forall run | PassedOver(run, through) ensures WorkedOn(run, request) {
      CoveringPassWorksOn(run, through, request);
    }
  }

  /** `ids` are the folders of `paths`, in order. */
  ghost predicate Lists(folders: Folders, ids: seq<nat>, paths: seq<string>) {
    |ids| == |paths| && forall i :: 0 <= i < |ids| ==> ids[i] in folders && folders[ids[i]].path == paths[i]
  }

  /** Every folder that was there, and new empty ones for some of `done`. */
  ghost predicate Extended(before: Folders, now: Folders, done: seq<string>) {
    && (forall id :: id in before ==> id in now && now[id] == before[id])
    && (forall id :: id in now && id !in before ==>
          now[id].path in done && now[id] == Folder(now[id].path, NamedInbox(now[id].path), EMPTY))
  }

  function Pruned(folders: Folders, paths: seq<string>): Folders {
    map id | id in folders && folders[id].path in paths :: folders[id]
  }

  lemma ListedIdsDistinct(folders: Folders, ids: seq<nat>, paths: seq<string>)
    requires Distinct(paths) && Lists(folders, ids, paths)
    ensures Distinct(ids)
  {
  }

  lemma PassLocal(db: FolderState, trace: Trace, t: nat, fault: Interrupt)
    requires Local(db)
    ensures Local(Pass(db, trace, t, fault).db)
  {
    hide Import;
    hide Walk;
    hide NewUids;
    hide ListUids;
    var validity := trace(t).validity;
    var db1 := Reset(db, validity);
    assert Local(db1) && db1.lastUidValidity == Some(validity);
    hide Local;
    hide Reset;
    PassUnfolds(db, trace, t, fault);
    NewUidsArePositive(trace(t + 2), db1.lastSeenUid);
    var b := Backfilled(db, trace, t, fault);
    ImportLocal(db1, trace, t + 3, fault, NewUids(ListUids(trace(t + 2)), db1.lastSeenUid), validity);
    WalkTrims(b.db, trace, b.time, fault, trace(t + 2).messages.Keys, 0);
    TrimmedIsLocal(b.db, Walked(db, trace, t, fault).db, 0);
    assert forall x: FolderState :: Local(x) ==> Local(x.(historyComplete := true)) by {
      HistoryFlagIsNotLocal();
    }
  }

  lemma HistoryFlagIsNotLocal()
    ensures forall x: FolderState :: Local(x) ==> Local(x.(historyComplete := true))
  {
  }

  lemma NotYetListed(paths: seq<string>, k: nat)
    requires Distinct(paths) && k < |paths|
    ensures paths[k] !in paths[..k]
  {
  }

  lemma PruneIsDiscovery(before: Folders, now: Folders, ids: seq<nat>, paths: seq<string>)
    requires PathsUnique(now) && Extended(before, now, paths) && Lists(now, ids, paths)
    ensures Discovered(before, Pruned(now, paths), paths) && Lists(Pruned(now, paths), ids, paths)
  {
    var after := Pruned(now, paths);
    assert forall i :: 0 <= i < |ids| ==> paths[i] in paths;
    forall p | p in paths ensures exists id :: id in after && after[id].path == p {
      var i :| 0 <= i < |paths| && paths[i] == p;
      assert ids[i] in after;
    }
  }

  lemma PrunedIsValid(folders: Folders, paths: seq<string>)
    ensures PathsUnique(folders) ==> PathsUnique(Pruned(folders, paths))
    ensures AllLocal(folders) ==> AllLocal(Pruned(folders, paths))
  {
  }
}
