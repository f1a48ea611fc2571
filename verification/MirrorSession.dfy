/** The worker's folder pass in its own form: a database session whose working copy is changed row
    by row, committed at the end of each batch, and rolled back by the caller when the pass raises. */
module MirrorSession {
  import opened Prelude
  import opened MailServer
  import opened Mirror
  import opened MirrorTheorems

  /** The same database, the same instant, the same success. */
  ghost predicate SameEnd(a: Outcome, b: Outcome) {
    a.db == b.db && a.time == b.time && a.completed == b.completed
  }

  class FolderSession {
    // The working copy: the folder's columns and its message rows.
    var lastUidValidity: Option<nat>
    var lastSeenUid: nat
    var historyComplete: bool
    var rows: map<nat, Row>
    var nextId: nat
    // What the database holds.
    var committed: FolderState
    // The instant of the next await.
    var clock: nat

    ghost function Working(): FolderState
      reads this
    {
      FolderState(lastUidValidity, lastSeenUid, historyComplete, rows, nextId)
    }

    constructor (db: FolderState, now: nat)
      ensures Working() == committed == db && clock == now
    {
      lastUidValidity, lastSeenUid, historyComplete := db.lastUidValidity, db.lastSeenUid, db.historyComplete;
      rows, nextId := db.rows, db.nextId;
      committed, clock := db, now;
    }

    method Commit()
      modifies this`committed, this`clock
      ensures committed == old(Working()) && Working() == old(Working()) && clock == old(clock) + 1
    {
      committed := FolderState(lastUidValidity, lastSeenUid, historyComplete, rows, nextId);
      clock := clock + 1;
    }

    method Rollback()
      modifies this
      ensures Working() == committed == old(committed) && clock == old(clock)
    {
      lastUidValidity, lastSeenUid := committed.lastUidValidity, committed.lastSeenUid;
      historyComplete, rows, nextId := committed.historyComplete, committed.rows, committed.nextId;
    }

    method AddMessages(headers: seq<Header>, cached: set<nat>, validity: nat)
      modifies this`rows, this`nextId
      ensures Working() == ImportHeaders(old(Working()), headers, cached, validity)
    {
      for i := 0 to |headers|
        invariant ImportHeaders(Working(), headers[i..], cached, validity)
               == ImportHeaders(old(Working()), headers, cached, validity)
      {
        assert headers[i..][1..] == headers[i + 1..];
        var header := headers[i];
        if header.uid !in cached {
          rows := rows[nextId := RowOf(header, validity, historyComplete)];
          nextId := nextId + 1;
        }
      }
    }

    method AddBatch(ghost m: Mailbox, headers: seq<Header>, batch: seq<nat>, validity: nat)
      requires batch != [] && headers == FetchHeaders(m, batch)
      modifies this`rows, this`nextId, this`lastSeenUid
      ensures Working() == ImportBatch(old(Working()), m, batch, validity)
    {
      hide FetchHeaders;
      hide CachedAmong;
      hide ImportHeaders;
      AddMessages(headers, CachedAmong(rows, batch), validity);
      lastSeenUid := batch[|batch| - 1];
    }

    /** Adopt the server's UIDVALIDITY; a change of it voids the cache. */
    method AdoptValidity(validity: nat)
      requires Local(Working())
      modifies this`rows, this`lastSeenUid, this`historyComplete, this`lastUidValidity
      ensures Working() == Reset(old(Working()), validity)
      ensures Local(Working()) && lastUidValidity == Some(validity)
    {
      if lastUidValidity != Some(validity) {
        rows := map[];
        lastSeenUid := 0;
        historyComplete := false;
      }
      lastUidValidity := Some(validity);
    }

    /** The backfill loop; it stops where the fault hits. */
    method Backfill(trace: Trace, fault: Interrupt, newUids: seq<nat>, validity: nat) returns (completed: bool)
      requires committed == Working()
      modifies this
      ensures
        SameEnd(Outcome(committed, clock, completed, []),
                Import(old(Working()), trace, old(clock), fault, newUids, validity))
      ensures completed ==> Working() == committed
    {
      hide ImportBatch;
      hide Import;
      hide FetchHeaders;
      assert newUids[0..] == newUids;
      var offset := 0;
      while offset < |newUids|
        invariant 0 <= offset <= |newUids|
        invariant committed == Working()
        invariant SameEnd(Import(committed, trace, clock, fault, newUids[offset..], validity),
                          Import(old(Working()), trace, old(clock), fault, newUids, validity))
        decreases |newUids| - offset
      {
        var rest := newUids[offset..];
        var n := Min(BATCH, |rest|);
        var batch := rest[..n];
        ImportUnfolds(committed, trace, clock, fault, rest, validity);
        if fault.Hits(clock) {
          return false;
        }
        var headers := FetchHeaders(trace(clock), batch);
        AddBatch(trace(clock), headers, batch, validity);
        clock := clock + 1;
        if fault.Hits(clock) {
          return false;
        }
        Commit();
        assert rest[n..] == newUids[offset + n..];
        offset := offset + n;
      }
      ImportUnfolds(committed, trace, clock, fault, newUids[offset..], validity);
      return true;
    }

    /** The page's rows, one by one: delete what FETCH omitted, copy the flags of the others. */
    method ApplyFlags(page: seq<nat>, flags: map<nat, Flags>)
      requires Unique(rows) && Distinct(page) && forall u :: u in page ==> u in UidsOf(rows)
      modifies this`rows
      ensures rows == Reconcile(old(rows), page, flags)
    {
      for i := 0 to |page|
        invariant rows == Reconcile(old(rows), page[..i], flags)
      {
        ReconcileNext(old(rows), page, flags, i);
        var id :| id in rows && rows[id].uid == page[i];
        if page[i] !in flags {
          rows := rows - {id};
        } else {
          rows := rows[id := rows[id].(flags := flags[page[i]])];
        }
      }
      assert page[..|page|] == page;
    }

    /** The keyset walk; it stops where the fault hits. */
    method WalkRows(trace: Trace, fault: Interrupt, remote: set<nat>) returns (completed: bool)
      requires committed == Working() && Local(Working())
      modifies this
      ensures
        SameEnd(Outcome(committed, clock, completed, []), Walk(old(Working()), trace, old(clock), fault, remote, 0))
      ensures completed ==> Working() == committed
    {
      hide Page;
      hide Local;
      hide Reconcile;
      hide Walk;
      hide UidsAfter;
      hide WalkPage;
      var afterUid := 0;
      while true
        invariant committed == Working() && Local(Working())
        invariant SameEnd(Walk(committed, trace, clock, fault, remote, afterUid),
                          Walk(old(Working()), trace, old(clock), fault, remote, 0))
        decreases UidsAfter(rows, afterUid)
      {
        var page := Page(rows, afterUid);
        WalkStep(committed, trace, clock, fault, remote, afterUid);
        if page == [] {
          return true;
        }
        if fault.Hits(clock) {
          return false;
        }
        ghost var before := Working();
        var flags := FetchFlags(trace(clock), PresentIn(page, remote));
        clock := clock + 1;
        LocalPage(before, page, afterUid);
        ApplyFlags(page, flags);
        WalkPageIs(before, trace(clock - 1), remote, page);
        WalkPageAdvances(before, trace(clock - 1), remote, afterUid);
        assert Working() == WalkPage(before, trace(clock - 1), remote, page);
        if fault.Hits(clock) {
          return false;
        }
        Commit();
        afterUid := page[|page| - 1];
      }
    }

    /** `_sync_folder`: everything committed, and whether the pass ran to its end, as `Pass` says. */
    method SyncFolder(trace: Trace, fault: Interrupt) returns (completed: bool)
      requires committed == Working() && Local(Working())
      modifies this
      ensures
        SameEnd(Outcome(committed, clock, completed, []), Pass(old(Working()), trace, old(clock), fault))
      ensures completed ==> Working() == committed
    {
      hide Import;
      hide Walk;
      hide Local;
      hide NewUids;
      hide Reset;
      hide ListUids;
      hide Pass;
      ghost var before := Working();
      ghost var start := clock;
      PassSteps(before, trace, start, fault);
      if fault.Hits(clock) {
        return false;
      }
      var validity := trace(clock).validity;
      clock := clock + 1;
      AdoptValidity(validity);
      if fault.Hits(clock) {
        return false;
      }
      Commit();
      if fault.Hits(clock) {
        return false;
      }
      var remoteUids := ListUids(trace(clock));
      clock := clock + 1;
      var newUids := NewUids(remoteUids, lastSeenUid);
      NewUidsArePositive(trace(start + 2), lastSeenUid);
      ghost var reset := Working();
      assert clock == start + 3;
      completed := Backfill(trace, fault, newUids, validity);
      if !completed {
        return false;
      }
      ImportLocal(reset, trace, start + 3, fault, newUids, validity);
      completed := WalkRows(trace, fault, Elements(remoteUids));
      if !completed || fault.Hits(clock) {
        return false;
      }
      historyComplete := true;
      Commit();
      return true;
    }

    /** The caller's isolation: whatever a failed pass left in the working copy is discarded. */
    method SyncFolderOrRollback(trace: Trace, fault: Interrupt) returns (completed: bool)
      requires committed == Working() && Local(Working())
      modifies this
      ensures
        var p := Pass(old(Working()), trace, old(clock), fault);
        Working() == committed == p.db && clock == p.time && completed == p.completed
    {
      hide Pass;
      completed := SyncFolder(trace, fault);
      if !completed {
        Rollback();
      }
    }
  }

  lemma ImportUnfolds(db: FolderState, trace: Trace, t: nat, fault: Interrupt, uids: seq<nat>, validity: nat)
    ensures
      var r := Import(db, trace, t, fault, uids, validity);
      if uids == [] then SameEnd(r, Outcome(db, t, true, []))
      else if fault.Hits(t) then SameEnd(r, Outcome(db, t, false, []))
      else if fault.Hits(t + 1) then SameEnd(r, Outcome(db, t + 1, false, []))
      else
        var n := Min(BATCH, |uids|);
        SameEnd(r, Import(ImportBatch(db, trace(t), uids[..n], validity), trace, t + 2, fault, uids[n..], validity))
  {
    hide ImportBatch;
  }

  lemma WalkStep(db: FolderState, trace: Trace, t: nat, fault: Interrupt, remote: set<nat>, cursor: nat)
    ensures
      var r := Walk(db, trace, t, fault, remote, cursor);
      var page := Page(db.rows, cursor);
      if page == [] then SameEnd(r, Outcome(db, t, true, []))
      else if fault.Hits(t) then SameEnd(r, Outcome(db, t, false, []))
      else if fault.Hits(t + 1) then SameEnd(r, Outcome(db, t + 1, false, []))
      else SameEnd(r, Walk(WalkPage(db, trace(t), remote, page), trace, t + 2, fault, remote, page[|page| - 1]))
  {
    hide Page;
    hide WalkPage;
    hide UidsAfter;
  }

  lemma WalkPageAdvances(db: FolderState, m: Mailbox, remote: set<nat>, cursor: nat)
    requires Local(db) && Page(db.rows, cursor) != []
    ensures
      var page := Page(db.rows, cursor);
      var next := WalkPage(db, m, remote, page);
      Local(next) && UidsAfter(next.rows, page[|page| - 1]) < UidsAfter(db.rows, cursor)
  {
    hide Page;
    hide WalkPage;
    hide UidsAfter;
    var page := Page(db.rows, cursor);
    WalkAdvances(db, m, remote, cursor);
    WalkPageSteps(db, m, remote, cursor);
    TrimmedIsLocal(db, WalkPage(db, m, remote, page), cursor);
  }

  lemma WalkPageIs(db: FolderState, m: Mailbox, remote: set<nat>, page: seq<nat>)
    ensures WalkPage(db, m, remote, page) == db.(rows := Reconcile(db.rows, page, FetchFlags(m, PresentIn(page, remote))))
  {
  }

  lemma LocalPage(db: FolderState, page: seq<nat>, cursor: nat)
    requires Local(db) && page == Page(db.rows, cursor)
    ensures Unique(db.rows) && Distinct(page) && forall u :: u in page ==> u in UidsOf(db.rows)
  {
    hide Page;
    forall u | u in page ensures u in UidsOf(db.rows) {
      assert u in UidsAfter(db.rows, cursor);
    }
  }

  lemma ReconcileNext(rows: map<nat, Row>, page: seq<nat>, flags: map<nat, Flags>, i: nat)
    requires Unique(rows) && Distinct(page) && i < |page| && page[i] in UidsOf(rows)
    ensures
      var now, next := Reconcile(rows, page[..i], flags), Reconcile(rows, page[..i + 1], flags);
      && (exists id :: id in now && now[id].uid == page[i])
      && forall id :: id in now && now[id].uid == page[i] ==>
           next == if page[i] in flags then now[id := now[id].(flags := flags[page[i]])] else now - {id}
  {
    hide Unique;
    var now, next := Reconcile(rows, page[..i], flags), Reconcile(rows, page[..i + 1], flags);
    assert page[..i + 1] == page[..i] + [page[i]];
    assert page[i] !in page[..i];
    var here :| here in rows && rows[here].uid == page[i];
    assert here in now && now[here].uid == page[i];
    forall id | id in now && now[id].uid == page[i]
      ensures next == if page[i] in flags then now[id := now[id].(flags := flags[page[i]])] else now - {id}
    {
      OnlyRow(rows, id, here);
      var expected := if page[i] in flags then now[id := now[id].(flags := flags[page[i]])] else now - {id};
      forall k | k in rows && k != here ensures rows[k].uid != page[i] {
        if rows[k].uid == page[i] {
          OnlyRow(rows, k, here);
        }
      }
      assert next.Keys == expected.Keys;
    }
  }

  lemma OnlyRow(rows: map<nat, Row>, i: nat, j: nat)
    requires Unique(rows) && i in rows && j in rows && rows[i].uid == rows[j].uid
    ensures i == j
  {
  }

  lemma NewUidsArePositive(m: Mailbox, seen: nat)
    ensures forall u :: u in NewUids(ListUids(m), seen) ==> 0 < u
  {
    NewUidsAreAhead(ListUids(m), seen);
  }

  /** `Pass`, stage by stage. */
  lemma PassSteps(db: FolderState, trace: Trace, t: nat, fault: Interrupt)
    ensures
      var p := Pass(db, trace, t, fault);
      var reset := Reset(db, trace(t).validity);
      var remote := ListUids(trace(t + 2));
      var b := Import(reset, trace, t + 3, fault, NewUids(remote, reset.lastSeenUid), trace(t).validity);
      var w := Walk(b.db, trace, b.time, fault, Elements(remote), 0);
      && (fault.Hits(t) ==> SameEnd(p, Outcome(db, t, false, [])))
      && (fault.Hits(t + 1) ==> SameEnd(p, Outcome(db, t + 1, false, [])))
      && (fault.Hits(t + 2) ==> SameEnd(p, Outcome(reset, t + 2, false, [])))
      && (!fault.Hits(t) && !fault.Hits(t + 1) && !fault.Hits(t + 2) ==>
            && (!b.completed ==> SameEnd(p, b))
            && (b.completed && (!w.completed || fault.Hits(w.time)) ==>
                  SameEnd(p, Outcome(w.db, w.time, false, [])))
            && (b.completed && w.completed && !fault.Hits(w.time) ==>
                  SameEnd(p, Outcome(w.db.(historyComplete := true), w.time + 1, true, []))))
  {
    hide Import;
    hide Walk;
    hide NewUids;
    hide Reset;
    hide ListUids;
  }

  lemma {:induction false} ImportLocal(
    db: FolderState, trace: Trace, t: nat, fault: Interrupt, uids: seq<nat>, validity: nat)
    requires Local(db) && db.lastUidValidity == Some(validity)
    requires forall u :: u in uids ==> 0 < u
    ensures Local(Import(db, trace, t, fault, uids, validity).db)
    decreases |uids|
  {
    hide ImportBatch;
    hide Local;
    if uids != [] && !fault.Hits(t) && !fault.Hits(t + 1) {
      var n := Min(BATCH, |uids|);
      assert forall i :: 0 <= i < n ==> uids[i] in uids;
      assert forall u :: u in uids[n..] ==> u in uids;
      ImportBatchAdds(db, trace(t), uids[..n], validity);
      ImportLocal(ImportBatch(db, trace(t), uids[..n], validity), trace, t + 2, fault, uids[n..], validity);
    }
  }
}
