/** What the folder pass guarantees over any run: every committed state is sound, completed passes
    reflect the mailbox, a quiet mailbox is mirrored exactly, and history never notifies. */
module MirrorTheorems {
  import opened Prelude
  import opened MailServer
  import opened Mirror

  // ---------------------------------------------------------------- the invariant

  ghost predicate Unique(rows: map<nat, Row>) {
    forall i, j :: i in rows && j in rows && rows[i].uid == rows[j].uid ==> i == j
  }

  /** Cached UIDs are unique and all carry the folder's UIDVALIDITY. */
  ghost predicate Local(db: FolderState) {
    && Unique(db.rows)
    && (forall id :: id in db.rows ==>
          id < db.nextId && 0 < db.rows[id].uid && db.lastUidValidity == Some(db.rows[id].validity))
  }

  ghost predicate Describes(row: Row, e: Envelope) {
    && row.subject == e.subject
    && row.dateSent == if e.headerDate.Some? then e.headerDate else e.internalDate
  }

  /** Everything the server still holds at or below the watermark is cached, truly described;
      nothing cached is a UID the server has yet to hand out. */
  ghost predicate InSync(db: FolderState, m: Mailbox) {
    && db.lastSeenUid < m.uidNext
    && (forall id :: id in db.rows ==> db.rows[id].uid < m.uidNext)
    && (forall u :: u in m.messages && u <= db.lastSeenUid ==> u in UidsOf(db.rows))
    && (forall id :: id in db.rows && db.rows[id].uid in m.messages ==>
          Describes(db.rows[id], m.messages[db.rows[id].uid].envelope))
  }

  ghost predicate Sound(db: FolderState, m: Mailbox) {
    && WellFormed(m)
    && Local(db)
    && (db.lastUidValidity.Some? ==> db.lastUidValidity.value <= m.validity)
    && (db.lastUidValidity == Some(m.validity) ==> InSync(db, m))
  }

  lemma SoundSurvivesServerChange(db: FolderState, earlier: Mailbox, later: Mailbox)
    requires Sound(db, earlier) && Evolves(earlier, later)
    ensures Sound(db, later)
  {
  }

  // ---------------------------------------------------------------- backfill

  /** The rows after a batch: the old ones untouched, the new ones exactly `arrived`'s messages. */
  ghost predicate Imported(before: FolderState, after: FolderState, m: Mailbox, validity: nat, arrived: set<nat>) {
    && (forall id :: id in before.rows ==> id in after.rows && after.rows[id] == before.rows[id])
    && UidsOf(after.rows) == UidsOf(before.rows) + arrived
    && (forall id :: id in after.rows && id !in before.rows ==>
          && after.rows[id].uid in arrived
          && after.rows[id].uid in m.messages
          && after.rows[id] == RowOf(HeaderOf(m, after.rows[id].uid), validity, before.historyComplete))
    && after.lastUidValidity == before.lastUidValidity
    && after.historyComplete == before.historyComplete
  }

  ghost function FreshAmong(headers: seq<Header>, cached: set<nat>): set<nat> {
    set i | 0 <= i < |headers| && headers[i].uid !in cached :: headers[i].uid
  }

  lemma {:induction false} ImportHeadersAddsFresh(
    db: FolderState, headers: seq<Header>, cached: set<nat>, validity: nat, m: Mailbox)
    requires Local(db) && db.lastUidValidity == Some(validity)
    requires forall i :: 0 <= i < |headers| ==>
               0 < headers[i].uid && headers[i].uid in m.messages && headers[i] == HeaderOf(m, headers[i].uid)
    requires forall i, j :: 0 <= i < j < |headers| ==> headers[i].uid < headers[j].uid
    requires FreshAmong(headers, cached) !! UidsOf(db.rows)
    ensures
      var r := ImportHeaders(db, headers, cached, validity);
      Local(r) && Imported(db, r, m, validity, FreshAmong(headers, cached)) && r.lastSeenUid == db.lastSeenUid
    decreases |headers|
  {
    hide FreshAmong;
    hide Local;
    if headers == [] {
      FreshAmongTail(headers, cached);
    } else {
      var h, tail := headers[0], headers[1..];
      FreshAmongTail(headers, cached);
      if h.uid in cached {
        ImportHeadersAddsFresh(db, tail, cached, validity, m);
      } else {
        ImportOneAdds(db, h, validity);
        ImportHeadersAddsFresh(ImportOne(db, h, validity), tail, cached, validity, m);
      }
    }
  }

  lemma FreshAmongTail(headers: seq<Header>, cached: set<nat>)
    requires forall i, j :: 0 <= i < j < |headers| ==> headers[i].uid < headers[j].uid
    ensures headers == [] ==> FreshAmong(headers, cached) == {}
    ensures headers != [] ==>
      var tail := FreshAmong(headers[1..], cached);
      && headers[0].uid !in tail
      && FreshAmong(headers, cached) == if headers[0].uid in cached then tail else tail + {headers[0].uid}
  {
    if headers != [] {
      var tail := headers[1..];
      forall u | u in FreshAmong(headers, cached)
        ensures u in FreshAmong(tail, cached) || (u == headers[0].uid && u !in cached)
      {
        var i :| 0 <= i < |headers| && headers[i].uid !in cached && headers[i].uid == u;
        assert 0 < i ==> tail[i - 1].uid == u;
      }
      forall u | u in FreshAmong(tail, cached) ensures u in FreshAmong(headers, cached) {
        var i :| 0 <= i < |tail| && tail[i].uid !in cached && tail[i].uid == u;
        assert headers[i + 1].uid == u;
      }
    }
  }

  lemma ImportOneAdds(db: FolderState, h: Header, validity: nat)
    requires Local(db) && db.lastUidValidity == Some(validity) && 0 < h.uid && h.uid !in UidsOf(db.rows)
    ensures Local(ImportOne(db, h, validity)) && db.nextId !in db.rows
    ensures UidsOf(ImportOne(db, h, validity).rows) == UidsOf(db.rows) + {h.uid}
  {
    var next := ImportOne(db, h, validity);
    assert db.nextId !in db.rows;
    assert next.rows[db.nextId].uid == h.uid;
    forall u | u in UidsOf(db.rows) ensures u in UidsOf(next.rows) {
      var id :| id in db.rows && db.rows[id].uid == u;
      assert next.rows[id].uid == u;
    }
    forall i, j | i in next.rows && j in next.rows && next.rows[i].uid == next.rows[j].uid
      ensures i == j
    {
      assert i in db.rows ==> db.rows[i].uid in UidsOf(db.rows);
      assert j in db.rows ==> db.rows[j].uid in UidsOf(db.rows);
    }
  }

  lemma FetchedAndUncached(db: FolderState, m: Mailbox, batch: seq<nat>)
    ensures
      FreshAmong(FetchHeaders(m, batch), CachedAmong(db.rows, batch))
      == (set u | u in batch && u in m.messages && u !in UidsOf(db.rows))
  {
    hide Present;
    var headers := FetchHeaders(m, batch);
    var cached := CachedAmong(db.rows, batch);
    var present := Present(m, batch);
    var arrived := set u | u in batch && u in m.messages && u !in UidsOf(db.rows);
    forall u | u in arrived ensures u in FreshAmong(headers, cached) {
      assert u in present;
      var i :| 0 <= i < |present| && present[i] == u;
      assert headers[i].uid == u;
    }
    forall u | u in FreshAmong(headers, cached) ensures u in arrived {
      var i :| 0 <= i < |headers| && headers[i].uid !in cached && headers[i].uid == u;
      assert present[i] == u;
    }
  }

  lemma ImportBatchAdds(db: FolderState, m: Mailbox, batch: seq<nat>, validity: nat)
    requires Local(db) && db.lastUidValidity == Some(validity) && batch != []
    requires forall i :: 0 <= i < |batch| ==> 0 < batch[i]
    ensures
      var r := ImportBatch(db, m, batch, validity);
      var arrived := set u | u in batch && u in m.messages && u !in UidsOf(db.rows);
      Local(r) && Imported(db, r, m, validity, arrived) && r.lastSeenUid == batch[|batch| - 1]
  {
    hide FreshAmong;
    hide CachedAmong;
    hide Present;
    hide ImportHeaders;
    var present := Present(m, batch);
    assert forall i :: 0 <= i < |present| ==> present[i] in batch;
    var headers := FetchHeaders(m, batch);
    var cached := CachedAmong(db.rows, batch);
    FetchedAndUncached(db, m, batch);
    ImportHeadersAddsFresh(db, headers, cached, validity, m);
  }

  /** `uids` are, in order, the snapshot's UIDs above the watermark. */
  ghost predicate Ahead(uids: seq<nat>, seen: nat, snapshot: Mailbox) {
    && Ascending(uids)
    && (forall u :: u in uids <==> u in snapshot.messages && seen < u)
  }

  lemma {:induction false} NewUidsAreAhead(remote: seq<nat>, seen: nat)
    requires Ascending(remote)
    ensures Ascending(NewUids(remote, seen))
    ensures forall u :: u in NewUids(remote, seen) <==> u in remote && seen < u
  {
    if remote != [] {
      var tail := remote[1..];
      assert remote == [remote[0]] + tail;
      NewUidsAreAhead(tail, seen);
      var r := NewUids(tail, seen);
      assert forall i :: 0 <= i < |r| ==> r[i] in tail;
    }
  }

  lemma ImportBatchSound(db: FolderState, m: Mailbox, snapshot: Mailbox, uids: seq<nat>, n: nat)
    requires Sound(db, m) && Evolves(snapshot, m)
    requires db.lastUidValidity == Some(m.validity) && snapshot.validity == m.validity
    requires db.lastSeenUid < snapshot.uidNext
    requires Ahead(uids, db.lastSeenUid, snapshot) && 0 < n <= |uids|
    ensures
      var r := ImportBatch(db, m, uids[..n], m.validity);
      && Sound(r, m) && r.lastUidValidity == db.lastUidValidity
      && Ahead(uids[n..], r.lastSeenUid, snapshot)
      && db.lastSeenUid < r.lastSeenUid < snapshot.uidNext
      && (forall u :: u in uids ==> u in uids[n..] || u <= r.lastSeenUid)
  {
    hide ImportBatch;
    hide Imported;
    var r := ImportBatch(db, m, uids[..n], m.validity);
    assert forall i :: 0 <= i < n ==> uids[i] in uids;
    ImportBatchAdds(db, m, uids[..n], m.validity);
    PrefixIsBound(uids, n);
    assert uids[..n][n - 1] == uids[n - 1] && uids[n - 1] in uids;
    ImportedIsSound(db, r, m, snapshot, uids[..n]);
  }

  lemma ImportedIsSound(db: FolderState, r: FolderState, m: Mailbox, snapshot: Mailbox, batch: seq<nat>)
    requires Sound(db, m) && Evolves(snapshot, m)
    requires db.lastUidValidity == Some(m.validity) && snapshot.validity == m.validity
    requires db.lastSeenUid < r.lastSeenUid < snapshot.uidNext
    requires forall u :: u in snapshot.messages && db.lastSeenUid < u <= r.lastSeenUid ==> u in batch
    requires Local(r)
    requires Imported(db, r, m, m.validity, set u | u in batch && u in m.messages && u !in UidsOf(db.rows))
    ensures Sound(r, m) && r.lastUidValidity == db.lastUidValidity
  {
    forall u | u in m.messages && u <= r.lastSeenUid ensures u in UidsOf(r.rows) {
      assert db.lastSeenUid < u ==> u in snapshot.messages;
    }
    forall id | id in r.rows
      ensures r.rows[id].uid < m.uidNext
      ensures r.rows[id].uid in m.messages ==> Describes(r.rows[id], m.messages[r.rows[id].uid].envelope)
    {
    }
  }

  lemma {:induction false} ImportSound(
    db: FolderState, trace: Trace, s: nat, t: nat, fault: Interrupt, uids: seq<nat>, validity: nat)
    requires LegalTrace(trace) && s <= t
    requires Stable(trace, s, Import(db, trace, t, fault, uids, validity).time)
    requires t <= Import(db, trace, t, fault, uids, validity).time
    requires validity == trace(s).validity && db.lastUidValidity == Some(validity)
    requires Sound(db, trace(t)) && db.lastSeenUid < trace(s).uidNext
    requires Ahead(uids, db.lastSeenUid, trace(s))
    ensures
      var r := Import(db, trace, t, fault, uids, validity);
      && Sound(r.db, trace(r.time))
      && r.db.lastUidValidity == Some(validity)
      && db.lastSeenUid <= r.db.lastSeenUid < trace(s).uidNext
      && (r.completed ==> forall u :: u in uids ==> u <= r.db.lastSeenUid)
    decreases |uids|
  {
    hide ImportBatch;
    hide Sound;
    var r := Import(db, trace, t, fault, uids, validity);
    assert trace(t).validity == validity;
    if uids == [] || fault.Hits(t) || fault.Hits(t + 1) {
      assert Evolves(trace(t), trace(r.time));
      SoundSurvivesServerChange(db, trace(t), trace(r.time));
    } else {
      var n := Min(BATCH, |uids|);
      var next := ImportBatch(db, trace(t), uids[..n], validity);
      assert Evolves(trace(s), trace(t)) && Evolves(trace(t), trace(t + 2));
      ImportBatchSound(db, trace(t), trace(s), uids, n);
      SoundSurvivesServerChange(next, trace(t), trace(t + 2));
      ImportTime(next, trace, t + 2, fault, uids[n..], validity);
      ImportSound(next, trace, s, t + 2, fault, uids[n..], validity);
      forall u | u in uids && r.completed ensures u <= r.db.lastSeenUid {
        assert uids == uids[..n] + uids[n..];
        assert u in uids[n..] || u <= next.lastSeenUid;
      }
    }
  }

  lemma {:induction false} ImportTime(
    db: FolderState, trace: Trace, t: nat, fault: Interrupt, uids: seq<nat>, validity: nat)
    ensures t <= Import(db, trace, t, fault, uids, validity).time
    ensures fault == Never ==> Import(db, trace, t, fault, uids, validity).completed
    decreases |uids|
  {
    hide ImportBatch;
    if uids != [] && !fault.Hits(t) && !fault.Hits(t + 1) {
      var n := Min(BATCH, |uids|);
      ImportTime(ImportBatch(db, trace(t), uids[..n], validity), trace, t + 2, fault, uids[n..], validity);
    }
  }

  // ---------------------------------------------------------------- reconcile walk

  ghost predicate SameMessage(a: Row, b: Row) {
    a == b.(flags := a.flags)
  }

  /** The walk only deletes rows and refreshes flags, above its cursor; local ids never change. */
  ghost predicate Trimmed(before: FolderState, after: FolderState, cursor: nat) {
    && (forall id :: id in after.rows ==> id in before.rows && SameMessage(after.rows[id], before.rows[id]))
    && (forall id :: id in before.rows && before.rows[id].uid <= cursor ==>
          id in after.rows && after.rows[id] == before.rows[id])
    && after == before.(rows := after.rows)
  }

  lemma PageIsNext(rows: map<nat, Row>, cursor: nat)
    requires Page(rows, cursor) != []
    ensures
      var page := Page(rows, cursor);
      var last := page[|page| - 1];
      && (forall id :: id in rows && cursor < rows[id].uid <= last ==> rows[id].uid in page)
      && (forall u :: u in page ==> cursor < u <= last)
  {
    hide Page;
    var page := Page(rows, cursor);
    PrefixIsBound(page, |page|);
    assert page[..|page|] == page;
    assert page[|page| - 1] in page;
    assert forall id :: id in rows && cursor < rows[id].uid ==> rows[id].uid in UidsAfter(rows, cursor);
  }

  /** One transaction of the walk, row by row. */
  ghost predicate PageStep(before: FolderState, after: FolderState, m: Mailbox, remote: set<nat>, cursor: nat, last: nat) {
    && cursor < last
    && Trimmed(before, after, cursor)
    && (forall id :: id in before.rows && last < before.rows[id].uid ==>
          id in after.rows && after.rows[id] == before.rows[id])
    && (forall id :: id in before.rows && cursor < before.rows[id].uid <= last ==>
          (id in after.rows <==> before.rows[id].uid in remote && before.rows[id].uid in m.messages))
    && (forall id :: id in after.rows && cursor < after.rows[id].uid <= last ==>
          after.rows[id].flags == m.messages[after.rows[id].uid].flags)
  }

  lemma ReconcileRowByRow(rows: map<nat, Row>, page: seq<nat>, flags: map<nat, Flags>)
    ensures
      var r := Reconcile(rows, page, flags);
      && (forall id :: id in rows ==> (id in r <==> (rows[id].uid in page ==> rows[id].uid in flags)))
      && (forall id :: id in r ==> id in rows)
      && (forall id :: id in r && rows[id].uid !in page ==> r[id] == rows[id])
      && (forall id :: id in r && rows[id].uid in page ==> r[id] == rows[id].(flags := flags[rows[id].uid]))
  {
  }

  lemma WalkPageSteps(db: FolderState, m: Mailbox, remote: set<nat>, cursor: nat)
    requires Page(db.rows, cursor) != []
    ensures
      var page := Page(db.rows, cursor);
      PageStep(db, WalkPage(db, m, remote, page), m, remote, cursor, page[|page| - 1])
  {
    hide Page;
    hide PresentIn;
    hide UidsAfter;
    hide Reconcile;
    hide Min;
    var page := Page(db.rows, cursor);
    var last := page[|page| - 1];
    PresentInIs(page, remote);
    PageIsNext(db.rows, cursor);
    assert cursor < last by {
      assert last in page;
    }
    assert forall id :: id in db.rows ==> (db.rows[id].uid in page <==> cursor < db.rows[id].uid <= last);
    ReconcileRowByRow(db.rows, page, FetchFlags(m, PresentIn(page, remote)));
  }

  /** The walk stops, or takes one transaction and goes on from the page's last UID. */
  lemma WalkUnfolds(db: FolderState, trace: Trace, t: nat, fault: Interrupt, remote: set<nat>, cursor: nat)
    returns (next: FolderState, last: nat, more: bool)
    ensures
      var r := Walk(db, trace, t, fault, remote, cursor);
      var page := Page(db.rows, cursor);
      if more then
        && page != [] && last == page[|page| - 1]
        && PageStep(db, next, trace(t), remote, cursor, last)
        && UidsAfter(next.rows, last) < UidsAfter(db.rows, cursor)
        && var rest := Walk(next, trace, t + 2, fault, remote, last);
           r == rest.(uids := page + rest.uids)
      else
        && r.db == db && t <= r.time && r.uids == []
        && (r.completed ==> page == [])
        && (fault == Never ==> r.completed)
  {
    hide Page;
    hide WalkPage;
    var page := Page(db.rows, cursor);
    more := page != [] && !fault.Hits(t) && !fault.Hits(t + 1);
    next, last := db, cursor;
    if more {
      next, last := WalkPage(db, trace(t), remote, page), page[|page| - 1];
      WalkPageSteps(db, trace(t), remote, cursor);
      WalkAdvances(db, trace(t), remote, cursor);
    }
  }

  lemma TrimmedTransitive(a: FolderState, b: FolderState, c: FolderState, cursor: nat, last: nat)
    requires cursor <= last
    ensures Trimmed(a, a, cursor)
    ensures Trimmed(a, b, cursor) && Trimmed(b, c, last) ==> Trimmed(a, c, cursor)
  {
  }

  lemma {:induction false} WalkTrims(
    db: FolderState, trace: Trace, t: nat, fault: Interrupt, remote: set<nat>, cursor: nat)
    ensures
      var r := Walk(db, trace, t, fault, remote, cursor);
      t <= r.time && Trimmed(db, r.db, cursor) && (fault == Never ==> r.completed)
    decreases UidsAfter(db.rows, cursor)
  {
    hide Walk;
    hide Page;
    hide UidsAfter;
    hide Trimmed;
    TrimmedTransitive(db, db, db, cursor, cursor);
    var next, last, more := WalkUnfolds(db, trace, t, fault, remote, cursor);
    if more {
      WalkTrims(next, trace, t + 2, fault, remote, last);
      TrimmedTransitive(db, next, Walk(next, trace, t + 2, fault, remote, last).db, cursor, last);
    }
  }

  lemma TrimmedKeepsColumns(before: FolderState, after: FolderState, cursor: nat)
    ensures Trimmed(before, after, cursor) ==> after == before.(rows := after.rows)
  {
  }

  lemma TrimmedIsLocal(before: FolderState, after: FolderState, cursor: nat)
    requires Local(before) && Trimmed(before, after, cursor)
    ensures Local(after)
  {
  }

  /** Every row that outlives a completed walk was seen on the server during it, with these flags. */
  lemma {:induction false} WalkReflects(
    db: FolderState, trace: Trace, t: nat, fault: Interrupt, remote: set<nat>, cursor: nat, id: nat)
    requires Walk(db, trace, t, fault, remote, cursor).completed
    requires id in Walk(db, trace, t, fault, remote, cursor).db.rows
    requires id in db.rows && cursor < db.rows[id].uid
    ensures
      var r := Walk(db, trace, t, fault, remote, cursor);
      && r.db.rows[id].uid in remote
      && exists i: nat :: t <= i <= r.time && SeenAt(trace, i, r.db.rows[id])
    decreases UidsAfter(db.rows, cursor)
  {
    hide Walk;
    assert db.rows[id].uid in UidsAfter(db.rows, cursor);
    var next, last, more := WalkUnfolds(db, trace, t, fault, remote, cursor);
    WalkTrims(next, trace, t + 2, fault, remote, last);
    if db.rows[id].uid <= last {
      assert SeenAt(trace, t, Walk(db, trace, t, fault, remote, cursor).db.rows[id]);
    } else {
      WalkReflects(next, trace, t + 2, fault, remote, last, id);
    }
  }

  ghost predicate SeenAt(trace: Trace, i: nat, row: Row) {
    row.uid in trace(i).messages && trace(i).messages[row.uid].flags == row.flags
  }

  /** One transaction of the walk keeps a row whose message is listed and there. */
  lemma PageKeeps(before: FolderState, after: FolderState, m: Mailbox, remote: set<nat>, cursor: nat, last: nat, id: nat)
    requires PageStep(before, after, m, remote, cursor, last)
    requires id in before.rows && before.rows[id].uid in remote && before.rows[id].uid in m.messages
    ensures id in after.rows && after.rows[id].uid == before.rows[id].uid
  {
  }

  /** A row whose message is listed and stays on the server throughout is never deleted. */
  lemma {:induction false} WalkKeeps(
    db: FolderState, trace: Trace, t: nat, fault: Interrupt, remote: set<nat>, cursor: nat, id: nat)
    requires id in db.rows && db.rows[id].uid in remote
    requires forall i: nat :: t <= i <= Walk(db, trace, t, fault, remote, cursor).time ==> db.rows[id].uid in trace(i).messages
    ensures id in Walk(db, trace, t, fault, remote, cursor).db.rows
    decreases UidsAfter(db.rows, cursor)
  {
    hide Walk;
    hide Page;
    WalkTrims(db, trace, t, fault, remote, cursor);
    hide Trimmed;
    var next, last, more := WalkUnfolds(db, trace, t, fault, remote, cursor);
    hide UidsAfter;
    if more {
      WalkTrims(next, trace, t + 2, fault, remote, last);
      PageKeeps(db, next, trace(t), remote, cursor, last, id);
      hide PageStep;
      WalkKeeps(next, trace, t + 2, fault, remote, last, id);
    }
  }

  lemma SplitByCursor(db: FolderState, next: FolderState, cursor: nat, last: nat, page: seq<nat>)
    requires Trimmed(db, next, cursor)
    requires forall id :: id in db.rows && last < db.rows[id].uid ==> id in next.rows
    requires cursor < last && page == Page(db.rows, cursor)
    requires forall id :: id in db.rows && cursor < db.rows[id].uid <= last ==> db.rows[id].uid in page
    ensures UidsAfter(db.rows, cursor) == Elements(page) + UidsAfter(next.rows, last)
  {
    hide Page;
    forall u | u in UidsAfter(db.rows, cursor) ensures u in Elements(page) + UidsAfter(next.rows, last) {
      var id :| id in db.rows && cursor < db.rows[id].uid && db.rows[id].uid == u;
      assert last < u ==> next.rows[id].uid == u;
    }
    forall u | u in UidsAfter(next.rows, last) ensures u in UidsAfter(db.rows, cursor) {
      var id :| id in next.rows && last < next.rows[id].uid && next.rows[id].uid == u;
      assert db.rows[id].uid == u;
    }
  }

  /** The UIDs a completed walk visits: every cached one above the cursor, each exactly once, in order. */
  lemma {:induction false} WalkVisitsEachOnce(
    db: FolderState, trace: Trace, t: nat, fault: Interrupt, remote: set<nat>, cursor: nat)
    requires Walk(db, trace, t, fault, remote, cursor).completed
    ensures
      var r := Walk(db, trace, t, fault, remote, cursor);
      Ascending(r.uids) && Elements(r.uids) == UidsAfter(db.rows, cursor)
    decreases UidsAfter(db.rows, cursor)
  {
    hide Walk;
    hide Page;
    var r := Walk(db, trace, t, fault, remote, cursor);
    var page := Page(db.rows, cursor);
    var next, last, more := WalkUnfolds(db, trace, t, fault, remote, cursor);
    if more {
      PageIsNext(db.rows, cursor);
      WalkVisitsEachOnce(next, trace, t + 2, fault, remote, last);
      var rest := Walk(next, trace, t + 2, fault, remote, last);
      SplitByCursor(db, next, cursor, last, page);
      assert forall i :: 0 <= i < |page| ==> page[i] in page;
      assert forall i :: 0 <= i < |rest.uids| ==> rest.uids[i] in Elements(rest.uids);
      assert Elements(r.uids) == Elements(page) + Elements(rest.uids);
    }
  }

  /** Reconciling the whole table in one step. */
  ghost function OneShot(rows: map<nat, Row>, remote: set<nat>, m: Mailbox): map<nat, Row> {
    map id | id in rows && rows[id].uid in remote && rows[id].uid in m.messages ::
      rows[id].(flags := m.messages[rows[id].uid].flags)
  }

  /** On a mailbox that holds still, the batched walk that deletes while it iterates is the one-shot. */
  lemma WalkRefinesOneShot(db: FolderState, trace: Trace, t: nat, remote: set<nat>)
    requires Quiescent(trace, t)
    requires forall id :: id in db.rows ==> 0 < db.rows[id].uid
    ensures
      var r := Walk(db, trace, t, Never, remote, 0);
      r.completed && r.db == db.(rows := OneShot(db.rows, remote, trace(t)))
  {
    hide Walk;
    hide UidsAfter;
    var r := Walk(db, trace, t, Never, remote, 0);
    WalkTrims(db, trace, t, Never, remote, 0);
    forall id | id in db.rows
      ensures id in r.db.rows <==> db.rows[id].uid in remote && db.rows[id].uid in trace(t).messages
      ensures id in r.db.rows ==> SeenAt(trace, t, r.db.rows[id])
    {
      if id in r.db.rows {
        WalkReflects(db, trace, t, Never, remote, 0, id);
      } else if db.rows[id].uid in remote && db.rows[id].uid in trace(t).messages {
        WalkKeeps(db, trace, t, Never, remote, 0, id);
      }
    }
    assert r.db.rows == OneShot(db.rows, remote, trace(t));
  }

  lemma {:induction false} WalkSound(
    db: FolderState, trace: Trace, s: nat, t: nat, fault: Interrupt, cursor: nat)
    requires LegalTrace(trace) && s <= t
    requires Stable(trace, s, Walk(db, trace, t, fault, trace(s).messages.Keys, cursor).time)
    requires db.lastUidValidity == Some(trace(s).validity)
    requires Sound(db, trace(t)) && db.lastSeenUid < trace(s).uidNext
    ensures
      var r := Walk(db, trace, t, fault, trace(s).messages.Keys, cursor);
      Sound(r.db, trace(r.time))
    decreases UidsAfter(db.rows, cursor)
  {
    hide Walk;
    hide Sound;
    hide Page;
    hide UidsAfter;
    hide Trimmed;
    TrimmedKeepsColumns(db, db, cursor);
    var remote := trace(s).messages.Keys;
    var r := Walk(db, trace, t, fault, remote, cursor);
    WalkTrims(db, trace, t, fault, remote, cursor);
    var next, last, more := WalkUnfolds(db, trace, t, fault, remote, cursor);
    assert Evolves(trace(s), trace(t)) && Evolves(trace(t), trace(r.time));
    if more {
      WalkTrims(next, trace, t + 2, fault, remote, last);
      assert trace(t).validity == trace(s).validity;
      PageStepSound(db, next, trace(t), trace(s), cursor, last);
      TrimmedKeepsColumns(db, next, cursor);
      assert Evolves(trace(t), trace(t + 2));
      SoundSurvivesServerChange(next, trace(t), trace(t + 2));
      WalkSound(next, trace, s, t + 2, fault, last);
    } else {
      SoundSurvivesServerChange(db, trace(t), trace(r.time));
    }
  }

  lemma PageStepSound(db: FolderState, next: FolderState, m: Mailbox, snapshot: Mailbox, cursor: nat, last: nat)
    requires Sound(db, m) && Evolves(snapshot, m)
    requires db.lastUidValidity == Some(m.validity) && snapshot.validity == m.validity
    requires db.lastSeenUid < snapshot.uidNext
    requires PageStep(db, next, m, snapshot.messages.Keys, cursor, last)
    ensures Sound(next, m)
  {
    TrimmedIsLocal(db, next, cursor);
    hide Unique;
    forall u | u in m.messages && u <= next.lastSeenUid ensures u in UidsOf(next.rows) {
      var id :| id in db.rows && db.rows[id].uid == u;
      assert u in snapshot.messages;
      assert id in next.rows && next.rows[id].uid == u;
    }
  }
}
