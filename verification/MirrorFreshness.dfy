/** How fresh a cache is: what a completed pass vouches for, and what every later pass, however it ends,
    leaves of it. */
module MirrorFreshness {
  import opened Prelude
  import opened MailServer
  import opened Mirror
  import opened MirrorTheorems
  import opened MirrorRuns

  ghost predicate SeenWithin(trace: Trace, from: nat, until: nat, row: Row) {
    exists i: nat :: from <= i <= until && SeenAt(trace, i, row)
  }

  /** At `now` the cache holds nothing older than `since`: every row was on the server, with these flags, at some
      instant since then, and while UIDVALIDITY holds, every message that was there all the while is cached. */
  ghost predicate Fresh(db: FolderState, trace: Trace, since: nat, now: nat) {
    && (forall id :: id in db.rows ==> SeenWithin(trace, since, now, db.rows[id]))
    && (trace(now).validity == trace(since).validity ==>
          && db.lastUidValidity == Some(trace(since).validity) && db.historyComplete
          && forall u :: u in trace(since).messages && u in trace(now).messages ==> u in UidsOf(db.rows))
  }

  // ---------------------------------------------------------------- what a pass touches

  /** A row a stage leaves is as before, or was on the server during the stage with these flags. */
  ghost predicate Touches(before: FolderState, after: FolderState, trace: Trace, from: nat, until: nat) {
    forall id :: id in after.rows ==>
      (id in before.rows && after.rows[id] == before.rows[id]) || SeenWithin(trace, from, until, after.rows[id])
  }

  lemma SeenLonger(trace: Trace, from: nat, until: nat, first: nat, last: nat, row: Row)
    requires SeenWithin(trace, from, until, row) && first <= from && until <= last
    ensures SeenWithin(trace, first, last, row)
  {
    var i: nat :| from <= i <= until && SeenAt(trace, i, row);
    assert first <= i <= last;
  }

  lemma TouchesTransitive(a: FolderState, b: FolderState, c: FolderState, trace: Trace, from: nat, mid: nat, until: nat, first: nat)
    requires first <= from && first <= mid && from <= until && mid <= until
    requires Touches(a, b, trace, first, from) && Touches(b, c, trace, mid, until)
    ensures Touches(a, c, trace, first, until)
  {
    forall id | id in c.rows && !(id in a.rows && c.rows[id] == a.rows[id])
      ensures SeenWithin(trace, first, until, c.rows[id])
    {
      if SeenWithin(trace, mid, until, c.rows[id]) {
        SeenLonger(trace, mid, until, first, until, c.rows[id]);
      } else {
        SeenLonger(trace, first, from, first, until, b.rows[id]);
      }
    }
  }

  lemma BatchTouches(db: FolderState, trace: Trace, t: nat, uids: seq<nat>, n: nat, validity: nat)
    requires Local(db) && db.lastUidValidity == Some(validity)
    requires Ascending(uids) && 0 < n <= |uids| && forall u :: u in uids ==> db.lastSeenUid < u
    ensures Touches(db, ImportBatch(db, trace(t), uids[..n], validity), trace, t, t)
  {
    hide ImportBatch;
    hide Ascending;
    assert forall i :: 0 <= i < n ==> uids[i] in uids;
    ImportBatchAdds(db, trace(t), uids[..n], validity);
    var next := ImportBatch(db, trace(t), uids[..n], validity);
    forall id | id in next.rows && id !in db.rows ensures SeenWithin(trace, t, t, next.rows[id]) {
      assert SeenAt(trace, t, next.rows[id]);
    }
  }

  lemma {:induction false} ImportTouches(
    db: FolderState, trace: Trace, t: nat, fault: Interrupt, uids: seq<nat>, validity: nat)
    requires Local(db) && db.lastUidValidity == Some(validity)
    requires Ascending(uids) && forall u :: u in uids ==> db.lastSeenUid < u
    ensures var r := Import(db, trace, t, fault, uids, validity); t <= r.time && Touches(db, r.db, trace, t, r.time)
    decreases |uids|
  {
    hide ImportBatch;
    hide Local;
    ImportTime(db, trace, t, fault, uids, validity);
    if uids == [] || fault.Hits(t) || fault.Hits(t + 1) {
    } else {
      var n := Min(BATCH, |uids|);
      var next := ImportBatch(db, trace(t), uids[..n], validity);
      BatchIsQuiet(db, trace(t), uids, n, validity);
      BatchTouches(db, trace, t, uids, n, validity);
      PrefixIsBound(uids, n);
      hide Quietly;
      hide Announces;
      hide Touches;
      ImportTouches(next, trace, t + 2, fault, uids[n..], validity);
      var r := Import(next, trace, t + 2, fault, uids[n..], validity);
      TouchesTransitive(db, next, r.db, trace, t, t + 2, r.time, t);
    }
  }

  lemma PageTouches(before: FolderState, after: FolderState, trace: Trace, t: nat, remote: set<nat>, cursor: nat, last: nat)
    requires PageStep(before, after, trace(t), remote, cursor, last)
    ensures Touches(before, after, trace, t, t)
  {
    forall id | id in after.rows && after.rows[id] != before.rows[id]
      ensures SeenWithin(trace, t, t, after.rows[id])
    {
      assert cursor < before.rows[id].uid <= last;
      assert SeenAt(trace, t, after.rows[id]);
    }
  }

  lemma {:induction false} WalkTouches(
    db: FolderState, trace: Trace, t: nat, fault: Interrupt, remote: set<nat>, cursor: nat)
    ensures var r := Walk(db, trace, t, fault, remote, cursor); t <= r.time && Touches(db, r.db, trace, t, r.time)
    decreases UidsAfter(db.rows, cursor)
  {
    hide Walk;
    hide Page;
    WalkTrims(db, trace, t, fault, remote, cursor);
    hide Trimmed;
    var next, last, more := WalkUnfolds(db, trace, t, fault, remote, cursor);
    hide UidsAfter;
    if more {
      PageTouches(db, next, trace, t, remote, cursor, last);
      hide PageStep;
      hide Touches;
      WalkTouches(next, trace, t + 2, fault, remote, last);
      var r := Walk(next, trace, t + 2, fault, remote, last);
      TouchesTransitive(db, next, r.db, trace, t, t + 2, r.time, t);
    }
  }

  lemma PassTouches(db: FolderState, trace: Trace, t: nat, fault: Interrupt)
    requires LegalTrace(trace) && Sound(db, trace(t))
    ensures var p := Pass(db, trace, t, fault); t <= p.time && Touches(db, p.db, trace, t, p.time)
  {
    hide Pass;
    hide Sound;
    hide Import;
    hide Walk;
    hide NewUids;
    hide Evolves;
    var p := Pass(db, trace, t, fault);
    var b, w := Backfilled(db, trace, t, fault), Walked(db, trace, t, fault);
    var db1 := Reset(db, trace(t).validity);
    var remote := ListUids(trace(t + 2));
    PassUnfolds(db, trace, t, fault);
    ResetSound(db, trace(t));
    SoundIsLocal(db1, trace(t));
    hide Local;
    NewUidsAreAhead(remote, db1.lastSeenUid);
    ImportTouches(db1, trace, t + 3, fault, NewUids(remote, db1.lastSeenUid), trace(t).validity);
    WalkTouches(b.db, trace, b.time, fault, trace(t + 2).messages.Keys, 0);
    assert Touches(db, db, trace, t, p.time);
    assert Touches(db, db1, trace, t, t);
    hide Reset;
    hide Touches;
    TouchesTransitive(db, db1, b.db, trace, t, t + 3, b.time, t);
    TouchesTransitive(db, b.db, w.db, trace, b.time, b.time, w.time, t);
    OnlyTheRowsAreTouched(db, db1, db1, trace, t, t, p.time);
    if p.completed {
      OnlyTheRowsAreTouched(db, w.db, p.db, trace, t, w.time, p.time);
    }
  }

  lemma OnlyTheRowsAreTouched(a: FolderState, b: FolderState, c: FolderState, trace: Trace, from: nat, mid: nat, until: nat)
    requires Touches(a, b, trace, from, mid) && c.rows == b.rows && mid <= until
    ensures Touches(a, c, trace, from, until)
  {
    forall id | id in c.rows && SeenWithin(trace, from, mid, c.rows[id])
      ensures SeenWithin(trace, from, until, c.rows[id])
    {
      SeenLonger(trace, from, mid, from, until, c.rows[id]);
    }
  }

  // ---------------------------------------------------------------- what a pass keeps

  ghost predicate There(trace: Trace, from: nat, until: nat, u: nat) {
    forall i: nat :: from <= i <= until ==> u in trace(i).messages
  }

  lemma WalkKeepsLasting(b: FolderState, trace: Trace, t: nat, fault: Interrupt, remote: set<nat>, from: nat, until: nat, u: nat)
    requires u in UidsOf(b.rows) && u in remote && from <= t
    requires There(trace, from, until, u) && Walk(b, trace, t, fault, remote, 0).time <= until
    ensures u in UidsOf(Walk(b, trace, t, fault, remote, 0).db.rows)
  {
    hide Walk;
    var id :| id in b.rows && b.rows[id].uid == u;
    WalkTrims(b, trace, t, fault, remote, 0);
    WalkKeeps(b, trace, t, fault, remote, 0, id);
  }

  lemma ImportKeepsRows(db: FolderState, trace: Trace, t: nat, fault: Interrupt)
    requires LegalTrace(trace) && Sound(db, trace(t)) && db.lastUidValidity == Some(trace(t).validity)
    ensures UidsOf(db.rows) <= UidsOf(Backfilled(db, trace, t, fault).db.rows)
  {
    hide Sound;
    hide Import;
    hide NewUids;
    hide Evolves;
    var remote := ListUids(trace(t + 2));
    assert Reset(db, trace(t).validity) == db;
    SoundIsLocal(db, trace(t));
    NewUidsAreAhead(remote, db.lastSeenUid);
    ImportAnnounces(db, trace, t + 3, fault, NewUids(remote, db.lastSeenUid), trace(t).validity);
    var b := Backfilled(db, trace, t, fault);
    forall u | u in UidsOf(db.rows) ensures u in UidsOf(b.db.rows) {
      var id :| id in db.rows && db.rows[id].uid == u;
      assert id in b.db.rows && b.db.rows[id].uid == u;
    }
  }

  /** A cached message that stays on the server throughout stays in the cache, however the pass ends. */
  lemma PassKeepsLasting(db: FolderState, trace: Trace, t: nat, fault: Interrupt, u: nat)
    requires LegalTrace(trace) && Sound(db, trace(t)) && db.lastUidValidity == Some(trace(t).validity)
    requires u in UidsOf(db.rows) && There(trace, t, Pass(db, trace, t, fault).time, u)
    ensures u in UidsOf(Pass(db, trace, t, fault).db.rows)
  {
    hide Pass;
    hide Sound;
    hide Import;
    hide Walk;
    hide Evolves;
    hide There;
    hide UidsOf;
    hide Backfilled;
    var p := Pass(db, trace, t, fault);
    var b, w := Backfilled(db, trace, t, fault), Walked(db, trace, t, fault);
    PassUnfolds(db, trace, t, fault);
    assert Reset(db, trace(t).validity) == db;
    ImportKeepsRows(db, trace, t, fault);
    if t + 3 <= b.time <= w.time <= p.time {
      ThereThen(trace, t, p.time, u, t + 2);
      WalkKeepsLasting(b.db, trace, b.time, fault, trace(t + 2).messages.Keys, t, p.time, u);
    }
  }

  lemma ThereThen(trace: Trace, from: nat, until: nat, u: nat, i: nat)
    requires There(trace, from, until, u) && from <= i <= until
    ensures u in trace(i).messages
  {
  }

  /** Under one UIDVALIDITY a message seen early and late was there in between. */
  lemma SeenTwiceWasThere(trace: Trace, from: nat, until: nat, u: nat)
    requires LegalTrace(trace) && from <= until && trace(from).validity == trace(until).validity
    requires u in trace(from).messages && u in trace(until).messages
    ensures There(trace, from, until, u)
  {
    forall i: nat | from <= i <= until ensures u in trace(i).messages {
      assert Evolves(trace(from), trace(i)) && Evolves(trace(i), trace(until));
    }
  }

  /** What a pass leaves of validity and completeness when UIDVALIDITY was current and holds. */
  lemma PassKeepsCompleteness(db: FolderState, trace: Trace, t: nat, fault: Interrupt)
    requires LegalTrace(trace) && Sound(db, trace(t)) && db.lastUidValidity == Some(trace(t).validity) && db.historyComplete
    ensures var p := Pass(db, trace, t, fault).db; p.lastUidValidity == db.lastUidValidity && p.historyComplete
  {
    hide Pass;
    hide Sound;
    hide Import;
    hide Walk;
    hide NewUids;
    hide Evolves;
    var b := Backfilled(db, trace, t, fault);
    var remote := ListUids(trace(t + 2));
    PassUnfolds(db, trace, t, fault);
    assert Reset(db, trace(t).validity) == db;
    SoundIsLocal(db, trace(t));
    NewUidsAreAhead(remote, db.lastSeenUid);
    ImportIsQuiet(db, trace, t + 3, fault, NewUids(remote, db.lastSeenUid), trace(t).validity);
    WalkTrims(b.db, trace, b.time, fault, trace(t + 2).messages.Keys, 0);
  }

  // ---------------------------------------------------------------- main results

  /** A completed pass makes the cache fresh since its first instant. */
  lemma CompletedPassIsFresh(db: FolderState, trace: Trace, t: nat, fault: Interrupt)
    requires LegalTrace(trace) && Sound(db, trace(t)) && Pass(db, trace, t, fault).completed
    ensures Fresh(Pass(db, trace, t, fault).db, trace, t, Pass(db, trace, t, fault).time)
  {
    hide Pass;
    hide Sound;
    var p := Pass(db, trace, t, fault);
    PassSound(db, trace, t, fault);
    CompletedPassReflects(db, trace, t, fault);
    PassWatermark(db, trace, t, fault);
    PassTakesTime(db, trace, t, fault);
    CompletedIsComplete(db, trace, t, fault);
    hide Evolves;
    if trace(p.time).validity == trace(t).validity {
      forall u | u in trace(t).messages && u in trace(p.time).messages ensures u in UidsOf(p.db.rows) {
        SeenTwiceWasThere(trace, t, p.time, u);
        ThereThen(trace, t, p.time, u, t + 2);
      }
    }
  }

  lemma CompletedIsComplete(db: FolderState, trace: Trace, t: nat, fault: Interrupt)
    requires Pass(db, trace, t, fault).completed
    ensures Pass(db, trace, t, fault).db.historyComplete
  {
    hide Backfilled;
    hide Walked;
    hide Pass;
    PassUnfolds(db, trace, t, fault);
  }

  /** Time only ages it. */
  lemma FreshAges(db: FolderState, trace: Trace, since: nat, now: nat, later: nat)
    requires LegalTrace(trace) && since <= now <= later && Fresh(db, trace, since, now)
    ensures Fresh(db, trace, since, later)
  {
    forall id | id in db.rows ensures SeenWithin(trace, since, later, db.rows[id]) {
      SeenLonger(trace, since, now, since, later, db.rows[id]);
    }
    assert Evolves(trace(since), trace(now)) && Evolves(trace(now), trace(later));
    if trace(later).validity == trace(since).validity {
      forall u | u in trace(since).messages && u in trace(later).messages ensures u in UidsOf(db.rows) {
        SeenTwiceWasThere(trace, since, later, u);
        ThereThen(trace, since, later, u, now);
      }
    }
  }

  lemma SampledSeen(trace: Trace, at: nat -> nat, i: nat, row: Row)
    ensures SeenAt(Sampled(trace, at), i, row) == SeenAt(trace, at(i), row)
  {
  }

  lemma SeenOnTheClock(trace: Trace, at: nat -> nat, from: nat, until: nat, row: Row)
    requires Forward(at) && SeenWithin(Sampled(trace, at), from, until, row)
    ensures SeenWithin(trace, at(from), at(until), row)
  {
    hide Sampled;
    hide SeenAt;
    var i: nat :| from <= i <= until && SeenAt(Sampled(trace, at), i, row);
    SampledSeen(trace, at, i, row);
    InBetween(at, from, i, until);
    hide Forward;
  }

  lemma InBetween(at: nat -> nat, from: nat, i: nat, until: nat)
    requires Forward(at) && from <= i <= until
    ensures at(from) <= at(i) <= at(until)
  {
  }

  /** What is fresh by the awaits of a schedule is fresh by the mailbox's own clock. */
  lemma FreshOnTheClock(db: FolderState, trace: Trace, at: nat -> nat, since: nat, now: nat)
    requires Forward(at) && since <= now && Fresh(db, Sampled(trace, at), since, now)
    ensures Fresh(db, trace, at(since), at(now))
  {
    hide SeenWithin;
    forall id | id in db.rows ensures SeenWithin(trace, at(since), at(now), db.rows[id]) {
      SeenOnTheClock(trace, at, since, now, db.rows[id]);
    }
  }

  lemma ThereOnTheClock(trace: Trace, at: nat -> nat, from: nat, until: nat, u: nat)
    requires Forward(at) && There(trace, at(from), at(until), u)
    ensures There(Sampled(trace, at), from, until, u)
  {
    forall i: nat | from <= i <= until ensures u in Sampled(trace, at)(i).messages {
      InBetween(at, from, i, until);
    }
  }

  /** A later pass on any schedule, whether it completes or stops at any await, leaves the cache as fresh as it was. */
  lemma PassKeepsFresh(db: FolderState, trace: Trace, at: nat -> nat, since: nat, now: nat, t: nat, fault: Interrupt)
    requires LegalTrace(trace) && Forward(at) && since <= now <= at(t)
    requires Sound(db, trace(at(t))) && Fresh(db, trace, since, now)
    ensures
      var p := Pass(db, Sampled(trace, at), t, fault);
      t <= p.time && Fresh(p.db, trace, since, at(p.time))
  {
    hide Pass;
    hide Sound;
    hide Evolves;
    var sub := Sampled(trace, at);
    var p := Pass(db, sub, t, fault);
    SampledIsLegal(trace, at);
    assert sub(t) == trace(at(t));
    FreshAges(db, trace, since, now, at(t));
    PassTouches(db, sub, t, fault);
    assert at(t) <= at(p.time);
    forall id | id in p.db.rows ensures SeenWithin(trace, since, at(p.time), p.db.rows[id]) {
      if SeenWithin(sub, t, p.time, p.db.rows[id]) {
        SeenOnTheClock(trace, at, t, p.time, p.db.rows[id]);
        SeenLonger(trace, at(t), at(p.time), since, at(p.time), p.db.rows[id]);
      } else {
        SeenLonger(trace, since, at(t), since, at(p.time), db.rows[id]);
      }
    }
    hide Touches;
    hide SeenWithin;
    if trace(at(p.time)).validity == trace(since).validity {
      ValidityHeld(trace, since, at(t), at(p.time));
      PassKeepsCompleteness(db, sub, t, fault);
      forall u | u in trace(since).messages && u in trace(at(p.time)).messages ensures u in UidsOf(p.db.rows) {
        SeenTwiceWasThere(trace, since, at(p.time), u);
        ThereThen(trace, since, at(p.time), u, at(t));
        assert There(trace, at(t), at(p.time), u);
        ThereOnTheClock(trace, at, t, p.time, u);
        PassKeepsLasting(db, sub, t, fault, u);
      }
    }
  }

  lemma ValidityHeld(trace: Trace, from: nat, mid: nat, until: nat)
    requires LegalTrace(trace) && from <= mid <= until && trace(from).validity == trace(until).validity
    ensures trace(mid).validity == trace(from).validity
  {
    assert Evolves(trace(from), trace(mid)) && Evolves(trace(mid), trace(until));
  }

  ghost predicate Still(trace: Trace, from: nat, until: nat) {
    forall i: nat :: from <= i <= until ==> trace(i) == trace(until)
  }

  /** A fresh cache of a mailbox that has held still since is an exact copy. */
  lemma FreshAndStillMirrors(db: FolderState, trace: Trace, since: nat, now: nat)
    requires since <= now && Sound(db, trace(now)) && Fresh(db, trace, since, now) && Still(trace, since, now)
    ensures Mirrors(db, trace(now))
  {
    assert trace(since) == trace(now);
    forall id | id in db.rows ensures SeenAt(trace, now, db.rows[id]) {
      var i: nat :| since <= i <= now && SeenAt(trace, i, db.rows[id]);
      assert trace(i) == trace(now);
    }
    MirrorsFrom(db, trace, now);
  }

  /** Two mailboxes show a reader the same. */
  ghost predicate Alike(a: Mailbox, b: Mailbox) {
    && a.validity == b.validity && a.messages.Keys == b.messages.Keys
    && forall u :: u in a.messages && u in b.messages ==>
         a.messages[u].flags == b.messages[u].flags && ShownAlike(a.messages[u].envelope, b.messages[u].envelope)
  }

  ghost predicate ShownAlike(a: Envelope, b: Envelope) {
    && a.subject == b.subject
    && (if a.headerDate.Some? then a.headerDate else a.internalDate)
       == (if b.headerDate.Some? then b.headerDate else b.internalDate)
  }

  /** A cache that mirrors one mailbox mirrors another exactly when the two are alike. */
  lemma MirrorsExactlyTheAlike(db: FolderState, a: Mailbox, b: Mailbox)
    requires Mirrors(db, a)
    ensures Mirrors(db, b) <==> Alike(a, b)
  {
    if Mirrors(db, b) {
      forall u | u in a.messages && u in b.messages
        ensures a.messages[u].flags == b.messages[u].flags && ShownAlike(a.messages[u].envelope, b.messages[u].envelope)
      {
        assert u in UidsOf(db.rows);
        var id :| id in db.rows && db.rows[id].uid == u;
      }
    }
  }
}
