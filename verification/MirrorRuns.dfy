/** Whole passes, and runs of any number of passes over a mailbox that changes all the while. */
module MirrorRuns {
  import opened Prelude
  import opened MailServer
  import opened Mirror
  import opened MirrorTheorems

  // ---------------------------------------------------------------- one pass

  /** The pass up to the end of its backfill, under one name for each intermediate result. */
  ghost function Backfilled(db: FolderState, trace: Trace, t: nat, fault: Interrupt): Outcome {
    var db1 := Reset(db, trace(t).validity);
    Import(db1, trace, t + 3, fault, NewUids(ListUids(trace(t + 2)), db1.lastSeenUid), trace(t).validity)
  }

  ghost function Walked(db: FolderState, trace: Trace, t: nat, fault: Interrupt): Outcome {
    var imported := Backfilled(db, trace, t, fault);
    Walk(imported.db, trace, imported.time, fault, trace(t + 2).messages.Keys, 0)
  }

  /** A pass either stops before its backfill, in it, or in the walk; or it completes. */
  lemma PassUnfolds(db: FolderState, trace: Trace, t: nat, fault: Interrupt)
    ensures
      var p := Pass(db, trace, t, fault);
      var b, w := Backfilled(db, trace, t, fault), Walked(db, trace, t, fault);
      && t <= p.time
      && (p.completed ==>
            && b.completed && w.completed && t + 3 <= b.time <= w.time && p.time == w.time + 1
            && p.db == w.db.(historyComplete := true) && p.uids == ListUids(trace(t + 2)))
      && (!p.completed ==>
            || (p.db == db && p.time <= t + 1)
            || (p.db == Reset(db, trace(t).validity) && p.time == t + 2)
            || (p.db == b.db && p.time == b.time && t + 3 <= b.time)
            || (p.db == w.db && p.time == w.time && b.completed && t + 3 <= b.time <= w.time))
      && (fault == Never ==> p.completed)
  {
    hide Import;
    hide Walk;
    hide NewUids;
    hide Sorted;
    hide Reset;
    var db1 := Reset(db, trace(t).validity);
    var remote := ListUids(trace(t + 2));
    ImportTime(db1, trace, t + 3, fault, NewUids(remote, db1.lastSeenUid), trace(t).validity);
    var b := Backfilled(db, trace, t, fault);
    assert Elements(remote) == trace(t + 2).messages.Keys;
    WalkTrims(b.db, trace, b.time, fault, Elements(remote), 0);
  }

  lemma ResetSound(db: FolderState, m: Mailbox)
    requires Sound(db, m)
    ensures
      var r := Reset(db, m.validity);
      Sound(r, m) && r.lastUidValidity == Some(m.validity) && r.lastSeenUid < m.uidNext
  {
  }

  ghost predicate ReachesAll(seen: nat, m: Mailbox) {
    forall u :: u in m.messages ==> u <= seen
  }

  /** Soundness asks nothing about a UIDVALIDITY the server has already left. */
  lemma StaleIsSound(db: FolderState, m: Mailbox)
    requires Local(db) && WellFormed(m)
    requires db.lastUidValidity.Some? && db.lastUidValidity.value < m.validity
    ensures Sound(db, m)
  {
  }

  lemma SoundIsLocal(db: FolderState, m: Mailbox)
    requires Sound(db, m)
    ensures Local(db)
  {
  }

  /** UIDVALIDITY never goes back, so equal ends mean it held all the way. */
  lemma SameEndsStable(trace: Trace, start: nat, end: nat)
    requires LegalTrace(trace) && start <= end && trace(start).validity == trace(end).validity
    ensures Stable(trace, start, end)
  {
    forall i: nat | start <= i <= end ensures trace(i).validity == trace(start).validity {
      assert Evolves(trace(start), trace(i)) && Evolves(trace(i), trace(end));
    }
  }

  /** Rows a stage adds are eligible only under a complete history, and then lie above the watermark. */
  ghost predicate Quietly(before: FolderState, after: FolderState) {
    && after.lastUidValidity == before.lastUidValidity
    && after.historyComplete == before.historyComplete
    && before.lastSeenUid <= after.lastSeenUid
    && (forall id :: id in after.rows && after.rows[id].eligible ==>
          || (id in before.rows && SameMessage(after.rows[id], before.rows[id]))
          || (before.historyComplete && before.lastSeenUid < after.rows[id].uid
              && Some(after.rows[id].validity) == before.lastUidValidity))
  }

  /** Rows stay as they were, flags aside, and each new one is eligible exactly under a complete history. */
  ghost predicate Announces(before: FolderState, after: FolderState) {
    && after.historyComplete == before.historyComplete
    && (forall id :: id in before.rows ==> id in after.rows)
    && (forall id :: id in after.rows ==>
          if id in before.rows then SameMessage(after.rows[id], before.rows[id])
          else after.rows[id].eligible == before.historyComplete)
  }

  lemma BatchIsQuiet(db: FolderState, m: Mailbox, uids: seq<nat>, n: nat, validity: nat)
    requires Local(db) && db.lastUidValidity == Some(validity)
    requires Ascending(uids) && 0 < n <= |uids| && forall u :: u in uids ==> db.lastSeenUid < u
    ensures
      var next := ImportBatch(db, m, uids[..n], validity);
      && Local(next) && Quietly(db, next) && Announces(db, next)
      && next.lastUidValidity == Some(validity) && next.lastSeenUid == uids[n - 1]
  {
    hide ImportBatch;
    hide Ascending;
    assert forall i :: 0 <= i < n ==> uids[i] in uids;
    ImportBatchAdds(db, m, uids[..n], validity);
    assert uids[n - 1] in uids;
  }

  lemma {:induction false} ImportIsQuiet(
    db: FolderState, trace: Trace, t: nat, fault: Interrupt, uids: seq<nat>, validity: nat)
    requires Local(db) && db.lastUidValidity == Some(validity)
    requires Ascending(uids) && forall u :: u in uids ==> db.lastSeenUid < u
    ensures
      var r := Import(db, trace, t, fault, uids, validity);
      && Local(r.db) && Quietly(db, r.db)
      && (r.completed ==> forall u :: u in uids ==> u <= r.db.lastSeenUid)
    decreases |uids|
  {
    hide ImportBatch;
    hide Local;
    if uids == [] || fault.Hits(t) || fault.Hits(t + 1) {
    } else {
      var n := Min(BATCH, |uids|);
      var next := ImportBatch(db, trace(t), uids[..n], validity);
      BatchIsQuiet(db, trace(t), uids, n, validity);
      PrefixIsBound(uids, n);
      hide Announces;
      ImportIsQuiet(next, trace, t + 2, fault, uids[n..], validity);
      var r := Import(next, trace, t + 2, fault, uids[n..], validity);
      QuietlyTransitive(db, next, r.db);
      assert next.lastSeenUid <= r.db.lastSeenUid;
      hide Quietly;
      forall u | u in uids && r.completed ensures u <= r.db.lastSeenUid {
        assert u in uids[n..] || u <= next.lastSeenUid;
      }
    }
  }

  lemma QuietlyTransitive(a: FolderState, b: FolderState, c: FolderState)
    requires Quietly(a, b) && Quietly(b, c)
    ensures Quietly(a, c)
  {
  }

  /** The watermark, once a backfill has listed the mailbox, stays inside the listed range. */
  lemma BackfillSound(db: FolderState, trace: Trace, t: nat, fault: Interrupt)
    requires LegalTrace(trace) && Sound(db, trace(t)) && t + 3 <= Backfilled(db, trace, t, fault).time
    ensures
      var b := Backfilled(db, trace, t, fault);
      var db1 := Reset(db, trace(t).validity);
      && Sound(b.db, trace(b.time)) && Local(b.db) && Quietly(db1, b.db)
      && b.db.lastUidValidity == Some(trace(t).validity)
      && (b.completed ==> ReachesAll(b.db.lastSeenUid, trace(t + 2)))
      && (trace(b.time).validity == trace(t).validity ==> b.db.lastSeenUid < trace(t + 2).uidNext)
  {
    hide Import;
    hide Sound;
    hide NewUids;
    hide Reset;
    var s := t + 2;
    var b := Backfilled(db, trace, t, fault);
    var db1 := Reset(db, trace(t).validity);
    var remote := ListUids(trace(s));
    var uids := NewUids(remote, db1.lastSeenUid);
    ResetSound(db, trace(t));
    SoundIsLocal(db1, trace(t));
    assert Evolves(trace(t), trace(s)) && Evolves(trace(t), trace(t + 3)) && Evolves(trace(t), trace(b.time));
    SoundSurvivesServerChange(db1, trace(t), trace(t + 3));
    NewUidsAreAhead(remote, db1.lastSeenUid);
    ImportIsQuiet(db1, trace, t + 3, fault, uids, trace(t).validity);
    assert db1.lastSeenUid <= b.db.lastSeenUid && b.db.lastUidValidity == Some(trace(t).validity);
    hide Quietly;
    hide Local;
    forall u | u in trace(s).messages && b.completed ensures u <= b.db.lastSeenUid {
      assert u in uids || u <= db1.lastSeenUid;
    }
    if trace(b.time).validity == trace(t).validity {
      hide Evolves;
      StableBackfillSound(db1, trace, t, fault, trace(t).validity);
    } else {
      StaleIsSound(b.db, trace(b.time));
    }
  }

  lemma StableBackfillSound(db1: FolderState, trace: Trace, t: nat, fault: Interrupt, validity: nat)
    requires LegalTrace(trace) && Sound(db1, trace(t + 3)) && db1.lastUidValidity == Some(validity)
    requires db1.lastSeenUid < trace(t + 2).uidNext
    requires t + 3 <= Import(db1, trace, t + 3, fault, NewUids(ListUids(trace(t + 2)), db1.lastSeenUid), validity).time
    requires
      var b := Import(db1, trace, t + 3, fault, NewUids(ListUids(trace(t + 2)), db1.lastSeenUid), validity);
      trace(t).validity == validity && trace(b.time).validity == validity
    ensures
      var b := Import(db1, trace, t + 3, fault, NewUids(ListUids(trace(t + 2)), db1.lastSeenUid), validity);
      Sound(b.db, trace(b.time)) && b.db.lastSeenUid < trace(t + 2).uidNext
  {
    hide Import;
    hide Sound;
    hide NewUids;
    hide Evolves;
    hide Ahead;
    hide ListUids;
    var uids := NewUids(ListUids(trace(t + 2)), db1.lastSeenUid);
    var b := Import(db1, trace, t + 3, fault, uids, validity);
    ListedIsAhead(trace(t + 2), db1.lastSeenUid);
    SameEndsStable(trace, t, b.time);
    StableLater(trace, t, t + 2, b.time);
    hide Stable;
    ImportSound(db1, trace, t + 2, t + 3, fault, uids, validity);
  }

  lemma StableLater(trace: Trace, from: nat, later: nat, until: nat)
    requires Stable(trace, from, until) && from <= later <= until
    ensures Stable(trace, later, until) && trace(later).validity == trace(from).validity
  {
  }

  lemma ListedIsAhead(m: Mailbox, seen: nat)
    ensures Ahead(NewUids(ListUids(m), seen), seen, m)
  {
    NewUidsAreAhead(ListUids(m), seen);
  }

  lemma WalkedSound(db: FolderState, trace: Trace, t: nat, fault: Interrupt)
    requires LegalTrace(trace) && Sound(db, trace(t))
    requires t + 3 <= Backfilled(db, trace, t, fault).time <= Walked(db, trace, t, fault).time
    ensures Sound(Walked(db, trace, t, fault).db, trace(Walked(db, trace, t, fault).time))
    ensures Trimmed(Backfilled(db, trace, t, fault).db, Walked(db, trace, t, fault).db, 0)
  {
    hide Import;
    hide Walk;
    hide Sound;
    var s := t + 2;
    var b, w := Backfilled(db, trace, t, fault), Walked(db, trace, t, fault);
    BackfillSound(db, trace, t, fault);
    WalkTrims(b.db, trace, b.time, fault, trace(s).messages.Keys, 0);
    assert Evolves(trace(t), trace(w.time));
    if trace(w.time).validity == trace(t).validity {
      SameEndsStable(trace, t, w.time);
      assert forall i: nat :: s <= i <= w.time ==> trace(i).validity == trace(t).validity;
      WalkSound(b.db, trace, s, b.time, fault, 0);
    } else {
      TrimmedIsLocal(b.db, w.db, 0);
      StaleIsSound(w.db, trace(w.time));
    }
  }

  /** Crash safety. Wherever a pass stops, what is committed is sound: cached UIDs are unique and
      carry the folder's UIDVALIDITY, and every message the server still has at or below the
      watermark is cached, so resuming above the watermark misses nothing. */
  lemma PassSound(db: FolderState, trace: Trace, t: nat, fault: Interrupt)
    requires LegalTrace(trace) && Sound(db, trace(t))
    ensures
      var p := Pass(db, trace, t, fault);
      t <= p.time && Sound(p.db, trace(p.time))
  {
    hide Pass;
    hide Backfilled;
    hide Walked;
    var p := Pass(db, trace, t, fault);
    var b, w := Backfilled(db, trace, t, fault), Walked(db, trace, t, fault);
    PassUnfolds(db, trace, t, fault);
    assert Evolves(trace(t), trace(p.time));
    ResetSound(db, trace(t));
    if p.completed || (b.completed && p.db == w.db && p.time == w.time && t + 3 <= b.time <= w.time) {
      WalkedSound(db, trace, t, fault);
      assert Evolves(trace(w.time), trace(p.time));
      SoundSurvivesServerChange(w.db, trace(w.time), trace(p.time));
    } else if p.db == b.db && p.time == b.time && t + 3 <= b.time {
      BackfillSound(db, trace, t, fault);
    } else if p.db == db {
      SoundSurvivesServerChange(db, trace(t), trace(p.time));
    } else {
      SoundSurvivesServerChange(Reset(db, trace(t).validity), trace(t), trace(p.time));
    }
  }

  /** The watermark only grows while UIDVALIDITY stays, and a UIDVALIDITY never comes back. */
  lemma PassWatermark(db: FolderState, trace: Trace, t: nat, fault: Interrupt)
    requires LegalTrace(trace) && Sound(db, trace(t))
    ensures
      var p := Pass(db, trace, t, fault);
      && (p.db.lastUidValidity == db.lastUidValidity ==> db.lastSeenUid <= p.db.lastSeenUid)
      && (p.db.lastUidValidity == db.lastUidValidity || p.db.lastUidValidity == Some(trace(t).validity))
      && (p.completed ==>
            && p.db.lastUidValidity == Some(trace(t).validity)
            && forall u :: u in p.uids ==> u <= p.db.lastSeenUid)
  {
    hide Pass;
    hide Backfilled;
    hide Walked;
    hide Sound;
    var p := Pass(db, trace, t, fault);
    var b, w := Backfilled(db, trace, t, fault), Walked(db, trace, t, fault);
    PassUnfolds(db, trace, t, fault);
    if p.completed || (b.completed && p.db == w.db && p.time == w.time && t + 3 <= b.time <= w.time) {
      WalkedSound(db, trace, t, fault);
      BackfillSound(db, trace, t, fault);
    } else if p.db == b.db && p.time == b.time && t + 3 <= b.time {
      BackfillSound(db, trace, t, fault);
    }
  }

  /** A completed pass reflects the mailbox as it was during the pass: every cached row was on the
      server at some instant of the pass with exactly these flags, and every message that was there
      from the pass's listing to its end is cached. */
  lemma CompletedPassReflects(db: FolderState, trace: Trace, t: nat, fault: Interrupt)
    requires LegalTrace(trace) && Sound(db, trace(t))
    requires Pass(db, trace, t, fault).completed
    ensures
      var p := Pass(db, trace, t, fault);
      && (forall id :: id in p.db.rows ==>
            exists i: nat :: t <= i <= p.time && SeenAt(trace, i, p.db.rows[id]))
      && (trace(p.time).validity == trace(t).validity ==>
            forall u :: u in trace(t + 2).messages && u in trace(p.time).messages ==> u in UidsOf(p.db.rows))
  {
    hide Pass;
    hide Backfilled;
    hide Sound;
    hide Walk;
    var p := Pass(db, trace, t, fault);
    var b, w := Backfilled(db, trace, t, fault), Walked(db, trace, t, fault);
    PassUnfolds(db, trace, t, fault);
    PassSound(db, trace, t, fault);
    BackfillSound(db, trace, t, fault);
    WalkedSound(db, trace, t, fault);
    forall id | id in p.db.rows
      ensures exists i: nat :: t <= i <= p.time && SeenAt(trace, i, p.db.rows[id])
    {
      assert 0 < b.db.rows[id].uid;
      WalkReflects(b.db, trace, b.time, fault, trace(t + 2).messages.Keys, 0, id);
    }
    forall u | u in trace(t + 2).messages && u in trace(p.time).messages && trace(p.time).validity == trace(t).validity
      ensures u in UidsOf(p.db.rows)
    {
      CachedBelowWatermark(p.db, trace(p.time), u);
    }
  }

  /** So whatever happened to a message before a completed pass began is in the cache after it: a message gone
      by then is not cached, one that outlives the pass is, and its flags are from during the pass. */
  lemma EarlierChangesAreReflected(db: FolderState, trace: Trace, t: nat, fault: Interrupt, u: nat)
    requires LegalTrace(trace) && Sound(db, trace(t)) && Pass(db, trace, t, fault).completed
    requires trace(Pass(db, trace, t, fault).time).validity == trace(t).validity && u < trace(t).uidNext
    ensures
      var p := Pass(db, trace, t, fault);
      && (u !in trace(t).messages ==> u !in UidsOf(p.db.rows))
      && (u in trace(p.time).messages ==> u in UidsOf(p.db.rows))
      && (forall id :: id in p.db.rows && p.db.rows[id].uid == u ==>
            exists i: nat :: t <= i <= p.time && SeenAt(trace, i, p.db.rows[id]))
  {
    hide Pass;
    hide Sound;
    var p := Pass(db, trace, t, fault);
    PassSound(db, trace, t, fault);
    CompletedPassReflects(db, trace, t, fault);
    PassTakesTime(db, trace, t, fault);
    assert Evolves(trace(t), trace(t + 2)) && Evolves(trace(t + 2), trace(p.time));
    if u in UidsOf(p.db.rows) {
      var id :| id in p.db.rows && p.db.rows[id].uid == u;
      var i: nat :| t <= i <= p.time && SeenAt(trace, i, p.db.rows[id]);
      assert Evolves(trace(t), trace(i)) && Evolves(trace(i), trace(p.time));
    }
  }

  lemma PassTakesTime(db: FolderState, trace: Trace, t: nat, fault: Interrupt)
    requires Pass(db, trace, t, fault).completed
    ensures t + 3 <= Pass(db, trace, t, fault).time
  {
    hide Pass;
    hide Backfilled;
    hide Walked;
    PassUnfolds(db, trace, t, fault);
  }

  lemma CachedBelowWatermark(db: FolderState, m: Mailbox, u: nat)
    requires Sound(db, m) && db.lastUidValidity == Some(m.validity)
    requires u in m.messages && u <= db.lastSeenUid
    ensures u in UidsOf(db.rows)
  {
  }

  /** What a reader of the local tables sees of a folder: a message for each cached UID. */
  ghost predicate Mirrors(db: FolderState, m: Mailbox) {
    && UidsOf(db.rows) == m.messages.Keys
    && Unique(db.rows)
    && db.lastUidValidity == Some(m.validity)
    && db.historyComplete
    && (forall id :: id in db.rows && db.rows[id].uid in m.messages ==>
          && db.rows[id].flags == m.messages[db.rows[id].uid].flags
          && db.rows[id].validity == m.validity
          && Describes(db.rows[id], m.messages[db.rows[id].uid].envelope))
  }

  lemma MirrorsFrom(db: FolderState, trace: Trace, t: nat)
    requires Sound(db, trace(t)) && db.lastUidValidity == Some(trace(t).validity) && db.historyComplete
    requires forall id :: id in db.rows ==> SeenAt(trace, t, db.rows[id])
    requires forall u :: u in trace(t).messages ==> u in UidsOf(db.rows)
    ensures Mirrors(db, trace(t))
  {
  }

  lemma QuietPassMirrors(db: FolderState, trace: Trace, t: nat)
    requires LegalTrace(trace) && Sound(db, trace(t)) && Quiescent(trace, t)
    ensures Pass(db, trace, t, Never).completed
    ensures Mirrors(Pass(db, trace, t, Never).db, trace(t))
  {
    hide Pass;
    hide Sound;
    hide Backfilled;
    hide Walked;
    var p := Pass(db, trace, t, Never);
    PassUnfolds(db, trace, t, Never);
    PassSound(db, trace, t, Never);
    PassWatermark(db, trace, t, Never);
    CompletedPassReflects(db, trace, t, Never);
    assert trace(p.time) == trace(t) && trace(t + 2) == trace(t);
    forall id | id in p.db.rows
      ensures SeenAt(trace, t, p.db.rows[id])
    {
      var i: nat :| t <= i <= p.time && SeenAt(trace, i, p.db.rows[id]);
      assert trace(i) == trace(t);
    }
    MirrorsFrom(p.db, trace, t);
  }

  // ---------------------------------------------------------------- what a pass announces

  lemma AnnouncesTransitive(a: FolderState, b: FolderState, c: FolderState)
    requires Announces(a, b) && Announces(b, c)
    ensures Announces(a, c)
  {
  }

  lemma {:induction false} ImportAnnounces(
    db: FolderState, trace: Trace, t: nat, fault: Interrupt, uids: seq<nat>, validity: nat)
    requires Local(db) && db.lastUidValidity == Some(validity)
    requires Ascending(uids) && forall u :: u in uids ==> db.lastSeenUid < u
    ensures Announces(db, Import(db, trace, t, fault, uids, validity).db)
    decreases |uids|
  {
    hide ImportBatch;
    if uids == [] || fault.Hits(t) || fault.Hits(t + 1) {
    } else {
      var n := Min(BATCH, |uids|);
      var next := ImportBatch(db, trace(t), uids[..n], validity);
      BatchIsQuiet(db, trace(t), uids, n, validity);
      PrefixIsBound(uids, n);
      hide Local;
      hide Quietly;
      hide Announces;
      ImportAnnounces(next, trace, t + 2, fault, uids[n..], validity);
      AnnouncesTransitive(db, next, Import(next, trace, t + 2, fault, uids[n..], validity).db);
    }
  }

  lemma BackfillAnnounces(db: FolderState, trace: Trace, t: nat, fault: Interrupt)
    requires LegalTrace(trace) && Sound(db, trace(t))
    ensures Announces(Reset(db, trace(t).validity), Backfilled(db, trace, t, fault).db)
    ensures Trimmed(Backfilled(db, trace, t, fault).db, Walked(db, trace, t, fault).db, 0)
  {
    hide Sound;
    hide Import;
    hide Walk;
    hide NewUids;
    hide Sorted;
    hide LegalTrace;
    var db1 := Reset(db, trace(t).validity);
    var remote := ListUids(trace(t + 2));
    var b := Backfilled(db, trace, t, fault);
    ResetSound(db, trace(t));
    hide Reset;
    SoundIsLocal(db1, trace(t));
    NewUidsAreAhead(remote, db1.lastSeenUid);
    ImportAnnounces(db1, trace, t + 3, fault, NewUids(remote, db1.lastSeenUid), trace(t).validity);
    WalkTrims(b.db, trace, b.time, fault, trace(t + 2).messages.Keys, 0);
  }

  /** New mail notifies, and only new mail: a message that a pass adds is eligible if, and only if, the
      folder's history was complete under the UIDVALIDITY the pass finds. Wherever the pass stops. */
  lemma AddedMailNotifiesExactly(db: FolderState, trace: Trace, t: nat, fault: Interrupt, id: nat)
    requires LegalTrace(trace) && Sound(db, trace(t))
    requires id in Pass(db, trace, t, fault).db.rows && id !in db.rows
    ensures Pass(db, trace, t, fault).db.rows[id].eligible
       <==> db.historyComplete && db.lastUidValidity == Some(trace(t).validity)
  {
    hide Pass;
    hide Sound;
    hide LegalTrace;
    hide Backfilled;
    hide Walked;
    hide SameMessage;
    var b, w := Backfilled(db, trace, t, fault), Walked(db, trace, t, fault);
    BackfillAnnounces(db, trace, t, fault);
    PassUnfolds(db, trace, t, fault);
    assert id !in Reset(db, trace(t).validity).rows;
    if id in b.db.rows && id in w.db.rows {
      SameMessageSameEligibility(w.db.rows[id], b.db.rows[id]);
    }
  }

  lemma SameMessageSameEligibility(a: Row, b: Row)
    requires SameMessage(a, b)
    ensures a.eligible == b.eligible
  {
  }

  // ---------------------------------------------------------------- runs of passes

  /** A pass, some instants after the one before, interrupted or not. */
  datatype Attempt = Attempt(pause: nat, fault: Interrupt)

  /** A completed pass: the UIDVALIDITY it ran under and the UIDs it listed. */
  datatype Completion = Completion(validity: nat, listed: seq<nat>)

  datatype History = History(db: FolderState, time: nat, completions: seq<Completion>)

  const START := History(EMPTY, 0, [])

  ghost function Next(h: History, trace: Trace, a: Attempt): History {
    var t := h.time + a.pause;
    var p := Pass(h.db, trace, t, a.fault);
    History(p.db, p.time,
            if p.completed then h.completions + [Completion(trace(t).validity, p.uids)] else h.completions)
  }

  ghost function Run(h: History, trace: Trace, attempts: seq<Attempt>): History
    decreases |attempts|
  {
    if attempts == [] then h else Run(Next(h, trace, attempts[0]), trace, attempts[1..])
  }

  /** The UIDs listed by the first completed pass under a UIDVALIDITY. */
  ghost function FirstListed(completions: seq<Completion>, validity: nat): Option<seq<nat>>
    decreases |completions|
  {
    if completions == [] then None
    else if completions[0].validity == validity then Some(completions[0].listed)
    else FirstListed(completions[1..], validity)
  }

  lemma {:induction false} FirstListedAppend(cs: seq<Completion>, c: Completion, validity: nat)
    ensures FirstListed(cs + [c], validity) ==
            if FirstListed(cs, validity).Some? then FirstListed(cs, validity)
            else if c.validity == validity then Some(c.listed) else None
    decreases |cs|
  {
    if cs != [] {
      assert (cs + [c])[1..] == cs[1..] + [c];
      FirstListedAppend(cs[1..], c, validity);
    }
  }

  ghost predicate Above(uid: nat, listed: Option<seq<nat>>) {
    listed.Some? && forall u :: u in listed.value ==> u < uid
  }

  ghost predicate AtMost(listed: Option<seq<nat>>, seen: nat) {
    listed.Some? ==> forall u :: u in listed.value ==> u <= seen
  }

  /** A message may notify only if it is newer than all that the first completed pass listed. */
  ghost predicate HistoryIsSilent(db: FolderState, cs: seq<Completion>) {
    forall id :: id in db.rows && db.rows[id].eligible ==> Above(db.rows[id].uid, FirstListed(cs, db.rows[id].validity))
  }

  /** What makes `HistoryIsSilent` inductive: a complete history is one whose first listing is below the watermark. */
  ghost predicate Listings(db: FolderState, cs: seq<Completion>) {
    && (cs != [] ==> db.lastUidValidity.Some?)
    && (db.lastUidValidity.Some? ==> forall i :: 0 <= i < |cs| ==> cs[i].validity <= db.lastUidValidity.value)
    && (db.historyComplete ==> db.lastUidValidity.Some? && FirstListed(cs, db.lastUidValidity.value).Some?)
    && (db.lastUidValidity.Some? ==> AtMost(FirstListed(cs, db.lastUidValidity.value), db.lastSeenUid))
  }

  lemma {:induction false} NeverListed(cs: seq<Completion>, validity: nat)
    requires forall i :: 0 <= i < |cs| ==> cs[i].validity < validity
    ensures FirstListed(cs, validity) == None
    decreases |cs|
  {
    if cs != [] {
      NeverListed(cs[1..], validity);
    }
  }

  lemma ResetKeepsSilence(db: FolderState, m: Mailbox, cs: seq<Completion>)
    requires Sound(db, m) && HistoryIsSilent(db, cs) && Listings(db, cs)
    ensures
      var r := Reset(db, m.validity);
      HistoryIsSilent(r, cs) && Listings(r, cs)
  {
    if db.lastUidValidity != Some(m.validity) {
      NeverListed(cs, m.validity);
    }
  }

  lemma QuietlyKeepsSilence(before: FolderState, after: FolderState, cs: seq<Completion>)
    requires Quietly(before, after) && HistoryIsSilent(before, cs) && Listings(before, cs)
    ensures HistoryIsSilent(after, cs) && Listings(after, cs)
  {
    forall id | id in after.rows && after.rows[id].eligible
      ensures Above(after.rows[id].uid, FirstListed(cs, after.rows[id].validity))
    {
      if id in before.rows && SameMessage(after.rows[id], before.rows[id]) {
        assert before.rows[id].eligible;
      } else {
        assert after.rows[id].validity == before.lastUidValidity.value;
      }
    }
  }

  lemma PassKeepsSilence(h: History, trace: Trace, a: Attempt)
    requires LegalTrace(trace) && Sound(h.db, trace(h.time + a.pause))
    requires HistoryIsSilent(h.db, h.completions) && Listings(h.db, h.completions)
    ensures
      var n := Next(h, trace, a);
      HistoryIsSilent(n.db, n.completions) && Listings(n.db, n.completions)
  {
    hide Pass;
    hide Sound;
    hide Reset;
    hide Import;
    hide Walk;
    hide NewUids;
    hide HistoryIsSilent;
    hide Listings;
    var t, cs := h.time + a.pause, h.completions;
    var p := Pass(h.db, trace, t, a.fault);
    var b, w := Backfilled(h.db, trace, t, a.fault), Walked(h.db, trace, t, a.fault);
    var db1 := Reset(h.db, trace(t).validity);
    var remote := ListUids(trace(t + 2));
    PassUnfolds(h.db, trace, t, a.fault);
    ResetSound(h.db, trace(t));
    SoundIsLocal(db1, trace(t));
    ResetKeepsSilence(h.db, trace(t), cs);
    NewUidsAreAhead(remote, db1.lastSeenUid);
    ImportIsQuiet(db1, trace, t + 3, a.fault, NewUids(remote, db1.lastSeenUid), trace(t).validity);
    WalkTrims(b.db, trace, b.time, a.fault, trace(t + 2).messages.Keys, 0);
    assert Quietly(b.db, w.db);
    QuietlyKeepsSilence(db1, b.db, cs);
    QuietlyKeepsSilence(b.db, w.db, cs);
    if p.completed {
      PassWatermark(h.db, trace, t, a.fault);
      CompletionKeepsSilence(w.db, cs, Completion(trace(t).validity, p.uids));
    }
  }

  lemma CompletionKeepsSilence(db: FolderState, cs: seq<Completion>, c: Completion)
    requires HistoryIsSilent(db, cs) && Listings(db, cs)
    requires db.lastUidValidity == Some(c.validity)
    requires forall u :: u in c.listed ==> u <= db.lastSeenUid
    ensures
      var done := db.(historyComplete := true);
      HistoryIsSilent(done, cs + [c]) && Listings(done, cs + [c])
  {
    forall v {
      FirstListedAppend(cs, c, v);
    }
  }

  lemma {:induction false} RunInvariant(h: History, trace: Trace, attempts: seq<Attempt>)
    requires LegalTrace(trace) && Sound(h.db, trace(h.time))
    requires HistoryIsSilent(h.db, h.completions) && Listings(h.db, h.completions)
    ensures
      var r := Run(h, trace, attempts);
      Sound(r.db, trace(r.time)) && HistoryIsSilent(r.db, r.completions)
    decreases |attempts|
  {
    hide Next;
    hide Sound;
    hide HistoryIsSilent;
    hide Listings;
    if attempts != [] {
      NextInvariant(h, trace, attempts[0]);
      RunInvariant(Next(h, trace, attempts[0]), trace, attempts[1..]);
    }
  }

  lemma NextInvariant(h: History, trace: Trace, a: Attempt)
    requires LegalTrace(trace) && Sound(h.db, trace(h.time))
    requires HistoryIsSilent(h.db, h.completions) && Listings(h.db, h.completions)
    ensures
      var n := Next(h, trace, a);
      Sound(n.db, trace(n.time)) && HistoryIsSilent(n.db, n.completions) && Listings(n.db, n.completions)
  {
    hide Pass;
    hide Sound;
    hide HistoryIsSilent;
    hide Listings;
    assert Evolves(trace(h.time), trace(h.time + a.pause));
    SoundSurvivesServerChange(h.db, trace(h.time), trace(h.time + a.pause));
    PassSound(h.db, trace, h.time + a.pause, a.fault);
    PassKeepsSilence(h, trace, a);
  }

  lemma StartIsSound(m: Mailbox)
    requires WellFormed(m)
    ensures Sound(EMPTY, m) && HistoryIsSilent(EMPTY, []) && Listings(EMPTY, [])
  {
  }

  /** Convergence. Take any passes, each interrupted at any await or completed, while the mailbox
      changes in any legal way, across any UIDVALIDITY changes, even in the middle of a pass. One
      more pass over a mailbox that has gone quiet completes, and leaves the folder an exact copy. */
  lemma Convergence(trace: Trace, attempts: seq<Attempt>, pause: nat)
    requires LegalTrace(trace)
    requires Quiescent(trace, Run(START, trace, attempts).time + pause)
    ensures
      var r := Run(START, trace, attempts);
      var p := Pass(r.db, trace, r.time + pause, Never);
      p.completed && Mirrors(p.db, trace(r.time + pause))
  {
    hide Pass;
    hide Sound;
    hide Run;
    assert Evolves(trace(0), trace(0));
    StartIsSound(trace(0));
    RunInvariant(START, trace, attempts);
    var r := Run(START, trace, attempts);
    assert Evolves(trace(r.time), trace(r.time + pause));
    SoundSurvivesServerChange(r.db, trace(r.time), trace(r.time + pause));
    QuietPassMirrors(r.db, trace, r.time + pause);
  }

  /** History never notifies: over any run, an eligible message is newer than every message the first
      completed pass under its UIDVALIDITY listed; so no backfill, however often interrupted, and no
      UIDVALIDITY reset makes one eligible. */
  lemma HistoryNeverNotifies(trace: Trace, attempts: seq<Attempt>, id: nat)
    requires LegalTrace(trace)
    requires id in Run(START, trace, attempts).db.rows
    requires Run(START, trace, attempts).db.rows[id].eligible
    ensures
      var r := Run(START, trace, attempts);
      Above(r.db.rows[id].uid, FirstListed(r.completions, r.db.rows[id].validity))
  {
    hide Run;
    assert Evolves(trace(0), trace(0));
    StartIsSound(trace(0));
    RunInvariant(START, trace, attempts);
  }
}
