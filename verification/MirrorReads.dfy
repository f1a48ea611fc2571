/** What a completed pass read, message by message and when; and from that the exact condition under which the cache is
    a copy of the mailbox at the pass's end. */
module MirrorReads {
  import opened Prelude
  import opened MailServer
  import opened Mirror
  import opened MirrorTheorems
  import opened MirrorRuns
  import opened MirrorFreshness

  // ---------------------------------------------------------------- the instant a UID is read

  /** The instant at which the walk fetches the page that holds `u`. */
  ghost function ReadAt(db: FolderState, trace: Trace, t: nat, remote: set<nat>, cursor: nat, u: nat): nat
    decreases UidsAfter(db.rows, cursor)
  {
    var page := Page(db.rows, cursor);
    if page == [] || u in page then t
    else
      WalkAdvances(db, trace(t), remote, cursor);
      ReadAt(WalkPage(db, trace(t), remote, page), trace, t + 2, remote, page[|page| - 1], u)
  }

  /** Of the row `id`, whose UID was read on the server as `m`, the walk leaves what it should: nothing, if the UID was
      not listed or is gone, or else the row with the flags read. */
  ghost predicate Decided(id: nat, u: nat, after: FolderState, listed: set<nat>, m: Mailbox) {
    && (id in after.rows <==> u in listed && u in m.messages)
    && (id in after.rows ==> after.rows[id].uid == u && after.rows[id].flags == m.messages[u].flags)
  }

  /** What the walk does to the rows of the page it reads at `t`, and to those of later ones. */
  lemma PageDecides(db: FolderState, m: Mailbox, remote: set<nat>, cursor: nat, id: nat)
    requires Page(db.rows, cursor) != [] && id in db.rows && cursor < db.rows[id].uid
    ensures
      var page, u := Page(db.rows, cursor), db.rows[id].uid;
      var next, last := WalkPage(db, m, remote, page), page[|page| - 1];
      if u in page then u <= last && Decided(id, u, next, remote, m)
      else last < u && id in next.rows && next.rows[id] == db.rows[id]
  {
    hide Page;
    hide WalkPage;
    WalkPageSteps(db, m, remote, cursor);
    PageIsNext(db.rows, cursor);
  }

  lemma WalkGoesOn(db: FolderState, trace: Trace, t: nat, fault: Interrupt, remote: set<nat>, cursor: nat)
    requires Walk(db, trace, t, fault, remote, cursor).completed && Page(db.rows, cursor) != []
    ensures
      var page := Page(db.rows, cursor);
      var next, last := WalkPage(db, trace(t), remote, page), page[|page| - 1];
      var r, rest := Walk(db, trace, t, fault, remote, cursor), Walk(next, trace, t + 2, fault, remote, last);
      rest.completed && r.db == rest.db && r.time == rest.time
  {
    hide WalkPage;
    hide Page;
    hide UidsAfter;
  }

  lemma ReadAtUnfolds(db: FolderState, trace: Trace, t: nat, remote: set<nat>, cursor: nat, u: nat)
    requires Page(db.rows, cursor) != []
    ensures
      var page := Page(db.rows, cursor);
      ReadAt(db, trace, t, remote, cursor, u) ==
        if u in page then t
        else ReadAt(WalkPage(db, trace(t), remote, page), trace, t + 2, remote, page[|page| - 1], u)
  {
    hide WalkPage;
    hide Page;
    hide UidsAfter;
  }

  lemma PageIsThere(rows: map<nat, Row>, cursor: nat, id: nat)
    requires id in rows && cursor < rows[id].uid
    ensures Page(rows, cursor) != []
  {
    assert rows[id].uid in UidsAfter(rows, cursor);
  }

  lemma TrimmedKeepsDecided(id: nat, u: nat, next: FolderState, after: FolderState, last: nat, listed: set<nat>, m: Mailbox)
    requires Trimmed(next, after, last) && u <= last && Decided(id, u, next, listed, m)
    ensures Decided(id, u, after, listed, m)
  {
  }

  /** A row outlives a completed walk if, and only if, its UID was listed and there at the instant it was read; it then
      has the flags it had at that instant. */
  lemma {:induction false} WalkDecides(
    db: FolderState, trace: Trace, t: nat, fault: Interrupt, remote: set<nat>, cursor: nat, id: nat)
    requires Walk(db, trace, t, fault, remote, cursor).completed
    requires id in db.rows && cursor < db.rows[id].uid
    ensures
      var r, u := Walk(db, trace, t, fault, remote, cursor), db.rows[id].uid;
      var i := ReadAt(db, trace, t, remote, cursor, u);
      t <= i <= r.time && Decided(id, u, r.db, remote, trace(i))
    decreases UidsAfter(db.rows, cursor)
  {
    hide *;
    var page, u := Page(db.rows, cursor), db.rows[id].uid;
    PageIsThere(db.rows, cursor, id);
    PageDecides(db, trace(t), remote, cursor, id);
    WalkAdvances(db, trace(t), remote, cursor);
    WalkGoesOn(db, trace, t, fault, remote, cursor);
    ReadAtUnfolds(db, trace, t, remote, cursor, u);
    var next, last := WalkPage(db, trace(t), remote, page), page[|page| - 1];
    if u in page {
      WalkTrims(next, trace, t + 2, fault, remote, last);
      TrimmedKeepsDecided(id, u, next, Walk(next, trace, t + 2, fault, remote, last).db, last, remote, trace(t));
    } else {
      WalkDecides(next, trace, t + 2, fault, remote, last, id);
    }
  }

  // ---------------------------------------------------------------- the exact copy

  /** When a completed pass read `u`. */
  ghost function PassReadAt(db: FolderState, trace: Trace, t: nat, fault: Interrupt, u: nat): nat {
    var b := Backfilled(db, trace, t, fault);
    ReadAt(b.db, trace, b.time, trace(t + 2).messages.Keys, 0, u)
  }

  /** Nothing slipped past the pass: UIDVALIDITY is what it selected; what is there at the end was listed; and what was
      listed and still there when it was read is there at the end, with the flags that were read. */
  ghost predicate NothingSlipped(db: FolderState, trace: Trace, t: nat, fault: Interrupt) {
    var end := trace(Pass(db, trace, t, fault).time);
    && end.validity == trace(t).validity
    && (forall u :: u in end.messages ==> u in trace(t + 2).messages)
    && (forall u :: u in trace(t + 2).messages && u in trace(PassReadAt(db, trace, t, fault, u)).messages ==>
          u in end.messages && end.messages[u].flags == trace(PassReadAt(db, trace, t, fault, u)).messages[u].flags)
  }

  /** The rows a completed pass leaves, exactly: each row of the backfill stays if, and only if, its UID was listed and
      there when it was read, with the flags that were read. */
  lemma PassDecides(db: FolderState, trace: Trace, t: nat, fault: Interrupt, id: nat)
    requires LegalTrace(trace) && Sound(db, trace(t)) && Pass(db, trace, t, fault).completed
    requires id in Backfilled(db, trace, t, fault).db.rows
    ensures
      var p, b := Pass(db, trace, t, fault), Backfilled(db, trace, t, fault);
      var u := b.db.rows[id].uid;
      var i := PassReadAt(db, trace, t, fault, u);
      t + 3 <= b.time <= i < p.time && Decided(id, u, p.db, trace(t + 2).messages.Keys, trace(i))
  {
    hide Pass;
    hide Sound;
    hide Walk;
    hide ReadAt;
    hide Evolves;
    var b := Backfilled(db, trace, t, fault);
    PassUnfolds(db, trace, t, fault);
    BackfillSound(db, trace, t, fault);
    assert 0 < b.db.rows[id].uid;
    hide Backfilled;
    hide Local;
    hide Quietly;
    WalkDecides(b.db, trace, b.time, fault, trace(t + 2).messages.Keys, 0, id);
  }

  lemma {:induction false} ReadInTheWalk(
    db: FolderState, trace: Trace, t: nat, fault: Interrupt, remote: set<nat>, cursor: nat, u: nat)
    requires Walk(db, trace, t, fault, remote, cursor).completed
    ensures t <= ReadAt(db, trace, t, remote, cursor, u) <= Walk(db, trace, t, fault, remote, cursor).time
    decreases UidsAfter(db.rows, cursor)
  {
    var page := Page(db.rows, cursor);
    WalkTrims(db, trace, t, fault, remote, cursor);
    if page == [] {
      NothingToRead(db, trace, t, remote, cursor, u);
    } else {
      hide *;
      WalkAdvances(db, trace(t), remote, cursor);
      WalkGoesOn(db, trace, t, fault, remote, cursor);
      ReadAtUnfolds(db, trace, t, remote, cursor, u);
      var next, last := WalkPage(db, trace(t), remote, page), page[|page| - 1];
      ReadInTheWalk(next, trace, t + 2, fault, remote, last, u);
    }
  }

  lemma NothingToRead(db: FolderState, trace: Trace, t: nat, remote: set<nat>, cursor: nat, u: nat)
    requires Page(db.rows, cursor) == []
    ensures ReadAt(db, trace, t, remote, cursor, u) == t
  {
  }

  /** A listed message that is there when it is read outlives the pass, with the flags it has then. */
  lemma ReadIsCached(db: FolderState, trace: Trace, t: nat, fault: Interrupt, u: nat) returns (id: nat)
    requires LegalTrace(trace) && Sound(db, trace(t)) && Pass(db, trace, t, fault).completed
    requires trace(Pass(db, trace, t, fault).time).validity == trace(t).validity
    requires u in trace(t + 2).messages && u in trace(PassReadAt(db, trace, t, fault, u)).messages
    ensures
      var p, m := Pass(db, trace, t, fault).db, trace(PassReadAt(db, trace, t, fault, u));
      id in p.rows && p.rows[id].uid == u && p.rows[id].flags == m.messages[u].flags
  {
    hide *;
    var p, b := Pass(db, trace, t, fault), Backfilled(db, trace, t, fault);
    ReadInThePass(db, trace, t, fault, u);
    id := ListedIsBackfilled(db, trace, t, fault, u);
    PassDecides(db, trace, t, fault, id);
    DecidedStays(id, u, p.db, trace(t + 2), trace(PassReadAt(db, trace, t, fault, u)));
  }

  lemma DecidedStays(id: nat, u: nat, after: FolderState, listed: Mailbox, m: Mailbox)
    requires Decided(id, u, after, listed.messages.Keys, m) && u in listed.messages && u in m.messages
    ensures id in after.rows && after.rows[id].uid == u && after.rows[id].flags == m.messages[u].flags
  {
  }

  lemma ReadInThePass(db: FolderState, trace: Trace, t: nat, fault: Interrupt, u: nat)
    requires Pass(db, trace, t, fault).completed
    ensures t + 3 <= Backfilled(db, trace, t, fault).time <= PassReadAt(db, trace, t, fault, u) < Pass(db, trace, t, fault).time
  {
    hide Pass;
    hide Walk;
    hide ReadAt;
    hide Backfilled;
    var b := Backfilled(db, trace, t, fault);
    PassUnfolds(db, trace, t, fault);
    ReadInTheWalk(b.db, trace, b.time, fault, trace(t + 2).messages.Keys, 0, u);
  }

  /** What was listed and is still there when it is read was there to be backfilled. */
  lemma ListedIsBackfilled(db: FolderState, trace: Trace, t: nat, fault: Interrupt, u: nat) returns (id: nat)
    requires LegalTrace(trace) && Sound(db, trace(t)) && Pass(db, trace, t, fault).completed
    requires trace(Pass(db, trace, t, fault).time).validity == trace(t).validity
    requires u in trace(t + 2).messages && u in trace(PassReadAt(db, trace, t, fault, u)).messages
    ensures id in Backfilled(db, trace, t, fault).db.rows && Backfilled(db, trace, t, fault).db.rows[id].uid == u
  {
    hide Pass;
    hide Sound;
    hide Walk;
    hide Evolves;
    hide Backfilled;
    hide PassReadAt;
    hide Quietly;
    hide Local;
    hide LegalTrace;
    hide There;
    var p, b, i := Pass(db, trace, t, fault), Backfilled(db, trace, t, fault), PassReadAt(db, trace, t, fault, u);
    ReadInThePass(db, trace, t, fault, u);
    PassUnfolds(db, trace, t, fault);
    BackfillSound(db, trace, t, fault);
    ValidityHeld(trace, t, t + 2, p.time);
    ValidityHeld(trace, t, b.time, p.time);
    ValidityHeld(trace, t, i, p.time);
    SeenTwiceWasThere(trace, t + 2, i, u);
    ThereThen(trace, t + 2, i, u, b.time);
    CachedBelowWatermark(b.db, trace(b.time), u);
    id :| id in b.db.rows && b.db.rows[id].uid == u;
  }

  /** Every row a completed pass leaves was listed and there when it was read, with these flags. */
  lemma CachedWasRead(db: FolderState, trace: Trace, t: nat, fault: Interrupt, id: nat)
    requires LegalTrace(trace) && Sound(db, trace(t)) && Pass(db, trace, t, fault).completed
    requires id in Pass(db, trace, t, fault).db.rows
    ensures
      var row := Pass(db, trace, t, fault).db.rows[id];
      row.uid in trace(t + 2).messages && SeenAt(trace, PassReadAt(db, trace, t, fault, row.uid), row)
  {
    hide Pass;
    hide Sound;
    hide Walk;
    hide Evolves;
    hide Backfilled;
    hide PassReadAt;
    var b := Backfilled(db, trace, t, fault);
    PassUnfolds(db, trace, t, fault);
    WalkTrims(b.db, trace, b.time, fault, trace(t + 2).messages.Keys, 0);
    PassDecides(db, trace, t, fault, id);
  }

  /** The exact copy, exactly: a completed pass leaves a copy of the mailbox as it then is if, and only if, nothing
      slipped past it. */
  lemma CompletedPassMirrorsExactly(db: FolderState, trace: Trace, t: nat, fault: Interrupt)
    requires LegalTrace(trace) && Sound(db, trace(t)) && Pass(db, trace, t, fault).completed
    ensures Mirrors(Pass(db, trace, t, fault).db, trace(Pass(db, trace, t, fault).time))
       <==> NothingSlipped(db, trace, t, fault)
  {
    hide Pass;
    hide NothingSlipped;
    hide Mirrors;
    if NothingSlipped(db, trace, t, fault) {
      UnslippedMirrors(db, trace, t, fault);
    }
    if Mirrors(Pass(db, trace, t, fault).db, trace(Pass(db, trace, t, fault).time)) {
      MirroredDidNotSlip(db, trace, t, fault);
    }
  }

  lemma UnslippedMirrors(db: FolderState, trace: Trace, t: nat, fault: Interrupt)
    requires LegalTrace(trace) && Sound(db, trace(t)) && Pass(db, trace, t, fault).completed
    requires NothingSlipped(db, trace, t, fault)
    ensures Mirrors(Pass(db, trace, t, fault).db, trace(Pass(db, trace, t, fault).time))
  {
    hide Pass;
    hide Sound;
    hide Evolves;
    hide PassReadAt;
    var p := Pass(db, trace, t, fault);
    PassSound(db, trace, t, fault);
    PassWatermark(db, trace, t, fault);
    CompletedPassReflects(db, trace, t, fault);
    CompletedIsComplete(db, trace, t, fault);
    forall id | id in p.db.rows ensures SeenAt(trace, p.time, p.db.rows[id]) {
      CachedWasRead(db, trace, t, fault, id);
    }
    MirrorsFrom(p.db, trace, p.time);
  }

  lemma MirroredDidNotSlip(db: FolderState, trace: Trace, t: nat, fault: Interrupt)
    requires LegalTrace(trace) && Sound(db, trace(t)) && Pass(db, trace, t, fault).completed
    requires Mirrors(Pass(db, trace, t, fault).db, trace(Pass(db, trace, t, fault).time))
    ensures NothingSlipped(db, trace, t, fault)
  {
    hide Pass;
    hide Sound;
    hide Evolves;
    hide PassReadAt;
    var p := Pass(db, trace, t, fault);
    var end := trace(p.time);
    PassWatermark(db, trace, t, fault);
    forall u | u in end.messages ensures u in trace(t + 2).messages {
      assert u in UidsOf(p.db.rows);
      var id :| id in p.db.rows && p.db.rows[id].uid == u;
      CachedWasRead(db, trace, t, fault, id);
    }
    forall u | u in trace(t + 2).messages && u in trace(PassReadAt(db, trace, t, fault, u)).messages
      ensures u in end.messages && end.messages[u].flags == trace(PassReadAt(db, trace, t, fault, u)).messages[u].flags
    {
      var id := ReadIsCached(db, trace, t, fault, u);
      assert u in UidsOf(p.db.rows);
    }
  }
}
