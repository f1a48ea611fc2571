/** What one folder pass of the worker computes, as a function of the committed folder state,
    of the mailbox at every instant, and of the instant at which the pass is interrupted.
    `MirrorSession` proves the worker's loops compute exactly this; `MirrorTheorems` proves
    what it is worth. */
module Mirror {
  import opened Prelude
  import opened MailServer

  /** SYNC_BATCH_SIZE */
  const BATCH: nat := 200

  datatype Row = Row(
    uid: nat,
    validity: nat,
    subject: string,
    dateSent: Option<int>,
    eligible: bool,
    flags: Flags)

  /** One row of the folder table and its message rows, by local row id. */
  datatype FolderState = FolderState(
    lastUidValidity: Option<nat>,
    lastSeenUid: nat,
    historyComplete: bool,
    rows: map<nat, Row>,
    nextId: nat)

  const EMPTY := FolderState(None, 0, false, map[], 1)

  /** The await at which a pass raises or is cancelled, if any. */
  datatype Interrupt = Never | At(instant: nat) {
    predicate Hits(t: nat) {
      At? && instant == t
    }
  }

  /** What is committed when a stage stops, the instant it stopped at, whether it ran to its end,
      and the UIDs it dealt with: those it listed, for a whole pass. */
  datatype Outcome = Outcome(db: FolderState, time: nat, completed: bool, uids: seq<nat>)

  function UidsAfter(rows: map<nat, Row>, after: nat): set<nat> {
    set id | id in rows && after < rows[id].uid :: rows[id].uid
  }

  function UidsOf(rows: map<nat, Row>): set<nat> {
    set id | id in rows :: rows[id].uid
  }

  /** A changed UIDVALIDITY voids everything cached. */
  function Reset(db: FolderState, validity: nat): FolderState {
    if db.lastUidValidity != Some(validity) then
      FolderState(Some(validity), 0, false, map[], db.nextId)
    else
      db
  }

  function NewUids(remote: seq<nat>, seen: nat): (r: seq<nat>) {
    if remote == [] then []
    else if remote[0] > seen then [remote[0]] + NewUids(remote[1..], seen)
    else NewUids(remote[1..], seen)
  }

  function RowOf(h: Header, validity: nat, eligible: bool): Row {
    Row(h.uid, validity, h.envelope.subject,
        if h.envelope.headerDate.Some? then h.envelope.headerDate else h.envelope.internalDate,
        eligible, h.flags)
  }

  function ImportOne(db: FolderState, h: Header, validity: nat): FolderState {
    db.(rows := db.rows[db.nextId := RowOf(h, validity, db.historyComplete)], nextId := db.nextId + 1)
  }

  function ImportHeaders(db: FolderState, headers: seq<Header>, cached: set<nat>, validity: nat): FolderState
    decreases |headers|
  {
    if headers == [] then
      db
    else
      ImportHeaders(
        if headers[0].uid in cached then db else ImportOne(db, headers[0], validity),
        headers[1..], cached, validity)
  }

  function CachedAmong(rows: map<nat, Row>, uids: seq<nat>): set<nat> {
    set id | id in rows && rows[id].uid in uids :: rows[id].uid
  }

  /** One backfill transaction: the batch's unseen headers and the watermark, together. */
  function ImportBatch(db: FolderState, m: Mailbox, batch: seq<nat>, validity: nat): FolderState
    requires batch != []
  {
    ImportHeaders(db, FetchHeaders(m, batch), CachedAmong(db.rows, batch), validity)
      .(lastSeenUid := batch[|batch| - 1])
  }

  function Import(db: FolderState, trace: Trace, t: nat, fault: Interrupt, uids: seq<nat>, validity: nat): Outcome
    decreases |uids|
  {
    if uids == [] then
      Outcome(db, t, true, [])
    else if fault.Hits(t) then          // FETCH
      Outcome(db, t, false, [])
    else if fault.Hits(t + 1) then      // commit
      Outcome(db, t + 1, false, [])
    else
      var n := Min(BATCH, |uids|);
      var rest := Import(ImportBatch(db, trace(t), uids[..n], validity), trace, t + 2, fault, uids[n..], validity);
      rest.(uids := uids[..n] + rest.uids)
  }

  /** The next page of the keyset walk: the least cached UIDs above the cursor. */
  function Page(rows: map<nat, Row>, after: nat): (r: seq<nat>)
    ensures Ascending(r)
    ensures forall u :: u in r ==> u in UidsAfter(rows, after)
    ensures r == [] <==> UidsAfter(rows, after) == {}
    ensures r != [] ==> forall u :: u in UidsAfter(rows, after) && u <= r[|r| - 1] ==> u in r
  {
    var all := Sorted(UidsAfter(rows, after));
    PrefixIsBound(all, Min(BATCH, |all|));
    all[..Min(BATCH, |all|)]
  }

  /** Delete the page's rows the server no longer has; refresh the flags of the others. */
  function Reconcile(rows: map<nat, Row>, page: seq<nat>, flags: map<nat, Flags>): map<nat, Row> {
    map id | id in rows && (rows[id].uid in page ==> rows[id].uid in flags) ::
      if rows[id].uid in page then rows[id].(flags := flags[rows[id].uid]) else rows[id]
  }

  function PresentIn(page: seq<nat>, remote: set<nat>): seq<nat> {
    if page == [] then []
    else if page[0] in remote then [page[0]] + PresentIn(page[1..], remote)
    else PresentIn(page[1..], remote)
  }

  function WalkPage(db: FolderState, m: Mailbox, remote: set<nat>, page: seq<nat>): FolderState {
    db.(rows := Reconcile(db.rows, page, FetchFlags(m, PresentIn(page, remote))))
  }

  lemma PresentInIs(page: seq<nat>, remote: set<nat>)
    ensures forall u :: u in PresentIn(page, remote) <==> u in page && u in remote
  {
    if page != [] {
      PresentInIs(page[1..], remote);
      assert page == [page[0]] + page[1..];
    }
  }

  lemma WalkAdvances(db: FolderState, m: Mailbox, remote: set<nat>, after: nat)
    requires Page(db.rows, after) != []
    ensures
      var page := Page(db.rows, after);
      UidsAfter(WalkPage(db, m, remote, page).rows, page[|page| - 1]) < UidsAfter(db.rows, after)
  {
    var page := Page(db.rows, after);
    var last := page[|page| - 1];
    assert last in page;
    assert last in UidsAfter(db.rows, after);
    assert last !in UidsAfter(WalkPage(db, m, remote, page).rows, last);
  }

  function Walk(db: FolderState, trace: Trace, t: nat, fault: Interrupt, remote: set<nat>, after: nat): Outcome
    decreases UidsAfter(db.rows, after)
  {
    var page := Page(db.rows, after);
    if page == [] then
      Outcome(db, t, true, [])
    else if fault.Hits(t) then          // FETCH
      Outcome(db, t, false, [])
    else if fault.Hits(t + 1) then      // commit
      Outcome(db, t + 1, false, [])
    else
      WalkAdvances(db, trace(t), remote, after);
      var rest := Walk(WalkPage(db, trace(t), remote, page), trace, t + 2, fault, remote, page[|page| - 1]);
      rest.(uids := page + rest.uids)
  }

  /** One pass from instant `t`: SELECT, commit, SEARCH, backfill, reconcile, final commit. */
  function Pass(db: FolderState, trace: Trace, t: nat, fault: Interrupt): Outcome {
    if fault.Hits(t) then Outcome(db, t, false, [])                      // SELECT
    else if fault.Hits(t + 1) then Outcome(db, t + 1, false, [])         // commit
    else
      var validity := trace(t).validity;
      var db1 := Reset(db, validity);
      if fault.Hits(t + 2) then Outcome(db1, t + 2, false, [])           // SEARCH
      else
        var remote := ListUids(trace(t + 2));
        var imported := Import(db1, trace, t + 3, fault, NewUids(remote, db1.lastSeenUid), validity);
        if !imported.completed then imported.(uids := remote)
        else
          var walked := Walk(imported.db, trace, imported.time, fault, Elements(remote), 0);
          if !walked.completed || fault.Hits(walked.time) then
            Outcome(walked.db, walked.time, false, remote)
          else
            Outcome(walked.db.(historyComplete := true), walked.time + 1, true, remote)
  }
}
