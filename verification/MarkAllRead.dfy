/** Marking everything read: unread rows grouped by account and folder, the server told in chunks, rows flipped
    folder by folder, under every pattern of failing connections, calls and logouts. */
module MarkAllRead {
  import opened Prelude

  const CHUNK := 200

  /** An unread message: local id, account, folder path (unique within an account) and uid. */
  datatype Row = Row(id: nat, account: nat, path: nat, uid: nat)

  function AccountOf(r: Row): nat { r.account }

  function PathOf(r: Row): nat { r.path }

  // ---------------------------------------------------------------- grouping

  /** The keys of an insertion-ordered dictionary. */
  function Keys(rows: seq<Row>, key: Row -> nat): seq<nat>
    decreases |rows|
  {
    if rows == [] then []
    else
      var before, last := Keys(rows[..|rows| - 1], key), key(rows[|rows| - 1]);
      if last in before then before else before + [last]
  }

  /** The list under one key. */
  function Group(rows: seq<Row>, key: Row -> nat, k: nat): seq<Row>
    decreases |rows|
  {
    if rows == [] then []
    else
      var before, last := Group(rows[..|rows| - 1], key, k), rows[|rows| - 1];
      if key(last) == k then before + [last] else before
  }

  lemma {:induction false} KeysAreDistinct(rows: seq<Row>, key: Row -> nat)
    ensures Distinct(Keys(rows, key))
    ensures forall k :: k in Keys(rows, key) <==> exists r :: r in rows && key(r) == k
    decreases |rows|
  {
    if rows != [] {
      var front, last := rows[..|rows| - 1], rows[|rows| - 1];
      KeysAreDistinct(front, key);
      assert rows == front + [last];
      forall k ensures k in Keys(rows, key) <==> exists r :: r in rows && key(r) == k {
        if k in Keys(front, key) {
          var r :| r in front && key(r) == k;
          assert r in rows;
        }
        if r :| r in rows && key(r) == k {
          assert r in front || r == last;
        }
      }
    }
  }

  /** Each row is in the group of its key, once, and in no other. */
  lemma {:induction false} GroupSelects(rows: seq<Row>, key: Row -> nat, k: nat)
    ensures forall r :: r in Group(rows, key, k) <==> r in rows && key(r) == k
    ensures Distinct(rows) ==> Distinct(Group(rows, key, k))
    decreases |rows|
  {
    if rows != [] {
      var front, last := rows[..|rows| - 1], rows[|rows| - 1];
      GroupSelects(front, key, k);
      assert rows == front + [last];
      assert Distinct(rows) ==> Distinct(front) && last !in front;
    }
  }

  /** The grouping loops. */
  method GroupBy(rows: seq<Row>, key: Row -> nat) returns (order: seq<nat>, groups: map<nat, seq<Row>>)
    ensures order == Keys(rows, key)
    ensures forall k :: k in groups <==> k in order
    ensures forall k :: k in groups ==> groups[k] == Group(rows, key, k)
  {
    order, groups := [], map[];
    var i := 0;
    while i < |rows|
      invariant 0 <= i <= |rows|
      invariant order == Keys(rows[..i], key)
      invariant forall k :: k in groups <==> k in order
      invariant forall k :: k in groups ==> groups[k] == Group(rows[..i], key, k)
      invariant forall k :: k !in groups ==> Group(rows[..i], key, k) == []
    {
      var k := key(rows[i]);
      assert rows[..i + 1][..i] == rows[..i];
      if k !in groups {
        order, groups := order + [k], groups[k := []];
      }
      groups := groups[k := groups[k] + [rows[i]]];
      i := i + 1;
    }
    assert rows[..i] == rows;
  }

  // ---------------------------------------------------------------- what happens

  /** One `mark_seen` call and whether it succeeded. */
  datatype Send = Send(account: nat, path: nat, rows: seq<Row>, ok: bool)

  /** How the outside behaves. `renews`: opening the account's connection stores a new token, which commits the
      session; then the connection opens or not, each call succeeds or not, and the logout succeeds or not. `saves`:
      the commit at the end succeeds. */
  datatype World = World(
    renews: nat -> bool, connects: nat -> bool, marks: (nat, nat, seq<Row>) -> bool, closes: nat -> bool, saves: bool)

  /** `flipped`: rows seen in the session; `stored`: rows seen in the database. */
  datatype Journal = Journal(sent: seq<Send>, flipped: set<nat>, stored: set<nat>, updated: nat)

  const BLANK := Journal([], {}, {}, 0)

  function Ids(rows: seq<Row>): set<nat> {
    set r | r in rows :: r.id
  }

  function FirstChunk(rows: seq<Row>): seq<Row> {
    rows[..Min(CHUNK, |rows|)]
  }

  /** Tell the server, chunk by chunk, until a call fails. */
  function MarkChunks(j: Journal, w: World, a: nat, p: nat, rows: seq<Row>): (Journal, bool)
    decreases |rows|
  {
    if rows == [] then (j, true)
    else
      var chunk := FirstChunk(rows);
      var told := j.(sent := j.sent + [Send(a, p, chunk, w.marks(a, p, chunk))]);
      if w.marks(a, p, chunk) then MarkChunks(told, w, a, p, rows[|chunk|..]) else (told, false)
  }

  function Flip(j: Journal, rows: seq<Row>): Journal {
    j.(flipped := j.flipped + Ids(rows), updated := j.updated + |rows|)
  }

  /** Folder after folder; a failure leaves the account's remaining folders alone. */
  function MarkFolders(j: Journal, w: World, a: nat, rows: seq<Row>, paths: seq<nat>): Journal
    decreases |paths|
  {
    if paths == [] then j
    else
      var folder := Group(rows, PathOf, paths[0]);
      var told := MarkChunks(j, w, a, paths[0], folder);
      if told.1 then MarkFolders(Flip(told.0, folder), w, a, rows, paths[1..]) else told.0
  }

  /** One account; the flag says that the logout failed, which leaves the request. */
  function MarkAccount(j: Journal, w: World, a: nat, rows: seq<Row>): (Journal, bool) {
    var renewed := if w.renews(a) then j.(stored := j.flipped) else j;
    if w.connects(a) then (MarkFolders(renewed, w, a, rows, Keys(rows, PathOf)), !w.closes(a)) else (renewed, false)
  }

  function MarkAccounts(j: Journal, w: World, rows: seq<Row>, accounts: seq<nat>): (Journal, bool)
    decreases |accounts|
  {
    if accounts == [] then (j, false)
    else
      var one := MarkAccount(j, w, accounts[0], Group(rows, AccountOf, accounts[0]));
      if one.1 then one else MarkAccounts(one.0, w, rows, accounts[1..])
  }

  datatype Outcome = Done(journal: Journal) | Raised(journal: Journal)

  /** The whole request: the commit comes last. */
  function MarkAll(w: World, rows: seq<Row>): Outcome {
    var end := MarkAccounts(BLANK, w, rows, Keys(rows, AccountOf));
    if end.1 || !w.saves then Raised(end.0) else Done(end.0.(stored := end.0.flipped))
  }

  // ---------------------------------------------------------------- the request, step by step

  class Session {
    var journal: Journal

    constructor ()
      ensures journal == BLANK
    {
      journal := BLANK;
    }

    method SendChunks(w: World, a: nat, p: nat, rows: seq<Row>) returns (ok: bool)
      modifies this
      ensures (journal, ok) == MarkChunks(old(journal), w, a, p, rows)
    {
      var offset := 0;
      while offset < |rows|
        invariant 0 <= offset
        invariant MarkChunks(journal, w, a, p, rows[Min(offset, |rows|)..]) == MarkChunks(old(journal), w, a, p, rows)
      {
        var chunk := rows[offset..Min(offset + CHUNK, |rows|)];
        assert chunk == FirstChunk(rows[offset..]);
        assert rows[offset..][|chunk|..] == rows[Min(offset + CHUNK, |rows|)..];
        var succeeded := w.marks(a, p, chunk);
        journal := journal.(sent := journal.sent + [Send(a, p, chunk, succeeded)]);
        if !succeeded {
          return false;
        }
        offset := offset + CHUNK;
      }
      return true;
    }

    method FlipRows(rows: seq<Row>)
      modifies this
      ensures journal == Flip(old(journal), rows)
    {
      var i := 0;
      assert rows[..0] == [];
      while i < |rows|
        invariant 0 <= i <= |rows|
        invariant journal == Flip(old(journal), rows[..i])
      {
        assert rows[..i + 1] == rows[..i] + [rows[i]];
        assert Ids(rows[..i + 1]) == Ids(rows[..i]) + {rows[i].id};
        journal := journal.(flipped := journal.flipped + {rows[i].id}, updated := journal.updated + 1);
        i := i + 1;
      }
      assert rows[..i] == rows;
    }

    method SendFolders(w: World, a: nat, rows: seq<Row>)
      modifies this
      ensures journal == MarkFolders(old(journal), w, a, rows, Keys(rows, PathOf))
    {
      var paths, byFolder := GroupBy(rows, PathOf);
      var i := 0;
      while i < |paths|
        invariant 0 <= i <= |paths|
        invariant MarkFolders(journal, w, a, rows, paths[i..]) == MarkFolders(old(journal), w, a, rows, paths)
      {
        assert paths[i] in paths && paths[i..][1..] == paths[i + 1..];
        var ok := SendChunks(w, a, paths[i], byFolder[paths[i]]);
        if !ok {
          return;
        }
        FlipRows(byFolder[paths[i]]);
        i := i + 1;
      }
    }

    /** The endpoint. */
    method Run(w: World, rows: seq<Row>) returns (raised: bool)
      requires journal == BLANK
      modifies this
      ensures MarkAll(w, rows) == if raised then Raised(journal) else Done(journal)
    {
      var accounts, byAccount := GroupBy(rows, AccountOf);
      var i := 0;
      while i < |accounts|
        invariant 0 <= i <= |accounts|
        invariant MarkAccounts(journal, w, rows, accounts[i..]) == MarkAccounts(BLANK, w, rows, accounts)
      {
        var a := accounts[i];
        assert a in accounts && accounts[i..][1..] == accounts[i + 1..];
        if w.renews(a) {
          journal := journal.(stored := journal.flipped);
        }
        if w.connects(a) {
          SendFolders(w, a, byAccount[a]);
          if !w.closes(a) {
            return true;
          }
        }
        i := i + 1;
      }
      if !w.saves {
        return true;
      }
      journal := journal.(stored := journal.flipped);
      return false;
    }
  }
}
