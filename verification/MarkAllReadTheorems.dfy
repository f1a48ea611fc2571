/** What marking everything read guarantees under every pattern of failures. */
module MarkAllReadTheorems {
  import opened Prelude
  import opened MarkAllRead

  function Flat(sent: seq<Send>): seq<Row> {
    if sent == [] then [] else sent[0].rows + Flat(sent[1..])
  }

  lemma {:induction false} FlatDistributes(a: seq<Send>, b: seq<Send>)
    ensures Flat(a + b) == Flat(a) + Flat(b)
  {
    if a == [] {
      assert a + b == b;
    } else {
      assert (a + b)[1..] == a[1..] + b;
      FlatDistributes(a[1..], b);
    }
  }

  /** A successful call told the server about `r`. */
  ghost predicate Covered(sent: seq<Send>, r: Row) {
    exists i :: 0 <= i < |sent| && sent[i].ok && r in sent[i].rows
  }

  lemma CoveredSplits(a: seq<Send>, b: seq<Send>, r: Row)
    ensures Covered(a + b, r) <==> Covered(a, r) || Covered(b, r)
  {
    if Covered(a, r) {
      var i :| 0 <= i < |a| && a[i].ok && r in a[i].rows;
      assert (a + b)[i] == a[i];
    }
    if Covered(b, r) {
      var i :| 0 <= i < |b| && b[i].ok && r in b[i].rows;
      assert (a + b)[|a| + i] == b[i];
    }
  }

  lemma {:induction false} CoveredIsSent(sent: seq<Send>, r: Row)
    ensures Covered(sent, r) ==> r in Flat(sent)
  {
    if Covered(sent, r) {
      var i :| 0 <= i < |sent| && sent[i].ok && r in sent[i].rows;
      if 0 < i {
        assert sent[1..][i - 1] == sent[i];
        CoveredIsSent(sent[1..], r);
      }
    }
  }

  predicate SameFolder(a: Row, b: Row) {
    a.account == b.account && a.path == b.path
  }

  /** The server was told, successfully, about every row of `r`'s folder. */
  ghost predicate FolderTold(scope: set<Row>, sent: seq<Send>, r: Row) {
    forall q :: q in scope && SameFolder(q, r) ==> Covered(sent, q)
  }

  ghost predicate UniqueIds(scope: set<Row>) {
    forall r, q :: r in scope && q in scope && r.id == q.id ==> r == q
  }

  predicate Apart(a: set<Row>, b: set<Row>) {
    forall r, q :: r in a && q in b ==> r.id != q.id && !SameFolder(r, q)
  }

  function IdsOf(scope: set<Row>): set<nat> {
    set r | r in scope :: r.id
  }

  /** One call is about one folder, and within the chunk size. */
  predicate WellAddressed(s: Send) {
    0 < |s.rows| <= CHUNK && forall r :: r in s.rows ==> r.account == s.account && r.path == s.path
  }

  ghost predicate SendsOnce(j: Journal, t: Journal, news: seq<Send>, scope: set<Row>) {
    && t.sent == j.sent + news
    && (forall s :: s in news ==> WellAddressed(s))
    && Distinct(Flat(news)) && (forall r :: r in Flat(news) ==> r in scope)
  }

  ghost predicate FlipsTheTold(t: Journal, news: seq<Send>, scope: set<Row>) {
    forall r :: r in scope ==> (r.id in t.flipped <==> FolderTold(scope, news, r))
  }

  predicate Counts(j: Journal, t: Journal, scope: set<Row>) {
    j.flipped <= t.flipped <= j.flipped + IdsOf(scope) && t.updated - j.updated == |t.flipped| - |j.flipped|
  }

  /** From `j` to `t` the rows of `scope` were dealt with through the calls `news`: each sent at most once, a row
      flipped exactly when its whole folder was told, and the count is the number of rows flipped. */
  ghost predicate Deals(j: Journal, t: Journal, news: seq<Send>, scope: set<Row>) {
    SendsOnce(j, t, news, scope) && FlipsTheTold(t, news, scope) && Counts(j, t, scope)
  }

  lemma NothingDone(j: Journal, scope: set<Row>)
    requires j.flipped !! IdsOf(scope)
    ensures Deals(j, j, [], scope)
  {
    forall r | r in scope ensures r.id !in j.flipped && !FolderTold(scope, [], r) {
      assert r.id in IdsOf(scope);
      assert !Covered([], r);
    }
  }

  lemma DistinctJoins(a: seq<Row>, b: seq<Row>)
    requires Distinct(a) && Distinct(b) && forall r :: r in a ==> r !in b
    ensures Distinct(a + b)
  {
    forall i, j | 0 <= i < j < |a + b| ensures (a + b)[i] != (a + b)[j] {
      if i < |a| <= j {
        assert a[i] in a && (a + b)[j] == b[j - |a|] && b[j - |a|] in b;
      }
    }
  }

  lemma ApartEitherWay(a: set<Row>, b: set<Row>)
    requires Apart(a, b)
    ensures Apart(b, a)
  {
  }

  lemma ToldApart(news: seq<Send>, more: seq<Send>, scope: set<Row>, rest: set<Row>, r: Row)
    requires forall q :: q in Flat(more) ==> q in rest
    requires Apart(scope, rest) && r in scope
    ensures FolderTold(scope + rest, news + more, r) <==> FolderTold(scope, news, r)
    ensures FolderTold(scope + rest, more + news, r) <==> FolderTold(scope, news, r)
  {
    forall q | q in scope
      ensures Covered(news + more, q) <==> Covered(news, q)
      ensures Covered(more + news, q) <==> Covered(news, q)
    {
      CoveredSplits(news, more, q);
      CoveredSplits(more, news, q);
      CoveredIsSent(more, q);
    }
    hide Covered;
    assert forall q :: q in scope + rest && SameFolder(q, r) ==> q in scope;
    assert scope <= scope + rest;
  }

  lemma SendsCompose(j: Journal, t: Journal, u: Journal, news: seq<Send>, more: seq<Send>, scope: set<Row>, rest: set<Row>)
    requires SendsOnce(j, t, news, scope) && SendsOnce(t, u, more, rest) && Apart(scope, rest)
    ensures SendsOnce(j, u, news + more, scope + rest)
  {
    hide WellAddressed;
    FlatDistributes(news, more);
    DistinctJoins(Flat(news), Flat(more));
    assert u.sent == j.sent + (news + more);
  }

  lemma FlipsCompose(j: Journal, t: Journal, u: Journal, news: seq<Send>, more: seq<Send>, scope: set<Row>, rest: set<Row>)
    requires SendsOnce(j, t, news, scope) && SendsOnce(t, u, more, rest) && Apart(scope, rest)
    requires FlipsTheTold(t, news, scope) && FlipsTheTold(u, more, rest) && Counts(t, u, rest)
    ensures FlipsTheTold(u, news + more, scope + rest)
  {
    hide WellAddressed;
    hide FolderTold;
    hide SameFolder;
    forall r | r in scope + rest ensures r.id in u.flipped <==> FolderTold(scope + rest, news + more, r) {
      if r in scope {
        ToldApart(news, more, scope, rest, r);
        assert r.id !in IdsOf(rest);
      } else {
        ApartEitherWay(scope, rest);
        ToldApart(more, news, rest, scope, r);
        assert scope + rest == rest + scope;
      }
    }
  }

  lemma DealsCompose(j: Journal, t: Journal, u: Journal, news: seq<Send>, more: seq<Send>, scope: set<Row>, rest: set<Row>)
    requires Deals(j, t, news, scope) && Deals(t, u, more, rest) && Apart(scope, rest)
    ensures Deals(j, u, news + more, scope + rest)
  {
    SendsCompose(j, t, u, news, more, scope, rest);
    FlipsCompose(j, t, u, news, more, scope, rest);
    hide SendsOnce;
    hide FlipsTheTold;
    assert IdsOf(scope + rest) == IdsOf(scope) + IdsOf(rest);
  }

  lemma DistinctSplits(rows: seq<Row>, n: nat)
    requires Distinct(rows) && n <= |rows|
    ensures Distinct(rows[n..]) && forall r :: r in rows[..n] ==> r !in rows[n..]
  {
  }

  /** A successful call about the first rows, and then calls about the others. */
  lemma OneMoreCall(first: Send, later: seq<Send>, rest: seq<Row>, r: Row)
    requires first.ok && Flat(later) <= rest
    ensures Flat([first] + later) <= first.rows + rest
    ensures Covered([first] + later, r) <==> r in first.rows || Covered(later, r)
  {
    FlatDistributes([first], later);
    assert Flat([first]) == first.rows by { assert [first][1..] == []; }
    CoveredSplits([first], later, r);
    assert r in first.rows ==> [first][0].ok && r in [first][0].rows;
  }

  /** One folder's calls: they cover its rows in order, all of them exactly when none failed. */
  lemma {:induction false} ChunksCover(j: Journal, w: World, a: nat, p: nat, rows: seq<Row>) returns (news: seq<Send>)
    requires Distinct(rows) && forall r :: r in rows ==> r.account == a && r.path == p
    ensures var (t, ok) := MarkChunks(j, w, a, p, rows);
      && t == j.(sent := j.sent + news)
      && (forall s :: s in news ==> WellAddressed(s))
      && Flat(news) <= rows
      && (ok ==> forall r :: r in rows ==> Covered(news, r))
      && (!ok ==> exists r :: r in rows && !Covered(news, r))
    decreases |rows|
  {
    if rows == [] {
      news := [];
      assert j.sent + news == j.sent;
    } else {
      var chunk := FirstChunk(rows);
      var rest := rows[|chunk|..];
      var first := Send(a, p, chunk, w.marks(a, p, chunk));
      DistinctSplits(rows, |chunk|);
      assert rows == chunk + rest;
      if first.ok {
        var later := ChunksCover(j.(sent := j.sent + [first]), w, a, p, rest);
        news := [first] + later;
        assert j.sent + [first] + later == j.sent + news;
        assert WellAddressed(first);
        OneMoreCall(first, later, rest, rows[0]);
        hide MarkChunks;
        hide WellAddressed;
        hide Flat;
        hide Distinct;
        forall r ensures Covered(news, r) <==> r in chunk || Covered(later, r) {
          OneMoreCall(first, later, rest, r);
        }
        hide Covered;
      } else {
        news := [first];
        assert Flat(news) == chunk by { assert [first][1..] == []; }
        assert rows[0] in rows && !Covered(news, rows[0]);
      }
    }
  }

  lemma {:induction false} CountIds(rows: seq<Row>)
    requires Distinct(rows) && UniqueIds(Elements(rows))
    ensures |Ids(rows)| == |rows|
    decreases |rows|
  {
    if rows != [] {
      var front, last := rows[..|rows| - 1], rows[|rows| - 1];
      assert rows == front + [last];
      assert last !in front;
      CountIds(front);
      assert Ids(rows) == Ids(front) + {last.id};
      assert last.id !in Ids(front);
    }
  }

  function AfterFolder(j: Journal, w: World, a: nat, p: nat, folder: seq<Row>): Journal {
    var told := MarkChunks(j, w, a, p, folder);
    if told.1 then Flip(told.0, folder) else told.0
  }

  lemma FolderDeals(j: Journal, w: World, a: nat, p: nat, folder: seq<Row>) returns (news: seq<Send>)
    requires Distinct(folder) && UniqueIds(Elements(folder))
    requires forall r :: r in folder ==> r.account == a && r.path == p
    requires j.flipped !! IdsOf(Elements(folder))
    ensures Deals(j, AfterFolder(j, w, a, p, folder), news, Elements(folder))
  {
    hide MarkChunks;
    hide Covered;
    hide Flat;
    hide WellAddressed;
    hide FolderTold;
    news := ChunksCover(j, w, a, p, folder);
    var told := MarkChunks(j, w, a, p, folder);
    var t := AfterFolder(j, w, a, p, folder);
    assert Ids(folder) == IdsOf(Elements(folder));
    SendsOneFolder(j, t, news, folder);
    FlipsOneFolder(j, t, news, folder, a, p, told.1);
    CountsOneFolder(j, t, folder, told.1);
    hide SendsOnce;
    hide FlipsTheTold;
    hide Counts;
  }

  lemma SendsOneFolder(j: Journal, t: Journal, news: seq<Send>, folder: seq<Row>)
    requires t.sent == j.sent + news && (forall s :: s in news ==> WellAddressed(s))
    requires Distinct(folder) && Flat(news) <= folder
    ensures SendsOnce(j, t, news, Elements(folder))
  {
    hide WellAddressed;
    hide Flat;
    assert Flat(news) == folder[..|Flat(news)|];
  }

  lemma CountsOneFolder(j: Journal, t: Journal, folder: seq<Row>, ok: bool)
    requires Distinct(folder) && UniqueIds(Elements(folder)) && j.flipped !! Ids(folder)
    requires t.flipped == if ok then j.flipped + Ids(folder) else j.flipped
    requires t.updated == if ok then j.updated + |folder| else j.updated
    ensures Counts(j, t, Elements(folder))
  {
    CountIds(folder);
    assert Ids(folder) == IdsOf(Elements(folder));
    assert ok ==> |j.flipped + Ids(folder)| == |j.flipped| + |Ids(folder)|;
  }

  lemma FlipsOneFolder(j: Journal, t: Journal, news: seq<Send>, folder: seq<Row>, a: nat, p: nat, ok: bool)
    requires forall r :: r in folder ==> r.account == a && r.path == p
    requires j.flipped !! Ids(folder) && t.flipped == if ok then j.flipped + Ids(folder) else j.flipped
    requires ok ==> forall r :: r in folder ==> Covered(news, r)
    requires !ok ==> exists r :: r in folder && !Covered(news, r)
    ensures FlipsTheTold(t, news, Elements(folder))
  {
    hide Covered;
    assert forall r :: r in folder ==> r.id in Ids(folder);
    if !ok {
      var q :| q in folder && !Covered(news, q);
      assert forall r :: r in folder ==> SameFolder(q, r);
    }
  }

  function Under(rows: seq<Row>, paths: seq<nat>): set<Row> {
    set r | r in rows && r.path in paths
  }

  lemma {:induction false} FoldersDeal(j: Journal, w: World, a: nat, rows: seq<Row>, paths: seq<nat>) returns (news: seq<Send>)
    requires Distinct(rows) && UniqueIds(Elements(rows)) && Distinct(paths)
    requires forall r :: r in rows ==> r.account == a
    requires j.flipped !! IdsOf(Under(rows, paths))
    ensures Deals(j, MarkFolders(j, w, a, rows, paths), news, Under(rows, paths))
    decreases |paths|
  {
    if paths == [] {
      news := [];
      NothingDone(j, Under(rows, paths));
    } else {
      var p, rest := paths[0], paths[1..];
      var folder := Group(rows, PathOf, p);
      var scope, later := Elements(folder), Under(rows, rest);
      UnderSplits(rows, paths);
      Part(j, j, [], scope, later, Under(rows, paths));
      hide UniqueIds;
      var first := FolderDeals(j, w, a, p, folder);
      var t := AfterFolder(j, w, a, p, folder);
      Part(j, t, first, scope, later, Under(rows, paths));
      hide Deals;
      hide Under;
      hide Apart;
      hide IdsOf;
      var more: seq<Send>;
      if MarkChunks(j, w, a, p, folder).1 {
        more := FoldersDeal(t, w, a, rows, rest);
      } else {
        more := [];
        NothingDone(t, later);
      }
      DealsCompose(j, t, MarkFolders(j, w, a, rows, paths), first, more, scope, later);
      news := first + more;
    }
  }

  lemma UnderSplits(rows: seq<Row>, paths: seq<nat>)
    requires paths != [] && Distinct(paths) && UniqueIds(Elements(rows)) && Distinct(rows)
    requires forall r, q :: r in rows && q in rows ==> r.account == q.account
    ensures var folder, rest := Group(rows, PathOf, paths[0]), paths[1..];
      && Distinct(folder) && UniqueIds(Elements(folder)) && Distinct(rest)
      && (forall r :: r in folder ==> r in rows && r.path == paths[0])
      && Under(rows, paths) == Elements(folder) + Under(rows, rest)
      && Apart(Elements(folder), Under(rows, rest))
  {
    GroupSelects(rows, PathOf, paths[0]);
    assert paths == [paths[0]] + paths[1..] && paths[0] !in paths[1..];
  }

  /** What is flipped after part of a scope keeps clear of the rest of it. */
  lemma Part(j: Journal, t: Journal, news: seq<Send>, scope: set<Row>, later: set<Row>, all: set<Row>)
    requires all == scope + later && Apart(scope, later) && j.flipped !! IdsOf(all)
    requires t == j || Deals(j, t, news, scope)
    ensures j.flipped !! IdsOf(scope) && t.flipped !! IdsOf(later)
  {
    hide SendsOnce;
    hide FlipsTheTold;
    assert IdsOf(all) == IdsOf(scope) + IdsOf(later);
    forall r | r in later ensures r.id !in IdsOf(scope) {
    }
  }

  lemma AccountDeals(j: Journal, w: World, a: nat, rows: seq<Row>) returns (news: seq<Send>)
    requires Distinct(rows) && UniqueIds(Elements(rows))
    requires forall r :: r in rows ==> r.account == a
    requires j.flipped !! IdsOf(Elements(rows))
    ensures Deals(j, MarkAccount(j, w, a, rows).0, news, Elements(rows))
  {
    var renewed := if w.renews(a) then j.(stored := j.flipped) else j;
    if w.connects(a) {
      KeysAreDistinct(rows, PathOf);
      assert Under(rows, Keys(rows, PathOf)) == Elements(rows);
      news := FoldersDeal(renewed, w, a, rows, Keys(rows, PathOf));
    } else {
      news := [];
      NothingDone(renewed, Elements(rows));
    }
  }

  function Of(rows: seq<Row>, accounts: seq<nat>): set<Row> {
    set r | r in rows && r.account in accounts
  }

  lemma {:induction false} AccountsDeal(j: Journal, w: World, rows: seq<Row>, accounts: seq<nat>) returns (news: seq<Send>)
    requires Distinct(rows) && UniqueIds(Elements(rows)) && Distinct(accounts)
    requires j.flipped !! IdsOf(Of(rows, accounts))
    ensures Deals(j, MarkAccounts(j, w, rows, accounts).0, news, Of(rows, accounts))
    decreases |accounts|
  {
    if accounts == [] {
      news := [];
      NothingDone(j, Of(rows, accounts));
    } else {
      var a, rest := accounts[0], accounts[1..];
      var mine := Group(rows, AccountOf, a);
      var scope, later := Elements(mine), Of(rows, rest);
      OfSplits(rows, accounts);
      Part(j, j, [], scope, later, Of(rows, accounts));
      hide UniqueIds;
      var first := AccountDeals(j, w, a, mine);
      var one := MarkAccount(j, w, a, mine);
      Part(j, one.0, first, scope, later, Of(rows, accounts));
      hide Deals;
      hide Of;
      hide Apart;
      hide IdsOf;
      hide MarkAccount;
      var more: seq<Send>;
      if one.1 {
        more := [];
        NothingDone(one.0, later);
      } else {
        more := AccountsDeal(one.0, w, rows, rest);
      }
      DealsCompose(j, one.0, MarkAccounts(j, w, rows, accounts).0, first, more, scope, later);
      news := first + more;
    }
  }

  lemma OfSplits(rows: seq<Row>, accounts: seq<nat>)
    requires accounts != [] && Distinct(accounts) && UniqueIds(Elements(rows)) && Distinct(rows)
    ensures var mine, rest := Group(rows, AccountOf, accounts[0]), accounts[1..];
      && Distinct(mine) && UniqueIds(Elements(mine)) && Distinct(rest)
      && (forall r :: r in mine ==> r in rows && r.account == accounts[0])
      && Of(rows, accounts) == Elements(mine) + Of(rows, rest)
      && Apart(Elements(mine), Of(rows, rest))
  {
    GroupSelects(rows, AccountOf, accounts[0]);
    assert accounts == [accounts[0]] + accounts[1..] && accounts[0] !in accounts[1..];
  }

  lemma RequestDeals(w: World, rows: seq<Row>)
    requires Distinct(rows) && UniqueIds(Elements(rows))
    ensures var j := MarkAccounts(BLANK, w, rows, Keys(rows, AccountOf)).0; Deals(BLANK, j, j.sent, Elements(rows))
  {
    KeysAreDistinct(rows, AccountOf);
    var accounts := Keys(rows, AccountOf);
    assert Of(rows, accounts) == Elements(rows);
    var news := AccountsDeal(BLANK, w, rows, accounts);
    assert BLANK.sent + news == news;
  }

  // ---------------------------------------------------------------- main results

  /** Every row is sent at most once, in calls about one folder of at most two hundred. */
  lemma EachRowIsSentOnce(w: World, rows: seq<Row>)
    requires Distinct(rows) && UniqueIds(Elements(rows))
    ensures var sent := MarkAll(w, rows).journal.sent;
      && Distinct(Flat(sent)) && (forall r :: r in Flat(sent) ==> r in rows)
      && forall s :: s in sent ==> WellAddressed(s)
  {
    hide MarkAccounts;
    hide Keys;
    hide WellAddressed;
    hide FlipsTheTold;
    hide UniqueIds;
    RequestDeals(w, rows);
  }

  /** A row is flipped if, and only if, the server was successfully told about every selected row of its folder;
      the reported count is the number of rows flipped. */
  lemma FlippedExactlyWhenFolderTold(w: World, rows: seq<Row>)
    requires Distinct(rows) && UniqueIds(Elements(rows))
    ensures var j := MarkAll(w, rows).journal;
      && (forall r :: r in rows ==> (r.id in j.flipped <==> FolderTold(Elements(rows), j.sent, r)))
      && j.flipped <= IdsOf(Elements(rows))
      && j.updated == |j.flipped|
  {
    hide MarkAccounts;
    hide Keys;
    hide SendsOnce;
    hide FolderTold;
    hide UniqueIds;
    hide Distinct;
    RequestDeals(w, rows);
    assert BLANK.flipped == {} && BLANK.updated == 0;
  }

  lemma {:induction false} FoldersKeepStored(j: Journal, w: World, a: nat, rows: seq<Row>, paths: seq<nat>)
    ensures MarkFolders(j, w, a, rows, paths).stored == j.stored
    ensures j.flipped <= MarkFolders(j, w, a, rows, paths).flipped
    decreases |paths|
  {
    if paths != [] {
      var folder := Group(rows, PathOf, paths[0]);
      ChunksKeepRows(j, w, a, paths[0], folder);
      var told := MarkChunks(j, w, a, paths[0], folder);
      if told.1 {
        FoldersKeepStored(Flip(told.0, folder), w, a, rows, paths[1..]);
      }
    }
  }

  lemma {:induction false} ChunksKeepRows(j: Journal, w: World, a: nat, p: nat, rows: seq<Row>)
    ensures var t := MarkChunks(j, w, a, p, rows).0;
      t.stored == j.stored && t.flipped == j.flipped && t.updated == j.updated
    decreases |rows|
  {
    if rows != [] {
      var chunk := FirstChunk(rows);
      ChunksKeepRows(j.(sent := j.sent + [Send(a, p, chunk, w.marks(a, p, chunk))]), w, a, p, rows[|chunk|..]);
    }
  }

  lemma {:induction false} StoredIsFlipped(j: Journal, w: World, rows: seq<Row>, accounts: seq<nat>)
    requires j.stored <= j.flipped
    ensures var t := MarkAccounts(j, w, rows, accounts).0; t.stored <= t.flipped
    decreases |accounts|
  {
    if accounts != [] {
      var a := accounts[0];
      var mine := Group(rows, AccountOf, a);
      var renewed := if w.renews(a) then j.(stored := j.flipped) else j;
      FoldersKeepStored(renewed, w, a, mine, Keys(mine, PathOf));
      var one := MarkAccount(j, w, a, mine);
      if !one.1 {
        StoredIsFlipped(one.0, w, rows, accounts[1..]);
      }
    }
  }

  // ---------------------------------------------------------------- what is stored

  /** The account connects and then its logout fails: what aborts a request. */
  predicate Aborts(w: World, a: nat) {
    w.connects(a) && !w.closes(a)
  }

  lemma {:induction false} AccountsAbort(j: Journal, w: World, rows: seq<Row>, accounts: seq<nat>)
    ensures MarkAccounts(j, w, rows, accounts).1 <==> exists a :: a in accounts && Aborts(w, a)
    decreases |accounts|
  {
    if accounts != [] {
      var a, rest := accounts[0], accounts[1..];
      assert accounts == [a] + rest;
      var one := MarkAccount(j, w, a, Group(rows, AccountOf, a));
      hide MarkAccount;
      if Aborts(w, a) {
        assert one.1 by { AbortsAtOnce(j, w, a, Group(rows, AccountOf, a)); }
      } else {
        AbortsAtOnce(j, w, a, Group(rows, AccountOf, a));
        AccountsAbort(one.0, w, rows, rest);
        if b :| b in accounts && Aborts(w, b) {
          assert b in rest;
        }
      }
    }
  }

  lemma AbortsAtOnce(j: Journal, w: World, a: nat, rows: seq<Row>)
    ensures MarkAccount(j, w, a, rows).1 <==> Aborts(w, a)
  {
  }

  /** The request fails if, and only if, the logout fails on an account that connected, or the commit at the end does. */
  lemma OnlyALogoutAborts(w: World, rows: seq<Row>)
    ensures MarkAll(w, rows).Raised? <==>
      !w.saves || exists r :: r in rows && w.connects(r.account) && !w.closes(r.account)
  {
    var accounts := Keys(rows, AccountOf);
    AccountsAbort(BLANK, w, rows, accounts);
    KeysAreDistinct(rows, AccountOf);
    if a :| a in accounts && Aborts(w, a) {
      var r :| r in rows && AccountOf(r) == a;
      assert w.connects(r.account) && !w.closes(r.account);
    }
    if r :| r in rows && w.connects(r.account) && !w.closes(r.account) {
      assert AccountOf(r) in accounts && Aborts(w, AccountOf(r));
    }
  }

  /** The accounts a request gets to: up to the one that aborts it. */
  function Reached(w: World, accounts: seq<nat>): (r: seq<nat>)
    ensures |r| <= |accounts| && r == accounts[..|r|]
    decreases |accounts|
  {
    if accounts == [] then []
    else if Aborts(w, accounts[0]) then [accounts[0]]
    else [accounts[0]] + Reached(w, accounts[1..])
  }

  /** Of these, where the last one stands whose token is renewed, or the number of them if none is. */
  function LastRenewal(w: World, accounts: seq<nat>): (i: nat)
    ensures i <= |accounts|
    ensures i < |accounts| ==> w.renews(accounts[i])
    ensures forall k :: 0 <= k < |accounts| && w.renews(accounts[k]) ==> k <= i < |accounts|
    decreases |accounts|
  {
    if accounts == [] then 0
    else
      var later := LastRenewal(w, accounts[1..]);
      assert forall k :: 0 < k < |accounts| ==> accounts[k] == accounts[1..][k - 1];
      if later < |accounts| - 1 then later + 1
      else if w.renews(accounts[0]) then 0
      else |accounts|
  }

  lemma RenewalStores(j: Journal, w: World, a: nat, mine: seq<Row>)
    ensures MarkAccount(j, w, a, mine).0.stored == if w.renews(a) then j.flipped else j.stored
  {
    FoldersKeepStored(if w.renews(a) then j.(stored := j.flipped) else j, w, a, mine, Keys(mine, PathOf));
  }

  lemma AccountsUnfold(j: Journal, w: World, rows: seq<Row>, accounts: seq<nat>)
    requires accounts != []
    ensures
      var one := MarkAccount(j, w, accounts[0], Group(rows, AccountOf, accounts[0]));
      MarkAccounts(j, w, rows, accounts) ==
        if Aborts(w, accounts[0]) then (one.0, true) else MarkAccounts(one.0, w, rows, accounts[1..])
  {
    AbortsAtOnce(j, w, accounts[0], Group(rows, AccountOf, accounts[0]));
    hide MarkAccount;
    hide Aborts;
    hide Group;
  }

  lemma LastRenewalUnfolds(w: World, a: nat, rest: seq<nat>)
    ensures
      var i, later := LastRenewal(w, [a] + rest), LastRenewal(w, rest);
      i == if later < |rest| then later + 1 else if w.renews(a) then 0 else |rest| + 1
  {
    assert ([a] + rest)[1..] == rest;
  }

  lemma ReachedUnfolds(w: World, accounts: seq<nat>)
    requires accounts != []
    ensures Reached(w, accounts) == [accounts[0]] + if Aborts(w, accounts[0]) then [] else Reached(w, accounts[1..])
  {
  }

  /** The first `i` accounts, `i` counted among all but the first. */
  lemma OneAccountMore(j: Journal, w: World, rows: seq<Row>, accounts: seq<nat>, i: nat)
    requires i < |accounts| && !Aborts(w, accounts[0])
    ensures
      var one := MarkAccount(j, w, accounts[0], Group(rows, AccountOf, accounts[0]));
      MarkAccounts(j, w, rows, accounts[..i + 1]) == MarkAccounts(one.0, w, rows, accounts[1..][..i])
  {
    hide *;
    AccountsUnfold(j, w, rows, accounts[..i + 1]);
    assert accounts[..i + 1][1..] == accounts[1..][..i];
  }

  lemma {:induction false} StoredAsOfRenewal(j: Journal, w: World, rows: seq<Row>, accounts: seq<nat>)
    ensures
      var reached := Reached(w, accounts);
      var i := LastRenewal(w, reached);
      MarkAccounts(j, w, rows, accounts).0.stored ==
        if i < |reached| then MarkAccounts(j, w, rows, accounts[..i]).0.flipped else j.stored
    decreases |accounts|
  {
    if accounts != [] {
      hide *;
      var a, rest := accounts[0], accounts[1..];
      var one := MarkAccount(j, w, a, Group(rows, AccountOf, a)).0;
      var tail := if Aborts(w, a) then [] else Reached(w, rest);
      RenewalStores(j, w, a, Group(rows, AccountOf, a));
      AccountsUnfold(j, w, rows, accounts);
      ReachedUnfolds(w, accounts);
      LastRenewalUnfolds(w, a, tail);
      NoAccounts(j, w, rows, accounts);
      if Aborts(w, a) {
        assert LastRenewal(w, tail) == |tail|;
      } else {
        StoredAsOfRenewal(one, w, rows, rest);
        if LastRenewal(w, tail) < |tail| {
          OneAccountMore(j, w, rows, accounts, LastRenewal(w, tail));
        }
      }
    }
  }

  lemma NoAccounts(j: Journal, w: World, rows: seq<Row>, accounts: seq<nat>)
    ensures MarkAccounts(j, w, rows, accounts[..0]) == (j, false)
  {
  }

  lemma {:induction false} AccountsSplit(j: Journal, w: World, rows: seq<Row>, accounts: seq<nat>, i: nat)
    requires i <= |accounts| && !MarkAccounts(j, w, rows, accounts[..i]).1
    ensures MarkAccounts(j, w, rows, accounts)
         == MarkAccounts(MarkAccounts(j, w, rows, accounts[..i]).0, w, rows, accounts[i..])
    decreases |accounts|
  {
    hide MarkAccount;
    if i == 0 {
      assert accounts[i..] == accounts;
    } else {
      var one := MarkAccount(j, w, accounts[0], Group(rows, AccountOf, accounts[0]));
      assert accounts[..i][1..] == accounts[1..][..i - 1] && accounts[1..][i - 1..] == accounts[i..];
      assert accounts[..i][0] == accounts[0];
      AccountsSplit(one.0, w, rows, accounts[1..], i - 1);
    }
  }

  lemma {:induction false} NoAbortBefore(w: World, accounts: seq<nat>, i: nat)
    requires i < |Reached(w, accounts)|
    ensures forall a :: a in accounts[..i] ==> !Aborts(w, a)
    decreases |accounts|
  {
    if 0 < i {
      NoAbortBefore(w, accounts[1..], i - 1);
      assert accounts[..i] == [accounts[0]] + accounts[1..][..i - 1];
    }
  }

  /** The rows flipped for the first accounts are, in the end, the flipped rows of those accounts. */
  lemma FlippedBefore(w: World, rows: seq<Row>, i: nat)
    requires Distinct(rows) && UniqueIds(Elements(rows))
    requires var accounts := Keys(rows, AccountOf); i < |Reached(w, accounts)|
    ensures
      var accounts := Keys(rows, AccountOf);
      var early, end := MarkAccounts(BLANK, w, rows, accounts[..i]).0, MarkAccounts(BLANK, w, rows, accounts).0;
      early.flipped == set r | r in rows && r.account in accounts[..i] && r.id in end.flipped :: r.id
  {
    KeysAreDistinct(rows, AccountOf);
    var accounts := Keys(rows, AccountOf);
    var before, after := accounts[..i], accounts[i..];
    NoAbortBefore(w, accounts, i);
    AccountsAbort(BLANK, w, rows, before);
    AccountsSplit(BLANK, w, rows, accounts, i);
    var early, end := MarkAccounts(BLANK, w, rows, before).0, MarkAccounts(BLANK, w, rows, accounts).0;
    ApartOnRows(rows, accounts, i);
    var news := AccountsDeal(BLANK, w, rows, before);
    assert early.flipped <= IdsOf(Of(rows, before));
    var more := AccountsDeal(early, w, rows, after);
    hide MarkAccounts;
    hide SendsOnce;
    hide FlipsTheTold;
    forall r | r in rows && r.account in before
      ensures r.id in early.flipped <==> r.id in end.flipped
    {
      assert r in Of(rows, before) && r.id in IdsOf(Of(rows, before));
    }
    forall x | x in early.flipped ensures exists r :: r in rows && r.account in before && r.id == x {
      assert x in IdsOf(Of(rows, before));
    }
  }

  lemma ApartOnRows(rows: seq<Row>, accounts: seq<nat>, i: nat)
    requires Distinct(accounts) && i <= |accounts| && UniqueIds(Elements(rows))
    ensures Distinct(accounts[..i]) && Distinct(accounts[i..])
    ensures IdsOf(Of(rows, accounts[..i])) !! IdsOf(Of(rows, accounts[i..]))
  {
    assert forall k, l :: 0 <= k < i <= l < |accounts| ==> accounts[k] != accounts[l];
    forall a | a in accounts[..i] ensures a !in accounts[i..] {
    }
    forall r, q | r in Of(rows, accounts[..i]) && q in Of(rows, accounts[i..]) ensures r.id != q.id {
      assert r.account != q.account;
      assert r in Elements(rows) && q in Elements(rows);
    }
  }

  /** An aborted request stores exactly the flipped rows of the accounts before the last one it reached whose token was
      renewed, and nothing if none was. */
  lemma AnAbortStoresExactly(w: World, rows: seq<Row>)
    requires Distinct(rows) && UniqueIds(Elements(rows)) && MarkAll(w, rows).Raised?
    ensures
      var j, reached := MarkAll(w, rows).journal, Reached(w, Keys(rows, AccountOf));
      var i := LastRenewal(w, reached);
      j.stored == if i < |reached| then set r | r in rows && r.account in reached[..i] && r.id in j.flipped :: r.id else {}
  {
    var accounts := Keys(rows, AccountOf);
    StoredAsOfRenewal(BLANK, w, rows, accounts);
    var reached := Reached(w, accounts);
    var i := LastRenewal(w, reached);
    if i < |reached| {
      FlippedBefore(w, rows, i);
      assert reached[..i] == accounts[..i];
    }
    hide MarkAccounts;
    hide LastRenewal;
    hide UniqueIds;
  }

  /** The database never says read for a row whose folder was not told, and a request that completes stores all that was
      flipped. */
  lemma StoredNeverRunsAhead(w: World, rows: seq<Row>)
    requires Distinct(rows) && UniqueIds(Elements(rows))
    ensures var outcome := MarkAll(w, rows); var j := outcome.journal;
      && (forall r :: r in rows && r.id in j.stored ==> FolderTold(Elements(rows), j.sent, r))
      && (outcome.Done? ==> j.stored == j.flipped)
  {
    FlippedExactlyWhenFolderTold(w, rows);
    StoredIsFlipped(BLANK, w, rows, Keys(rows, AccountOf));
    hide MarkAccounts;
    hide FolderTold;
    hide UniqueIds;
  }

  // ---------------------------------------------------------------- failures stay where they happen

  /** Only the last call may have failed. */
  ghost predicate UpToFailure(news: seq<Send>, a: nat) {
    && (forall s :: s in news ==> s.account == a)
    && forall i :: 0 <= i < |news| - 1 ==> news[i].ok
  }

  lemma {:induction false} ChunksStop(j: Journal, w: World, a: nat, p: nat, rows: seq<Row>) returns (news: seq<Send>)
    ensures var (t, ok) := MarkChunks(j, w, a, p, rows);
      t.sent == j.sent + news && UpToFailure(news, a) && (ok ==> forall s :: s in news ==> s.ok)
    decreases |rows|
  {
    if rows == [] {
      news := [];
    } else {
      var chunk := FirstChunk(rows);
      var first := Send(a, p, chunk, w.marks(a, p, chunk));
      news := [first];
      if first.ok {
        var later := ChunksStop(j.(sent := j.sent + [first]), w, a, p, rows[|chunk|..]);
        news := [first] + later;
        assert j.sent + [first] + later == j.sent + news;
      }
    }
  }

  lemma {:induction false} FoldersStop(j: Journal, w: World, a: nat, rows: seq<Row>, paths: seq<nat>) returns (news: seq<Send>)
    ensures MarkFolders(j, w, a, rows, paths).sent == j.sent + news && UpToFailure(news, a)
    decreases |paths|
  {
    if paths == [] {
      news := [];
    } else {
      var folder := Group(rows, PathOf, paths[0]);
      news := ChunksStop(j, w, a, paths[0], folder);
      var told := MarkChunks(j, w, a, paths[0], folder);
      if told.1 {
        var later := FoldersStop(Flip(told.0, folder), w, a, rows, paths[1..]);
        assert j.sent + news + later == j.sent + (news + later);
        news := news + later;
      }
    }
  }

  ghost predicate FailureIsLast(sent: seq<Send>) {
    forall i, j :: 0 <= i < j < |sent| && !sent[i].ok ==> sent[j].account != sent[i].account
  }

  lemma {:induction false} AccountsStop(j: Journal, w: World, rows: seq<Row>, accounts: seq<nat>) returns (news: seq<Send>)
    requires Distinct(accounts)
    ensures MarkAccounts(j, w, rows, accounts).0.sent == j.sent + news && FailureIsLast(news)
    ensures forall s :: s in news ==> s.account in accounts
    decreases |accounts|
  {
    news := [];
    if accounts != [] {
      var a := accounts[0];
      var mine := Group(rows, AccountOf, a);
      var renewed := if w.renews(a) then j.(stored := j.flipped) else j;
      if w.connects(a) {
        news := FoldersStop(renewed, w, a, mine, Keys(mine, PathOf));
      }
      var one := MarkAccount(j, w, a, mine);
      assert one.0.sent == j.sent + news;
      if !one.1 {
        var later := AccountsStop(one.0, w, rows, accounts[1..]);
        assert accounts == [a] + accounts[1..] && a !in accounts[1..];
        assert j.sent + news + later == j.sent + (news + later);
        hide MarkAccount;
        hide MarkAccounts;
        FailuresJoin(news, later, a, accounts[1..]);
        news := news + later;
      }
    }
  }

  lemma FailuresJoin(news: seq<Send>, later: seq<Send>, a: nat, others: seq<nat>)
    requires UpToFailure(news, a) && FailureIsLast(later) && a !in others && forall s :: s in later ==> s.account in others
    ensures FailureIsLast(news + later) && forall s :: s in news + later ==> s.account == a || s.account in others
  {
    assert forall k :: 0 <= k < |news| ==> news[k] in news;
    assert forall k :: 0 <= k < |later| ==> later[k] in later;
  }

  /** A failed call is its account's last: the account's remaining chunks and folders are left alone. */
  lemma AFailedCallEndsItsAccount(w: World, rows: seq<Row>)
    ensures FailureIsLast(MarkAll(w, rows).journal.sent)
  {
    KeysAreDistinct(rows, AccountOf);
    var news := AccountsStop(BLANK, w, rows, Keys(rows, AccountOf));
    assert BLANK.sent + news == news;
  }

  ghost predicate Healthy(w: World, a: nat) {
    w.connects(a) && forall p, rows :: w.marks(a, p, rows)
  }

  lemma {:induction false} HealthyChunks(j: Journal, w: World, a: nat, p: nat, rows: seq<Row>)
    requires Healthy(w, a)
    ensures MarkChunks(j, w, a, p, rows).1
    decreases |rows|
  {
    if rows != [] {
      var chunk := FirstChunk(rows);
      HealthyChunks(j.(sent := j.sent + [Send(a, p, chunk, w.marks(a, p, chunk))]), w, a, p, rows[|chunk|..]);
    }
  }

  lemma {:induction false} HealthyFolders(j: Journal, w: World, a: nat, rows: seq<Row>, paths: seq<nat>, r: Row)
    requires Healthy(w, a) && r in rows && r.path in paths
    ensures r.id in MarkFolders(j, w, a, rows, paths).flipped
    decreases |paths|
  {
    var folder := Group(rows, PathOf, paths[0]);
    GroupSelects(rows, PathOf, paths[0]);
    HealthyChunks(j, w, a, paths[0], folder);
    var next := Flip(MarkChunks(j, w, a, paths[0], folder).0, folder);
    if r.path == paths[0] {
      assert r.id in Ids(folder);
      FoldersKeepStored(next, w, a, rows, paths[1..]);
    } else {
      HealthyFolders(next, w, a, rows, paths[1..], r);
    }
  }

  lemma {:induction false} AccountsKeepFlipped(j: Journal, w: World, rows: seq<Row>, accounts: seq<nat>)
    ensures j.flipped <= MarkAccounts(j, w, rows, accounts).0.flipped
    decreases |accounts|
  {
    if accounts != [] {
      var a := accounts[0];
      var mine := Group(rows, AccountOf, a);
      var renewed := if w.renews(a) then j.(stored := j.flipped) else j;
      FoldersKeepStored(renewed, w, a, mine, Keys(mine, PathOf));
      AccountsKeepFlipped(MarkAccount(j, w, a, mine).0, w, rows, accounts[1..]);
    }
  }

  lemma {:induction false} HealthyAccounts(j: Journal, w: World, rows: seq<Row>, accounts: seq<nat>, r: Row)
    requires !MarkAccounts(j, w, rows, accounts).1
    requires Healthy(w, r.account) && r in rows && r.account in accounts
    ensures r.id in MarkAccounts(j, w, rows, accounts).0.flipped
    decreases |accounts|
  {
    var a := accounts[0];
    var mine := Group(rows, AccountOf, a);
    var one := MarkAccount(j, w, a, mine);
    if r.account == a {
      GroupSelects(rows, AccountOf, a);
      KeysAreDistinct(mine, PathOf);
      assert PathOf(r) == r.path;
      var renewed := if w.renews(a) then j.(stored := j.flipped) else j;
      HealthyFolders(renewed, w, a, mine, Keys(mine, PathOf), r);
      AccountsKeepFlipped(one.0, w, rows, accounts[1..]);
    } else {
      HealthyAccounts(one.0, w, rows, accounts[1..], r);
    }
  }

  /** When the request completes, every row of an account whose own connection and calls succeed is stored as
      read, whatever happened to the other accounts. */
  lemma OtherAccountsFailuresDoNotMatter(w: World, rows: seq<Row>, r: Row)
    requires MarkAll(w, rows).Done? && r in rows && Healthy(w, r.account)
    ensures r.id in MarkAll(w, rows).journal.stored
  {
    KeysAreDistinct(rows, AccountOf);
    assert AccountOf(r) == r.account;
    HealthyAccounts(BLANK, w, rows, Keys(rows, AccountOf), r);
  }

  /** The server was told, the logout failed, and nothing was flipped in the database. */
  lemma ALogoutFailureForgets(r: Row, w: World)
    requires !w.renews(r.account) && w.connects(r.account) && w.marks(r.account, r.path, [r]) && !w.closes(r.account)
    ensures MarkAll(w, [r]) == Raised(Journal([Send(r.account, r.path, [r], true)], {r.id}, {}, 1))
  {
    var rows := [r];
    OneGroup(r, AccountOf);
    OneGroup(r, PathOf);
    assert Group(rows, PathOf, r.path) == rows && Group(rows, AccountOf, r.account) == rows;
    var told := BLANK.(sent := [Send(r.account, r.path, rows, true)]);
    assert FirstChunk(rows) == rows && rows[1..] == [];
    assert BLANK.sent + told.sent == told.sent;
    assert MarkChunks(told, w, r.account, r.path, []) == (told, true);
    assert MarkChunks(BLANK, w, r.account, r.path, rows) == MarkChunks(told, w, r.account, r.path, rows[1..]);
    var done := Flip(told, rows);
    assert Ids(rows) == {r.id};
    assert MarkFolders(done, w, r.account, rows, []) == done;
    var paths := [r.path];
    assert paths[0] == r.path && paths[1..] == [];
    assert MarkFolders(BLANK, w, r.account, rows, paths) == MarkFolders(done, w, r.account, rows, paths[1..]);
    assert [r.account][1..] == [];
  }

  lemma OneGroup(r: Row, key: Row -> nat)
    ensures Keys([r], key) == [key(r)] && Group([r], key, key(r)) == [r]
  {
    assert [r][..0] == [];
    assert Keys([], key) == [] && Group([], key, key(r)) == [];
  }
}
