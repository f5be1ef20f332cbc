/**
 Who owns each MySQL connection. A lease is one checkout from the pool, numbered
 in order; it ends with a release or a destroy. Requests are handled one at a
 time, and every call into the driver may fail.
*/
module MysqlPool {
  import opened Wrappers
  import opened Seqs

  type Row = map<string, string>

  /** What conn.query resolved to. */
  datatype QueryResult = QueryThrew | Rows(rows: seq<Row>) | NotRows

  /** What conn.execute resolved to; `NoHeader` is null or undefined. */
  datatype ExecuteResult = ExecuteThrew | NoHeader | Header(affectedRows: Option<int>, insertId: Option<int>)

  /** A request with the outcomes of the driver calls it leads to. */
  datatype Request =
    | Query(txId: Option<string>, connected: bool, queried: QueryResult)
    | Execute(txId: Option<string>, connected: bool, executed: ExecuteResult)
    | Begin(connected: bool, began: bool, newId: string)
    | Commit(id: string, ok: bool)
    | Rollback(id: string, ok: bool)
    | Close(rolledBack: nat -> bool)

  datatype Code = TxNotFound | DbError

  datatype Response =
    | RowData(rows: seq<Row>, count: nat)
    | Counted(affected: int, insertId: Option<int>)
    | Begun(txId: string)
    | Done
    | Failed(code: Code)

  datatype Pool = Pool(
    issued: nat,                      // leases handed out so far
    transactions: map<string, nat>,
    keys: seq<string>,                // the map's insertion order
    disposals: seq<nat>,              // release and destroy calls, in order
    released: set<nat>,
    destroyed: set<nat>,
    failed: set<nat>)                 // leases on which a driver call threw

  // ---------------------------------------------------------------------
  // Pieces of the handlers
  // ---------------------------------------------------------------------

  function Checkout(s: Pool): Pool {
    s.(issued := s.issued + 1)
  }

  function Release(s: Pool, lease: nat): Pool {
    s.(disposals := s.disposals + [lease], released := s.released + {lease})
  }

  function Destroy(s: Pool, lease: nat): Pool {
    s.(disposals := s.disposals + [lease], destroyed := s.destroyed + {lease})
  }

  /** A driver call on the lease threw. */
  function Fail(s: Pool, lease: nat): Pool {
    s.(failed := s.failed + {lease})
  }

  function SetTx(s: Pool, id: string, lease: nat): Pool {
    s.(transactions := s.transactions[id := lease], keys := if id in s.transactions then s.keys else s.keys + [id])
  }

  function DeleteTx(s: Pool, id: string): Pool {
    s.(transactions := s.transactions - {id}, keys := Without(s.keys, id))
  }

  /** `if (req.txId)`: absent and empty ids are both false. */
  predicate InTx(txId: Option<string>) {
    txId.Some? && txId.value != ""
  }

  function RowsOf(r: QueryResult): Response {
    var rows := if r.Rows? then r.rows else [];
    RowData(rows, |rows|)
  }

  function HeaderOf(affectedRows: Option<int>, insertId: Option<int>): Response {
    Counted(if affectedRows.Some? then affectedRows.value else 0,
            if insertId.Some? && insertId.value > 0 then insertId else None)
  }

  // ---------------------------------------------------------------------
  // Handlers
  // ---------------------------------------------------------------------

  function HandleQuery(s: Pool, txId: Option<string>, connected: bool, queried: QueryResult): (Pool, Response) {
    if InTx(txId) then
      if txId.value !in s.transactions then (s, Failed(TxNotFound))
      else
        var lease := s.transactions[txId.value];
        if queried.QueryThrew? then (Destroy(DeleteTx(Fail(s, lease), txId.value), lease), Failed(DbError))
        else (s, RowsOf(queried))
    else if !connected then (s, Failed(DbError))
    else
      var lease, s1 := s.issued, Checkout(s);
      if queried.QueryThrew? then (Destroy(Fail(s1, lease), lease), Failed(DbError))
      else (Release(s1, lease), RowsOf(queried))
  }

  function HandleExecute(s: Pool, txId: Option<string>, connected: bool, executed: ExecuteResult): (Pool, Response) {
    if InTx(txId) then
      if txId.value !in s.transactions then (s, Failed(TxNotFound))
      else
        var lease := s.transactions[txId.value];
        (match executed
         case ExecuteThrew => (Destroy(DeleteTx(Fail(s, lease), txId.value), lease), Failed(DbError))
         case NoHeader => (Destroy(DeleteTx(s, txId.value), lease), Failed(DbError))
         case Header(affectedRows, insertId) => (s, HeaderOf(affectedRows, insertId)))
    else if !connected then (s, Failed(DbError))
    else
      var lease, s1 := s.issued, Checkout(s);
      match executed
      case ExecuteThrew => (Destroy(Fail(s1, lease), lease), Failed(DbError))
      case NoHeader => (Destroy(Release(s1, lease), lease), Failed(DbError))
      case Header(affectedRows, insertId) => (Release(s1, lease), HeaderOf(affectedRows, insertId))
  }

  function HandleBegin(s: Pool, connected: bool, began: bool, id: string): (Pool, Response) {
    if !connected then (s, Failed(DbError))
    else
      var lease, s1 := s.issued, Checkout(s);
      if began then (SetTx(s1, id, lease), Begun(id))
      else (Destroy(Fail(s1, lease), lease), Failed(DbError))
  }

  /** handleCommit and handleRollback differ only in the driver call they make. */
  function HandleEnd(s: Pool, id: string, ok: bool): (Pool, Response) {
    if id !in s.transactions then (s, Failed(TxNotFound))
    else
      var lease, s1 := s.transactions[id], DeleteTx(s, id);
      if ok then (Release(s1, lease), Done) else (Destroy(Fail(s1, lease), lease), Failed(DbError))
  }

  function EndLease(s: Pool, lease: nat, ok: bool): Pool {
    if ok then Release(s, lease) else Destroy(Fail(s, lease), lease)
  }

  /** The loop of handleClose over the first n transactions. */
  function EndAll(s: Pool, rolledBack: nat -> bool, n: nat): (t: Pool)
    requires n <= |s.keys| && forall k :: k in s.keys ==> k in s.transactions
    ensures t.transactions == s.transactions && t.keys == s.keys && t.issued == s.issued
  {
    if n == 0 then s
    else
      var lease := s.transactions[s.keys[n - 1]];
      EndLease(EndAll(s, rolledBack, n - 1), lease, rolledBack(lease))
  }

  function HandleClose(s: Pool, rolledBack: nat -> bool): (Pool, Response)
    requires forall k :: k in s.keys ==> k in s.transactions
  {
    (EndAll(s, rolledBack, |s.keys|).(transactions := map[], keys := []), Done)
  }

  /** `keys` lists the transactions, each once. */
  ghost predicate Keyed(s: Pool) {
    NoDup(s.keys) && forall k :: k in s.keys <==> k in s.transactions
  }

  function Handle(s: Pool, r: Request): (Pool, Response)
    requires forall k :: k in s.keys ==> k in s.transactions
  {
    match r
    case Query(txId, connected, queried) => HandleQuery(s, txId, connected, queried)
    case Execute(txId, connected, executed) => HandleExecute(s, txId, connected, executed)
    case Begin(connected, began, newId) => HandleBegin(s, connected, began, newId)
    case Commit(id, ok) => HandleEnd(s, id, ok)
    case Rollback(id, ok) => HandleEnd(s, id, ok)
    case Close(rolledBack) => HandleClose(s, rolledBack)
  }

  const Initial := Pool(0, map[], [], [], {}, {}, {})

  // ---------------------------------------------------------------------
  // Ownership
  // ---------------------------------------------------------------------

  /** The leases checked out are exactly the distinct values of `transactions`. */
  ghost predicate Owns(transactions: map<string, nat>, issued: nat, disposals: seq<nat>) {
    && (forall k :: k in transactions ==> transactions[k] < issued && transactions[k] !in disposals)
    && (forall k1, k2 :: k1 in transactions && k2 in transactions && k1 != k2 ==> transactions[k1] != transactions[k2])
    && (forall lease: nat :: lease < issued && lease !in disposals ==> Held(transactions, lease))
    && (forall lease :: lease in disposals ==> lease < issued)
  }

  ghost predicate Held(transactions: map<string, nat>, lease: nat) {
    exists k :: k in transactions && transactions[k] == lease
  }

  ghost predicate Owned(s: Pool) {
    Owns(s.transactions, s.issued, s.disposals)
  }

  /** The state as far as disposals go. */
  function Disposal(s: Pool): (seq<nat>, set<nat>, set<nat>, set<nat>) {
    (s.disposals, s.released, s.destroyed, s.failed)
  }

  /** A lease on which a driver call threw is destroyed and never released. */
  ghost predicate FailuresDestroyed(s: Pool) {
    && s.failed !! s.released && s.failed <= s.destroyed
    && (forall lease :: lease in s.disposals <==> lease in s.released || lease in s.destroyed)
  }

  /** One-shot execute whose driver result has no header: released, then converting the result throws. */
  predicate Headless(r: Request) {
    r.Execute? && !InTx(r.txId) && r.connected && r.executed.NoHeader?
  }

  /** Begin drew an id that is already in use. */
  predicate Collides(s: Pool, r: Request) {
    r.Begin? && r.connected && r.began && r.newId in s.transactions
  }

  // ---------------------------------------------------------------------
  // What one request keeps
  // ---------------------------------------------------------------------

  lemma DeleteKeyed(s: Pool, id: string)
    requires Keyed(s)
    ensures Keyed(DeleteTx(s, id))
  {
    WithoutOne(s.keys, id);
  }

  lemma KeyedKept(s: Pool, r: Request)
    requires Keyed(s)
    ensures Keyed(Handle(s, r).0)
  {
    match r
    case Query(Some(id), _, _) => DeleteKeyed(s, id);
    case Execute(Some(id), _, _) => DeleteKeyed(s, id);
    case Commit(id, _) => DeleteKeyed(s, id);
    case Rollback(id, _) => DeleteKeyed(s, id);
    case _ =>
  }

  function Leases(s: Pool, n: nat): seq<nat>
    requires n <= |s.keys| && forall k :: k in s.keys ==> k in s.transactions
  {
    seq(n, i requires 0 <= i < n => s.transactions[s.keys[i]])
  }

  /** Close disposes of the transactions' leases, oldest transaction first. */
  lemma {:induction false} EndAllDisposes(s: Pool, rolledBack: nat -> bool, n: nat)
    requires n <= |s.keys| && forall k :: k in s.keys ==> k in s.transactions
    ensures EndAll(s, rolledBack, n).disposals == s.disposals + Leases(s, n)
  {
    if n > 0 {
      EndAllDisposes(s, rolledBack, n - 1);
      assert Leases(s, n) == Leases(s, n - 1) + [s.transactions[s.keys[n - 1]]];
    }
  }

  /** Ending a transaction hands its lease back, so the rest stay owned. */
  lemma EndOwned(transactions: map<string, nat>, issued: nat, disposals: seq<nat>, id: string)
    requires Owns(transactions, issued, disposals) && id in transactions
    ensures Owns(transactions - {id}, issued, disposals + [transactions[id]])
  {
    forall l: nat | l < issued && l !in disposals + [transactions[id]] ensures Held(transactions - {id}, l) {
      assert l !in disposals && l != transactions[id];
      var k :| k in transactions && transactions[k] == l;
      assert k in transactions - {id};
    }
  }

  /** A lease taken and disposed of within one request leaves the others as they were. */
  lemma OneShotOwned(transactions: map<string, nat>, issued: nat, disposals: seq<nat>, more: seq<nat>)
    requires Owns(transactions, issued, disposals) && more != [] && forall l :: l in more ==> l == issued
    ensures Owns(transactions, issued + 1, disposals + more)
  {
    assert more[0] in more;
    forall l: nat | l < issued + 1 && l !in disposals + more ensures Held(transactions, l) {
      assert l !in disposals && l != issued;
    }
  }

  lemma BeginOwned(transactions: map<string, nat>, issued: nat, disposals: seq<nat>, id: string)
    requires Owns(transactions, issued, disposals)
    ensures Owns(transactions[id := issued], issued + 1, disposals) <==> id !in transactions
  {
    var after := transactions[id := issued];
    if id !in transactions {
      forall l: nat | l < issued + 1 && l !in disposals ensures Held(after, l) {
        if l < issued {
          var k :| k in transactions && transactions[k] == l;
          assert k in after;
        } else {
          assert id in after;
        }
      }
    } else {
      assert !Held(after, transactions[id]);
    }
  }

  lemma CloseOwned(s: Pool, rolledBack: nat -> bool)
    requires Owned(s) && Keyed(s)
    ensures Owned(HandleClose(s, rolledBack).0)
    ensures forall lease: nat :: lease < s.issued ==> lease in HandleClose(s, rolledBack).0.disposals
  {
    EndAllDisposes(s, rolledBack, |s.keys|);
    var t, leases := HandleClose(s, rolledBack).0, Leases(s, |s.keys|);
    assert t.disposals == s.disposals + leases;
    forall lease: nat | lease < s.issued ensures lease in t.disposals {
      if lease !in s.disposals {
        assert Held(s.transactions, lease);
        var k :| k in s.transactions && s.transactions[k] == lease;
        var i :| 0 <= i < |s.keys| && s.keys[i] == k;
        assert leases[i] == lease;
      }
    }
  }

  lemma QueryOwned(s: Pool, txId: Option<string>, connected: bool, queried: QueryResult)
    requires Owned(s)
    ensures Owned(HandleQuery(s, txId, connected, queried).0)
  {
    hide Owns, Without;
    if InTx(txId) {
      if txId.value in s.transactions {
        EndOwned(s.transactions, s.issued, s.disposals, txId.value);
      }
    } else {
      OneShotOwned(s.transactions, s.issued, s.disposals, [s.issued]);
    }
  }

  lemma ExecuteOwned(s: Pool, txId: Option<string>, connected: bool, executed: ExecuteResult)
    requires Owned(s)
    ensures Owned(HandleExecute(s, txId, connected, executed).0)
  {
    hide Owns, Without;
    if InTx(txId) {
      if txId.value in s.transactions {
        EndOwned(s.transactions, s.issued, s.disposals, txId.value);
      }
    } else {
      OneShotOwned(s.transactions, s.issued, s.disposals, [s.issued]);
      OneShotOwned(s.transactions, s.issued, s.disposals, [s.issued, s.issued]);
      assert s.disposals + [s.issued] + [s.issued] == s.disposals + [s.issued, s.issued];
    }
  }

  lemma EndedOwned(s: Pool, id: string, ok: bool)
    requires Owned(s)
    ensures Owned(HandleEnd(s, id, ok).0)
  {
    hide Owns, Without;
    if id in s.transactions {
      EndOwned(s.transactions, s.issued, s.disposals, id);
    }
  }

  lemma BegunOwned(s: Pool, connected: bool, began: bool, id: string)
    requires Owned(s)
    ensures Owned(HandleBegin(s, connected, began, id).0) <==> !(connected && began && id in s.transactions)
  {
    hide Owns;
    OneShotOwned(s.transactions, s.issued, s.disposals, [s.issued]);
    BeginOwned(s.transactions, s.issued, s.disposals, id);
  }

  /** After a request the leases checked out are again exactly the values of `transactions`, unless Begin reused an id. */
  lemma OwnedKept(s: Pool, r: Request)
    requires Owned(s) && Keyed(s)
    ensures Owned(Handle(s, r).0) <==> !Collides(s, r)
  {
    hide Owned, HandleQuery, HandleExecute, HandleEnd, HandleBegin, HandleClose;
    match r
    case Query(txId, connected, queried) => QueryOwned(s, txId, connected, queried);
    case Execute(txId, connected, executed) => ExecuteOwned(s, txId, connected, executed);
    case Begin(connected, began, id) => BegunOwned(s, connected, began, id);
    case Commit(id, ok) => EndedOwned(s, id, ok);
    case Rollback(id, ok) => EndedOwned(s, id, ok);
    case Close(rolledBack) => CloseOwned(s, rolledBack);
  }

  lemma DisposedOf(s: Pool, lease: nat)
    requires FailuresDestroyed(s) && lease !in s.disposals
    ensures FailuresDestroyed(Release(s, lease))
    ensures FailuresDestroyed(Destroy(s, lease))
    ensures FailuresDestroyed(Destroy(Fail(s, lease), lease))
    ensures FailuresDestroyed(Destroy(Release(s, lease), lease))
  {
  }

  lemma SameDisposal(s: Pool, t: Pool)
    requires Disposal(s) == Disposal(t)
    ensures FailuresDestroyed(s) <==> FailuresDestroyed(t)
  {
  }

  /** Close meets each lease once. */
  lemma NextLease(s: Pool, n: nat)
    requires n < |s.keys| && Keyed(s) && Owned(s)
    ensures s.transactions[s.keys[n]] !in s.disposals + Leases(s, n)
  {
    assert s.keys[n] in s.transactions;
    assert forall i :: 0 <= i < n ==> s.keys[i] in s.transactions && Leases(s, n)[i] == s.transactions[s.keys[i]];
  }

  lemma KeyedHas(s: Pool)
    ensures Keyed(s) ==> forall k :: k in s.keys ==> k in s.transactions
  {
  }

  lemma {:induction false} EndAllFailures(s: Pool, rolledBack: nat -> bool, n: nat)
    requires n <= |s.keys| && Keyed(s) && Owned(s) && FailuresDestroyed(s)
    ensures FailuresDestroyed(EndAll(s, rolledBack, n))
  {
    hide FailuresDestroyed, Owned, Keyed, Leases;
    KeyedHas(s);
    if n > 0 {
      EndAllFailures(s, rolledBack, n - 1);
      EndAllDisposes(s, rolledBack, n - 1);
      NextLease(s, n - 1);
      var before, lease := EndAll(s, rolledBack, n - 1), s.transactions[s.keys[n - 1]];
      DisposedOf(before, lease);
    }
  }

  /** Any other request disposes of at most one lease, and only a headless execute does so twice. */
  lemma OneDisposal(s: Pool, r: Request) returns (lease: nat)
    requires Keyed(s) && Owned(s) && !r.Close?
    ensures lease !in s.disposals
    ensures var t := Disposal(Handle(s, r).0);
            if Headless(r) then t == Disposal(Destroy(Release(s, lease), lease))
            else t in {Disposal(s), Disposal(Release(s, lease)), Disposal(Destroy(s, lease)), Disposal(Destroy(Fail(s, lease), lease))}
  {
    lease := s.issued;
    assert lease !in s.disposals;
    var id := match r
      case Query(Some(id), _, _) => id
      case Execute(Some(id), _, _) => id
      case Commit(id, _) => id
      case Rollback(id, _) => id
      case _ => "";
    if (InTx(Some(id)) || r.Commit? || r.Rollback?) && id in s.transactions {
      lease := s.transactions[id];
    }
  }

  /** Whatever fails during the request is destroyed and not released, then or ever. */
  lemma FailuresKept(s: Pool, r: Request)
    requires Keyed(s) && Owned(s) && FailuresDestroyed(s)
    ensures FailuresDestroyed(Handle(s, r).0)
  {
    if r.Close? {
      EndAllFailures(s, r.rolledBack, |s.keys|);
    } else {
      var lease := OneDisposal(s, r);
      DisposedOf(s, lease);
      var t := Handle(s, r).0;
      hide Handle, Owned, Keyed, FailuresDestroyed;
      if Disposal(t) == Disposal(s) {
        SameDisposal(s, t);
      } else if Disposal(t) == Disposal(Release(s, lease)) {
        SameDisposal(Release(s, lease), t);
      } else if Disposal(t) == Disposal(Destroy(s, lease)) {
        SameDisposal(Destroy(s, lease), t);
      } else if Disposal(t) == Disposal(Destroy(Fail(s, lease), lease)) {
        SameDisposal(Destroy(Fail(s, lease), lease), t);
      } else {
        SameDisposal(Destroy(Release(s, lease), lease), t);
      }
    }
  }

  lemma Appended(disposals: seq<nat>, lease: nat)
    requires lease !in disposals
    ensures NoDup(disposals + [lease]) <==> NoDup(disposals)
    ensures !NoDup(disposals + [lease] + [lease])
  {
    var more := disposals + [lease];
    assert NoDup(more) ==> NoDup(disposals) by {
      assert forall i :: 0 <= i < |disposals| ==> more[i] == disposals[i];
    }
    var twice := more + [lease];
    assert twice[|disposals|] == twice[|disposals| + 1];
  }

  lemma {:induction false} EndAllOnce(s: Pool, rolledBack: nat -> bool, n: nat)
    requires n <= |s.keys| && Keyed(s) && Owned(s)
    ensures NoDup(EndAll(s, rolledBack, n).disposals) <==> NoDup(s.disposals)
  {
    hide NoDup, Owned, Keyed, Leases;
    KeyedHas(s);
    if n > 0 {
      EndAllOnce(s, rolledBack, n - 1);
      EndAllDisposes(s, rolledBack, n - 1);
      NextLease(s, n - 1);
      var before, lease := EndAll(s, rolledBack, n - 1).disposals, s.transactions[s.keys[n - 1]];
      assert EndAll(s, rolledBack, n).disposals == before + [lease];
      Appended(before, lease);
    }
  }

  /** No lease is disposed of twice by a request unless it is a one-shot execute whose result has no header. */
  lemma OnceKept(s: Pool, r: Request)
    requires Keyed(s) && Owned(s)
    ensures NoDup(Handle(s, r).0.disposals) <==> NoDup(s.disposals) && !Headless(r)
  {
    if r.Close? {
      EndAllOnce(s, r.rolledBack, |s.keys|);
    } else {
      var lease := OneDisposal(s, r);
      hide NoDup, Handle, Owned, Keyed, Headless;
      Appended(s.disposals, lease);
    }
  }

  /** What every request keeps. */
  ghost predicate Sound(s: Pool) {
    Keyed(s) && Owned(s) && FailuresDestroyed(s)
  }

  lemma RequestKeeps(s: Pool, r: Request)
    requires Sound(s)
    ensures var t := Handle(s, r).0;
            && (Sound(t) <==> !Collides(s, r))
            && (NoDup(t.disposals) <==> NoDup(s.disposals) && !Headless(r))
  {
    KeyedKept(s, r);
    OwnedKept(s, r);
    FailuresKept(s, r);
    OnceKept(s, r);
    hide Keyed, Owned, FailuresDestroyed, Handle, NoDup, Headless, Collides;
  }

  /** A failed statement ends the transaction it was part of, an unknown one changes nothing. */
  lemma FailedStatement(s: Pool, r: Request)
    requires Keyed(s) && (r.Query? || r.Execute?) && Handle(s, r).1.Failed?
    ensures InTx(r.txId) ==> r.txId.value !in Handle(s, r).0.transactions
    ensures !InTx(r.txId) ==> Handle(s, r).0.transactions == s.transactions
  {
    hide Without;
  }

  // ---------------------------------------------------------------------
  // Whole runs
  // ---------------------------------------------------------------------

  ghost function Run(s: Pool, rs: seq<Request>): Pool
    requires Keyed(s)
    decreases |rs|
  {
    if rs == [] then s else
      KeyedKept(s, rs[0]);
      Run(Handle(s, rs[0]).0, rs[1..])
  }

  /** Begin never draws an id that is in use. */
  ghost predicate FreshIds(s: Pool, rs: seq<Request>)
    requires Keyed(s)
    decreases |rs|
  {
    if rs == [] then true else
      KeyedKept(s, rs[0]);
      !Collides(s, rs[0]) && FreshIds(Handle(s, rs[0]).0, rs[1..])
  }

  lemma {:induction false} RunKeeps(s: Pool, rs: seq<Request>)
    requires Keyed(s) && Owned(s) && FailuresDestroyed(s) && FreshIds(s, rs)
    ensures var t := Run(s, rs);
            && Keyed(t) && Owned(t) && FailuresDestroyed(t)
            && (NoDup(t.disposals) <==> NoDup(s.disposals) && forall r :: r in rs ==> !Headless(r))
    decreases |rs|
  {
    if rs != [] {
      var t := Handle(s, rs[0]).0;
      KeyedKept(s, rs[0]);
      OwnedKept(s, rs[0]);
      FailuresKept(s, rs[0]);
      OnceKept(s, rs[0]);
      hide NoDup, Handle, Owned, Keyed, FailuresDestroyed, Headless, Collides;
      RunKeeps(t, rs[1..]);
      assert forall r :: r in rs <==> r == rs[0] || r in rs[1..];
    }
  }

  /**
   Over every run of requests, whatever the driver does: the connections checked
   out are exactly those of open transactions; a connection on which a call
   failed was destroyed and not released; and each is disposed of at most once
   if and only if no one-shot execute resolved without a header.
  */
  lemma ConnectionsAccounted(rs: seq<Request>)
    requires FreshIds(Initial, rs)
    ensures var t := Run(Initial, rs);
            && Owned(t)
            && (forall lease :: lease in t.failed ==> lease in t.destroyed && lease !in t.released)
            && (NoDup(t.disposals) <==> forall r :: r in rs ==> !Headless(r))
  {
    RunKeeps(Initial, rs);
  }

  lemma {:induction false} EndAllFates(s: Pool, rolledBack: nat -> bool, n: nat, lease: nat)
    requires n <= |s.keys| && Keyed(s)
    ensures var t, ended := EndAll(s, rolledBack, n), lease in Leases(s, n);
            && (lease in t.released <==> lease in s.released || (ended && rolledBack(lease)))
            && (lease in t.destroyed <==> lease in s.destroyed || (ended && !rolledBack(lease)))
            && (lease in t.failed <==> lease in s.failed || (ended && !rolledBack(lease)))
  {
    if n > 0 {
      EndAllFates(s, rolledBack, n - 1, lease);
      assert Leases(s, n) == Leases(s, n - 1) + [s.transactions[s.keys[n - 1]]];
    }
  }

  lemma HeldIsListed(s: Pool, lease: nat)
    requires Keyed(s)
    ensures lease in Leases(s, |s.keys|) <==> Held(s.transactions, lease)
  {
    if Held(s.transactions, lease) {
      var k :| k in s.transactions && s.transactions[k] == lease;
      var i :| 0 <= i < |s.keys| && s.keys[i] == k;
      assert Leases(s, |s.keys|)[i] == lease;
    }
  }

  /** On close a transaction's connection is released if its rollback succeeded and destroyed if it threw; others keep their fate. */
  lemma CloseFates(s: Pool, rolledBack: nat -> bool, lease: nat)
    requires Sound(s)
    ensures var t := Handle(s, Close(rolledBack)).0;
            if Held(s.transactions, lease) then
              && (lease in t.released <==> rolledBack(lease))
              && (lease in t.destroyed <==> !rolledBack(lease)) && (lease in t.failed <==> !rolledBack(lease))
            else
              && (lease in t.released <==> lease in s.released)
              && (lease in t.destroyed <==> lease in s.destroyed) && (lease in t.failed <==> lease in s.failed)
  {
    EndAllFates(s, rolledBack, |s.keys|, lease);
    HeldIsListed(s, lease);
    if Held(s.transactions, lease) {
      var k :| k in s.transactions && s.transactions[k] == lease;
      assert lease !in s.disposals;
    }
  }

  /** Close leaves no connection checked out and no transaction open. */
  lemma CloseLeavesNone(s: Pool, rolledBack: nat -> bool, lease: nat)
    requires Keyed(s) && Owned(s) && lease < s.issued
    ensures lease in Handle(s, Close(rolledBack)).0.disposals && Handle(s, Close(rolledBack)).0.transactions == map[]
  {
    CloseOwned(s, rolledBack);
  }

  /** The lease a headless one-shot execute took is released and then destroyed. */
  lemma HeadlessDisposesTwice(s: Pool, r: Request)
    requires Keyed(s) && Headless(r)
    ensures Handle(s, r) == (Destroy(Release(Checkout(s), s.issued), s.issued), Failed(DbError))
    ensures Handle(s, r).0.disposals == s.disposals + [s.issued, s.issued]
  {
  }

  /** A failed statement ends its transaction, and later requests for it are told so. */
  lemma FailedTransactionIsGone(s: Pool, r: Request, id: string)
    requires Keyed(s) && id != "" && (r.Query? || r.Execute?) && r.txId == Some(id)
    requires Handle(s, r).1.Failed?
    ensures var t := Handle(s, r).0;
            id !in t.transactions && forall ok :: Keyed(t) ==> Handle(t, Commit(id, ok)) == (t, Failed(TxNotFound))
  {
  }

  /** What the answer tells: success never destroys a connection, a database error never releases one unless headless. */
  lemma AnswerTells(s: Pool, r: Request)
    requires Keyed(s) && !r.Close?
    ensures var (t, answer) := Handle(s, r);
            && (answer == Failed(TxNotFound) ==> t == s)
            && (!answer.Failed? ==> t.destroyed == s.destroyed && t.failed == s.failed)
            && (answer == Failed(DbError) ==> t.released == s.released || Headless(r))
            && (answer.Done? ==> t.disposals == s.disposals + [s.transactions[r.id]] && t.released == s.released + {s.transactions[r.id]})
  {
    hide Without;
  }

  /** Which statement results are answers: rows, and headers. */
  predicate Yields(r: Request) {
    (r.Query? && !r.queried.QueryThrew?) || (r.Execute? && r.executed.Header?)
  }

  /** A statement that reaches the driver answers with what the driver gave: the rows and their count, or the numbers of the header. */
  lemma StatementAnswers(s: Pool, r: Request)
    requires Keyed(s) && (r.Query? || r.Execute?)
    ensures var answer, reached := Handle(s, r).1, if InTx(r.txId) then r.txId.value in s.transactions else r.connected;
            && (answer == Failed(TxNotFound) <==> InTx(r.txId) && r.txId.value !in s.transactions)
            && (answer == Failed(DbError) <==> if InTx(r.txId) then reached && !Yields(r) else !reached || !Yields(r))
            && (reached && r.Query? && r.queried.Rows? ==> answer == RowData(r.queried.rows, |r.queried.rows|))
            && (reached && r.Query? && r.queried.NotRows? ==> answer == RowData([], 0))
            && (reached && r.Execute? && r.executed.Header? ==>
                  && answer.Counted?
                  && (r.executed.affectedRows == Some(answer.affected) || (r.executed.affectedRows == None && answer.affected == 0))
                  && (answer.insertId.Some? <==> r.executed.insertId.Some? && r.executed.insertId.value > 0)
                  && (answer.insertId.Some? ==> answer.insertId == r.executed.insertId))
  {
  }

  /** A connection counts as failed exactly when the statement's own driver call threw on it. */
  lemma StatementFailures(s: Pool, r: Request)
    requires Keyed(s) && (r.Query? || r.Execute?)
    ensures var t, threw := Handle(s, r).0, if r.Query? then r.queried.QueryThrew? else r.executed.ExecuteThrew?;
            t.failed ==
            if InTx(r.txId) then
              s.failed + if r.txId.value in s.transactions && threw then {s.transactions[r.txId.value]} else {}
            else s.failed + if r.connected && threw then {s.issued} else {}
  {
  }

  /** Inside a transaction the connection stays with it while statements succeed; outside each takes one and gives it back. */
  lemma StatementEffect(s: Pool, r: Request)
    requires Keyed(s) && (r.Query? || r.Execute?)
    ensures var t := Handle(s, r).0;
            if InTx(r.txId) then
              if r.txId.value !in s.transactions || Yields(r) then t == s
              else
                && t.issued == s.issued && t.transactions == s.transactions - {r.txId.value} && t.released == s.released
                && t.destroyed == s.destroyed + {s.transactions[r.txId.value]}
            else if !r.connected then t == s
            else
              && t.issued == s.issued + 1 && t.transactions == s.transactions
              && (Yields(r) ==> t.released == s.released + {s.issued} && t.destroyed == s.destroyed)
              && (!Yields(r) ==> t.destroyed == s.destroyed + {s.issued} && (t.released == s.released || Headless(r)))
  {
  }

  /**
   Begin holds a new connection under the id it drew; commit and rollback give
   the transaction's connection back, or destroy it when they throw.
  */
  lemma TransactionEffect(s: Pool, r: Request)
    requires Keyed(s) && (r.Begin? || r.Commit? || r.Rollback?)
    ensures var (t, answer) := Handle(s, r);
            if r.Begin? then
              if !r.connected then t == s && answer == Failed(DbError)
              else
                && t.issued == s.issued + 1 && t.released == s.released
                && (r.began ==> answer == Begun(r.newId) && t.transactions == s.transactions[r.newId := s.issued] && t.destroyed == s.destroyed)
                && (r.began && r.newId !in s.transactions ==> t.keys == s.keys + [r.newId])
                && (!r.began ==> answer == Failed(DbError) && t.transactions == s.transactions && t.destroyed == s.destroyed + {s.issued})
            else if r.id !in s.transactions then t == s && answer == Failed(TxNotFound)
            else
              && t.issued == s.issued && t.transactions == s.transactions - {r.id}
              && (r.ok ==> answer == Done && t.released == s.released + {s.transactions[r.id]} && t.destroyed == s.destroyed)
              && (!r.ok ==> answer == Failed(DbError) && t.destroyed == s.destroyed + {s.transactions[r.id]} && t.released == s.released)
  {
  }
}
