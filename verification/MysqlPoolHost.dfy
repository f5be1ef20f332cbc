/** The request handlers of the MySQL worker, updating its transaction map and the leases' fates. */
module MysqlPoolHost {
  import opened Wrappers
  import opened Seqs
  import opened MysqlPool

  class MysqlWorker {
    var issued: nat
    var transactions: map<string, nat>
    var keys: seq<string>
    ghost var disposals: seq<nat>
    ghost var released: set<nat>
    ghost var destroyed: set<nat>
    ghost var failed: set<nat>

    ghost function Model(): Pool
      reads this
    {
      Pool(issued, transactions, keys, disposals, released, destroyed, failed)
    }

    /** The connections checked out are those of the open transactions, and no failed one was released. */
    ghost predicate Valid()
      reads this
    {
      Sound(Model())
    }

    constructor ()
      ensures Model() == Initial && Valid()
    {
      issued, transactions, keys := 0, map[], [];
      disposals, released, destroyed, failed := [], {}, {}, {};
    }

    /** pool.getConnection(), when it resolves. */
    method GetConnection() returns (conn: nat)
      modifies this`issued
      ensures Model() == Checkout(old(Model())) && conn == old(issued)
    {
      conn := issued;
      issued := issued + 1;
    }

    method SafeRelease(conn: nat)
      modifies this`disposals, this`released
      ensures Model() == Release(old(Model()), conn)
    {
      disposals := disposals + [conn];
      released := released + {conn};
    }

    method SafeDestroy(conn: nat)
      modifies this`disposals, this`destroyed
      ensures Model() == Destroy(old(Model()), conn)
    {
      disposals := disposals + [conn];
      destroyed := destroyed + {conn};
    }

    ghost method Threw(conn: nat)
      modifies this`failed
      ensures Model() == Fail(old(Model()), conn)
    {
      failed := failed + {conn};
    }

    method SetTransaction(id: string, conn: nat)
      modifies this`transactions, this`keys
      ensures Model() == SetTx(old(Model()), id, conn)
    {
      if id !in transactions {
        keys := keys + [id];
      }
      transactions := transactions[id := conn];
    }

    method DeleteTransaction(id: string)
      modifies this`transactions, this`keys
      ensures Model() == DeleteTx(old(Model()), id)
    {
      transactions := transactions - {id};
      keys := Without(keys, id);
    }

    method Query(txId: Option<string>, connected: bool, queried: QueryResult) returns (r: Response)
      requires Valid()
      modifies this
      ensures (Model(), r) == HandleQuery(old(Model()), txId, connected, queried)
      ensures Valid() && (NoDup(disposals) <==> NoDup(old(disposals)))
      ensures r.RowData? ==> destroyed == old(destroyed) && failed == old(failed) && transactions == old(transactions)
      ensures r == Failed(DbError) ==> released == old(released)
      ensures r.Failed? && InTx(txId) ==> txId.value !in transactions
    {
      ghost var request := Request.Query(txId, connected, queried);
      RequestKeeps(Model(), request);
      AnswerTells(Model(), request);
      if Handle(Model(), request).1.Failed? { FailedStatement(Model(), request); }
      hide Without, Sound, NoDup;
      if InTx(txId) {
        if txId.value !in transactions {
          return Failed(TxNotFound);
        }
        var conn := transactions[txId.value];
        if queried.QueryThrew? {
          Threw(conn);
          DeleteTransaction(txId.value);
          SafeDestroy(conn);
          return Failed(DbError);
        }
        return RowsOf(queried);
      }
      if !connected {
        return Failed(DbError);
      }
      var conn := GetConnection();
      if queried.QueryThrew? {
        Threw(conn);
        SafeDestroy(conn);
        return Failed(DbError);
      }
      SafeRelease(conn);
      return RowsOf(queried);
    }

    method Execute(txId: Option<string>, connected: bool, executed: ExecuteResult) returns (r: Response)
      requires Valid()
      modifies this
      ensures (Model(), r) == HandleExecute(old(Model()), txId, connected, executed)
      ensures Valid() && (NoDup(disposals) <==> NoDup(old(disposals)) && !Headless(Request.Execute(txId, connected, executed)))
      ensures r.Counted? ==> destroyed == old(destroyed) && failed == old(failed) && transactions == old(transactions)
      ensures r == Failed(DbError) && !Headless(Request.Execute(txId, connected, executed)) ==> released == old(released)
      ensures r.Failed? && InTx(txId) ==> txId.value !in transactions
    {
      ghost var request := Request.Execute(txId, connected, executed);
      RequestKeeps(Model(), request);
      AnswerTells(Model(), request);
      if Handle(Model(), request).1.Failed? { FailedStatement(Model(), request); }
      hide Without, Sound, NoDup;
      if InTx(txId) {
        if txId.value !in transactions {
          return Failed(TxNotFound);
        }
        var conn := transactions[txId.value];
        match executed {
          case ExecuteThrew =>
            Threw(conn);
            DeleteTransaction(txId.value);
            SafeDestroy(conn);
            return Failed(DbError);
          case NoHeader =>
            DeleteTransaction(txId.value);
            SafeDestroy(conn);
            return Failed(DbError);
          case Header(affectedRows, insertId) =>
            return HeaderOf(affectedRows, insertId);
        }
      }
      if !connected {
        return Failed(DbError);
      }
      var conn := GetConnection();
      if executed.ExecuteThrew? {
        Threw(conn);
        SafeDestroy(conn);
        return Failed(DbError);
      }
      SafeRelease(conn);
      if executed.NoHeader? {
        SafeDestroy(conn);
        return Failed(DbError);
      }
      return HeaderOf(executed.affectedRows, executed.insertId);
    }

    method Begin(connected: bool, began: bool, newId: string) returns (r: Response)
      requires Valid()
      modifies this
      ensures (Model(), r) == HandleBegin(old(Model()), connected, began, newId)
      ensures Valid() <==> !(r.Begun? && newId in old(transactions))
      ensures r.Begun? ==> newId in transactions && transactions[newId] !in disposals && disposals == old(disposals)
      ensures !r.Begun? ==> transactions == old(transactions) && released == old(released)
    {
      RequestKeeps(Model(), Request.Begin(connected, began, newId));
      assert issued !in disposals;
      hide Sound, NoDup;
      if !connected {
        return Failed(DbError);
      }
      var conn := GetConnection();
      if !began {
        Threw(conn);
        SafeDestroy(conn);
        return Failed(DbError);
      }
      SetTransaction(newId, conn);
      return Begun(newId);
    }

    /** handleCommit and handleRollback. */
    method End(id: string, ok: bool) returns (r: Response)
      requires Valid()
      modifies this
      ensures (Model(), r) == HandleEnd(old(Model()), id, ok)
      ensures Valid() && (NoDup(disposals) <==> NoDup(old(disposals))) && id !in transactions
      ensures r.Done? <==> id in old(transactions) && ok
      ensures r.Done? ==> released == old(released) + {old(transactions)[id]} && destroyed == old(destroyed)
      ensures r == Failed(DbError) ==> released == old(released) && old(transactions)[id] in destroyed
    {
      RequestKeeps(Model(), Commit(id, ok));
      hide Without, Sound, NoDup;
      if id !in transactions {
        return Failed(TxNotFound);
      }
      var conn := transactions[id];
      DeleteTransaction(id);
      if ok {
        SafeRelease(conn);
        return Done;
      }
      Threw(conn);
      SafeDestroy(conn);
      return Failed(DbError);
    }

    method CloseAll(rolledBack: nat -> bool) returns (r: Response)
      requires Valid()
      modifies this
      ensures (Model(), r) == HandleClose(old(Model()), rolledBack)
      ensures Valid() && (NoDup(disposals) <==> NoDup(old(disposals)))
      ensures transactions == map[] && forall lease: nat :: lease < issued ==> lease in disposals
      ensures forall id :: id in old(transactions) ==>
                var lease := old(transactions)[id];
                && (lease in released <==> rolledBack(lease)) && (lease in destroyed <==> !rolledBack(lease))
                && (lease in failed <==> !rolledBack(lease))
    {
      hide NoDup, Owned, FailuresDestroyed;
      ghost var s := Model();
      for i := 0 to |keys|
        invariant Model() == EndAll(s, rolledBack, i)
      {
        var conn := transactions[keys[i]];
        if rolledBack(conn) {
          SafeRelease(conn);
        } else {
          Threw(conn);
          SafeDestroy(conn);
        }
      }
      transactions := map[];
      keys := [];
      assert Model() == HandleClose(s, rolledBack).0;
      RequestKeeps(s, Close(rolledBack));
      CloseOwned(s, rolledBack);
      assert forall id :: id in s.transactions ==> Held(s.transactions, s.transactions[id]);
      forall lease { CloseFates(s, rolledBack, lease); }
      return Done;
    }

    method HandleRequest(request: Request) returns (r: Response)
      requires Valid()
      modifies this
      ensures (Model(), r) == Handle(old(Model()), request)
      ensures Valid() <==> !old(Collides(Model(), request))
      ensures NoDup(disposals) <==> NoDup(old(disposals)) && !Headless(request)
    {
      RequestKeeps(Model(), request);
      hide Sound, NoDup, Headless, HandleQuery, HandleExecute, HandleBegin, HandleEnd, HandleClose;
      match request {
        case Query(txId, connected, queried) => r := Query(txId, connected, queried);
        case Execute(txId, connected, executed) => r := Execute(txId, connected, executed);
        case Begin(connected, began, newId) => r := Begin(connected, began, newId);
        case Commit(id, ok) => r := End(id, ok);
        case Rollback(id, ok) => r := End(id, ok);
        case Close(rolledBack) => r := CloseAll(rolledBack);
      }
    }
  }
}
