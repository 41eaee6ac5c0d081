/**
 * db/postgres.go: resolving the handle a statement runs on from the
 * context, and the begin / work / commit-or-rollback protocol of
 * WithTxContext and WithTx. The database is abstract: its Begin, Commit
 * and Rollback outcomes are parameters, and what it observes is a log of
 * events.
 */
module Postgres {
  import opened Wrappers
  import opened Errors
  import opened RequestContext

  /** The ContextDB GetContextDB returns: the pool itself or a transaction. */
  datatype ContextDB = Pool | Transaction(tx: TxId)

  /**
   * GetContextDB: the transaction stored under contextKeyTx if there is one,
   * otherwise the pool; it never fails and never begins a transaction.
   */
  function GetContextDB(ctx: Context): (r: (ContextDB, Option<Error>))
    ensures r.1 == None
    ensures TxKey in ctx && ctx[TxKey].Tx? ==> r.0 == Transaction(ctx[TxKey].id)
    ensures !(TxKey in ctx && ctx[TxKey].Tx?) ==> r.0 == Pool
  {
    if TxKey in ctx && ctx[TxKey].Tx? then (Transaction(ctx[TxKey].id), None) else (Pool, None)
  }

  /** The context the work receives: `ctx` with the new transaction under contextKeyTx. */
  function TxContext(ctx: Context, tx: TxId): Context
  {
    ctx[TxKey := Tx(tx)]
  }

  /**
   * Inside the work, statements resolve to the transaction just begun, even
   * when `ctx` already held another one: nesting is not detected, the inner
   * binding shadows the outer.
   */
  lemma WorkResolvesToNewTx(ctx: Context, tx: TxId)
    ensures GetContextDB(TxContext(ctx, tx)) == (Transaction(tx), None)
  {
  }

  /** Bindings under the other keys do not change what a context resolves to. */
  lemma OtherKeysDoNotResolve(ctx: Context, k: Key, v: Value)
    requires k != TxKey
    ensures GetContextDB(ctx[k := v]) == GetContextDB(ctx)
  {
  }

  /** What the database sees: calls on it, and the work's result on a transaction. */
  datatype Event =
    | Began(tx: TxId)
    | WorkDone(tx: TxId, err: Option<Error>)
    | Committed(tx: TxId)
    | CommitFailed(tx: TxId)
    | RolledBack(tx: TxId)

  /** The outcomes the database gives to one Begin, one Commit and any Rollback. */
  datatype Outcomes = Outcomes(begin: Option<Error>, commit: Option<Error>, rollback: Option<Error>)

  /** After a successful Begin: the work's error if it failed, else Commit's error (nil when committed). */
  function TxResult(workErr: Option<Error>, o: Outcomes): Option<Error>
  {
    if workErr.Some? then workErr else o.commit
  }

  /** The events a call with a successful Begin produces. */
  function TxBlock(tx: TxId, workErr: Option<Error>, o: Outcomes): seq<Event>
  {
    [Began(tx), WorkDone(tx, workErr)] +
    (if workErr.Some? then [RolledBack(tx)]
     else if o.commit.Some? then [CommitFailed(tx), RolledBack(tx)]
     else [Committed(tx)])
  }

  /** A finished transaction: begun, worked on, then committed or rolled back, and never both. */
  ghost predicate Finished(b: seq<Event>)
  {
    && |b| >= 3 && b[0].Began? && b[1].WorkDone? && b[1].tx == b[0].tx
    && var t := b[0].tx;
      if b[1].err.Some? then b[2..] == [RolledBack(t)]
      else b[2..] == [Committed(t)] || b[2..] == [CommitFailed(t), RolledBack(t)]
  }

  /**
   * The protocol: failed work is rolled back and its error returned unchanged;
   * on a failed Commit a rollback is attempted and Commit's error returned;
   * otherwise exactly one commit and no rollback. Rollback's own outcome
   * never changes the result, and the transaction is always finished.
   */
  lemma TxProtocol(tx: TxId, workErr: Option<Error>, o: Outcomes, otherRollback: Option<Error>)
    ensures Finished(TxBlock(tx, workErr, o))
    ensures workErr.Some? ==>
      TxResult(workErr, o) == workErr && TxBlock(tx, workErr, o) == [Began(tx), WorkDone(tx, workErr), RolledBack(tx)]
    ensures workErr.None? && o.commit.Some? ==>
      TxResult(workErr, o) == o.commit &&
      TxBlock(tx, workErr, o) == [Began(tx), WorkDone(tx, None), CommitFailed(tx), RolledBack(tx)]
    ensures TxResult(workErr, o).None? <==> Committed(tx) in TxBlock(tx, workErr, o)
    ensures TxResult(workErr, o).None? <==> RolledBack(tx) !in TxBlock(tx, workErr, o)
    ensures TxResult(workErr, o) == TxResult(workErr, o.(rollback := otherRollback))
  {
  }

  function Concat(blocks: seq<seq<Event>>): seq<Event>
    decreases |blocks|
  {
    if blocks == [] then [] else Concat(blocks[..|blocks| - 1]) + blocks[|blocks| - 1]
  }

  /** Every commit in the log comes right after work on that transaction that succeeded. */
  ghost predicate CommitsFollowSuccessfulWork(events: seq<Event>)
  {
    forall i :: 0 <= i < |events| && events[i].Committed? ==>
      i >= 1 && events[i - 1] == WorkDone(events[i].tx, None)
  }

  /** A log made of finished transactions never commits work that failed. */
  lemma {:induction false} FinishedLogCommitsOnlySuccess(blocks: seq<seq<Event>>)
    requires forall i :: 0 <= i < |blocks| ==> Finished(blocks[i])
    ensures CommitsFollowSuccessfulWork(Concat(blocks))
    decreases |blocks|
  {
    if blocks != [] {
      var front := blocks[..|blocks| - 1];
      var b := blocks[|blocks| - 1];
      FinishedLogCommitsOnlySuccess(front);
      var a := Concat(front);
      var ev := a + b;
      assert Concat(blocks) == ev;
      forall i | 0 <= i < |ev| && ev[i].Committed?
        ensures i >= 1 && ev[i - 1] == WorkDone(ev[i].tx, None)
      {
        if i < |a| {
          assert ev[i] == a[i];
          assert ev[i - 1] == a[i - 1];
        } else {
          var k := i - |a|;
          assert ev[i] == b[k];
          assert Finished(b);
          assert b[0].Began? && b[1].WorkDone?;
          assert k >= 2 ==> b[k] == b[2..][k - 2];
          assert k == 2;
          assert b[2] == Committed(b[0].tx);
          assert ev[i - 1] == b[1];
        }
      }
    }
  }

  /** Every transaction is finished, and their ids increase and stay below `bound`. */
  ghost predicate FinishedInOrder(blocks: seq<seq<Event>>, bound: TxId)
  {
    && (forall i :: 0 <= i < |blocks| ==> Finished(blocks[i]) && blocks[i][0].tx < bound)
    && (forall i, j :: 0 <= i < j < |blocks| ==> blocks[i][0].tx < blocks[j][0].tx)
  }

  /** A finished transaction with a fresh id extends the sequence. */
  lemma FinishedInOrderAppend(blocks: seq<seq<Event>>, bound: TxId, b: seq<Event>)
    requires Finished(b) && FinishedInOrder(blocks, b[0].tx) && b[0].tx < bound
    ensures FinishedInOrder(blocks + [b], bound)
    ensures Concat(blocks + [b]) == Concat(blocks) + b
  {
    assert (blocks + [b])[..|blocks|] == blocks;
  }

  /**
   * The DB holder over the pool. `events` is what the database has observed;
   * the ghost `transactions` splits it into the transactions opened so far.
   */
  class DB {
    var nextTx: TxId
    var events: seq<Event>
    ghost var transactions: seq<seq<Event>>

    /** Between calls the log is exactly the transactions opened so far, each finished. */
    ghost predicate Valid()
      reads this
    {
      events == Concat(transactions) && FinishedInOrder(transactions, nextTx)
    }

    /** Whatever sequence of calls produced it, a valid log never commits work that failed. */
    lemma ValidLogCommitsOnlySuccess()
      requires Valid()
      ensures CommitsFollowSuccessfulWork(events)
    {
      FinishedLogCommitsOnlySuccess(transactions);
    }

    constructor ()
      ensures Valid() && nextTx == 0 && events == [] && transactions == []
    {
      nextTx := 0;
      events := [];
      transactions := [];
    }

    /** sql.DB.Begin: a fresh transaction, or the database's error and no transaction. */
    method Begin(outcome: Option<Error>) returns (tx: Option<TxId>, err: Option<Error>)
      modifies this`nextTx, this`events
      ensures err == outcome && (tx.Some? <==> outcome.None?)
      ensures outcome.None? ==> tx == Some(old(nextTx)) && nextTx == old(nextTx) + 1 && events == old(events) + [Began(old(nextTx))]
      ensures outcome.Some? ==> nextTx == old(nextTx) && events == old(events)
    {
      err := outcome;
      if outcome.Some? {
        tx := None;
        return;
      }
      tx := Some(nextTx);
      events := events + [Began(nextTx)];
      nextTx := nextTx + 1;
    }

    /** sql.Tx.Commit. */
    method Commit(tx: TxId, outcome: Option<Error>) returns (err: Option<Error>)
      modifies this`events
      ensures err == outcome
      ensures events == old(events) + [if outcome.None? then Committed(tx) else CommitFailed(tx)]
    {
      err := outcome;
      events := events + [if outcome.None? then Committed(tx) else CommitFailed(tx)];
    }

    /** sql.Tx.Rollback. */
    method Rollback(tx: TxId, outcome: Option<Error>) returns (err: Option<Error>)
      modifies this`events
      ensures err == outcome && events == old(events) + [RolledBack(tx)]
    {
      err := outcome;
      events := events + [RolledBack(tx)];
    }

    /** Records a finished transaction, begun with id `nextTx - 1`, in the ghost split of the log. */
    ghost method Close(block: seq<Event>)
      requires Finished(block) && block[0].tx + 1 == nextTx
      requires FinishedInOrder(transactions, block[0].tx)
      requires events == Concat(transactions) + block
      modifies this`transactions
      ensures Valid() && transactions == old(transactions) + [block]
    {
      FinishedInOrderAppend(transactions, nextTx, block);
      transactions := transactions + [block];
    }

    /**
     * WithTxContext: begins a transaction (always, even if `ctx` holds one),
     * runs the work with the transaction in its context, and then rolls back
     * or commits.
     */
    method WithTxContext(ctx: Context, f: Context -> Option<Error>, o: Outcomes) returns (err: Option<Error>)
      requires Valid()
      modifies this
      ensures Valid()
      ensures o.begin.Some? ==> err == o.begin && events == old(events) && nextTx == old(nextTx)
      ensures o.begin.None? ==>
        var tx := old(nextTx);
        && nextTx == tx + 1
        && err == TxResult(f(TxContext(ctx, tx)), o)
        && events == old(events) + TxBlock(tx, f(TxContext(ctx, tx)), o)
    {
      var tx, beginErr := Begin(o.begin);
      if beginErr.Some? {
        return beginErr;
      }
      var t := tx.value;
      var txCtx := ctx[TxKey := Tx(t)];
      err := f(txCtx);
      events := events + [WorkDone(t, err)];
      if err.Some? {
        var _ := Rollback(t, o.rollback);
        Close(TxBlock(t, err, o));
        return err;
      }
      err := Commit(t, o.commit);
      if err.Some? {
        var _ := Rollback(t, o.rollback);
        Close(TxBlock(t, None, o));
        return err;
      }
      Close(TxBlock(t, None, o));
      return None;
    }

    /** WithTx: the same protocol, with the transaction handed to the work directly. */
    method WithTx(f: TxId -> Option<Error>, o: Outcomes) returns (err: Option<Error>)
      requires Valid()
      modifies this
      ensures Valid()
      ensures o.begin.Some? ==> err == o.begin && events == old(events) && nextTx == old(nextTx)
      ensures o.begin.None? ==>
        var tx := old(nextTx);
        && nextTx == tx + 1
        && err == TxResult(f(tx), o)
        && events == old(events) + TxBlock(tx, f(tx), o)
    {
      var tx, beginErr := Begin(o.begin);
      if beginErr.Some? {
        return beginErr;
      }
      var t := tx.value;
      err := f(t);
      events := events + [WorkDone(t, err)];
      if err.Some? {
        var _ := Rollback(t, o.rollback);
        Close(TxBlock(t, err, o));
        return err;
      }
      err := Commit(t, o.commit);
      if err.Some? {
        var _ := Rollback(t, o.rollback);
        Close(TxBlock(t, None, o));
        return err;
      }
      Close(TxBlock(t, None, o));
      return None;
    }
  }
}
