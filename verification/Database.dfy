/** The database and its operations as objects (source/database/Reader.cpp, source/database/Writer.cpp,
    include/database/Database.hpp). Each method is proved against the functions of the transition system. */
module Database {
  import L = Lookups
  import S = TableSpec
  import opened Transactions
  import opened WriterCalls

  class Database {
    var committed: Store
    var shared: set<nat>
    var unique: set<nat>
    var lastId: nat
    ghost var broken: bool

    ghost function View(): Db
      reads this
    {
      Db(committed, shared, unique, broken)
    }

    ghost predicate Valid()
      reads this
    {
      && (forall id :: id in shared ==> id <= lastId)
      && (forall id :: id in unique ==> id <= lastId)
    }

    constructor (store: Store)
      ensures Valid() && View() == Db(store, {}, {}, false)
    {
      committed, shared, unique, lastId, broken := store, {}, {}, 0, false;
    }

    /** `openTable`: a writer creates the map, commits explicitly and is then destroyed. */
    method OpenTable(name: string)
      requires Valid() && CanLock(View(), Transactions.OpenTable(name))
      modifies this
      ensures Valid() && committed == Perform(Work(old(committed), S.OK), Create(name)).store
      ensures shared == old(shared) && unique == old(unique) && broken == old(broken)
    {
      var writer := new Operation.Make(this, Transactions.OpenTable(name));
      writer.Call(Create(name));
      writer.Commit();
      writer.Close();
      assert writer.ends == writer.unlocks == 1;
    }
  }

  /** The two alternatives of `m_lock`. */
  datatype HeldLock = SharedLock | UniqueLock

  /** A reader or a writer; a writer is a reader with an exclusive lock. */
  class Operation {
    const database: Database
    const id: nat
    const kind: Kind
    const lock: HeldLock
    var isOpen: bool
    var view: Store
    var result: S.Result
    ghost var stage: Stage
    ghost var closing: bool
    ghost var cursors: map<nat, L.Mark>
    ghost var calls: seq<Call>
    ghost var ends: nat
    ghost var unlocks: nat

    ghost function View(): Op
      reads this
    {
      Op(kind, stage, isOpen, closing, view, result, cursors, calls, ends, unlocks)
    }

    ghost function Both(): Both
      reads this, database
    {
      Transactions.Both(database.View(), View())
    }

    ghost predicate Valid() {
      lock.SharedLock? <==> kind.Read?
    }

    /** Returns once the mutex could be taken. */
    constructor Make(database: Database, kind: Kind)
      requires database.Valid() && CanLock(database.View(), kind)
      modifies database
      ensures Valid() && this.database == database && this.kind == kind && id == old(database.lastId) + 1
      ensures Both() == BeginTxn(Transactions.Both(TakeLock(old(database.View()), id, kind), NewOp(kind)))
      ensures database.Valid() && database.lastId == id
    {
      this.database, this.kind := database, kind;
      id := database.lastId + 1;
      isOpen, result := true, S.OK;
      lock := if kind.Read? then SharedLock else UniqueLock;
      view := database.committed;
      stage, closing, cursors, calls, ends, unlocks := Live, false, map[], [], 0, 0;
      new;
      database.lastId := id;
      if kind.Read? {
        database.shared := database.shared + {id};
      } else {
        database.unique := database.unique + {id};
      }
    }

    /** A call on a table, `operator<<` or `create_map`. */
    method Call(c: Call)
      modifies this`view, this`result, this`calls
      ensures View() == DoCall(old(View()), c)
    {
      var done := Perform(Work(view, result), c);
      view, result, calls := done.store, done.result, calls + [c];
    }

    method Unlock()
      requires Valid()
      modifies this`stage, this`unlocks, database`shared, database`unique, database`broken
      ensures Both() == Transactions.Unlock(old(Both()), id)
    {
      if lock.UniqueLock? {
        database.broken := database.broken || id !in database.unique;
        database.unique := database.unique - {id};
      } else {
        database.broken := database.broken || id !in database.shared;
        database.shared := database.shared - {id};
      }
      stage, unlocks := Released, unlocks + 1;
    }

    method EndTxn(keep: bool)
      modifies this`stage, this`ends, database`committed, database`broken
      ensures Both() == Transactions.EndTxn(old(Both()), keep)
    {
      if stage != Live {
        database.broken := true;
      }
      if keep && !kind.Read? {
        database.committed := view;
      }
      stage, ends := Ended, ends + 1;
    }

    method Commit()
      requires Valid()
      modifies this, database
      ensures Both() == if old(isOpen) then Transactions.Unlock(CommitTxn(old(Both())), id) else old(Both())
      ensures database.lastId == old(database.lastId)
    {
      if !isOpen {
        return;
      }
      EndTxn(true);
      isOpen := false;
      Unlock();
    }

    method Abort()
      requires Valid()
      modifies this, database
      ensures Both() == if old(isOpen) then Transactions.Unlock(AbortTxn(old(Both())), id) else old(Both())
      ensures database.lastId == old(database.lastId)
    {
      if !isOpen {
        return;
      }
      EndTxn(false);
      Unlock();
    }

    /** The destructor. */
    method Close()
      requires Valid()
      modifies this, database
      ensures !isOpen
      ensures Both() ==
        var ended := CloseTxn(old(Both()));
        var unlocked := if old(isOpen) then Transactions.Unlock(ended, id) else ended;
        unlocked.(op := unlocked.op.(isOpen := false))
      ensures database.lastId == old(database.lastId)
    {
      closing := true;
      if result.IsOk() {
        Commit();
      } else {
        Abort();
      }
      isOpen := false;
    }
  }

  /** A whole write transaction: its calls count all together or not at all. */
  method WriteTransaction(database: Database, calls: seq<Call>)
    requires database.Valid() && CanLock(database.View(), Write)
    modifies database
    ensures var w := PerformAll(Work(old(database.committed), S.OK), calls);
      database.committed == if w.result.code.Success? then w.store else old(database.committed)
    ensures (forall c :: c in calls ==> c.OnTable?) ==>
      database.committed ==
        if AllQuiet(old(database.committed), calls) then PerformAll(Work(old(database.committed), S.OK), calls).store
        else old(database.committed)
    ensures Spoiled(Work(old(database.committed), S.OK), calls) ==> database.committed == old(database.committed)
    ensures database.shared == old(database.shared) && database.unique == old(database.unique)
    ensures database.broken == old(database.broken)
  {
    var writer := new Operation.Make(database, Write);
    ghost var start := Work(database.committed, S.OK);
    for i := 0 to |calls|
      invariant writer.View() ==
        NewOp(Write).(stage := Live, view := writer.view, result := writer.result, calls := calls[..i])
      invariant Work(writer.view, writer.result) == PerformAll(start, calls[..i])
      modifies writer
    {
      PerformSnoc(start, calls[..i], calls[i]);
      assert calls[..i + 1] == calls[..i] + [calls[i]];
      writer.Call(calls[i]);
    }
    assert calls[..|calls|] == calls;
    if forall c :: c in calls ==> c.OnTable? {
      OkMeansAllQuiet(start, calls);
    }
    if Spoiled(start, calls) {
      SpoiledFails(start, calls);
    }
    writer.Close();
  }
}
