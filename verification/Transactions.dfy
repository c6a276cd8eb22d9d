/** Readers and writers of one database as a labelled transition system (source/database/Reader.cpp,
    source/database/Writer.cpp, include/database/Database.hpp). */
module Transactions {
  import opened Wrappers
  import opened Runs
  import L = Lookups
  import R = Records
  import S = TableSpec

  /** The tables of a database by name. */
  type Store = map<string, S.Table>

  /** What is done through an operation: a call on a table, `operator<<`, or the `create_map` of `openTable`. */
  datatype Call = OnTable(name: string, call: S.Call) | Shift(result: S.Result) | Create(name: string)

  datatype Work = Work(store: Store, result: S.Result)

  function Perform(w: Work, c: Call): Work {
    match c
    case OnTable(name, call) =>
      if name !in w.store then w
      else
        var done := S.Exec(S.Work(w.store[name], w.result), call);
        Work(w.store[name := done.table], done.result)
    case Shift(result) => w.(result := result)
    case Create(name) => if name in w.store then w else w.(store := w.store[name := map[]])
  }

  function PerformAll(w: Work, calls: seq<Call>): Work {
    if calls == [] then w else Perform(PerformAll(w, calls[..|calls| - 1]), calls[|calls| - 1])
  }

  /** A call touches no table but its own; `create_map` adds an empty table or leaves the one that is there. */
  lemma CallsAreLocal(w: Work, c: Call, name: string)
    requires !(c.OnTable? && c.name == name)
    ensures name in Perform(w, c).store <==> name in w.store || c == Create(name)
    ensures name in Perform(w, c).store ==>
      Perform(w, c).store[name] == if name in w.store then w.store[name] else map[]
  {
  }

  /** A reader, a writer, or the writer inside `openTable`. */
  datatype Kind = Read | Write | OpenTable(name: string)

  /** The lock is taken first and released last; the transaction lives in between. */
  datatype Stage = Locked | Live | Ended | Released

  /** One operation object. `cursors` are the cursors a reader has opened; `calls`, `ends` and `unlocks` are
      history. */
  datatype Op = Op(
    kind: Kind,
    stage: Stage,
    isOpen: bool,
    closing: bool,
    view: Store,
    result: S.Result,
    cursors: map<nat, L.Mark>,
    calls: seq<Call>,
    ends: nat,
    unlocks: nat)

  function NewOp(kind: Kind): Op {
    Op(kind, Locked, true, false, map[], S.OK, map[], [], 0, 0)
  }

  /** The database: the committed store and who holds its mutex. `broken` records a transaction that was ended
      without being alive, or an unlock by somebody who does not hold the mutex. */
  datatype Db = Db(committed: Store, shared: set<nat>, unique: set<nat>, broken: bool)

  datatype Both = Both(db: Db, op: Op)

  predicate CanLock(db: Db, kind: Kind) {
    db.unique == {} && (kind.Read? || db.shared == {})
  }

  function TakeLock(db: Db, id: nat, kind: Kind): Db {
    if kind.Read? then db.(shared := db.shared + {id}) else db.(unique := db.unique + {id})
  }

  function BeginTxn(b: Both): Both {
    b.(op := b.op.(stage := Live, view := b.db.committed))
  }

  /** `m_txn.commit` or `m_txn.abort`; what a writer commits becomes the committed store. */
  function EndTxn(b: Both, keep: bool): Both {
    var db := if keep && !b.op.kind.Read? then b.db.(committed := b.op.view) else b.db;
    Both(if b.op.stage.Live? then db else db.(broken := true), b.op.(stage := Ended, ends := b.op.ends + 1))
  }

  /** `commit` up to its unlock: nothing if the operation is no longer open. */
  function CommitTxn(b: Both): Both {
    if !b.op.isOpen then b else
      var ended := EndTxn(b, true);
      ended.(op := ended.op.(isOpen := false))
  }

  /** `abort` up to its unlock; it does not clear `m_isOpen`. */
  function AbortTxn(b: Both): Both {
    if !b.op.isOpen then b else EndTxn(b, false)
  }

  /** `unlock`: whichever lock the operation holds. */
  function Unlock(b: Both, id: nat): Both {
    var db := if b.op.kind.Read? then b.db.(shared := b.db.shared - {id}, broken := b.db.broken || id !in b.db.shared)
              else b.db.(unique := b.db.unique - {id}, broken := b.db.broken || id !in b.db.unique);
    Both(db, b.op.(stage := Released, unlocks := b.op.unlocks + 1))
  }

  /** The destructor up to the unlock: the result mark decides between commit and abort. */
  function CloseTxn(b: Both): Both {
    var closing := b.(op := b.op.(closing := true));
    if b.op.result.IsOk() then CommitTxn(closing) else AbortTxn(closing)
  }

  function DoCall(op: Op, c: Call): Op {
    var w := Perform(Work(op.view, op.result), c);
    op.(view := w.store, result := w.result, calls := op.calls + [c])
  }

  datatype State = State(db: Db, ops: map<nat, Op>)

  function Init(store: Store): State {
    State(Db(store, {}, {}, false), map[])
  }

  datatype Event =
    | Lock(id: nat, kind: Kind)
    | Begin(id: nat)
    | Do(id: nat, call: Call)
    | Look(id: nat, query: L.Query, answer: Option<R.Record>)
    | Commit(id: nat)
    | Close(id: nat)
    | Release(id: nat)

  /** Which calls an operation can make: a reader only `operator<<`, a writer calls on tables that were opened
      before, and `openTable` its one `create_map`. */
  predicate MayCall(op: Op, c: Call) {
    match op.kind
    case Read => c.Shift?
    case Write => c.Shift? || (c.OnTable? && c.name in op.view)
    case OpenTable(name) => c == Create(name) && op.calls == []
  }

  predicate Enabled(s: State, e: Event) {
    match e
    case Lock(id, kind) => id !in s.ops && CanLock(s.db, kind)
    case Begin(id) => id in s.ops && s.ops[id].stage.Locked?
    case Do(id, c) => id in s.ops && s.ops[id].stage.Live? && MayCall(s.ops[id], c)
    // a reader looks something up through its own transaction
    case Look(id, q, a) => id in s.ops && s.ops[id].kind.Read? && s.ops[id].stage.Live? &&
      L.Answers(s.ops[id].view, s.ops[id].cursors, q, a)
    // the explicit commit of openTable
    case Commit(id) => id in s.ops && s.ops[id].kind.OpenTable? && s.ops[id].stage.Live? && s.ops[id].calls != []
    // the destructor: at the end of the operation, in openTable after the explicit commit has returned
    case Close(id) => id in s.ops && !s.ops[id].closing &&
      (if s.ops[id].kind.OpenTable? then s.ops[id].stage.Released? else s.ops[id].stage.Live?)
    case Release(id) => id in s.ops && s.ops[id].stage.Ended?
  }

  function Put(s: State, id: nat, b: Both): State {
    State(b.db, s.ops[id := b.op])
  }

  function Step(s: State, e: Event): State
    requires Enabled(s, e)
  {
    match e
    case Lock(id, kind) => State(TakeLock(s.db, id, kind), s.ops[id := NewOp(kind)])
    case Begin(id) => Put(s, id, BeginTxn(Both(s.db, s.ops[id])))
    case Do(id, c) => Put(s, id, Both(s.db, DoCall(s.ops[id], c)))
    case Look(id, q, a) =>
      var op := s.ops[id];
      Put(s, id, Both(s.db, op.(cursors := L.Moved(op.cursors, q, a))))
    case Commit(id) => Put(s, id, CommitTxn(Both(s.db, s.ops[id])))
    case Close(id) => Put(s, id, CloseTxn(Both(s.db, s.ops[id])))
    case Release(id) => Put(s, id, Unlock(Both(s.db, s.ops[id]), id))
  }

  function Next(s: State, e: Event): Option<State> {
    if Enabled(s, e) then Some(Step(s, e)) else None
  }

  /** Lock discipline of one operation: it holds its lock from the start until it is released, its transaction
      is ended once and while the lock is held, and the lock is released once. */
  predicate OpOk(db: Db, id: nat, op: Op) {
    && (id in db.shared <==> op.kind.Read? && !op.stage.Released?)
    && (id in db.unique <==> !op.kind.Read? && !op.stage.Released?)
    && op.ends == (if op.stage.Ended? || op.stage.Released? then 1 else 0)
    && op.unlocks == (if op.stage.Released? then 1 else 0)
    && (op.stage.Locked? || op.stage.Live? ==> op.isOpen && !op.closing)
    && (op.stage.Ended? || op.stage.Released? ==> !op.isOpen || op.closing)
    && (op.stage.Locked? ==> op.calls == [] && op.result == S.OK && op.cursors == map[])
    && (op.stage.Live? ==> Work(op.view, op.result) == PerformAll(Work(db.committed, S.OK), op.calls))
    && (op.kind.Read? ==> forall c :: c in op.calls ==> c.Shift?)
    && (op.kind.Read? && op.stage.Live? ==> op.view == db.committed)
    && (op.kind.OpenTable? ==> op.result == S.OK)
  }

  ghost predicate Inv(s: State) {
    && !s.db.broken
    && s.db.shared <= s.ops.Keys && s.db.unique <= s.ops.Keys
    && (s.db.unique != {} ==> s.db.shared == {})
    && (forall i, j :: i in s.db.unique && j in s.db.unique ==> i == j)
    && (forall id :: id in s.ops ==> OpOk(s.db, id, s.ops[id]))
  }

  lemma PerformSnoc(w: Work, calls: seq<Call>, c: Call)
    ensures PerformAll(w, calls + [c]) == Perform(PerformAll(w, calls), c)
  {
    assert (calls + [c])[..|calls|] == calls;
  }

  lemma DoKeepsOp(db: Db, id: nat, op: Op, c: Call)
    requires OpOk(db, id, op) && op.stage.Live? && MayCall(op, c)
    ensures OpOk(db, id, DoCall(op, c))
  {
    PerformSnoc(Work(db.committed, S.OK), op.calls, c);
  }

  /** When somebody ends a writing transaction, nobody else holds the lock. */
  lemma CommitsAlone(s: State, id: nat)
    requires Inv(s) && id in s.ops && !s.ops[id].kind.Read? && s.ops[id].stage.Live?
    ensures forall other :: other in s.ops && other != id ==> s.ops[other].stage.Released?
  {
    assert id in s.db.unique;
  }

  lemma FinishKeepsInv(s: State, e: Event)
    requires Inv(s) && Enabled(s, e) && (e.Commit? || e.Close?)
    ensures Inv(Step(s, e))
  {
    if !s.ops[e.id].kind.Read? && s.ops[e.id].stage.Live? {
      CommitsAlone(s, e.id);
    }
  }

  lemma StepKeepsInv(s: State, e: Event)
    requires Inv(s) && Enabled(s, e)
    ensures Inv(Step(s, e))
  {
    if e.Commit? || e.Close? {
      FinishKeepsInv(s, e);
    } else if e.Do? {
      DoKeepsOp(s.db, e.id, s.ops[e.id], e.call);
    }
  }

  /** Readers share the lock and a writer has it alone: anybody may lock exactly while no writer is alive, and a writer
      only if nobody is. */
  lemma WhoMayLock(s: State, id: nat, kind: Kind)
    requires Inv(s) && id !in s.ops
    ensures Enabled(s, Lock(id, kind)) <==>
      forall other :: other in s.ops && (!kind.Read? || !s.ops[other].kind.Read?) ==> s.ops[other].stage.Released?
  {
    if s.db.unique != {} {
      var other :| other in s.db.unique;
      assert !s.ops[other].kind.Read? && !s.ops[other].stage.Released?;
    }
    if s.db.shared != {} {
      var other :| other in s.db.shared;
      assert !s.ops[other].stage.Released?;
    }
    forall other | other in s.ops && !s.ops[other].stage.Released? ensures other in s.db.unique + s.db.shared {
      assert OpOk(s.db, other, s.ops[other]);
    }
  }

  /** The next step towards the end of an operation that is alive. */
  function Onward(op: Op, id: nat): Event {
    match op.stage
    case Locked => Begin(id)
    case Live =>
      if !op.kind.OpenTable? then Close(id) else if op.calls == [] then Do(id, Create(op.kind.name)) else Commit(id)
    case Ended => Release(id)
    case Released => Close(id)
  }

  /** How many steps an operation is from its end. */
  function Left(op: Op): nat {
    match op.stage
    case Locked => 5
    case Live => if op.kind.OpenTable? && op.calls == [] then 4 else 3
    case Ended => 2
    case Released => if op.kind.OpenTable? && !op.closing then 1 else 0
  }

  /** Nothing blocks an operation that has its lock: by its own steps it gets to its end. */
  lemma NobodyIsStuck(s: State, id: nat)
    requires Inv(s) && id in s.ops && (s.ops[id].stage.Released? ==> s.ops[id].kind.OpenTable? && !s.ops[id].closing)
    ensures Enabled(s, Onward(s.ops[id], id))
    ensures Left(Step(s, Onward(s.ops[id], id)).ops[id]) < Left(s.ops[id])
  {
    assert OpOk(s.db, id, s.ops[id]);
  }

  lemma RunInv(store: Store, trace: seq<Event>)
    requires Fires(Next, Init(store), trace)
    ensures Inv(Run(Next, Init(store), trace))
  {
    forall s, e | Inv(s) && Next(s, e).Some? ensures Inv(Next(s, e).value) {
      StepKeepsInv(s, e);
    }
    Invariant(Next, Inv, Init(store), trace);
  }
}
