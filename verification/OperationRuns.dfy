/** Whatever a reader or writer wants to call, it can: its whole life is a run of the transition system, whenever its
    lock is free. */
module OperationRuns {
  import opened Wrappers
  import opened Runs
  import S = TableSpec
  import opened Transactions
  import opened WriterCalls

  /** Calls that an operation of this kind makes on tables that exist: a reader only `operator<<`. */
  predicate Permitted(store: Store, kind: Kind, calls: seq<Call>) {
    forall c :: c in calls ==> c.Shift? || (kind.Write? && c.OnTable? && c.name in store)
  }

  function Calls(id: nat, calls: seq<Call>): seq<Event> {
    seq(|calls|, i requires 0 <= i < |calls| => Do(id, calls[i]))
  }

  /** Lock, begin, the calls, the destructor, unlock. */
  function Life(id: nat, kind: Kind, calls: seq<Call>): seq<Event> {
    [Lock(id, kind), Begin(id)] + Calls(id, calls) + [Close(id)] + [Release(id)]
  }

  /** The state after `calls` of an operation that began in `s`. */
  function During(s: State, id: nat, kind: Kind, calls: seq<Call>): State {
    var w := PerformAll(Work(s.db.committed, S.OK), calls);
    State(
      TakeLock(s.db, id, kind),
      s.ops[id := NewOp(kind).(stage := Live, view := w.store, result := w.result, calls := calls)])
  }

  lemma Begins(s: State, id: nat, kind: Kind)
    requires Enabled(s, Lock(id, kind))
    ensures Fires(Next, s, [Lock(id, kind), Begin(id)])
    ensures Run(Next, s, [Lock(id, kind), Begin(id)]) == During(s, id, kind, [])
  {
    Snoc(Next, s, [], Lock(id, kind));
    assert [] + [Lock(id, kind)] == [Lock(id, kind)];
    Snoc(Next, s, [Lock(id, kind)], Begin(id));
    assert [Lock(id, kind)] + [Begin(id)] == [Lock(id, kind), Begin(id)];
  }

  lemma {:induction false} TablesStay(w: Work, kind: Kind, calls: seq<Call>)
    requires Permitted(w.store, kind, calls)
    ensures forall n :: n in PerformAll(w, calls).store <==> n in w.store
  {
    if calls != [] {
      assert calls[|calls| - 1] in calls;
      TablesStay(w, kind, calls[..|calls| - 1]);
    }
  }

  lemma CallGoesOn(s: State, id: nat, kind: Kind, calls: seq<Call>, c: Call)
    requires !kind.OpenTable? && Permitted(s.db.committed, kind, calls + [c])
    ensures Enabled(During(s, id, kind, calls), Do(id, c))
    ensures Step(During(s, id, kind, calls), Do(id, c)) == During(s, id, kind, calls + [c])
  {
    assert c in calls + [c];
    assert forall x :: x in calls ==> x in calls + [c];
    TablesStay(Work(s.db.committed, S.OK), kind, calls);
    PerformSnoc(Work(s.db.committed, S.OK), calls, c);
  }

  lemma CallsSnoc(id: nat, calls: seq<Call>, c: Call)
    ensures Calls(id, calls + [c]) == Calls(id, calls) + [Do(id, c)]
  {
  }

  lemma {:induction false} CallsGoOn(s: State, id: nat, kind: Kind, calls: seq<Call>)
    requires Enabled(s, Lock(id, kind)) && !kind.OpenTable? && Permitted(s.db.committed, kind, calls)
    ensures Fires(Next, s, [Lock(id, kind), Begin(id)] + Calls(id, calls))
    ensures Run(Next, s, [Lock(id, kind), Begin(id)] + Calls(id, calls)) == During(s, id, kind, calls)
  {
    var start := [Lock(id, kind), Begin(id)];
    if calls == [] {
      Begins(s, id, kind);
      assert start + Calls(id, calls) == start;
    } else {
      var rest, c := calls[..|calls| - 1], calls[|calls| - 1];
      assert calls == rest + [c];
      assert Permitted(s.db.committed, kind, rest);
      CallsGoOn(s, id, kind, rest);
      CallGoesOn(s, id, kind, rest, c);
      CallsSnoc(id, rest, c);
      assert start + Calls(id, calls) == start + Calls(id, rest) + [Do(id, c)];
      Snoc(Next, s, start + Calls(id, rest), Do(id, c));
    }
  }

  /** The end of an operation: its lock is free again, and the store is its own if it wrote and ended ok. */
  ghost predicate Finished(s: State, id: nat, kind: Kind, w: Work, t: State) {
    && id in t.ops && t.ops[id].stage.Released? && t.ops[id].ends == t.ops[id].unlocks == 1
    && t.db.shared == s.db.shared && t.db.unique == s.db.unique && t.db.broken == s.db.broken
    && t.db.committed == if kind.Write? && w.result.code.Success? then w.store else s.db.committed
  }

  lemma Finishes(s: State, id: nat, kind: Kind, calls: seq<Call>)
    requires Enabled(s, Lock(id, kind)) && !kind.OpenTable? && id !in s.db.shared && id !in s.db.unique
    ensures var d := During(s, id, kind, calls);
      && Enabled(d, Close(id)) && Enabled(Step(d, Close(id)), Release(id))
      && Finished(s, id, kind, PerformAll(Work(s.db.committed, S.OK), calls), Step(Step(d, Close(id)), Release(id)))
  {
  }

  /** Whenever its lock is free, a reader or writer can live its whole life: what a writer called is committed if its
      result is ok and dropped otherwise, and the database is as free as before. */
  lemma OperationsRun(s: State, id: nat, kind: Kind, calls: seq<Call>)
    requires Inv(s) && Enabled(s, Lock(id, kind)) && !kind.OpenTable? && Permitted(s.db.committed, kind, calls)
    ensures Fires(Next, s, Life(id, kind, calls))
    ensures Finished(
      s, id, kind, PerformAll(Work(s.db.committed, S.OK), calls), Run(Next, s, Life(id, kind, calls)))
  {
    var trace := [Lock(id, kind), Begin(id)] + Calls(id, calls);
    CallsGoOn(s, id, kind, calls);
    Finishes(s, id, kind, calls);
    Snoc(Next, s, trace, Close(id));
    Snoc(Next, s, trace + [Close(id)], Release(id));
  }
}
