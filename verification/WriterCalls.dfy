/** What a sequence of calls makes of the tables and of the mark of its transaction (include/database/Table.hpp,
    source/database/Reader.cpp). */
module WriterCalls {
  import opened Wrappers
  import S = TableSpec
  import opened Transactions

  /** The calls that go to the table `name`, in order. */
  function CallsOn(calls: seq<Call>, name: string): seq<S.Call> {
    if calls == [] then []
    else
      var c := calls[|calls| - 1];
      CallsOn(calls[..|calls| - 1], name) + if c.OnTable? && c.name == name then [c.call] else []
  }

  lemma {:induction false} ExecAllSnoc(w: S.Work, calls: seq<S.Call>, c: S.Call)
    ensures S.ExecAll(w, calls + [c]) == S.Exec(S.ExecAll(w, calls), c)
    ensures S.NothingThrown(w, calls + [c]) <==>
      S.NothingThrown(w, calls) && S.Thrown(S.ExecAll(w, calls).table, c).None?
    decreases |calls|
  {
    if calls == [] {
      assert (calls + [c])[1..] == [];
    } else {
      ExecAllSnoc(S.Exec(w, calls[0]), calls[1..], c);
      assert (calls + [c])[1..] == calls[1..] + [c];
    }
  }

  lemma PerformAllSnoc(w: Work, calls: seq<Call>)
    requires calls != []
    ensures PerformAll(w, calls) == Perform(PerformAll(w, calls[..|calls| - 1]), calls[|calls| - 1])
  {
  }

  /** The table after the calls on it alone. */
  function TableAfter(t: S.Table, calls: seq<S.Call>): S.Table {
    S.ExecAll(S.Work(t, S.OK), calls).table
  }

  lemma TableAfterSnoc(t: S.Table, calls: seq<S.Call>, c: S.Call, result: S.Result)
    ensures TableAfter(t, calls + [c]) == S.Exec(S.Work(TableAfter(t, calls), result), c).table
  {
    ExecAllSnoc(S.Work(t, S.OK), calls, c);
  }

  /** Whatever calls are mixed, `operator<<` among them: each table of the transaction becomes what the calls on it
      make of it by themselves. */
  lemma {:induction false} TablesAreIndependent(w: Work, calls: seq<Call>, name: string)
    requires name in w.store
    ensures name in PerformAll(w, calls).store
    ensures PerformAll(w, calls).store[name] == S.ExecAll(S.Work(w.store[name], S.OK), CallsOn(calls, name)).table
  {
    if calls != [] {
      var rest, c := calls[..|calls| - 1], calls[|calls| - 1];
      var before := PerformAll(w, rest);
      TablesAreIndependent(w, rest, name);
      if c.OnTable? && c.name == name {
        TableAfterSnoc(w.store[name], CallsOn(rest, name), c.call, before.result);
      } else {
        CallsAreLocal(before, c, name);
        assert CallsOn(calls, name) == CallsOn(rest, name);
      }
    }
  }

  /** What a call decides about the result of its transaction: `operator<<` sets it, an exception marks it. */
  function Decision(w: Work, c: Call): Option<S.Result> {
    if c.Shift? then Some(c.result)
    else if c.OnTable? && c.name in w.store && S.Thrown(w.store[c.name], c.call).Some?
    then Some(S.Result(S.Error, S.Thrown(w.store[c.name], c.call).value))
    else None
  }

  /** The state in which call `i` is made, and what it decides. */
  function DecisionAt(w: Work, calls: seq<Call>, i: nat): Option<S.Result>
    requires i < |calls|
  {
    Decision(PerformAll(w, calls[..i]), calls[i])
  }

  lemma {:induction false} ResultStays(w: Work, calls: seq<Call>, from: nat)
    requires from <= |calls|
    requires forall i :: from <= i < |calls| ==> DecisionAt(w, calls, i).None?
    ensures PerformAll(w, calls).result == PerformAll(w, calls[..from]).result
  {
    if from == |calls| {
      assert calls[..from] == calls;
    } else {
      var n := |calls| - 1;
      forall i | from <= i < n ensures DecisionAt(w, calls[..n], i).None? {
        assert calls[..n][..i] == calls[..i];
        assert DecisionAt(w, calls, i).None?;
      }
      ResultStays(w, calls[..n], from);
      assert calls[..n][..from] == calls[..from];
      assert DecisionAt(w, calls, n).None?;
    }
  }

  /** The last decision counts: the result of a transaction is what the last `operator<<` set or the last exception
      left, whatever came before, and as it began if nothing was decided. */
  lemma LastDecisionCounts(w: Work, calls: seq<Call>, d: nat)
    requires d < |calls| && forall i :: d < i < |calls| ==> DecisionAt(w, calls, i).None?
    ensures DecisionAt(w, calls, d).Some? ==> PerformAll(w, calls).result == DecisionAt(w, calls, d).value
    ensures DecisionAt(w, calls, d).None? && (forall i :: 0 <= i < d ==> DecisionAt(w, calls, i).None?) ==>
      PerformAll(w, calls).result == w.result
  {
    ResultStays(w, calls, d + 1);
    assert calls[..d + 1][..d] == calls[..d];
    PerformAllSnoc(w, calls[..d + 1]);
    if forall i :: 0 <= i <= d ==> DecisionAt(w, calls, i).None? {
      ResultStays(w, calls, 0);
    }
  }

  /** Calls on a single table, as calls of the transaction. */
  function OnOne(name: string, calls: seq<S.Call>): seq<Call> {
    seq(|calls|, i requires 0 <= i < |calls| => OnTable(name, calls[i]))
  }

  /** On one table, a transaction is the sequence of the table calls: records and mark. */
  lemma {:induction false} OneTableIsExec(w: Work, name: string, calls: seq<S.Call>)
    requires name in w.store
    ensures var done := S.ExecAll(S.Work(w.store[name], w.result), calls);
      PerformAll(w, OnOne(name, calls)) == Work(w.store[name := done.table], done.result)
  {
    if calls == [] {
      assert w.store[name := w.store[name]] == w.store;
    } else {
      var rest, c := calls[..|calls| - 1], calls[|calls| - 1];
      OneTableIsExec(w, name, rest);
      ExecAllSnoc(S.Work(w.store[name], w.result), rest, c);
      assert calls == rest + [c];
      assert OnOne(name, calls)[..|rest|] == OnOne(name, rest);
    }
  }

  /** Nothing was thrown by the calls on the table `name`. */
  predicate Quiet(store: Store, calls: seq<Call>, name: string)
    requires name in store
  {
    S.NothingThrown(S.Work(store[name], S.OK), CallsOn(calls, name))
  }

  ghost predicate AllQuiet(store: Store, calls: seq<Call>) {
    forall name :: name in store ==> Quiet(store, calls, name)
  }

  lemma QuietTableSnoc(w: Work, calls: seq<Call>, name: string)
    requires calls != [] && calls[|calls| - 1].OnTable? && name in w.store
    ensures Quiet(w.store, calls, name) <==>
      && Quiet(w.store, calls[..|calls| - 1], name)
      && (calls[|calls| - 1].name == name ==> DecisionAt(w, calls, |calls| - 1).None?)
  {
    var rest, c := calls[..|calls| - 1], calls[|calls| - 1];
    TablesAreIndependent(w, rest, name);
    if c.name == name {
      ExecAllSnoc(S.Work(w.store[name], S.OK), CallsOn(rest, name), c.call);
    } else {
      assert CallsOn(calls, name) == CallsOn(rest, name);
    }
  }

  lemma QuietSnoc(w: Work, calls: seq<Call>)
    requires calls != [] && calls[|calls| - 1].OnTable?
    requires calls[|calls| - 1].name in PerformAll(w, calls[..|calls| - 1]).store ==> calls[|calls| - 1].name in w.store
    ensures AllQuiet(w.store, calls) <==>
      AllQuiet(w.store, calls[..|calls| - 1]) && DecisionAt(w, calls, |calls| - 1).None?
  {
    forall name | name in w.store
      ensures Quiet(w.store, calls, name) <==>
        && Quiet(w.store, calls[..|calls| - 1], name)
        && (calls[|calls| - 1].name == name ==> DecisionAt(w, calls, |calls| - 1).None?)
    {
      QuietTableSnoc(w, calls, name);
    }
  }

  lemma {:induction false} SameTables(w: Work, calls: seq<Call>)
    requires forall c :: c in calls ==> c.OnTable?
    ensures forall n :: n in PerformAll(w, calls).store <==> n in w.store
  {
    if calls != [] {
      assert calls[|calls| - 1] in calls;
      SameTables(w, calls[..|calls| - 1]);
    }
  }

  lemma OkSnoc(w: Work, calls: seq<Call>)
    requires calls != [] && calls[|calls| - 1].OnTable?
    ensures PerformAll(w, calls).result.code.Success? <==>
      PerformAll(w, calls[..|calls| - 1]).result.code.Success? && DecisionAt(w, calls, |calls| - 1).None?
  {
  }

  /** A transaction of table calls, on any number of tables, ends ok exactly if none of its calls threw. */
  lemma {:induction false} OkMeansAllQuiet(w: Work, calls: seq<Call>)
    requires w.result.code.Success? && forall c :: c in calls ==> c.OnTable?
    ensures PerformAll(w, calls).result.code.Success? <==> AllQuiet(w.store, calls)
  {
    if calls != [] {
      var rest := calls[..|calls| - 1];
      assert calls[|calls| - 1] in calls && forall c :: c in rest ==> c in calls;
      OkMeansAllQuiet(w, rest);
      SameTables(w, rest);
      QuietSnoc(w, calls);
      OkSnoc(w, calls);
    }
  }

  /** A call has thrown, and no `operator<<` came after it. */
  ghost predicate Spoiled(w: Work, calls: seq<Call>) {
    exists k :: 0 <= k < |calls| && SpoiledAt(w, calls, k)
  }

  predicate SpoiledAt(w: Work, calls: seq<Call>, k: nat)
    requires k < |calls|
  {
    calls[k].OnTable? && DecisionAt(w, calls, k).Some? && forall i :: k < i < |calls| ==> !calls[i].Shift?
  }

  lemma {:induction false} SpoiledStays(w: Work, calls: seq<Call>, k: nat)
    requires k < |calls| && SpoiledAt(w, calls, k)
    ensures !PerformAll(w, calls).result.code.Success?
  {
    var n := |calls| - 1;
    if k < n {
      assert calls[..n][..k] == calls[..k];
      assert SpoiledAt(w, calls[..n], k);
      SpoiledStays(w, calls[..n], k);
      assert !calls[n].Shift?;
    }
  }

  /** Then the transaction fails, whatever else it did. */
  lemma SpoiledFails(w: Work, calls: seq<Call>)
    requires Spoiled(w, calls)
    ensures !PerformAll(w, calls).result.code.Success?
  {
    var k :| 0 <= k < |calls| && SpoiledAt(w, calls, k);
    SpoiledStays(w, calls, k);
  }
}
