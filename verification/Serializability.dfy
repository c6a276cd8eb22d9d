/** Every interleaving of readers and writers equals the writers run one after the other. */
module Serializability {
  import opened Runs
  import S = TableSpec
  import opened Transactions
  import opened WriterCalls

  /** The calls made through an operation, read off the trace. */
  function CallsOf(trace: seq<Event>, id: nat): seq<Call> {
    if trace == [] then []
    else
      var e := trace[|trace| - 1];
      CallsOf(trace[..|trace| - 1], id) + if e.Do? && e.id == id then [e.call] else []
  }

  /** The writers, in the order in which they took the lock. */
  function Writers(trace: seq<Event>): seq<nat> {
    if trace == [] then []
    else
      var e := trace[|trace| - 1];
      Writers(trace[..|trace| - 1]) + if e.Lock? && !e.kind.Read? then [e.id] else []
  }

  /** The operation has committed or been destroyed. */
  predicate Finished(trace: seq<Event>, id: nat) {
    Commit(id) in trace || Close(id) in trace
  }

  /** The store after running one writer alone: its calls count if it finished with an ok result. */
  function RunAlone(store: Store, trace: seq<Event>, id: nat): Store {
    var w := PerformAll(Work(store, S.OK), CallsOf(trace, id));
    if Finished(trace, id) && w.result.code.Success? then w.store else store
  }

  /** The store after running the writers of `order` one after the other. */
  function Replay(store: Store, trace: seq<Event>, order: seq<nat>): Store {
    if order == [] then store
    else RunAlone(Replay(store, trace, order[..|order| - 1]), trace, order[|order| - 1])
  }

  lemma Appended(trace: seq<Event>, e: Event, id: nat)
    ensures CallsOf(trace + [e], id) == CallsOf(trace, id) + if e.Do? && e.id == id then [e.call] else []
    ensures Writers(trace + [e]) == Writers(trace) + if e.Lock? && !e.kind.Read? then [e.id] else []
    ensures Finished(trace + [e], id) <==> Finished(trace, id) || e == Commit(id) || e == Close(id)
  {
    assert (trace + [e])[..|trace|] == trace;
  }

  /** What the trace says about an operation is what the state says. */
  ghost predicate OpAgrees(trace: seq<Event>, s: State, id: nat) {
    if id in s.ops then
      && s.ops[id].calls == CallsOf(trace, id)
      && (Finished(trace, id) <==> s.ops[id].stage.Ended? || s.ops[id].stage.Released?)
    else CallsOf(trace, id) == [] && !Finished(trace, id)
  }

  ghost predicate WritersAgree(trace: seq<Event>, s: State) {
    var order := Writers(trace);
    && (forall id :: id in order <==> id in s.ops && !s.ops[id].kind.Read?)
    && (forall i, j :: 0 <= i < j < |order| ==> order[i] != order[j])
    && (forall id :: id in s.db.unique ==> |order| > 0 && order[|order| - 1] == id)
  }

  ghost predicate Agrees(trace: seq<Event>, s: State) {
    (forall id :: OpAgrees(trace, s, id)) && WritersAgree(trace, s)
  }

  lemma OtherOpAgrees(trace: seq<Event>, s: State, e: Event, id: nat)
    requires OpAgrees(trace, s, id) && Enabled(s, e) && e.id != id
    ensures OpAgrees(trace + [e], Step(s, e), id)
  {
    Appended(trace, e, id);
  }

  lemma OwnOpAgrees(trace: seq<Event>, s: State, e: Event)
    requires OpAgrees(trace, s, e.id) && Enabled(s, e)
    requires e.id in s.ops ==> OpOk(s.db, e.id, s.ops[e.id])
    ensures OpAgrees(trace + [e], Step(s, e), e.id)
  {
    Appended(trace, e, e.id);
  }

  /** What a step changes in the set of operations and in the exclusive lock. */
  ghost predicate Follows(s: State, e: Event, t: State) {
    && t.ops.Keys == s.ops.Keys + {e.id}
    && (forall id :: id in s.ops ==> t.ops[id].kind == s.ops[id].kind)
    && (e.Lock? ==> e.id !in s.ops && t.ops[e.id].kind == e.kind)
    && (!e.Lock? ==> e.id in s.ops && t.db.unique <= s.db.unique)
    && (e.Lock? ==> s.db.unique == {} && t.db.unique == if e.kind.Read? then {} else {e.id})
  }

  lemma StepFollows(s: State, e: Event)
    requires Enabled(s, e)
    ensures Follows(s, e, Step(s, e))
  {
  }

  lemma FollowersAgree(trace: seq<Event>, s: State, e: Event, t: State)
    requires WritersAgree(trace, s) && Follows(s, e, t)
    ensures WritersAgree(trace + [e], t)
  {
    Appended(trace, e, e.id);
  }

  lemma StepAgrees(trace: seq<Event>, s: State, e: Event)
    requires Inv(s) && Agrees(trace, s) && Enabled(s, e)
    ensures Agrees(trace + [e], Step(s, e))
  {
    forall id ensures OpAgrees(trace + [e], Step(s, e), id) {
      if id == e.id {
        OwnOpAgrees(trace, s, e);
      } else {
        OtherOpAgrees(trace, s, e, id);
      }
    }
    StepFollows(s, e);
    FollowersAgree(trace, s, e, Step(s, e));
  }

  lemma {:induction false} RunAgrees(store: Store, trace: seq<Event>)
    requires Fires(Next, Init(store), trace)
    ensures Agrees(trace, Run(Next, Init(store), trace))
  {
    if trace != [] {
      var n := |trace| - 1;
      RunAgrees(store, trace[..n]);
      RunInv(store, trace[..n]);
      StepAgrees(trace[..n], Run(Next, Init(store), trace[..n]), trace[n]);
      assert trace == trace[..n] + [trace[n]];
    }
  }

  /** A writer contributes the same, or nothing in either trace. */
  predicate SameShare(t: seq<Event>, u: seq<Event>, id: nat) {
    || (!Finished(t, id) && !Finished(u, id))
    || (CallsOf(t, id) == CallsOf(u, id) && Finished(t, id) == Finished(u, id))
  }

  lemma {:induction false} ReplaySame(store: Store, t: seq<Event>, u: seq<Event>, order: seq<nat>)
    requires forall id :: id in order ==> SameShare(t, u, id)
    ensures Replay(store, t, order) == Replay(store, u, order)
  {
    if order != [] {
      ReplaySame(store, t, u, order[..|order| - 1]);
      assert order[|order| - 1] in order;
    }
  }

  /** A new writer has no share yet. */
  lemma ReplayNew(store: Store, trace: seq<Event>, e: Event)
    requires e.Lock? && !Finished(trace, e.id)
    ensures Replay(store, trace + [e], Writers(trace + [e])) == Replay(store, trace, Writers(trace))
  {
    var order, t := Writers(trace), trace + [e];
    Appended(trace, e, e.id);
    forall id | id in order ensures SameShare(trace, t, id) {
      Appended(trace, e, id);
    }
    ReplaySame(store, trace, t, order);
    if e.kind.Read? {
      assert Writers(t) == order;
    } else {
      assert Writers(t)[..|order|] == order;
    }
  }

  lemma ReplayIdle(store: Store, trace: seq<Event>, e: Event)
    requires !e.Lock?
    requires forall id :: id in Writers(trace) ==> SameShare(trace, trace + [e], id)
    ensures Replay(store, trace + [e], Writers(trace + [e])) == Replay(store, trace, Writers(trace))
  {
    Appended(trace, e, e.id);
    assert Writers(trace + [e]) == Writers(trace);
    ReplaySame(store, trace, trace + [e], Writers(trace));
  }

  /** When the last writer finishes, its share is added at the end. */
  lemma ReplayFinish(store: Store, trace: seq<Event>, e: Event)
    requires (e.Commit? || e.Close?) && !Finished(trace, e.id)
    requires |Writers(trace)| > 0 && Writers(trace)[|Writers(trace)| - 1] == e.id
    requires e.id !in Writers(trace)[..|Writers(trace)| - 1]
    ensures Replay(store, trace + [e], Writers(trace + [e])) ==
      var before := Replay(store, trace, Writers(trace));
      var w := PerformAll(Work(before, S.OK), CallsOf(trace, e.id));
      if w.result.code.Success? then w.store else before
  {
    var order, t := Writers(trace), trace + [e];
    var n := |order| - 1;
    Appended(trace, e, e.id);
    forall id | id in order[..n] ensures SameShare(trace, t, id) {
      Appended(trace, e, id);
    }
    ReplaySame(store, trace, t, order[..n]);
    assert Writers(t) == order;
    assert CallsOf(t, e.id) == CallsOf(trace, e.id);
  }

  predicate FinishesWriter(s: State, e: Event)
    requires Enabled(s, e)
  {
    (e.Commit? || e.Close?) && !s.ops[e.id].kind.Read? && s.ops[e.id].stage.Live?
  }

  /** The committed store changes only where a writer finishes with an ok result. */
  lemma StepCommits(s: State, e: Event)
    requires Inv(s) && Enabled(s, e)
    ensures Step(s, e).db.committed ==
      if FinishesWriter(s, e) && s.ops[e.id].result.code.Success? then s.ops[e.id].view else s.db.committed
  {
    assert e.id in s.ops ==> OpOk(s.db, e.id, s.ops[e.id]);
  }

  lemma FinishSerializes(store: Store, trace: seq<Event>, s: State, e: Event)
    requires Inv(s) && Agrees(trace, s) && Enabled(s, e) && FinishesWriter(s, e)
    requires s.db.committed == Replay(store, trace, Writers(trace))
    ensures Step(s, e).db.committed == Replay(store, trace + [e], Writers(trace + [e]))
  {
    StepCommits(s, e);
    assert OpOk(s.db, e.id, s.ops[e.id]) && OpAgrees(trace, s, e.id);
    assert e.id in s.db.unique;
    ReplayFinish(store, trace, e);
  }

  lemma OtherSerializes(store: Store, trace: seq<Event>, s: State, e: Event)
    requires Inv(s) && Agrees(trace, s) && Enabled(s, e) && !FinishesWriter(s, e) && !e.Lock?
    requires s.db.committed == Replay(store, trace, Writers(trace))
    ensures Step(s, e).db.committed == Replay(store, trace + [e], Writers(trace + [e]))
  {
    StepCommits(s, e);
    forall id | id in Writers(trace) ensures SameShare(trace, trace + [e], id) {
      Appended(trace, e, id);
      assert OpAgrees(trace, s, id);
    }
    ReplayIdle(store, trace, e);
  }

  lemma StepSerializes(store: Store, trace: seq<Event>, s: State, e: Event)
    requires Inv(s) && Agrees(trace, s) && Enabled(s, e)
    requires s.db.committed == Replay(store, trace, Writers(trace))
    ensures Step(s, e).db.committed == Replay(store, trace + [e], Writers(trace + [e]))
  {
    if e.Lock? {
      assert OpAgrees(trace, s, e.id);
      ReplayNew(store, trace, e);
      StepCommits(s, e);
    } else if FinishesWriter(s, e) {
      FinishSerializes(store, trace, s, e);
    } else {
      OtherSerializes(store, trace, s, e);
    }
  }

  lemma RunSerializes(store: Store, before: seq<Event>, e: Event)
    requires Fires(Next, Init(store), before + [e])
    requires Fires(Next, Init(store), before)
    requires Run(Next, Init(store), before).db.committed == Replay(store, before, Writers(before))
    ensures Run(Next, Init(store), before + [e]).db.committed == Replay(store, before + [e], Writers(before + [e]))
  {
    Runs.Snoc(Next, Init(store), before, e);
    RunInv(store, before);
    RunAgrees(store, before);
    StepSerializes(store, before, Run(Next, Init(store), before), e);
  }

  /** Whatever the interleaving: the committed store is what the writers, run alone in the order of their locks,
      make of the initial store, where only those count that finished with an ok result. */
  lemma {:induction false} Serializable(store: Store, trace: seq<Event>)
    requires Fires(Next, Init(store), trace)
    ensures Run(Next, Init(store), trace).db.committed == Replay(store, trace, Writers(trace))
  {
    if trace != [] {
      var before, e := trace[..|trace| - 1], trace[|trace| - 1];
      assert trace == before + [e];
      Serializable(store, before);
      RunSerializes(store, before, e);
    }
  }

  /** Once a writer is marked, only `operator<<` can save it: without that, whatever calls follow, it contributes
      nothing. */
  lemma {:induction false} MarkedIsDropped(store: Store, trace: seq<Event>, id: nat, k: nat)
    requires k <= |CallsOf(trace, id)|
    requires !PerformAll(Work(store, S.OK), CallsOf(trace, id)[..k]).result.IsOk()
    requires forall i :: k <= i < |CallsOf(trace, id)| ==> !CallsOf(trace, id)[i].Shift?
    ensures RunAlone(store, trace, id) == store
  {
    MarkStays(Work(store, S.OK), CallsOf(trace, id), k);
  }

  lemma {:induction false} MarkStays(w: Work, calls: seq<Call>, k: nat)
    requires k <= |calls| && !PerformAll(w, calls[..k]).result.IsOk()
    requires forall i :: k <= i < |calls| ==> !calls[i].Shift?
    ensures !PerformAll(w, calls).result.IsOk()
  {
    if k == |calls| {
      assert calls[..k] == calls;
    } else {
      var n := |calls| - 1;
      assert calls[..n][..k] == calls[..k];
      MarkStays(w, calls[..n], k);
    }
  }

  /** A writer that only called its tables contributes everything if none of its calls threw, and nothing
      otherwise. */
  lemma WriterCommitsIfQuiet(store: Store, trace: seq<Event>, id: nat)
    requires Finished(trace, id) && forall c :: c in CallsOf(trace, id) ==> c.OnTable?
    ensures RunAlone(store, trace, id) ==
      if AllQuiet(store, CallsOf(trace, id)) then PerformAll(Work(store, S.OK), CallsOf(trace, id)).store else store
  {
    OkMeansAllQuiet(Work(store, S.OK), CallsOf(trace, id));
  }

  /** A writer one of whose calls threw, with no `operator<<` after it, contributes nothing. */
  lemma ThrowingIsDropped(store: Store, trace: seq<Event>, id: nat)
    requires Spoiled(Work(store, S.OK), CallsOf(trace, id))
    ensures RunAlone(store, trace, id) == store
  {
    SpoiledFails(Work(store, S.OK), CallsOf(trace, id));
  }

  /** In every reachable state a database has one writer and no readers, or only readers; every operation that is
      alive holds its lock; no lock is released by somebody who does not hold it. */
  lemma LockDiscipline(store: Store, trace: seq<Event>)
    requires Fires(Next, Init(store), trace)
    ensures var s := Run(Next, Init(store), trace);
      && !s.db.broken
      && |s.db.unique| <= 1 && (s.db.unique != {} ==> s.db.shared == {})
      && forall id :: id in s.ops ==>
           && (s.ops[id].stage.Live? ==> id in s.db.shared + s.db.unique)
           && (id in s.db.shared + s.db.unique <==> s.ops[id].unlocks == 0)
           && s.ops[id].unlocks <= s.ops[id].ends <= 1
           && (s.ops[id].closing ==> s.ops[id].ends == 1)
           && (s.ops[id].stage.Released? ==> s.ops[id].unlocks == 1)
  {
    RunInv(store, trace);
    var s := Run(Next, Init(store), trace);
    if s.db.unique != {} {
      var id :| id in s.db.unique;
      assert s.db.unique == {id};
    }
  }
}
