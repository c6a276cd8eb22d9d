/** What an open reader reads, whatever other operations do in the meantime. */
module Snapshots {
  import opened Wrappers
  import opened Runs
  import opened Records
  import opened Lookups
  import opened Transactions

  /** An operation keeps its kind; a reader that has begun keeps its view. */
  lemma StepKeepsView(s: State, e: Event, id: nat)
    requires Enabled(s, e) && id in s.ops && !s.ops[id].stage.Locked?
    ensures id in Step(s, e).ops && !Step(s, e).ops[id].stage.Locked?
    ensures Step(s, e).ops[id].kind == s.ops[id].kind
    ensures s.ops[id].kind.Read? ==> Step(s, e).ops[id].view == s.ops[id].view
  {
  }

  lemma {:induction false} ViewStays(s: State, u: seq<Event>, id: nat)
    requires Fires(Next, s, u) && id in s.ops && !s.ops[id].stage.Locked?
    ensures id in Run(Next, s, u).ops && !Run(Next, s, u).ops[id].stage.Locked?
    ensures Run(Next, s, u).ops[id].kind == s.ops[id].kind
    ensures s.ops[id].kind.Read? ==> Run(Next, s, u).ops[id].view == s.ops[id].view
  {
    if u != [] {
      var n := |u| - 1;
      ViewStays(s, u[..n], id);
      StepKeepsView(Run(Next, s, u[..n]), u[n], id);
    }
  }

  /** What a reader sees is fixed when it begins. */
  lemma ReaderViewFixed(store: Store, t: seq<Event>, u: seq<Event>, id: nat)
    requires Fires(Next, Init(store), t + [Begin(id)] + u)
    ensures Fires(Next, Init(store), t)
    ensures var op := Run(Next, Init(store), t + [Begin(id)] + u).ops;
      id in op && (op[id].kind.Read? ==> op[id].view == Run(Next, Init(store), t).db.committed)
  {
    Concat(Next, Init(store), t + [Begin(id)], u);
    Snoc(Next, Init(store), t, Begin(id));
    ViewStays(Run(Next, Init(store), t + [Begin(id)]), u, id);
  }

  /** Snapshot reads. Whatever a reader looks up, and whatever others have done since it began: the answer is the
      one of the store that was committed when the reader began, and that is still the committed store. */
  lemma SnapshotReads(store: Store, t: seq<Event>, u: seq<Event>, id: nat, q: Query, a: Option<Record>)
    requires Fires(Next, Init(store), t + [Begin(id)] + u + [Look(id, q, a)])
    ensures Fires(Next, Init(store), t) && Fires(Next, Init(store), t + [Begin(id)] + u)
    ensures var s := Run(Next, Init(store), t + [Begin(id)] + u);
      && id in s.ops
      && Answers(Run(Next, Init(store), t).db.committed, s.ops[id].cursors, q, a)
      && s.db.committed == Run(Next, Init(store), t).db.committed
  {
    Snoc(Next, Init(store), t + [Begin(id)] + u, Look(id, q, a));
    ReaderViewFixed(store, t, u, id);
    RunInv(store, t + [Begin(id)] + u);
    var s := Run(Next, Init(store), t + [Begin(id)] + u);
    assert OpOk(s.db, id, s.ops[id]);
  }

  /** An open reader gets an answer to every question about a table it sees, and only one. */
  lemma LookIsAnswered(s: State, id: nat, q: Query) returns (a: Option<Record>)
    requires id in s.ops && s.ops[id].kind.Read? && s.ops[id].stage.Live?
    requires q.Increment? ==> q.c in s.ops[id].cursors && s.ops[id].cursors[q.c].at.Some?
    requires TableOf(s.ops[id].cursors, q) in s.ops[id].view
    ensures Enabled(s, Look(id, q, a))
    ensures forall b :: Enabled(s, Look(id, q, b)) ==> b == a
  {
    var t := s.ops[id].view[TableOf(s.ops[id].cursors, q)];
    if q.Get? {
      a := RecordOf(t, q.key);
    } else {
      var from := if q.Front? then Any else if q.LowerBound? then AtLeast(q.key)
                  else After(s.ops[id].cursors[q.c].at.value);
      a := LeastExists(t, from);
      forall b | Enabled(s, Look(id, q, b)) ensures b == a {
        LeastIsUnique(t, from, b, a);
      }
    }
  }

  /** An iteration: how a cursor was opened last, and everything it has shown since. */
  datatype Walk = Walk(query: Query, answers: seq<Option<Record>>)

  function WalkOf(trace: seq<Event>, id: nat, c: nat): Option<Walk> {
    if trace == [] then None
    else
      var e := trace[|trace| - 1];
      var before := WalkOf(trace[..|trace| - 1], id, c);
      if !e.Look? || e.id != id || e.query.c != c then before
      else if !e.query.Increment? then Some(Walk(e.query, [e.answer]))
      else if before.Some? then Some(before.value.(answers := before.value.answers + [e.answer]))
      else None
  }

  function KeyOf(a: Option<Record>): Option<string> {
    if a.Some? then Some(a.value.key) else None
  }

  /** The cursor of an iteration is open, on a table that the reader sees, at the last answer. */
  predicate MarkOk(op: Op, c: nat, walk: Option<Walk>) {
    if walk.None? then c !in op.cursors
    else
      && !walk.value.query.Increment? && walk.value.answers != []
      && walk.value.query.table in op.view && c in op.cursors
      && op.cursors[c] == Mark(walk.value.query.table, KeyOf(walk.value.answers[|walk.value.answers| - 1]))
  }

  /** Only readers iterate. */
  predicate WalkOk(s: State, id: nat, c: nat, walk: Option<Walk>) {
    if id in s.ops && s.ops[id].kind.Read? then MarkOk(s.ops[id], c, walk) else walk.None?
  }

  lemma StepKeepsWalk(s: State, e: Event, id: nat, c: nat, walk: Option<Walk>)
    requires Inv(s) && Enabled(s, e) && WalkOk(s, id, c, walk) && !(e.Look? && e.id == id && e.query.c == c)
    ensures WalkOk(Step(s, e), id, c, walk)
  {
    if id in s.ops {
      assert OpOk(s.db, id, s.ops[id]);
      if !s.ops[id].stage.Locked? {
        StepKeepsView(s, e, id);
      }
    }
  }

  lemma {:induction false} WalkFollowed(store: Store, trace: seq<Event>, id: nat, c: nat)
    requires Fires(Next, Init(store), trace)
    ensures WalkOk(Run(Next, Init(store), trace), id, c, WalkOf(trace, id, c))
  {
    if trace != [] {
      var n := |trace| - 1;
      var s, e := Run(Next, Init(store), trace[..n]), trace[n];
      WalkFollowed(store, trace[..n], id, c);
      if !(e.Look? && e.id == id && e.query.c == c) {
        RunInv(store, trace[..n]);
        StepKeepsWalk(s, e, id, c, WalkOf(trace[..n], id, c));
      }
    }
  }

  /** The records of `t` from position `p` on, one after the other, up to the end and not beyond it. */
  predicate Shows(t: seq<Record>, p: nat, answers: seq<Option<Record>>) {
    && p + |answers| <= |t| + 1
    && forall i :: 0 <= i < |answers| ==> answers[i] == RecordAt(t, p + i)
  }

  /** The answers of an iteration are the records of the sorted table `t` from where the cursor was opened. */
  predicate Lists(t: seq<Record>, walk: Walk) {
    !walk.query.Increment? && Shows(t, Opening(t, walk.query), walk.answers)
  }

  lemma OpenedLists(t: seq<Record>, op: Op, q: Query, a: Option<Record>)
    requires !q.Increment? && Answers(op.view, op.cursors, q, a) && Sorted(t) && Contents(t) == op.view[q.table]
    ensures Lists(t, Walk(q, [a]))
  {
    OpeningAnswer(t, op.view, op.cursors, q, a);
  }

  lemma ShowsNext(t: seq<Record>, p: nat, answers: seq<Option<Record>>, last: Record, a: Option<Record>)
    requires Sorted(t) && Shows(t, p, answers)
    requires answers != [] && answers[|answers| - 1] == Some(last)
    requires IsLeast(Contents(t), After(last.key), a)
    ensures Shows(t, p, answers + [a])
  {
    var i := p + |answers| - 1;
    assert RecordAt(t, i) == Some(last);
    NextRecord(t, i, a);
  }

  lemma IncrementLists(t: seq<Record>, op: Op, q: Query, a: Option<Record>, walk: Walk)
    requires q.Increment? && Answers(op.view, op.cursors, q, a) && MarkOk(op, q.c, Some(walk))
    requires Sorted(t) && Contents(t) == op.view[walk.query.table] && Lists(t, walk)
    ensures Lists(t, walk.(answers := walk.answers + [a]))
  {
    var last := walk.answers[|walk.answers| - 1];
    assert last.Some? && op.cursors[q.c].at == Some(last.value.key);
    ShowsNext(t, Opening(t, walk.query), walk.answers, last.value, a);
  }

  /** A reader that iterates keeps its view. */
  lemma SameView(store: Store, trace: seq<Event>, id: nat, c: nat)
    requires trace != [] && Fires(Next, Init(store), trace) && WalkOf(trace[..|trace| - 1], id, c).Some?
    ensures var s := Run(Next, Init(store), trace[..|trace| - 1]);
      && id in s.ops && id in Run(Next, Init(store), trace).ops
      && Run(Next, Init(store), trace).ops[id].view == s.ops[id].view
  {
    var n := |trace| - 1;
    var s, e := Run(Next, Init(store), trace[..n]), trace[n];
    WalkFollowed(store, trace[..n], id, c);
    RunInv(store, trace[..n]);
    assert OpOk(s.db, id, s.ops[id]);
    StepKeepsView(s, e, id);
  }

  lemma {:induction false} WalkLists(store: Store, trace: seq<Event>, id: nat, c: nat, walk: Walk, t: seq<Record>)
    requires Fires(Next, Init(store), trace) && WalkOf(trace, id, c) == Some(walk)
    requires WalkOk(Run(Next, Init(store), trace), id, c, Some(walk))
    requires Sorted(t) && Contents(t) == Run(Next, Init(store), trace).ops[id].view[walk.query.table]
    ensures Lists(t, walk)
  {
    var n := |trace| - 1;
    var s, e := Run(Next, Init(store), trace[..n]), trace[n];
    WalkFollowed(store, trace[..n], id, c);
    if !(e.Look? && e.id == id && e.query.c == c) {
      SameView(store, trace, id, c);
      WalkLists(store, trace[..n], id, c, walk, t);
    } else if e.query.Increment? {
      WalkLists(store, trace[..n], id, c, WalkOf(trace[..n], id, c).value, t);
      IncrementLists(t, s.ops[id], e.query, e.answer, WalkOf(trace[..n], id, c).value);
    } else {
      OpenedLists(t, s.ops[id], e.query, e.answer);
    }
  }

  /** Iterations read a snapshot: interleaved with anything, a cursor of a reader shows the records of its table as
      they were committed when the reader began, in order and without a gap; one that began at the front and has
      come to the end has shown the whole table. */
  lemma IterationIsSnapshot(store: Store, t: seq<Event>, u: seq<Event>, id: nat, c: nat, walk: Walk, r: seq<Record>)
    requires Fires(Next, Init(store), t + [Begin(id)] + u)
    requires WalkOf(t + [Begin(id)] + u, id, c) == Some(walk)
    ensures Fires(Next, Init(store), t)
    ensures walk.answers != [] && !walk.query.Increment? && walk.query.table in Run(Next, Init(store), t).db.committed
    ensures Sorted(r) && Contents(r) == Run(Next, Init(store), t).db.committed[walk.query.table] ==>
      && Lists(r, walk)
      && (walk.query.Front? && walk.answers[|walk.answers| - 1].None? ==>
            walk.answers == seq(|r| + 1, i requires 0 <= i => RecordAt(r, i)))
  {
    ReaderViewFixed(store, t, u, id);
    WalkFollowed(store, t + [Begin(id)] + u, id, c);
    if Sorted(r) && Contents(r) == Run(Next, Init(store), t).db.committed[walk.query.table] {
      WalkLists(store, t + [Begin(id)] + u, id, c, walk, r);
    }
  }
}
