/** Every run of the protocol is finite, and where it can only wait, every request has been resumed. */
module ProtocolQuiescence {
  import opened Messages
  import opened Protocol
  import opened ProtocolInvariant
  import opened Runs

  /** What is still to be done for one entry; a request that has not been sent includes the cost of its message. */
  function Weight(e: Entry): nat {
    (match e.phase
     case Created => 10
     case Stored => 9
     case Sent => 3
     case Awaiting => 0)
    + (match e.timer
       case Idle => 0
       case Armed => 2
       case Queued(_) => 1
       case Spent => 0)
    + (if e.disposed then 0 else 1)
  }

  function Load(es: seq<Entry>): nat {
    if es == [] then 0 else Load(es[..|es| - 1]) + Weight(es[|es| - 1])
  }

  /** Work left inside the client. */
  function ClientLoad(s: State): nat {
    13 * s.quota + 12 * |s.made.Keys| + s.others + Load(s.entries)
  }

  /** Work left outside: each message on its way costs less the further it has come. */
  function NetworkLoad(s: State): nat {
    6 * s.fuel + 5 * |s.toPeer| + 4 * |s.atPeer| + 3 * |s.toClient| + 2 * |s.inbox| + |s.held|
  }

  function Measure(s: State): nat {
    ClientLoad(s) + NetworkLoad(s)
  }

  lemma {:induction false} LoadUpdate(es: seq<Entry>, k: nat, e: Entry)
    requires k < |es|
    ensures Load(es[k := e]) + Weight(es[k]) == Load(es) + Weight(e)
  {
    var n := |es| - 1;
    if k == n {
      assert es[k := e][..n] == es[..n];
    } else {
      assert es[k := e][..n] == es[..n][k := e];
      LoadUpdate(es[..n], k, e);
    }
  }

  lemma LoadAppend(es: seq<Entry>, e: Entry)
    ensures Load(es + [e]) == Load(es) + Weight(e)
  {
    assert (es + [e])[..|es|] == es;
  }

  /** A step on one entry makes it lighter by more than what it puts on the network. */
  lemma TouchLightens(s: State, t: State, k: nat)
    requires Touches(s, t, k)
    requires NetworkLoad(t) + Weight(t.entries[k]) < NetworkLoad(s) + Weight(s.entries[k])
    ensures Measure(t) < Measure(s)
  {
    LoadUpdate(s.entries, k, t.entries[k]);
  }

  lemma SuspendStepIsLighter(s: State, e: Event)
    requires Enabled(s, e) && (e.Store? || e.Send? || e.Arm?)
    requires EntryOk(s.entries[e.k], s.answered)
    ensures NetworkLoad(Step(s, e)) + Weight(Step(s, e).entries[e.k]) < NetworkLoad(s) + Weight(s.entries[e.k])
  {
  }

  lemma WaitStepIsLighter(s: State, e: Event)
    requires Enabled(s, e) && (e.Expire? || e.Dispose?)
    ensures NetworkLoad(Step(s, e)) == NetworkLoad(s) && Weight(Step(s, e).entries[e.k]) < Weight(s.entries[e.k])
  {
  }

  lemma TimerStepIsLighter(s: State, k: nat)
    requires Enabled(s, RunTimer(k))
    ensures var t := Step(s, RunTimer(k));
      NetworkLoad(t) == NetworkLoad(s) && Weight(t.entries[k]) < Weight(s.entries[k])
  {
  }

  lemma SetStepIsLighter(s: State, h: Held)
    requires Enabled(s, Set(h))
    ensures var t := Step(s, Set(h));
      NetworkLoad(t) + Weight(t.entries[h.entry]) < NetworkLoad(s) + Weight(s.entries[h.entry])
  {
  }

  lemma EntryStepDecreases(s: State, e: Event)
    requires Enabled(s, e) && ChangesOneEntry(e) && EntriesOk(s)
    ensures Measure(Step(s, e)) < Measure(s)
  {
    if e.Set? {
      SetStepIsLighter(s, e.h);
    } else if e.Store? || e.Send? || e.Arm? {
      SuspendStepIsLighter(s, e);
    } else if e.RunTimer? {
      TimerStepIsLighter(s, e.k);
    } else {
      WaitStepIsLighter(s, e);
    }
    EntryStepTouches(s, e);
    TouchLightens(s, Step(s, e), EntryOf(e));
  }

  lemma RequestStepIsLighter(s: State, e: Event)
    requires Enabled(s, e) && MovesRequest(e)
    ensures NetworkLoad(Step(s, e)) < NetworkLoad(s)
  {
  }

  lemma LookUpIsLighter(s: State, raw: Raw)
    requires raw in s.inbox
    ensures NetworkLoad(LookUpStep(s, raw)) < NetworkLoad(s)
  {
  }

  lemma ReplyStepIsLighter(s: State, e: Event)
    requires Enabled(s, e) && MovesReply(e)
    ensures NetworkLoad(Step(s, e)) < NetworkLoad(s)
  {
    if e.LookUp? {
      LookUpIsLighter(s, e.raw);
    }
  }

  lemma KeysGrowByOne(made: map<Id, Message>, m: Message)
    ensures |made[m.id := m].Keys| <= |made.Keys| + 1
  {
    assert made[m.id := m].Keys == made.Keys + {m.id};
  }

  lemma DrawDecreases(s: State, e: Event)
    requires Enabled(s, e) && DrawsId(e)
    ensures Measure(Step(s, e)) < Measure(s)
  {
    if e.Make? {
      KeysGrowByOne(s.made, MakeRequest(NthId(s.issued), e.action, e.data));
    }
  }

  lemma IssueDecreases(s: State, id: Id)
    requires id in s.made
    ensures Measure(IssueStep(s, id)) < Measure(s)
  {
    LoadAppend(s.entries, NewEntry(s.made[id]));
    assert (s.made - {id}).Keys == s.made.Keys - {id};
  }

  /** Every step, whoever takes it, makes the measure smaller. */
  lemma StepDecreases(s: State, e: Event)
    requires Enabled(s, e) && EntriesOk(s)
    ensures Measure(Step(s, e)) < Measure(s)
  {
    if ChangesOneEntry(e) {
      EntryStepDecreases(s, e);
    } else if e.Issue? {
      IssueDecreases(s, e.id);
    } else if DrawsId(e) {
      DrawDecreases(s, e);
    } else {
      QuietStep(s, e);
      if MovesRequest(e) {
        RequestStepIsLighter(s, e);
      } else {
        ReplyStepIsLighter(s, e);
      }
    }
  }

  /** A run is no longer than the measure it starts with. */
  lemma {:induction false} RunsAreFinite(s: State, trace: seq<Event>)
    requires Inv(s) && Fires(Next, s, trace)
    ensures |trace| + Measure(Run(Next, s, trace)) <= Measure(s)
  {
    if trace != [] {
      var n := |trace| - 1;
      RunsAreFinite(s, trace[..n]);
      RunKeepsInv(s, trace[..n]);
      StepDecreases(Run(Next, s, trace[..n]), trace[n]);
    }
  }

  /** A run with `quota` requests, `others` ids drawn by somebody else and `fuel` copies and unsolicited messages has
      at most that many steps. */
  lemma RunBound(start: State, trace: seq<Event>)
    requires Initial(start) && Fires(Next, start, trace)
    ensures |trace| <= 13 * start.quota + start.others + 6 * start.fuel
  {
    RunsAreFinite(start, trace);
  }

  /** Steps nobody is bound to take: new requests and ids, copies made by the network, unsolicited messages. */
  predicate Optional(e: Event) {
    e.Make? || e.DrawElsewhere? || e.CopyRequest? || e.PeerRepeat? || e.PeerChatter? || e.CopyReply?
  }

  ghost predicate Quiescent(s: State) {
    forall e :: Enabled(s, e) ==> Optional(e)
  }

  predicate AllResumedOnce(s: State) {
    forall k :: 0 <= k < |s.entries| ==> s.entries[k].response.Some? && |s.entries[k].resumes| == 1
  }

  lemma FinishedEntry(e: Entry, answered: set<Message>)
    requires EntryOk(e, answered) && e.phase.Awaiting? && !e.timer.Armed? && !e.timer.Queued?
    ensures e.timer.Spent? && e.response.Some? && |e.resumes| == 1
  {
  }

  lemma PhaseSettled(s: State, k: nat)
    requires Quiescent(s) && k < |s.entries|
    ensures s.entries[k].phase.Awaiting?
  {
    assert !Enabled(s, Store(k, 0)) && !Enabled(s, Send(k)) && !Enabled(s, Arm(k));
  }

  lemma TimerSettled(s: State, k: nat)
    requires Quiescent(s) && k < |s.entries|
    ensures !s.entries[k].timer.Armed? && !s.entries[k].timer.Queued?
    ensures s.entries[k].resumes != [] ==> s.entries[k].disposed
  {
    assert !Enabled(s, Expire(k)) && !Enabled(s, RunTimer(k)) && !Enabled(s, Dispose(k));
  }

  lemma QuiescentEntry(s: State, k: nat)
    requires EntriesOk(s) && Quiescent(s) && k < |s.entries|
    ensures s.entries[k].timer.Spent? && s.entries[k].disposed
    ensures s.entries[k].response.Some? && |s.entries[k].resumes| == 1
  {
    PhaseSettled(s, k);
    TimerSettled(s, k);
    FinishedEntry(s.entries[k], s.answered);
  }

  lemma QuiescentQueues(s: State)
    requires Quiescent(s)
    ensures s.toPeer == multiset{} && s.atPeer == multiset{}
    ensures s.toClient == multiset{} && s.inbox == multiset{}
  {
    forall m ensures m !in s.toPeer && m !in s.atPeer {
      assert !Enabled(s, LoseRequest(m)) && !Enabled(s, PeerIgnore(m));
    }
    forall r ensures r !in s.toClient && r !in s.inbox {
      assert !Enabled(s, Post(r)) && !Enabled(s, LookUp(r));
    }
  }

  lemma QuiescentHeld(s: State)
    requires FlightOk(s) && Quiescent(s)
    ensures s.held == multiset{}
  {
    forall h ensures h !in s.held {
      assert !Enabled(s, Set(h));
      assert h in s.held ==> HeldOk(s, h);
    }
  }

  /** Nothing is pending or in flight, no timer is running, every request made so far was handed to the requester
      and has been resumed exactly once. */
  predicate Done(s: State) {
    && AllResumedOnce(s) && s.pending == map[] && s.made == map[]
    && (forall k :: 0 <= k < |s.entries| ==> s.entries[k].timer.Spent? && s.entries[k].disposed)
    && s.toPeer == multiset{} && s.atPeer == multiset{}
    && s.toClient == multiset{} && s.inbox == multiset{} && s.held == multiset{}
  }

  /** When nothing is left that has to happen, everything is done. */
  lemma QuiescentMeansDone(s: State)
    requires Inv(s) && Quiescent(s)
    ensures Done(s)
  {
    forall k | 0 <= k < |s.entries|
      ensures s.entries[k].response.Some? && |s.entries[k].resumes| == 1
      ensures s.entries[k].timer.Spent? && s.entries[k].disposed
    {
      QuiescentEntry(s, k);
    }
    QuiescentQueues(s);
    QuiescentHeld(s);
    forall i: Id ensures i !in s.pending && i !in s.made {
      assert !Enabled(s, Issue(i));
    }
  }

  lemma SomethingToDo(s: State) returns (e: Event)
    requires Inv(s) && !Quiescent(s)
    ensures Enabled(s, e) && !Optional(e)
    ensures Inv(Step(s, e)) && Measure(Step(s, e)) < Measure(s)
  {
    e :| Enabled(s, e) && !Optional(e);
    StepDecreases(s, e);
    StepKeepsInv(s, e);
  }

  /** `trace` leads from `s` to a state where everything is done and takes no optional step. */
  ghost predicate Completes(s: State, trace: seq<Event>) {
    && Fires(Next, s, trace)
    && Quiescent(Run(Next, s, trace)) && Done(Run(Next, s, trace))
    && forall e :: e in trace ==> !Optional(e)
  }

  lemma CompletesCons(s: State, e: Event, rest: seq<Event>)
    requires Enabled(s, e) && !Optional(e) && Completes(Step(s, e), rest)
    ensures Completes(s, [e] + rest)
  {
    Snoc(Next, s, [], e);
    assert [] + [e] == [e];
    Concat(Next, s, [e], rest);
  }

  /** From every state that satisfies the invariant, so from every reachable one, the run can be completed: by
      obligatory steps alone, until every request has been resumed exactly once and nothing is pending. */
  lemma {:induction false} CanComplete(s: State) returns (trace: seq<Event>)
    requires Inv(s)
    ensures Completes(s, trace)
    decreases Measure(s)
  {
    if Quiescent(s) {
      QuiescentMeansDone(s);
      trace := [];
    } else {
      var e := SomethingToDo(s);
      var rest := CanComplete(Step(s, e));
      CompletesCons(s, e, rest);
      trace := [e] + rest;
    }
  }

  /** A request is never lost: it is still to be made, made, or with the requester. */
  lemma {:induction false} RequestsConserved(s: State, trace: seq<Event>)
    requires Inv(s) && Fires(Next, s, trace)
    ensures var t := Run(Next, s, trace);
      t.quota + |t.made.Keys| + |t.entries| == s.quota + |s.made.Keys| + |s.entries|
  {
    if trace != [] {
      var n := |trace| - 1;
      RequestsConserved(s, trace[..n]);
      RunKeepsInv(s, trace[..n]);
      StepConservesRequests(Run(Next, s, trace[..n]), trace[n]);
    }
  }

  lemma MakeConserves(s: State, action: Action, data: string)
    requires IdsOk(s) && s.quota > 0
    ensures |MakeStep(s, action, data).made.Keys| == |s.made.Keys| + 1
  {
    var m := MakeRequest(NthId(s.issued), action, data);
    NextIdIsFresh(s);
    assert s.made[m.id := m].Keys == s.made.Keys + {m.id};
  }

  lemma IssueConserves(s: State, id: Id)
    requires IdsOk(s) && PendingOk(s) && id in s.made
    ensures |IssueStep(s, id).made.Keys| + |IssueStep(s, id).entries| == |s.made.Keys| + |s.entries|
  {
    assert (s.made - {id}).Keys == s.made.Keys - {id};
  }

  lemma StepConservesRequests(s: State, e: Event)
    requires IdsOk(s) && PendingOk(s) && Enabled(s, e)
    ensures var t := Step(s, e);
      t.quota + |t.made.Keys| + |t.entries| == s.quota + |s.made.Keys| + |s.entries|
  {
    if e.Make? {
      MakeConserves(s, e.action, e.data);
    } else if e.Issue? {
      IssueConserves(s, e.id);
    } else if ChangesOneEntry(e) {
      EntryStepTouches(s, e);
    } else if !e.DrawElsewhere? {
      QuietStep(s, e);
    }
  }

  /** A run that has come to its end, with no step of anybody left, has made all its requests and has resumed every
      one of them exactly once. */
  lemma MaximalRunResumesAll(start: State, trace: seq<Event>)
    requires Initial(start) && Fires(Next, start, trace)
    requires forall e :: !Enabled(Run(Next, start, trace), e)
    ensures |Run(Next, start, trace).entries| == start.quota
    ensures Done(Run(Next, start, trace))
  {
    var s := Run(Next, start, trace);
    RunKeepsInv(start, trace);
    RequestsConserved(start, trace);
    assert !Enabled(s, Make(Start, ""));
    QuiescentMeansDone(s);
  }
}
