/** What the trace of a run says about its requests: who made them, who waits for them, and where the messages that
    the coroutines receive come from. */
module ProtocolHistory {
  import opened Wrappers
  import opened Messages
  import opened Protocol
  import opened ProtocolInvariant
  import opened Runs

  /** How many ids were drawn, by anybody. */
  function Draws(trace: seq<Event>): nat {
    if trace == [] then 0 else Draws(trace[..|trace| - 1]) + if DrawsId(trace[|trace| - 1]) then 1 else 0
  }

  /** `m` is the request that the application asked for in event `j`: its action, its data, and the id of its turn. */
  ghost predicate AskedAt(first: nat, trace: seq<Event>, j: nat, m: Message) {
    && j < |trace| && trace[j].Make?
    && m == Message(Request, NthId(first + Draws(trace[..j])), Status(false, ""), trace[j].action, trace[j].data)
  }

  ghost predicate Asked(first: nat, trace: seq<Event>, m: Message) {
    exists j :: 0 <= j < |trace| && AskedAt(first, trace, j, m)
  }

  /** `r` is what the peer answered to `m` in event `j`: with its status and its payload. */
  predicate RepliedAt(trace: seq<Event>, j: nat, m: Message, r: Message) {
    && j < |trace| && (trace[j].PeerAnswer? || trace[j].PeerRepeat?) && trace[j].m == m
    && r == Message(Response, m.id, trace[j].status, m.action, trace[j].payload)
  }

  ghost predicate Replied(trace: seq<Event>, m: Message, r: Message) {
    exists j :: 0 <= j < |trace| && RepliedAt(trace, j, m, r)
  }

  lemma AskedStays(first: nat, trace: seq<Event>, e: Event, m: Message)
    requires Asked(first, trace, m)
    ensures Asked(first, trace + [e], m)
  {
    var j :| 0 <= j < |trace| && AskedAt(first, trace, j, m);
    assert (trace + [e])[..j] == trace[..j] && (trace + [e])[j] == trace[j];
    assert AskedAt(first, trace + [e], j, m);
  }

  lemma AskedNow(first: nat, trace: seq<Event>, e: Event)
    requires e.Make?
    ensures Asked(first, trace + [e],
      Message(Request, NthId(first + Draws(trace)), Status(false, ""), e.action, e.data))
  {
    assert (trace + [e])[..|trace|] == trace && (trace + [e])[|trace|] == e;
    assert AskedAt(first, trace + [e], |trace|,
      Message(Request, NthId(first + Draws(trace)), Status(false, ""), e.action, e.data));
  }

  lemma RepliedStays(trace: seq<Event>, e: Event, m: Message, r: Message)
    requires Replied(trace, m, r)
    ensures Replied(trace + [e], m, r)
  {
    var j :| 0 <= j < |trace| && RepliedAt(trace, j, m, r);
    assert (trace + [e])[j] == trace[j];
    assert RepliedAt(trace + [e], j, m, r);
  }

  lemma RepliedNow(trace: seq<Event>, e: Event, r: Message)
    requires e.PeerAnswer? || e.PeerRepeat?
    requires r == Message(Response, e.m.id, e.status, e.m.action, e.payload)
    ensures Replied(trace + [e], e.m, r)
  {
    assert (trace + [e])[|trace|] == e;
    assert RepliedAt(trace + [e], |trace|, e.m, r);
  }

  /** The counter has been advanced by the draws of the run. */
  lemma {:induction false} IssuedCounts(start: State, trace: seq<Event>)
    requires Fires(Next, start, trace)
    ensures Run(Next, start, trace).issued == start.issued + Draws(trace)
  {
    if trace != [] {
      var n := |trace| - 1;
      IssuedCounts(start, trace[..n]);
      StepIssues(Run(Next, start, trace[..n]), trace[n]);
    }
  }

  lemma StepIssues(s: State, e: Event)
    requires Enabled(s, e)
    ensures Step(s, e).issued == s.issued + if DrawsId(e) then 1 else 0
  {
    if ChangesOneEntry(e) {
      EntryStepTouches(s, e);
    } else if !ChangesEntries(e) && !DrawsId(e) {
      QuietStep(s, e);
    }
  }

  /** `m` is a request of this requester, made or issued. */
  ghost predicate Known(s: State, m: Message) {
    (exists i :: i in s.made && s.made[i] == m) || (exists k :: 0 <= k < |s.entries| && s.entries[k].message == m)
  }

  lemma TouchKnown(s: State, t: State, k: nat, m: Message)
    requires Touches(s, t, k) && Known(t, m)
    ensures Known(s, m)
  {
    if j :| 0 <= j < |t.entries| && t.entries[j].message == m {
      assert s.entries[j].message == m;
    }
  }

  lemma IssueKnown(s: State, id: Id, m: Message)
    requires id in s.made && Known(IssueStep(s, id), m)
    ensures Known(s, m)
  {
    var t := IssueStep(s, id);
    if j :| 0 <= j < |t.entries| && t.entries[j].message == m {
      assert (j < |s.entries| && s.entries[j].message == m) || s.made[id] == m;
    }
  }

  /** A new request comes from the application. */
  lemma StepKnown(s: State, e: Event, m: Message)
    requires Enabled(s, e) && Known(Step(s, e), m)
    ensures Known(s, m)
      || (e.Make? && m == Message(Request, NthId(s.issued), Status(false, ""), e.action, e.data))
  {
    if ChangesOneEntry(e) {
      EntryStepTouches(s, e);
      TouchKnown(s, Step(s, e), EntryOf(e), m);
    } else if e.Issue? {
      IssueKnown(s, e.id, m);
    } else if !DrawsId(e) {
      QuietStep(s, e);
    }
  }

  lemma StepKeepsAsked(first: nat, before: seq<Event>, s: State, e: Event, m: Message)
    requires Enabled(s, e) && s.issued == first + Draws(before)
    requires Known(Step(s, e), m) && (Known(s, m) ==> Asked(first, before, m))
    ensures Asked(first, before + [e], m)
  {
    StepKnown(s, e, m);
    if Known(s, m) {
      AskedStays(first, before, e, m);
    } else {
      AskedNow(first, before, e);
    }
  }

  lemma {:induction false} KnownIsAsked(start: State, trace: seq<Event>, m: Message)
    requires Initial(start) && Fires(Next, start, trace) && Known(Run(Next, start, trace), m)
    ensures Asked(start.issued, trace, m)
  {
    if trace != [] {
      var before, e := trace[..|trace| - 1], trace[|trace| - 1];
      assert trace == before + [e];
      IssuedCounts(start, before);
      if Known(Run(Next, start, before), m) {
        KnownIsAsked(start, before, m);
      }
      StepKeepsAsked(start.issued, before, Run(Next, start, before), e, m);
    }
  }

  /** Entry `k` has the handle `c`. */
  predicate HasHandle(s: State, k: nat, c: nat) {
    k < |s.entries| && s.entries[k].handle == Some(c)
  }

  lemma WaitingStepKeepsHandle(s: State, e: Event, k: nat)
    requires Enabled(s, e) && ChangesOneEntry(e) && !MayComplete(e) && !e.Store? && k < |s.entries|
    ensures k < |Step(s, e).entries| && Step(s, e).entries[k].handle == s.entries[k].handle
  {
  }

  lemma CompletingStepKeepsHandle(s: State, e: Event, k: nat)
    requires Enabled(s, e) && MayComplete(e) && k < |s.entries|
    ensures k < |Step(s, e).entries| && Step(s, e).entries[k].handle == s.entries[k].handle
  {
  }

  /** Only `Store` gives an entry a handle, and none takes it away. */
  lemma StepHandles(s: State, e: Event, k: nat, c: nat)
    requires EntriesOk(s) && Enabled(s, e)
    ensures HasHandle(Step(s, e), k, c) <==> HasHandle(s, k, c) || e == Store(k, c)
  {
    if e.Store? {
      assert EntryOk(s.entries[e.k], s.answered);
    } else if ChangesOneEntry(e) {
      EntryStepTouches(s, e);
      if k < |s.entries| {
        if MayComplete(e) {
          CompletingStepKeepsHandle(s, e, k);
        } else {
          WaitingStepKeepsHandle(s, e, k);
        }
      }
    } else if !e.Issue? {
      QuietStep(s, e);
    }
  }

  lemma RunEntriesOk(start: State, trace: seq<Event>)
    requires Initial(start) && Fires(Next, start, trace)
    ensures EntriesOk(Run(Next, start, trace))
  {
    RunKeepsInv(start, trace);
  }

  /** The handle of a request is the one that its own await stored. */
  lemma {:induction false} HandleIsStored(start: State, trace: seq<Event>, k: nat, c: nat)
    requires Initial(start) && Fires(Next, start, trace)
    ensures HasHandle(Run(Next, start, trace), k, c) <==> Store(k, c) in trace
  {
    if trace != [] {
      var n := |trace| - 1;
      HandleIsStored(start, trace[..n], k, c);
      RunEntriesOk(start, trace[..n]);
      StepHandles(Run(Next, start, trace[..n]), trace[n], k, c);
      assert trace == trace[..n] + [trace[n]];
    }
  }

  /** Every answer was given by the peer to a request it had received. */
  ghost predicate AnswersReplied(trace: seq<Event>, s: State) {
    && (forall m :: m in s.atPeer ==> m in s.seen)
    && (forall r :: r in s.answered ==> exists m :: m in s.seen && Replied(trace, m, r))
  }

  /** The peer remembers what it has received; only an answer adds to the answers. */
  ghost predicate PeerFollows(s: State, e: Event, t: State) {
    && s.seen <= t.seen
    && (forall m :: m in t.atPeer ==> m in s.atPeer || m in t.seen)
    && (forall r :: r in t.answered && r !in s.answered ==>
          && (e.PeerAnswer? || e.PeerRepeat?) && (e.m in s.atPeer || e.m in s.seen)
          && r == Message(Response, e.m.id, e.status, e.m.action, e.payload))
  }

  lemma RequestStepPeer(s: State, e: Event)
    requires Enabled(s, e) && MovesRequest(e)
    ensures PeerFollows(s, e, Step(s, e))
  {
  }

  predicate SamePeer(s: State, t: State) {
    t.seen == s.seen && t.atPeer == s.atPeer && t.answered == s.answered
  }

  lemma CompletingStepPeer(s: State, e: Event)
    requires Enabled(s, e) && MayComplete(e)
    ensures SamePeer(s, Step(s, e))
  {
  }

  lemma WaitingStepPeer(s: State, e: Event)
    requires Enabled(s, e) && ChangesEntries(e) && !MayComplete(e)
    ensures SamePeer(s, Step(s, e))
  {
  }

  lemma LookUpPeer(s: State, raw: Raw)
    requires raw in s.inbox
    ensures SamePeer(s, LookUpStep(s, raw))
  {
  }

  lemma ReplyStepPeer(s: State, e: Event)
    requires Enabled(s, e) && MovesReply(e) && !e.LookUp?
    ensures SamePeer(s, Step(s, e))
  {
  }

  lemma DrawStepPeer(s: State, e: Event)
    requires Enabled(s, e) && DrawsId(e)
    ensures SamePeer(s, Step(s, e))
  {
  }

  lemma StepPeer(s: State, e: Event)
    requires Enabled(s, e)
    ensures PeerFollows(s, e, Step(s, e))
  {
    if MovesRequest(e) {
      RequestStepPeer(s, e);
    } else if MayComplete(e) {
      CompletingStepPeer(s, e);
    } else if ChangesEntries(e) {
      WaitingStepPeer(s, e);
    } else if e.LookUp? {
      LookUpPeer(s, e.raw);
    } else if MovesReply(e) {
      ReplyStepPeer(s, e);
    } else {
      DrawStepPeer(s, e);
    }
  }

  lemma StepKeepsReplied(trace: seq<Event>, s: State, e: Event, t: State)
    requires AnswersReplied(trace, s) && PeerFollows(s, e, t)
    ensures AnswersReplied(trace + [e], t)
  {
    forall r | r in t.answered ensures exists m :: m in t.seen && Replied(trace + [e], m, r) {
      if r in s.answered {
        var m :| m in s.seen && Replied(trace, m, r);
        RepliedStays(trace, e, m, r);
        assert m in t.seen;
      } else {
        RepliedNow(trace, e, r);
        assert e.m in t.seen;
      }
    }
  }

  lemma {:induction false} RunKeepsReplied(start: State, trace: seq<Event>)
    requires Initial(start) && Fires(Next, start, trace)
    ensures AnswersReplied(trace, Run(Next, start, trace))
  {
    if trace != [] {
      var n := |trace| - 1;
      RunKeepsReplied(start, trace[..n]);
      var s, e := Run(Next, start, trace[..n]), trace[n];
      StepPeer(s, e);
      StepKeepsReplied(trace[..n], s, e, Step(s, e));
      assert trace == trace[..n] + [trace[n]];
    }
  }

  lemma ResumedThroughHandle(e: Entry, answered: set<Message>, i: nat)
    requires EntryOk(e, answered) && i < |e.resumes|
    ensures e.handle == Some(e.resumes[i].coroutine)
  {
  }

  /** The right coroutine: the handle of a request is exactly the one its `co_await` stored, and whenever the request
      resumes a coroutine it resumes that one. */
  lemma AwaiterIsResumed(start: State, trace: seq<Event>, k: nat, c: nat)
    requires Initial(start) && Fires(Next, start, trace)
    ensures var es := Run(Next, start, trace).entries;
      && (Store(k, c) in trace <==> k < |es| && es[k].handle == Some(c))
      && (Store(k, c) in trace ==> forall i :: 0 <= i < |es[k].resumes| ==> es[k].resumes[i].coroutine == c)
  {
    var s := Run(Next, start, trace);
    HandleIsStored(start, trace, k, c);
    if HasHandle(s, k, c) {
      RunKeepsInv(start, trace);
      forall i | 0 <= i < |s.entries[k].resumes| ensures s.entries[k].resumes[i].coroutine == c {
        ResumedThroughHandle(s.entries[k], s.answered, i);
      }
    }
  }

  /** The right request: what is sent for entry `k`, and so every request the peer receives, is what the application
      asked for, under the id that was drawn for it. */
  lemma RequestsAreAsked(start: State, trace: seq<Event>)
    requires Initial(start) && Fires(Next, start, trace)
    ensures var s := Run(Next, start, trace);
      && (forall k :: 0 <= k < |s.entries| ==> Asked(start.issued, trace, s.entries[k].message))
      && (forall m :: InFlight(s, m) ==> Asked(start.issued, trace, m))
  {
    RunKeepsInv(start, trace);
    var s := Run(Next, start, trace);
    forall k | 0 <= k < |s.entries| ensures Asked(start.issued, trace, s.entries[k].message) {
      KnownIsAsked(start, trace, s.entries[k].message);
    }
    forall m | InFlight(s, m) ensures Asked(start.issued, trace, m) {
      assert Origin(s, m);
    }
  }

  lemma ReplyIsToOwnRequest(s: State, k: nat, m: Message)
    requires OwnerOk(s) && FlightOk(s) && k < |s.entries| && m in s.seen && m.id == s.entries[k].message.id
    ensures m == s.entries[k].message
  {
    assert InFlight(s, m);
    assert Origin(s, m);
  }

  lemma ResumedWithAnswer(e: Entry, answered: set<Message>, i: nat)
    requires EntryOk(e, answered) && i < |e.resumes|
    ensures var r := e.resumes[i].message;
      && r.id == e.message.id
      && (r in answered || r == Message(Response, e.message.id, Status(false, "timed out"), e.message.action, ""))
  {
  }

  /** The right message: a resumed coroutine receives the status and the payload that the peer gave in answer to this
      very request, or the response of the timer. */
  lemma ReplyIsDelivered(start: State, trace: seq<Event>, k: nat, i: nat)
    requires Initial(start) && Fires(Next, start, trace)
    requires k < |Run(Next, start, trace).entries| && i < |Run(Next, start, trace).entries[k].resumes|
    ensures var e := Run(Next, start, trace).entries[k];
      var r := e.resumes[i].message;
      || Replied(trace, e.message, r)
      || r == Message(Response, e.message.id, Status(false, "timed out"), e.message.action, "")
  {
    var s := Run(Next, start, trace);
    RunKeepsInv(start, trace);
    RunKeepsReplied(start, trace);
    ResumedWithAnswer(s.entries[k], s.answered, i);
    var r := s.entries[k].resumes[i].message;
    if r in s.answered {
      var m :| m in s.seen && Replied(trace, m, r);
      ReplyIsToOwnRequest(s, k, m);
    }
  }
}
