/** The promises of the request/response protocol, for every reachable state. */
module ProtocolTheorems {
  import opened Wrappers
  import opened Messages
  import opened Protocol
  import opened ProtocolInvariant
  import opened Runs

  /** A requester may start at any time: with the ids drawn before all with others, and as many still to be drawn as the
      counter has left. */
  lemma StartsAnywhere(quota: nat, others: nat, fuel: nat, issued: nat)
    requires issued + quota + others <= TWO_TO_THE_64
    ensures Initial(Init(quota, others, fuel, issued, set j | 0 <= j < issued :: NthId(j)))
  {
    forall i, j | 0 <= i < issued <= j < issued + quota + others ensures NthId(i) != NthId(j) {
      IdsCollide(i, j);
    }
  }

  /** A request is resumed once if it holds a response and never otherwise; it is resumed through the handle its
      own `co_await` stored. */
  lemma ResumedAtMostOnce(s: State, k: nat)
    requires Reachable(s) && k < |s.entries|
    ensures |s.entries[k].resumes| == (if s.entries[k].response.Some? then 1 else 0)
    ensures s.entries[k].response.Some? ==>
      && s.entries[k].handle.Some?
      && s.entries[k].resumes[0] == Resume(s.entries[k].handle.value, s.entries[k].response.value)
  {
    ReachableInv(s);
    assert EntryOk(s.entries[k], s.answered);
  }

  /** Whenever a response is on the wire, posted or being handled, the coroutine handle of the request with its id is
      already stored; and if nobody else has drawn that id, there is such a request. */
  lemma HandleStoredBeforeResponse(s: State, r: Message)
    requires Reachable(s) && r.kind.Response?
    requires Json(r) in s.toClient || Json(r) in s.inbox || (exists h :: h in s.held && h.message == r)
    ensures forall k :: 0 <= k < |s.entries| && s.entries[k].message.id == r.id ==> s.entries[k].handle.Some?
    ensures r.id in s.foreign || exists k :: 0 <= k < |s.entries| && s.entries[k].message.id == r.id
  {
    ReachableInv(s);
    assert ReplyOk(s, Json(r)) by {
      if h :| h in s.held && h.message == r {
        assert HeldOk(s, h);
      }
    }
    if r.id in s.owner {
      assert EntryOk(s.entries[s.owner[r.id]], s.answered);
    }
  }

  /** The same for the timer; and so no null handle is ever resumed. */
  lemma NoNullHandleResumed(s: State, k: nat)
    requires Reachable(s) && k < |s.entries|
    ensures !s.entries[k].timer.Idle? ==> s.entries[k].handle.Some?
    ensures !s.entries[k].crashed
  {
    ReachableInv(s);
    assert EntryOk(s.entries[k], s.answered);
  }

  /** However many others draw ids from the same counter: no two requests share an id, none has an id of somebody
      else, and those still to be drawn are new. */
  lemma IdsStayUnique(s: State, j: nat, k: nat)
    requires Reachable(s) && j < |s.entries| && k < |s.entries|
    ensures s.entries[j].message.id == s.entries[k].message.id <==> j == k
    ensures s.entries[k].message.id !in s.foreign
    ensures s.quota + s.others > 0 ==> s.entries[k].message.id != NthId(s.issued)
  {
    ReachableInv(s);
    if s.quota + s.others > 0 {
      NextIdIsFresh(s);
    }
  }

  /** `emplace` has never met an existing key. The pending map holds exactly the ids that were requested and have
      no response yet, each under its own entry. */
  lemma PendingMapExact(s: State, id: Id)
    requires Reachable(s)
    ensures !s.collided
    ensures id in s.pending <==>
      exists k :: 0 <= k < |s.entries| && s.entries[k].message.id == id && s.entries[k].response.None?
    ensures id in s.pending ==>
      s.pending[id] < |s.entries| && s.entries[s.pending[id]].message.id == id
  {
    ReachableInv(s);
    if id in s.pending {
      assert s.entries[s.owner[id]].message.id == id;
    }
  }

  /** Only a set step and a timer that was not aborted complete a request. */
  lemma WhatCompletes(s: State, e: Event, k: nat)
    requires Enabled(s, e) && k < |s.entries|
    requires k < |Step(s, e).entries| && s.entries[k].response.None? && Step(s, e).entries[k].response.Some?
    ensures (e.Set? && e.h.entry == k) || (e.RunTimer? && e.k == k && s.entries[k].timer == Queued(false))
  {
    if !ChangesEntries(e) {
      QuietStep(s, e);
    }
  }

  /** Completing a request, from whatever side, takes exactly its own id out of the pending map. */
  lemma CompletionErasesOwnKey(s: State, e: Event, k: nat)
    requires Reachable(s) && Enabled(s, e) && k < |s.entries|
    requires k < |Step(s, e).entries| && s.entries[k].response.None? && Step(s, e).entries[k].response.Some?
    ensures s.entries[k].message.id in s.pending
    ensures Step(s, e).pending == s.pending - {s.entries[k].message.id}
  {
    WhatCompletes(s, e, k);
    ReachableInv(s);
    OwnIdIsPending(s, k);
    assert e.Set? ==> HeldOk(s, e.h);
    CompletingStepErases(s, e, k);
  }

  lemma OwnIdIsPending(s: State, k: nat)
    requires OwnerOk(s) && PendingOk(s) && k < |s.entries| && s.entries[k].response.None?
    ensures s.entries[k].message.id in s.pending
  {
  }

  /** Every resumed coroutine receives a response to its own request: it was built by the peer for this request,
      or it is the "timed out" response. */
  lemma Correlation(s: State, k: nat, j: nat)
    requires Reachable(s) && k < |s.entries| && j < |s.entries[k].resumes|
    ensures var e, m := s.entries[k], s.entries[k].resumes[j].message;
      && m.kind.Response? && m.id == e.message.id && m.action == e.message.action
      && (m in s.answered || (m == TimedOut(e.message) && !m.status.ok && m.status.message == "timed out"))
  {
    ReachableInv(s);
    assert EntryOk(s.entries[k], s.answered);
  }

  /** A timer completion decides a request exactly when it was not aborted and nothing came before it; it then
      resumes the coroutine with `ok == false` and "timed out". */
  lemma TimerDecides(s: State, k: nat)
    requires Reachable(s) && Enabled(s, RunTimer(k))
    ensures var e, e' := s.entries[k], Step(s, RunTimer(k)).entries[k];
      if e.timer == Queued(false) && e.response.None?
      then e'.response == Some(TimedOut(e.message)) && |e'.resumes| == 1 && e'.resumes[0].message == TimedOut(e.message)
      else e'.response == e.response && e'.resumes == e.resumes
  {
    ReachableInv(s);
    TimerEntryDecides(s.entries[k], s.answered);
  }

  lemma TimerEntryDecides(e: Entry, answered: set<Message>)
    requires EntryOk(e, answered) && e.timer.Queued?
    ensures var e' := TimerEntry(e);
      if e.timer == Queued(false) && e.response.None?
      then e'.response == Some(TimedOut(e.message)) && |e'.resumes| == 1 && e'.resumes[0].message == TimedOut(e.message)
      else e'.response == e.response && e'.resumes == e.resumes
  {
  }

  /** A response that completes a request stops its timer: a wait that is still running ends as aborted. */
  lemma ResponseStopsTimer(e: Entry, m: Message)
    requires e.response.None?
    ensures SetEntry(e, m).response == Some(m)
    ensures SetEntry(e, m).timer == if e.timer.Armed? then Queued(true) else e.timer
  {
  }

  lemma ResponseEntryDecides(e: Entry, answered: set<Message>, m: Message)
    requires EntryOk(e, answered) && Dispatched(e.phase)
    ensures var e' := SetEntry(e, m);
      if e.response.None? then
        && e.handle.Some? && e'.resumes == [Resume(e.handle.value, m)]
        && e'.response == Some(m) && !e'.timer.Armed?
      else e' == e
  {
    if e.response.None? {
      ResponseStopsTimer(e, m);
    }
  }

  /** A response decides a request exactly when it comes first; it then resumes the coroutine that waits for it, with
      itself, and no wait is left running. */
  lemma ResponseDecides(s: State, h: Held)
    requires Reachable(s) && Enabled(s, Set(h))
    ensures var e, e' := s.entries[h.entry], Step(s, Set(h)).entries[h.entry];
      if e.response.None? then
        && e.handle.Some? && e'.resumes == [Resume(e.handle.value, h.message)]
        && e'.response == Some(h.message) && !e'.timer.Armed?
      else e' == e
  {
    ReachableInv(s);
    assert HeldOk(s, h);
    ResponseEntryDecides(s.entries[h.entry], s.answered, h.message);
  }

  /** `~Awaiter` aborts a wait that is still running and touches nothing else of the request. */
  lemma DisposeStopsTimer(s: State, k: nat)
    requires Enabled(s, Dispose(k))
    ensures var e, e' := s.entries[k], Step(s, Dispose(k)).entries[k];
      && e'.timer == (if e.timer.Armed? then Queued(true) else e.timer)
      && e'.response == e.response && e'.resumes == e.resumes && e'.handle == e.handle && e'.message == e.message
  {
  }

  lemma CompleterIsFinal(s: State, e: Event, k: nat)
    requires Enabled(s, e) && MayComplete(e) && k < |s.entries| && s.entries[k].response.Some?
    ensures Step(s, e).entries[k].response == s.entries[k].response
    ensures Step(s, e).entries[k].resumes == s.entries[k].resumes
  {
  }

  lemma StepIsFinal(s: State, e: Event, k: nat)
    requires Enabled(s, e) && k < |s.entries| && s.entries[k].response.Some?
    ensures k < |Step(s, e).entries|
    ensures Step(s, e).entries[k].response == s.entries[k].response
    ensures Step(s, e).entries[k].resumes == s.entries[k].resumes
  {
    if !ChangesEntries(e) {
      QuietStep(s, e);
    } else if MayComplete(e) {
      CompleterIsFinal(s, e, k);
    }
  }

  /** The first response wins: whatever late answers, copies and timer completions follow, neither the response
      nor the list of resumptions changes again. */
  lemma {:induction false} FirstResponseWins(s: State, trace: seq<Event>, k: nat)
    requires Fires(Next, s, trace) && k < |s.entries| && s.entries[k].response.Some?
    ensures k < |Run(Next, s, trace).entries|
    ensures Run(Next, s, trace).entries[k].response == s.entries[k].response
    ensures Run(Next, s, trace).entries[k].resumes == s.entries[k].resumes
  {
    if trace != [] {
      var n := |trace| - 1;
      FirstResponseWins(s, trace[..n], k);
      StepIsFinal(Run(Next, s, trace[..n]), trace[n], k);
    }
  }
}
