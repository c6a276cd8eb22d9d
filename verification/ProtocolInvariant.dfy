/** What every step of the protocol keeps, and what follows for every reachable state. */
module ProtocolInvariant {
  import opened Wrappers
  import opened Messages
  import opened Protocol
  import opened Runs

  predicate Dispatched(p: Phase) {
    p.Sent? || p.Awaiting?
  }

  /** The per-entry invariant: at most one resumption, never of a null handle, only after the request was sent,
      and a timer that is used up implies a response. */
  predicate EntryOk(e: Entry, answered: set<Message>) {
    && e.message.kind.Request?
    && !e.crashed
    && (e.handle.None? <==> e.phase.Created?)
    && (e.timer.Idle? <==> !e.phase.Awaiting?)
    && (e.timer == Queued(true) || e.timer.Spent? || e.disposed ==> e.response.Some?)
    && match e.response {
         case None => e.resumes == []
         case Some(r) =>
           && Dispatched(e.phase)
           && e.resumes == [Resume(e.handle.value, r)]
           && r.kind.Response? && r.id == e.message.id && r.action == e.message.action
           && (r == TimedOut(e.message) || r in answered)
       }
  }

  predicate EntriesOk(s: State) {
    forall k :: 0 <= k < |s.entries| ==> EntryOk(s.entries[k], s.answered)
  }

  /** Every entry owns the id of its message, and nothing else is owned. */
  predicate OwnerOk(s: State) {
    && (forall k :: 0 <= k < |s.entries| ==>
          s.entries[k].message.id in s.owner && s.owner[s.entries[k].message.id] == k)
    && (forall i :: i in s.owner ==> s.owner[i] < |s.entries| && s.entries[s.owner[i]].message.id == i)
  }

  /** An id is with an entry, with a request just made, or with somebody else, and those still to be drawn are with
      nobody. */
  ghost predicate IdsOk(s: State) {
    && s.quota + s.others <= TWO_TO_THE_64
    && (forall j :: s.issued <= j < s.issued + s.quota + s.others ==>
          NthId(j) !in s.owner && NthId(j) !in s.made && NthId(j) !in s.foreign)
    && (forall i :: i in s.made ==>
          i !in s.owner && i !in s.foreign && s.made[i].id == i && s.made[i].kind.Request?)
    && (forall i :: i in s.foreign ==> i !in s.owner)
  }

  /** The keys of the pending map are exactly the ids requested and not yet completed, each at its own entry. */
  ghost predicate PendingOk(s: State) {
    && !s.collided
    && (forall i :: i in s.pending <==> i in s.owner && s.owner[i] < |s.entries| && s.entries[s.owner[i]].response.None?)
    && (forall i :: i in s.pending ==> s.pending[i] == s.owner[i])
  }

  /** The request with this id has left the client. */
  predicate Left(s: State, id: Id) {
    id in s.owner && s.owner[id] < |s.entries| && Dispatched(s.entries[s.owner[id]].phase)
  }

  /** `m` is a request that has left the client. */
  predicate Origin(s: State, m: Message) {
    Left(s, m.id) && s.entries[s.owner[m.id]].message == m
  }

  /** `r` is a response that the peer built for a request that has left the client. */
  predicate Answer(s: State, r: Message) {
    Left(s, r.id) && r.kind.Response? && r.action == s.entries[s.owner[r.id]].message.action && r in s.answered
  }

  /** Text on its way to the requester: a response in it answers one of its own requests or one of somebody else. */
  predicate ReplyOk(s: State, raw: Raw) {
    IsResponse(raw) ==> Answer(s, raw.message) || raw.message.id in s.foreign
  }

  /** A handler that has done its look-up holds an answer for the entry it found. */
  predicate HeldOk(s: State, h: Held) {
    Answer(s, h.message) && h.entry == s.owner[h.message.id]
  }

  /** The network or the peer has the request `m`. */
  predicate InFlight(s: State, m: Message) {
    m in s.toPeer || m in s.atPeer || m in s.seen
  }

  ghost predicate FlightOk(s: State) {
    && (forall m :: InFlight(s, m) ==> Origin(s, m))
    && (forall r :: r in s.toClient || r in s.inbox ==> ReplyOk(s, r))
    && (forall h :: h in s.held ==> HeldOk(s, h))
  }

  ghost predicate Inv(s: State) {
    EntriesOk(s) && OwnerOk(s) && IdsOk(s) && PendingOk(s) && FlightOk(s)
  }

  /** Entries are never removed, keep their message and their id and do not go back behind the send; answers and
      the ids of others are kept. */
  ghost predicate Grows(s: State, t: State) {
    && |s.entries| <= |t.entries|
    && s.answered <= t.answered && s.foreign <= t.foreign
    && (forall i :: i in s.owner ==> i in t.owner && t.owner[i] == s.owner[i])
    && forall k :: 0 <= k < |s.entries| ==>
         && t.entries[k].message == s.entries[k].message
         && (Dispatched(s.entries[k].phase) ==> Dispatched(t.entries[k].phase))
  }

  predicate ChangesEntries(e: Event) {
    e.Issue? || ChangesOneEntry(e)
  }

  predicate ChangesOneEntry(e: Event) {
    e.Store? || e.Send? || e.Arm? || e.Dispose? || e.Expire? || e.RunTimer? || e.Set?
  }

  predicate MovesRequest(e: Event) {
    e.LoseRequest? || e.CopyRequest? || e.PeerReceive? || e.PeerIgnore? || e.PeerAnswer? || e.PeerRepeat?
  }

  predicate DrawsId(e: Event) {
    e.Make? || e.DrawElsewhere?
  }

  /** The same entries and pending map, with the same owners. */
  predicate SameClient(s: State, t: State) {
    && t.entries == s.entries && t.pending == s.pending && t.owner == s.owner && t.collided == s.collided
    && s.answered <= t.answered && s.foreign <= t.foreign
  }

  /** Nobody has drawn an id or used one. */
  predicate SameIds(s: State, t: State) {
    t.quota == s.quota && t.others == s.others && t.issued == s.issued && t.made == s.made && t.foreign == s.foreign
  }

  lemma RequestStepIsQuiet(s: State, e: Event)
    requires Enabled(s, e) && MovesRequest(e)
    ensures SameClient(s, Step(s, e)) && SameIds(s, Step(s, e))
  {
  }

  predicate MovesReply(e: Event) {
    e.PeerChatter? || e.LoseReply? || e.CopyReply? || e.Post? || e.LookUp?
  }

  lemma LookUpIsQuiet(s: State, raw: Raw)
    requires raw in s.inbox
    ensures SameClient(s, LookUpStep(s, raw)) && SameIds(s, LookUpStep(s, raw))
  {
  }

  lemma ReplyStepIsQuiet(s: State, e: Event)
    requires Enabled(s, e) && MovesReply(e)
    ensures SameClient(s, Step(s, e)) && SameIds(s, Step(s, e))
  {
    if e.LookUp? {
      LookUpIsQuiet(s, e.raw);
    }
  }

  lemma DrawIsQuiet(s: State, e: Event)
    requires Enabled(s, e) && DrawsId(e)
    ensures SameClient(s, Step(s, e))
  {
  }

  lemma QuietStep(s: State, e: Event)
    requires Enabled(s, e) && !ChangesEntries(e)
    ensures SameClient(s, Step(s, e))
    ensures !DrawsId(e) ==> SameIds(s, Step(s, e))
  {
    if MovesRequest(e) {
      RequestStepIsQuiet(s, e);
    } else if MovesReply(e) {
      ReplyStepIsQuiet(s, e);
    } else {
      DrawIsQuiet(s, e);
    }
  }

  /** The entry that an event is about. */
  function EntryOf(e: Event): nat
    requires ChangesOneEntry(e)
  {
    if e.Set? then e.h.entry else e.k
  }

  /** Exactly one entry is changed, and it keeps its message. */
  ghost predicate Touches(s: State, t: State, k: nat) {
    && k < |s.entries| == |t.entries| && t.entries == s.entries[k := t.entries[k]]
    && t.entries[k].message == s.entries[k].message
    && (Dispatched(s.entries[k].phase) ==> Dispatched(t.entries[k].phase))
    && t.owner == s.owner && t.answered == s.answered && t.collided == s.collided && SameIds(s, t)
  }

  lemma EntryStepTouches(s: State, e: Event)
    requires Enabled(s, e) && ChangesOneEntry(e)
    ensures Touches(s, Step(s, e), EntryOf(e))
  {
  }

  lemma StepGrows(s: State, e: Event)
    requires Enabled(s, e) && (e.Issue? ==> OwnerOk(s) && IdsOk(s))
    ensures Grows(s, Step(s, e))
  {
    if ChangesOneEntry(e) {
      EntryStepTouches(s, e);
    } else if !e.Issue? {
      QuietStep(s, e);
    }
  }

  /** What one callback does to its entry keeps the entry's invariant. */
  lemma EntryStepsOk(e: Entry, answered: set<Message>, coroutine: nat)
    requires EntryOk(e, answered)
    ensures e.phase.Created? ==> EntryOk(StoreEntry(e, coroutine), answered)
    ensures e.phase.Stored? ==> EntryOk(e.(phase := Sent), answered)
    ensures e.phase.Sent? ==> EntryOk(ArmEntry(e), answered)
    ensures e.resumes != [] ==> EntryOk(DisposeEntry(e), answered)
    ensures e.timer.Armed? ==> EntryOk(e.(timer := Queued(false)), answered)
    ensures e.timer.Queued? ==> EntryOk(TimerEntry(e), answered)
  {
  }

  lemma SetEntryOk(e: Entry, answered: set<Message>, m: Message)
    requires EntryOk(e, answered) && Dispatched(e.phase)
    requires m.kind.Response? && m.id == e.message.id && m.action == e.message.action && m in answered
    ensures EntryOk(SetEntry(e, m), answered)
  {
  }

  lemma TouchKeepsEntries(s: State, t: State, k: nat)
    requires EntriesOk(s) && Touches(s, t, k) && EntryOk(t.entries[k], s.answered)
    ensures EntriesOk(t)
  {
  }

  lemma EntryStepKeepsEntries(s: State, e: Event)
    requires EntriesOk(s) && OwnerOk(s) && Enabled(s, e) && ChangesOneEntry(e)
    requires e.Set? ==> HeldOk(s, e.h)
    ensures EntriesOk(Step(s, e))
  {
    var k := EntryOf(e);
    EntryStepTouches(s, e);
    if e.Set? {
      SetEntryOk(s.entries[k], s.answered, e.h.message);
    } else {
      EntryStepsOk(s.entries[k], s.answered, if e.Store? then e.coroutine else 0);
    }
    TouchKeepsEntries(s, Step(s, e), k);
  }

  lemma StepKeepsEntries(s: State, e: Event)
    requires EntriesOk(s) && OwnerOk(s) && IdsOk(s) && Enabled(s, e)
    requires e.Set? ==> HeldOk(s, e.h)
    ensures EntriesOk(Step(s, e))
  {
    if ChangesOneEntry(e) {
      EntryStepKeepsEntries(s, e);
    } else if !e.Issue? {
      QuietStep(s, e);
    }
  }

  lemma IssueKeepsOwner(s: State, id: Id)
    requires OwnerOk(s) && IdsOk(s) && id in s.made
    ensures OwnerOk(IssueStep(s, id))
  {
  }

  lemma StepKeepsOwner(s: State, e: Event)
    requires OwnerOk(s) && IdsOk(s) && Enabled(s, e)
    ensures OwnerOk(Step(s, e))
  {
    if ChangesOneEntry(e) {
      EntryStepTouches(s, e);
    } else if e.Issue? {
      IssueKeepsOwner(s, e.id);
    } else {
      QuietStep(s, e);
    }
  }

  /** The next id belongs to nobody, and differs from all that are still to come. */
  lemma NextIdIsFresh(s: State)
    requires IdsOk(s) && s.quota + s.others > 0
    ensures NthId(s.issued) !in s.owner && NthId(s.issued) !in s.made && NthId(s.issued) !in s.foreign
    ensures forall j :: s.issued < j < s.issued + s.quota + s.others ==> NthId(j) != NthId(s.issued)
  {
    forall j | s.issued < j < s.issued + s.quota + s.others ensures NthId(j) != NthId(s.issued) {
      IdsCollide(s.issued, j);
    }
  }

  lemma StepKeepsIds(s: State, e: Event)
    requires OwnerOk(s) && IdsOk(s) && Enabled(s, e)
    ensures IdsOk(Step(s, e))
  {
    if ChangesOneEntry(e) {
      EntryStepTouches(s, e);
    } else if DrawsId(e) {
      NextIdIsFresh(s);
    } else if !e.Issue? {
      QuietStep(s, e);
    }
  }

  /** Completing entry `k` takes away its own key and no other. */
  lemma CompleteKeepsPending(s: State, t: State, k: nat)
    requires OwnerOk(s) && PendingOk(s) && Touches(s, t, k)
    requires t.entries[k].response.Some? && t.pending == s.pending - {s.entries[k].message.id}
    ensures PendingOk(t)
  {
  }

  lemma SamePending(s: State, t: State, k: nat)
    requires PendingOk(s) && Touches(s, t, k)
    requires t.entries[k].response.None? == s.entries[k].response.None? && t.pending == s.pending
    ensures PendingOk(t)
  {
  }

  predicate MayComplete(e: Event) {
    e.Set? || e.RunTimer?
  }

  /** A step that gives an entry its response erases its id, every other one leaves the map alone. */
  lemma CompletingStepErases(s: State, e: Event, k: nat)
    requires Enabled(s, e) && MayComplete(e) && k == EntryOf(e)
    requires e.Set? ==> e.h.message.id == s.entries[k].message.id
    ensures Step(s, e).pending ==
      if s.entries[k].response.None? && Step(s, e).entries[k].response.Some? then s.pending - {s.entries[k].message.id}
      else s.pending
    ensures s.entries[k].response.Some? ==> Step(s, e).entries[k].response == s.entries[k].response
  {
  }

  lemma WaitingStepErasesNothing(s: State, e: Event, k: nat)
    requires Enabled(s, e) && ChangesOneEntry(e) && !MayComplete(e) && k == EntryOf(e)
    ensures Step(s, e).pending == s.pending && Step(s, e).entries[k].response == s.entries[k].response
  {
  }

  lemma EntryStepKeepsPending(s: State, e: Event)
    requires OwnerOk(s) && PendingOk(s) && Enabled(s, e) && ChangesOneEntry(e)
    requires e.Set? ==> HeldOk(s, e.h)
    ensures PendingOk(Step(s, e))
  {
    var t, k := Step(s, e), EntryOf(e);
    EntryStepTouches(s, e);
    if MayComplete(e) {
      CompletingStepErases(s, e, k);
    } else {
      WaitingStepErasesNothing(s, e, k);
    }
    if s.entries[k].response.None? && t.entries[k].response.Some? {
      CompleteKeepsPending(s, t, k);
    } else {
      SamePending(s, t, k);
    }
  }

  lemma StepKeepsPending(s: State, e: Event)
    requires OwnerOk(s) && IdsOk(s) && PendingOk(s) && Enabled(s, e)
    requires e.Set? ==> HeldOk(s, e.h)
    ensures PendingOk(Step(s, e))
  {
    if ChangesOneEntry(e) {
      EntryStepKeepsPending(s, e);
    } else if !e.Issue? {
      QuietStep(s, e);
    }
  }

  lemma MovedRequest(s: State, e: Event, m: Message)
    requires Enabled(s, e) && MovesRequest(e) && InFlight(Step(s, e), m)
    ensures InFlight(s, m)
  {
  }

  lemma SameRequests(s: State, e: Event, m: Message)
    requires Enabled(s, e) && !MovesRequest(e) && InFlight(Step(s, e), m)
    ensures InFlight(s, m) || (e.Send? && m == s.entries[e.k].message)
  {
  }

  /** Requests come from a send; apart from that they are only moved and copied. */
  lemma RequestsComeFrom(s: State, e: Event, m: Message)
    requires Enabled(s, e) && InFlight(Step(s, e), m)
    ensures InFlight(s, m) || (e.Send? && m == s.entries[e.k].message)
  {
    if MovesRequest(e) {
      MovedRequest(s, e, m);
    } else {
      SameRequests(s, e, m);
    }
  }

  lemma OriginGrows(s: State, t: State, m: Message)
    requires Grows(s, t) && Origin(s, m)
    ensures Origin(t, m)
  {
  }

  lemma SendHasOrigin(s: State, e: Event)
    requires OwnerOk(s) && Enabled(s, e) && e.Send?
    ensures Origin(Step(s, e), s.entries[e.k].message)
  {
  }

  lemma StepKeepsRequests(s: State, e: Event)
    requires OwnerOk(s) && FlightOk(s) && Enabled(s, e) && Grows(s, Step(s, e))
    ensures var t := Step(s, e);
      forall m :: InFlight(t, m) ==> Origin(t, m)
  {
    var t := Step(s, e);
    forall m | InFlight(t, m) ensures Origin(t, m) {
      RequestsComeFrom(s, e, m);
      if e.Send? && m == s.entries[e.k].message {
        SendHasOrigin(s, e);
      } else {
        OriginGrows(s, t, m);
      }
    }
  }

  /** The response the peer builds in step `e`, if it builds one. */
  function Built(e: Event): Option<Message> {
    match e
    case PeerAnswer(m, status, payload) => Some(MakeResponse(m, status, payload))
    case PeerRepeat(m, status, payload) => Some(MakeResponse(m, status, payload))
    case _ => None
  }

  lemma BuiltIsAnswer(s: State, e: Event)
    requires FlightOk(s) && Enabled(s, e) && Built(e).Some?
    ensures Answer(Step(s, e), Built(e).value)
  {
    assert Origin(s, e.m);
  }

  lemma ReplyOkGrows(s: State, t: State, raw: Raw)
    requires Grows(s, t) && ReplyOk(s, raw)
    ensures ReplyOk(t, raw)
  {
  }

  /** Text comes from the peer: it is an answer, or what the peer sends of its own accord. */
  lemma RepliesComeFrom(s: State, e: Event, raw: Raw)
    requires Enabled(s, e)
    requires raw in Step(s, e).toClient || raw in Step(s, e).inbox
    ensures
      || raw in s.toClient || raw in s.inbox
      || e == PeerChatter(raw) || (Built(e).Some? && raw == Json(Built(e).value))
  {
    if ChangesEntries(e) || MovesRequest(e) {
      SameText(s, e, raw);
    }
  }

  lemma SameText(s: State, e: Event, raw: Raw)
    requires Enabled(s, e) && (ChangesEntries(e) || MovesRequest(e))
    requires raw in Step(s, e).toClient || raw in Step(s, e).inbox
    ensures raw in s.toClient || raw in s.inbox || (Built(e).Some? && raw == Json(Built(e).value))
  {
  }

  lemma StepKeepsReplies(s: State, e: Event)
    requires FlightOk(s) && Enabled(s, e) && Grows(s, Step(s, e))
    ensures var t := Step(s, e);
      forall r :: r in t.toClient || r in t.inbox ==> ReplyOk(t, r)
  {
    var t := Step(s, e);
    forall r | r in t.toClient || r in t.inbox ensures ReplyOk(t, r) {
      RepliesComeFrom(s, e, r);
      if Built(e).Some? && r == Json(Built(e).value) {
        BuiltIsAnswer(s, e);
      } else {
        ReplyOkGrows(s, t, r);
      }
    }
  }

  lemma LookUpFindsItsEntry(s: State, raw: Raw, h: Held)
    requires IdsOk(s) && PendingOk(s) && FlightOk(s) && Enabled(s, LookUp(raw))
    requires h in LookUpStep(s, raw).held && h !in s.held
    ensures HeldOk(s, h)
  {
    assert IsResponse(raw) && h == Held(s.pending[raw.message.id], raw.message);
    assert ReplyOk(s, raw);
  }

  lemma StepKeepsHeld(s: State, e: Event)
    requires IdsOk(s) && PendingOk(s) && FlightOk(s) && Enabled(s, e) && Grows(s, Step(s, e))
    ensures var t := Step(s, e);
      forall h :: h in t.held ==> HeldOk(t, h)
  {
    var t := Step(s, e);
    forall h | h in t.held ensures HeldOk(t, h) {
      if h !in s.held {
        LookUpFindsItsEntry(s, e.raw, h);
      }
      assert HeldOk(s, h);
    }
  }

  lemma StepKeepsFlight(s: State, e: Event)
    requires Inv(s) && Enabled(s, e)
    ensures FlightOk(Step(s, e))
  {
    StepGrows(s, e);
    StepKeepsRequests(s, e);
    StepKeepsReplies(s, e);
    StepKeepsHeld(s, e);
  }

  /** The invariant is inductive. */
  lemma StepKeepsInv(s: State, e: Event)
    requires Inv(s) && Enabled(s, e)
    ensures Inv(Step(s, e))
  {
    assert e.Set? ==> HeldOk(s, e.h);
    StepKeepsEntries(s, e);
    StepKeepsOwner(s, e);
    StepKeepsIds(s, e);
    StepKeepsPending(s, e);
    StepKeepsFlight(s, e);
  }

  lemma InitialInv(s: State)
    requires Initial(s)
    ensures Inv(s)
  {
  }

  lemma RunKeepsInv(s: State, trace: seq<Event>)
    requires Inv(s) && Fires(Next, s, trace)
    ensures Inv(Run(Next, s, trace))
  {
    forall x, e | Inv(x) && Next(x, e).Some? ensures Inv(Next(x, e).value) {
      StepKeepsInv(x, e);
    }
    Invariant(Next, Inv, s, trace);
  }

  lemma ReachableInv(s: State)
    requires Reachable(s)
    ensures Inv(s)
  {
    var start: State, trace: seq<Event> :| Initial(start) && Fires(Next, start, trace) && s == Run(Next, start, trace);
    InitialInv(start);
    RunKeepsInv(start, trace);
  }
}
