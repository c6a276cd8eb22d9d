/** The requester refines a table of one-shot futures. */
module ProtocolRefinement {
  import opened Wrappers
  import opened Messages
  import opened Protocol
  import opened ProtocolInvariant
  import opened Runs

  /** What the application sees of a request: whether it is resolved, and with what. */
  datatype Future = Future(request: Message, result: Option<Message>)

  datatype FutureEvent = Open(request: Message) | Resolve(k: nat, response: Message) | Stutter

  type Futures = seq<Future>

  /** A new future carries a fresh id. A future is resolved at most once, by a response to its own request. */
  predicate Permitted(f: Futures, e: FutureEvent) {
    match e
    case Open(m) => forall k :: 0 <= k < |f| ==> f[k].request.id != m.id
    case Resolve(k, r) =>
      && k < |f| && f[k].result.None?
      && r.kind.Response? && r.id == f[k].request.id && r.action == f[k].request.action
    case Stutter => true
  }

  function Advance(f: Futures, e: FutureEvent): Futures
    requires Permitted(f, e)
  {
    match e
    case Open(m) => f + [Future(m, None)]
    case Resolve(k, r) => f[k := f[k].(result := Some(r))]
    case Stutter => f
  }

  function NextFutures(f: Futures, e: FutureEvent): Option<Futures> {
    if Permitted(f, e) then Some(Advance(f, e)) else None
  }

  function Abstract(s: State): (f: Futures)
    ensures |f| == |s.entries|
  {
    seq(|s.entries|, k requires 0 <= k < |s.entries| => Future(s.entries[k].message, s.entries[k].response))
  }

  /** The abstract step a concrete step stands for. */
  function Label(s: State, e: Event): FutureEvent
    requires Enabled(s, e)
  {
    match e
    case Issue(id) => Open(s.made[id])
    case Set(h) => if s.entries[h.entry].response.None? then Resolve(h.entry, h.message) else Stutter
    case RunTimer(k) =>
      if s.entries[k].timer == Queued(false) && s.entries[k].response.None?
      then Resolve(k, TimedOut(s.entries[k].message)) else Stutter
    case _ => Stutter
  }

  /** The coroutines resumed so far, request by request. */
  function Resumptions(s: State): seq<seq<Resume>> {
    seq(|s.entries|, k requires 0 <= k < |s.entries| => s.entries[k].resumes)
  }

  /** Same requests, results, resumptions and pending map. */
  predicate LooksLike(s: State, t: State) {
    && |s.entries| == |t.entries|
    && s.pending == t.pending
    && forall k :: 0 <= k < |s.entries| ==>
         && s.entries[k].message == t.entries[k].message
         && s.entries[k].response == t.entries[k].response
         && s.entries[k].resumes == t.entries[k].resumes
  }

  /** Replacing one entry by another that looks the same. */
  lemma TouchLooksTheSame(s: State, t: State, k: nat, e: Entry)
    requires k < |s.entries| && t.entries == s.entries[k := e] && t.pending == s.pending
    requires e.message == s.entries[k].message && e.response == s.entries[k].response
    requires e.resumes == s.entries[k].resumes
    ensures LooksLike(s, t)
  {
  }

  lemma StutterLooksTheSame(s: State, e: Event)
    requires Enabled(s, e) && Label(s, e).Stutter?
    ensures LooksLike(s, Step(s, e))
  {
    var t := Step(s, e);
    if e.Set? {
      TouchLooksTheSame(s, t, e.h.entry, t.entries[e.h.entry]);
    } else if ChangesEntries(e) {
      TouchLooksTheSame(s, t, e.k, t.entries[e.k]);
    } else {
      QuietStep(s, e);
    }
  }

  /** A step that stands for no abstract step changes nothing the application can see, nor the pending map. */
  lemma StutterIsInvisible(s: State, e: Event)
    requires Enabled(s, e) && Label(s, e).Stutter?
    ensures Abstract(Step(s, e)) == Abstract(s)
    ensures Resumptions(Step(s, e)) == Resumptions(s)
    ensures Step(s, e).pending == s.pending
  {
    StutterLooksTheSame(s, e);
  }

  lemma IssueRefines(s: State, e: Event)
    requires Inv(s) && Enabled(s, e) && e.Issue?
    ensures Permitted(Abstract(s), Label(s, e))
    ensures Abstract(Step(s, e)) == Advance(Abstract(s), Label(s, e))
  {
  }

  lemma SetRefines(s: State, e: Event)
    requires OwnerOk(s) && Enabled(s, e) && e.Set? && HeldOk(s, e.h)
    ensures Permitted(Abstract(s), Label(s, e))
    ensures Abstract(Step(s, e)) == Advance(Abstract(s), Label(s, e))
  {
    assert s.entries[e.h.entry].message.id == e.h.message.id;
  }

  lemma TimerRefines(s: State, e: Event)
    requires Enabled(s, e) && e.RunTimer? && EntryOk(s.entries[e.k], s.answered)
    ensures Permitted(Abstract(s), Label(s, e))
    ensures Abstract(Step(s, e)) == Advance(Abstract(s), Label(s, e))
  {
  }

  /** Every step of the requester is a permitted step of the futures, or no step at all. */
  lemma StepRefines(s: State, e: Event)
    requires Inv(s) && Enabled(s, e)
    ensures Permitted(Abstract(s), Label(s, e))
    ensures Abstract(Step(s, e)) == Advance(Abstract(s), Label(s, e))
  {
    if e.Issue? {
      IssueRefines(s, e);
    } else if e.Set? {
      assert HeldOk(s, e.h);
      SetRefines(s, e);
    } else if e.RunTimer? {
      TimerRefines(s, e);
    } else {
      StutterIsInvisible(s, e);
    }
  }

  function Labels(s: State, trace: seq<Event>): seq<FutureEvent>
    requires Fires(Next, s, trace)
  {
    if trace == [] then []
    else
      var n := |trace| - 1;
      Labels(s, trace[..n]) + [Label(Run(Next, s, trace[..n]), trace[n])]
  }

  /** Every run of the requester is a run of the futures. */
  lemma {:induction false} RunRefines(s: State, trace: seq<Event>)
    requires Inv(s) && Fires(Next, s, trace)
    ensures Fires(NextFutures, Abstract(s), Labels(s, trace))
    ensures Run(NextFutures, Abstract(s), Labels(s, trace)) == Abstract(Run(Next, s, trace))
  {
    if trace != [] {
      var n := |trace| - 1;
      RunRefines(s, trace[..n]);
      RunKeepsInv(s, trace[..n]);
      StepRefines(Run(Next, s, trace[..n]), trace[n]);
      Snoc(NextFutures, Abstract(s), Labels(s, trace[..n]), Label(Run(Next, s, trace[..n]), trace[n]));
    }
  }

  /** From the start: the futures reached by the labels of a run are what the requester shows. */
  lemma RequesterRefinesFutures(start: State, trace: seq<Event>)
    requires Initial(start) && Fires(Next, start, trace)
    ensures Fires(NextFutures, [], Labels(start, trace))
    ensures Run(NextFutures, [], Labels(start, trace)) == Abstract(Run(Next, start, trace))
  {
    assert Abstract(start) == [];
    RunRefines(start, trace);
  }

  /** Garbled text, messages that are not responses and responses to an id that is not pending are dropped by the
      inbound handler without any trace but the queue they came from. */
  lemma UnwantedIsDropped(s: State, raw: Raw)
    requires Enabled(s, LookUp(raw))
    ensures raw.Garbled? || !raw.message.kind.Response? || raw.message.id !in s.pending <==>
      Step(s, LookUp(raw)) == s.(inbox := s.inbox - multiset{raw})
  {
    var t := Step(s, LookUp(raw));
    if IsResponse(raw) && raw.message.id in s.pending {
      assert |t.held| == |s.held| + 1;
    }
  }

  lemma TimerStutters(s: State, e: Event)
    requires Enabled(s, e) && e.RunTimer? && EntryOk(s.entries[e.k], s.answered)
    ensures Label(s, e).Stutter? <==> s.entries[e.k].response.Some?
  {
  }

  /** A late or duplicate response for a completed request, and a timer completion after the response, are exactly
      the set steps that stutter. */
  lemma LateIsStutter(s: State, e: Event)
    requires Reachable(s) && Enabled(s, e) && MayComplete(e)
    ensures Label(s, e).Stutter? <==> s.entries[EntryOf(e)].response.Some?
  {
    ReachableInv(s);
    if e.RunTimer? {
      TimerStutters(s, e);
    }
  }
}
