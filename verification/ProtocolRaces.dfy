/** Races that the runs of the protocol include: none of its promises rests on the network or the timer being tame. */
module ProtocolRaces {
  import opened Wrappers
  import opened Messages
  import opened Protocol
  import opened ProtocolInvariant
  import opened Runs

  /** One more step of a run that has reached `s`. */
  lemma Extend(start: State, trace: seq<Event>, s: State, e: Event)
    requires Fires(Next, start, trace) && Run(Next, start, trace) == s && Enabled(s, e)
    ensures Fires(Next, start, trace + [e]) && Run(Next, start, trace + [e]) == Step(s, e)
  {
    Snoc(Next, start, trace, e);
  }

  lemma Receives(start: State, before: seq<Event>, s: State, m: Message) returns (trace: seq<Event>)
    requires Fires(Next, start, before) && Run(Next, start, before) == s && m in s.toPeer
    ensures Fires(Next, start, trace)
    ensures Run(Next, start, trace) ==
      s.(toPeer := s.toPeer - multiset{m}, atPeer := s.atPeer + multiset{m}, seen := s.seen + {m})
  {
    Extend(start, before, s, PeerReceive(m));
    trace := before + [PeerReceive(m)];
  }

  lemma Posts(start: State, before: seq<Event>, s: State, raw: Raw) returns (trace: seq<Event>)
    requires Fires(Next, start, before) && Run(Next, start, before) == s && raw in s.toClient
    ensures Fires(Next, start, trace)
    ensures Run(Next, start, trace) == s.(toClient := s.toClient - multiset{raw}, inbox := s.inbox + multiset{raw})
  {
    Extend(start, before, s, Post(raw));
    trace := before + [Post(raw)];
  }

  lemma LooksUp(start: State, before: seq<Event>, s: State, raw: Raw) returns (trace: seq<Event>)
    requires Fires(Next, start, before) && Run(Next, start, before) == s && raw in s.inbox
    requires raw.Json? && raw.message.kind.Response? && raw.message.id in s.pending
    ensures Fires(Next, start, trace)
    ensures Run(Next, start, trace) == s.(inbox := s.inbox - multiset{raw},
      held := s.held + multiset{Held(s.pending[raw.message.id], raw.message)})
  {
    Extend(start, before, s, LookUp(raw));
    trace := before + [LookUp(raw)];
  }

  /** A request can be copied on its way, and the peer receives the copy as well. */
  lemma RequestsAreCopied(s: State, m: Message) returns (trace: seq<Event>)
    requires m in s.toPeer && s.fuel > 0
    ensures Fires(Next, s, trace)
    ensures Run(Next, s, trace) == s.(fuel := s.fuel - 1, atPeer := s.atPeer + multiset{m}, seen := s.seen + {m})
  {
    var t := s.(fuel := s.fuel - 1, toPeer := s.toPeer + multiset{m});
    Extend(s, [], s, CopyRequest(m));
    trace := Receives(s, [] + [CopyRequest(m)], t, m);
    assert s.toPeer + multiset{m} - multiset{m} == s.toPeer;
  }

  /** The peer receives a request and answers it. */
  lemma IsAnswered(start: State, before: seq<Event>, s: State, m: Message, status: Status, payload: string)
    returns (trace: seq<Event>)
    requires Fires(Next, start, before) && Run(Next, start, before) == s && m in s.toPeer
    ensures Fires(Next, start, trace)
    ensures var r := Message(Response, m.id, status, m.action, payload);
      Run(Next, start, trace) == s.(toPeer := s.toPeer - multiset{m}, seen := s.seen + {m},
        answered := s.answered + {r}, toClient := s.toClient + multiset{Json(r)})
  {
    var e := PeerAnswer(m, status, payload);
    trace := Receives(start, before, s, m);
    Extend(start, trace, Run(Next, start, trace), e);
    assert s.atPeer + multiset{m} - multiset{m} == s.atPeer;
    trace := trace + [e];
  }

  /** A reply to a pending request is dispatched and looked up. */
  lemma IsLookedUp(start: State, before: seq<Event>, s: State, r: Message) returns (trace: seq<Event>)
    requires Fires(Next, start, before) && Run(Next, start, before) == s && Json(r) in s.toClient
    requires r.kind.Response? && r.id in s.pending
    ensures Fires(Next, start, trace)
    ensures Run(Next, start, trace) ==
      s.(toClient := s.toClient - multiset{Json(r)}, held := s.held + multiset{Held(s.pending[r.id], r)})
  {
    trace := Posts(start, before, s, Json(r));
    trace := LooksUp(start, trace, Run(Next, start, trace), Json(r));
    assert s.inbox + multiset{Json(r)} - multiset{Json(r)} == s.inbox;
  }

  lemma IsSet(start: State, before: seq<Event>, s: State, h: Held)
    requires Fires(Next, start, before) && Run(Next, start, before) == s && h in s.held && h.entry < |s.entries|
    ensures Fires(Next, start, before + [Set(h)])
    ensures h.entry < |Run(Next, start, before + [Set(h)]).entries|
    ensures Run(Next, start, before + [Set(h)]).entries[h.entry] == SetEntry(s.entries[h.entry], h.message)
  {
    Extend(start, before, s, Set(h));
  }

  /** An entry that waits has a handle and was not resumed. */
  lemma PendingWaits(s: State, m: Message)
    requires Inv(s) && m in s.toPeer && m.id in s.pending
    ensures var k := s.pending[m.id];
      && k < |s.entries| && s.entries[k].handle.Some?
      && s.entries[k].response.None? && s.entries[k].resumes == []
  {
    assert InFlight(s, m) && Origin(s, m);
    assert EntryOk(s.entries[s.pending[m.id]], s.answered);
  }

  /** The ordinary course: a request that is on its way and still waits can be received, answered, dispatched and set,
      and then its coroutine is resumed with the peer's status and payload. */
  lemma RequestIsServed(s: State, m: Message, status: Status, payload: string) returns (trace: seq<Event>)
    requires Inv(s) && m in s.toPeer && m.id in s.pending
    ensures Fires(Next, s, trace)
    ensures var k, r := s.pending[m.id], Message(Response, m.id, status, m.action, payload);
      && k < |s.entries| && s.entries[k].handle.Some? && k < |Run(Next, s, trace).entries|
      && Run(Next, s, trace).entries[k].response == Some(r)
      && Run(Next, s, trace).entries[k].resumes == [Resume(s.entries[k].handle.value, r)]
  {
    PendingWaits(s, m);
    trace := IsServed(s, s.pending[m.id], m, status, payload);
  }

  lemma IsServed(s: State, k: nat, m: Message, status: Status, payload: string) returns (trace: seq<Event>)
    requires m in s.toPeer && m.id in s.pending && s.pending[m.id] == k < |s.entries|
    requires s.entries[k].handle.Some? && s.entries[k].response.None? && s.entries[k].resumes == []
    ensures Fires(Next, s, trace) && k < |Run(Next, s, trace).entries|
    ensures var r := Message(Response, m.id, status, m.action, payload);
      && Run(Next, s, trace).entries[k].response == Some(r)
      && Run(Next, s, trace).entries[k].resumes == [Resume(s.entries[k].handle.value, r)]
  {
    var r := Message(Response, m.id, status, m.action, payload);
    trace := IsAnswered(s, [], s, m, status, payload);
    trace := IsLookedUp(s, trace, Run(Next, s, trace), r);
    IsSet(s, trace, Run(Next, s, trace), Held(k, r));
    trace := trace + [Set(Held(k, r))];
  }

  /** A reply can be copied on its way, and both copies can be looked up before either handler has called `set`. */
  lemma CopiesRace(s: State, raw: Raw) returns (trace: seq<Event>)
    requires raw in s.toClient && s.fuel > 0 && raw.Json? && raw.message.kind.Response? && raw.message.id in s.pending
    ensures Fires(Next, s, trace)
    ensures var t, h := Run(Next, s, trace), Held(s.pending[raw.message.id], raw.message);
      t.held == s.held + multiset{h} + multiset{h} && t.entries == s.entries && t.pending == s.pending
  {
    var a := s.(fuel := s.fuel - 1, toClient := s.toClient + multiset{raw});
    Extend(s, [], s, CopyReply(raw));
    assert Step(s, CopyReply(raw)) == a;
    trace := PostTwice(s, [] + [CopyReply(raw)], a, raw);
    var b := Run(Next, s, trace);
    trace := LookUpTwice(s, trace, b, raw);
  }

  lemma PostTwice(start: State, before: seq<Event>, s: State, raw: Raw) returns (trace: seq<Event>)
    requires Fires(Next, start, before) && Run(Next, start, before) == s && s.toClient[raw] >= 2
    ensures Fires(Next, start, trace)
    ensures Run(Next, start, trace) ==
      s.(toClient := s.toClient - multiset{raw} - multiset{raw}, inbox := s.inbox + multiset{raw} + multiset{raw})
  {
    trace := Posts(start, before, s, raw);
    trace := Posts(start, trace, Run(Next, start, trace), raw);
  }

  lemma LookUpTwice(start: State, before: seq<Event>, s: State, raw: Raw) returns (trace: seq<Event>)
    requires Fires(Next, start, before) && Run(Next, start, before) == s && s.inbox[raw] >= 2
    requires raw.Json? && raw.message.kind.Response? && raw.message.id in s.pending
    ensures Fires(Next, start, trace)
    ensures var h := Held(s.pending[raw.message.id], raw.message);
      Run(Next, start, trace) ==
        s.(inbox := s.inbox - multiset{raw} - multiset{raw}, held := s.held + multiset{h} + multiset{h})
  {
    trace := LooksUp(start, before, s, raw);
    trace := LooksUp(start, trace, Run(Next, start, trace), raw);
  }

  lemma SetLeavesQueued(s: State, h: Held)
    requires Enabled(s, Set(h)) && s.entries[h.entry].response.None? && s.entries[h.entry].timer == Queued(false)
    ensures var t := Step(s, Set(h));
      && |t.entries| == |s.entries| && t.entries[h.entry].response == Some(h.message)
      && t.entries[h.entry].timer == Queued(false)
  {
  }

  /** The timer can expire into the queue before the response is set: its completion then runs afterwards, not
      aborted. */
  lemma TimerRaces(s: State, h: Held) returns (trace: seq<Event>)
    requires h in s.held && h.entry < |s.entries|
    requires s.entries[h.entry].timer.Armed? && s.entries[h.entry].response.None?
    ensures Fires(Next, s, trace)
    ensures var t := Run(Next, s, trace);
      && |t.entries| == |s.entries| && t.entries[h.entry].response == Some(h.message)
      && t.entries[h.entry].timer == Queued(false)
  {
    var e := Expire(h.entry);
    var t := s.(entries := s.entries[h.entry := s.entries[h.entry].(timer := Queued(false))]);
    Extend(s, [], s, e);
    assert Step(s, e) == t;
    SetLeavesQueued(t, h);
    Extend(s, [] + [e], t, Set(h));
    trace := [] + [e] + [Set(h)];
  }

  /** A handler can set the response of a request whose timer is not armed yet; arming it is still to come. */
  lemma ResponseBeforeArm(s: State, h: Held)
    requires h in s.held && h.entry < |s.entries|
    requires s.entries[h.entry].phase.Sent? && s.entries[h.entry].response.None?
    ensures Enabled(s, Set(h)) && Enabled(Step(s, Set(h)), Arm(h.entry))
    ensures Step(Step(s, Set(h)), Arm(h.entry)).entries[h.entry].response == Some(h.message)
    ensures Step(Step(s, Set(h)), Arm(h.entry)).entries[h.entry].timer == Armed
  {
  }

  /** The peer can answer a request it has received again at any time, also when that has its response. */
  lemma PeerRepeats(s: State, m: Message, status: Status, payload: string) returns (trace: seq<Event>)
    requires m in s.seen && s.fuel > 0
    ensures Fires(Next, s, trace)
    ensures var r := Message(Response, m.id, status, m.action, payload);
      Run(Next, s, trace) == s.(fuel := s.fuel - 1, answered := s.answered + {r}, inbox := s.inbox + multiset{Json(r)})
  {
    var r := MakeResponse(m, status, payload);
    var e := PeerRepeat(m, status, payload);
    Extend(s, [], s, e);
    var t := Step(s, e);
    Extend(s, [] + [e], t, Post(Json(r)));
    trace := [] + [e] + [Post(Json(r))];
    assert s.toClient + multiset{Json(r)} - multiset{Json(r)} == s.toClient;
  }

  lemma ForeignLookUp(s: State, raw: Raw)
    requires raw in s.inbox && IsResponse(raw) && raw.message.id !in s.pending
    ensures Enabled(s, LookUp(raw)) && Step(s, LookUp(raw)) == s.(inbox := s.inbox - multiset{raw})
  {
  }

  lemma ArrivesAtOnce(s: State, t: State, raw: Raw)
    requires s.fuel > 0 && t == s.(fuel := s.fuel - 1, toClient := s.toClient + multiset{raw})
    ensures Enabled(t, Post(raw)) && Step(t, Post(raw)) == s.(fuel := s.fuel - 1, inbox := s.inbox + multiset{raw})
  {
    assert s.toClient + multiset{raw} - multiset{raw} == s.toClient;
  }

  /** The peer can answer somebody else's request over the same session: that is looked up and dropped. */
  lemma ForeignReplyIsDropped(s: State, r: Message) returns (trace: seq<Event>)
    requires IdsOk(s) && PendingOk(s) && r.kind.Response? && r.id in s.foreign && s.fuel > 0
    ensures Fires(Next, s, trace)
    ensures Run(Next, s, trace) == s.(fuel := s.fuel - 1)
  {
    var raw := Json(r);
    var t := s.(fuel := s.fuel - 1, toClient := s.toClient + multiset{raw});
    var u := s.(fuel := s.fuel - 1, inbox := s.inbox + multiset{raw});
    Extend(s, [], s, PeerChatter(raw));
    assert Step(s, PeerChatter(raw)) == t;
    ArrivesAtOnce(s, t, raw);
    Extend(s, [] + [PeerChatter(raw)], t, Post(raw));
    ForeignLookUp(u, raw);
    Extend(s, [] + [PeerChatter(raw)] + [Post(raw)], u, LookUp(raw));
    assert s.inbox + multiset{raw} - multiset{raw} == s.inbox;
    trace := [] + [PeerChatter(raw)] + [Post(raw)] + [LookUp(raw)];
  }
}
