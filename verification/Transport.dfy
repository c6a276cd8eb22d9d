/** The protocol carried by a client session: requests go through the write strand, replies through the read loop and
    the dispatch to the requester's handler (source/message/Requester.cpp, source/websocket/client/Session.cpp). */
module Transport {
  import opened Wrappers
  import opened Messages
  import opened Runs
  import P = Protocol
  import I = ProtocolInvariant
  import T = ProtocolTheorems
  import W = SessionWrites
  import R = SessionReads

  /** `to_json` and `from_json`. */
  datatype Codec = Codec(encode: Message -> string, decode: string -> Raw)

  ghost predicate RoundTrips(c: Codec) {
    forall m :: c.decode(c.encode(m)) == Json(m)
  }

  /** `core` is the requester and the peer, without the messages in between. `writer` and `reader` are the halves of
      the session; `delivered` counts the written frames that have reached the peer, `back` are the frames of the peer
      that have not begun to arrive; `frame` is the one that is arriving, with `got` bytes so far; `ran` are the posted
      tasks that were run, by position. `self` is the id of the requester's handler. */
  datatype State = State(
    codec: Codec,
    self: nat,
    core: P.State,
    writer: W.State,
    delivered: nat,
    back: seq<string>,
    frame: Option<string>,
    got: nat,
    reader: R.State,
    ran: set<nat>)

  datatype Event =
    // the requester and the peer by themselves
    | Local(p: P.Event)
    // writing
    | Send(k: nat)
    | SendOther(data: string)
    | Fill
    | Write(ok: bool)
    | Deliver
    // the peer
    | Answer(m: Message, status: Status, payload: string)
    | Repeat(m: Message, status: Status, payload: string)
    | Chatter(text: string)
    // reading
    | Begin
    | Receive(n: nat)
    | Complete(outcome: R.Outcome)
    | Handlers(r: R.Event)
    | RunTask(i: nat)

  predicate IsLocal(e: P.Event) {
    || e.Make? || e.Issue? || e.Store? || e.Arm? || e.Dispose? || e.DrawElsewhere?
    || e.Expire? || e.RunTimer? || e.PeerIgnore? || e.Set?
  }

  predicate ChangesHandlers(e: R.Event) {
    e.SetHandle? || e.UnsetHandle? || e.Close? || e.Drop?
  }

  /** Others send over the same session under ids that they have drawn. */
  predicate Enabled(s: State, e: Event) {
    match e
    case Local(p) => IsLocal(p) && P.Enabled(s.core, p)
    case Send(k) => P.Enabled(s.core, P.Send(k))
    case SendOther(data) =>
      var raw := s.codec.decode(data);
      raw.Json? ==> raw.message.id in s.core.foreign
    case Fill => W.Enabled(s.writer, W.Fill)
    case Write(ok) => W.Enabled(s.writer, W.Write(ok))
    case Deliver => s.delivered < |s.writer.wire|
    case Answer(m, status, payload) => P.Enabled(s.core, P.PeerAnswer(m, status, payload))
    case Repeat(m, status, payload) => P.Enabled(s.core, P.PeerRepeat(m, status, payload))
    case Chatter(text) => P.Enabled(s.core, P.PeerChatter(s.codec.decode(text)))
    case Begin => s.reader.reading > 0 && s.frame.None? && s.back != []
    case Receive(n) => n > 0 && s.reader.reading > 0 && s.frame.Some? && s.got + n <= |s.frame.value|
    case Complete(outcome) => s.reader.reading > 0 && (outcome.Ok? ==> s.frame.Some? && s.got == |s.frame.value|)
    case Handlers(r) => ChangesHandlers(r) && R.Enabled(s.reader, r)
    case RunTask(i) => i < |s.reader.tasks| && i !in s.ran
  }

  /** A request of this requester, by the id under which it was issued. */
  predicate Mine(owner: map<Id, nat>, raw: Raw) {
    raw.Json? && raw.message.id in owner
  }

  function WriteStep(s: State, ok: bool): State
    requires s.writer.running.Some?
  {
    s.(writer := W.Step(s.writer, W.Write(ok)))
  }

  function DeliverStep(s: State): State
    requires s.delivered < |s.writer.wire|
  {
    var raw := s.codec.decode(s.writer.wire[s.delivered]);
    var taken := s.(delivered := s.delivered + 1);
    if Mine(s.core.owner, raw)
    then taken.(core := s.core.(atPeer := s.core.atPeer + multiset{raw.message}, seen := s.core.seen + {raw.message}))
    else taken
  }

  function AnswerStep(s: State, m: Message, r: Message): State {
    s.(core := s.core.(atPeer := s.core.atPeer - multiset{m}, answered := s.core.answered + {r}),
       back := s.back + [s.codec.encode(r)])
  }

  function RepeatStep(s: State, r: Message): State
    requires s.core.fuel > 0
  {
    s.(core := s.core.(fuel := s.core.fuel - 1, answered := s.core.answered + {r}),
       back := s.back + [s.codec.encode(r)])
  }

  function ChatterStep(s: State, text: string): State
    requires s.core.fuel > 0
  {
    s.(core := s.core.(fuel := s.core.fuel - 1), back := s.back + [text])
  }

  function CompleteStep(s: State, outcome: R.Outcome): State
    requires s.reader.reading > 0
  {
    s.(frame := None, reader := R.CompleteRead(s.reader, outcome))
  }

  /** Running the requester's handler is the look-up; other handlers do not concern the requester. */
  function RunStep(s: State, i: nat): State
    requires i < |s.reader.tasks|
  {
    var raw := s.codec.decode(s.reader.tasks[i].message);
    var done := s.(ran := s.ran + {i});
    if s.reader.tasks[i].id == s.self && P.IsResponse(raw) && raw.message.id in s.core.pending
    then done.(core := s.core.(held := s.core.held + multiset{P.Held(s.core.pending[raw.message.id], raw.message)}))
    else done
  }

  function Step(s: State, e: Event): State
    requires Enabled(s, e)
  {
    match e
    case Local(p) => s.(core := P.Step(s.core, p))
    case Send(k) =>
      var entry := s.core.entries[k];
      s.(core := s.core.(entries := s.core.entries[k := entry.(phase := P.Sent)]),
         writer := W.Step(s.writer, W.Send(s.codec.encode(entry.message))))
    case SendOther(data) => s.(writer := W.Step(s.writer, W.Send(data)))
    case Fill => s.(writer := W.Step(s.writer, W.Fill))
    case Write(ok) => WriteStep(s, ok)
    case Deliver => DeliverStep(s)
    case Answer(m, status, payload) => AnswerStep(s, m, MakeResponse(m, status, payload))
    case Repeat(m, status, payload) => RepeatStep(s, MakeResponse(m, status, payload))
    case Chatter(text) => ChatterStep(s, text)
    case Begin => s.(frame := Some(s.back[0]), got := 0, back := s.back[1..])
    case Receive(n) => s.(got := s.got + n, reader := R.Step(s.reader, R.Receive(s.frame.value[s.got..s.got + n])))
    case Complete(outcome) => CompleteStep(s, outcome)
    case Handlers(r) => s.(reader := R.Step(s.reader, r))
    case RunTask(i) => RunStep(s, i)
  }

  function Next(s: State, e: Event): Option<State> {
    if Enabled(s, e) then Some(Step(s, e)) else None
  }

  /** What was handed to the session and has not reached the peer, oldest first. */
  function Outgoing(w: W.State, delivered: nat): seq<string>
    requires delivered <= |w.wire|
  {
    w.wire[delivered..] + W.Current(w) + w.queue
  }

  /** The requests of this requester among some frames. */
  function Requests(c: Codec, owner: map<Id, nat>, texts: seq<string>): multiset<Message> {
    if texts == [] then multiset{}
    else
      var raw := c.decode(texts[|texts| - 1]);
      Requests(c, owner, texts[..|texts| - 1]) + if Mine(owner, raw) then multiset{raw.message} else multiset{}
  }

  function Decoded(c: Codec, texts: seq<string>): seq<Raw> {
    seq(|texts|, i requires 0 <= i < |texts| => c.decode(texts[i]))
  }

  /** The frame that is arriving, then those behind it. */
  function Incoming(s: State): seq<string> {
    (if s.frame.Some? then [s.frame.value] else []) + s.back
  }

  /** The calls of the requester's handler that were posted and not run. */
  function Waiting(c: Codec, tasks: seq<R.Task>, ran: set<nat>, self: nat): multiset<Raw> {
    if tasks == [] then multiset{}
    else
      var n := |tasks| - 1;
      Waiting(c, tasks[..n], ran, self) + if n in ran then multiset{} else Call(c, tasks[n], self)
  }

  function Call(c: Codec, task: R.Task, self: nat): multiset<Raw> {
    if task.id == self then multiset{c.decode(task.message)} else multiset{}
  }

  function Join(core: P.State, toPeer: multiset<Message>, toClient: multiset<Raw>, inbox: multiset<Raw>): P.State {
    core.(toPeer := toPeer, toClient := toClient, inbox := inbox)
  }

  /** The protocol state that the sessions realise. */
  function Abstract(s: State): P.State
    requires s.delivered <= |s.writer.wire|
  {
    Join(
      s.core,
      Requests(s.codec, s.core.owner, Outgoing(s.writer, s.delivered)),
      multiset(Decoded(s.codec, Incoming(s))),
      Waiting(s.codec, s.reader.tasks, s.ran, s.self))
  }

  predicate Registered(handles: seq<R.Entry>, id: nat) {
    exists e :: e in handles && e.id == id
  }

  function WriteLabel(s: State, ok: bool): Option<P.Event>
    requires s.writer.running.Some?
  {
    var raw := s.codec.decode(s.writer.running.value);
    if !ok && Mine(s.core.owner, raw) then Some(P.LoseRequest(raw.message)) else None
  }

  function DeliverLabel(s: State): Option<P.Event>
    requires s.delivered < |s.writer.wire|
  {
    var raw := s.codec.decode(s.writer.wire[s.delivered]);
    if Mine(s.core.owner, raw) then Some(P.PeerReceive(raw.message)) else None
  }

  function CompleteLabel(s: State, outcome: R.Outcome): Option<P.Event> {
    if s.frame.None? then None
    else
      var raw := s.codec.decode(s.frame.value);
      Some(if outcome.Ok? && Registered(s.reader.handles, s.self) then P.Post(raw) else P.LoseReply(raw))
  }

  function RunLabel(s: State, i: nat): Option<P.Event>
    requires i < |s.reader.tasks|
  {
    if s.reader.tasks[i].id == s.self then Some(P.LookUp(s.codec.decode(s.reader.tasks[i].message))) else None
  }

  /** The protocol step that a step of the sessions stands for. A failed write loses its request, a failed read or a
      missing handler its reply. */
  function Label(s: State, e: Event): Option<P.Event>
    requires Enabled(s, e)
  {
    match e
    case Local(p) => Some(p)
    case Send(k) => Some(P.Send(k))
    case Write(ok) => WriteLabel(s, ok)
    case Deliver => DeliverLabel(s)
    case Answer(m, status, payload) => Some(P.PeerAnswer(m, status, payload))
    case Repeat(m, status, payload) => Some(P.PeerRepeat(m, status, payload))
    case Chatter(text) => Some(P.PeerChatter(s.codec.decode(text)))
    case Complete(outcome) => CompleteLabel(s, outcome)
    case RunTask(i) => RunLabel(s, i)
    case _ => None
  }

  /** A protocol step leads from `p` to `q`, or nothing happens. */
  ghost predicate Follows(p: P.State, step: Option<P.Event>, q: P.State) {
    if step.None? then q == p else P.Next(p, step.value) == Some(q)
  }

  /** A step of the sessions is the protocol step it stands for, or changes nothing of the protocol. */
  ghost predicate Realises(s: State, e: Event)
    requires s.delivered <= |s.writer.wire| && Enabled(s, e)
  {
    && Step(s, e).delivered <= |Step(s, e).writer.wire|
    && Follows(Abstract(s), Label(s, e), Abstract(Step(s, e)))
  }

  /** The buffer of the running write holds its own data. */
  predicate WriterOk(s: State) {
    && s.delivered <= |s.writer.wire|
    && (s.writer.running.Some? ==> s.writer.buffer == s.writer.running.value)
  }

  /** One read at a time, and its buffer holds what has arrived of its frame. */
  predicate ReaderOk(s: State) {
    && s.reader.reading <= 1
    && (if s.frame.Some? then
          s.reader.reading == 1 && s.got <= |s.frame.value| && s.reader.buffer == s.frame.value[..s.got]
        else s.reader.reading == 1 ==> s.reader.buffer == "")
    && R.HandlesOk(s.reader)
    && forall i :: i in s.ran ==> i < |s.reader.tasks|
  }

  /** What is on its way out was sent by this requester or under somebody else's id. */
  predicate Claimed(c: Codec, owner: map<Id, nat>, foreign: set<Id>, texts: seq<string>) {
    forall t :: t in texts && c.decode(t).Json? ==> c.decode(t).message.id in owner || c.decode(t).message.id in foreign
  }

  /** The sessions are in order, and the protocol state they realise satisfies the invariant of the protocol. */
  ghost predicate Inv(s: State) {
    && RoundTrips(s.codec) && WriterOk(s) && ReaderOk(s)
    && Claimed(s.codec, s.core.owner, s.core.foreign, Outgoing(s.writer, s.delivered))
    && I.Inv(Abstract(s))
  }

  lemma {:induction false} RequestsConcat(c: Codec, owner: map<Id, nat>, t: seq<string>, u: seq<string>)
    ensures Requests(c, owner, t + u) == Requests(c, owner, t) + Requests(c, owner, u)
    decreases |u|
  {
    if u == [] {
      assert t + u == t;
    } else {
      var n := |u| - 1;
      assert (t + u)[..|t + u| - 1] == t + u[..n];
      RequestsConcat(c, owner, t, u[..n]);
    }
  }

  lemma RequestsOne(c: Codec, owner: map<Id, nat>, t: string)
    ensures Requests(c, owner, [t]) == if Mine(owner, c.decode(t)) then multiset{c.decode(t).message} else multiset{}
  {
    assert [t][..0] == [];
  }

  lemma {:induction false} SameRequests(c: Codec, owner: map<Id, nat>, more: map<Id, nat>, texts: seq<string>)
    requires forall t :: t in texts ==> (Mine(owner, c.decode(t)) <==> Mine(more, c.decode(t)))
    ensures Requests(c, owner, texts) == Requests(c, more, texts)
  {
    if texts != [] {
      assert texts[|texts| - 1] in texts;
      SameRequests(c, owner, more, texts[..|texts| - 1]);
    }
  }

  lemma DecodedConcat(c: Codec, t: seq<string>, u: seq<string>)
    ensures Decoded(c, t + u) == Decoded(c, t) + Decoded(c, u)
  {
  }

  lemma WaitingSnoc(c: Codec, tasks: seq<R.Task>, task: R.Task, ran: set<nat>, self: nat)
    requires |tasks| !in ran
    ensures Waiting(c, tasks + [task], ran, self) == Waiting(c, tasks, ran, self) + Call(c, task, self)
  {
    assert (tasks + [task])[..|tasks|] == tasks;
  }

  lemma RegisteredLast(handles: seq<R.Entry>, last: R.Entry, self: nat)
    requires R.Ascending(handles + [last])
    ensures Registered(handles + [last], self) <==> Registered(handles, self) || last.id == self
    ensures last.id == self ==> !Registered(handles, self)
  {
    var all := handles + [last];
    assert last in all && all[|handles|] == last;
    forall e | e in handles ensures e in all && e.id < last.id {
      var i :| 0 <= i < |handles| && handles[i] == e;
      assert all[i] == e;
    }
  }

  lemma PostedSnoc(handles: seq<R.Entry>, last: R.Entry, message: string)
    ensures R.Posted(handles + [last], message) ==
      R.Posted(handles, message) + [R.Task(last.id, last.handler, message)]
  {
  }

  lemma WaitingPostedSnoc(
      c: Codec, handles: seq<R.Entry>, last: R.Entry, message: string, tasks: seq<R.Task>, ran: set<nat>, self: nat)
    requires |tasks| + |handles| !in ran
    ensures Waiting(c, tasks + R.Posted(handles + [last], message), ran, self) ==
      Waiting(c, tasks + R.Posted(handles, message), ran, self) +
      if last.id == self then multiset{c.decode(message)} else multiset{}
  {
    var task := R.Task(last.id, last.handler, message);
    PostedSnoc(handles, last, message);
    assert tasks + R.Posted(handles + [last], message) == tasks + R.Posted(handles, message) + [task];
    WaitingSnoc(c, tasks + R.Posted(handles, message), task, ran, self);
  }

  /** A dispatched message is posted to the requester's handler once if that is registered. */
  lemma {:induction false} WaitingPosted(
      c: Codec, handles: seq<R.Entry>, message: string, tasks: seq<R.Task>, ran: set<nat>, self: nat)
    requires R.Ascending(handles) && forall i :: i in ran ==> i < |tasks|
    ensures Waiting(c, tasks + R.Posted(handles, message), ran, self) == Waiting(c, tasks, ran, self) +
      if Registered(handles, self) then multiset{c.decode(message)} else multiset{}
    decreases |handles|
  {
    if handles == [] {
      assert tasks + R.Posted(handles, message) == tasks;
    } else {
      var rest, last := handles[..|handles| - 1], handles[|handles| - 1];
      assert handles == rest + [last];
      WaitingPosted(c, rest, message, tasks, ran, self);
      WaitingPostedSnoc(c, rest, last, message, tasks, ran, self);
      RegisteredLast(rest, last, self);
    }
  }

  lemma {:induction false} WaitingRan(c: Codec, tasks: seq<R.Task>, ran: set<nat>, self: nat, i: nat)
    requires i < |tasks| && i !in ran
    ensures Waiting(c, tasks, ran, self) == Waiting(c, tasks, ran + {i}, self) + Call(c, tasks[i], self)
  {
    var rest, n := tasks[..|tasks| - 1], |tasks| - 1;
    if i == n {
      SameWaiting(c, rest, ran, ran + {i}, self);
    } else {
      WaitingRan(c, rest, ran, self, i);
      assert n in ran <==> n in ran + {i};
      var last := if n in ran then multiset{} else Call(c, tasks[n], self);
      assert Waiting(c, tasks, ran, self) == Waiting(c, rest, ran, self) + last;
      assert Waiting(c, tasks, ran + {i}, self) == Waiting(c, rest, ran + {i}, self) + last;
    }
  }

  lemma {:induction false} SameWaiting(c: Codec, tasks: seq<R.Task>, ran: set<nat>, more: set<nat>, self: nat)
    requires forall i :: 0 <= i < |tasks| ==> (i in ran <==> i in more)
    ensures Waiting(c, tasks, ran, self) == Waiting(c, tasks, more, self)
  {
    if tasks != [] {
      SameWaiting(c, tasks[..|tasks| - 1], ran, more, self);
    }
  }

  lemma OutgoingSend(w: W.State, d: nat, data: string)
    requires d <= |w.wire|
    ensures Outgoing(W.Step(w, W.Send(data)), d) == Outgoing(w, d) + [data]
  {
  }

  lemma OutgoingFill(w: W.State, d: nat)
    requires d <= |w.wire| && W.Enabled(w, W.Fill)
    ensures Outgoing(W.Step(w, W.Fill), d) == Outgoing(w, d)
  {
  }

  lemma OutgoingWrite(w: W.State, d: nat, ok: bool)
    requires d <= |w.wire| && w.running.Some? && w.buffer == w.running.value
    ensures Outgoing(w, d) == w.wire[d..] + [w.buffer] + w.queue
    ensures Outgoing(W.Step(w, W.Write(ok)), d) == if ok then Outgoing(w, d) else w.wire[d..] + w.queue
  {
    if ok {
      assert (w.wire + [w.buffer])[d..] == w.wire[d..] + [w.buffer];
    }
  }

  lemma OutgoingDeliver(w: W.State, d: nat)
    requires d < |w.wire|
    ensures Outgoing(w, d) == [w.wire[d]] + Outgoing(w, d + 1)
  {
  }

  /** An issued request does not turn a frame on its way into one of its own. */
  lemma IssueKeepsRequests(s: State, id: Id, texts: seq<string>)
    requires I.IdsOk(s.core) && id in s.core.made && Claimed(s.codec, s.core.owner, s.core.foreign, texts)
    ensures Requests(s.codec, P.IssueStep(s.core, id).owner, texts) == Requests(s.codec, s.core.owner, texts)
  {
    SameRequests(s.codec, s.core.owner, P.IssueStep(s.core, id).owner, texts);
  }

  /** Steps of the requester or the peer alone do not touch the messages in between. */
  lemma EntryStepJoins(core: P.State, p: P.Event, u: multiset<Message>, v: multiset<Raw>, w: multiset<Raw>)
    requires IsLocal(p) && I.ChangesOneEntry(p) && P.Enabled(core, p)
    ensures P.Enabled(Join(core, u, v, w), p)
    ensures P.Step(Join(core, u, v, w), p) == Join(P.Step(core, p), u, v, w) && P.Step(core, p).owner == core.owner
  {
  }

  lemma OtherStepJoins(core: P.State, p: P.Event, u: multiset<Message>, v: multiset<Raw>, w: multiset<Raw>)
    requires IsLocal(p) && !I.ChangesEntries(p) && P.Enabled(core, p)
    ensures P.Enabled(Join(core, u, v, w), p)
    ensures P.Step(Join(core, u, v, w), p) == Join(P.Step(core, p), u, v, w) && P.Step(core, p).owner == core.owner
  {
  }

  lemma IssueJoins(core: P.State, id: Id, u: multiset<Message>, v: multiset<Raw>, w: multiset<Raw>)
    requires id in core.made
    ensures P.Next(Join(core, u, v, w), P.Issue(id)) == Some(Join(P.Step(core, P.Issue(id)), u, v, w))
  {
  }

  lemma IssueRefines(s: State, id: Id)
    requires WriterOk(s) && I.IdsOk(s.core) && id in s.core.made
    requires Claimed(s.codec, s.core.owner, s.core.foreign, Outgoing(s.writer, s.delivered))
    ensures Realises(s, Local(P.Issue(id)))
  {
    var a := Abstract(s);
    IssueKeepsRequests(s, id, Outgoing(s.writer, s.delivered));
    IssueJoins(s.core, id, a.toPeer, a.toClient, a.inbox);
  }

  lemma LocalRefines(s: State, p: P.Event)
    requires WriterOk(s) && IsLocal(p) && P.Enabled(s.core, p) && !p.Issue?
    ensures Realises(s, Local(p))
  {
    var a := Abstract(s);
    if I.ChangesOneEntry(p) {
      EntryStepJoins(s.core, p, a.toPeer, a.toClient, a.inbox);
    } else {
      OtherStepJoins(s.core, p, a.toPeer, a.toClient, a.inbox);
    }
    assert Abstract(Step(s, Local(p))) == Join(P.Step(s.core, p), a.toPeer, a.toClient, a.inbox);
  }

  lemma SendRefines(s: State, k: nat)
    requires RoundTrips(s.codec) && WriterOk(s) && I.OwnerOk(s.core) && P.Enabled(s.core, P.Send(k))
    ensures Realises(s, Send(k))
  {
    var m := s.core.entries[k].message;
    OutgoingSend(s.writer, s.delivered, s.codec.encode(m));
    RequestsConcat(s.codec, s.core.owner, Outgoing(s.writer, s.delivered), [s.codec.encode(m)]);
    RequestsOne(s.codec, s.core.owner, s.codec.encode(m));
  }

  /** What others send is no step of this protocol. */
  lemma SendOtherRefines(s: State, data: string)
    requires WriterOk(s) && Enabled(s, SendOther(data)) && forall i :: i in s.core.foreign ==> i !in s.core.owner
    ensures Realises(s, SendOther(data))
  {
    OutgoingSend(s.writer, s.delivered, data);
    RequestsConcat(s.codec, s.core.owner, Outgoing(s.writer, s.delivered), [data]);
    RequestsOne(s.codec, s.core.owner, data);
  }

  lemma RequestsWithout(c: Codec, owner: map<Id, nat>, before: seq<string>, text: string, after: seq<string>)
    ensures var all, m := Requests(c, owner, before + [text] + after), c.decode(text);
      Requests(c, owner, before + after) == (if Mine(owner, m) then all - multiset{m.message} else all)
      && (Mine(owner, m) ==> m.message in all)
  {
    RequestsConcat(c, owner, before + [text], after);
    RequestsConcat(c, owner, before, [text]);
    RequestsConcat(c, owner, before, after);
    RequestsOne(c, owner, text);
  }

  lemma LoseJoins(core: P.State, m: Message, u: multiset<Message>, v: multiset<Raw>, w: multiset<Raw>)
    requires m in u
    ensures P.Next(Join(core, u, v, w), P.LoseRequest(m)) == Some(Join(core, u - multiset{m}, v, w))
  {
  }

  lemma WriteFollows(s: State, ok: bool)
    requires WriterOk(s) && s.writer.running.Some?
    ensures Follows(Abstract(s), WriteLabel(s, ok), Abstract(WriteStep(s, ok)))
  {
    var a, raw := Abstract(s), s.codec.decode(s.writer.buffer);
    OutgoingWrite(s.writer, s.delivered, ok);
    RequestsWithout(s.codec, s.core.owner, s.writer.wire[s.delivered..], s.writer.buffer, s.writer.queue);
    if !ok && Mine(s.core.owner, raw) {
      LoseJoins(s.core, raw.message, a.toPeer, a.toClient, a.inbox);
    }
  }

  /** The strand moves a request on; a failing write loses it. */
  lemma WriteRefines(s: State, ok: bool)
    requires WriterOk(s) && Enabled(s, Write(ok))
    ensures Realises(s, Write(ok))
  {
    WriteFollows(s, ok);
    assert Step(s, Write(ok)) == WriteStep(s, ok) && Label(s, Write(ok)) == WriteLabel(s, ok);
  }

  lemma ReceiveJoins(core: P.State, m: Message, u: multiset<Message>, v: multiset<Raw>, w: multiset<Raw>)
    requires m in u
    ensures P.Next(Join(core, u, v, w), P.PeerReceive(m)) ==
      Some(Join(core.(atPeer := core.atPeer + multiset{m}, seen := core.seen + {m}), u - multiset{m}, v, w))
  {
  }

  lemma DeliverTakes(s: State)
    requires s.delivered < |s.writer.wire|
    ensures var all := Requests(s.codec, s.core.owner, Outgoing(s.writer, s.delivered));
      var raw := s.codec.decode(s.writer.wire[s.delivered]);
      Requests(s.codec, s.core.owner, Outgoing(s.writer, s.delivered + 1)) ==
        (if Mine(s.core.owner, raw) then all - multiset{raw.message} else all)
      && (Mine(s.core.owner, raw) ==> raw.message in all)
  {
    var text, rest := s.writer.wire[s.delivered], Outgoing(s.writer, s.delivered + 1);
    OutgoingDeliver(s.writer, s.delivered);
    assert Outgoing(s.writer, s.delivered) == [] + [text] + rest && [] + rest == rest;
    RequestsWithout(s.codec, s.core.owner, [], text, rest);
  }

  lemma DeliverFollows(s: State)
    requires s.delivered < |s.writer.wire|
    ensures Follows(Abstract(s), DeliverLabel(s), Abstract(DeliverStep(s)))
  {
    var a, raw := Abstract(s), s.codec.decode(s.writer.wire[s.delivered]);
    DeliverTakes(s);
    if Mine(s.core.owner, raw) {
      ReceiveJoins(s.core, raw.message, a.toPeer, a.toClient, a.inbox);
    }
  }

  lemma DeliverRefines(s: State)
    requires WriterOk(s) && Enabled(s, Deliver)
    ensures Realises(s, Deliver)
  {
    DeliverFollows(s);
    assert Step(s, Deliver) == DeliverStep(s) && Label(s, Deliver) == DeliverLabel(s);
  }

  /** A frame of the peer joins those that are coming in. */
  lemma MoreBack(s: State, t: State, text: string)
    requires s.delivered <= |s.writer.wire| && t == s.(core := t.core, back := s.back + [text])
    requires t.core.owner == s.core.owner
    ensures var a := Abstract(s);
      Abstract(t) == Join(t.core, a.toPeer, a.toClient + multiset{s.codec.decode(text)}, a.inbox)
  {
    assert Incoming(t) == Incoming(s) + [text];
    DecodedConcat(s.codec, Incoming(s), [text]);
    assert Decoded(s.codec, [text]) == [s.codec.decode(text)];
  }

  lemma AnswerJoins(core: P.State, e: P.Event, r: Message, u: multiset<Message>, v: multiset<Raw>, w: multiset<Raw>)
    requires P.Enabled(core, e) && I.Built(e) == Some(r)
    ensures P.Next(Join(core, u, v, w), e) == Some(Join(
      if e.PeerAnswer? then core.(atPeer := core.atPeer - multiset{e.m}, answered := core.answered + {r})
      else core.(fuel := core.fuel - 1, answered := core.answered + {r}),
      u, v + multiset{Json(r)}, w))
  {
  }

  /** What the peer sends is on its way to the client. */
  lemma AnswerRefines(s: State, m: Message, status: Status, payload: string)
    requires RoundTrips(s.codec) && WriterOk(s) && Enabled(s, Answer(m, status, payload))
    ensures Realises(s, Answer(m, status, payload))
  {
    var a, r := Abstract(s), MakeResponse(m, status, payload);
    MoreBack(s, AnswerStep(s, m, r), s.codec.encode(r));
    AnswerJoins(s.core, P.PeerAnswer(m, status, payload), r, a.toPeer, a.toClient, a.inbox);
    assert Step(s, Answer(m, status, payload)) == AnswerStep(s, m, r);
  }

  lemma RepeatRefines(s: State, m: Message, status: Status, payload: string)
    requires RoundTrips(s.codec) && WriterOk(s) && Enabled(s, Repeat(m, status, payload))
    ensures Realises(s, Repeat(m, status, payload))
  {
    var a, r := Abstract(s), MakeResponse(m, status, payload);
    MoreBack(s, RepeatStep(s, r), s.codec.encode(r));
    AnswerJoins(s.core, P.PeerRepeat(m, status, payload), r, a.toPeer, a.toClient, a.inbox);
    assert Step(s, Repeat(m, status, payload)) == RepeatStep(s, r);
  }

  lemma ChatterJoins(core: P.State, raw: Raw, u: multiset<Message>, v: multiset<Raw>, w: multiset<Raw>)
    requires P.Enabled(core, P.PeerChatter(raw))
    ensures P.Next(Join(core, u, v, w), P.PeerChatter(raw)) ==
      Some(Join(core.(fuel := core.fuel - 1), u, v + multiset{raw}, w))
  {
  }

  lemma ChatterFollows(s: State, text: string)
    requires WriterOk(s) && P.Enabled(s.core, P.PeerChatter(s.codec.decode(text)))
    ensures Follows(Abstract(s), Some(P.PeerChatter(s.codec.decode(text))), Abstract(ChatterStep(s, text)))
  {
    var a := Abstract(s);
    MoreBack(s, ChatterStep(s, text), text);
    ChatterJoins(s.core, s.codec.decode(text), a.toPeer, a.toClient, a.inbox);
  }

  lemma ChatterRefines(s: State, text: string)
    requires WriterOk(s) && Enabled(s, Chatter(text))
    ensures Realises(s, Chatter(text))
  {
    ChatterFollows(s, text);
    assert Step(s, Chatter(text)) == ChatterStep(s, text);
    assert Label(s, Chatter(text)) == Some(P.PeerChatter(s.codec.decode(text)));
  }

  lemma DecodedRest(c: Codec, text: string, texts: seq<string>)
    ensures multiset(Decoded(c, texts)) == multiset(Decoded(c, [text] + texts)) - multiset{c.decode(text)}
    ensures c.decode(text) in multiset(Decoded(c, [text] + texts))
  {
    DecodedConcat(c, [text], texts);
    assert Decoded(c, [text]) == [c.decode(text)];
  }

  lemma PostJoins(core: P.State, raw: Raw, u: multiset<Message>, v: multiset<Raw>, w: multiset<Raw>)
    requires raw in v
    ensures P.Next(Join(core, u, v, w), P.Post(raw)) == Some(Join(core, u, v - multiset{raw}, w + multiset{raw}))
    ensures P.Next(Join(core, u, v, w), P.LoseReply(raw)) == Some(Join(core, u, v - multiset{raw}, w))
  {
  }

  lemma ReadAbstract(s: State, text: string)
    requires s.delivered <= |s.writer.wire| && s.reader.reading > 0 && s.frame == Some(text) && s.reader.buffer == text
    requires R.Ascending(s.reader.handles) && forall i :: i in s.ran ==> i < |s.reader.tasks|
    ensures var a, raw := Abstract(s), s.codec.decode(text);
      && raw in a.toClient
      && Abstract(CompleteStep(s, R.Ok)) == Join(s.core, a.toPeer, a.toClient - multiset{raw},
           a.inbox + if Registered(s.reader.handles, s.self) then multiset{raw} else multiset{})
  {
    DecodedRest(s.codec, text, s.back);
    var t := CompleteStep(s, R.Ok);
    assert Incoming(t) == s.back;
    assert t.reader.tasks == s.reader.tasks + R.Posted(s.reader.handles, text);
    WaitingPosted(s.codec, s.reader.handles, text, s.reader.tasks, s.ran, s.self);
  }

  lemma ReadFollows(s: State)
    requires WriterOk(s) && ReaderOk(s) && s.frame.Some? && s.got == |s.frame.value|
    ensures Follows(Abstract(s), CompleteLabel(s, R.Ok), Abstract(CompleteStep(s, R.Ok)))
  {
    var a, raw := Abstract(s), s.codec.decode(s.frame.value);
    assert s.reader.buffer == s.frame.value;
    ReadAbstract(s, s.frame.value);
    PostJoins(s.core, raw, a.toPeer, a.toClient, a.inbox);
    assert a.inbox + multiset{} == a.inbox;
  }

  lemma FailedReadFollows(s: State, outcome: R.Outcome)
    requires WriterOk(s) && s.reader.reading > 0 && !outcome.Ok?
    ensures Follows(Abstract(s), CompleteLabel(s, outcome), Abstract(CompleteStep(s, outcome)))
  {
    var a := Abstract(s);
    assert Incoming(CompleteStep(s, outcome)) == s.back;
    if s.frame.Some? {
      DecodedRest(s.codec, s.frame.value, s.back);
      PostJoins(s.core, s.codec.decode(s.frame.value), a.toPeer, a.toClient, a.inbox);
    } else {
      assert Incoming(s) == s.back;
    }
  }

  /** A message that was read goes to the requester's handler; if that is gone, or the read fails, it is lost. */
  lemma CompleteRefines(s: State, outcome: R.Outcome)
    requires WriterOk(s) && ReaderOk(s) && Enabled(s, Complete(outcome))
    ensures Realises(s, Complete(outcome))
  {
    if outcome.Ok? {
      ReadFollows(s);
    } else {
      FailedReadFollows(s, outcome);
    }
    assert Step(s, Complete(outcome)) == CompleteStep(s, outcome);
    assert Label(s, Complete(outcome)) == CompleteLabel(s, outcome);
  }

  lemma LookUpJoins(core: P.State, raw: Raw, u: multiset<Message>, v: multiset<Raw>, w: multiset<Raw>)
    requires raw in w
    ensures P.Next(Join(core, u, v, w), P.LookUp(raw)) == Some(Join(
      if P.IsResponse(raw) && raw.message.id in core.pending
      then core.(held := core.held + multiset{P.Held(core.pending[raw.message.id], raw.message)}) else core,
      u, v, w - multiset{raw}))
  {
  }

  lemma RunFollows(s: State, i: nat)
    requires WriterOk(s) && i < |s.reader.tasks| && i !in s.ran
    ensures Follows(Abstract(s), RunLabel(s, i), Abstract(RunStep(s, i)))
  {
    var a, raw := Abstract(s), s.codec.decode(s.reader.tasks[i].message);
    WaitingRan(s.codec, s.reader.tasks, s.ran, s.self, i);
    if s.reader.tasks[i].id == s.self {
      assert Waiting(s.codec, s.reader.tasks, s.ran + {i}, s.self) == a.inbox - multiset{raw};
      LookUpJoins(s.core, raw, a.toPeer, a.toClient, a.inbox);
    }
  }

  lemma RunTaskRefines(s: State, i: nat)
    requires WriterOk(s) && Enabled(s, RunTask(i))
    ensures Realises(s, RunTask(i))
  {
    RunFollows(s, i);
    assert Step(s, RunTask(i)) == RunStep(s, i) && Label(s, RunTask(i)) == RunLabel(s, i);
  }

  lemma FillRefines(s: State)
    requires WriterOk(s) && Enabled(s, Fill)
    ensures Realises(s, Fill)
  {
    OutgoingFill(s.writer, s.delivered);
  }

  lemma HandlersRefine(s: State, r: R.Event)
    requires WriterOk(s) && Enabled(s, Handlers(r))
    ensures Realises(s, Handlers(r))
  {
    assert R.Step(s.reader, r).tasks == s.reader.tasks;
  }

  /** The bytes of a message that is arriving are not seen by the protocol. */
  lemma ArrivalRefines(s: State, e: Event)
    requires WriterOk(s) && Enabled(s, e) && (e.Begin? || e.Receive?)
    ensures Realises(s, e)
  {
    assert Incoming(Step(s, e)) == Incoming(s);
  }

  /** Every step of the sessions, the requester and the peer together realises a step of the protocol, or none. */
  lemma StepRefines(s: State, e: Event)
    requires RoundTrips(s.codec) && WriterOk(s) && ReaderOk(s) && Enabled(s, e)
    requires Claimed(s.codec, s.core.owner, s.core.foreign, Outgoing(s.writer, s.delivered))
    requires I.IdsOk(s.core) && I.OwnerOk(s.core)
    ensures Realises(s, e)
  {
    match e {
      case Local(p) => if p.Issue? { IssueRefines(s, p.id); } else { LocalRefines(s, p); }
      case Send(k) => SendRefines(s, k);
      case SendOther(data) => SendOtherRefines(s, data);
      case Fill => FillRefines(s);
      case Write(ok) => WriteRefines(s, ok);
      case Deliver => DeliverRefines(s);
      case Answer(m, status, payload) => AnswerRefines(s, m, status, payload);
      case Repeat(m, status, payload) => RepeatRefines(s, m, status, payload);
      case Chatter(text) => ChatterRefines(s, text);
      case Begin => ArrivalRefines(s, e);
      case Receive(_) => ArrivalRefines(s, e);
      case Complete(outcome) => CompleteRefines(s, outcome);
      case Handlers(r) => HandlersRefine(s, r);
      case RunTask(i) => RunTaskRefines(s, i);
    }
  }

  lemma StepKeepsWriter(s: State, e: Event)
    requires WriterOk(s) && Enabled(s, e)
    ensures WriterOk(Step(s, e))
  {
  }

  lemma StepKeepsReader(s: State, e: Event)
    requires ReaderOk(s) && Enabled(s, e)
    ensures ReaderOk(Step(s, e))
  {
    if e.Handlers? {
      R.StepKeepsHandles(s.reader, e.r);
    }
  }

  lemma ClaimedGrows(s: State, t: State, texts: seq<string>, more: seq<string>)
    requires Claimed(s.codec, s.core.owner, s.core.foreign, texts) && t.codec == s.codec
    requires s.core.foreign <= t.core.foreign && forall i :: i in s.core.owner ==> i in t.core.owner
    requires forall x :: x in more && x !in texts && s.codec.decode(x).Json? ==>
      s.codec.decode(x).message.id in t.core.owner || s.codec.decode(x).message.id in t.core.foreign
    ensures Claimed(t.codec, t.core.owner, t.core.foreign, more)
  {
  }

  lemma StepKeepsClaimed(s: State, e: Event)
    requires RoundTrips(s.codec) && WriterOk(s) && Enabled(s, e) && WriterOk(Step(s, e))
    requires Claimed(s.codec, s.core.owner, s.core.foreign, Outgoing(s.writer, s.delivered))
    requires I.IdsOk(s.core) && I.OwnerOk(s.core)
    ensures var t := Step(s, e); Claimed(t.codec, t.core.owner, t.core.foreign, Outgoing(t.writer, t.delivered))
  {
    if e.Local? {
      I.StepGrows(s.core, e.p);
    } else if e.Send? {
      OutgoingSend(s.writer, s.delivered, s.codec.encode(s.core.entries[e.k].message));
    } else if e.SendOther? {
      OutgoingSend(s.writer, s.delivered, e.data);
    } else if e.Fill? {
      OutgoingFill(s.writer, s.delivered);
    } else if e.Write? {
      OutgoingWrite(s.writer, s.delivered, e.ok);
    } else if e.Deliver? {
      OutgoingDeliver(s.writer, s.delivered);
    }
    ClaimedGrows(s, Step(s, e), Outgoing(s.writer, s.delivered), Outgoing(Step(s, e).writer, Step(s, e).delivered));
  }

  lemma CoreIds(s: State)
    requires s.delivered <= |s.writer.wire| && I.Inv(Abstract(s))
    ensures I.IdsOk(s.core) && I.OwnerOk(s.core)
  {
  }

  lemma FollowsKeepsInv(p: P.State, step: Option<P.Event>, q: P.State)
    requires I.Inv(p) && Follows(p, step, q)
    ensures I.Inv(q)
  {
    if step.Some? {
      I.StepKeepsInv(p, step.value);
    }
  }

  lemma StepKeepsLink(s: State, e: Event)
    requires RoundTrips(s.codec) && WriterOk(s) && ReaderOk(s) && Enabled(s, e)
    requires Claimed(s.codec, s.core.owner, s.core.foreign, Outgoing(s.writer, s.delivered))
    requires I.IdsOk(s.core) && I.OwnerOk(s.core)
    ensures var t := Step(s, e);
      && RoundTrips(t.codec) && WriterOk(t) && ReaderOk(t)
      && Claimed(t.codec, t.core.owner, t.core.foreign, Outgoing(t.writer, t.delivered))
  {
    StepKeepsWriter(s, e);
    StepKeepsReader(s, e);
    StepKeepsClaimed(s, e);
  }

  lemma StepKeepsInv(s: State, e: Event)
    requires Inv(s) && Enabled(s, e)
    ensures Inv(Step(s, e)) && Realises(s, e)
  {
    CoreIds(s);
    StepRefines(s, e);
    StepKeepsLink(s, e);
    FollowsKeepsInv(Abstract(s), Label(s, e), Abstract(Step(s, e)));
  }

  lemma RunKeepsInv(s: State, trace: seq<Event>)
    requires Inv(s) && Fires(Next, s, trace)
    ensures Inv(Run(Next, s, trace))
  {
    forall x, e | Inv(x) && Next(x, e).Some? ensures Inv(Next(x, e).value) {
      StepKeepsInv(x, e);
    }
    Invariant(Next, Inv, s, trace);
  }

  /** The protocol steps that a run of the sessions stands for. */
  function Labels(s: State, trace: seq<Event>): seq<P.Event>
    requires Fires(Next, s, trace)
  {
    if trace == [] then []
    else
      var n := |trace| - 1;
      var last := Label(Run(Next, s, trace[..n]), trace[n]);
      Labels(s, trace[..n]) + if last.Some? then [last.value] else []
  }

  /** Every run of the sessions is a run of the protocol. */
  lemma {:induction false} RunRefines(s: State, trace: seq<Event>)
    requires Inv(s) && Fires(Next, s, trace)
    ensures Inv(Run(Next, s, trace))
    ensures Fires(P.Next, Abstract(s), Labels(s, trace))
    ensures Run(P.Next, Abstract(s), Labels(s, trace)) == Abstract(Run(Next, s, trace))
  {
    if trace != [] {
      var n := |trace| - 1;
      var before := Run(Next, s, trace[..n]);
      RunRefines(s, trace[..n]);
      StepKeepsInv(before, trace[n]);
      var last := Label(before, trace[n]);
      if last.Some? {
        Snoc(P.Next, Abstract(s), Labels(s, trace[..n]), last.value);
      } else {
        assert Labels(s, trace) == Labels(s, trace[..n]);
      }
    }
  }

  /** A new requester on a session that is open and being read. What others have sent over it may still be waiting in
      the strand or be on its way, and tasks of other handlers may be waiting to be run. */
  ghost predicate Initial(s: State) {
    && RoundTrips(s.codec) && P.Initial(s.core)
    && WriterOk(s) && Claimed(s.codec, s.core.owner, s.core.foreign, Outgoing(s.writer, s.delivered))
    && s.back == [] && s.frame.None? && ReaderOk(s) && s.reader.reading == 1
    && Registered(s.reader.handles, s.self) && forall t :: t in s.reader.tasks ==> t.id != s.self
  }

  lemma {:induction false} NobodysRequests(c: Codec, texts: seq<string>)
    ensures Requests(c, map[], texts) == multiset{}
  {
    if texts != [] {
      NobodysRequests(c, texts[..|texts| - 1]);
    }
  }

  lemma {:induction false} OthersTasks(c: Codec, tasks: seq<R.Task>, ran: set<nat>, self: nat)
    requires forall t :: t in tasks ==> t.id != self
    ensures Waiting(c, tasks, ran, self) == multiset{}
  {
    if tasks != [] {
      assert tasks[|tasks| - 1] in tasks;
      OthersTasks(c, tasks[..|tasks| - 1], ran, self);
    }
  }

  lemma InitialIsInitial(s: State)
    requires Initial(s)
    ensures Abstract(s) == s.core && Inv(s)
  {
    NobodysRequests(s.codec, Outgoing(s.writer, s.delivered));
    OthersTasks(s.codec, s.reader.tasks, s.ran, s.self);
    assert Incoming(s) == [];
    assert Abstract(s) == s.core;
    I.InitialInv(s.core);
  }

  /** Whatever the sessions do, the state they realise is one the protocol can reach, by the steps they stand for. So
      all promises of the protocol hold end to end, from the strand to the handler. */
  lemma SessionsCarryTheProtocol(start: State, trace: seq<Event>)
    requires Initial(start) && Fires(Next, start, trace)
    ensures Inv(Run(Next, start, trace))
    ensures Fires(P.Next, Abstract(start), Labels(start, trace))
    ensures Run(P.Next, Abstract(start), Labels(start, trace)) == Abstract(Run(Next, start, trace))
    ensures P.Reachable(Abstract(Run(Next, start, trace)))
  {
    InitialIsInitial(start);
    RunRefines(start, trace);
  }

  /** One of those promises: when the context is about to run the requester's handler on a response, the coroutine
      that waits for it is already stored, however the strand, the network and the reads were interleaved. */
  lemma PostedReplyIsAwaited(start: State, trace: seq<Event>, i: nat, r: Message)
    requires Initial(start) && Fires(Next, start, trace) && r.kind.Response?
    requires var s := Run(Next, start, trace);
      && i < |s.reader.tasks| && i !in s.ran
      && s.reader.tasks[i].id == s.self && s.codec.decode(s.reader.tasks[i].message) == Json(r)
    ensures var core := Run(Next, start, trace).core;
      || r.id in core.foreign
      || exists k :: 0 <= k < |core.entries| && core.entries[k].message.id == r.id && core.entries[k].handle.Some?
  {
    var s := Run(Next, start, trace);
    SessionsCarryTheProtocol(start, trace);
    WaitingRan(s.codec, s.reader.tasks, s.ran, s.self, i);
    T.HandleStoredBeforeResponse(Abstract(s), r);
  }
}
