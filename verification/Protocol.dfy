/** The timed request/response protocol as a labelled transition system (source/message/Requester.cpp).

    The callbacks of the requester run on a thread pool, so every callback is cut where another one can
    get in between: `await_suspend` into store, send and arm, the inbound handler into look-up and set.
    `TimedMessage::set` is one step, because the lock of `m_response` covers its whole body. */
module Protocol {
  import opened Wrappers
  import opened Messages
  import opened Runs

  /** How far `await_suspend` has come. */
  datatype Phase = Created | Stored | Sent | Awaiting

  /** A deadline timer. A completion that is already queued can no longer be revoked by a cancel. */
  datatype Timer = Idle | Armed | Queued(aborted: bool) | Spent

  /** A resumption of a coroutine together with the message `await_resume` gives to it. */
  datatype Resume = Resume(coroutine: nat, message: Message)

  /** One `TimedMessage`. `crashed` records that a null coroutine handle was resumed, `disposed` that the awaiter
      was destroyed. */
  datatype Entry = Entry(
    message: Message,
    phase: Phase,
    handle: Option<nat>,
    timer: Timer,
    response: Option<Message>,
    resumes: seq<Resume>,
    crashed: bool,
    disposed: bool)

  function NewEntry(message: Message): Entry {
    Entry(message, Created, None, Idle, None, [], false, false)
  }

  /** `m_timer.cancel`: a pending wait completes as aborted, everything else stays as it is. */
  function Cancel(t: Timer): Timer {
    if t.Armed? then Queued(true) else t
  }

  /** `TimedMessage::set` as seen by the entry itself. */
  function SetEntry(e: Entry, m: Message): Entry {
    if e.response.Some? then e
    else
      var done := e.(response := Some(m), timer := Cancel(e.timer));
      if e.handle.None? then done.(crashed := true)
      else done.(resumes := e.resumes + [Resume(e.handle.value, m)])
  }

  function StoreEntry(e: Entry, coroutine: nat): Entry {
    e.(handle := Some(coroutine), phase := Stored)
  }

  function ArmEntry(e: Entry): Entry {
    e.(timer := Armed, phase := Awaiting)
  }

  /** The completion handler of the timer: nothing when aborted, otherwise a "timed out" response is set. */
  function TimerEntry(e: Entry): Entry
    requires e.timer.Queued?
  {
    var ran := e.(timer := Spent);
    if e.timer.aborted then ran else SetEntry(ran, TimedOut(e.message))
  }

  /** `~Awaiter`, at the end of the resumed `co_await` expression. */
  function DisposeEntry(e: Entry): Entry {
    e.(disposed := true, timer := Cancel(e.timer))
  }

  /** An inbound handler that has found its entry and is about to call `set`. */
  datatype Held = Held(entry: nat, message: Message)

  /** `quota` is how many requests the application is still going to make, `made` the ones it has made but not yet
      handed to the requester, by their ids; `others` how many ids the other users of
      `next_id` are still going to draw, `fuel` how many copies and unsolicited messages the network and the peer may
      still produce. `issued` counts all calls of `next_id` since the process started.

      `foreign`, `owner`, `seen` and `answered` are history: the ids that others have drawn, the entry that each
      issued id belongs to, the requests the peer received and the responses it built. */
  datatype State = State(
    quota: nat,
    others: nat,
    fuel: nat,
    issued: nat,
    made: map<Id, Message>,
    foreign: set<Id>,
    owner: map<Id, nat>,
    seen: set<Message>,
    answered: set<Message>,
    // the requester
    entries: seq<Entry>,
    pending: map<Id, nat>,
    collided: bool,
    // messages on their way
    toPeer: multiset<Message>,
    atPeer: multiset<Message>,
    toClient: multiset<Raw>,
    inbox: multiset<Raw>,
    held: multiset<Held>)

  function Init(quota: nat, others: nat, fuel: nat, issued: nat, foreign: set<Id>): State {
    State(quota, others, fuel, issued, map[], foreign, map[], {}, {},
          [], map[], false,
          multiset{}, multiset{}, multiset{}, multiset{}, multiset{})
  }

  /** A requester that has just been made, at any time in the life of the process. While it lives at most 2^64 ids
      are drawn, by anybody, and none of them belongs to somebody else already. */
  ghost predicate Initial(s: State) {
    && s == Init(s.quota, s.others, s.fuel, s.issued, s.foreign)
    && s.quota + s.others <= TWO_TO_THE_64
    && forall j :: s.issued <= j < s.issued + s.quota + s.others ==> NthId(j) !in s.foreign
  }

  datatype Event =
    // the application and await_suspend
    | Make(action: Action, data: string)
    | Issue(id: Id)
    | Store(k: nat, coroutine: nat)
    | Send(k: nat)
    | Arm(k: nat)
    | Dispose(k: nat)
    // another requester or `make_notify` draws an id
    | DrawElsewhere
    // the timer
    | Expire(k: nat)
    | RunTimer(k: nat)
    // network and peer
    | LoseRequest(m: Message)
    | CopyRequest(m: Message)
    | PeerReceive(m: Message)
    | PeerIgnore(m: Message)
    | PeerAnswer(m: Message, status: Status, payload: string)
    | PeerRepeat(m: Message, status: Status, payload: string)
    | PeerChatter(raw: Raw)
    | LoseReply(raw: Raw)
    | CopyReply(raw: Raw)
    // the inbound path
    | Post(raw: Raw)
    | LookUp(raw: Raw)
    | Set(h: Held)

  predicate IsResponse(raw: Raw) {
    raw.Json? && raw.message.kind.Response?
  }

  predicate InPhase(s: State, k: nat, p: Phase) {
    k < |s.entries| && s.entries[k].phase == p
  }

  /** The peer answers what it was sent. Beyond that it may send anything that is not a response, and responses to
      requests that others made over the same session. */
  predicate Enabled(s: State, e: Event) {
    match e
    case Make(_, _) => s.quota > 0
    case Issue(id) => id in s.made
    case Store(k, _) => InPhase(s, k, Created)
    case Send(k) => InPhase(s, k, Stored)
    case Arm(k) => InPhase(s, k, Sent)
    case Dispose(k) => k < |s.entries| && s.entries[k].resumes != [] && !s.entries[k].disposed
    case DrawElsewhere => s.others > 0
    case Expire(k) => k < |s.entries| && s.entries[k].timer.Armed?
    case RunTimer(k) => k < |s.entries| && s.entries[k].timer.Queued?
    case LoseRequest(m) => m in s.toPeer
    case CopyRequest(m) => m in s.toPeer && s.fuel > 0
    case PeerReceive(m) => m in s.toPeer
    case PeerIgnore(m) => m in s.atPeer
    case PeerAnswer(m, _, _) => m in s.atPeer
    case PeerRepeat(m, _, _) => m in s.seen && s.fuel > 0
    case PeerChatter(raw) => (!IsResponse(raw) || raw.message.id in s.foreign) && s.fuel > 0
    case LoseReply(raw) => raw in s.toClient
    case CopyReply(raw) => raw in s.toClient && s.fuel > 0
    case Post(raw) => raw in s.toClient
    case LookUp(raw) => raw in s.inbox
    case Set(h) => h in s.held && h.entry < |s.entries|
  }

  /** `make_request` with the next id. */
  function MakeStep(s: State, action: Action, data: string): State
    requires s.quota > 0
  {
    var m := MakeRequest(NthId(s.issued), action, data);
    s.(quota := s.quota - 1, issued := s.issued + 1, made := s.made[m.id := m])
  }

  /** `Requester::request`. When the id is already pending, `emplace` keeps the old entry and the new one is lost;
      `collided` records that. */
  function IssueStep(s: State, id: Id): State
    requires id in s.made
  {
    var m, rest := s.made[id], s.(made := s.made - {id});
    if m.id in s.pending then rest.(collided := true)
    else rest.(
      entries := s.entries + [NewEntry(m)],
      pending := s.pending[m.id := |s.entries|],
      owner := s.owner[m.id := |s.entries|])
  }

  /** `set` on entry `k`: the first response removes the message's id from the pending map. */
  function SetStep(s: State, k: nat, m: Message): State
    requires k < |s.entries|
  {
    s.(entries := s.entries[k := SetEntry(s.entries[k], m)],
       pending := if s.entries[k].response.Some? then s.pending else s.pending - {m.id})
  }

  function TimerStep(s: State, k: nat): State
    requires k < |s.entries| && s.entries[k].timer.Queued?
  {
    var e := s.entries[k];
    s.(entries := s.entries[k := TimerEntry(e)],
       pending := if e.timer.aborted || e.response.Some? then s.pending else s.pending - {e.message.id})
  }

  /** The first half of the inbound handler: anything but a response to a pending request is dropped. */
  function LookUpStep(s: State, raw: Raw): State
    requires raw in s.inbox
  {
    var taken := s.(inbox := s.inbox - multiset{raw});
    if IsResponse(raw) && raw.message.id in s.pending
    then taken.(held := s.held + multiset{Held(s.pending[raw.message.id], raw.message)})
    else taken
  }

  function AnswerStep(s: State, r: Message): State {
    s.(answered := s.answered + {r}, toClient := s.toClient + multiset{Json(r)})
  }

  function Step(s: State, e: Event): State
    requires Enabled(s, e)
  {
    match e
    case Make(action, data) => MakeStep(s, action, data)
    case Issue(id) => IssueStep(s, id)
    case Store(k, c) => s.(entries := s.entries[k := StoreEntry(s.entries[k], c)])
    case Send(k) => s.(entries := s.entries[k := s.entries[k].(phase := Sent)],
                       toPeer := s.toPeer + multiset{s.entries[k].message})
    case Arm(k) => s.(entries := s.entries[k := ArmEntry(s.entries[k])])
    case Dispose(k) => s.(entries := s.entries[k := DisposeEntry(s.entries[k])])
    case DrawElsewhere => s.(others := s.others - 1, issued := s.issued + 1, foreign := s.foreign + {NthId(s.issued)})
    case Expire(k) => s.(entries := s.entries[k := s.entries[k].(timer := Queued(false))])
    case RunTimer(k) => TimerStep(s, k)
    case LoseRequest(m) => s.(toPeer := s.toPeer - multiset{m})
    case CopyRequest(m) => s.(fuel := s.fuel - 1, toPeer := s.toPeer + multiset{m})
    case PeerReceive(m) => s.(toPeer := s.toPeer - multiset{m}, atPeer := s.atPeer + multiset{m}, seen := s.seen + {m})
    case PeerIgnore(m) => s.(atPeer := s.atPeer - multiset{m})
    case PeerAnswer(m, status, payload) =>
      AnswerStep(s.(atPeer := s.atPeer - multiset{m}), MakeResponse(m, status, payload))
    case PeerRepeat(m, status, payload) =>
      AnswerStep(s.(fuel := s.fuel - 1), MakeResponse(m, status, payload))
    case PeerChatter(raw) => s.(fuel := s.fuel - 1, toClient := s.toClient + multiset{raw})
    case LoseReply(raw) => s.(toClient := s.toClient - multiset{raw})
    case CopyReply(raw) => s.(fuel := s.fuel - 1, toClient := s.toClient + multiset{raw})
    case Post(raw) => s.(toClient := s.toClient - multiset{raw}, inbox := s.inbox + multiset{raw})
    case LookUp(raw) => LookUpStep(s, raw)
    case Set(h) => SetStep(s.(held := s.held - multiset{h}), h.entry, h.message)
  }

  function Next(s: State, e: Event): Option<State> {
    if Enabled(s, e) then Some(Step(s, e)) else None
  }

  ghost predicate Reachable(s: State) {
    exists start: State, trace: seq<Event> :: Initial(start) && Fires(Next, start, trace) && s == Run(Next, start, trace)
  }
}
