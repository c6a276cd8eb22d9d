/** Reading from a session and dispatching to its handlers (source/websocket/client/Session.cpp,
    source/websocket/server/Session.cpp). Handlers are named by numbers, bytes are characters. */
module SessionReads {
  import opened Wrappers
  import opened Runs

  datatype Side = Client | Server
  datatype Entry = Entry(id: nat, handler: nat)
  datatype Task = Task(id: nat, handler: nat, message: string)
  datatype Outcome = Ok | Failed | Closed

  /** `reading` counts the reads that are outstanding; `handles` is the map of handlers, ascending by id; `used`
      are the handler ids that were given out and registered; `tasks` are the calls posted to the context, oldest
      first. */
  datatype State = State(
    side: Side,
    open: bool,
    reading: nat,
    buffer: string,
    handles: seq<Entry>,
    used: set<nat>,
    tasks: seq<Task>)

  function Init(side: Side): State {
    State(side, false, 0, "", [], {}, [])
  }

  datatype Event =
    | Connect
    | Receive(bytes: string)
    | Complete(outcome: Outcome)
    | SetHandle(handler: nat, id: nat)
    | UnsetHandle(id: nat)
    | Close
    | Drop

  /** Ids come from one counter for all sessions. Drawing an id and inserting the handler are two steps of
      `setHandle`, so handlers may be inserted in any order of their ids; only an id is never used twice. */
  predicate Enabled(s: State, e: Event) {
    match e
    case Receive(_) => s.reading > 0
    case Complete(_) => s.reading > 0
    case SetHandle(_, id) => id !in s.used
    case _ => true
  }

  function StartRead(s: State): State {
    if s.open then s.(buffer := "", reading := s.reading + 1) else s
  }

  function Posted(handles: seq<Entry>, message: string): seq<Task> {
    seq(|handles|, i requires 0 <= i < |handles| => Task(handles[i].id, handles[i].handler, message))
  }

  /** The insertion of `std::map`: before the first greater id. */
  function With(handles: seq<Entry>, entry: Entry): seq<Entry> {
    if handles == [] || handles[|handles| - 1].id < entry.id then handles + [entry]
    else With(handles[..|handles| - 1], entry) + [handles[|handles| - 1]]
  }

  function Without(handles: seq<Entry>, id: nat): seq<Entry> {
    if handles == [] then []
    else
      var rest := Without(handles[..|handles| - 1], id);
      if handles[|handles| - 1].id == id then rest else rest + [handles[|handles| - 1]]
  }

  /** The completion of a read: unless the stream was closed, `onRead` posts a call for every handler, and the next
      read is started on the way out, after an error too. */
  function CompleteRead(s: State, outcome: Outcome): State
    requires s.reading > 0
  {
    var done := s.(reading := s.reading - 1);
    match outcome
    case Closed => done
    case Failed => StartRead(done)
    case Ok => StartRead(done.(tasks := s.tasks + Posted(s.handles, s.buffer)))
  }

  function Step(s: State, e: Event): State
    requires Enabled(s, e)
  {
    match e
    case Connect => StartRead(s.(open := true))
    case Receive(bytes) => s.(buffer := s.buffer + bytes)
    case Complete(outcome) => CompleteRead(s, outcome)
    case SetHandle(h, id) => s.(handles := With(s.handles, Entry(id, h)), used := s.used + {id})
    case UnsetHandle(id) => s.(handles := Without(s.handles, id))
    case Close => s.(open := false, handles := if s.side.Client? then [] else s.handles)
    case Drop => s.(open := false)
  }

  function Next(s: State, e: Event): Option<State> {
    if Enabled(s, e) then Some(Step(s, e)) else None
  }

  function Connects(trace: seq<Event>): nat {
    if trace == [] then 0
    else Connects(trace[..|trace| - 1]) + if trace[|trace| - 1].Connect? then 1 else 0
  }

  /** There are never more reads outstanding than the session was opened. */
  lemma {:induction false} ReadsBounded(side: Side, trace: seq<Event>)
    requires Fires(Next, Init(side), trace)
    ensures Run(Next, Init(side), trace).reading <= Connects(trace) && Run(Next, Init(side), trace).side == side
  {
    if trace != [] {
      ReadsBounded(side, trace[..|trace| - 1]);
    }
  }

  /** A session that was opened once and neither closed nor dropped has exactly one read outstanding: the next
      read is started after every message and after every failed read. */
  lemma {:induction false} AlwaysReading(side: Side, trace: seq<Event>)
    requires Fires(Next, Init(side), trace)
    requires forall e :: e in trace ==> !e.Close? && !e.Drop? && e != Complete(Closed)
    ensures Run(Next, Init(side), trace).reading == Connects(trace)
    ensures Connects(trace) > 0 ==> Run(Next, Init(side), trace).open
  {
    if trace != [] {
      var n := |trace| - 1;
      AlwaysReading(side, trace[..n]);
      assert trace[n] in trace;
    }
  }

  /** The stream was opened, and neither closed nor dropped since. */
  predicate OpenAfter(trace: seq<Event>) {
    trace != [] &&
      var e := trace[|trace| - 1];
      e.Connect? || (!e.Close? && !e.Drop? && OpenAfter(trace[..|trace| - 1]))
  }

  lemma {:induction false} OpenIsOpen(side: Side, trace: seq<Event>)
    requires Fires(Next, Init(side), trace)
    ensures Run(Next, Init(side), trace).open == OpenAfter(trace)
  {
    if trace != [] {
      OpenIsOpen(side, trace[..|trace| - 1]);
    }
  }

  /** The reads that were started: one by each opening, and one after each read that ended otherwise than by the close
      of the stream, while it is open. */
  function Started(trace: seq<Event>): nat {
    if trace == [] then 0
    else
      var before, e := trace[..|trace| - 1], trace[|trace| - 1];
      Started(before) +
        if e.Connect? || (e.Complete? && !e.outcome.Closed? && OpenAfter(before)) then 1 else 0
  }

  function Completions(trace: seq<Event>): nat {
    if trace == [] then 0
    else Completions(trace[..|trace| - 1]) + if trace[|trace| - 1].Complete? then 1 else 0
  }

  /** Exactly the reads are outstanding that were started and have not ended. */
  lemma {:induction false} ReadsExact(side: Side, trace: seq<Event>)
    requires Fires(Next, Init(side), trace)
    ensures Run(Next, Init(side), trace).reading + Completions(trace) == Started(trace)
  {
    if trace != [] {
      ReadsExact(side, trace[..|trace| - 1]);
      OpenIsOpen(side, trace[..|trace| - 1]);
    }
  }

  /** The id has been registered before. */
  predicate Used(trace: seq<Event>, id: nat) {
    exists i :: 0 <= i < |trace| && trace[i].SetHandle? && trace[i].id == id
  }

  lemma {:induction false} UsedIds(side: Side, trace: seq<Event>, id: nat)
    requires Fires(Next, Init(side), trace)
    ensures id in Run(Next, Init(side), trace).used <==> Used(trace, id)
  {
    if trace != [] {
      var n := |trace| - 1;
      UsedIds(side, trace[..n], id);
      assert trace == trace[..n] + [trace[n]];
    }
  }

  /** What can happen at the end of a run: bytes and ends of reads, of whatever kind, while more reads were started than
      have ended; a registration under any id that was not used; everything else at any time. */
  lemma WhatMayHappen(side: Side, trace: seq<Event>, e: Event)
    requires Fires(Next, Init(side), trace)
    ensures Enabled(Run(Next, Init(side), trace), e) <==>
      && (e.Receive? || e.Complete? ==> Completions(trace) < Started(trace))
      && (e.SetHandle? ==> !Used(trace, e.id))
  {
    ReadsExact(side, trace);
    if e.SetHandle? {
      UsedIds(side, trace, e.id);
    }
  }

  lemma {:induction false} ClosedStays(s: State, u: seq<Event>)
    requires Fires(Next, s, u) && !s.open && forall e :: e in u ==> !e.Connect?
    ensures !Run(Next, s, u).open && Run(Next, s, u).reading + Completions(u) == s.reading
  {
    if u != [] {
      ClosedStays(s, u[..|u| - 1]);
      assert u[|u| - 1] in u;
    }
  }

  /** A session that was closed or dropped stays closed until it is opened again, and starts no read: those still
      outstanding run out. */
  lemma CloseStopsReading(side: Side, t: seq<Event>, e: Event, u: seq<Event>)
    requires (e.Close? || e.Drop?) && Fires(Next, Init(side), t + [e] + u)
    requires forall x :: x in u ==> !x.Connect?
    ensures Fires(Next, Init(side), t)
    ensures var s := Run(Next, Init(side), t + [e] + u);
      !s.open && s.reading + Completions(u) == Run(Next, Init(side), t).reading
  {
    Concat(Next, Init(side), t + [e], u);
    Snoc(Next, Init(side), t, e);
    ClosedStays(Run(Next, Init(side), t + [e]), u);
  }

  /** The bytes that arrived for the message that is being read. */
  function Arrived(trace: seq<Event>): string {
    if trace == [] then ""
    else match trace[|trace| - 1]
      case Connect => ""
      case Complete(_) => ""
      case Receive(bytes) => Arrived(trace[..|trace| - 1]) + bytes
      case _ => Arrived(trace[..|trace| - 1])
  }

  /** After a single opening, the shared buffer holds exactly the message that is being read. */
  lemma {:induction false} BufferIsMessage(side: Side, trace: seq<Event>)
    requires Fires(Next, Init(side), trace) && Connects(trace) <= 1
    ensures Run(Next, Init(side), trace).reading > 0 ==> Run(Next, Init(side), trace).buffer == Arrived(trace)
  {
    if trace != [] {
      var n := |trace| - 1;
      BufferIsMessage(side, trace[..n]);
      ReadsBounded(side, trace[..n]);
    }
  }

  /** A handler is registered if it was set and not removed since: neither by its id, nor by closing a client. */
  predicate Registered(side: Side, trace: seq<Event>, entry: Entry) {
    exists i :: 0 <= i < |trace| && trace[i] == SetHandle(entry.handler, entry.id) && Kept(side, trace, entry.id, i)
  }

  predicate Kept(side: Side, trace: seq<Event>, id: nat, i: nat) {
    forall j :: i < j < |trace| ==> trace[j] != UnsetHandle(id) && !(side.Client? && trace[j].Close?)
  }

  predicate Ascending(handles: seq<Entry>) {
    forall i, j :: 0 <= i < j < |handles| ==> handles[i].id < handles[j].id
  }

  lemma {:induction false} WithAdds(handles: seq<Entry>, added: Entry, entry: Entry)
    ensures entry in With(handles, added) <==> entry in handles || entry == added
  {
    if handles != [] {
      var n := |handles| - 1;
      WithAdds(handles[..n], added, entry);
      assert handles == handles[..n] + [handles[n]];
    }
  }

  lemma {:induction false} WithAscends(handles: seq<Entry>, added: Entry)
    requires Ascending(handles) && forall e :: e in handles ==> e.id != added.id
    ensures Ascending(With(handles, added))
  {
    if handles != [] && handles[|handles| - 1].id >= added.id {
      var n := |handles| - 1;
      assert handles[n] in handles;
      WithAscends(handles[..n], added);
      forall e | e in With(handles[..n], added) ensures e.id < handles[n].id {
        WithAdds(handles[..n], added, e);
      }
    }
  }

  lemma {:induction false} WithoutIsFilter(handles: seq<Entry>, id: nat, entry: Entry)
    ensures entry in Without(handles, id) <==> entry in handles && entry.id != id
  {
    if handles != [] {
      var n := |handles| - 1;
      WithoutIsFilter(handles[..n], id, entry);
      assert handles == handles[..n] + [handles[n]];
    }
  }

  lemma {:induction false} WithoutAscends(handles: seq<Entry>, id: nat)
    requires Ascending(handles)
    ensures Ascending(Without(handles, id))
  {
    if handles != [] {
      var n := |handles| - 1;
      WithoutAscends(handles[..n], id);
      forall e | e in Without(handles[..n], id) ensures e.id < handles[n].id {
        WithoutIsFilter(handles[..n], id, e);
      }
    }
  }

  predicate HandlesOk(s: State) {
    Ascending(s.handles) && forall e :: e in s.handles ==> e.id in s.used
  }

  lemma StepKeepsHandles(s: State, e: Event)
    requires HandlesOk(s) && Enabled(s, e)
    ensures HandlesOk(Step(s, e))
  {
    match e {
      case SetHandle(h, id) =>
        WithAscends(s.handles, Entry(id, h));
        forall x | x in Step(s, e).handles ensures x.id in s.used + {id} {
          WithAdds(s.handles, Entry(id, h), x);
        }
      case UnsetHandle(id) =>
        WithoutAscends(s.handles, id);
        forall x | x in Step(s, e).handles ensures x.id in s.used {
          WithoutIsFilter(s.handles, id, x);
        }
      case _ =>
    }
  }

  lemma RunHandlesOk(side: Side, trace: seq<Event>)
    requires Fires(Next, Init(side), trace)
    ensures HandlesOk(Run(Next, Init(side), trace))
  {
    forall s, e | HandlesOk(s) && Next(s, e).Some? ensures HandlesOk(Next(s, e).value) {
      StepKeepsHandles(s, e);
    }
    Invariant(Next, HandlesOk, Init(side), trace);
  }

  lemma RegisteredSnoc(side: Side, trace: seq<Event>, e: Event, entry: Entry)
    ensures Registered(side, trace + [e], entry) <==>
      || e == SetHandle(entry.handler, entry.id)
      || (Registered(side, trace, entry) && e != UnsetHandle(entry.id) && !(side.Client? && e.Close?))
  {
    var t := trace + [e];
    if Registered(side, trace, entry) {
      var i :| 0 <= i < |trace| && trace[i] == SetHandle(entry.handler, entry.id) && Kept(side, trace, entry.id, i);
      assert t[i] == trace[i];
      assert e != UnsetHandle(entry.id) && !(side.Client? && e.Close?) ==> Kept(side, t, entry.id, i);
    }
    if Registered(side, t, entry) {
      var i :| 0 <= i < |t| && t[i] == SetHandle(entry.handler, entry.id) && Kept(side, t, entry.id, i);
      if i < |trace| {
        assert t[|trace|] == e;
        assert forall j :: i < j < |trace| ==> t[j] == trace[j];
        assert trace[i] == t[i] && Kept(side, trace, entry.id, i);
      }
    }
    if e == SetHandle(entry.handler, entry.id) {
      assert t[|trace|] == e && Kept(side, t, entry.id, |trace|);
    }
  }

  /** The map holds exactly the registered handlers. */
  lemma {:induction false} HandlesAreRegistered(side: Side, trace: seq<Event>, entry: Entry)
    requires Fires(Next, Init(side), trace)
    ensures entry in Run(Next, Init(side), trace).handles <==> Registered(side, trace, entry)
  {
    if trace != [] {
      var n := |trace| - 1;
      var s, e := Run(Next, Init(side), trace[..n]), trace[n];
      HandlesAreRegistered(side, trace[..n], entry);
      assert trace == trace[..n] + [e];
      RegisteredSnoc(side, trace[..n], e, entry);
      ReadsBounded(side, trace[..n]);
      if e.UnsetHandle? {
        WithoutIsFilter(s.handles, e.id, entry);
      } else if e.SetHandle? {
        WithAdds(s.handles, Entry(e.id, e.handler), entry);
      }
    }
  }

  /** A message that was read successfully is posted once to every handler that is registered at that moment, and
      to no other, in the order of the ids, with the bytes as they arrived. */
  lemma DispatchExactly(side: Side, trace: seq<Event>, entry: Entry)
    requires Fires(Next, Init(side), trace + [Complete(Ok)]) && Connects(trace) <= 1
    ensures Fires(Next, Init(side), trace)
    ensures var before, after := Run(Next, Init(side), trace).tasks, Run(Next, Init(side), trace + [Complete(Ok)]).tasks;
      && before <= after
      && var posted := after[|before|..];
      && (forall i :: 0 <= i < |posted| ==> posted[i].message == Arrived(trace))
      && (forall i, j :: 0 <= i < j < |posted| ==> posted[i].id < posted[j].id)
      && (Task(entry.id, entry.handler, Arrived(trace)) in posted <==> Registered(side, trace, entry))
  {
    var t := trace + [Complete(Ok)];
    assert t[..|trace|] == trace;
    var s := Run(Next, Init(side), trace);
    BufferIsMessage(side, trace);
    RunHandlesOk(side, trace);
    HandlesAreRegistered(side, trace, entry);
    var posted := Posted(s.handles, s.buffer);
    assert Run(Next, Init(side), t).tasks == s.tasks + posted;
    assert Run(Next, Init(side), t).tasks[|s.tasks|..] == posted;
    if entry in s.handles {
      var i :| 0 <= i < |s.handles| && s.handles[i] == entry;
      assert posted[i] == Task(entry.id, entry.handler, s.buffer);
    }
  }

  /** Nothing but a successful read posts, and what was posted stays as it is. */
  lemma OnlyReadsPost(s: State, e: Event)
    requires Enabled(s, e)
    ensures s.tasks <= Step(s, e).tasks
    ensures e != Complete(Ok) ==> Step(s, e).tasks == s.tasks
  {
  }

  lemma {:induction false} PostedStays(side: Side, t: seq<Event>, u: seq<Event>)
    requires Fires(Next, Init(side), t + u)
    ensures Fires(Next, Init(side), t)
    ensures Run(Next, Init(side), t).tasks <= Run(Next, Init(side), t + u).tasks
    decreases |u|
  {
    if u == [] {
      assert t + u == t;
    } else {
      var n := |u| - 1;
      assert (t + u)[..|t + u| - 1] == t + u[..n];
      PostedStays(side, t, u[..n]);
      OnlyReadsPost(Run(Next, Init(side), t + u[..n]), u[n]);
    }
  }

  /** The reading half of a session. */
  class Reader {
    const side: Side
    var open: bool
    var reading: nat
    var buffer: string
    var handles: seq<Entry>
    var used: set<nat>
    var tasks: seq<Task>

    ghost function View(): State
      reads this
    {
      State(side, open, reading, buffer, handles, used, tasks)
    }

    constructor (side: Side)
      ensures View() == Init(side)
    {
      this.side := side;
      open, reading, buffer, handles, used, tasks := false, 0, "", [], {}, [];
    }

    method StartReading()
      modifies this`buffer, this`reading
      ensures View() == StartRead(old(View()))
    {
      if !open {
        return;
      }
      buffer := "";
      reading := reading + 1;
    }

    method Connected()
      modifies this`open, this`buffer, this`reading
      ensures View() == Step(old(View()), Connect)
    {
      open := true;
      StartReading();
    }

    method SetHandle(handler: nat, id: nat)
      requires Enabled(View(), Event.SetHandle(handler, id))
      modifies this`handles, this`used
      ensures View() == Step(old(View()), Event.SetHandle(handler, id))
    {
      handles := With(handles, Entry(id, handler));
      used := used + {id};
    }

    /** `erase` on the map; the answer tells whether something was removed. */
    method UnsetHandle(id: nat) returns (removed: bool)
      modifies this`handles
      ensures View() == Step(old(View()), Event.UnsetHandle(id))
      ensures removed <==> exists e :: e in old(handles) && e.id == id
    {
      var kept: seq<Entry> := [];
      removed := false;
      for i := 0 to |handles|
        invariant kept == Without(handles[..i], id)
        invariant removed <==> exists e :: e in handles[..i] && e.id == id
      {
        assert handles[..i + 1] == handles[..i] + [handles[i]];
        assert handles[..i + 1][..i] == handles[..i];
        if handles[i].id == id {
          removed := true;
        } else {
          kept := kept + [handles[i]];
        }
      }
      assert handles[..|handles|] == handles;
      handles := kept;
    }

    /** `close` empties the map of handlers on the client only. */
    method Close()
      modifies this`open, this`handles
      ensures View() == Step(old(View()), Event.Close) && !open
    {
      if side.Client? {
        handles := [];
      }
      open := false;
    }

    method OnRead(outcome: Outcome)
      requires reading > 0
      modifies this`reading, this`buffer, this`tasks
      ensures View() == CompleteRead(old(View()), outcome)
      ensures reading == old(reading) - (if old(open) && !outcome.Closed? then 0 else 1)
    {
      reading := reading - 1;
      if outcome.Closed? {
        return;
      }
      if outcome.Ok? {
        var rawMessage := buffer;
        var handlers := handles;
        for i := 0 to |handlers|
          invariant tasks == old(tasks) + Posted(handlers, rawMessage)[..i]
          modifies this`tasks
        {
          tasks := tasks + [Task(handlers[i].id, handlers[i].handler, rawMessage)];
        }
        assert Posted(handlers, rawMessage)[..|handlers|] == Posted(handlers, rawMessage);
      }
      StartReading();
    }
  }
}
