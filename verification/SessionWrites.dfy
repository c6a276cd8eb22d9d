/** Writing to a session through a strand and one shared buffer (source/websocket/client/Session.cpp,
    source/websocket/server/Session.cpp). */
module SessionWrites {
  import opened Wrappers
  import opened Runs

  /** `queue` holds the sends posted to the strand that it has not started, `running` the one it has started;
      `buffer` is the write buffer of the session, `wire` the frames that were written, oldest first. */
  datatype State = State(queue: seq<string>, running: Option<string>, buffer: string, wire: seq<string>)

  const INIT := State([], None, "", [])

  datatype Event = Send(data: string) | Fill | Write(ok: bool)

  /** The strand starts a task only when the one before it has returned. */
  predicate Enabled(s: State, e: Event) {
    match e
    case Send(_) => true
    case Fill => s.queue != [] && s.running.None?
    case Write(_) => s.running.Some?
  }

  function Step(s: State, e: Event): State
    requires Enabled(s, e)
  {
    match e
    case Send(data) => s.(queue := s.queue + [data])
    case Fill => s.(queue := s.queue[1..], running := Some(s.queue[0]), buffer := s.queue[0])
    case Write(ok) => s.(running := None, wire := s.wire + if ok then [s.buffer] else [])
  }

  function Next(s: State, e: Event): Option<State> {
    if Enabled(s, e) then Some(Step(s, e)) else None
  }

  /** The data of the sends, in the order in which they were posted. */
  function Sends(trace: seq<Event>): seq<string> {
    if trace == [] then []
    else Sends(trace[..|trace| - 1]) + if trace[|trace| - 1].Send? then [trace[|trace| - 1].data] else []
  }

  /** Which of the writes succeeded, in order. */
  function Outcomes(trace: seq<Event>): seq<bool> {
    if trace == [] then []
    else Outcomes(trace[..|trace| - 1]) + if trace[|trace| - 1].Write? then [trace[|trace| - 1].ok] else []
  }

  /** The elements of `data` whose outcome is true. */
  function Select(data: seq<string>, ok: seq<bool>): seq<string>
    requires |data| == |ok|
  {
    if data == [] then []
    else
      var n := |data| - 1;
      Select(data[..n], ok[..n]) + if ok[n] then [data[n]] else []
  }

  function Current(s: State): seq<string> {
    if s.running.Some? then [s.running.value] else []
  }

  lemma Counts(trace: seq<Event>, e: Event)
    ensures Sends(trace + [e]) == Sends(trace) + if e.Send? then [e.data] else []
    ensures Outcomes(trace + [e]) == Outcomes(trace) + if e.Write? then [e.ok] else []
  {
    assert (trace + [e])[..|trace|] == trace;
  }

  /** The state accounts for every send. */
  predicate Accounts(s: State, sends: seq<string>, outcomes: seq<bool>) {
    && |outcomes| <= |sends|
    && sends[|outcomes|..] == Current(s) + s.queue
    && s.wire == Select(sends[..|outcomes|], outcomes)
    && (s.running.Some? ==> s.buffer == s.running.value)
  }

  lemma SendAccounts(s: State, sends: seq<string>, outcomes: seq<bool>, data: string)
    requires Accounts(s, sends, outcomes)
    ensures Accounts(Step(s, Send(data)), sends + [data], outcomes)
  {
    var k := |outcomes|;
    assert (sends + [data])[k..] == sends[k..] + [data];
    assert (sends + [data])[..k] == sends[..k];
  }

  lemma FillAccounts(s: State, sends: seq<string>, outcomes: seq<bool>)
    requires Accounts(s, sends, outcomes) && Enabled(s, Fill)
    ensures Accounts(Step(s, Fill), sends, outcomes)
  {
    assert s.queue == [s.queue[0]] + s.queue[1..];
  }

  lemma WriteAccounts(s: State, sends: seq<string>, outcomes: seq<bool>, ok: bool)
    requires Accounts(s, sends, outcomes) && Enabled(s, Write(ok))
    ensures Accounts(Step(s, Write(ok)), sends, outcomes + [ok])
  {
    var k := |outcomes|;
    assert sends[k] == sends[k..][0] == s.buffer;
    assert sends[k + 1..] == sends[k..][1..];
    assert sends[..k + 1][..k] == sends[..k];
    assert (outcomes + [ok])[..k] == outcomes;
  }

  /** No send is lost or reordered on its way to the wire: those written, the one running and those waiting are
      all sends in their order; and a frame is the data of its own send although all share the buffer. */
  lemma {:induction false} FramesAreSends(trace: seq<Event>)
    requires Fires(Next, INIT, trace)
    ensures Accounts(Run(Next, INIT, trace), Sends(trace), Outcomes(trace))
  {
    if trace != [] {
      var n := |trace| - 1;
      var s, e := Run(Next, INIT, trace[..n]), trace[n];
      FramesAreSends(trace[..n]);
      Counts(trace[..n], e);
      assert trace == trace[..n] + [e];
      var sends, outcomes := Sends(trace[..n]), Outcomes(trace[..n]);
      if e.Send? {
        SendAccounts(s, sends, outcomes, e.data);
        assert outcomes + [] == outcomes;
      } else if e.Fill? {
        FillAccounts(s, sends, outcomes);
        assert sends + [] == sends && outcomes + [] == outcomes;
      } else {
        WriteAccounts(s, sends, outcomes, e.ok);
        assert sends + [] == sends;
      }
    }
  }

  /** How many tasks the strand has started. */
  function Fills(trace: seq<Event>): nat {
    if trace == [] then 0 else Fills(trace[..|trace| - 1]) + if trace[|trace| - 1].Fill? then 1 else 0
  }

  lemma {:induction false} TasksCount(trace: seq<Event>)
    requires Fires(Next, INIT, trace)
    ensures var s := Run(Next, INIT, trace);
      && Fills(trace) == |Outcomes(trace)| + |Current(s)|
      && |Sends(trace)| == Fills(trace) + |s.queue|
  {
    if trace != [] {
      TasksCount(trace[..|trace| - 1]);
    }
  }

  /** What can happen at the end of a run: a send at any time, the start of a task if all started ones have returned and
      one is left, its end with either outcome while it runs. */
  lemma WhatMayHappen(trace: seq<Event>, e: Event)
    requires Fires(Next, INIT, trace)
    ensures Enabled(Run(Next, INIT, trace), e) <==>
      match e
      case Send(_) => true
      case Fill => |Outcomes(trace)| == Fills(trace) < |Sends(trace)|
      case Write(_) => |Outcomes(trace)| < Fills(trace)
  {
    TasksCount(trace);
  }

  /** A task of the strand that succeeds: fill, if that has not happened yet, and write. */
  lemma TaskRuns(s: State) returns (u: seq<Event>)
    requires s.running.Some? || s.queue != []
    requires s.running.Some? ==> s.buffer == s.running.value
    ensures Fires(Next, s, u) && forall e :: e in u ==> e == Fill || e == Write(true)
    ensures var t := Run(Next, s, u);
      && t.running.None? && t.wire + t.queue == s.wire + Current(s) + s.queue
      && |t.queue| < |s.queue| + |Current(s)|
  {
    if s.running.Some? {
      u := [Write(true)];
      Runs.Snoc(Next, s, [], Write(true));
    } else {
      u := [Fill, Write(true)];
      Runs.Snoc(Next, s, [], Fill);
      Runs.Snoc(Next, s, [Fill], Write(true));
      assert [] + [Fill] == [Fill] && [Fill] + [Write(true)] == u;
      assert s.queue == [s.queue[0]] + s.queue[1..];
    }
    assert [] + [Write(true)] == [Write(true)];
  }

  /** Whatever is waiting, the strand can work it off by itself, and if its writes succeed everything is on the wire in
      order. */
  lemma {:induction false} Drains(s: State) returns (u: seq<Event>)
    requires s.running.Some? ==> s.buffer == s.running.value
    ensures Fires(Next, s, u) && forall e :: e in u ==> e == Fill || e == Write(true)
    ensures Run(Next, s, u) == State([], None, Run(Next, s, u).buffer, s.wire + Current(s) + s.queue)
    decreases |s.queue| + |Current(s)|
  {
    if s.running.None? && s.queue == [] {
      u := [];
    } else {
      var first := TaskRuns(s);
      var rest := Drains(Run(Next, s, first));
      Concat(Next, s, first, rest);
      u := first + rest;
    }
  }

  lemma {:induction false} SelectAll(data: seq<string>, ok: seq<bool>)
    requires |data| == |ok| && forall i :: 0 <= i < |ok| ==> ok[i]
    ensures Select(data, ok) == data
  {
    if data != [] {
      SelectAll(data[..|data| - 1], ok[..|data| - 1]);
    }
  }

  /** When the strand has nothing left to do and no write failed, the wire carries exactly the sends. */
  lemma NothingFailedNothingLost(trace: seq<Event>)
    requires Fires(Next, INIT, trace)
    requires Run(Next, INIT, trace).queue == [] && Run(Next, INIT, trace).running.None?
    requires forall i :: 0 <= i < |Outcomes(trace)| ==> Outcomes(trace)[i]
    ensures Run(Next, INIT, trace).wire == Sends(trace)
  {
    FramesAreSends(trace);
    var k := |Outcomes(trace)|;
    assert Sends(trace)[..k] == Sends(trace) by {
      assert |Sends(trace)[k..]| == 0;
    }
    SelectAll(Sends(trace), Outcomes(trace));
  }

  /** `positions` leads to the elements of `part` in `whole`, in order. */
  predicate Embeds(part: seq<string>, whole: seq<string>, positions: seq<nat>) {
    && |positions| == |part|
    && (forall i :: 0 <= i < |part| ==> positions[i] < |whole| && part[i] == whole[positions[i]])
    && (forall i, j :: 0 <= i < j < |part| ==> positions[i] < positions[j])
  }

  lemma EmbedsMore(part: seq<string>, whole: seq<string>, positions: seq<nat>, last: string)
    requires Embeds(part, whole, positions)
    ensures Embeds(part, whole + [last], positions)
    ensures Embeds(part + [last], whole + [last], positions + [|whole|])
  {
  }

  lemma {:induction false} SelectEmbeds(data: seq<string>, ok: seq<bool>) returns (positions: seq<nat>)
    requires |data| == |ok|
    ensures Embeds(Select(data, ok), data, positions)
  {
    if data == [] {
      positions := [];
    } else {
      var n := |data| - 1;
      positions := SelectEmbeds(data[..n], ok[..n]);
      EmbedsMore(Select(data[..n], ok[..n]), data[..n], positions, data[n]);
      assert data == data[..n] + [data[n]];
      if ok[n] {
        positions := positions + [n];
      } else {
        assert Select(data, ok) == Select(data[..n], ok[..n]);
      }
    }
  }

  /** Whatever fails: the frames on the wire are a subsequence of the sends. */
  lemma WireIsSubsequence(trace: seq<Event>) returns (positions: seq<nat>)
    requires Fires(Next, INIT, trace)
    ensures Embeds(Run(Next, INIT, trace).wire, Sends(trace), positions)
  {
    FramesAreSends(trace);
    positions := SelectEmbeds(Sends(trace)[..|Outcomes(trace)|], Outcomes(trace));
  }

  /** The flat buffer behind the server's writes: one block of memory with a readable and a writable part. */
  class FlatBuffer {
    var memory: array<char>
    var first: nat
    var last: nat
    var limit: nat

    ghost predicate Valid()
      reads this
    {
      first <= last <= limit <= memory.Length
    }

    /** The readable bytes. */
    ghost function Data(): string
      requires Valid()
      reads this, memory
    {
      memory[first..last]
    }

    constructor ()
      ensures Valid() && Data() == "" && fresh(memory)
    {
      memory := new char[0];
      first, last, limit := 0, 0, 0;
    }

    /** Drops bytes from the front of the readable part; dropping all of them starts over. */
    method Consume(n: nat)
      requires Valid()
      modifies this
      ensures Valid() && memory == old(memory)
      ensures Data() == if n >= old(|Data()|) then "" else old(Data())[n..]
    {
      if n >= last - first {
        first, last, limit := 0, 0, 0;
      } else {
        first := first + n;
      }
    }

    /** Makes room for `n` writable bytes behind the readable ones. */
    method Prepare(n: nat)
      requires Valid()
      modifies this
      ensures Valid() && limit == last + n && Data() == old(Data())
      ensures memory == old(memory) || fresh(memory)
    {
      if last + n > memory.Length {
        var size := last - first;
        var bigger := new char[size + n];
        for i := 0 to size
          invariant bigger[..i] == memory[first..first + i]
          modifies bigger
        {
          bigger[i] := memory[first + i];
        }
        assert bigger[..size] == memory[first..last];
        memory, first, last := bigger, 0, size;
      }
      limit := last + n;
    }

    /** Copies into the writable part. */
    method Copy(data: string)
      requires Valid() && |data| <= limit - last
      modifies memory
      ensures Data() == old(Data()) && memory[last..last + |data|] == data
    {
      for i := 0 to |data|
        invariant memory[last..last + i] == data[..i]
        invariant memory[first..last] == old(memory[first..last])
      {
        memory[last + i] := data[i];
      }
    }

    /** Makes `n` of the prepared bytes readable. */
    method Commit(n: nat)
      requires Valid() && n <= limit - last
      modifies this`last
      ensures Valid() && last == old(last) + n
      ensures Data() == old(Data()) + old(memory[last..last + n])
    {
      last := last + n;
    }
  }

  /** What the strand does with the oldest send: fill the buffer, then write it. */
  function TaskSteps(s: State, ok: bool): State
    requires Enabled(s, Fill)
  {
    Step(Step(s, Fill), Write(ok))
  }

  /** The writing half of a client session: the task that a send posts to the strand. */
  class ClientWriter {
    var buffer: string
    var wire: seq<string>

    constructor ()
      ensures buffer == "" && wire == []
    {
      buffer, wire := "", [];
    }

    /** `errorCode` is the outcome of the synchronous write. */
    method Task(data: string, errorCode: bool)
      modifies this
      ensures State([], None, buffer, wire) == TaskSteps(State([data], None, old(buffer), old(wire)), !errorCode)
    {
      buffer := data;
      if !errorCode {
        wire := wire + [buffer];
      }
    }
  }

  /** The same task on the server, through the flat buffer. */
  class ServerWriter {
    const buffer: FlatBuffer
    var wire: seq<string>

    ghost predicate Valid()
      reads this, buffer
    {
      buffer.Valid()
    }

    constructor ()
      ensures Valid() && wire == [] && fresh(buffer) && fresh(buffer.memory)
    {
      buffer := new FlatBuffer();
      wire := [];
    }

    /** Empties the buffer, makes room, copies and commits. */
    method Refill(data: string)
      requires Valid()
      modifies buffer, buffer.memory
      ensures Valid() && (buffer.memory == old(buffer.memory) || fresh(buffer.memory))
      ensures buffer.Data() == data
    {
      buffer.Consume(buffer.last - buffer.first);
      buffer.Prepare(|data|);
      buffer.Copy(data);
      assert buffer.Data() == "";
      buffer.Commit(|data|);
    }

    method Task(data: string, errorCode: bool)
      requires Valid()
      modifies this, buffer, buffer.memory
      ensures Valid() && (buffer.memory == old(buffer.memory) || fresh(buffer.memory))
      ensures State([], None, buffer.Data(), wire) ==
        TaskSteps(State([data], None, old(buffer.Data()), old(wire)), !errorCode)
    {
      Refill(data);
      if !errorCode {
        wire := wire + [buffer.memory[buffer.first..buffer.last]];
      }
    }
  }
}
