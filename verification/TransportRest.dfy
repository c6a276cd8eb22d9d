/** Where requester, sessions and peer come to rest. */
module TransportRest {
  import opened Wrappers
  import opened Messages
  import opened Runs
  import opened Transport
  import P = Protocol
  import I = ProtocolInvariant
  import Q = ProtocolQuiescence
  import R = SessionReads
  import W = SessionWrites

  /** Steps nobody is bound to take: new requests and ids, what others do with the session, repeated and unsolicited
      messages, failures. */
  predicate Optional(e: Event) {
    || (e.Local? && (e.p.Make? || e.p.DrawElsewhere?))
    || e.SendOther? || e.Repeat? || e.Chatter? || e.Handlers?
    || (e.Complete? && !e.outcome.Ok?)
  }

  ghost predicate AtRest(s: State) {
    forall e :: Enabled(s, e) ==> Optional(e)
  }

  lemma LocalAtRest(s: State, p: P.Event)
    requires AtRest(s) && IsLocal(p) && P.Enabled(s.core, p)
    ensures p.Make? || p.DrawElsewhere?
  {
    assert Enabled(s, Local(p));
  }

  lemma PhaseAtRest(s: State, k: nat)
    requires AtRest(s) && k < |s.core.entries|
    ensures s.core.entries[k].phase.Awaiting?
  {
    assert !Enabled(s, Send(k));
    if P.Enabled(s.core, P.Store(k, 0)) {
      LocalAtRest(s, P.Store(k, 0));
    }
    if P.Enabled(s.core, P.Arm(k)) {
      LocalAtRest(s, P.Arm(k));
    }
  }

  lemma TimerAtRest(s: State, k: nat)
    requires AtRest(s) && k < |s.core.entries|
    ensures !s.core.entries[k].timer.Armed? && !s.core.entries[k].timer.Queued?
  {
    if P.Enabled(s.core, P.Expire(k)) {
      LocalAtRest(s, P.Expire(k));
    }
    if P.Enabled(s.core, P.RunTimer(k)) {
      LocalAtRest(s, P.RunTimer(k));
    }
  }

  /** Whatever has become of the session, when nobody has anything left to do every request has been resumed exactly
      once. */
  lemma RestResumesAll(s: State)
    requires Inv(s) && AtRest(s)
    ensures Q.AllResumedOnce(s.core)
  {
    forall k | 0 <= k < |s.core.entries|
      ensures s.core.entries[k].response.Some? && |s.core.entries[k].resumes| == 1
    {
      PhaseAtRest(s, k);
      TimerAtRest(s, k);
      assert Abstract(s).entries == s.core.entries;
      Q.FinishedEntry(s.core.entries[k], s.core.answered);
    }
  }

  /** The strand has nothing left. */
  lemma WriterAtRest(s: State)
    requires WriterOk(s) && AtRest(s)
    ensures s.writer.queue == [] && s.writer.running.None? && s.delivered == |s.writer.wire|
    ensures Outgoing(s.writer, s.delivered) == []
  {
    assert !Enabled(s, Write(true)) && !Enabled(s, Fill) && !Enabled(s, Deliver);
  }

  /** While the session is read, everything that came in was read and dispatched. */
  lemma ReaderAtRest(s: State)
    requires ReaderOk(s) && AtRest(s) && s.reader.reading > 0
    ensures s.back == [] && s.frame.None? && Incoming(s) == []
  {
    assert !Enabled(s, Begin) && !Enabled(s, Receive(1)) && !Enabled(s, Complete(R.Ok));
  }

  lemma {:induction false} AllRan(c: Codec, tasks: seq<R.Task>, ran: set<nat>, self: nat)
    requires forall i :: 0 <= i < |tasks| ==> i in ran
    ensures Waiting(c, tasks, ran, self) == multiset{}
  {
    if tasks != [] {
      AllRan(c, tasks[..|tasks| - 1], ran, self);
    }
  }

  lemma TasksAtRest(s: State)
    requires AtRest(s)
    ensures Waiting(s.codec, s.reader.tasks, s.ran, s.self) == multiset{}
  {
    forall i: nat | i < |s.reader.tasks| ensures i in s.ran {
      assert !Enabled(s, RunTask(i));
    }
    AllRan(s.codec, s.reader.tasks, s.ran, s.self);
  }

  lemma PeerAtRest(s: State)
    requires AtRest(s)
    ensures s.core.atPeer == multiset{}
  {
    forall m ensures m !in s.core.atPeer {
      if m in s.core.atPeer {
        LocalAtRest(s, P.PeerIgnore(m));
      }
    }
  }

  /** Nothing of the protocol is left to do. */
  lemma ProtocolAtRest(s: State, p: P.Event)
    requires AtRest(s) && WriterOk(s) && P.Enabled(Abstract(s), p)
    requires Abstract(s).toPeer == multiset{} && Abstract(s).toClient == multiset{} && Abstract(s).inbox == multiset{}
    requires s.core.atPeer == multiset{}
    ensures Q.Optional(p)
  {
    assert p.Send? ==> !Enabled(s, Send(p.k));
    if IsLocal(p) {
      LocalAtRest(s, p);
    }
  }

  /** When nobody has anything left to do and the session is still being read, everything is done: every request was
      resumed exactly once, nothing is pending, in flight, waiting in the strand, or posted and not run. */
  lemma RestMeansDone(s: State)
    requires Inv(s) && AtRest(s) && s.reader.reading > 0
    ensures Q.Done(Abstract(s))
    ensures s.writer.queue == [] && s.writer.running.None? && s.delivered == |s.writer.wire|
    ensures s.back == [] && s.frame.None?
    ensures forall i :: 0 <= i < |s.reader.tasks| ==> i in s.ran
  {
    WriterAtRest(s);
    ReaderAtRest(s);
    TasksAtRest(s);
    PeerAtRest(s);
    forall i: nat | i < |s.reader.tasks| ensures i in s.ran {
      assert !Enabled(s, RunTask(i));
    }
    forall p | P.Enabled(Abstract(s), p) ensures Q.Optional(p) {
      ProtocolAtRest(s, p);
    }
    Q.QuiescentMeansDone(Abstract(s));
  }

  /** A session is ready for a requester when it was opened once and not closed since, no part of a message is in its
      buffer, and the requester's handler has just been registered: whatever else was sent, read and dispatched over it
      before. */
  lemma SessionIsReady(s: State, side: R.Side, trace: seq<R.Event>, handler: nat, writes: seq<W.Event>)
    requires RoundTrips(s.codec) && P.Initial(s.core)
    requires Fires(R.Next, R.Init(side), trace) && R.Connects(trace) == 1 && R.Arrived(trace) == ""
    requires forall e :: e in trace ==> !e.Close? && !e.Drop? && e != R.Complete(R.Closed)
    requires !R.Used(trace, s.self)
    requires Fires(W.Next, W.INIT, writes) && s.writer == Run(W.Next, W.INIT, writes)
    requires s.delivered <= |s.writer.wire|
    requires forall t :: t in Outgoing(s.writer, s.delivered) && s.codec.decode(t).Json? ==>
      s.codec.decode(t).message.id in s.core.foreign
    requires s.back == [] && s.frame.None? && forall i :: i in s.ran ==> i < |s.reader.tasks|
    requires R.Enabled(Run(R.Next, R.Init(side), trace), R.SetHandle(handler, s.self))
    requires s.reader == R.Step(Run(R.Next, R.Init(side), trace), R.SetHandle(handler, s.self))
    ensures Initial(s)
  {
    var before := Run(R.Next, R.Init(side), trace);
    R.AlwaysReading(side, trace);
    R.BufferIsMessage(side, trace);
    R.RunHandlesOk(side, trace);
    R.StepKeepsHandles(before, R.SetHandle(handler, s.self));
    R.WithAdds(before.handles, R.Entry(s.self, handler), R.Entry(s.self, handler));
    W.FramesAreSends(writes);
    TasksWereRegistered(side, trace, s.self);
    assert R.Entry(s.self, handler) in s.reader.handles;
  }

  /** Only registered handlers get tasks. */
  lemma {:induction false} TasksWereRegistered(side: R.Side, trace: seq<R.Event>, id: nat)
    requires Fires(R.Next, R.Init(side), trace) && !R.Used(trace, id)
    ensures forall t :: t in Run(R.Next, R.Init(side), trace).tasks ==> t.id != id
  {
    if trace != [] {
      var n := |trace| - 1;
      assert !R.Used(trace[..n], id) by {
        assert forall i :: 0 <= i < n ==> trace[..n][i] == trace[i];
      }
      TasksWereRegistered(side, trace[..n], id);
      HandlesWereRegistered(side, trace[..n], id);
    }
  }

  lemma HandlesWereRegistered(side: R.Side, trace: seq<R.Event>, id: nat)
    requires Fires(R.Next, R.Init(side), trace) && !R.Used(trace, id)
    ensures forall e :: e in Run(R.Next, R.Init(side), trace).handles ==> e.id != id
  {
    R.UsedIds(side, trace, id);
    R.RunHandlesOk(side, trace);
  }

  /** Failures are part of the model: a write can fail, and then a request of this requester is lost. */
  lemma WritesMayFail(s: State)
    requires Inv(s) && s.writer.running.Some?
    ensures Enabled(s, Write(false)) && Realises(s, Write(false))
    ensures Step(s, Write(false)).writer.wire == s.writer.wire
    ensures Mine(s.core.owner, s.codec.decode(s.writer.buffer)) ==>
      Label(s, Write(false)) == Some(P.LoseRequest(s.codec.decode(s.writer.buffer).message))
  {
    WriteRefines(s, false);
  }

  /** A read can fail, and then the message is lost and a stream that is open is read on; or it ends in the close of the
      stream, and then nothing more is read. */
  lemma ReadsMayFail(s: State, outcome: R.Outcome)
    requires Inv(s) && s.reader.reading > 0 && !outcome.Ok?
    ensures Enabled(s, Complete(outcome)) && Realises(s, Complete(outcome))
    ensures s.frame.Some? ==> Label(s, Complete(outcome)) == Some(P.LoseReply(s.codec.decode(s.frame.value)))
    ensures Step(s, Complete(outcome)).reader.reading == if s.reader.open && outcome.Failed? then 1 else 0
  {
    CompleteRefines(s, outcome);
  }

  /** Others may send what they like over the session at any time, under ids of their own or without any: it goes through
      the same strand, and the protocol does not notice. */
  lemma OthersMaySend(s: State, data: string)
    requires Inv(s)
    requires s.codec.decode(data).Json? ==> s.codec.decode(data).message.id in s.core.foreign
    ensures Enabled(s, SendOther(data)) && Abstract(Step(s, SendOther(data))) == Abstract(s)
    ensures Outgoing(Step(s, SendOther(data)).writer, s.delivered) == Outgoing(s.writer, s.delivered) + [data]
  {
    CoreIds(s);
    SendOtherRefines(s, data);
    OutgoingSend(s.writer, s.delivered, data);
  }
}
