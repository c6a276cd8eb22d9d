/** The classes of source/message/Requester.cpp. Each method is proved against the protocol step it performs. */
module Requester {
  import opened Wrappers
  import opened Messages
  import opened Protocol
  import opened ProtocolTheorems

  /** The map shared by a requester and its timed messages. */
  class PendingMap {
    var entries: map<Id, TimedMessage>

    constructor ()
      ensures entries == map[]
    {
      entries := map[];
    }
  }

  /** The sending side of a session; messages stand for their JSON text. */
  class Outbox {
    var sent: seq<Message>

    constructor ()
      ensures sent == []
    {
      sent := [];
    }

    method Send(m: Message)
      modifies this
      ensures sent == old(sent) + [m]
    {
      sent := sent + [m];
    }
  }

  /** A request with its awaiter. The coroutine frame itself is not modelled: `resumes` logs what `resume` was
      called with, `crashed` that it was called on a null handle. */
  class TimedMessage {
    const message: Message
    const session: Outbox
    const timedMessages: PendingMap
    var handle: Option<nat>
    var timer: Timer
    var response: Option<Message>
    ghost var phase: Phase
    ghost var resumes: seq<Resume>
    ghost var crashed: bool
    ghost var disposed: bool

    ghost function View(): Entry
      reads this
    {
      Entry(message, phase, handle, timer, response, resumes, crashed, disposed)
    }

    constructor (session: Outbox, message: Message, timedMessages: PendingMap)
      ensures View() == NewEntry(message)
      ensures this.session == session && this.timedMessages == timedMessages
    {
      this.message, this.session, this.timedMessages := message, session, timedMessages;
      handle, timer, response := None, Idle, None;
      phase, resumes, crashed, disposed := Created, [], false, false;
    }

    method CancelTimer()
      modifies this`timer
      ensures timer == Cancel(old(timer))
    {
      if timer.Armed? {
        timer := Queued(true);
      }
    }

    method Resume()
      requires response.Some?
      modifies this`resumes, this`crashed
      ensures handle.Some? ==>
        && crashed == old(crashed)
        && resumes == old(resumes) + [Protocol.Resume(handle.value, response.value)]
      ensures handle.None? ==> crashed && resumes == old(resumes)
    {
      if handle.Some? {
        resumes := resumes + [Protocol.Resume(handle.value, response.value)];
      } else {
        crashed := true;
      }
    }

    method Set(m: Message)
      modifies this`timer, this`response, this`resumes, this`crashed, timedMessages
      ensures View() == SetEntry(old(View()), m)
      ensures timedMessages.entries ==
        if old(response).Some? then old(timedMessages.entries) else old(timedMessages.entries) - {m.id}
    {
      if response.Some? {
        return;
      }
      timedMessages.entries := timedMessages.entries - {m.id};
      response := Some(m);
      CancelTimer();
      Resume();
    }

    method StoreHandle(coroutine: nat)
      modifies this`handle, this`phase
      ensures View() == StoreEntry(old(View()), coroutine)
      ensures handle == Some(coroutine)
    {
      handle := Some(coroutine);
      phase := Stored;
    }

    method SendRequest()
      modifies session, this`phase
      ensures View() == old(View()).(phase := Sent)
      ensures session.sent == old(session.sent) + [message]
    {
      session.Send(message);
      phase := Sent;
    }

    /** `expires_from_now` followed by `async_wait`. */
    method ArmTimer()
      modifies this`timer, this`phase
      ensures View() == ArmEntry(old(View()))
      ensures timer == Armed
    {
      timer := Armed;
      phase := Awaiting;
    }

    /** The whole of `await_suspend` when nothing gets in between. */
    method AwaitSuspend(coroutine: nat)
      modifies this, session
      ensures View() == ArmEntry(StoreEntry(old(View()), coroutine).(phase := Sent))
      ensures handle == Some(coroutine) && timer == Armed
      ensures response == old(response) && resumes == old(resumes) && crashed == old(crashed)
      ensures session.sent == old(session.sent) + [message]
    {
      StoreHandle(coroutine);
      SendRequest();
      ArmTimer();
    }

    method OnTimer()
      requires timer.Queued?
      modifies this`timer, this`response, this`resumes, this`crashed, timedMessages
      ensures View() == TimerEntry(old(View()))
      ensures timedMessages.entries ==
        if old(timer).aborted || old(response).Some? then old(timedMessages.entries)
        else old(timedMessages.entries) - {message.id}
    {
      var aborted := timer.aborted;
      timer := Spent;
      if aborted {
        return;
      }
      Set(TimedOut(message));
    }

    method AwaitResume() returns (m: Message)
      requires response.Some?
      ensures m == response.value
    {
      m := response.value;
    }

    /** `~Awaiter`. */
    method Dispose()
      modifies this`timer, this`disposed
      ensures View() == DisposeEntry(old(View()))
      ensures timer == if old(timer).Armed? then Queued(true) else old(timer)
    {
      CancelTimer();
      disposed := true;
    }
  }

  /** The requester. `all` lists the timed messages made so far, in the order of their requests. */
  class Requester {
    const session: Outbox
    const timedMessages: PendingMap
    ghost var all: seq<TimedMessage>

    /** The objects are in the states that `entries` describes. */
    ghost predicate Holds(entries: seq<Entry>)
      reads this, all
    {
      && |all| == |entries|
      && (forall j, k :: 0 <= j < k < |all| ==> all[j] != all[k])
      && (forall k :: 0 <= k < |all| ==>
            all[k].View() == entries[k] && all[k].timedMessages == timedMessages && all[k].session == session)
    }

    /** The shared map leads to the objects that `pending` names. */
    ghost predicate Keeps(pending: map<Id, nat>)
      reads this, timedMessages
    {
      && timedMessages.entries.Keys == pending.Keys
      && (forall i :: i in pending ==> pending[i] < |all| && timedMessages.entries[i] == all[pending[i]])
    }

    /** The requester is in the state that the protocol state `s` describes. */
    ghost predicate Represents(s: State)
      reads this, timedMessages, all
    {
      Holds(s.entries) && Keeps(s.pending)
    }

    constructor (session: Outbox, ghost s: State)
      requires Initial(s)
      ensures Represents(s) && this.session == session && fresh(timedMessages)
    {
      this.session := session;
      timedMessages := new PendingMap();
      all := [];
    }

    /** `emplace` inserts a new timed message, unless the id is already pending: then the old one is returned. */
    method Request(message: Message) returns (t: TimedMessage)
      modifies this, timedMessages
      ensures message.id in old(timedMessages.entries) ==>
        && t == old(timedMessages.entries)[message.id]
        && timedMessages.entries == old(timedMessages.entries) && all == old(all)
      ensures message.id !in old(timedMessages.entries) ==>
        && fresh(t) && t.View() == NewEntry(message) && t.timedMessages == timedMessages && t.session == session
        && timedMessages.entries == old(timedMessages.entries)[message.id := t]
        && all == old(all) + [t] && t !in old(all)
    {
      var timedMessage := new TimedMessage(session, message, timedMessages);
      if message.id !in timedMessages.entries {
        timedMessages.entries := timedMessages.entries[message.id := timedMessage];
        all := all + [timedMessage];
      }
      t := timedMessages.entries[message.id];
    }

    /** `make_request` with the next id. */
    method Make(counter: IdCounter, action: Action, data: string, ghost s: State) returns (m: Message)
      requires Represents(s) && s.quota > 0
      requires counter.Valid() && counter.calls == s.issued
      modifies counter
      ensures Represents(Step(s, Event.Make(action, data)))
      ensures m.kind.Request? && m.action == action && m.data == data && m.id == counter.last
      ensures m.id in Step(s, Event.Make(action, data)).made && Step(s, Event.Make(action, data)).made[m.id] == m
      ensures counter.Valid() && counter.calls == Step(s, Event.Make(action, data)).issued
    {
      var id := counter.NextId();
      m := MakeRequest(id, action, data);
    }

    /** Another requester, or `make_notify`, draws from the same counter. */
    method DrawElsewhere(counter: IdCounter, ghost s: State) returns (id: Id)
      requires Represents(s) && s.others > 0
      requires counter.Valid() && counter.calls == s.issued
      modifies counter
      ensures Represents(Step(s, Event.DrawElsewhere)) && id in Step(s, Event.DrawElsewhere).foreign
      ensures counter.Valid() && counter.calls == Step(s, Event.DrawElsewhere).issued
    {
      id := counter.NextId();
    }

    /** `request` with a message that the application has made. */
    method Issue(m: Message, ghost s: State) returns (t: TimedMessage)
      requires Represents(s) && Enabled(s, Event.Issue(m.id)) && s.made[m.id] == m
      modifies this, timedMessages
      ensures Represents(Step(s, Event.Issue(m.id)))
    {
      t := Request(m);
      assert Holds(IssueStep(s, m.id).entries);
    }

    /** The first half of the inbound handler. */
    method Find(raw: Raw) returns (it: TimedMessage?)
      ensures it != null <==> raw.Json? && raw.message.kind.Response? && raw.message.id in timedMessages.entries
      ensures it != null ==> it == timedMessages.entries[raw.message.id]
    {
      it := null;
      if raw.Garbled? || !raw.message.kind.Response? {
        return;
      }
      if raw.message.id in timedMessages.entries {
        it := timedMessages.entries[raw.message.id];
      }
    }

    /** The second half of the inbound handler, on the entry the look-up has found. */
    method Complete(m: Message, ghost k: nat, it: TimedMessage, ghost s: State)
      requires Represents(s) && k < |all| && it == all[k]
      modifies all, timedMessages
      ensures Represents(SetStep(s, k, m))
    {
      it.Set(m);
    }

    method RunTimer(ghost k: nat, it: TimedMessage, ghost s: State)
      requires Represents(s) && Enabled(s, Event.RunTimer(k)) && it == all[k]
      modifies all, timedMessages
      ensures Represents(Step(s, Event.RunTimer(k)))
    {
      it.OnTimer();
    }

    /** The three parts of `await_suspend`. */
    method Store(ghost k: nat, it: TimedMessage, coroutine: nat, ghost s: State)
      requires Represents(s) && Enabled(s, Event.Store(k, coroutine)) && it == all[k]
      modifies all
      ensures Represents(Step(s, Event.Store(k, coroutine))) && it.handle == Some(coroutine)
    {
      it.StoreHandle(coroutine);
    }

    method Send(ghost k: nat, it: TimedMessage, ghost s: State)
      requires Represents(s) && Enabled(s, Event.Send(k)) && it == all[k]
      modifies all, session
      ensures Represents(Step(s, Event.Send(k)))
      ensures Step(s, Event.Send(k)).toPeer == s.toPeer + multiset{it.message}
      ensures session.sent == old(session.sent) + [it.message]
    {
      it.SendRequest();
    }

    method Arm(ghost k: nat, it: TimedMessage, ghost s: State)
      requires Represents(s) && Enabled(s, Event.Arm(k)) && it == all[k]
      modifies all
      ensures Represents(Step(s, Event.Arm(k))) && it.timer == Armed
    {
      it.ArmTimer();
    }

    /** What `co_await` yields: the message that the coroutine was resumed with. It answers this very request. */
    method AwaitResume(ghost k: nat, it: TimedMessage, ghost s: State) returns (m: Message)
      requires Represents(s) && Reachable(s) && k < |all| && it == all[k] && it.response.Some?
      ensures it.handle.Some? && it.resumes == [Protocol.Resume(it.handle.value, m)]
      ensures m.kind.Response? && m.id == it.message.id && m.action == it.message.action
      ensures m in s.answered || (m == TimedOut(it.message) && !m.status.ok && m.status.message == "timed out")
    {
      ResumedAtMostOnce(s, k);
      Correlation(s, k, 0);
      m := it.AwaitResume();
    }

    method Dispose(ghost k: nat, it: TimedMessage, ghost s: State)
      requires Represents(s) && Enabled(s, Event.Dispose(k)) && it == all[k]
      modifies all
      ensures Represents(Step(s, Event.Dispose(k)))
      ensures it.timer == if old(it.timer).Armed? then Queued(true) else old(it.timer)
    {
      it.Dispose();
    }

    /** The inbound handler when nothing gets in between. */
    method OnMessage(raw: Raw, ghost s: State)
      requires Represents(s)
      modifies all, timedMessages
      ensures Represents(
        if IsResponse(raw) && raw.message.id in s.pending then SetStep(s, s.pending[raw.message.id], raw.message) else s)
    {
      var it := Find(raw);
      if it != null {
        Complete(raw.message, s.pending[raw.message.id], it, s);
      }
    }
  }
}
