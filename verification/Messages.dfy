/** Messages exchanged by the two peers and the generator of their ids (include/message/Message.hpp). */
module Messages {
  const TWO_TO_THE_64: nat := 0x1_0000_0000_0000_0000

  /** A `uint64_t`. */
  type Id = n: int | 0 <= n < TWO_TO_THE_64

  datatype Action = Start | GetAccount
  datatype Kind = Request | Response | Notify
  datatype Status = Status(ok: bool, message: string)
  datatype Message = Message(kind: Kind, id: Id, status: Status, action: Action, data: string)

  /** What a session hands to its handlers: text that parses as a message, or text on which parsing throws. */
  datatype Raw = Garbled(text: string) | Json(message: Message)

  function MakeRequest(id: Id, action: Action, data: string): Message {
    Message(Request, id, Status(false, ""), action, data)
  }

  function MakeResponse(request: Message, status: Status, data: string): Message {
    Message(Response, request.id, status, request.action, data)
  }

  /** The response that the timer completion builds. */
  function TimedOut(request: Message): Message {
    MakeResponse(request, Status(false, "timed out"), "")
  }

  /** The id handed out by call number `k` (counting from 0): the counter starts at 0, is incremented
      before it is returned, and wraps around. */
  function NthId(k: nat): Id {
    (k + 1) % TWO_TO_THE_64
  }

  /** The call, among the first 2^64, that handed out `id`. */
  function CallOf(id: Id): nat {
    if id == 0 then TWO_TO_THE_64 - 1 else id - 1
  }

  /** Within 2^64 calls every id is handed out exactly once. */
  lemma IdsAreABijection(k: nat, id: Id)
    requires k < TWO_TO_THE_64
    ensures NthId(k) == id <==> k == CallOf(id)
  {
  }

  /** Two calls collide exactly when they are a multiple of 2^64 apart. */
  lemma IdsCollide(j: nat, k: nat)
    ensures NthId(j) == NthId(k) <==> (k - j) % TWO_TO_THE_64 == 0
  {
  }

  /** The static atomic behind `next_id`. */
  class IdCounter {
    var last: Id
    ghost var calls: nat

    ghost predicate Valid()
      reads this
    {
      last == calls % TWO_TO_THE_64
    }

    constructor ()
      ensures Valid() && last == 0 && calls == 0
    {
      last, calls := 0, 0;
    }

    method NextId() returns (id: Id)
      requires Valid()
      modifies this
      ensures Valid() && calls == old(calls) + 1
      ensures id == NthId(old(calls))
      ensures last == id == (old(last) + 1) % TWO_TO_THE_64
    {
      last := (last + 1) % TWO_TO_THE_64;
      calls := calls + 1;
      id := last;
    }
  }
}
