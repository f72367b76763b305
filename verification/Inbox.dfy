/** The idempotent inbox for any handler (libs/kernel/messaging/src/lib/inbox.service.ts): the first committed result
    of a message is the answer to it for good. */
module Inbox {
  import opened Wrappers

  datatype Id = Id(message: string, consumer: string)

  /** One call of `process`: the handler's result unless it throws, and whether its transaction commits. */
  datatype Call<T> = Call(id: Id, handler: Option<T>, commits: bool)

  /** The rows afterwards, and what the caller gets unless the call throws. */
  function Processed<T>(rows: map<Id, T>, call: Call<T>): (map<Id, T>, Option<T>) {
    if call.id in rows then (rows, Some(rows[call.id]))
    else if call.handler.None? || !call.commits then (rows, None)
    else (rows[call.id := call.handler.value], call.handler)
  }

  class InboxService<T> {
    var rows: map<Id, T>

    method Process(call: Call<T>) returns (answer: Option<T>, handled: bool)
      modifies this
      ensures (rows, answer) == Processed(old(rows), call)
      ensures handled <==> call.id !in old(rows)
    {
      if call.id in rows { return Some(rows[call.id]), false; }
      if call.handler.Some? && call.commits {
        rows := rows[call.id := call.handler.value];
        return call.handler, true;
      }
      return None, true;
    }
  }

  function After<T>(calls: seq<Call<T>>): map<Id, T> {
    if calls == [] then map[] else Processed(After(calls[..|calls| - 1]), calls[|calls| - 1]).0
  }

  /** The result of the first call for a message whose handler returned and whose transaction committed. */
  function FirstResult<T>(calls: seq<Call<T>>, id: Id): Option<T> {
    if calls == [] then None
    else
      var earlier, last := FirstResult(calls[..|calls| - 1], id), calls[|calls| - 1];
      if earlier.None? && last.id == id && last.commits then last.handler else earlier
  }

  /** After any calls the stored answers are those first results, and the next call is answered exactly when there is
      one or it makes one itself. */
  lemma {:induction false} AnswersAreFirstResults<T>(calls: seq<Call<T>>, call: Call<T>)
    ensures forall id :: id in After(calls) <==> FirstResult(calls, id).Some?
    ensures forall id :: id in After(calls) ==> Some(After(calls)[id]) == FirstResult(calls, id)
    ensures Processed(After(calls), call).1 == FirstResult(calls + [call], call.id)
  {
    assert (calls + [call])[..|calls|] == calls;
    if calls != [] { AnswersAreFirstResults(calls[..|calls| - 1], calls[|calls| - 1]); }
  }

  lemma {:induction false} RowsStay<T>(calls: seq<Call<T>>, more: seq<Call<T>>, id: Id)
    requires id in After(calls)
    ensures id in After(calls + more) && After(calls + more)[id] == After(calls)[id]
    decreases |more|
  {
    if more == [] {
      assert calls + more == calls;
    } else {
      var n := |more| - 1;
      RowsStay(calls, more[..n], id);
      assert (calls + more)[..|calls| + n] == calls + more[..n];
    }
  }

  /** Once a call has been answered, every later call for the same message and consumer gets that answer, whatever
      its handler would have returned and whatever came between. */
  lemma {:induction false} FirstAnswerForever<T>(calls: seq<Call<T>>, call: Call<T>, more: seq<Call<T>>, later: Call<T>)
    requires Processed(After(calls), call).1.Some? && later.id == call.id
    ensures Processed(After(calls + [call] + more), later).1 == Processed(After(calls), call).1
  {
    assert (calls + [call])[..|calls|] == calls;
    RowsStay(calls + [call], more, call.id);
  }
}
