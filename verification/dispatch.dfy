/**
 The handler applied to the stream of messages the bot receives. Each message
 is judged on its own: there is no memory from one message to the next.
 */
module Dispatch {
  import opened Telegram
  import opened Cleaner

  /** The number of messages of `msgs` the gate lets through, counted from
      the front. */
  function QualifyingCount(allowList: set<int>, msgs: seq<Message>): nat {
    if |msgs| == 0 then 0
    else (if Qualifies(allowList, msgs[0]) then 1 else 0) + QualifyingCount(allowList, msgs[1..])
  }

  /** Counting a message appended at the back. */
  lemma {:induction false} QualifyingCountSnoc(allowList: set<int>, init: seq<Message>, last: Message)
    ensures QualifyingCount(allowList, init + [last]) ==
              QualifyingCount(allowList, init) + (if Qualifies(allowList, last) then 1 else 0)
    decreases |init|
  {
    if |init| > 0 {
      assert (init + [last])[1..] == init[1..] + [last];
      QualifyingCountSnoc(allowList, init[1..], last);
    }
  }

  /** The delete requests issued while handling `msgs` in order: one per
      qualifying position, and nothing else. */
  function Requests(allowList: set<int>, msgs: seq<Message>): (r: seq<Action>)
    ensures |r| <= |msgs|
    ensures |r| == QualifyingCount(allowList, msgs)
    ensures forall a :: a in r ==>
              exists m :: m in msgs && Qualifies(allowList, m) && a == Delete(m.chat, m.messageId)
    ensures forall m :: m in msgs && Qualifies(allowList, m) ==> Delete(m.chat, m.messageId) in r
    decreases |msgs|
  {
    if |msgs| == 0 then []
    else
      var init := msgs[..|msgs| - 1];
      var last := msgs[|msgs| - 1];
      assert msgs == init + [last];
      var rest := Requests(allowList, init);
      QualifyingCountSnoc(allowList, init, last);
      match Decide(allowList, last)
      case NoAction => rest
      case Delete(chat, messageId) => rest + [Delete(chat, messageId)]
  }

  /** Handle each message in turn; the i-th outcome is what the platform
      answers if a delete of the i-th message is requested. */
  method HandleAll(allowList: set<int>, msgs: seq<Message>, outcomes: seq<DeleteOutcome>)
    returns (results: seq<Completion>, requests: seq<Action>)
    requires |outcomes| == |msgs|
    ensures |results| == |msgs|
    ensures forall i :: 0 <= i < |msgs| ==> results[i] == Handle(allowList, msgs[i], outcomes[i])
    ensures forall i :: 0 <= i < |results| ==> results[i].Returned?
    ensures requests == Requests(allowList, msgs)
  {
    results := [];
    requests := [];
    var i := 0;
    while i < |msgs|
      invariant 0 <= i <= |msgs|
      invariant |results| == i
      invariant forall k :: 0 <= k < i ==> results[k] == Handle(allowList, msgs[k], outcomes[k])
      invariant requests == Requests(allowList, msgs[..i])
    {
      var action := Decide(allowList, msgs[i]);
      assert msgs[..i + 1][..i] == msgs[..i];
      if action.Delete? {
        requests := requests + [action];
      }
      results := results + [Complete(action, outcomes[i])];
      i := i + 1;
    }
    assert msgs[..|msgs|] == msgs;
  }
}
