/** The updates workflow's Lambda steps: `startExecution` starts one workflow
    execution per new or changed event of the all-events stream, and
    `processFeatures` indexes the event merged with its scores and highlights. */
module UpdatesProcessor {
  import opened Common
  import opened DynamoDb
  import opened Events
  import opened Streams
  import opened OpenSearch

  /** The Step Functions service: the inputs of the executions started, in order. */
  class StepFunctions {
    var started: seq<Event>

    constructor()
      ensures started == []
    {
      started := [];
    }
  }

  datatype ExecutionReply = ExecutionReply(status: string, executionArns: seq<string>)

  /** The execution ARNs among the first `n` replies; a missing or empty one is
      passed over. */
  function ArnsUpTo(reply: nat -> Option<string>, n: nat): (arns: seq<string>)
    ensures |arns| <= n
    ensures forall a :: a in arns ==> a != ""
  {
    if n == 0 then []
    else ArnsUpTo(reply, n - 1) + (if reply(n - 1).Some? && reply(n - 1).value != "" then [reply(n - 1).value] else [])
  }

  predicate Answered(reply: nat -> Option<string>, i: nat)
  {
    reply(i).Some? && reply(i).value != ""
  }

  /** The starts among the first `n` that returned an ARN, in increasing order. */
  function AnsweredUpTo(reply: nat -> Option<string>, n: nat): (idx: seq<nat>)
    ensures forall k :: 0 <= k < |idx| ==> idx[k] < n && Answered(reply, idx[k])
    ensures forall k, l :: 0 <= k < l < |idx| ==> idx[k] < idx[l]
  {
    if n == 0 then []
    else AnsweredUpTo(reply, n - 1) + (if Answered(reply, n - 1) then [n - 1] else [])
  }

  /** The collected ARNs are the answered starts' ARNs in start order: an in-order
      subsequence of the replies. */
  lemma {:induction false} ArnsInOrder(reply: nat -> Option<string>, n: nat)
    ensures |ArnsUpTo(reply, n)| == |AnsweredUpTo(reply, n)|
    ensures forall k :: 0 <= k < |ArnsUpTo(reply, n)| ==>
      Some(ArnsUpTo(reply, n)[k]) == reply(AnsweredUpTo(reply, n)[k])
  {
    if n > 0 {
      ArnsInOrder(reply, n - 1);
    }
  }

  /** With every start answered, there is one ARN per kept event. */
  lemma {:induction false} AllAnswered(reply: nat -> Option<string>, n: nat)
    requires forall i :: 0 <= i < n ==> reply(i).Some? && reply(i).value != ""
    ensures |ArnsUpTo(reply, n)| == n
  {
    if n > 0 {
      AllAnswered(reply, n - 1);
    }
  }

  /** `startExecution`: starts an execution for each kept record's new image, in
      order (`reply(i)` is the i-th start's `executionArn`), and returns the ARNs
      received; it always reports "success". */
  method StartExecution(sfn: StepFunctions, records: seq<StreamRecord>, reply: nat -> Option<string>) returns (r: ExecutionReply)
    modifies sfn
    ensures sfn.started == old(sfn.started) + NewEvents(records)
    ensures r == ExecutionReply("success", ArnsUpTo(reply, |NewEvents(records)|))
  {
    var events := NewEvents(records);
    var arns: seq<string> := [];
    var i := 0;
    while i < |events|
      invariant 0 <= i <= |events|
      invariant sfn.started == old(sfn.started) + events[..i]
      invariant arns == ArnsUpTo(reply, i)
    {
      assert events[..i + 1] == events[..i] + [events[i]];
      assert old(sfn.started) + events[..i + 1] == sfn.started + [events[i]];
      sfn.started := sfn.started + [events[i]];
      var executionArn := reply(i);
      i := i + 1;
      if executionArn.None? || executionArn.value == "" {
        continue;
      }
      arns := arns + [executionArn.value];
    }
    assert events[..i] == events;
    return ExecutionReply("success", arns);
  }

  /** `startExecution2`: a placeholder that only reports success. */
  function StartExecution2(records: seq<StreamRecord>): (status: string)
    ensures status == "success"
  {
    "success"
  }

  /** `processFeatures`: indexes the event merged with its scores and highlights. */
  method ProcessFeatures(index: SearchIndex, event: Event, scores: Scores, highlights: Highlights) returns (status: string)
    modifies index
    ensures index.docs == old(index.docs)[event.url := RichDoc(MergeRichEvent(event, scores, highlights))]
    ensures status == "success"
  {
    index.IndexRichEvent(MergeRichEvent(event, scores, highlights));
    return "success";
  }

  /** The indexed document gives back the event, its scores and its highlights. */
  lemma ProcessedDocRecovers(docs: map<string, Doc>, event: Event, scores: Scores, highlights: Highlights)
    ensures var d := docs[event.url := RichDoc(MergeRichEvent(event, scores, highlights))][event.url];
      d.RichDoc? && d.rich.event == event && d.rich.scores == scores && HighlightsOf(d.rich) == highlights
  {
    MergeRichEventInverse(event, scores, highlights, MergeRichEvent(event, scores, highlights));
  }
}
