/**
  How the page and the snap fit together. The page's `sendHello` and
  `sendToggleStop` helpers (packages/site/src/utils/snap.ts) are not part of
  this model. `sendHello(threshold)` is taken to send the request `hello`
  with `{ to: threshold }`, and `sendToggleStop` the request `toggle_stop`
  with whatever parameters it is given.
 */
module EndToEnd {
  import opened Wrappers
  import opened Decimal
  import opened JsValue
  import opened Snap
  import opened StopLossPage
  import Theme

  /** The request `sendHello(threshold)` is taken to send to the snap. */
  function HelloRequest(threshold: string): Request {
    Request("hello", Obj(map["to" := Str(threshold)]))
  }

  /** How the page is taken to see the snap's answer to one of its requests: the handler's result,
      or the error it threw, unchanged. */
  function Settle(outcome: Outcome): Settled {
    match outcome
    case Returned(v) => Resolved(v)
    case Threw(e) => Rejected(e)
  }

  /** A threshold the page accepts reaches the snap unchanged: the next scheduled `execute` notifies
      exactly `threshold is <text as typed>`, whatever was stored before. */
  lemma AcceptedThresholdIsNotified(stored: Stored, threshold: string, cronParams: Value)
    requires SendHello(threshold) in HandleSendHelloClick(threshold)
    ensures |threshold| > 0 && IsDigit(threshold[|threshold| - 1])
    ensures var hello := OnRpcRequest(stored, HelloRequest(threshold));
      var execute := OnCronjob(hello.state, Request("execute", cronParams));
      Notifications(execute.effects) == [Notify(Native, "threshold is " + threshold)]
  {
  }

  /** The snap has no `toggle_stop` handler: whatever parameters `sendToggleStop` passes (whatever
      the toggle's `sendToggleStop(true)` builds, and nothing from `getStopLossToggle`), the request
      is refused and the store is left as it was. When the refusal reaches the page as `Settle`
      assumes, the toggle shows the error and `getStopLossToggle` fails with it. */
  lemma ToggleAlwaysFails(stored: Stored, params: Value)
    ensures var step := OnRpcRequest(stored, Request("toggle_stop", params));
      && step.state == stored
      && OnToggle(Settle(step.outcome))[1] == Dispatch(SetError(Raised(MethodNotFound("toggle_stop"))))
      && Theme.GetStopLossToggle(Settle(step.outcome)) == Failure(MethodNotFound("toggle_stop"))
  {
  }

  /** The toggle's message and `getStopLossToggle` read the same answer differently: strict `true`
      implies "On", but a truthy non-boolean `stop` shows "On" while the helper reports off. */
  lemma StrictAndTruthyReadings(fields: map<string, Value>)
    ensures Theme.GetStopLossToggle(Resolved(Obj(fields))) == Success(true) ==>
      OnToggle(Resolved(Obj(fields)))[1] == Dispatch(SetInfo(Message(ToggleOnMessage)))
    ensures "stop" in fields && Truthy(fields["stop"]) && fields["stop"] != Bool(true) ==>
      && OnToggle(Resolved(Obj(fields)))[1] == Dispatch(SetInfo(Message(ToggleOnMessage)))
      && Theme.GetStopLossToggle(Resolved(Obj(fields))) == Success(false)
  {
  }
}
