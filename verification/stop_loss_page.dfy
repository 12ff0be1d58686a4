/**
  The decisions the companion page's Stop Loss card makes
  (packages/site/src/pages/index.tsx): whether the submit button forwards
  the typed threshold to the snap, and which message the monitoring toggle
  shows.

  The React state store and the snap are abstracted: what a handler does is
  an ordered log of `PageEffect`s (calls into the snap helpers and dispatched
  actions), and what the snap answers the toggle is an input.
 */
module StopLossPage {
  import opened Decimal
  import opened JsValue
  import opened ThresholdInput

  /** The payload of a dispatched action: a `{ message }` record, or the caught error itself. */
  datatype Payload = Message(text: string) | Raised(error: Thrown)

  datatype Action = SetError(payload: Payload) | SetInfo(payload: Payload)

  datatype PageEffect =
    | SendHello(threshold: string)
    | SendToggleStop(to: bool)
    | Dispatch(action: Action)

  /** The rejection text, spelled as the page spells it. */
  const InvalidThresholdMessage: string := "Please enter a valid threhsold (eg: 1232.2)"

  const ToggleOnMessage: string := "Stop Loss Alert is Turned On!"
  /** Spelled as the page spells it, with a capital L in "ALert". */
  const ToggleOffMessage: string := "Stop Loss ALert is Turned Off!"

  function ThresholdSetMessage(threshold: string): string {
    "Stop Loss has been Set to $" + threshold + "!"
  }

  /** The single action a rejected submission dispatches. */
  const Rejection: seq<PageEffect> := [Dispatch(SetError(Message(InvalidThresholdMessage)))]

  /** `handleSendHelloClick`: reject an empty or non-numeric-looking threshold, otherwise hand the raw
      text to `sendHello` and report it. `sendHello` is not awaited, so nothing here depends on
      what the snap answers. */
  function HandleSendHelloClick(threshold: string): (log: seq<PageEffect>)
    ensures !ContainsOnlyNumbers(threshold) ==> log == Rejection
    ensures ContainsOnlyNumbers(threshold) ==>
      log == [SendHello(threshold), Dispatch(SetInfo(Message(ThresholdSetMessage(threshold))))]
  {
    if !Truthy(Str(threshold)) || !ContainsOnlyNumbers(threshold) then Rejection
    else [SendHello(threshold), Dispatch(SetInfo(Message(ThresholdSetMessage(threshold))))]
  }

  /** A submission goes through exactly when the text ends in an ASCII digit; then `sendHello` is
      called once, with the text unmodified, and otherwise never. */
  lemma SubmitAcceptsIffEndsInDigit(threshold: string)
    ensures var log := HandleSendHelloClick(threshold);
      && (SendHello(threshold) in log <==> |threshold| > 0 && IsDigit(threshold[|threshold| - 1]))
      && multiset(log)[SendHello(threshold)] <= 1
      && (forall e :: e in log && e.SendHello? ==> e == SendHello(threshold))
      && (log == Rejection || log[0] == SendHello(threshold))
  {
  }

  /** An empty threshold is always rejected: the error is set, `sendHello` is not called and no
      info message is set. The emptiness test is subsumed by the pattern test. */
  lemma EmptyThresholdRejected()
    ensures HandleSendHelloClick("") == Rejection
    ensures !ContainsOnlyNumbers("")
  {
  }

  /** The toggle's click handler: ask the snap to toggle, then report what it answered. An answer
      whose `stop` is truthy reads "On", any other answer "Off"; an error is dispatched as is. */
  function OnToggle(reply: Settled): (log: seq<PageEffect>)
    ensures |log| == 2 && log[0] == SendToggleStop(true) && log[1].Dispatch?
    ensures reply.Rejected? ==> log[1] == Dispatch(SetError(Raised(reply.reason)))
    ensures reply.Resolved? && Nullish(reply.value) ==>
      log[1].action.SetError? && log[1].action.payload.Raised? && log[1].action.payload.error.TypeError?
    ensures reply.Resolved? && reply.value.Obj? ==>
      log[1] == Dispatch(SetInfo(Message(
        if "stop" in reply.value.fields && Truthy(reply.value.fields["stop"]) then ToggleOnMessage else ToggleOffMessage)))
    ensures reply.Resolved? && !Nullish(reply.value) && !reply.value.Obj? ==>
      log[1] == Dispatch(SetInfo(Message(ToggleOffMessage)))
  {
    var outcome :=
      match reply
      case Rejected(e) => SetError(Raised(e))
      case Resolved(data) =>
        match Get(data, "stop")
        case Failure(e) => SetError(Raised(e))
        case Success(stop) => SetInfo(Message(if Truthy(stop) then ToggleOnMessage else ToggleOffMessage));
    [SendToggleStop(true), Dispatch(outcome)]
  }

  /** Only the truthiness of the answered `stop` matters: answers that agree on it show the same message. */
  lemma ToggleDependsOnlyOnTruthiness(a: Value, b: Value)
    requires !Nullish(a) && !Nullish(b)
    requires Truthy(Get(a, "stop").value) == Truthy(Get(b, "stop").value)
    ensures OnToggle(Resolved(a)) == OnToggle(Resolved(b))
    ensures OnToggle(Resolved(a))[1] == Dispatch(SetInfo(Message(
      if Truthy(Get(a, "stop").value) then ToggleOnMessage else ToggleOffMessage)))
  {
  }
}
