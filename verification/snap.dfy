/**
  The snap's two entry points, `onRpcRequest` and `onCronjob`
  (packages/snap/src/index.ts), as pure transitions over the persisted state.

  The host is abstracted: the state the handler would obtain from
  `snap_manageState` is an input, and every call the handler makes into the
  host is recorded, in order, as an `Effect`. `Replay` states the host's side
  of the contract — an `update` replaces the whole record, `get` and
  `snap_notify` leave it alone — and each handler's resulting state is the
  replay of its own effect log.
 */
module Snap {
  import opened Wrappers
  import opened JsValue

  /** A persisted JSON record. */
  type Record = map<string, Value>

  /** What `snap_manageState` with operation `get` yields: the last record written, or
      None (the host answers `null`) while nothing has been written. */
  type Stored = Option<Record>

  /** The `type` of a `snap_notify` call; the handlers only use `native`. */
  datatype NotifyType = Native

  /** One call from the snap into the host, in the order it is made. */
  datatype Effect =
    | ReadState
    | WriteState(newState: Record)
    | Notify(kind: NotifyType, message: string)

  /** How a handler's promise settles. */
  datatype Outcome = Returned(value: Value) | Threw(error: Thrown)

  datatype Request = Request(name: string, params: Value)

  datatype Step = Step(state: Stored, effects: seq<Effect>, outcome: Outcome)

  /** JSON-RPC 2.0 "Method not found" (section 5.1 of the JSON-RPC 2.0 specification). */
  const MethodNotFoundCode: int := -32601
  const MethodNotFoundMessage: string := "The method does not exist / is not available."

  /** The error `rpcErrors.methodNotFound({ data: { method } })` builds. */
  function MethodNotFound(name: string): Thrown {
    RpcError(MethodNotFoundCode, MethodNotFoundMessage, Obj(map["method" := Str(name)]))
  }

  /** The error the cron handler throws for a method it does not know. */
  const CronMethodNotFound: Thrown := PlainError("Method not found.")

  const NoThresholdMessage: string := "no threshold set"

  /** The persisted state as the handler sees it: a record, or `null` before the first write. */
  function StoredValue(stored: Stored): Value {
    match stored
    case None => Null
    case Some(m) => Obj(m)
  }

  /** The host's store after it has carried out `effects` in order. */
  function Replay(stored: Stored, effects: seq<Effect>): Stored
    decreases |effects|
  {
    if |effects| == 0 then stored
    else
      var next := match effects[0]
        case WriteState(m) => Some(m)
        case _ => stored;
      Replay(next, effects[1..])
  }

  /** The records written, in order. */
  function Writes(effects: seq<Effect>): (ws: seq<Record>)
    ensures |ws| <= |effects|
    ensures |ws| == 0 <==> forall i :: 0 <= i < |effects| ==> !effects[i].WriteState?
    decreases |effects|
  {
    if |effects| == 0 then []
    else (if effects[0].WriteState? then [effects[0].newState] else []) + Writes(effects[1..])
  }

  /** The notifications issued, in order. */
  function Notifications(effects: seq<Effect>): (ns: seq<Effect>)
    ensures |ns| <= |effects|
    ensures forall i :: 0 <= i < |ns| ==> ns[i].Notify? && ns[i] in effects
    decreases |effects|
  {
    if |effects| == 0 then []
    else (if effects[0].Notify? then [effects[0]] else []) + Notifications(effects[1..])
  }

  /** A log without writes leaves the store as it was. */
  lemma {:induction false} ReplayWithoutWrites(stored: Stored, effects: seq<Effect>)
    requires Writes(effects) == []
    ensures Replay(stored, effects) == stored
    decreases |effects|
  {
    if |effects| > 0 {
      assert !effects[0].WriteState?;
      ReplayWithoutWrites(stored, effects[1..]);
    }
  }

  /** `onRpcRequest`: `hello` replaces the stored record by `{ threshold: params.to }`;
      every other method is rejected as not found without touching the store. */
  function OnRpcRequest(stored: Stored, request: Request): (step: Step)
    ensures step.state == Replay(stored, step.effects)
    ensures step.outcome.Threw? ==> step.effects == [] && step.state == stored
    ensures request.name != "hello" ==> step.outcome == Threw(MethodNotFound(request.name))
    ensures request.name == "hello" ==> (step.outcome.Threw? <==> Nullish(request.params))
    ensures |Writes(step.effects)| <= 1 && Notifications(step.effects) == []
  {
    if request.name == "hello" then
      match Get(request.params, "to")
      case Failure(e) => Step(stored, [], Threw(e))
      case Success(to) =>
        var record := map["threshold" := to];
        Step(Some(record), [WriteState(record)], Returned(Undefined))
    else
      Step(stored, [], Threw(MethodNotFound(request.name)))
  }

  /** The notification text `execute` owes for a stored record: the test is presence of the
      `threshold` key, whatever its value (an empty string included). */
  function ExecuteMessage(m: Record): string {
    if "threshold" in m then "threshold is " + ToText(m["threshold"]) else NoThresholdMessage
  }

  /** `onCronjob`: `execute` reads the state and then issues exactly one native notification,
      resolving to what `snap_notify` answers (taken to be `null`); every other method throws
      `Method not found.`. */
  function OnCronjob(stored: Stored, request: Request): (step: Step)
    ensures step.state == stored && Writes(step.effects) == []
    ensures step.state == Replay(stored, step.effects)
    ensures request.name != "execute" ==> step == Step(stored, [], Threw(CronMethodNotFound))
    ensures request.name == "execute" ==> step.outcome != Threw(CronMethodNotFound)
    ensures request.name == "execute" && stored.Some? ==>
      step == Step(stored, [ReadState, Notify(Native, ExecuteMessage(stored.value))], Returned(Null))
    ensures request.name == "execute" && stored.None? ==>
      Notifications(step.effects) == [] && step.outcome.Threw? && step.outcome.error.TypeError?
  {
    if request.name == "execute" then
      var data := StoredValue(stored);
      match HasProperty(data, "threshold")
      case Failure(e) => Step(stored, [ReadState], Threw(e))
      case Success(present) =>
        var message := if present then "threshold is " + ToText(Get(data, "threshold").value) else NoThresholdMessage;
        var effects := [ReadState, Notify(Native, message)];
        assert Notifications(effects) == [Notify(Native, message)] by {
          assert effects[1..] == [Notify(Native, message)];
          assert effects[1..][1..] == [];
        }
        ReplayWithoutWrites(stored, effects);
        Step(stored, effects, Returned(Null))
    else
      Step(stored, [], Threw(CronMethodNotFound))
  }

  /** `hello` issues exactly one write, whose record holds `params.to` under `threshold` and nothing
      else, so keys stored earlier are not carried over. */
  lemma HelloReplacesState(stored: Stored, request: Request)
    requires request.name == "hello" && !Nullish(request.params)
    ensures var step := OnRpcRequest(stored, request);
      && step.outcome == Returned(Undefined)
      && |step.effects| == 1 && step.effects[0].WriteState?
      && step.state == Some(step.effects[0].newState)
      && step.state.value.Keys == {"threshold"}
      && step.state.value["threshold"] == Get(request.params, "to").value
  {
  }

  /** `hello` stores `to` verbatim: any value, numeric-looking or not, comes back unchanged. */
  lemma HelloStoresVerbatim(stored: Stored, to: Value)
    ensures OnRpcRequest(stored, Request("hello", Obj(map["to" := to]))).state == Some(map["threshold" := to])
  {
  }

  /** Round trip: after `hello` with `to`, the next `execute` notifies exactly `threshold is <to>`. */
  lemma HelloThenExecute(stored: Stored, to: string, cronParams: Value)
    ensures var hello := OnRpcRequest(stored, Request("hello", Obj(map["to" := Str(to)])));
      var execute := OnCronjob(hello.state, Request("execute", cronParams));
      && Notifications(execute.effects) == [Notify(Native, "threshold is " + to)]
      && execute.state == hello.state
  {
  }

  /** Before anything has been stored, `execute` cannot answer: the `in` test on `null` throws. */
  lemma ExecuteBeforeAnyWrite(request: Request)
    requires request.name == "execute"
    ensures var step := OnCronjob(None, request);
      step.effects == [ReadState] && step.outcome.Threw? && step.outcome.error.TypeError?
  {
  }
}
