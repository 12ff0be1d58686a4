# Notify Me snap — a Dafny model of its decision logic

Notify Me is a MetaMask snap and a companion web page. On the page, a user types a price
threshold for a stop-loss alert. The snap stores it, and a cron job reports it back as a
notification. This project models the three pieces of logic in that system that make
decisions. Each is written as a pure function, with the host (wallet state store,
notifier, local storage, `window`) turned into inputs and outputs:

- **The snap handlers** (`Snap`): `onRpcRequest` and `onCronjob` are transitions from the
  stored state and a request to a `Step`. A `Step` holds the new state, an ordered log of
  host calls (`ReadState`, `WriteState`, `Notify`) and how the handler's promise settles.
  `Snap.Replay` fixes what the host is assumed to do:
  - `snap_manageState` `update` replaces the whole record.
  - `get` yields the last record written, or `null` before the first write.
  - Each handler's new state is the replay of its own log.
- **The page's submit and toggle decisions** (`ThresholdInput`, `StopLossPage`):
  - `containsOnlyNumbers` is defined by the grammar of its regular expression,
    `/\d+(\.\d+)*$/`. It is proved equivalent to "the text ends in an ASCII digit".
  - The Stop Loss button either forwards the raw text to `sendHello` or dispatches the
    rejection message.
  - The toggle reports "On" or "Off" from the truthiness of the answered `stop`.
- **The preference helpers** (`Theme`):
  - `getThemePreference` combines the stored `theme`, the browser's colour-scheme flag and
    a conditional write-back.
  - `getStopLossToggle` is a strict-equality test on the snap's answer.

Supporting modules:
- `JsValue`: the JavaScript value semantics the code relies on. This covers truthiness,
  `??`, template-literal string conversion, property reads, the `in` operator and the
  `TypeError`s these throw.
- `Decimal`: decimal text of integers, used for JavaScript's string conversion of numbers and for array-index property keys. The round trip it proves (rendering the value of a canonical digit string gives the string back) supports `JsValue.ArrayIndex`. It is a fact about JavaScript semantics, not about this system's code.
- `EndToEnd`: composes the page with the snap.
- `Wrappers`: `Option` and `Result`.

The snap has no `toggle_stop` handler. It also does not compare a price feed against the
threshold, and its cron job is not gated by a `stop` flag:
- `hello` is its only RPC method.
- `execute` only reports the stored threshold.

`EndToEnd.ToggleAlwaysFails` states what follows from this. Every `toggle_stop` request
is answered with method-not-found, whatever its parameters. So the toggle shows an error
and `getStopLossToggle` fails.

Behaviour of the code as written that the model keeps:
- Before the first `hello`, `execute` throws a `TypeError`, because `get` answers `null`
  and `"threshold" in null` throws (`Snap.ExecuteBeforeAnyWrite`).
- `containsOnlyNumbers` accepts `"abc1"` and `"1.2.3"`.
- A stored empty-string theme reads as light but still writes the system preference back.

## Model

| member | source | states |
|---|---|---|
| Snap.OnRpcRequest | packages/snap/src/index.ts:61-79 | The new state is the replay of the handler's own effect log. There is at most one write and never a notification. A method other than `hello` throws method-not-found carrying the method name, with no effect and the state unchanged. `hello` throws only when `params` is null or undefined. |
| Snap.HelloReplacesState | packages/snap/src/index.ts:63-70 | `hello` makes exactly one state update. The resulting record has the single key `threshold`, holding `params.to`, so keys stored earlier are dropped. The handler resolves to `undefined`. |
| Snap.HelloStoresVerbatim | packages/snap/src/index.ts:67 | Any `to` value is stored under `threshold` as given, with no numeric validation or normalisation. |
| Snap.OnCronjob | packages/snap/src/index.ts:81-117 | Any method makes no write and leaves the state as it was. For `execute` with a stored record the log is exactly a state read followed by one native notification, and the handler resolves to `snap_notify`'s answer, taken to be `null`. The notification text is `threshold is <value>` when the `threshold` key is present (even an empty string) and `no threshold set` otherwise. `execute` never reaches `Method not found.`, and any other method throws it with no effect. |
| Snap.HelloThenExecute | packages/snap/src/index.ts:63-100 | After `hello` with threshold `T`, the next `execute` notifies exactly `threshold is T` and leaves the state unchanged. |
| Snap.ExecuteBeforeAnyWrite | packages/snap/src/index.ts:86-90 | With nothing ever stored, `execute` reads the state and then throws a TypeError from the `in` test, without notifying. |
| ThresholdInput.PatternTestIffEndsInDigit | packages/site/src/pages/index.tsx:156 | The regular expression `/\d+(\.\d+)*$/` finds a match, starting anywhere and ending at the end of the text, exactly when the text is non-empty and ends in `0`-`9`. |
| ThresholdInput.ContainsOnlyNumbers | packages/site/src/pages/index.tsx:156 | The validator's answer equals the regular-expression test. |
| ThresholdInput.ValidatorExamples | packages/site/src/pages/index.tsx:156 | `"abc1"` and `"1.2.3"` pass. `"12."` and `""` fail. |
| StopLossPage.HandleSendHelloClick | packages/site/src/pages/index.tsx:157-173 | Text that fails the validator gets only the error dispatch, with the page's exact message. Accepted text gets one `sendHello` call with the unmodified text, followed by the info message `Stop Loss has been Set to $<text>!`. The call's outcome does not matter. |
| StopLossPage.SubmitAcceptsIffEndsInDigit | packages/site/src/pages/index.tsx:159-168 | `sendHello` is called exactly when the text ends in an ASCII digit. When it is called, it is called once, first, and with the text as typed. |
| StopLossPage.EmptyThresholdRejected | packages/site/src/pages/index.tsx:159-165 | An empty threshold is rejected: the error is set, `sendHello` is not called and no info message is set. The emptiness test is also implied by the pattern test. |
| StopLossPage.OnToggle | packages/site/src/pages/index.tsx:254-262 | The toggle first calls `sendToggleStop(true)` and then dispatches one action. A rejection is dispatched as an error. A null or undefined answer raises a TypeError that is dispatched. For a record answer the message is "Stop Loss Alert is Turned On!" when `stop` is present and truthy, and "Stop Loss ALert is Turned Off!" otherwise. Any other non-null answer (a string, number, boolean or array) reads `stop` as `undefined` and shows the "Off" message. |
| StopLossPage.ToggleDependsOnlyOnTruthiness | packages/site/src/pages/index.tsx:256-257 | Two answers whose `stop` values have the same truthiness produce the same log. That log is the "On" info message when `stop` is truthy and the "Off" message otherwise. |
| Theme.GetThemePreference | packages/site/src/utils/theme.ts:10-28 | Without `window` the result is false, with no write. A stored value that is not null or undefined decides the result, which is dark exactly when it is `'dark'`. Otherwise the system flag decides it. Storage is written exactly when the stored value is falsy, and then with `'dark'` or `'light'` from the system flag. |
| Theme.EmptyStoredTheme | packages/site/src/utils/theme.ts:19-27 | A stored `''` gives false (`??` keeps it) and still writes the system preference (`!''` holds). |
| Theme.SecondCallAgrees | packages/site/src/utils/theme.ts:19-27 | A second call right after the first never writes. Its answer differs from the first exactly when a falsy, non-null stored value hid a dark system preference. |
| Theme.GetStopLossToggle | packages/site/src/utils/theme.ts:30-38 | The result is true exactly when the answer is a record whose `stop` is the boolean `true`. It fails exactly when the promise rejects (with the same reason) or the answer is a primitive, for which `in` throws. |
| Theme.TruthyStopIsNotTrue | packages/site/src/utils/theme.ts:33-37 | A truthy `stop` other than `true` yields false. |
| EndToEnd.AcceptedThresholdIsNotified | packages/site/src/pages/index.tsx:159-168 | A threshold the page accepts ends in a digit. Once sent as `hello`, the next `execute` notifies exactly `threshold is <text as typed>`. |
| EndToEnd.ToggleAlwaysFails | packages/snap/src/index.ts:72-77 | A `toggle_stop` request with any parameters leaves the snap's state unchanged. This covers the toggle's `sendToggleStop(true)` and `getStopLossToggle`'s call with no argument. Assuming the error reaches the page unchanged (see `EndToEnd.Settle` under Left out), the toggle then dispatches the method-not-found error, and `getStopLossToggle` fails with it. |
| EndToEnd.StrictAndTruthyReadings | packages/site/src/utils/theme.ts:33-37 | When `getStopLossToggle` reports true, the toggle shows "On". A truthy non-boolean `stop` shows "On" while `getStopLossToggle` reports false. |

## Left out

- `getJson` and its `fetch` of the price feed (packages/snap/src/index.ts:56-59): this is network I/O, and neither handler uses it.
- React rendering, styled components, the connect and reconnect flow (`connectSnap`, `getSnap`, `shouldDisplayReconnectButton`) and the `Input` component: these are UI and wallet handshake code with no decision logic.
- `sendHello`, `sendToggleStop`, `getLocalStorage` and `setLocalStorage`: their code (packages/site/src/utils/snap.ts, localStorage.ts) is not part of this model.
  - The page records the calls it makes.
  - What the helpers answer is an input.
  - `EndToEnd` assumes `sendHello(t)` sends the request `{method: 'hello', params: {to: t}}`.
  - `EndToEnd` assumes `sendToggleStop` sends a `toggle_stop` request. Its parameters are left open: the toggle calls `sendToggleStop(true)`, and `getStopLossToggle` passes no argument. Which parameters `true` becomes is not modelled.
- EndToEnd.Settle: the page is taken to receive the snap's result, or its thrown error, unchanged through `sendHello` and `sendToggleStop`. The wallet's `wallet_invokeSnap` path, which may re-wrap a snap's errors, is not modelled.
- Notification delivery, cron scheduling, and promise and async ordering: these are host concerns. Effects are an ordered log.
- `snap_notify`'s answer is taken to be `null`, the value `execute` resolves to.
- The host's JSON-serialisability check on `update`, which could refuse a `{threshold: undefined}` record: the model stores the record as given.
- `console.log` calls: they have no effect on the result.
- The `catch` branch of `handleSendHelloClick`: neither the un-awaited `sendHello` nor `dispatch` throws synchronously, so it is unreachable in the model.
- JsValue.ToText: numbers are integers, rendered in plain decimal. Fractions, `NaN`, infinities and the exponent form JavaScript uses from 10^21 up are not modelled.
- JsValue.Get: inherited members of built-in prototypes (such as `toString`) are not modelled. The handlers read only `to`, `stop` and `threshold`, which no prototype defines. Array indices are not capped at 2^32 - 2. A string's `length` and index reads count Dafny characters, not UTF-16 code units.
