/**
  The page's two preference helpers (packages/site/src/utils/theme.ts):
  `getThemePreference`, which combines the stored `theme` entry with the
  browser's colour-scheme preference and may write the latter back, and
  `getStopLossToggle`, which reads the monitoring flag out of the snap's
  answer.

  `window`, `matchMedia` and local storage are inputs; a write to local
  storage is part of the result.
 */
module Theme {
  import opened Wrappers
  import opened JsValue

  /** Where the page runs: without a `window` (server-side rendering), or in a browser whose
      `(prefers-color-scheme: dark)` query answers `prefersDark`. */
  datatype Host = NoWindow | Browser(prefersDark: bool)

  /** One call's result: the returned flag, and the `theme` value written to local storage, if any. */
  datatype ThemeCall = ThemeCall(isDark: bool, written: Option<string>)

  function SystemPreference(prefersDark: bool): string {
    if prefersDark then "dark" else "light"
  }

  /** `getThemePreference`, given what `getLocalStorage('theme')` answers. The fallback uses `??`
      (nullish) while the write-back uses `!` (falsy); the two disagree on `''`, `false` and `0`. */
  function GetThemePreference(host: Host, stored: Value): (r: ThemeCall)
    ensures host.NoWindow? ==> r == ThemeCall(false, None)
    ensures host.Browser? && !Nullish(stored) ==> (r.isDark <==> stored == Str("dark"))
    ensures host.Browser? && Nullish(stored) ==> (r.isDark <==> host.prefersDark)
    ensures r.written.Some? <==> host.Browser? && !Truthy(stored)
    ensures r.written.Some? ==> r.written.value == SystemPreference(host.prefersDark)
  {
    match host
    case NoWindow => ThemeCall(false, None)
    case Browser(prefersDark) =>
      var system := SystemPreference(prefersDark);
      var preference := if Nullish(stored) then Str(system) else stored;
      var written := if !Truthy(stored) then Some(system) else None;
      ThemeCall(preference == Str("dark"), written)
  }

  /** What local storage holds for `theme` after a call. */
  function StoredAfter(stored: Value, r: ThemeCall): Value {
    match r.written
    case Some(s) => Str(s)
    case None => stored
  }

  /** A stored empty string is kept by `??`, so the answer is "not dark", yet `!''` still writes the
      system preference. */
  lemma EmptyStoredTheme(prefersDark: bool)
    ensures GetThemePreference(Browser(prefersDark), Str("")) == ThemeCall(false, Some(SystemPreference(prefersDark)))
  {
  }

  /** Calling twice in a row never writes the second time, and the second answer agrees with the
      first except when a stored falsy non-null value (`''`, `false`, `0`) hid a dark system
      preference that the first call then wrote back. */
  lemma SecondCallAgrees(prefersDark: bool, stored: Value)
    ensures var first := GetThemePreference(Browser(prefersDark), stored);
      var second := GetThemePreference(Browser(prefersDark), StoredAfter(stored, first));
      && second.written == None
      && (second.isDark == first.isDark <==> !(prefersDark && !Nullish(stored) && !Truthy(stored)))
  {
  }

  /** `getStopLossToggle`, given how the snap's answer settles: `"stop" in state` (a TypeError on a
      primitive answer) and then strict equality with `true`. */
  function GetStopLossToggle(reply: Settled): (r: Result<bool, Thrown>)
    ensures r == Success(true) <==>
      reply.Resolved? && reply.value.Obj? && "stop" in reply.value.fields && reply.value.fields["stop"] == Bool(true)
    ensures r.Failure? <==> reply.Rejected? || !(reply.value.Obj? || reply.value.Arr?)
    ensures reply.Rejected? ==> r == Failure(reply.reason)
  {
    match reply
    case Rejected(e) => Failure(e)
    case Resolved(state) =>
      var present :- HasProperty(state, "stop");
      Success(present && Get(state, "stop").value == Bool(true))
  }

  /** A truthy `stop` that is not the boolean `true` (`'true'`, `1`, an object) still reads as off. */
  lemma TruthyStopIsNotTrue(stop: Value)
    requires Truthy(stop) && stop != Bool(true)
    ensures GetStopLossToggle(Resolved(Obj(map["stop" := stop]))) == Success(false)
  {
  }
}
