/**
 * The two settings the pipeline reads: where the pointer file goes and the
 * debounce interval, with the rules main.ts applies to them.
 */
module Config {
  import opened Wrappers

  /** The file name used inside the vault's configuration directory when no path is set. */
  const DefaultFileName: string := "active-note.json"

  const DefaultDebounceMs: int := 300

  /** `defaultPointerPath`: the file `active-note.json` in the configuration directory. */
  function DefaultPointerPath(configDir: string): (r: string)
    ensures |r| > |configDir| && r[..|configDir|] == configDir
    ensures r[|configDir|..] == "/" + DefaultFileName
  {
    configDir + "/" + DefaultFileName
  }

  /**
   * The `pointerFilePath` getter: the configured path, or the default one
   * when the configured path is the empty string (the only falsy string).
   */
  function ResolvePointerPath(configured: string, configDir: string): (r: string)
    ensures r != []
    ensures configured != [] ==> r == configured
    ensures configured == [] ==> r == DefaultPointerPath(configDir) && r[|configDir|..] == "/active-note.json"
  {
    if configured != [] then configured else DefaultPointerPath(configDir)
  }

  /**
   * Writing the resolved path back into the setting does not move the
   * pointer file, whatever configuration directory it is later resolved in.
   */
  lemma ResolveIsStable(configured: string, configDir: string, laterDir: string)
    ensures ResolvePointerPath(ResolvePointerPath(configured, configDir), laterDir)
            == ResolvePointerPath(configured, configDir)
  {
  }

  /**
   * The `debounceMs` text field's change handler: `parsed` is what
   * `parseInt(value, 10)` gives (None for NaN). The interval takes the
   * parsed value only when it is a number no smaller than zero; otherwise
   * it keeps `current`.
   */
  function AcceptDebounce(current: int, parsed: Option<int>): (r: int)
    ensures parsed.Some? && parsed.value >= 0 ==> r == parsed.value
    ensures !(parsed.Some? && parsed.value >= 0) ==> r == current
    ensures current >= 0 ==> r >= 0
  {
    if parsed.Some? && parsed.value >= 0 then parsed.value else current
  }

  /** Whatever the user types, a non-negative interval stays non-negative. */
  lemma {:induction false} AcceptDebounceKeepsNonNegative(start: int, inputs: seq<Option<int>>)
    requires start >= 0
    ensures AcceptAll(start, inputs) >= 0
    ensures AcceptAll(start, inputs) == start || Some(AcceptAll(start, inputs)) in inputs
    decreases |inputs|
  {
    if inputs != [] {
      AcceptDebounceKeepsNonNegative(AcceptDebounce(start, inputs[0]), inputs[1..]);
    }
  }

  /** The interval after the handler has seen each of `inputs` in turn. */
  function AcceptAll(current: int, inputs: seq<Option<int>>): int
    decreases |inputs|
  {
    if inputs == [] then current else AcceptAll(AcceptDebounce(current, inputs[0]), inputs[1..])
  }
}
