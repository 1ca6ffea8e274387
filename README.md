# Active note: a verified model of the focus-to-pointer pipeline

The Obsidian plugin "Active Note" (`main.ts`) copies the editor's focus
into a small JSON file, the pointer file. An outside tool reads that file
to learn which note is open and what text is selected. This project models
the plugin's core in Dafny 4.11 and proves properties of the model:

- **Snapshot builder** (`snapshot.dfy`, module `Snapshots`). What
  `writePointer` reads from the active markdown view, and the record it
  builds: the path, plus a `selection` block (text and 1-based lines) only
  when the selected text is non-empty.
- **Serialisation** (`json.dfy`, module `Json`). The record as
  `JSON.stringify` writes it: a JSON object (section 4 of RFC 8259) with
  members in insertion order — `path`, then `selection` with `text`,
  `startLine`, `endLine` — and strings quoted as section 7 of RFC 8259
  allows. The partner is a strict decoder, `Parse`, for exactly this
  layout. Both round trips are proved: `Parse(Serialise(s)) == Some(s)`,
  and every content `Parse` accepts is `Serialise` of its result. From
  them follows that different records give different file contents.
- **Configuration** (`config.dfy`, module `Config`).
  - The `pointerFilePath` getter with its fallback `<configDir>/active-note.json`.
  - The guard on the debounce interval field.
- **Event handling** (`debounce.dfy`, module `Debounce`). A state machine
  over values:
  - the `debounceTimer` field;
  - the host's timers that are still due to run;
  - the host's next handle;
  - the log of changes to the pointer file's content.

  `Step` gives the effect of one event and `Run` the effect of a sequence
  of events. The lemmas cover a sequence of events: at most one pending
  timer, coalescing of bursts, focus change, unload, and nothing written
  without a file.
- **The plugin object** (`plugin.dfy`, module `Plugin`). One class per
  object of `main.ts` whose fields change in place:
  - `ActiveNoteSettings`, the settings object;
  - `ActiveNotePlugin`, with `debounceTimer` and its handlers;
  - `ActiveNoteSettingTab`, the two change handlers.

  Each handler is proved to move the object's state as `Debounce.Step` says.

Inputs from the host become parameters:
- the active view and its selection;
- which timer the host runs, and when;
- whether `fs.writeFileSync` succeeded;
- what `parseInt` returned.

### Behaviour worth knowing

- The plugin does not reorder the cursor lines. It adds one to the `from`
  and `to` lines (main.ts:63-64), so `startLine <= endLine` holds exactly
  when the host returns `from` at or before `to`. `LineOrderFollowsHost`
  states this.
- A focus change does not cancel a pending debounced write. The
  `active-leaf-change` handler calls `writePointer` and leaves
  `debounceTimer` alone (main.ts:33), so an earlier timer still runs and
  writes a second time. `LeafChangeKeepsPendingTimer` proves this.
- `debounceTimer` is never reset to null (main.ts:46): a handle whose
  callback has run stays in the field. The model keeps pending timers
  apart from the field, in `armed`.
- The file is overwritten directly with `writeFileSync` (main.ts:73),
  which truncates it when it opens it. A write that fails after the open
  leaves a prefix of the new content; one that fails before it leaves the
  file as it was. The model keeps both cases apart.

## Model

| member | source | states |
|---|---|---|
| `Snapshots.BuildSnapshot` | main.ts:49-66 | No record exactly when there is no active markdown view or it has no file. Otherwise the path is the file's path. A selection block is present if and only if the selected text is non-empty. When present, it holds that text and `from.line + 1`, `to.line + 1`, so the record is well formed (non-empty text, lines at least 1). |
| `Snapshots.LineOrderFollowsHost` | main.ts:59-65 | `startLine <= endLine` holds exactly when the host's `from` line is at most its `to` line: the plugin does not reorder. |
| `Json.EscapeChar` | main.ts:73 | A character in a string literal starts with a backslash exactly when it is a quote, a backslash or a control character below U+0020. It never starts with a raw quote. |
| `Json.ParseEscaped` | main.ts:73 | An escaped string body followed by its closing quote decodes back to the original string, and the decoder stops at that quote. |
| `Json.DecimalIsCanonical` | main.ts:63-64 | Line numbers are written as non-empty runs of digits with no leading zero, and the digits denote the number. |
| `Json.Escape` | main.ts:73 | No contract of its own: it escapes a string character by character with `EscapeChar`. `ParseEscaped` and `ParsedStringWasEscaped` state that it is undone exactly by the string decoder. |
| `Json.Decimal` | main.ts:63-64 | No contract of its own: the decimal notation of a line number. `DecimalIsCanonical` and `DecimalOfDigits` state what it produces. |
| `Json.Serialise` | main.ts:56-73 | No contract of its own: the pointer file's content for a record. `ParseSerialise`, `SerialiseParse` and `PlainPathContent` state what it writes. |
| `Json.DecimalOfDigits` | main.ts:63-64 | A non-empty run of digits with no leading zero is the decimal notation of its value, so the number decoder accepts only what the serialiser writes. |
| `Json.ParsedStringWasEscaped` | main.ts:73 | Any string body the decoder accepts is exactly `Escape` of the string it returns, followed by the closing quote. |
| `Json.SerialiseParse` | main.ts:56-73 | Every content the strict decoder accepts is exactly what the serialiser writes for the record it decodes to. |
| `Json.ParseSerialise` | main.ts:56-73 | The strict decoder, which accepts only the members `path`, `selection`, `text`, `startLine`, `endLine` in that order with nothing else, gives back the record from the content the plugin writes. |
| `Json.SerialiseInjective` | main.ts:56-73 | Two records with the same file content are the same record. |
| `Json.PlainPathContent` | main.ts:56-73 | A path without characters to escape and no selection gives exactly `{"path":"<path>"}`. |
| `Config.DefaultPointerPath` | main.ts:10-12 | The default path is the configuration directory followed by `/active-note.json`. |
| `Config.ResolvePointerPath` | main.ts:23-25 | The resolved path is never empty. A non-empty configured path is used as it is. An empty one falls back to the default path in the configuration directory. |
| `Config.ResolveIsStable` | main.ts:23-25 | Storing the resolved path as the setting resolves to the same path, in any configuration directory. |
| `Config.AcceptDebounce` | main.ts:122-128 | The interval takes the parsed value when it is a number at least 0, and keeps its value otherwise (NaN, negative). A non-negative interval stays non-negative. |
| `Config.AcceptDebounceKeepsNonNegative` | main.ts:122-128 | After any sequence of edits to the field, the interval is non-negative. It is either the starting value or one of the values typed. |
| `Debounce.WritePointer` | main.ts:49-77 | No contract of its own: `writePointer` on the state value, appending the file change `WriteFor` gives. `NothingToWrite`, `TornWriteIsRepairedByNextWrite` and `Coalescing` state what it does. |
| `Debounce.WritePointerDebounced` | main.ts:44-47 | No contract of its own: clears the held timer, arms a fresh handle and holds it. `BurstArmsOnlyLast` and `AtMostOnePending` state what it leads to. |
| `Debounce.OnUnload` | main.ts:40-42 | No contract of its own: clears the held timer and keeps the field. `UnloadStopsWrites` states what it leads to. |
| `Debounce.Step` | main.ts:32-47 | No contract of its own: the effect of one event. `StepInv` states the invariant it keeps, and the trace lemmas below state what sequences of steps do. |
| `Debounce.InitInv` | main.ts:21 | The initial state has no timer and no pending callback, writes nothing and satisfies the invariant. |
| `Debounce.StepInv` | main.ts:33-47 | Every event keeps the invariant: the only timer the host can still run is the one `debounceTimer` holds, and its handle has been handed out. The write log only grows. |
| `Debounce.RunInv` | main.ts:33-47 | The invariant holds after any sequence of events, and earlier writes are never changed. |
| `Debounce.AtMostOnePending` | main.ts:44-47 | From the initial state, after any sequence of events, the host holds at most one of the plugin's timers. |
| `Debounce.BurstArmsOnlyLast` | main.ts:44-47 | A burst of `keyup`/`mouseup` events writes nothing. It leaves pending exactly the timer of its last event, with the handle `debounceTimer` holds. |
| `Debounce.QuietWritesAtMostPending` | main.ts:40-47 | Timer firings and unloads add at most as many writes as there were pending timers. They never arm new ones and never change earlier writes. |
| `Debounce.Coalescing` | main.ts:44-66 | After a burst of n >= 1 debounced triggers, the firing of the last timer adds exactly one write. Its content is the record built from the workspace state at fire time. Nothing that follows without a new trigger or focus change writes again. |
| `Debounce.SupersededTimerDoesNothing` | main.ts:44-47 | After a burst, a timer armed before it, or by any trigger of it except the last, changes nothing when the host reaches it. |
| `Debounce.LeafChangeKeepsPendingTimer` | main.ts:32-47 | After a burst, a focus change writes at once. The pending timer is not cancelled and writes a second time, with the state at its own fire time. |
| `Debounce.RepeatedWriteIsIdentical` | main.ts:49-73 | Writing the same workspace state twice gives two identical writes of that state's serialised record. |
| `Debounce.NothingToWrite` | main.ts:49-76 | With no markdown view, or no file, or a write that fails before the file is opened, a focus change leaves the whole state unchanged, and a timer firing adds no change to the file. |
| `Debounce.TornWriteIsRepairedByNextWrite` | main.ts:72-76 | A write that fails after the file was opened leaves a prefix of the record's content, exactly `kept` characters long when it stopped early. The next successful write puts a whole record back. |
| `Debounce.UnloadStopsWrites` | main.ts:40-42 | After `onunload`, no later timer firing writes anything. |
| `Plugin.ActiveNoteSettings.constructor` | main.ts:14-17 | The settings start with an empty pointer path and an interval of 300. |
| `Plugin.ActiveNotePlugin.constructor` | main.ts:19-38 | A loaded plugin has no timer, no pending callback and an empty write log, with default settings. |
| `Plugin.ActiveNotePlugin.PointerFilePath` | main.ts:23-25 | No contract of its own: the getter is `Config.ResolvePointerPath` of the stored setting and the configuration directory, whose contract states the fallback. |
| `Plugin.ActiveNotePlugin.WritePointer` | main.ts:49-77 | The imperative record building and write append exactly `Debounce.WritePointer`'s file change. There is nothing without a file or after a failure before the open. A failure after the open leaves a prefix. Otherwise the change is the serialised `BuildSnapshot` record at the resolved pointer path. |
| `Plugin.ActiveNotePlugin.WritePointerDebounced` | main.ts:44-47 | Clears the held timer, arms a fresh handle and holds it, as `Debounce.WritePointerDebounced` says. The invariant is kept. |
| `Plugin.ActiveNotePlugin.OnLeafChange` | main.ts:32-34 | The `active-leaf-change` handler is one `Step` with that event. |
| `Plugin.ActiveNotePlugin.OnKeyUp` | main.ts:36 | The `keyup` handler is one `Step` with that event. |
| `Plugin.ActiveNotePlugin.OnMouseUp` | main.ts:37 | The `mouseup` handler is one `Step` with that event. |
| `Plugin.ActiveNotePlugin.TimerFires` | main.ts:46 | A timer callback that is still armed writes once and disarms. Any other firing changes nothing. `debounceTimer` is left as it was. |
| `Plugin.ActiveNotePlugin.OnUnload` | main.ts:40-42 | `onunload` leaves no timer pending. It is one `Step` with `Unload`. |
| `Plugin.ActiveNoteSettingTab.constructor` | main.ts:91-94 | The tab holds the plugin whose settings it changes. |
| `Plugin.ActiveNoteSettingTab.OnPointerFilePathChange` | main.ts:109-112 | Stores the typed path, leaves the interval alone, and the plugin then resolves the path from that value. |
| `Plugin.ActiveNoteSettingTab.OnDebounceChange` | main.ts:122-128 | The interval becomes `AcceptDebounce` of its old value and the parsed input. It is saved exactly when that input is a number at least 0. The path is left alone. |

## Left out

- File I/O:
  - `FileSystemAdapter.getBasePath`, `path.join` and `fs.writeFileSync` (main.ts:68-73) are host I/O. A write is an entry in a log of file changes, made of the vault-relative pointer path and what the file then holds.
  - How the write ends is an input: success, a failure before the file is opened, or a failure after it with the number of characters that reached the file.
  - Characters are counted, not UTF-8 bytes.
  - The `console.error` report of a failed write (main.ts:75) is not modelled.
- Real time: `setTimeout`/`clearTimeout` delays and the `debounceMs` value passed to them are not modelled. The host running a timer's callback is an explicit event naming the handle.
- Host event plumbing:
  - `registerEvent` and `registerDomEvent` (main.ts:32-37) are host APIs and are not modelled.
  - The host detaches their handlers on unload. `Debounce.UnloadStopsWrites` therefore only considers timer firings and unloads after `onunload`.
- Host queries:
  - `getActiveViewOfType`, `getSelection` and `getCursor` are inputs: the `View` value.
  - The cursor's column is not used by the code, so it is not modelled.
  - The model does not assume `from <= to`.
- Trace lemmas fix the pointer path: the lemmas about sequences of events keep it the same for the whole sequence. The class handlers read it at each write.
- Settings persistence: `loadSettings`/`saveSettings`, `loadData`/`saveData` and the merge of saved data into the defaults are not modelled. The plugin starts from the defaults, and `OnDebounceChange` only reports whether it would save.
- Settings UI: the rest of `ActiveNoteSettingTab.display`, `addSnippetBlock`, the two snippet texts, the clipboard and `Notice` (main.ts:96-177) are user interface.
- `parseInt`: its parsing is the library's. Its result is an input, with None for NaN.
- `JSON.stringify` limits:
  - Lone UTF-16 surrogates, which it writes as `\uXXXX`, cannot occur in Dafny strings: their characters are Unicode scalar values.
  - Line numbers are unbounded integers. JavaScript numbers are exact only up to 2^53 and print in exponent form from 10^21.
- `Json.Parse` is a partner for the round trip, not a general JSON reader. It accepts exactly the contents the serialiser writes and rejects all other JSON: white space, other member orders, `\/`, upper-case hex digits, `\uXXXX` for characters that are written raw, and leading zeros.
