# flow dev decoder popup, modelled in Dafny

The browser-extension popup turns a percent-encoded JSON string into formatted
JSON. It remembers what it was showing in `chrome.storage.session`, so that a
reopened popup comes back in the same state. It also has a small toast
notification queue. This project models four parts of it:

- **The state store** (`popup/js/state.js`): the in-memory record of four
  fields (`currentText`, `originalInput`, `isDecoded`, `hasResult`). It is
  merged with JavaScript object spread and mirrored to session storage, either
  at once or through a 300 ms debounce.
- **The view helpers** (`popup/js/ui.js`): the status label and its 1000 ms
  hide timer, the storage-status indicator, the textarea/output toggle, and
  `restoreUI`.
- **The event handlers** (`popup/js/events.js`): decode, copy, reset, typing,
  the textarea click and the output click. Ctrl/Cmd+Enter calls the same
  decode handler.
- **The toast manager** (`popup/js/toast-system.js`): an insertion-ordered map
  of toasts, the five-toast limit, dismissal with a 300 ms exit delay, and
  `dismissAll`.

Layout, one module per file:

- `wrappers.dfy`: `Option`, `Result` and `Outcome`.
- `constants.dfy`: the status display time and the four storage keys.
- `text.dfy`: JavaScript `trim()` and `||` on strings.
- `record.dfy`: the record, partial records, spread, and the storage entries
  a partial becomes.
- `storage.dfy`: session storage as a class over a map.
- `ui.dfy`, `state.dfy`, `toasts.dfy`, `events.dfy`: the four source files.

Objects the source mutates are classes: `StateManager`, `ToastManager`, the
view, the status label, the indicator, session storage, and the popup that
owns them. Their `modifies` clauses name the fields each method may change,
and their postconditions state the new value of each of those fields. For
the status label they state the list of messages shown, and
`Ui.StatusLabel.ShowsLatest` ties its text, visibility and hide timer to the
last of them, or to their old values when nothing was shown. The
pure parts are functions with lemmas about them.

The environment is passed in as parameters:

- Every storage call and the clipboard write take an `ok` flag: the call
  succeeds or throws.
- `decodeURIComponent` and the `JSON.parse` + `JSON.stringify(…, null, 4)`
  step are partial functions returning `Result`.
- Each pending `setTimeout` is a field that holds what the timer will do. A
  `Fire…` method is that timer going off.

The main properties:

- **Storage round trip.** What a write stores reads back as the written
  partial record: `EntriesRoundTrip`, `EntriesMerge`.
- **Flags stay in sync.** Every handler keeps `isDecoded ==> hasResult` in
  memory once it holds (`Popup.Consistent`). The handlers are specified from
  any state, since a popup reopened on stale storage can start without it.
  While every write succeeds, memory and storage agree on both flags,
  so a reopened popup keeps the invariant: `WriteKeepsFlags`,
  `ReloadKeepsInvariant`, and the `FlagsPersisted` ensures of each handler.
- **Decode covers every path.** Decode is specified on each of them: blank
  input, success, failed write, JSON error with the percent-decoding fallback,
  and failure of both.
- **Toast queue invariant.** Keys are distinct. A toast is exiting exactly
  when its deletion is pending. An exiting toast has no auto-dismiss timer.
  A second dismiss leaves the map as the first left it but queues another
  deletion, which then removes nothing. `dismissAll` exits every toast
  present at the call.

## Model

| member | source | states |
|---|---|---|
| Text.Trim | popup/js/events.js:63 | `trim()` leaves nothing exactly when the text is all ECMAScript white space, and a non-empty result neither starts nor ends with white space |
| Text.TrimCutsWhiteSpace | popup/js/events.js:63 | the trimmed text is the original with only white space cut from its two ends |
| Record.Overlay | popup/js/state.js:42 | `{ ...s, ...p }`: every key present in the partial wins, every other field keeps its value |
| Record.OverlayCombine | popup/js/state.js:56 | two spreads in a row equal one spread of the combined partial |
| Record.OverlayIdempotent | popup/js/state.js:42 | applying the same update twice gives the record the first application gave |
| Record.OverlayComplete | popup/js/events.js:29-34 | a write of all four keys fixes the whole record, whatever it held before |
| Record.Entries | popup/js/state.js:44 | `set(p)` stores one entry per key present in `p`, under the four storage key names and no others |
| Record.FromEntries | popup/js/state.js:26-27 | the stored entries read back as a partial record: a field is present exactly when its key holds a value of the field's type, and then holds that value |
| Record.Restrict | popup/js/state.js:26 | `get(keys)` returns exactly the stored entries whose keys were asked for |
| Record.StorageKeysDistinct | popup/js/constants.js:8-13 | the four storage key names are pairwise different |
| Record.EntriesRoundTrip | popup/js/state.js:26-44 | reading back what `set(p)` wrote gives `p` |
| Record.EntriesMerge | popup/js/state.js:26-44 | writing `p` over stored entries and reading back lets `p`'s keys win over what was read before |
| Record.RestrictToKeys | popup/js/state.js:26 | reading only the four keys loses nothing the record is made of |
| Storage.SessionStorage.Get | popup/js/state.js:26 | a successful read returns the stored entries of the asked keys; a failed one returns nothing |
| Storage.SessionStorage.Set | popup/js/state.js:44 | a successful write adds or replaces the given entries and keeps every other; a failed one changes nothing |
| Storage.SessionStorage.Clear | popup/js/state.js:88 | a successful clear empties the store; a failed one changes nothing |
| Ui.RestoredText | popup/js/ui.js:72-76 | the restored textarea shows the current text when decoded, else the original input, or the current text when there is none |
| Ui.RestoredTextFromRecord | popup/js/ui.js:72-76 | the restored text is always one of the two text fields, and is empty exactly when the field it comes from is empty |
| Ui.ShowsOutputWhenDecoded | popup/js/ui.js:79 | under `isDecoded ==> hasResult` the output view is restored exactly when the record is decoded |
| Ui.IndicatorClass | popup/js/ui.js:19-23 | the indicator keeps class "saving" or "saved" for those two statuses and no class for any other status |
| Ui.View.ToggleOutput | popup/js/ui.js:56-59 | exactly one of textarea and output is shown afterwards, the output exactly when asked for |
| Ui.View.RestoreUI | popup/js/ui.js:65-86 | the textarea gets the restored text; the output view, filled with the current text, is shown exactly when the record has a result and is decoded |
| Ui.StatusLabel.Show | popup/js/ui.js:36-45 | the label shows the message, the previous hide timer is replaced by one of 1000 ms, and the message is appended to the shown history |
| Ui.StatusLabel.FireHide | popup/js/ui.js:45-49 | the hide timer empties and hides the label |
| Ui.StorageIndicator.Update | popup/js/ui.js:11-30 | the pending revert is cancelled, the class becomes that of the status, and only "saved" schedules a new 1000 ms revert |
| Ui.StorageIndicator.FireHide | popup/js/ui.js:26-28 | the revert timer clears the class |
| State.ReloadKeepsInvariant | popup/js/state.js:24-29 | a popup reopened on a store that agrees with memory on the flags starts with `isDecoded ==> hasResult` |
| State.WriteKeepsFlags | popup/js/state.js:41-44 | a successful `update` keeps memory and storage in agreement on both flags |
| State.TextWriteKeepsFlags | popup/js/state.js:55-64 | a partial without flags, written or lost, cannot disturb the flags' agreement |
| State.ClearedStoreReloadsDefaults | popup/js/state.js:79-88 | an emptied store reopens as the default record |
| State.StateManager.constructor | popup/js/state.js:10-18 | a new store holds the default record, is not loaded and has no pending write |
| State.StateManager.Load | popup/js/state.js:24-35 | stored keys win over the current record; a failed read keeps the record and reports the load error; `isLoaded` is set either way |
| State.StateManager.Update | popup/js/state.js:41-49 | memory takes the partial before the write and keeps it when the write fails; storage gets exactly the partial's entries; a failure reports the save error |
| State.StateManager.UpdateDebounced | popup/js/state.js:55-62 | memory takes the partial at once; the pending write is replaced by one of this partial alone |
| State.StateManager.FireSaveTimer | popup/js/state.js:62-73 | the pending partial is written; the indicator shows "saved" on success and no class on failure; no write is pending afterwards |
| State.StateManager.Clear | popup/js/state.js:79-93 | memory goes back to the defaults even when clearing storage fails; a failure reports the clear error |
| State.StateManager.Get | popup/js/state.js:99-101 | returns the in-memory record |
| Toasts.ShowConfig | popup/js/toast-system.js:36-42 | each option the caller gives wins; missing ones default to info, 1000 ms, not persistent, dismissible |
| Toasts.ShowDefaults | popup/js/toast-system.js:36-42 | with no options a toast is an auto-dismissing, dismissible info toast of 1000 ms |
| Toasts.ConvenienceConfigs | popup/js/toast-system.js:51-65 | error and warning force their type and their 2000/1500 ms duration; success and info force only the type; the other options are the caller's |
| Toasts.Icon | popup/js/toast-system.js:132-145 | each known type has its own glyph and every other type gets the info glyph |
| Toasts.NewToast | popup/js/toast-system.js:115-125 | a new toast is not exiting and has an auto-dismiss timer of its duration exactly when it is neither persistent nor of non-positive duration |
| Toasts.Find | popup/js/toast-system.js:169-170 | the lookup finds the first toast with the id, and finds nothing exactly when the id is not a key |
| Toasts.MarkExiting | popup/js/toast-system.js:168-176 | dismissing keeps the keys and their order, exits the toast with the id and no other, and changes nothing for an unknown id |
| Toasts.MarkExitingAt | popup/js/toast-system.js:168-176 | with distinct keys, dismissing the key at a position exits exactly the toast at that position |
| Toasts.ExitAll | popup/js/toast-system.js:186-188 | after `dismissAll` every toast that was present is exited, in the same order |
| Toasts.Exited | popup/js/toast-system.js:172-176 | a dismissed toast keeps its id, message and configuration, has no pending timer and is marked exiting |
| Toasts.Remove | popup/js/toast-system.js:182 | `delete(id)` never makes the map longer; what it keeps is stated by the lemmas below |
| Toasts.RemoveMembers | popup/js/toast-system.js:182 | `delete(id)` keeps every toast with another id and no toast with this one |
| Toasts.RemoveKeepsDistinct | popup/js/toast-system.js:182 | deleting keeps the keys distinct |
| Toasts.RemoveAt | popup/js/toast-system.js:182 | with distinct keys, deleting a present key removes exactly that entry and keeps the order of the rest |
| Toasts.RemoveAbsent | popup/js/toast-system.js:182 | deleting an absent key changes nothing |
| Toasts.RemoveTwice | popup/js/toast-system.js:178-183 | a second deletion timer for the same id removes nothing more |
| Toasts.DismissTwice | popup/js/toast-system.js:168-176 | dismissing a toast again before its deletion leaves the map as the first dismissal left it |
| Toasts.Evicted | popup/js/toast-system.js:149-152 | below five toasts the map is unchanged; at five or more exactly the first toast is exited; keys and their order stay |
| Toasts.EvictionKeepsCap | popup/js/toast-system.js:147-154 | at most five toasts stay live after a `show` when at most five were live and the evicted first toast was still live |
| Toasts.EvictionCanExceedCap | popup/js/toast-system.js:149-152 | when the first key is already exiting, a sixth live toast appears: the limit does not bound live toasts |
| Toasts.ToastManager.constructor | popup/js/toast-system.js:7-13 | a new manager has no toasts and no pending deletion |
| Toasts.ToastManager.Show | popup/js/toast-system.js:35-48 | the map becomes the evicted old map plus the new toast, whose fresh id is returned and is the last key; the id counter advances by one; at the limit the first key's deletion is scheduled |
| Toasts.ToastManager.Success | popup/js/toast-system.js:51-53 | shows a toast of the caller's options with type success: the fresh id is returned, the map and the deletion queue change as for `show` |
| Toasts.ToastManager.Error | popup/js/toast-system.js:55-57 | shows a toast of the caller's options with type error and 2000 ms: the fresh id is returned, the map and the deletion queue change as for `show` |
| Toasts.ToastManager.Warning | popup/js/toast-system.js:59-61 | shows a toast of the caller's options with type warning and 1500 ms: the fresh id is returned, the map and the deletion queue change as for `show` |
| Toasts.ToastManager.Info | popup/js/toast-system.js:63-65 | shows a toast of the caller's options with type info: the fresh id is returned, the map and the deletion queue change as for `show` |
| Toasts.ToastManager.CreateToast | popup/js/toast-system.js:67-130 | the new toast gets the next fresh id and its configuration's timer |
| Toasts.ToastManager.AddToast | popup/js/toast-system.js:147-166 | at five or more toasts the first key is dismissed; the new toast always goes last |
| Toasts.ToastManager.Dismiss | popup/js/toast-system.js:168-184 | an unknown id changes nothing; a known one is exited, its timer cleared and its deletion scheduled |
| Toasts.ToastManager.DismissAll | popup/js/toast-system.js:186-188 | every toast present at the call is exited, and one deletion per key is scheduled in key order |
| Toasts.ToastManager.FireAutoDismiss | popup/js/toast-system.js:123-125 | a toast's own timer going off dismisses that toast |
| Toasts.ToastManager.FireDeletion | popup/js/toast-system.js:178-183 | the oldest pending deletion removes its id from the map, and the queue invariant still holds |
| Events.TryFormat | popup/js/events.js:20-22 | a failed percent-decoding is the error; otherwise the result is the JSON step applied to the decoded text |
| Events.InputPartial | popup/js/events.js:90-92 | typing always writes the text, and also writes it as the original input exactly when the view is not decoded; it never writes a flag |
| Events.HandlersKeepInvariant | popup/js/events.js:29-126 | every handler's write, and the defaults, keep `isDecoded ==> hasResult`; the output click only under its guard |
| Events.OutputClickNeedsGuard | popup/js/events.js:121 | without the `hasResult` guard the output click would break the invariant |
| Events.Popup.Decode | popup/js/events.js:9-54 | blank input only shows "입력 값이 없습니다"; success shows the formatted JSON and writes all four fields; each failure path ends in the fallback write or "디코딩 실패", with the messages shown in order and the label left showing the last one (unchanged on success) |
| Events.Popup.ShowFormatted | popup/js/events.js:24-34 | the formatted text fills textarea and output, the output is shown, and the decoded record is written |
| Events.Popup.Recover | popup/js/events.js:36-53 | the error is shown; the textarea at that point is percent-decoded and written as not decoded, or "디코딩 실패" follows when decoding or writing throws, and the label is left showing the last message |
| Events.Popup.Input | popup/js/events.js:86-95 | the typed text reaches memory at once and storage only through the debounced write |
| Events.Popup.SaveTimerFires | popup/js/state.js:62-73 | the debounced write leaves memory as it was and the flags in agreement whatever its outcome |
| Events.Popup.TextareaClick | popup/js/events.js:97-114 | a click while the textarea itself is shown changes nothing; only while the output is shown, the textarea goes back to the original input and is shown, marked not decoded; the output pane's text is untouched; a failed write shows the save error |
| Events.Popup.OutputClick | popup/js/events.js:116-132 | a click while the output pane itself is shown changes nothing; only while the textarea is shown and a non-empty result exists, the textarea takes the result and the output pane is shown with the text it already held, marked decoded; a failed write shows the save error |
| Events.Popup.Copy | popup/js/events.js:62-72 | blank text requests no copy; otherwise the trimmed text is requested; exactly one message reports the outcome and is left on the label with a fresh hide timer |
| Events.Popup.Reset | popup/js/events.js:74-84 | the view is emptied and memory goes back to the defaults; the reset message or the clear error is left on the label |
| Events.StaleFlagsAfterFailedWrite | popup/js/events.js:29-126 | a failed decode write whose formatted JSON cannot be percent-decoded again, then successful textarea and output clicks, leave storage that reopens as decoded without a result (the clicks go to hidden elements) |
| Events.OutputPaneKeepsOldText | popup/js/events.js:116-126 | after a decode, a textarea click and typing, an output click leaves the pane showing the earlier decoded text while the textarea holds the new one (the clicks go to hidden elements) |
| Events.DebounceOverwritesDecodedText | popup/js/state.js:55-73 | typing then decoding before the debounce fires: the pending write stores the raw input over the decoded text, and a reopened popup shows it as the decoded output |
| Events.DebounceLosesOriginalInput | popup/js/state.js:55-73 | a debounced write replaced before it fires loses the original input it carried: memory and a reopened popup disagree (the clicks and the last typing go to hidden elements) |
| Events.ResetKeepsPendingWrite | popup/js/events.js:74-84 | a reset does not cancel a pending debounced write, so a reopened popup finds the text typed before the reset |

## Where the code and the documented design differ

The model follows the code in each case below.

- **Eviction.** The design says at most five toasts are shown. `addToast`
  dismisses the first key even when that toast is already exiting, so six
  toasts can be live at once (`Toasts.EvictionCanExceedCap`). The cap holds
  only while the first key is live (`Toasts.EvictionKeepsCap`).
- **Repeated dismiss.** The design calls dismissing an already dismissed
  toast a no-op. `dismiss` finds the exiting toast still in the map and
  schedules a second deletion timer for it (`popup/js/toast-system.js:168-184`,
  `Toasts.ToastManager.Dismiss`). The map is left as the first dismissal left
  it (`Toasts.DismissTwice`), and the extra deletion removes nothing
  (`Toasts.RemoveTwice`), so only the queue of pending deletions grows.
- **Status messages on decode failure.** The design says a failed decode
  shows one status message. The code shows the error and then "디코딩 실패"
  when the fallback cannot decode either, or when its write fails
  (`Events.Popup.Recover`).
- **Click guards test the other element.** The textarea's click handler acts
  only while the output pane is displayed (`popup/js/events.js:98`), and the
  output pane's handler only while the textarea is displayed
  (`popup/js/events.js:117`). `toggleOutput` always displays exactly one of
  the two and hides the other (`popup/js/ui.js:56-59`), and a browser sends no
  click to an element with `display: none`. So once `toggleOutput` has run,
  no click a user makes runs either handler's body: a click on the shown
  element changes nothing (the `old(view.textareaVisible)` clause of
  `Events.Popup.TextareaClick` and the `old(view.outputVisible)` clause of
  `Events.Popup.OutputClick`). The evident intent is the other way round:
  clicking the decoded output goes back to the original input, and clicking
  the textarea shows the result again.
- **Stored flags after a failed write.** The design says a loaded record
  keeps `isDecoded ==> hasResult`. The handler code breaks that as follows,
  though step 2 needs a click on the hidden output pane, so no user can
  produce it while the guards stay as they are:
  1. A decode whose four-field write fails keeps `hasResult` in memory only,
     provided the `catch` block's percent-decoding of the formatted JSON
     throws (`popup/js/events.js:40-41`), as it does on a lone `%` such as
     the one in `{"a":"%"}`. When that decoding succeeds, the fallback write
     of `isDecoded: false, hasResult: false` resets memory through the
     optimistic merge (`popup/js/state.js:42`), whatever storage does.
  2. A later output click writes `isDecoded: true` on its own.
  3. A reopened popup then starts decoded without a result.

  `Events.StaleFlagsAfterFailedWrite` walks through this, with the two clicks
  sent to hidden elements as the model allows. While every write
  succeeds, the invariant does carry over (`State.WriteKeepsFlags`,
  `State.ReloadKeepsInvariant`).
- **Output pane after an output click.** The output click puts the stored
  result back into the textarea and shows the output pane, but never
  refreshes the pane's text (`popup/js/events.js:122-123`). After a textarea
  click and some typing, the pane shows the last decoded output, not the
  text just marked decoded (`Events.Popup.OutputClick`,
  `Events.OutputPaneKeepsOldText`). Both clicks go to hidden elements here,
  so this too is what the handler bodies do, not something a user can
  produce.
- **Debounced writes.** A decode does not cancel the pending debounced write
  of the typed text. Pasting `%31` and pressing Ctrl+Enter within 300 ms
  decodes and stores `1` as a decoded result; then the timer stores the raw
  `%31` as `currentText` over it, with both flags still set. Memory holds `1`,
  but a reopened popup shows `%31` in the output pane as if it were the
  decoded result (`Events.DebounceOverwritesDecodedText`).
  A new `updateDebounced` also replaces the pending write, so an
  `originalInput` that only the replaced write carried never reaches storage
  (`Events.DebounceLosesOriginalInput`). That trace needs both clicks and
  typing into the hidden textarea, so no user produces it as the guards
  stand.
- **Reset.** `reset` does not cancel a pending debounced write, so the text
  typed before a reset comes back after a reopen
  (`Events.ResetKeepsPendingWrite`).

## Left out

- **Rendering and browser APIs.** The model leaves out DOM creation and
  styling, `injectStyles`, the toast container, enter and exit animations,
  focus handling, ARIA attributes, `hljs` highlighting and `console.error`
  logging. None of them changes the modelled state.
- **Toast ids.** The source builds ids from `Date.now()` and
  `Math.random()`. The model uses a counter, so ids are unique by
  construction; the source's ids are only unique with high probability.
- **Timer ordering.** Timers are pending fields, and the environment decides
  which one fires. Only the relative order of deletion timers is fixed: they
  all have the same 300 ms delay, so they fire first-in first-out. Real
  elapsed time is not modelled, and neither are the 300 ms debounce and exit
  delays as values: a pending save or deletion holds what it will do, not
  when.
- **Atomic handlers.** Each handler runs without interruption. Another event
  arriving during an `await` is not modelled.
- **Debounce handle race.** The debounce callback sets its handle to `null`
  after its `await`. If another `updateDebounced` starts meanwhile, its handle
  is lost. `State.StateManager.FireSaveTimer` simply clears the pending write.
- **Encoding and JSON.** `decodeURIComponent`, `JSON.parse` and
  `JSON.stringify` are foreign partial functions given as parameters. Their
  own behaviour is not modelled.
- **Clipboard.** The clipboard write is an outcome flag, and its promise
  settles within the copy handler.
- **Element visibility.** It is two booleans that `toggleOutput` sets. The
  original starts from its HTML, which is not part of this model; the view
  starts with the textarea shown. After any `toggleOutput`, the click guards
  on `style.display` are exactly these booleans. The model does not restrict
  events to visible elements: any handler can be called in any state, so it
  also covers clicks and typing that a browser would never deliver to a
  hidden element. The README says which scenarios rely on such events.
- **Popup start-up.** The start-up sequence in the popup's entry script,
  which calls `load` and then `restoreUI`, is not part of this model.
  `State.Reloaded` stands for a store that has just loaded.
- Toasts.Icon: does not model type names that are properties of
  `Object.prototype` (such as "constructor"), for which `iconMap[type]` finds
  a non-string value.
- Toasts.ShowConfig: an option key the caller sets to `undefined` still
  overrides its default in the source. The model treats it as a missing key.
- Toasts.ShowConfig: durations are integers and the `persistent` and
  `dismissible` flags are booleans. The source takes any JavaScript value
  there: a fractional duration, `NaN`, `Infinity` or a string such as
  `"1000"` goes through JavaScript's number and truthiness coercions at the
  `duration > 0` test and in `setTimeout`. Those coercions are not modelled.
- Record.FromEntries: a stored value of the wrong type for its key is
  ignored. In the source it would override the field, but only the popup
  writes these keys, and it always writes the right type.
