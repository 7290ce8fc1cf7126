/**
 * popup/js/events.js: the user-action handlers, as methods of a `Popup` that
 * owns the state store, the view and the status label. `decodeURIComponent`
 * and the JSON parse-and-format step are foreign calls passed in as partial
 * functions; every storage and clipboard outcome is passed in as a flag.
 */
module Events {
  import opened Wrappers
  import opened Constants
  import opened Record
  import opened Text
  import opened Storage
  import opened Ui
  import opened State

  const NoInputMessage := "입력 값이 없습니다"
  const ErrorPrefix := "오류: "
  const DecodeFailedMessage := "디코딩 실패"
  const NothingToCopyMessage := "복사할 내용이 없습니다"
  const CopiedMessage := "클립보드에 복사되었습니다"
  const CopyFailedMessage := "복사 실패"
  const ResetMessage := "상태가 초기화되었습니다"

  /** A foreign call that returns a string or throws an error with a message. */
  type Foreign = string -> Result<string>

  /** The `try` block of `decodeAndFormatJSON` up to its write: percent-decode, then parse and format with four spaces. */
  function TryFormat(raw: string, decodeUri: Foreign, formatJson: Foreign): (r: Result<string>)
    ensures decodeUri(raw).Failure? ==> r == decodeUri(raw)
    ensures decodeUri(raw).Success? ==> r == formatJson(decodeUri(raw).value)
  {
    match decodeUri(raw)
    case Failure(m) => Failure(m)
    case Success(d) => formatJson(d)
  }

  /** What a successful decode writes. */
  function DecodedPartial(raw: string, formatted: string): Partial {
    Partial(Some(formatted), Some(raw), Some(true), Some(true))
  }

  /** What the `catch` block writes once percent-decoding alone succeeds. */
  function FallbackPartial(input: string, decoded: string): Partial {
    Partial(Some(decoded), Some(input), Some(false), Some(false))
  }

  /** What the input handler writes: the typed text, and as the original input too unless the view is decoded. */
  function InputPartial(isDecoded: bool, value: string): (p: Partial)
    ensures p.currentText == Some(value)
    ensures p.originalInput.Some? <==> !isDecoded
    ensures p.originalInput.Some? ==> p.originalInput.value == value
    ensures TextOnly(p)
  {
    if isDecoded then Partial(Some(value), None, None, None)
    else Partial(Some(value), Some(value), None, None)
  }

  /** What the textarea click writes: back to the raw input, no longer decoded. */
  function TextareaClickPartial(s: PersistedState): Partial {
    Partial(Some(Or(s.originalInput, "")), None, Some(false), None)
  }

  /** What the output click writes. */
  const OutputClickPartial := Partial(None, None, Some(true), None)

  /** The output click's guard on the record: a result exists and the current text is not empty. */
  predicate OutputClickApplies(s: PersistedState) {
    s.hasResult && s.currentText != ""
  }

  /** Every handler's write keeps `isDecoded ==> hasResult` in memory, and so does `clear`. */
  lemma HandlersKeepInvariant(s: PersistedState, raw: string, formatted: string, input: string, decoded: string, value: string)
    requires DecodedHasResult(s)
    ensures DecodedHasResult(Overlay(s, DecodedPartial(raw, formatted)))
    ensures DecodedHasResult(Overlay(s, FallbackPartial(input, decoded)))
    ensures DecodedHasResult(Overlay(s, InputPartial(s.isDecoded, value)))
    ensures DecodedHasResult(Overlay(s, TextareaClickPartial(s)))
    ensures OutputClickApplies(s) ==> DecodedHasResult(Overlay(s, OutputClickPartial))
    ensures DecodedHasResult(Defaults)
  {
  }

  /** Without its guard the output click would break the invariant. */
  lemma OutputClickNeedsGuard()
    ensures !DecodedHasResult(Overlay(Defaults, OutputClickPartial))
  {
  }

  class Popup {
    const store: StateManager
    const view: View
    const status: StatusLabel

    /** The view shows one element and a pending debounced write touches no flag: no handler can break either. */
    ghost predicate Valid()
      reads this, store, view
    {
      && view.Valid()
      && (store.saveTimer.Some? ==> TextOnly(store.saveTimer.value))
    }

    /**
     * Memory keeps `isDecoded ==> hasResult`. Every handler keeps this once it
     * holds, but a popup reopened on storage that breaks it starts without it.
     */
    ghost predicate Consistent()
      reads this, store
    {
      DecodedHasResult(store.currentState)
    }

    /** A popup opened on `storage`, with the store not loaded yet. */
    constructor(storage: SessionStorage)
      ensures Valid() && Consistent()
      ensures fresh(store) && fresh(store.indicator) && fresh(view) && fresh(status)
      ensures store.storage == storage && store.currentState == Defaults && !store.isLoaded && store.saveTimer == None
      ensures view.textarea == "" && view.textareaVisible && status.shown == []
    {
      var indicator := new StorageIndicator();
      store := new StateManager(storage, indicator);
      view := new View();
      status := new StatusLabel();
    }

    /**
     * `decodeAndFormatJSON`. Blank input only shows a message. Otherwise the
     * textarea is decoded and formatted and all four fields written; if that
     * throws, the message is shown and the textarea at that point is
     * percent-decoded alone and written as not decoded, or, when that throws
     * too, "디코딩 실패" follows.
     */
    method Decode(decodeUri: Foreign, formatJson: Foreign, writeOk: bool, retryOk: bool)
      requires Valid()
      modifies store`currentState, store.storage, view, status
      ensures status.ShowsLatest(old(status.shown), old(status.text), old(status.visible), old(status.hideTimer))
      ensures Valid()
      ensures old(Consistent()) ==> Consistent()
      ensures store.saveTimer == old(store.saveTimer)
      ensures IsBlank(old(view.textarea)) ==>
        && store.currentState == old(store.currentState)
        && store.storage.data == old(store.storage.data)
        && view.textarea == old(view.textarea)
        && view.output == old(view.output) && view.outputVisible == old(view.outputVisible)
        && status.shown == old(status.shown) + [NoInputMessage]
      ensures var raw := old(view.textarea);
        var tried := TryFormat(raw, decodeUri, formatJson);
        !IsBlank(raw) && tried.Success? && writeOk ==>
          && store.currentState == PersistedState(tried.value, raw, true, true)
          && store.storage.data == old(store.storage.data) + Entries(DecodedPartial(raw, tried.value))
          && view.textarea == tried.value
          && status.shown == old(status.shown)
      ensures var raw := old(view.textarea);
        var tried := TryFormat(raw, decodeUri, formatJson);
        !IsBlank(raw) ==>
          if tried.Success? then view.output == Trim(tried.value) && view.outputVisible
          else view.output == old(view.output) && view.outputVisible == old(view.outputVisible)
      ensures var raw := old(view.textarea);
        var tried := TryFormat(raw, decodeUri, formatJson);
        var message := if tried.Success? then SaveErrorMessage else tried.error;
        var input := if tried.Success? then tried.value else raw;
        !IsBlank(raw) && !(tried.Success? && writeOk) && decodeUri(input).Success? ==>
          var decoded := decodeUri(input).value;
          && store.currentState == PersistedState(decoded, input, false, false)
          && store.storage.data == (if retryOk then old(store.storage.data) + Entries(FallbackPartial(input, decoded)) else old(store.storage.data))
          && view.textarea == decoded
          && status.shown == old(status.shown) + [ErrorPrefix + message] + (if retryOk then [] else [DecodeFailedMessage])
      ensures var raw := old(view.textarea);
        var tried := TryFormat(raw, decodeUri, formatJson);
        var message := if tried.Success? then SaveErrorMessage else tried.error;
        var input := if tried.Success? then tried.value else raw;
        !IsBlank(raw) && !(tried.Success? && writeOk) && decodeUri(input).Failure? ==>
          && store.currentState == (if tried.Success? then PersistedState(input, raw, true, true) else old(store.currentState))
          && store.storage.data == old(store.storage.data)
          && view.textarea == input
          && status.shown == old(status.shown) + [ErrorPrefix + message, DecodeFailedMessage]
      ensures writeOk && retryOk && old(store.FlagsPersisted()) ==> store.FlagsPersisted()
    {
      var raw := view.textarea;
      if IsBlank(raw) {
        status.Show(NoInputMessage);
        return;
      }
      var message: string;
      var decodedData := decodeUri(raw);
      if decodedData.Failure? {
        message := decodedData.error;
      } else {
        var formatted := formatJson(decodedData.value);
        if formatted.Failure? {
          message := formatted.error;
        } else {
          var written := ShowFormatted(raw, formatted.value, writeOk);
          if written.Pass? {
            return;
          }
          message := written.error;
        }
      }
      Recover(decodeUri, message, retryOk);
    }

    /** The end of the `try` block of `decodeAndFormatJSON`: the formatted text is shown, then all four fields are written. */
    method ShowFormatted(raw: string, formatted: string, writeOk: bool) returns (written: Outcome)
      requires Valid()
      modifies store`currentState, store.storage, view
      ensures Valid()
      ensures old(Consistent()) ==> Consistent()
      ensures store.saveTimer == old(store.saveTimer)
      ensures view.textarea == formatted && view.output == Trim(formatted) && view.outputVisible
      ensures store.currentState == PersistedState(formatted, raw, true, true)
      ensures store.storage.data == if writeOk then old(store.storage.data) + Entries(DecodedPartial(raw, formatted)) else old(store.storage.data)
      ensures written == if writeOk then Pass else Fail(SaveErrorMessage)
      ensures writeOk && old(store.FlagsPersisted()) ==> store.FlagsPersisted()
    {
      view.textarea := formatted;
      view.output := Trim(formatted);
      view.ToggleOutput(true);
      ghost var state, data := store.currentState, store.storage.data;
      written := store.Update(DecodedPartial(raw, formatted), writeOk);
      if written.Pass? {
        WriteKeepsFlags(state, data, DecodedPartial(raw, formatted));
      }
    }

    /**
     * The `catch` block of `decodeAndFormatJSON`: shows the error, then
     * percent-decodes what the textarea holds at that point and writes it as
     * not decoded; "디코딩 실패" when that decoding or that write throws.
     */
    method Recover(decodeUri: Foreign, message: string, retryOk: bool)
      requires Valid()
      modifies store`currentState, store.storage, view`textarea, status
      ensures status.ShowsLatest(old(status.shown), old(status.text), old(status.visible), old(status.hideTimer))
      ensures Valid()
      ensures old(Consistent()) ==> Consistent()
      ensures store.saveTimer == old(store.saveTimer)
      ensures view.output == old(view.output) && view.outputVisible == old(view.outputVisible)
      ensures var input := old(view.textarea);
        decodeUri(input).Success? ==>
          var decoded := decodeUri(input).value;
          && store.currentState == PersistedState(decoded, input, false, false)
          && store.storage.data == (if retryOk then old(store.storage.data) + Entries(FallbackPartial(input, decoded)) else old(store.storage.data))
          && view.textarea == decoded
          && status.shown == old(status.shown) + [ErrorPrefix + message] + (if retryOk then [] else [DecodeFailedMessage])
      ensures decodeUri(old(view.textarea)).Failure? ==>
          && store.currentState == old(store.currentState)
          && store.storage.data == old(store.storage.data)
          && view.textarea == old(view.textarea)
          && status.shown == old(status.shown) + [ErrorPrefix + message, DecodeFailedMessage]
      ensures retryOk && old(store.FlagsPersisted()) ==> store.FlagsPersisted()
    {
      status.Show(ErrorPrefix + message);
      var input := view.textarea;
      var retried := decodeUri(input);
      if retried.Failure? {
        status.Show(DecodeFailedMessage);
        return;
      }
      view.textarea := retried.value;
      ghost var state, data := store.currentState, store.storage.data;
      var rewritten := store.Update(FallbackPartial(input, retried.value), retryOk);
      if rewritten.Fail? {
        status.Show(DecodeFailedMessage);
      } else {
        WriteKeepsFlags(state, data, FallbackPartial(input, retried.value));
      }
    }

    /** The input handler: memory takes the typed text now, and its write goes through the debounce. */
    method Input(value: string)
      requires Valid()
      modifies store`currentState, store`saveTimer, view`textarea
      ensures Valid()
      ensures old(Consistent()) ==> Consistent()
      ensures view.textarea == value
      ensures store.currentState == Overlay(old(store.currentState), InputPartial(old(store.currentState).isDecoded, value))
      ensures store.saveTimer == Some(InputPartial(old(store.currentState).isDecoded, value))
      ensures old(store.FlagsPersisted()) ==> store.FlagsPersisted()
    {
      view.textarea := value;
      var state := store.Get();
      var partial := InputPartial(state.isDecoded, value);
      store.UpdateDebounced(partial);
      TextWriteKeepsFlags(state, store.storage.data, partial);
    }

    /** The debounce timer going off; whatever its outcome, the flags in memory and storage stay as they were. */
    method SaveTimerFires(ok: bool)
      requires Valid() && store.saveTimer.Some?
      modifies store`saveTimer, store.storage, store.indicator
      ensures Valid()
      ensures old(Consistent()) ==> Consistent()
      ensures store.currentState == old(store.currentState) && store.saveTimer == None
      ensures store.storage.data == if ok then old(store.storage.data) + Entries(old(store.saveTimer).value) else old(store.storage.data)
      ensures store.indicator.className == if ok then "saved" else ""
      ensures store.indicator.hideTimer == if ok then Some(StatusDisplayTime) else None
      ensures old(store.FlagsPersisted()) ==> store.FlagsPersisted()
    {
      ghost var data := store.storage.data;
      ghost var pending := store.saveTimer.value;
      store.FireSaveTimer(ok);
      if ok {
        TextWriteKeepsFlags(store.currentState, data, pending);
      }
    }

    /**
     * The textarea click: only while the output is shown, it goes back to the
     * raw input, no longer decoded. The guard tests the output pane, so while
     * the textarea itself is shown, which is the only time a browser delivers
     * a click to it, the click changes nothing.
     */
    method TextareaClick(ok: bool)
      requires Valid()
      modifies store`currentState, store.storage, view`textarea, view`textareaVisible, view`outputVisible, status
      ensures status.ShowsLatest(old(status.shown), old(status.text), old(status.visible), old(status.hideTimer))
      ensures Valid()
      ensures old(Consistent()) ==> Consistent()
      ensures store.saveTimer == old(store.saveTimer)
      ensures !old(view.outputVisible) ==>
        && store.currentState == old(store.currentState) && store.storage.data == old(store.storage.data)
        && view.textarea == old(view.textarea) && view.outputVisible == old(view.outputVisible)
        && status.shown == old(status.shown)
      ensures view.output == old(view.output)
      ensures old(view.textareaVisible) ==>
        && store.currentState == old(store.currentState) && store.storage.data == old(store.storage.data)
        && view.textarea == old(view.textarea) && view.textareaVisible && status.shown == old(status.shown)
      ensures old(view.outputVisible) ==>
        var back := Or(old(store.currentState).originalInput, "");
        && view.textarea == back && view.textareaVisible && !view.outputVisible
        && store.currentState == old(store.currentState).(currentText := back, isDecoded := false)
        && store.storage.data == (if ok then old(store.storage.data) + Entries(TextareaClickPartial(old(store.currentState))) else old(store.storage.data))
        && status.shown == old(status.shown) + (if ok then [] else [SaveErrorMessage])
      ensures ok && old(store.FlagsPersisted()) ==> store.FlagsPersisted()
    {
      if view.outputVisible {
        var state := store.Get();
        var originalInput := state.originalInput;
        view.textarea := Or(originalInput, "");
        view.ToggleOutput(false);
        ghost var data := store.storage.data;
        var written := store.Update(TextareaClickPartial(state), ok);
        if written.Fail? {
          status.Show(written.error);
        } else {
          WriteKeepsFlags(state, data, TextareaClickPartial(state));
        }
      }
    }

    /**
     * The output-container click: only while the textarea is shown and a
     * non-empty result exists, it marks the record decoded. The guard tests
     * the textarea, so while the output pane itself is shown, which is the
     * only time a browser delivers a click to it, the click changes nothing.
     */
    method OutputClick(ok: bool)
      requires Valid()
      modifies store`currentState, store.storage, view`textarea, view`textareaVisible, view`outputVisible, status
      ensures status.ShowsLatest(old(status.shown), old(status.text), old(status.visible), old(status.hideTimer))
      ensures Valid()
      ensures old(Consistent()) ==> Consistent()
      ensures store.saveTimer == old(store.saveTimer)
      ensures !(old(view.textareaVisible) && OutputClickApplies(old(store.currentState))) ==>
        && store.currentState == old(store.currentState) && store.storage.data == old(store.storage.data)
        && view.textarea == old(view.textarea) && view.outputVisible == old(view.outputVisible)
        && status.shown == old(status.shown)
      ensures view.output == old(view.output)
      ensures old(view.outputVisible) ==>
        && store.currentState == old(store.currentState) && store.storage.data == old(store.storage.data)
        && view.textarea == old(view.textarea) && view.outputVisible && status.shown == old(status.shown)
      ensures old(view.textareaVisible) && OutputClickApplies(old(store.currentState)) ==>
        && view.textarea == old(store.currentState).currentText && view.outputVisible
        && store.currentState == old(store.currentState).(isDecoded := true)
        && store.storage.data == (if ok then old(store.storage.data) + Entries(OutputClickPartial) else old(store.storage.data))
        && status.shown == old(status.shown) + (if ok then [] else [SaveErrorMessage])
      ensures ok && old(store.FlagsPersisted()) ==> store.FlagsPersisted()
    {
      if view.textareaVisible {
        var state := store.Get();
        var decodedResult := state.currentText;
        if state.hasResult && decodedResult != "" {
          view.textarea := decodedResult;
          view.ToggleOutput(true);
          ghost var data := store.storage.data;
          var written := store.Update(OutputClickPartial, ok);
          if written.Fail? {
            status.Show(written.error);
          } else {
            WriteKeepsFlags(state, data, OutputClickPartial);
          }
        }
      }
    }

    /** The copy button: blank text makes no clipboard request; either way exactly one message is shown. */
    method Copy(clipboardOk: bool) returns (request: Option<string>)
      modifies status
      ensures status.ShowsLatest(old(status.shown), old(status.text), old(status.visible), old(status.hideTimer))
      ensures IsBlank(view.textarea) ==> request == None
      ensures !IsBlank(view.textarea) ==> request == Some(Trim(view.textarea))
      ensures status.shown == old(status.shown) +
        [if request.None? then NothingToCopyMessage else if clipboardOk then CopiedMessage else CopyFailedMessage]
    {
      var text := Trim(view.textarea);
      if text == [] {
        status.Show(NothingToCopyMessage);
        return None;
      }
      request := Some(text);
      if clipboardOk {
        status.Show(CopiedMessage);
      } else {
        status.Show(CopyFailedMessage);
      }
    }

    /** The reset button: the view is emptied and memory goes back to the defaults however the storage clear ends. */
    method Reset(ok: bool)
      requires Valid()
      modifies store`currentState, store.storage, view, status
      ensures status.ShowsLatest(old(status.shown), old(status.text), old(status.visible), old(status.hideTimer))
      ensures Valid() && Consistent()
      ensures view.textarea == "" && view.output == "" && view.textareaVisible
      ensures store.currentState == Defaults
      ensures store.saveTimer == old(store.saveTimer)
      ensures store.storage.data == if ok then map[] else old(store.storage.data)
      ensures status.shown == old(status.shown) + [if ok then ResetMessage else ClearErrorMessage]
      ensures ok ==> store.FlagsPersisted()
    {
      view.textarea := "";
      view.output := "";
      view.ToggleOutput(false);
      var cleared := store.Clear(ok);
      if cleared.Pass? {
        ClearedStoreReloadsDefaults();
        status.Show(ResetMessage);
      } else {
        status.Show(cleared.error);
      }
    }
  }

  /**
   * A decode whose write fails and whose formatted text cannot be
   * percent-decoded again, then a textarea click and an output click whose
   * writes succeed, leave storage claiming "decoded" without a result: a popup
   * reopened on it starts with `isDecoded` set and `hasResult` clear. The raw
   * input is `{"a":"%"}` percent-encoded; its formatted form still holds a
   * lone `%`, on which `decodeURIComponent` throws.
   */
  method StaleFlagsAfterFailedWrite() returns (reloaded: PersistedState)
    ensures reloaded.isDecoded && !reloaded.hasResult
  {
    var storage := new SessionStorage();
    var popup := new Popup(storage);
    var raw := "%7B%22a%22%3A%22%25%22%7D";
    var json := "{\"a\":\"%\"}";
    var formatted := "{\n    \"a\": \"%\"\n}";
    var decodeUri: Foreign := s => if s == raw then Success(json) else Failure("URI malformed");
    var formatJson: Foreign := s => if s == json then Success(formatted) else Failure("Unexpected token");
    popup.Input(raw);
    assert !IsBlank(raw) by { assert !IsWhiteSpace(raw[0]); }
    assert TryFormat(raw, decodeUri, formatJson) == Success(formatted);
    assert formatted != raw by { assert formatted[0] != raw[0]; }
    assert decodeUri(formatted).Failure?;
    popup.Decode(decodeUri, formatJson, false, true);
    ghost var decoded := popup.store.currentState;
    assert decoded == PersistedState(formatted, raw, true, true);
    assert popup.view.outputVisible && storage.data == map[];
    popup.TextareaClick(true);
    ghost var afterTextarea := storage.data;
    assert afterTextarea == map[] + Entries(TextareaClickPartial(decoded));
    assert popup.store.currentState == PersistedState(raw, raw, false, true);
    assert popup.view.textareaVisible;
    popup.OutputClick(true);
    assert storage.data == afterTextarea + Entries(OutputClickPartial);
    ghost var stored := storage.data;
    reloaded := Reloaded(storage.data);
    RestrictToKeys(stored);
    EntriesMerge(afterTextarea, OutputClickPartial);
    EntriesMerge(map[], TextareaClickPartial(decoded));
    assert FromEntries(stored) == Combine(Combine(FromEntries(map[]), TextareaClickPartial(decoded)), OutputClickPartial);
  }

  /** A fresh popup after typing "1" and decoding it with every write succeeding. */
  method DecodedOne() returns (popup: Popup)
    ensures fresh(popup) && fresh(popup.store) && fresh(popup.store.storage) && fresh(popup.view) && fresh(popup.status)
    ensures popup.Valid() && popup.Consistent()
    ensures popup.store.currentState == PersistedState("1", "1", true, true)
    ensures popup.view.output == "1" && popup.view.outputVisible
  {
    var storage := new SessionStorage();
    popup := new Popup(storage);
    var identity: Foreign := s => Success(s);
    assert Trim("1") == "1" by { assert LeadingWhiteSpace("1") == 0; }
    assert TryFormat("1", identity, identity) == Success("1");
    popup.Input("1");
    popup.Decode(identity, identity, true, true);
  }

  /**
   * The output click shows the output pane without refreshing its text: after
   * a decode of "1", a textarea click and typing "a", an output click marks
   * "a" decoded while the pane still shows "1".
   */
  method OutputPaneKeepsOldText() returns (textarea: string, output: string)
    ensures textarea == "a" && output == "1"
  {
    var popup := DecodedOne();
    popup.TextareaClick(true);
    assert popup.store.currentState.hasResult && popup.view.textareaVisible;
    popup.Input("a");
    popup.OutputClick(true);
    textarea, output := popup.view.textarea, popup.view.output;
  }

  /**
   * Pasting percent-encoded input and pressing Ctrl+Enter within the debounce
   * delay: the decode writes the decoded record, then the pending write of
   * the typed text lands on top of it. A reopened popup shows the raw input
   * in the output pane, as if it were the decoded result.
   */
  method DebounceOverwritesDecodedText() returns (memory: PersistedState, reloaded: PersistedState)
    ensures memory.currentText == "1" && memory.isDecoded
    ensures reloaded.currentText == "%31" && ShowsOutput(reloaded)
  {
    var storage := new SessionStorage();
    var popup := new Popup(storage);
    var raw := "%31";
    var decodeUri: Foreign := s => if s == raw then Success("1") else Failure("URI malformed");
    var formatJson: Foreign := s => if s == "1" then Success("1") else Failure("Unexpected token");
    assert !IsBlank(raw) by { assert !IsWhiteSpace(raw[0]); }
    assert TryFormat(raw, decodeUri, formatJson) == Success("1");
    popup.Input(raw);
    assert popup.store.saveTimer == Some(InputPartial(false, raw));
    popup.Decode(decodeUri, formatJson, true, true);
    ghost var decoded := storage.data;
    assert decoded == map[] + Entries(DecodedPartial(raw, "1"));
    popup.SaveTimerFires(true);
    assert storage.data == decoded + Entries(InputPartial(false, raw));
    memory := popup.store.currentState;
    reloaded := Reloaded(storage.data);
    RestrictToKeys(storage.data);
    EntriesMerge(decoded, InputPartial(false, raw));
    EntriesMerge(map[], DecodedPartial(raw, "1"));
  }

  /**
   * Two debounced writes of different shapes before the timer fires: the
   * later one replaces the earlier, so the original input typed in between
   * never reaches storage although memory holds it.
   */
  method DebounceLosesOriginalInput() returns (memory: PersistedState, reloaded: PersistedState)
    ensures memory.originalInput == "a" && reloaded.originalInput == "1"
  {
    var storage := new SessionStorage();
    var popup := new Popup(storage);
    var identity: Foreign := s => Success(s);
    popup.Input("1");
    assert !IsBlank("1") by { assert !IsWhiteSpace("1"[0]); }
    assert TryFormat("1", identity, identity) == Success("1");
    popup.Decode(identity, identity, true, true);
    ghost var decoded := storage.data;
    assert decoded == map[] + Entries(DecodedPartial("1", "1"));
    assert popup.store.currentState == PersistedState("1", "1", true, true) && popup.view.outputVisible;
    ghost var state := popup.store.currentState;
    popup.TextareaClick(true);
    ghost var clicked := storage.data;
    assert clicked == decoded + Entries(TextareaClickPartial(state));
    assert popup.store.currentState == PersistedState("1", "1", false, true) && popup.view.textareaVisible;
    popup.Input("a");
    assert popup.store.currentState == PersistedState("a", "a", false, true);
    popup.OutputClick(true);
    ghost var shown := storage.data;
    assert shown == clicked + Entries(OutputClickPartial);
    assert popup.store.currentState == PersistedState("a", "a", true, true);
    popup.Input("b");
    assert popup.store.saveTimer == Some(InputPartial(true, "b"));
    popup.SaveTimerFires(true);
    assert storage.data == shown + Entries(InputPartial(true, "b"));
    memory := popup.store.currentState;
    reloaded := Reloaded(storage.data);
    RestrictToKeys(storage.data);
    EntriesMerge(shown, InputPartial(true, "b"));
    EntriesMerge(clicked, OutputClickPartial);
    EntriesMerge(decoded, TextareaClickPartial(state));
    EntriesMerge(map[], DecodedPartial("1", "1"));
  }

  /**
   * A reset does not cancel a pending debounced write: once it fires, a
   * reopened popup finds the text typed before the reset.
   */
  method ResetKeepsPendingWrite() returns (memory: PersistedState, reloaded: PersistedState)
    ensures memory == Defaults && reloaded.currentText == "a"
  {
    var storage := new SessionStorage();
    var popup := new Popup(storage);
    popup.Input("a");
    popup.Reset(true);
    popup.SaveTimerFires(true);
    memory := popup.store.currentState;
    reloaded := Reloaded(storage.data);
    RestrictToKeys(storage.data);
  }
}
