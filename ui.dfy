/**
 * popup/js/ui.js: the status label, the storage-status indicator and the
 * textarea/output view. Each `setTimeout` the module keeps a handle to is a
 * field holding the pending timer's delay; a `Fire…` method is that timer
 * going off.
 */
module Ui {
  import opened Wrappers
  import opened Constants
  import opened Record

  /** The text `restoreUI` puts in the textarea: `(isDecoded ? currentText : (originalInput || currentText)) || ''`. */
  function RestoredText(s: PersistedState): (t: string)
    ensures s.isDecoded ==> t == s.currentText
    ensures !s.isDecoded && s.originalInput != "" ==> t == s.originalInput
    ensures !s.isDecoded && s.originalInput == "" ==> t == s.currentText
  {
    var textToShow := if s.isDecoded then s.currentText else (if s.originalInput != "" then s.originalInput else s.currentText);
    if textToShow != "" then textToShow else ""
  }

  /** Whether `restoreUI` shows the output view: `hasResult && isDecoded`. */
  predicate ShowsOutput(s: PersistedState) {
    s.hasResult && s.isDecoded
  }

  /** Under the record's invariant the output view is shown exactly when the record is decoded. */
  lemma ShowsOutputWhenDecoded(s: PersistedState)
    requires DecodedHasResult(s)
    ensures ShowsOutput(s) <==> s.isDecoded
  {
  }

  /** A restored view never shows text that is in neither text field of the record. */
  lemma RestoredTextFromRecord(s: PersistedState)
    ensures RestoredText(s) == s.currentText || RestoredText(s) == s.originalInput
    ensures RestoredText(s) == "" <==> s.currentText == "" && (s.isDecoded || s.originalInput == "")
  {
  }

  /** The class `updateStorageStatus(status)` leaves on the indicator. */
  function IndicatorClass(status: string): (c: string)
    ensures c == "" || c == "saving" || c == "saved"
    ensures c != "" <==> status == "saving" || status == "saved"
    ensures c != "" ==> c == status
  {
    if status == "saving" || status == "saved" then status else ""
  }

  /** The textarea, the JSON output and which of the two is on screen. */
  class View {
    /** `elements.textarea.value` */
    var textarea: string
    /** `elements.jsonOutput.textContent` */
    var output: string
    var textareaVisible: bool
    var outputVisible: bool

    /** Exactly one of the textarea and the output container is visible. */
    ghost predicate Valid()
      reads this
    {
      textareaVisible != outputVisible
    }

    /** An empty view showing the textarea, as `toggleOutput(false)` leaves it. */
    constructor()
      ensures Valid() && textarea == "" && output == ""
      ensures textareaVisible && !outputVisible
    {
      textarea, output := "", "";
      textareaVisible, outputVisible := true, false;
    }

    /** `toggleOutput(showResult)` */
    method ToggleOutput(showResult: bool)
      modifies this`textareaVisible, this`outputVisible
      ensures Valid()
      ensures outputVisible == showResult
    {
      outputVisible := showResult;
      textareaVisible := !showResult;
    }

    /** `restoreUI(state)` */
    method RestoreUI(s: PersistedState)
      modifies this
      ensures Valid()
      ensures textarea == RestoredText(s)
      ensures outputVisible == ShowsOutput(s)
      ensures output == if ShowsOutput(s) then s.currentText else old(output)
    {
      textarea := RestoredText(s);
      if s.hasResult && s.isDecoded {
        output := s.currentText;
        ToggleOutput(true);
      } else {
        ToggleOutput(false);
      }
    }
  }

  /** The status label and `statusTimeoutId`. */
  class StatusLabel {
    var text: string
    var visible: bool
    /** The delay of the pending hide timer, if one is pending. */
    var hideTimer: Option<nat>
    /** Every message shown so far, oldest first. */
    ghost var shown: seq<string>

    constructor()
      ensures text == "" && !visible && hideTimer == None && shown == []
    {
      text, visible, hideTimer := "", false, None;
      shown := [];
    }

    /** `showStatus(message)`: the previous hide timer is cancelled, so the latest message wins. */
    method Show(message: string)
      modifies this
      ensures text == message && visible
      ensures hideTimer == Some(StatusDisplayTime)
      ensures shown == old(shown) + [message]
    {
      hideTimer := None;
      text := message;
      visible := true;
      hideTimer := Some(StatusDisplayTime);
      shown := shown + [message];
    }

    /**
     * The label after a handler, given the label before it: as it was when
     * the handler showed nothing, otherwise showing the last message shown,
     * with a fresh hide timer.
     */
    ghost predicate ShowsLatest(shown0: seq<string>, text0: string, visible0: bool, timer0: Option<nat>)
      reads this
    {
      if shown == shown0 then text == text0 && visible == visible0 && hideTimer == timer0
      else shown != [] && text == shown[|shown| - 1] && visible && hideTimer == Some(StatusDisplayTime)
    }

    /** The hide timer going off. */
    method FireHide()
      requires hideTimer.Some?
      modifies this`text, this`visible, this`hideTimer
      ensures text == "" && !visible && hideTimer == None
    {
      text := "";
      visible := false;
      hideTimer := None;
    }
  }

  /** The storage-status indicator and `hideStatusTimer`. */
  class StorageIndicator {
    var className: string
    /** The delay of the pending revert timer, if one is pending. */
    var hideTimer: Option<nat>

    constructor()
      ensures className == "" && hideTimer == None
    {
      className, hideTimer := "", None;
    }

    /** `updateStorageStatus(status)`: only "saved" schedules a revert to no class. */
    method Update(status: string)
      modifies this
      ensures className == IndicatorClass(status)
      ensures hideTimer == if status == "saved" then Some(StatusDisplayTime) else None
    {
      hideTimer := None;
      className := "";
      if status == "saving" || status == "saved" {
        className := status;
      }
      if status == "saved" {
        hideTimer := Some(StatusDisplayTime);
      }
    }

    /** The revert timer going off. */
    method FireHide()
      requires hideTimer.Some?
      modifies this
      ensures className == "" && hideTimer == None
    {
      className := "";
      hideTimer := None;
    }
  }
}
