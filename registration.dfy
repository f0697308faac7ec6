/**
 * The modal registration form (script.js:203-230). Submitting validates the
 * three required fields; a valid submission shows a "submitting" note and
 * schedules a 900 ms timer, which shows the success note, resets the form and
 * schedules an 800 ms timer that closes the modal. Timers are counted: each
 * pending callback fires later as an explicit tick.
 */
module Registration {
  /** The form's named fields as `FormData` reads them. */
  datatype Fields = Fields(name: string, email: string, competition: string)

  /** Which message the note shows; the message text itself is not modelled. */
  datatype Note = Blank | Warning | Submitting | Received

  /** The three-field validation test: every required field is non-empty. */
  predicate Complete(f: Fields) {
    f.name != "" && f.email != "" && f.competition != ""
  }

  /** The note shown straight after a submit with these values. */
  function NoteOnSubmit(f: Fields): (n: Note)
    ensures n == Warning <==> (f.name == "" || f.email == "" || f.competition == "")
    ensures n == Warning || n == Submitting
  {
    if !Complete(f) then Warning else Submitting
  }

  class RegistrationForm {
    var values: Fields
    /** What `form.reset()` restores. */
    const defaults: Fields
    var note: Note
    var modalOpen: bool
    /** 900 ms callbacks scheduled and not yet run. */
    var pendingReceipts: nat
    /** 800 ms close callbacks scheduled and not yet run. */
    var pendingCloses: nat

    constructor (defaults: Fields)
      ensures this.defaults == defaults && values == defaults
      ensures note == Blank && !modalOpen && pendingReceipts == 0 && pendingCloses == 0
    {
      this.defaults := defaults;
      values := defaults;
      note := Blank;
      modalOpen := false;
      pendingReceipts, pendingCloses := 0, 0;
    }

    /** A click on one of the register buttons: `showModal()`. */
    method OpenModal()
      modifies this
      ensures modalOpen
      ensures values == old(values) && note == old(note)
      ensures pendingReceipts == old(pendingReceipts) && pendingCloses == old(pendingCloses)
    {
      modalOpen := true;
    }

    /** The user edits the fields. */
    method Input(f: Fields)
      modifies this
      ensures values == f
      ensures note == old(note) && modalOpen == old(modalOpen)
      ensures pendingReceipts == old(pendingReceipts) && pendingCloses == old(pendingCloses)
    {
      values := f;
    }

    /**
     * The submit listener. An incomplete form only shows the warning: no
     * timer, no reset, no close. A complete one shows "submitting" and
     * schedules one 900 ms callback.
     */
    method Submit()
      modifies this
      ensures note == NoteOnSubmit(old(values))
      ensures pendingReceipts == old(pendingReceipts) + (if Complete(old(values)) then 1 else 0)
      ensures values == old(values) && modalOpen == old(modalOpen) && pendingCloses == old(pendingCloses)
    {
      if values.name == "" || values.email == "" || values.competition == "" {
        note := Warning;
        return;
      }
      note := Submitting;
      pendingReceipts := pendingReceipts + 1;
    }

    /** A 900 ms callback runs: success note, close scheduled, form reset. */
    method ReceiptTimer()
      requires pendingReceipts > 0
      modifies this
      ensures note == Received && values == defaults
      ensures pendingReceipts == old(pendingReceipts) - 1 && pendingCloses == old(pendingCloses) + 1
      ensures modalOpen == old(modalOpen)
    {
      pendingReceipts := pendingReceipts - 1;
      note := Received;
      pendingCloses := pendingCloses + 1;
      values := defaults;
    }

    /** An 800 ms callback runs: `modal.close()`. */
    method CloseTimer()
      requires pendingCloses > 0
      modifies this
      ensures !modalOpen
      ensures pendingCloses == old(pendingCloses) - 1
      ensures note == old(note) && values == old(values) && pendingReceipts == old(pendingReceipts)
    {
      pendingCloses := pendingCloses - 1;
      modalOpen := false;
    }

    /**
     * A complete submission followed by the two callbacks it schedules, each
     * of which can fire only after the step before it: "submitting" with the
     * modal still as it was and the fields kept, then the success note with
     * the form reset and the modal still open, then the modal closed. When
     * callbacks of an earlier submission are still pending they may fire in
     * between (an earlier close can shut the modal while the note still says
     * "submitting"); this scenario does not interleave them.
     */
    method SubmitAndWait() returns (afterSubmit: Note, afterReceipt: Note, openAfterReceipt: bool)
      requires Complete(values) && modalOpen
      modifies this
      ensures afterSubmit == Submitting
      ensures afterReceipt == Received && openAfterReceipt
      ensures note == Received && values == defaults && !modalOpen
      ensures pendingReceipts == old(pendingReceipts) && pendingCloses == old(pendingCloses)
    {
      Submit();
      afterSubmit := note;
      ReceiptTimer();
      afterReceipt, openAfterReceipt := note, modalOpen;
      CloseTimer();
    }
  }
}
