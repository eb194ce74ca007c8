/** The record-moisture dialog (ui/src/components/RecordMoistureDialog.tsx): an open
    flag and the typed text, and a submit handler that validates the parsed number and
    hands it to the soil-moisture hook. */
module RecordDialog {

  import opened Wrappers
  import opened SoilMoisture

  const MsgInvalidInput := "Please enter a valid moisture value between 0 and 100"
  const MsgSuccess := "Soil moisture recorded successfully!"
  const MsgFallback := "Failed to record soil moisture"

  /** A toast shown to the user. */
  datatype Toast = ErrorToast(text: string) | SuccessToast(text: string)

  /** The dialog's own check `isNaN(v) || v < 0 || v > 100`. */
  predicate Rejects(v: Number)
    ensures Rejects(v) <==> !(v.Finite? && 0.0 <= v.r <= 100.0)
  {
    v.NaN? || OutOfRange(v)
  }

  /** The dialog rejects what the hook's range check rejects, and NaN besides. */
  lemma RejectsIsRangeOrNaN(v: Number)
    ensures Rejects(v) <==> (OutOfRange(v) || v == NaN)
    ensures !Rejects(v) ==> !OutOfRange(v)
  {
  }

  /** A value the dialog forwards never stops at the hook's range check: with a complete
      session the hook's checks all pass, and otherwise the configuration error comes
      first. */
  lemma ForwardedValuesPassRangeCheck(s: Session, v: Number)
    requires !Rejects(v)
    ensures RecordPrecondition(s, v) != Some(MsgOutOfRange)
    ensures RecordReady(s) ==> RecordPrecondition(s, v) == None
  {
  }

  /** 0, 100 and fractional values are forwarded. */
  lemma DialogAcceptsBoundaries()
    ensures !Rejects(Finite(0.0)) && !Rejects(Finite(100.0)) && !Rejects(Finite(0.1))
    ensures Rejects(NaN) && Rejects(Finite(-0.1)) && Rejects(Finite(100.1))
  {
  }

  /** The text of the error toast for a rejected record: the error's message, or a
      fixed fallback when it has none. */
  function ErrorToastText(e: Failure): (t: string)
    ensures t != ""
    ensures t == e.message || t == MsgFallback
    ensures e.message != "" ==> t == e.message
  {
    if e.message != "" then e.message else MsgFallback
  }

  /** A value the dialog forwards to a hook that is not fully configured is rejected
      before any call is made, and the error toast repeats the configuration message
      the hook shows. */
  lemma ConfigurationErrorToast(st: State, s: Session, v: Number, rp: RecordReplies)
    requires !Rejects(v) && !RecordReady(s)
    ensures var r := RecordStep(st, s, v, rp);
      r.outcome.Rejected? && r.calls == [] && r.state.message.Some?
      && ErrorToastText(r.outcome.error) == r.state.message.value
      && r.state.message.value in {MsgNoContract, MsgNoSigner, MsgNoFhevm, MsgNoAddress, MsgNoProvider}
  {
  }

  /** One mounted dialog, with its own hook instance. */
  class Dialog {
    const hook: Hook
    var open: bool
    var moisture: string

    /** A closed dialog with an empty input. */
    constructor (hook: Hook)
      ensures this.hook == hook && !open && moisture == ""
    {
      this.hook := hook;
      open, moisture := false, "";
    }

    /** `setOpen(v)`, from the trigger button or the dialog's open-change event. */
    method SetOpen(v: bool)
      modifies this
      ensures open == v && moisture == old(moisture)
    {
      open := v;
    }

    /** The input's change handler. */
    method Type(text: string)
      modifies this
      ensures moisture == text && open == old(open)
    {
      moisture := text;
    }

    /** The Cancel button: closes the dialog and keeps the typed text. */
    method Cancel()
      modifies this
      ensures !open && moisture == old(moisture)
    {
      open := false;
    }

    /** `handleSubmit`, where `parsed` is `parseFloat(moisture)` and `replies` answers the
        hook's calls. A rejected value shows an error toast and changes nothing. An
        accepted one is passed to the hook unchanged; if the hook resolves, the dialog
        closes and clears its input, and if it rejects, both stay as they were. */
    method HandleSubmit(parsed: Number, replies: RecordReplies) returns (toast: Toast, calls: seq<Call>)
      modifies this, hook
      ensures Rejects(parsed) ==>
        toast == ErrorToast(MsgInvalidInput) && calls == []
        && open == old(open) && moisture == old(moisture) && hook.Snapshot() == old(hook.Snapshot())
      ensures !Rejects(parsed) ==>
        var r := RecordStep(old(hook.Snapshot()), hook.session, parsed, replies);
        hook.Snapshot() == r.state && calls == r.calls
        && (r.outcome == Resolved ==> toast == SuccessToast(MsgSuccess) && !open && moisture == "")
        && (r.outcome.Rejected? ==>
              toast == ErrorToast(ErrorToastText(r.outcome.error))
              && open == old(open) && moisture == old(moisture))
    {
      if parsed.NaN? || OutOfRange(parsed) {
        return ErrorToast(MsgInvalidInput), [];
      }
      var outcome;
      outcome, calls := hook.RecordMoisture(parsed, replies);
      if outcome == Resolved {
        toast := SuccessToast(MsgSuccess);
        open := false;
        moisture := "";
      } else {
        toast := ErrorToast(ErrorToastText(outcome.error));
      }
    }
  }
}
