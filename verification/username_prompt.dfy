/**
 * The name prompt shown before a claim: it hands the trimmed name to
 * `onSubmit` only when something is left after trimming, and every way of
 * closing it goes to `onCancel`.
 */
module UsernamePrompt {
  import opened Wrappers
  import opened Text

  /** What the prompt reports to its owner. */
  datatype PromptEvent = Submitted(username: string) | Cancelled

  /** The guard and the argument of `handleSubmit`: the trimmed text when it is
      not empty. A name handed on is never blank and never padded, and only
      white space was cut from either end of the input. */
  function SubmittedName(raw: string): (r: Option<string>)
    ensures r.Some? <==> !AllSpace(raw)
    ensures r.Some? ==> r.value != "" && !IsSpace(r.value[0]) && !IsSpace(r.value[|r.value| - 1])
    ensures r.Some? ==> SliceAt(raw, TrimIndex(raw), r.value)
    ensures r.Some? ==> Trimmed(raw, TrimIndex(raw), r.value)
  {
    var t := Trim(raw);
    if t != "" then Some(t) else None
  }

  /** The submit button's `disabled` rule. */
  predicate SubmitDisabled(raw: string) {
    Trim(raw) == ""
  }

  /** The button is disabled exactly when submitting would do nothing. */
  lemma DisabledIffNoSubmit(raw: string)
    ensures SubmitDisabled(raw) <==> SubmittedName(raw).None?
  {
  }

  /** The dialog's `onOpenChange`: closing it reports a cancel, opening it
      reports nothing. */
  function OpenChange(isOpen: bool): (e: Option<PromptEvent>)
    ensures e.Some? <==> !isOpen
    ensures e.Some? ==> e.value == Cancelled
  {
    if !isOpen then Some(Cancelled) else None
  }

  /** The text field's state. */
  class NamePrompt {
    var username: string

    constructor ()
      ensures username == ""
    {
      username := "";
    }

    /** The input's `onChange`. */
    method Type(text: string)
      modifies this
      ensures username == text
    {
      username := text;
    }

    /** `handleSubmit`: reports the trimmed name and clears the field when the
        name is not blank; otherwise nothing happens. */
    method Submit() returns (e: Option<PromptEvent>)
      modifies this
      ensures e.Some? <==> !AllSpace(old(username))
      ensures e.Some? ==> e.value == Submitted(Trim(old(username))) && username == ""
      ensures e.None? ==> username == old(username)
    {
      var name := SubmittedName(username);
      if name.Some? {
        e := Some(Submitted(name.value));
        username := "";
      } else {
        e := None;
      }
    }

    /** The Cancel button: reports a cancel and leaves the field as it is. */
    method Cancel() returns (e: PromptEvent)
      ensures e == Cancelled
    {
      e := Cancelled;
    }
  }
}
