/**
 * The add/edit lead form: its field edits and checks, `validateForm`, the
 * submit and Cancel handlers that reset the form, and the dismissal that
 * does not.
 */
module AddLeadDialog {
  import opened Wrappers
  import opened Text
  import opened LeadCard

  /** The form fields (`formData`). */
  datatype FormData = FormData(name: string, email: string, phone: string, status: LeadStatus)

  /** One message per field; "" means no error. */
  datatype FormErrors = FormErrors(name: string, email: string, phone: string)

  const NoErrors := FormErrors("", "", "")

  /** The state the form is reset to after a submit or the Cancel button. */
  const EmptyForm := FormData("", "", "", Active)

  /** The form's first state: the edit target's fields, or empty fields with
      status "active" when there is none (`x || ""`, `x || "active"`). */
  function InitialForm(editLead: Option<Lead>): (f: FormData)
    ensures editLead.None? ==> f == EmptyForm
    ensures editLead.Some? ==> f.name == editLead.value.name && f.email == editLead.value.email
                               && f.phone == editLead.value.phone && f.status == editLead.value.status
  {
    match editLead
    case None => EmptyForm
    case Some(l) => FormData(l.name, l.email, l.phone, l.status)
  }

  /** What one input's `onChange` (or the select's `onValueChange`) sets. */
  datatype FormEdit = EditName(name: string) | EditEmail(email: string) | EditPhone(phone: string) | EditStatus(status: LeadStatus)

  /** `setFormData({ ...formData, [field]: value })`: the edited field takes the
      new value and the other three keep theirs. */
  function ApplyEdit(f: FormData, e: FormEdit): (g: FormData)
    ensures g.name == (if e.EditName? then e.name else f.name)
    ensures g.email == (if e.EditEmail? then e.email else f.email)
    ensures g.phone == (if e.EditPhone? then e.phone else f.phone)
    ensures g.status == (if e.EditStatus? then e.status else f.status)
  {
    match e
    case EditName(n) => f.(name := n)
    case EditEmail(m) => f.(email := m)
    case EditPhone(p) => f.(phone := p)
    case EditStatus(st) => f.(status := st)
  }

  // ---------------------------------------------------------------------------
  // The email pattern /^[^\s@]+@[^\s@]+\.[^\s@]+$/

  /** A character of the class `[^\s@]`. */
  predicate PatternChar(c: char) {
    !IsSpace(c) && c != '@'
  }

  /** `[^\s@]+`: a non-empty run of such characters. */
  predicate Run(t: string) {
    |t| > 0 && forall k :: 0 <= k < |t| ==> PatternChar(t[k])
  }

  /** The pattern matches `s` with its '@' at `i` and the escaped '.' at `j`. */
  ghost predicate MatchesAt(s: string, i: int, j: int) {
    && 0 < i < j < |s|
    && Run(s[..i]) && s[i] == '@' && Run(s[i + 1..j]) && s[j] == '.' && Run(s[j + 1..])
  }

  /** What the regular expression accepts: some way of placing '@' and '.'. */
  ghost predicate EmailPattern(s: string) {
    exists i, j :: MatchesAt(s, i, j)
  }

  /** The index of the first `c` in `s`, or -1. */
  function IndexOf(s: string, c: char): (r: int)
    ensures -1 <= r < |s|
    ensures r == -1 <==> c !in s
    ensures r >= 0 ==> s[r] == c && c !in s[..r]
  {
    if s == [] then -1
    else if s[0] == c then 0
    else
      var r := IndexOf(s[1..], c);
      assert s[1..][..if r < 0 then 0 else r] == s[1..if r < 0 then 1 else r + 1];
      if r == -1 then -1 else r + 1
  }

  /** The decision procedure for the pattern: no white space, a single '@' that
      is not the first character, and a '.' strictly inside the part after it. */
  function IsEmailFormat(s: string): bool {
    var at := IndexOf(s, '@');
    && NoSpace(s)
    && at > 0
    && '@' !in s[at + 1..]
    && |s| - at >= 4
    && '.' in s[at + 2..|s| - 1]
  }

  /** The decision procedure accepts exactly what the regular expression accepts. */
  lemma EmailFormatIsPattern(s: string)
    ensures IsEmailFormat(s) <==> EmailPattern(s)
  {
    if IsEmailFormat(s) {
      FormatGivesMatch(s);
    }
    if EmailPattern(s) {
      var i, j :| MatchesAt(s, i, j);
      MatchGivesFormat(s, i, j);
    }
  }

  lemma FormatGivesMatch(s: string)
    requires IsEmailFormat(s)
    ensures EmailPattern(s)
  {
    var i := IndexOf(s, '@');
    var d := s[i + 2..|s| - 1];
    var k :| 0 <= k < |d| && d[k] == '.';
    var j := i + 2 + k;
    assert s[j] == '.';
    assert '@' !in s[..i];
    forall t | 0 <= t < |s| && t != i ensures PatternChar(s[t]) {
      if t < i {
        assert s[t] == s[..i][t];
      } else {
        assert s[t] == s[i + 1..][t - i - 1];
      }
    }
    assert Run(s[..i]);
    var domain, top := s[i + 1..j], s[j + 1..];
    forall t | 0 <= t < |domain| ensures PatternChar(domain[t]) {
      assert domain[t] == s[i + 1 + t];
    }
    forall t | 0 <= t < |top| ensures PatternChar(top[t]) {
      assert top[t] == s[j + 1 + t];
    }
    assert MatchesAt(s, i, j);
  }

  lemma MatchGivesFormat(s: string, i: int, j: int)
    requires MatchesAt(s, i, j)
    ensures IsEmailFormat(s)
  {
    forall t | 0 <= t < |s| && t != i && t != j ensures PatternChar(s[t]) {
      if t < i {
        assert s[t] == s[..i][t];
      } else if t < j {
        assert s[t] == s[i + 1..j][t - i - 1];
      } else {
        assert s[t] == s[j + 1..][t - j - 1];
      }
    }
    assert NoSpace(s);
    assert '@' !in s[..i] by {
      forall t | 0 <= t < i ensures s[..i][t] != '@' {
        assert s[..i][t] == s[t];
      }
    }
    assert IndexOf(s, '@') == i;
    var after := s[i + 1..];
    forall t | 0 <= t < |after| ensures after[t] != '@' {
      assert after[t] == s[i + 1 + t];
    }
    assert s[i + 2..|s| - 1][j - i - 2] == '.';
  }

  // ---------------------------------------------------------------------------
  // Field checks and validateForm. A field fails `!x.trim()` exactly when it is
  // all white space (`Text.Trim`'s contract), which is how the checks state it.

  /** The check the name and the phone share: `message` when the field is blank,
      no error otherwise. */
  function RequiredError(value: string, message: string): (e: string)
    requires message != ""
    ensures e != "" <==> AllSpace(value)
    ensures e != "" ==> e == message
  {
    if AllSpace(value) then message else ""
  }

  function NameError(name: string): string {
    RequiredError(name, "Name is required")
  }

  function EmailError(email: string): (e: string)
    ensures e == "Email is required" <==> AllSpace(email)
    ensures e == "Invalid email format" <==> !AllSpace(email) && !EmailPattern(email)
    ensures e == "" <==> !AllSpace(email) && EmailPattern(email)
  {
    EmailFormatIsPattern(email);
    if AllSpace(email) then "Email is required"
    else if !IsEmailFormat(email) then "Invalid email format"
    else ""
  }

  function PhoneError(phone: string): string {
    RequiredError(phone, "Phone is required")
  }

  /** What `validateForm` accepts: every check leaves its message empty. */
  predicate Valid(f: FormData) {
    NameError(f.name) == "" && EmailError(f.email) == "" && PhoneError(f.phone) == ""
  }

  /** A form is accepted exactly when the trimmed name and phone are non-empty
      and the raw email matches the pattern (which already rules out an email
      that trims to nothing). */
  lemma ValidIffFieldsOk(f: FormData)
    ensures Valid(f) <==> (!AllSpace(f.name) && EmailPattern(f.email) && !AllSpace(f.phone))
  {
    if EmailPattern(f.email) {
      var i, j :| MatchesAt(f.email, i, j);
      assert !IsSpace(f.email[0]);
      assert !AllSpace(f.email);
    }
  }

  /** The dialog's state. `editLead` is the current value of the prop, `open`
      the `open` prop at mount and then what the dialog last asked
      `onOpenChange` for. The dialog stays mounted
      while its parent changes `editLead`, and `useState` computes the first
      form only at mount, so a later edit target does not reach `formData`. */
  class LeadFormDialog {
    var formData: FormData
    var errors: FormErrors
    var open: bool
    var editLead: Option<Lead>

    /** Mounting: the form starts as `InitialForm` of the props at that moment. */
    constructor (open: bool, editLead: Option<Lead>)
      ensures this.editLead == editLead && this.open == open
      ensures formData == InitialForm(editLead) && errors == NoErrors
    {
      this.editLead := editLead;
      this.open := open;
      formData := InitialForm(editLead);
      errors := NoErrors;
    }

    /** `validateForm`: fills in the three messages one after another, stores
        them and answers whether all are empty. */
    method ValidateForm() returns (valid: bool)
      modifies this`errors
      ensures errors == FormErrors(NameError(formData.name), EmailError(formData.email), PhoneError(formData.phone))
      ensures valid <==> errors == NoErrors
      ensures valid <==> Valid(formData)
    {
      var form := formData;
      var newErrors := NoErrors;
      if AllSpace(form.name) {
        newErrors := newErrors.(name := "Name is required");
      }
      assert newErrors.name == NameError(form.name);
      if AllSpace(form.email) {
        newErrors := newErrors.(email := "Email is required");
      } else if !IsEmailFormat(form.email) {
        newErrors := newErrors.(email := "Invalid email format");
      }
      assert newErrors.email == EmailError(form.email);
      if AllSpace(form.phone) {
        newErrors := newErrors.(phone := "Phone is required");
      }
      assert newErrors.phone == PhoneError(form.phone);
      errors := newErrors;
      valid := newErrors.name == "" && newErrors.email == "" && newErrors.phone == "";
    }

    /** `handleSubmit`: on a valid form, hands the fields plus the edit target's
        owner to `onSubmit`, resets the form and closes; otherwise only the
        messages change. */
    method HandleSubmit() returns (submitted: Option<LeadInput>)
      modifies this
      ensures submitted.Some? <==> !AllSpace(old(formData).name) && EmailPattern(old(formData).email)
                                   && !AllSpace(old(formData).phone)
      ensures submitted.Some? ==> submitted.value == LeadInput(old(formData).name, old(formData).email,
                                    old(formData).phone, old(formData).status,
                                    if editLead.Some? then editLead.value.owner else None)
      ensures submitted.Some? ==> formData == EmptyForm && errors == NoErrors && !open
      ensures submitted.None? ==> formData == old(formData) && open == old(open) && errors != NoErrors
      ensures submitted.None? ==> errors == FormErrors(NameError(old(formData).name),
                                    EmailError(old(formData).email), PhoneError(old(formData).phone))
      ensures editLead == old(editLead)
    {
      var form := formData;
      var valid := ValidateForm();
      ValidIffFieldsOk(form);
      if valid {
        submitted := Some(LeadInput(form.name, form.email, form.phone, form.status,
                                    if editLead.Some? then editLead.value.owner else None));
        formData := EmptyForm;
        errors := NoErrors;
        open := false;
      } else {
        submitted := None;
      }
    }

    /** Typing into an input or choosing a status: only `formData` changes. */
    method Change(e: FormEdit)
      modifies this`formData
      ensures formData == ApplyEdit(old(formData), e)
    {
      formData := ApplyEdit(formData, e);
    }

    /** The parent re-renders with another `editLead`: only the prop changes;
        the form keeps what it holds. */
    method SetEditLead(lead: Option<Lead>)
      modifies this`editLead
      ensures editLead == lead
      ensures formData == old(formData) && errors == old(errors) && open == old(open)
    {
      editLead := lead;
    }

    /** `handleClose` (the Cancel button): resets the form and the messages
        and closes. */
    method HandleClose()
      modifies this`formData, this`errors, this`open
      ensures formData == EmptyForm && errors == NoErrors && !open
    {
      formData := EmptyForm;
      errors := NoErrors;
      open := false;
    }

    /** Escape or a click outside: the `Dialog` hands the close straight to
        `onOpenChange` without `handleClose`, so the form and the messages
        keep what they hold. */
    method Dismiss()
      modifies this`open
      ensures !open
      ensures formData == old(formData) && errors == old(errors) && editLead == old(editLead)
    {
      open := false;
    }
  }

  /** The dashboard mounts the dialog once, closed and with no edit target. Choosing Edit
      on a lead later only changes the prop, so the form the dialog shows is
      still the empty one, not the lead's fields. */
  method EditAfterMount(lead: Lead) returns (d: LeadFormDialog)
    ensures d.editLead == Some(lead) && d.formData == EmptyForm
    ensures lead.name != "" ==> d.formData != InitialForm(d.editLead)
  {
    d := new LeadFormDialog(false, None);
    d.SetEditLead(Some(lead));
  }

  /** Typing a name into Add Lead, pressing Escape and then choosing Edit on a
      lead: the form still holds the typed name, and a submit would write it
      over that lead. */
  method DismissThenEdit(typed: string, lead: Lead) returns (d: LeadFormDialog)
    ensures d.editLead == Some(lead) && !d.open
    ensures d.formData == EmptyForm.(name := typed)
  {
    d := new LeadFormDialog(true, None);
    d.Change(EditName(typed));
    d.Dismiss();
    d.SetEditLead(Some(lead));
  }
}
