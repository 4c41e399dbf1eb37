/**
 The validation `submitForm` performs before it returns the form's data: every
 required field whose trimmed value is empty is flagged, then every e-mail
 field holding a non-empty value that is not an address is flagged; any flag
 makes the submission throw.
 */
module FormValidation {
  import opened Text
  import opened Email

  /** A form control: its `name`, `placeholder`, `value`, whether it carries
      the `required` attribute and whether it is an `input[type="email"]`. */
  datatype Field = Field(name: string, placeholder: string, value: string, required: bool, isEmail: bool)

  datatype Check = MissingValue | BadAddress

  /** An error shown next to the field at `index` of the form. */
  datatype FieldError = FieldError(index: nat, check: Check, message: string)

  /** `Accepted`: `submitForm` returns the form data. `Rejected`: it throws
      after showing these errors. */
  datatype Submission = Accepted(data: map<string, string>) | Rejected(errors: seq<FieldError>)

  /** How the required-field message names a field: its name, else its
      placeholder, else "This field". */
  function Label(f: Field): (text: string)
    ensures text != []
    ensures f.name != [] ==> text == f.name
    ensures f.name == [] && f.placeholder != [] ==> text == f.placeholder
    ensures f.name == [] && f.placeholder == [] ==> text == "This field"
  {
    if f.name != [] then f.name else if f.placeholder != [] then f.placeholder else "This field"
  }

  function RequiredMessage(f: Field): string {
    Label(f) + " is required"
  }

  const EmailMessage := "Please enter a valid email address"

  /** The required check flags a field. */
  predicate MissingRequired(f: Field) {
    f.required && Trim(f.value) == []
  }

  /** The e-mail check flags a field; an empty value is left to the required check. */
  predicate BadEmail(f: Field) {
    f.isEmail && f.value != [] && !IsValidEmail(f.value)
  }

  /** The required check in terms of the value itself: it flags a required
      field exactly when the value is empty or all whitespace. */
  lemma MissingRequiredIff(f: Field)
    ensures MissingRequired(f) <==> f.required && AllWhitespace(f.value)
  {
    TrimEmptyIff(f.value);
  }

  /** Errors are reported check by check (required first), each in field order. */
  predicate Precedes(a: FieldError, b: FieldError) {
    (a.check == MissingValue && b.check == BadAddress) || (a.check == b.check && a.index < b.index)
  }

  /** Per field, whether the required check flags it. */
  function MissFlags(fields: seq<Field>): (flags: seq<bool>)
    ensures |flags| == |fields|
    ensures forall k | 0 <= k < |fields| :: flags[k] == MissingRequired(fields[k])
  {
    seq(|fields|, k requires 0 <= k < |fields| => MissingRequired(fields[k]))
  }

  /** Per field, whether the e-mail check flags it. */
  function BadFlags(fields: seq<Field>): (flags: seq<bool>)
    ensures |flags| == |fields|
    ensures forall k | 0 <= k < |fields| :: flags[k] == BadEmail(fields[k])
  {
    seq(|fields|, k requires 0 <= k < |fields| => BadEmail(fields[k]))
  }

  /** `e` is what the required check reports for one of the first `nRequired`
      fields, or what the e-mail check reports for one of the first `nEmail`,
      given which fields each check flags (`miss`, `bad`). */
  ghost predicate IsReport(fields: seq<Field>, miss: seq<bool>, bad: seq<bool>, e: FieldError, nRequired: nat, nEmail: nat)
    requires |miss| == |fields| && |bad| == |fields| && nRequired <= |fields| && nEmail <= |fields|
  {
    || (e.check == MissingValue && e.index < nRequired && miss[e.index] &&
        e.message == RequiredMessage(fields[e.index]))
    || (e.check == BadAddress && e.index < nEmail && bad[e.index] && e.message == EmailMessage)
  }

  ghost predicate Ordered(errors: seq<FieldError>) {
    forall a, b | 0 <= a < b < |errors| :: Precedes(errors[a], errors[b])
  }

  /** `errors` is exactly what the checks report, given which fields they flag:
      every entry is a report, every report is there, and the order is kept. */
  ghost predicate ReportsFor(fields: seq<Field>, miss: seq<bool>, bad: seq<bool>, errors: seq<FieldError>, nRequired: nat, nEmail: nat)
    requires |miss| == |fields| && |bad| == |fields| && nRequired <= |fields| && nEmail <= |fields|
  {
    && (forall e | e in errors :: IsReport(fields, miss, bad, e, nRequired, nEmail))
    && (forall k | 0 <= k < nRequired && miss[k] ::
          FieldError(k, MissingValue, RequiredMessage(fields[k])) in errors)
    && (forall k | 0 <= k < nEmail && bad[k] :: FieldError(k, BadAddress, EmailMessage) in errors)
    && Ordered(errors)
  }

  /** `errors` is exactly what the required check reports for the first `nRequired`
      fields followed by what the e-mail check reports for the first `nEmail`. */
  ghost predicate Reports(fields: seq<Field>, errors: seq<FieldError>, nRequired: nat, nEmail: nat)
    requires nRequired <= |fields| && nEmail <= |fields|
  {
    ReportsFor(fields, MissFlags(fields), BadFlags(fields), errors, nRequired, nEmail)
  }

  /** Appending an error that every earlier one precedes keeps the order. */
  lemma AppendOrdered(errors: seq<FieldError>, e: FieldError)
    requires Ordered(errors)
    requires forall x | x in errors :: Precedes(x, e)
    ensures Ordered(errors + [e])
  {
    var next := errors + [e];
    forall a, b | 0 <= a < b < |next| ensures Precedes(next[a], next[b]) {
      assert next[a] == errors[a];
      if b < |errors| {
        assert next[b] == errors[b];
      } else {
        assert errors[a] in errors;
      }
    }
  }

  /** A turn of the required-field loop that flags field `i`. */
  lemma RequiredFlagged(fields: seq<Field>, miss: seq<bool>, bad: seq<bool>, errors: seq<FieldError>, i: nat)
    requires |miss| == |fields| && |bad| == |fields| && i < |fields|
    requires ReportsFor(fields, miss, bad, errors, i, 0) && miss[i]
    ensures ReportsFor(fields, miss, bad, errors + [FieldError(i, MissingValue, RequiredMessage(fields[i]))], i + 1, 0)
  {
    var e := FieldError(i, MissingValue, RequiredMessage(fields[i]));
    var next := errors + [e];
    forall x | x in next ensures IsReport(fields, miss, bad, x, i + 1, 0) {
      if x != e { assert x in errors; }
    }
    forall k | 0 <= k < i + 1 && miss[k]
      ensures FieldError(k, MissingValue, RequiredMessage(fields[k])) in next
    {
      if k < i { assert FieldError(k, MissingValue, RequiredMessage(fields[k])) in errors; }
    }
    AppendOrdered(errors, e);
  }

  /** A turn of the required-field loop that passes field `i`. */
  lemma RequiredPassed(fields: seq<Field>, miss: seq<bool>, bad: seq<bool>, errors: seq<FieldError>, i: nat)
    requires |miss| == |fields| && |bad| == |fields| && i < |fields|
    requires ReportsFor(fields, miss, bad, errors, i, 0) && !miss[i]
    ensures ReportsFor(fields, miss, bad, errors, i + 1, 0)
  {
  }

  /** A turn of the e-mail loop that flags field `i`. */
  lemma EmailFlagged(fields: seq<Field>, miss: seq<bool>, bad: seq<bool>, errors: seq<FieldError>, i: nat)
    requires |miss| == |fields| && |bad| == |fields| && i < |fields|
    requires ReportsFor(fields, miss, bad, errors, |fields|, i) && bad[i]
    ensures ReportsFor(fields, miss, bad, errors + [FieldError(i, BadAddress, EmailMessage)], |fields|, i + 1)
  {
    var e := FieldError(i, BadAddress, EmailMessage);
    var next := errors + [e];
    forall x | x in next ensures IsReport(fields, miss, bad, x, |fields|, i + 1) {
      if x != e { assert x in errors; }
    }
    forall k | 0 <= k < i + 1 && bad[k] ensures FieldError(k, BadAddress, EmailMessage) in next {
      if k < i { assert FieldError(k, BadAddress, EmailMessage) in errors; }
    }
    AppendOrdered(errors, e);
  }

  /** A turn of the e-mail loop that passes field `i`. */
  lemma EmailPassed(fields: seq<Field>, miss: seq<bool>, bad: seq<bool>, errors: seq<FieldError>, i: nat)
    requires |miss| == |fields| && |bad| == |fields| && i < |fields|
    requires ReportsFor(fields, miss, bad, errors, |fields|, i) && !bad[i]
    ensures ReportsFor(fields, miss, bad, errors, |fields|, i + 1)
  {
  }

  /** Object.fromEntries(new FormData(form)): named controls only, and a later
      control overrides an earlier one of the same name. */
  function FormEntries(fields: seq<Field>): (data: map<string, string>)
    ensures forall n :: n in data <==> n != [] && exists k | 0 <= k < |fields| :: fields[k].name == n
    ensures forall k | 0 <= k < |fields| && fields[k].name != [] ::
              (forall k' | k < k' < |fields| :: fields[k'].name != fields[k].name) ==>
                data[fields[k].name] == fields[k].value
  {
    if fields == [] then map[]
    else
      var init := fields[..|fields| - 1];
      var last := fields[|fields| - 1];
      var data := FormEntries(init);
      assert forall k | 0 <= k < |init| :: init[k] == fields[k];
      if last.name != [] then data[last.name := last.value] else data
  }

  /** `submitForm` on a form with these controls, in document order. */
  method SubmitForm(fields: seq<Field>) returns (r: Submission)
    ensures r.Accepted? <==> forall k | 0 <= k < |fields| :: !MissingRequired(fields[k]) && !BadEmail(fields[k])
    ensures r.Rejected? ==> r.errors != [] && Reports(fields, r.errors, |fields|, |fields|)
    ensures r.Accepted? ==> r.data == FormEntries(fields)
  {
    ghost var miss := MissFlags(fields);
    ghost var bad := BadFlags(fields);
    var errors: seq<FieldError> := [];
    var hasErrors := false;
    var i := 0;
    while i < |fields|
      invariant 0 <= i <= |fields|
      invariant ReportsFor(fields, miss, bad, errors, i, 0)
      invariant hasErrors <==> exists k | 0 <= k < i :: miss[k]
    {
      if fields[i].required && Trim(fields[i].value) == [] {
        RequiredFlagged(fields, miss, bad, errors, i);
        errors := errors + [FieldError(i, MissingValue, RequiredMessage(fields[i]))];
        hasErrors := true;
      } else {
        RequiredPassed(fields, miss, bad, errors, i);
      }
      i := i + 1;
    }
    i := 0;
    while i < |fields|
      invariant 0 <= i <= |fields|
      invariant ReportsFor(fields, miss, bad, errors, |fields|, i)
      invariant hasErrors <==>
                  (exists k | 0 <= k < |fields| :: miss[k]) || (exists k | 0 <= k < i :: bad[k])
    {
      if fields[i].isEmail && fields[i].value != [] && !IsValidEmail(fields[i].value) {
        EmailFlagged(fields, miss, bad, errors, i);
        errors := errors + [FieldError(i, BadAddress, EmailMessage)];
        hasErrors := true;
      } else {
        EmailPassed(fields, miss, bad, errors, i);
      }
      i := i + 1;
    }
    if hasErrors {
      r := Rejected(errors);
    } else {
      r := Accepted(FormEntries(fields));
    }
  }
}
