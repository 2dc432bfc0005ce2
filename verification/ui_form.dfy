/**
 * The generic form: per-field validation (the `required` rule, the built-in email
 * pattern, caller patterns and caller functions), the edit handler, and the submit
 * sequence that reports a caller failure as the server error and rethrows it.
 */
module UiForm {
  import opened Wrappers
  import opened Text
  import opened Js

  /**
   * A field's validator. A caller's regular expression and a caller's function are opaque:
   * the first is a test on the field's text, the second maps the raw value (`None` for
   * `undefined`) to an error message or `null`.
   */
  datatype Validator = Email | Pattern(test: string -> bool) | Custom(check: Option<Json> -> Option<string>)

  datatype Field = Field(name: string, required: bool, validator: Option<Validator>)

  const RequiredText: string := "Campo requerido"
  const EmailText: string := "Formato de correo inválido"
  const PatternText: string := "Valor inválido"

  /** No character of `s` is whitespace. */
  predicate NoSpace(s: string) {
    forall m | 0 <= m < |s| :: !IsSpace(s[m])
  }

  /**
   * `/^\S+@\S+\.\S+$/`: a string without whitespace holding an `@` that is not first, and
   * after it, with at least one character between, a `.` that is not last.
   */
  predicate EmailMatches(s: string) {
    && NoSpace(s)
    && exists i, j | 0 < i < |s| && 0 < j < |s| :: i + 1 < j && j + 1 < |s| && s[i] == '@' && s[j] == '.'
  }

  /**
   * The pattern test in one left-to-right pass: it remembers whitespace, the first `@`
   * after position 0, and whether a usable `.` followed it.
   */
  method EmailScan(s: string) returns (ok: bool)
    ensures ok <==> EmailMatches(s)
  {
    var k := 0;
    var noSpace := true;
    var firstAt: Option<nat> := None;
    var found := false;
    while k < |s|
      invariant 0 <= k <= |s|
      invariant noSpace <==> forall m | 0 <= m < k :: !IsSpace(s[m])
      invariant firstAt.None? ==> forall m | 1 <= m < k :: s[m] != '@'
      invariant firstAt.Some? ==> 1 <= firstAt.value < k && s[firstAt.value] == '@'
      invariant firstAt.Some? ==> forall m | 1 <= m < firstAt.value :: s[m] != '@'
      invariant found <==> exists i, j | 0 < i < |s| && 0 < j < k :: i + 1 < j && j + 1 < |s| && s[i] == '@' && s[j] == '.'
    {
      if IsSpace(s[k]) {
        noSpace := false;
      }
      if !found && s[k] == '.' && firstAt.Some? && firstAt.value + 1 < k && k + 1 < |s| {
        found := true;
      }
      if s[k] == '@' && k >= 1 && firstAt.None? {
        firstAt := Some(k);
      }
      k := k + 1;
    }
    ok := noSpace && found;
  }

  /** `String(value || '')`: the text a pattern is tested on. */
  function TestText(val: Option<Json>): (t: string)
    ensures val.None? || !Truthy(val.value) ==> t == ""
    ensures val.Some? && val.value.JStr? ==> t == val.value.s
  {
    if val.Some? && Truthy(val.value) then ToJsString(val.value) else ""
  }

  /** `runValidator`: an error message, or `None` for `null`. */
  function RunValidator(v: Option<Validator>, val: Option<Json>): (r: Option<string>)
    ensures v.None? ==> r.None?
    ensures v == Some(Email) ==> (r.None? <==> EmailMatches(TestText(val))) && (r.Some? ==> r.value == EmailText)
    ensures v.Some? && v.value.Pattern? ==>
      (r.None? <==> v.value.test(TestText(val))) && (r.Some? ==> r.value == PatternText)
    ensures v.Some? && v.value.Custom? ==> r == v.value.check(val)
  {
    match v
    case None => None
    case Some(Email) => if EmailMatches(TestText(val)) then None else Some(EmailText)
    case Some(Pattern(test)) => if test(TestText(val)) then None else Some(PatternText)
    case Some(Custom(check)) => check(val)
  }

  /** The `required` rule's test: `undefined`, `null`, or a value whose text trims to nothing. */
  predicate Blank(val: Option<Json>) {
    val.None? || val.value.JNull? || Trim(ToJsString(val.value)) == ""
  }

  /** The error one field gets: the required error first, else a non-empty validator message. */
  function FieldError(f: Field, values: Obj<Json>): (e: Option<string>)
    ensures e.Some? ==> e.value != ""
  {
    var val := Lookup(values, f.name);
    if f.required && Blank(val) then Some(RequiredText)
    else
      match RunValidator(f.validator, val)
      case Some(msg) => if msg != "" then Some(msg) else None
      case None => None
  }

  /**
   * A required field is blank exactly when it is missing, `null`, or its text is all
   * whitespace; then it gets the required error whatever its validator, which is not run.
   */
  lemma RequiredFirst(f: Field, g: Field, values: Obj<Json>)
    requires f.name == g.name && f.required && g.required
    requires Blank(Lookup(values, f.name))
    ensures FieldError(f, values) == FieldError(g, values) == Some(RequiredText)
    ensures var val := Lookup(values, f.name);
      val.None? || val.value.JNull? || AllSpace(ToJsString(val.value))
  {
    var val := Lookup(values, f.name);
    if val.Some? && !val.value.JNull? {
      TrimEmpty(ToJsString(val.value));
    }
  }

  /** A field that is filled in (or optional) gets exactly its validator's verdict, an empty message counting as none. */
  lemma ValidatorDecides(f: Field, values: Obj<Json>)
    requires !(f.required && Blank(Lookup(values, f.name)))
    ensures f.validator.None? ==> FieldError(f, values).None?
    ensures f.validator == Some(Email) ==>
      FieldError(f, values) == (if EmailMatches(TestText(Lookup(values, f.name))) then None else Some(EmailText))
    ensures f.validator.Some? && f.validator.value.Pattern? ==>
      FieldError(f, values) == (if f.validator.value.test(TestText(Lookup(values, f.name))) then None else Some(PatternText))
    ensures f.validator.Some? && f.validator.value.Custom? ==>
      var c := f.validator.value.check(Lookup(values, f.name));
      FieldError(f, values) == (if c.Some? && c.value != "" then c else None)
  {
  }

  /** A string trims to nothing exactly when it is all whitespace. */
  lemma TrimEmpty(s: string)
    ensures Trim(s) == "" <==> AllSpace(s)
  {
    var r := Trim(s);
    var i, j :| 0 <= i <= j <= |s| && r == s[i..j] && AllSpace(s[..i]) && AllSpace(s[j..]);
    if r == "" {
      assert i == j;
      forall m | 0 <= m < |s| ensures IsSpace(s[m]) {
        if m < i {
          assert s[..i][m] == s[m];
        } else {
          assert s[j..][m - j] == s[m];
        }
      }
    }
  }

  /**
   * The error record the submit loop builds: each field's error, in field order, stored
   * under its name, so a later field with an error overrides an earlier one of the same name.
   */
  function Validate(fields: seq<Field>, values: Obj<Json>): (errs: Obj<string>)
    ensures DistinctKeys(errs)
    decreases |fields|
  {
    if |fields| == 0 then []
    else
      var prev := Validate(fields[..|fields| - 1], values);
      var f := fields[|fields| - 1];
      match FieldError(f, values)
      case Some(e) => Put(prev, f.name, e)
      case None => prev
  }

  /** The error of the last field named `n` that has one. */
  function LastFieldError(fields: seq<Field>, values: Obj<Json>, n: string): Option<string>
    decreases |fields|
  {
    if |fields| == 0 then None
    else
      var f := fields[|fields| - 1];
      if f.name == n && FieldError(f, values).Some? then FieldError(f, values)
      else LastFieldError(fields[..|fields| - 1], values, n)
  }

  /**
   * The record holds an error for `n` exactly when some field named `n` has one, and it is
   * the error of the last such field.
   */
  lemma ValidateMeaning(fields: seq<Field>, values: Obj<Json>, n: string)
    ensures Lookup(Validate(fields, values), n) == LastFieldError(fields, values, n)
    ensures HasKey(Validate(fields, values), n) <==>
      exists i :: 0 <= i < |fields| && fields[i].name == n && FieldError(fields[i], values).Some?
  {
    ValidateLookup(fields, values, n);
    LastFieldErrorSome(fields, values, n);
  }

  lemma {:induction false} ValidateLookup(fields: seq<Field>, values: Obj<Json>, n: string)
    ensures Lookup(Validate(fields, values), n) == LastFieldError(fields, values, n)
    decreases |fields|
  {
    if |fields| > 0 {
      ValidateLookup(fields[..|fields| - 1], values, n);
    }
  }

  /** Some field named `n` has an error exactly when the last such error exists. */
  lemma {:induction false} LastFieldErrorSome(fields: seq<Field>, values: Obj<Json>, n: string)
    ensures LastFieldError(fields, values, n).Some? <==>
      exists i :: 0 <= i < |fields| && fields[i].name == n && FieldError(fields[i], values).Some?
    decreases |fields|
  {
    if |fields| > 0 {
      var init := fields[..|fields| - 1];
      LastFieldErrorSome(init, values, n);
      if exists i :: 0 <= i < |fields| && fields[i].name == n && FieldError(fields[i], values).Some? {
        var i :| 0 <= i < |fields| && fields[i].name == n && FieldError(fields[i], values).Some?;
        if i < |init| {
          assert init[i] == fields[i];
        }
      }
      if exists i :: 0 <= i < |init| && init[i].name == n && FieldError(init[i], values).Some? {
        var i :| 0 <= i < |init| && init[i].name == n && FieldError(init[i], values).Some?;
        assert fields[i] == init[i];
      }
    }
  }

  /** No error recorded means no field has one, and the other way round. */
  lemma {:induction false} ValidateEmpty(fields: seq<Field>, values: Obj<Json>)
    ensures |Validate(fields, values)| == 0 <==> forall i :: 0 <= i < |fields| ==> FieldError(fields[i], values).None?
    decreases |fields|
  {
    if |fields| > 0 {
      var init := fields[..|fields| - 1];
      ValidateEmpty(init, values);
      forall i | 0 <= i < |init| ensures init[i] == fields[i] {
      }
      var f := fields[|fields| - 1];
      if FieldError(f, values).Some? {
        assert HasKey(Validate(fields, values), f.name);
      }
    }
  }

  /** With distinct field names, each field's error is stored under its own name. */
  lemma DistinctNamesKeepErrors(fields: seq<Field>, values: Obj<Json>, k: nat)
    requires k < |fields|
    requires forall i, j :: 0 <= i < j < |fields| ==> fields[i].name != fields[j].name
    ensures Lookup(Validate(fields, values), fields[k].name) == FieldError(fields[k], values)
  {
    LastIsOwn(fields, values, k);
    ValidateMeaning(fields, values, fields[k].name);
  }

  lemma {:induction false} LastIsOwn(fields: seq<Field>, values: Obj<Json>, k: nat)
    requires k < |fields|
    requires forall i, j :: 0 <= i < j < |fields| ==> fields[i].name != fields[j].name
    ensures LastFieldError(fields, values, fields[k].name) == FieldError(fields[k], values)
    decreases |fields|
  {
    var init := fields[..|fields| - 1];
    if k < |fields| - 1 {
      assert init[k] == fields[k];
      forall i, j | 0 <= i < j < |init| ensures init[i].name != init[j].name {
        assert init[i] == fields[i] && init[j] == fields[j];
      }
      LastIsOwn(init, values, k);
    } else if FieldError(fields[k], values).None? {
      NoSuchName(init, values, fields[k].name);
    }
  }

  /** Fields none of which is named `n` record nothing for it. */
  lemma {:induction false} NoSuchName(fields: seq<Field>, values: Obj<Json>, n: string)
    requires forall i :: 0 <= i < |fields| ==> fields[i].name != n
    ensures LastFieldError(fields, values, n).None?
    decreases |fields|
  {
    if |fields| > 0 {
      var init := fields[..|fields| - 1];
      forall i | 0 <= i < |init| ensures init[i].name != n {
        assert init[i] == fields[i];
      }
      NoSuchName(init, values, n);
    }
  }

  /** The form's state: the values, the submitting flag, the error record (`None` for `null`), the server error. */
  datatype FormState = FormState(values: Obj<Json>, submitting: bool, errors: Obj<Option<string>>, serverError: Option<string>)

  /** What the caller's `onSubmit` did: completed, or threw a value (`None` for `undefined`). */
  datatype Completion = Completed | Raised(err: Option<Json>)

  /** A submit: the state afterwards, whether `onSubmit` was called, whether the error was rethrown. */
  datatype SubmitRun = SubmitRun(state: FormState, called: bool, rethrown: bool)

  /** The text shown for a caught error: its `message` property when it is an object with one, else `String(err ?? 'Error')`. */
  function ErrorMessage(err: Option<Json>): (m: string)
    ensures err.None? || err == Some(JNull) ==> m == "Error"
    ensures err.Some? && err.value.JObj? && HasKey(err.value.fields, "message") ==>
      m == ToJsString(Lookup(err.value.fields, "message").value)
    ensures err.Some? && err.value.JStr? ==> m == err.value.s
  {
    match err
    case None => "Error"
    case Some(v) =>
      match v
      case JNull => "Error"
      case JObj(fs) => if HasKey(fs, "message") then ToJsString(Lookup(fs, "message").value) else ToJsString(v)
      case _ => ToJsString(v)
  }

  /** Each recorded error as a non-null entry of the state's error record. */
  function AsErrors(errs: Obj<string>): (r: Obj<Option<string>>)
    ensures |r| == |errs| && forall i :: 0 <= i < |errs| ==> r[i] == (errs[i].0, Some(errs[i].1))
  {
    seq(|errs|, i requires 0 <= i < |errs| => (errs[i].0, Some(errs[i].1)))
  }

  /**
   * `handleSubmit`: the error record replaces the old one; only when it is empty is
   * `onSubmit` called with the current values, and then `submitting` ends false and a
   * failure becomes the server error and is rethrown.
   */
  function Submit(fields: seq<Field>, s: FormState, onSubmit: Obj<Json> -> Completion): (r: SubmitRun)
    ensures r.state.values == s.values
    ensures r.state.errors == AsErrors(Validate(fields, s.values))
    ensures r.called <==> forall i :: 0 <= i < |fields| ==> FieldError(fields[i], s.values).None?
    ensures !r.called ==> !r.rethrown && r.state.submitting == s.submitting && r.state.serverError == s.serverError
    ensures r.called ==> !r.state.submitting
    ensures r.rethrown <==> r.called && onSubmit(s.values).Raised?
    ensures r.rethrown ==> r.state.serverError == Some(ErrorMessage(onSubmit(s.values).err))
    ensures r.called && !r.rethrown ==> r.state.serverError == s.serverError
  {
    var errs := Validate(fields, s.values);
    ValidateEmpty(fields, s.values);
    var checked := s.(errors := AsErrors(errs));
    if |errs| > 0 then SubmitRun(checked, false, false)
    else
      match onSubmit(s.values)
      case Completed => SubmitRun(checked.(submitting := false), true, false)
      case Raised(err) => SubmitRun(checked.(submitting := false, serverError := Some(ErrorMessage(err))), true, true)
  }

  /**
   * `handleChange(name, v)`: the named value is set and its error cleared (both kept in
   * place when present, appended otherwise), the server error is cleared, nothing else changes.
   */
  function HandleChange(s: FormState, name: string, v: Json): (r: FormState)
    ensures Lookup(r.values, name) == Some(v) && Lookup(r.errors, name) == Some(None)
    ensures forall k :: k != name ==> Lookup(r.values, k) == Lookup(s.values, k) && Lookup(r.errors, k) == Lookup(s.errors, k)
    ensures r.serverError.None? && r.submitting == s.submitting
  {
    FormState(Put(s.values, name, v), s.submitting, Put(s.errors, name, None), None)
  }

  /** After typing a non-blank text into a required field, the field is judged by its validator alone. */
  lemma ChangeFillsRequired(s: FormState, f: Field, text: string)
    requires f.required && !AllSpace(text)
    ensures var values := HandleChange(s, f.name, JStr(text)).values;
      FieldError(f, values) == FieldError(f.(required := false), values)
  {
    FilledNotRequired(f, HandleChange(s, f.name, JStr(text)).values, text);
  }

  lemma FilledNotRequired(f: Field, values: Obj<Json>, text: string)
    requires Lookup(values, f.name) == Some(JStr(text)) && !AllSpace(text)
    ensures FieldError(f, values) == FieldError(f.(required := false), values)
  {
    TrimEmpty(text);
    assert !Blank(Lookup(values, f.name));
  }
}
