/**
 * The form-validation hook: a map of field rules and the `errors` state it
 * keeps for the form, from field name to message. State updates are
 * applied at once.
 */
module FormValidation {
  import opened Wrappers
  import opened Validation

  /** `formData[field]`: `undefined` for a field the form does not hold. */
  function Field(formData: map<string, string>, field: string): Option<string> {
    if field in formData then Some(formData[field]) else None
  }

  /** The errors `validateForm` records: the message of every field whose rule fails, and nothing else. */
  function FormErrors(rules: map<string, Rule>, formData: map<string, string>): (r: map<string, string>)
    ensures r.Keys <= rules.Keys
    ensures forall f | f in r :: r[f] != ""
  {
    map f | f in rules && Check(rules[f], Field(formData, f)) != "" :: Check(rules[f], Field(formData, f))
  }

  /** A form is valid exactly when every rule accepts its field. */
  lemma {:induction false} NoErrorsIffAllPass(rules: map<string, Rule>, formData: map<string, string>)
    ensures |FormErrors(rules, formData)| == 0 <==> forall f | f in rules :: Check(rules[f], Field(formData, f)) == ""
  {
    var errors := FormErrors(rules, formData);
    if |errors| == 0 {
      forall f | f in rules ensures Check(rules[f], Field(formData, f)) == "" {
        assert f !in errors.Keys;
      }
    } else {
      var f :| f in errors;
      assert Check(rules[f], Field(formData, f)) != "";
    }
  }

  /** A field without a rule plays no part, whatever it holds. */
  lemma UnruledFieldIgnored(rules: map<string, Rule>, formData: map<string, string>, field: string, value: string)
    requires field !in rules
    ensures FormErrors(rules, formData[field := value]) == FormErrors(rules, formData)
  {
    assert forall f | f in rules :: Field(formData[field := value], f) == Field(formData, f);
  }

  /** Fixing one field removes its error and leaves every other entry as it was. */
  lemma FixingOneField(rules: map<string, Rule>, formData: map<string, string>, field: string, value: string)
    requires field in rules && Check(rules[field], Some(value)) == ""
    ensures FormErrors(rules, formData[field := value]) == FormErrors(rules, formData) - {field}
  {
    var before := FormErrors(rules, formData);
    var after := FormErrors(rules, formData[field := value]);
    assert forall f | f in rules && f != field :: Field(formData[field := value], f) == Field(formData, f);
    assert field !in after by { assert Field(formData[field := value], field) == Some(value); }
    assert after.Keys == (before - {field}).Keys;
  }

  class FormState {
    const rules: map<string, Rule>
    /** The `errors` state of the hook. */
    var errors: map<string, string>

    constructor (rules: map<string, Rule>)
      ensures this.rules == rules && errors == map[]
    {
      this.rules := rules;
      errors := map[];
    }

    /**
     * `validateField`: a field with a rule gets the rule's message (possibly
     * the empty one) recorded under its name, and the answer is whether it
     * passed; a field without a rule is accepted and nothing is recorded.
     */
    method ValidateField(name: string, value: Option<string>) returns (ok: bool)
      modifies this
      ensures name !in rules ==> ok && errors == old(errors)
      ensures name in rules ==>
        errors == old(errors)[name := Check(rules[name], value)] && (ok <==> Check(rules[name], value) == "")
    {
      if name in rules {
        var error := Check(rules[name], value);
        errors := errors[name := error];
        return error == "";
      }
      return true;
    }

    /**
     * `validateForm`: every rule is applied to its field, the failures
     * replace the previous errors wholesale, and the form is valid when
     * there are none.
     */
    method ValidateForm(formData: map<string, string>) returns (valid: bool)
      modifies this
      ensures errors == FormErrors(rules, formData)
      ensures valid <==> forall f | f in rules :: Check(rules[f], Field(formData, f)) == ""
    {
      var newErrors: map<string, string> := map[];
      var remaining := rules.Keys;
      while remaining != {}
        invariant remaining <= rules.Keys
        invariant forall f :: f in newErrors <==>
          f in rules && f !in remaining && Check(rules[f], Field(formData, f)) != ""
        invariant forall f | f in newErrors :: newErrors[f] == Check(rules[f], Field(formData, f))
        decreases remaining
      {
        var field :| field in remaining;
        var error := Check(rules[field], Field(formData, field));
        if error != "" {
          newErrors := newErrors[field := error];
        }
        remaining := remaining - {field};
      }
      errors := newErrors;
      NoErrorsIffAllPass(rules, formData);
      valid := |newErrors| == 0;
    }

    /** `clearError`: drops one field's entry, keeping every other. */
    method ClearError(field: string)
      modifies this
      ensures errors == old(errors) - {field}
      ensures field !in errors && forall f | f in old(errors) && f != field :: f in errors && errors[f] == old(errors)[f]
    {
      errors := errors - {field};
    }

    /** `clearAllErrors`. */
    method ClearAllErrors()
      modifies this
      ensures errors == map[]
    {
      errors := map[];
    }
  }
}
