/**
 * The request validator's translation step: the validation library reports
 * a list of failed rules, one per field error, and `ValidateStruct` turns it
 * into one readable message per error, a field-to-message details map and a
 * single 400 `VALIDATION_ERROR`.
 */
module Validator {
  import opened Common
  import opened Text
  import opened AppErrors

  /** One failed rule, as the validation library reports it. */
  datatype FieldError = FieldError(field: string, tag: string, param: string)

  /** How a rule's message goes on after the quoted field: a fixed text, or a value between two texts. */
  datatype Template = Fixed(text: string) | Around(before: string, after: string)

  function Fill(t: Template, value: string): string {
    match t
    case Fixed(text) => text
    case Around(before, after) => before + value + after
  }

  /** The tags the translation's switch lists, in its order, each with the template its parameter fills. */
  const Templates: seq<(string, Template)> := [
    ("required", Fixed(" is required.")),
    ("email", Fixed(" must be a valid email address.")),
    ("min", Around(" must be at least ", " characters long.")),
    ("max", Around(" must not exceed ", " characters.")),
    ("gt", Around(" must be greater than ", ".")),
    ("oneof", Around(" must be one of: ", ".")),
    ("datetime", Around(" must be in format '", "'."))]

  /** The switch's default: the template the tag itself fills. */
  const Unlisted := Around(" is invalid due to '", "' validation rule.")

  /** The template of the first entry of `table` for `tag`, if any. */
  function TemplateIn(tag: string, table: seq<(string, Template)>): Option<Template> {
    if table == [] then None
    else if tag == table[0].0 then Some(table[0].1)
    else TemplateIn(tag, table[1..])
  }

  /** What follows the quoted field name, chosen by the tag. */
  function RuleText(tag: string, param: string): string {
    match TemplateIn(tag, Templates)
    case Some(t) => Fill(t, param)
    case None => Fill(Unlisted, tag)
  }

  /** The message for one failed rule: the lower-cased field, quoted, then what its tag demands. */
  function FieldMessage(fe: FieldError): string {
    "Field '" + ToLower(fe.field) + "'" + RuleText(fe.tag, fe.param)
  }

  /** The tags with a message of their own. */
  predicate KnownTag(tag: string) {
    tag in {"required", "email", "min", "max", "gt", "oneof", "datetime"}
  }

  /** A tag has a template exactly when some entry of the table is for it. */
  lemma {:induction false} TemplateInMeaning(tag: string, table: seq<(string, Template)>)
    ensures TemplateIn(tag, table).None? <==> forall i :: 0 <= i < |table| ==> table[i].0 != tag
  {
    if table != [] {
      var rest := table[1..];
      assert forall i :: 0 <= i < |rest| ==> rest[i] == table[i + 1];
      TemplateInMeaning(tag, rest);
      if tag != table[0].0 && TemplateIn(tag, rest).None? {
        forall i | 0 <= i < |table| ensures table[i].0 != tag {
          if i > 0 {
            assert table[i] == rest[i - 1];
          }
        }
      }
    }
  }

  /** Exactly the known tags have a message of their own. */
  lemma TemplateKnown(tag: string)
    ensures TemplateIn(tag, Templates).None? <==> !KnownTag(tag)
  {
    TemplateInMeaning(tag, Templates);
    assert KnownTag(tag) <==> exists i :: 0 <= i < |Templates| && Templates[i].0 == tag;
  }

  /** Each listed tag's own template. */
  lemma TemplatesListed()
    ensures TemplateIn("required", Templates) == Some(Fixed(" is required."))
    ensures TemplateIn("email", Templates) == Some(Fixed(" must be a valid email address."))
    ensures TemplateIn("min", Templates) == Some(Around(" must be at least ", " characters long."))
    ensures TemplateIn("max", Templates) == Some(Around(" must not exceed ", " characters."))
    ensures TemplateIn("gt", Templates) == Some(Around(" must be greater than ", "."))
    ensures TemplateIn("oneof", Templates) == Some(Around(" must be one of: ", "."))
    ensures TemplateIn("datetime", Templates) == Some(Around(" must be in format '", "'."))
  {
  }

  /** Every message opens by naming the lower-cased field, quoted. */
  lemma FieldMessageNamesField(fe: FieldError)
    ensures var m := FieldMessage(fe);
      var f := ToLower(fe.field);
      |m| >= 8 + |f| && m[..7] == "Field '" && m[7..7 + |f|] == f && m[7 + |f|] == '\''
  {
    var f := ToLower(fe.field);
    var m := FieldMessage(fe);
    assert m[..7] == "Field '";
    assert m[7..7 + |f|] == f;
  }

  /** A tag the switch does not list gets the generic message, which names the tag. */
  lemma UnknownTagMessage(fe: FieldError)
    requires !KnownTag(fe.tag)
    ensures FieldMessage(fe) == "Field '" + ToLower(fe.field) + "'" + " is invalid due to '" + fe.tag + "' validation rule."
  {
    TemplateKnown(fe.tag);
  }

  predicate EndsWith(s: string, suffix: string) {
    |suffix| <= |s| && s[|s| - |suffix|..] == suffix
  }

  lemma EndsWithAppend(s: string, t: string)
    ensures EndsWith(s + t, t)
  {
    assert (s + t)[|s + t| - |t|..] == t;
  }

  /** The messages of the rules that take a parameter end with the rule's text around the parameter. */
  lemma ParamMessages(fe: FieldError)
    ensures var m := FieldMessage(fe);
      var p := fe.param;
      && (fe.tag == "min" ==> EndsWith(m, " must be at least " + p + " characters long."))
      && (fe.tag == "max" ==> EndsWith(m, " must not exceed " + p + " characters."))
      && (fe.tag == "gt" ==> EndsWith(m, " must be greater than " + p + "."))
      && (fe.tag == "oneof" ==> EndsWith(m, " must be one of: " + p + "."))
      && (fe.tag == "datetime" ==> EndsWith(m, " must be in format '" + p + "'."))
  {
    TemplatesListed();
    EndsWithAppend("Field '" + ToLower(fe.field) + "'", RuleText(fe.tag, fe.param));
  }

  /** A map written key by key, in order: a later write to a key replaces the earlier one. */
  function WriteAll(keys: seq<string>, values: seq<string>): map<string, string>
    requires |keys| == |values|
  {
    if keys == [] then map[]
    else
      var n := |keys| - 1;
      WriteAll(keys[..n], values[..n])[keys[n] := values[n]]
  }

  /** Writing one more key and value updates the map written so far. */
  lemma WriteAllPrefix(keys: seq<string>, values: seq<string>, k: int)
    requires |keys| == |values| && 0 <= k < |keys|
    ensures WriteAll(keys[..k + 1], values[..k + 1]) == WriteAll(keys[..k], values[..k])[keys[k] := values[k]]
  {
    assert keys[..k + 1][..k] == keys[..k] && values[..k + 1][..k] == values[..k];
  }

  /** The keys written are exactly the keys of the map. */
  lemma {:induction false} WriteAllKeys(keys: seq<string>, values: seq<string>, key: string)
    requires |keys| == |values|
    ensures key in WriteAll(keys, values) <==> key in keys
  {
    if keys != [] {
      var n := |keys| - 1;
      WriteAllKeys(keys[..n], values[..n], key);
      assert keys == keys[..n] + [keys[n]];
    }
  }

  /** A key holds the value of its last write. */
  lemma {:induction false} WriteAllLastWins(keys: seq<string>, values: seq<string>, i: int)
    requires |keys| == |values| && 0 <= i < |keys|
    requires forall j :: i < j < |keys| ==> keys[j] != keys[i]
    ensures keys[i] in WriteAll(keys, values) && WriteAll(keys, values)[keys[i]] == values[i]
  {
    var n := |keys| - 1;
    if i < n {
      var ks, vs := keys[..n], values[..n];
      assert forall j :: i < j < |ks| ==> ks[j] == keys[j];
      WriteAllLastWins(ks, vs, i);
      assert ks[i] == keys[i] && vs[i] == values[i];
    }
  }

  /** The lower-cased field of each reported error, in order. */
  function FieldKeys(errs: seq<FieldError>): (keys: seq<string>)
    ensures |keys| == |errs|
  {
    seq(|errs|, i requires 0 <= i < |errs| => ToLower(errs[i].field))
  }

  /** The message of each reported error, in order. */
  function Messages(errs: seq<FieldError>): (msgs: seq<string>)
    ensures |msgs| == |errs|
  {
    seq(|errs|, i requires 0 <= i < |errs| => FieldMessage(errs[i]))
  }

  /** The details map: each error writes its message under its lower-cased field. */
  function DetailsOf(errs: seq<FieldError>): map<string, string> {
    WriteAll(FieldKeys(errs), Messages(errs))
  }

  /** The details have a key for exactly the lower-cased fields of the reported errors. */
  lemma DetailsKeys(errs: seq<FieldError>, key: string)
    ensures key in DetailsOf(errs) <==> exists i :: 0 <= i < |errs| && ToLower(errs[i].field) == key
  {
    var keys := FieldKeys(errs);
    WriteAllKeys(keys, Messages(errs), key);
    if key in keys {
      var i :| 0 <= i < |keys| && keys[i] == key;
      assert ToLower(errs[i].field) == key;
    }
    if exists i :: 0 <= i < |errs| && ToLower(errs[i].field) == key {
      var i :| 0 <= i < |errs| && ToLower(errs[i].field) == key;
      assert keys[i] == key;
    }
  }

  /** The details hold, for each field, the message of the last error reported for it. */
  lemma DetailsLastWins(errs: seq<FieldError>, i: int)
    requires 0 <= i < |errs|
    requires forall j :: i < j < |errs| ==> ToLower(errs[j].field) != ToLower(errs[i].field)
    ensures ToLower(errs[i].field) in DetailsOf(errs)
            && DetailsOf(errs)[ToLower(errs[i].field)] == FieldMessage(errs[i])
  {
    var keys, msgs := FieldKeys(errs), Messages(errs);
    assert forall j :: i < j < |keys| ==> keys[j] == ToLower(errs[j].field);
    WriteAllLastWins(keys, msgs, i);
    assert keys[i] == ToLower(errs[i].field) && msgs[i] == FieldMessage(errs[i]);
  }

  /** The details keys are already lower-case: lower-casing them again changes nothing. */
  lemma DetailsKeysLowerCase(errs: seq<FieldError>, key: string)
    requires key in DetailsOf(errs)
    ensures ToLower(key) == key
  {
    DetailsKeys(errs, key);
    var i :| 0 <= i < |errs| && ToLower(errs[i].field) == key;
    ToLowerIdempotent(errs[i].field);
  }

  /** The error `ValidateStruct` returns for a non-empty list. */
  function ValidationError(errs: seq<FieldError>, cause: string): AppError {
    ApplyOptions(Fresh(StatusBadRequest, "Validation failed"),
                 [WithCode("VALIDATION_ERROR"), WithDetails(DetailsOf(errs)), WithCause(cause)])
  }

  lemma ValidationErrorShape(errs: seq<FieldError>, cause: string)
    ensures var e := ValidationError(errs, cause);
      && e.statusCode == 400 && e.message == "Validation failed" && e.code == "VALIDATION_ERROR"
      && e.details == Some(DetailsOf(errs)) && e.cause == Some(cause)
      && e.Error() == "Validation failed: " + cause
  {
    var opts := [WithCode("VALIDATION_ERROR"), WithDetails(DetailsOf(errs)), WithCause(cause)];
    var start := Fresh(StatusBadRequest, "Validation failed");
    LastCodeWins(start, opts);
    LastDetailsWins(start, opts);
    LastCauseWins(start, opts);
    assert IsLast(opts, 0, CodeField);
    assert IsLast(opts, 1, DetailsField);
    assert IsLast(opts, 2, CauseField);
  }

  /** The switch over one failed rule's tag: the generic message, unless the tag has its own. */
  method TranslateOne(fieldError: FieldError) returns (msg: string)
    ensures msg == FieldMessage(fieldError)
  {
    TemplatesListed();
    TemplateKnown(fieldError.tag);
    var field := ToLower(fieldError.field);
    var param := fieldError.param;
    var rule := " is invalid due to '" + fieldError.tag + "' validation rule.";
    match fieldError.tag {
      case "required" => rule := " is required.";
      case "email" => rule := " must be a valid email address.";
      case "min" => rule := " must be at least " + param + " characters long.";
      case "max" => rule := " must not exceed " + param + " characters.";
      case "gt" => rule := " must be greater than " + param + ".";
      case "oneof" => rule := " must be one of: " + param + ".";
      case "datetime" => rule := " must be in format '" + param + "'.";
      case _ =>
    }
    msg := "Field '" + field + "'" + rule;
  }

  /**
   * The loop over the reported errors: one message per error, in order, and
   * the details map from each lower-cased field to its message.
   */
  method TranslateAll(errs: seq<FieldError>) returns (errorMessages: seq<string>, details: map<string, string>)
    ensures errorMessages == Messages(errs)
    ensures details == DetailsOf(errs)
  {
    ghost var keys, msgs := FieldKeys(errs), Messages(errs);
    errorMessages := [];
    details := map[];
    for k := 0 to |errs|
      invariant errorMessages == msgs[..k]
      invariant details == WriteAll(keys[..k], msgs[..k])
    {
      var fieldError := errs[k];
      var field := ToLower(fieldError.field);
      var msg := TranslateOne(fieldError);
      assert field == keys[k] && msg == msgs[k];
      WriteAllPrefix(keys, msgs, k);
      assert msgs[..k + 1] == msgs[..k] + [msgs[k]];
      errorMessages := errorMessages + [msg];
      details := details[field := msg];
    }
    assert keys[..|errs|] == keys && msgs[..|errs|] == msgs;
  }

  /**
   * The package's validator, created on first use. The library's rule
   * evaluation is outside the model: a validation run is its list of field
   * errors and the text of that list as an error.
   */
  class Validation {
    var initialized: bool

    constructor ()
      ensures !initialized
    {
      initialized := false;
    }

    /** `InitValidator`. */
    method Init()
      modifies this
      ensures initialized
    {
      initialized := true;
    }

    /**
     * `ValidateStruct`: initialises the validator when it is not yet, and
     * turns the reported errors into one 400 `VALIDATION_ERROR` whose details
     * map each lower-cased field to its message; no errors, no error.
     */
    method ValidateStruct(errs: seq<FieldError>, errText: string) returns (r: Option<AppError>)
      modifies this
      ensures initialized
      ensures r.None? <==> errs == []
      ensures r.Some? ==> r.value == ValidationError(errs, errText)
    {
      if !initialized {
        Init();
      }
      if errs != [] {
        var errorMessages, details := TranslateAll(errs);
        var e := NewAppError(StatusBadRequest, "Validation failed",
                             [WithCode("VALIDATION_ERROR"), WithDetails(details), WithCause(errText)]);
        return Some(e);
      }
      return None;
    }
  }
}
