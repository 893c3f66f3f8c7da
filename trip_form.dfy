/** The trip ("deslocamento") dialog. Its mode is fixed by the `form` prop:
    none starts a trip (START), a record closes that trip (CLOSE). Each
    mode has its own schema and its own request. */
module TripForm {
  import opened JsValues
  import opened Api
  import opened Validation

  /** `cleanData`: every draft field empty; there is no `id`. */
  const CleanData: Record := map[
    "kmInicial" := Text(""), "kmFinal" := Text(""),
    "inicioDeslocamento" := Text(""), "fimDeslocamento" := Text(""),
    "checkList" := Text(""), "motivo" := Text(""), "observacao" := Text(""),
    "idCondutor" := Text(""), "idVeiculo" := Text(""), "idCliente" := Text("")]

  /** The four START fields, each a number >= 0. */
  const StartFields: set<string> := {"kmInicial", "idCondutor", "idVeiculo", "idCliente"}

  const StartSchema: Schema := [
    FieldRules("kmInicial", [NonNegativeNumber]),
    FieldRules("idCondutor", [NonNegativeNumber]),
    FieldRules("idVeiculo", [NonNegativeNumber]),
    FieldRules("idCliente", [NonNegativeNumber])]

  const CloseSchema: Schema := [FieldRules("kmFinal", [NonNegativeNumber])]

  /** The schema `validateForm` picks: `if (!form)`. */
  function SchemaFor(form: Option<Record>): Schema {
    if form.None? then StartSchema else CloseSchema
  }

  /** The four fields a CLOSE request carries, read from the draft. */
  const CloseFields: set<string> := {"id", "kmFinal", "fimDeslocamento", "observacao"}

  function CloseBody(draft: Record): (body: Record)
    ensures body.Keys == CloseFields
    ensures forall k :: k in body ==> body[k] == Get(draft, k)
  {
    map k | k in CloseFields :: Get(draft, k)
  }

  /** The request a valid submission issues. */
  function SubmitRequest(form: Option<Record>, draft: Record): Request {
    match form
    case None => Request(Post, [Lit("Deslocamento/IniciarDeslocamento")], draft)
    case Some(f) =>
      Request(Put, [Lit("Deslocamento/"), Param(Get(f, "id")), Lit("/EncerrarDeslocamento")], CloseBody(draft))
  }

  /** START posts the whole draft; CLOSE puts exactly the four closing
      fields to the path of the trip being closed. */
  lemma SubmitRequestShape(form: Option<Record>, draft: Record)
    ensures form.None? ==>
      (SubmitRequest(form, draft).verb == Post &&
       SubmitRequest(form, draft).path == [Lit("Deslocamento/IniciarDeslocamento")] &&
       SubmitRequest(form, draft).body == draft)
    ensures form.Some? ==>
      (SubmitRequest(form, draft).verb == Put &&
       SubmitRequest(form, draft).path ==
         [Lit("Deslocamento/"), Param(Get(form.value, "id")), Lit("/EncerrarDeslocamento")] &&
       SubmitRequest(form, draft).body.Keys == CloseFields &&
       forall k :: k in CloseFields ==> SubmitRequest(form, draft).body[k] == Get(draft, k))
  {
  }

  /** The paths of a schema. */
  function Paths(schema: Schema): set<string> {
    set i | 0 <= i < |schema| :: schema[i].path
  }

  lemma {:induction false} RulesForNumeric(schema: Schema, p: string)
    requires forall i :: 0 <= i < |schema| ==> schema[i].rules == [NonNegativeNumber]
    ensures RulesFor(schema, p) == if p in Paths(schema) then [NonNegativeNumber] else []
  {
    if schema != [] {
      var rest := schema[1..];
      RulesForNumeric(rest, p);
      assert Paths(schema) == {schema[0].path} + Paths(rest) by {
        forall q | q in Paths(schema) ensures q in {schema[0].path} + Paths(rest) {
          var i :| 0 <= i < |schema| && schema[i].path == q;
          if i > 0 { assert rest[i - 1] == schema[i]; }
        }
        forall q | q in Paths(rest) ensures q in Paths(schema) {
          var i :| 0 <= i < |rest| && rest[i].path == q;
          assert schema[i + 1] == rest[i];
        }
      }
    }
  }

  /** For a schema that gives every path the one number rule: a path is in
      the error map iff it is in the schema and its value fails the rule,
      and it then holds that rule's message. */
  lemma NumericSchemaMeaning(cast: NumberCast, schema: Schema, draft: Record)
    requires DistinctPaths(schema)
    requires forall i :: 0 <= i < |schema| ==> schema[i].rules == [NonNegativeNumber]
    ensures forall p :: p in ErrorMap(Issues(cast, schema, draft)) <==>
      (p in Paths(schema) && Violation(cast, NonNegativeNumber, Get(draft, p)).Some?)
    ensures forall p :: p in ErrorMap(Issues(cast, schema, draft)) ==>
      ErrorMap(Issues(cast, schema, draft))[p] == Text(Violation(cast, NonNegativeNumber, Get(draft, p)).value)
    ensures Issues(cast, schema, draft) == [] <==>
      forall p :: p in Paths(schema) ==> Violation(cast, NonNegativeNumber, Get(draft, p)).None?
  {
    var errors := ErrorMap(Issues(cast, schema, draft));
    forall p ensures p in errors <==>
      (p in Paths(schema) && Violation(cast, NonNegativeNumber, Get(draft, p)).Some?)
    {
      ErrorKeyAt(cast, schema, draft, p);
      NumericFieldMessages(cast, schema, p, draft);
    }
    forall p | p in errors
      ensures errors[p] == Text(Violation(cast, NonNegativeNumber, Get(draft, p)).value)
    {
      ErrorMessageAt(cast, schema, draft, p);
      NumericFieldMessages(cast, schema, p, draft);
    }
    NoIssuesIff(cast, schema, draft);
    forall i | 0 <= i < |schema|
      ensures FieldMessages(cast, schema, schema[i].path, draft) == [] <==>
        Violation(cast, NonNegativeNumber, Get(draft, schema[i].path)).None?
    {
      NumericFieldMessages(cast, schema, schema[i].path, draft);
    }
  }

  /** In such a schema a path reports the number rule's message when it is
      named and breaks the rule, and nothing otherwise. */
  lemma NumericFieldMessages(cast: NumberCast, schema: Schema, p: string, draft: Record)
    requires forall i :: 0 <= i < |schema| ==> schema[i].rules == [NonNegativeNumber]
    ensures FieldMessages(cast, schema, p, draft) ==
      (if p in Paths(schema) && Violation(cast, NonNegativeNumber, Get(draft, p)).Some?
       then [Violation(cast, NonNegativeNumber, Get(draft, p)).value] else [])
  {
    RulesForNumeric(schema, p);
    var v := Get(draft, p);
    assert [NonNegativeNumber][1..] == [];
    assert RuleMessages(cast, [], v) == [];
    assert RuleMessages(cast, [NonNegativeNumber], v) ==
      (if Violation(cast, NonNegativeNumber, v).Some? then [Violation(cast, NonNegativeNumber, v).value] else []);
  }

  /** START validates exactly `kmInicial`, `idCondutor`, `idVeiculo` and
      `idCliente`, each as a number >= 0. */
  lemma StartSchemaMeaning(cast: NumberCast, draft: Record)
    ensures forall p :: p in ErrorMap(Issues(cast, StartSchema, draft)) <==>
      (p in StartFields && Violation(cast, NonNegativeNumber, Get(draft, p)).Some?)
    ensures forall p :: p in ErrorMap(Issues(cast, StartSchema, draft)) ==>
      ErrorMap(Issues(cast, StartSchema, draft))[p] == Text(Violation(cast, NonNegativeNumber, Get(draft, p)).value)
    ensures Issues(cast, StartSchema, draft) == [] <==>
      forall p :: p in StartFields ==> Violation(cast, NonNegativeNumber, Get(draft, p)).None?
  {
    assert Paths(StartSchema) == StartFields by {
      assert StartSchema[0].path == "kmInicial" && StartSchema[1].path == "idCondutor";
      assert StartSchema[2].path == "idVeiculo" && StartSchema[3].path == "idCliente";
    }
    NumericSchemaMeaning(cast, StartSchema, draft);
  }

  /** CLOSE validates only `kmFinal`, as a number >= 0. */
  lemma CloseSchemaMeaning(cast: NumberCast, draft: Record)
    ensures forall p :: p in ErrorMap(Issues(cast, CloseSchema, draft)) <==>
      (p == "kmFinal" && Violation(cast, NonNegativeNumber, Get(draft, p)).Some?)
    ensures forall p :: p in ErrorMap(Issues(cast, CloseSchema, draft)) ==>
      ErrorMap(Issues(cast, CloseSchema, draft))[p] == Text(Violation(cast, NonNegativeNumber, Get(draft, p)).value)
    ensures Issues(cast, CloseSchema, draft) == [] <==>
      Violation(cast, NonNegativeNumber, Get(draft, "kmFinal")).None?
  {
    assert Paths(CloseSchema) == {"kmFinal"} by {
      assert CloseSchema[0].path == "kmFinal";
    }
    NumericSchemaMeaning(cast, CloseSchema, draft);
  }

  /** The number rule fails with "Deve ser um número" when the value does
      not coerce to a number, and with "Deve ser maior ou igual a zero" when
      it coerces to a negative one; `undefined` passes. */
  lemma NumberRuleMeaning(cast: NumberCast, v: Value)
    ensures Violation(cast, NonNegativeNumber, v).None? <==>
      v.Undefined? || cast(v).Absent? || (cast(v).Numeric? && cast(v).x >= 0.0)
    ensures !v.Undefined? && cast(v).NotANumber? ==> Violation(cast, NonNegativeNumber, v) == Some(NotANumberMessage)
    ensures !v.Undefined? && cast(v).Numeric? && cast(v).x < 0.0 ==>
      Violation(cast, NonNegativeNumber, v) == Some(NegativeMessage)
  {
  }

  /** The string `onSave` receives when a submission fails. */
  function FailureMessage(f: Failure): (s: string)
    ensures f.responseData.Str? ==> s == f.responseData.s
    ensures f.responseData.Missing? && f.message.Str? ==> s == f.message.s
    ensures f.responseData.Other? || (f.responseData.Missing? && !f.message.Str?) ==> s == UnknownError
  {
    Report(StringOrFallback, f).s
  }

  /** The dialog's state. The props the parent passes and the callbacks it
      receives are recorded here too. */
  class TripDialog {
    var isOpen: bool
    var isLoading: bool
    /** The `form` prop: the trip being closed, or None to start one. */
    var form: Option<Record>
    /** `customerData`, the draft being edited. */
    var draft: Record
    var errors: Record
    /** The requests sent, in order. */
    var requests: seq<Request>
    /** The `onSave` calls, in order. */
    var saves: seq<SaveEvent>
    /** How many times `onClose` was called. */
    var closeCalls: nat

    constructor ()
      ensures !isOpen && !isLoading && form.None?
      ensures draft == CleanData && errors == CleanData
      ensures requests == [] && saves == [] && closeCalls == 0
    {
      isOpen, isLoading, form := false, false, None;
      draft, errors := CleanData, CleanData;
      requests, saves, closeCalls := [], [], 0;
    }

    /** The effect that runs when `open` or `form` change: opening shows the
        dialog; the draft becomes the record given, or `cleanData`. */
    method Sync(open: bool, newForm: Option<Record>)
      modifies this
      ensures isOpen == (open || old(isOpen))
      ensures form == newForm
      ensures draft == (if newForm.Some? then newForm.value else CleanData)
      ensures isLoading == old(isLoading) && errors == old(errors)
      ensures requests == old(requests) && saves == old(saves) && closeCalls == old(closeCalls)
    {
      if open {
        isOpen := true;
      }
      form := newForm;
      if newForm.Some? {
        draft := newForm.value;
      } else {
        draft := CleanData;
      }
    }

    /** `handleClose`: closed, not loading, draft and errors reset, `onClose` called. */
    method HandleClose()
      modifies this
      ensures !isOpen && !isLoading
      ensures draft == CleanData && errors == CleanData
      ensures closeCalls == old(closeCalls) + 1
      ensures form == old(form) && requests == old(requests) && saves == old(saves)
    {
      isOpen := false;
      isLoading := false;
      draft := CleanData;
      errors := CleanData;
      closeCalls := closeCalls + 1;
    }

    /** `handleChange`: the input named `name` writes its value. */
    method HandleChange(name: string, value: Value)
      modifies this
      ensures draft == old(draft)[name := value]
      ensures forall k :: k != name ==> Get(draft, k) == Get(old(draft), k)
      ensures isOpen == old(isOpen) && isLoading == old(isLoading) && form == old(form) && errors == old(errors)
      ensures requests == old(requests) && saves == old(saves) && closeCalls == old(closeCalls)
    {
      draft := draft[name := value];
    }

    /** `handleAutocompleteChange`: the chosen option's `id`, or `null`
        when the choice is cleared or has no id. */
    method HandleAutocompleteChange(name: string, option: Option<Record>)
      modifies this
      ensures draft == old(draft)[name := if option.Some? then Nullish(Get(option.value, "id"), Null) else Null]
      ensures option.None? ==> draft[name] == Null
      ensures isOpen == old(isOpen) && isLoading == old(isLoading) && form == old(form) && errors == old(errors)
      ensures requests == old(requests) && saves == old(saves) && closeCalls == old(closeCalls)
    {
      var chosen := if option.Some? then Nullish(Get(option.value, "id"), Null) else Null;
      draft := draft[name := chosen];
    }

    /** `handleDateTimeChange`: the picker's moment, or `null` when cleared. */
    method HandleDateTimeChange(name: string, picked: Option<Date>)
      modifies this
      ensures draft == old(draft)[name := if picked.Some? then Instant(picked.value) else Null]
      ensures isOpen == old(isOpen) && isLoading == old(isLoading) && form == old(form) && errors == old(errors)
      ensures requests == old(requests) && saves == old(saves) && closeCalls == old(closeCalls)
    {
      draft := draft[name := if picked.Some? then Instant(picked.value) else Null];
    }

    /** `validateForm`: validate the draft against the mode's schema; on
        success the errors are reset, otherwise they become the error map. */
    method ValidateForm(cast: NumberCast) returns (valid: bool)
      modifies this
      ensures valid == (Issues(cast, SchemaFor(form), draft) == [])
      ensures errors == if valid then CleanData else ErrorMap(Issues(cast, SchemaFor(form), draft))
      ensures isOpen == old(isOpen) && isLoading == old(isLoading) && form == old(form) && draft == old(draft)
      ensures requests == old(requests) && saves == old(saves) && closeCalls == old(closeCalls)
    {
      var issues := Issues(cast, SchemaFor(form), draft);
      if issues == [] {
        errors := CleanData;
        valid := true;
      } else {
        errors := CollectErrors(issues);
        valid := false;
      }
    }

    /** `handleSubmit`, with the outcome of its request supplied. Invalid:
        nothing is sent. Valid: the mode's request is sent; on success the
        dialog closes and reports success, on failure it reports the error
        message, stops loading and keeps the draft. */
    method HandleSubmit(cast: NumberCast, outcome: Outcome) returns (valid: bool)
      modifies this
      ensures valid == (Issues(cast, SchemaFor(old(form)), old(draft)) == [])
      ensures form == old(form)
      ensures !valid ==>
        errors == ErrorMap(Issues(cast, SchemaFor(form), old(draft))) &&
        draft == old(draft) && isOpen == old(isOpen) && isLoading == old(isLoading) &&
        requests == old(requests) && saves == old(saves) && closeCalls == old(closeCalls)
      ensures valid ==> requests == old(requests) + [SubmitRequest(form, old(draft))]
      ensures valid && outcome.Succeeded? ==>
        !isOpen && !isLoading && draft == CleanData && errors == CleanData &&
        closeCalls == old(closeCalls) + 1 &&
        saves == old(saves) + [SaveEvent(Str(SavedMessage), "success")]
      ensures valid && outcome.Failed? ==>
        !isLoading && isOpen == old(isOpen) && draft == old(draft) && errors == CleanData &&
        closeCalls == old(closeCalls) &&
        saves == old(saves) + [SaveEvent(Str(FailureMessage(outcome.failure)), "error")]
    {
      valid := ValidateForm(cast);
      if valid {
        isLoading := true;
        requests := requests + [SubmitRequest(form, draft)];
        if outcome.Succeeded? {
          HandleClose();
          saves := saves + [SaveEvent(Str(SavedMessage), "success")];
        } else {
          saves := saves + [SaveEvent(Str(FailureMessage(outcome.failure)), "error")];
          isLoading := false;
        }
      }
    }
  }
}
