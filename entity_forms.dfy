/** The client, conductor and vehicle dialogs. The three components share
    one shape (open/close/reset, a change handler, a schema, one POST) and
    differ in their fields, their rules, their date handler and how they
    word a failure; `EntityDialog` is that shape, and `Entity` says which
    of the three it is. */
module EntityForms {
  import opened JsValues
  import opened Api
  import opened Validation
  import opened DateHelper

  datatype Entity = Client | Conductor | Vehicle

  /** `cleanData` of each dialog: every field an empty string. */
  function CleanData(kind: Entity): Record {
    match kind
    case Client => map[
      "nome" := Text(""), "numeroDocumento" := Text(""), "tipoDocumento" := Text(""),
      "logradouro" := Text(""), "numero" := Text(""), "bairro" := Text(""),
      "cidade" := Text(""), "uf" := Text("")]
    case Conductor => map[
      "nome" := Text(""), "numeroHabilitacao" := Text(""),
      "categoriaHabilitacao" := Text(""), "vencimentoHabilitacao" := Text("")]
    case Vehicle => map[
      "placa" := Text(""), "marcaModelo" := Text(""), "anoFabricacao" := Text(""), "kmAtual" := Text("")]
  }

  const MinThreeMessage: string := "Mínimo de 3 caracteres"
  const DigitsMessage: string := "Deve conter apenas números"

  const ClientSchema: Schema := [
    FieldRules("nome", [MinLength(3, MinThreeMessage), Required(RequiredMessage)]),
    FieldRules("numeroDocumento", [Matches(Digits, DigitsMessage), Required(RequiredMessage)]),
    FieldRules("tipoDocumento", [Required(RequiredMessage)]),
    FieldRules("uf", [MaxLength(2, "Máximo 2 caracteres"), Matches(LettersOrSpaces, "Deve conter apenas letras")])]

  const ConductorSchema: Schema := [
    FieldRules("nome", [MinLength(3, MinThreeMessage), Required(RequiredMessage)]),
    FieldRules("numeroHabilitacao", [Matches(Digits, DigitsMessage), Required(RequiredMessage)]),
    FieldRules("categoriaHabilitacao", [MaxLength(2, "Máximo de 2 caracteres"), Required(RequiredMessage)])]

  const VehicleSchema: Schema := [
    FieldRules("placa", [MinLength(3, MinThreeMessage), Required(RequiredMessage)]),
    FieldRules("marcaModelo", [Required(RequiredMessage)]),
    FieldRules("kmAtual", [NonNegativeNumber])]

  function SchemaOf(kind: Entity): Schema {
    match kind
    case Client => ClientSchema
    case Conductor => ConductorSchema
    case Vehicle => VehicleSchema
  }

  /** The API resource each dialog posts to. */
  function Resource(kind: Entity): string {
    match kind
    case Client => "Cliente"
    case Conductor => "Condutor"
    case Vehicle => "Veiculo"
  }

  /** Client and conductor pass `data || message` on as it is; vehicle
      passes a string on and replaces anything else by the fixed text. */
  function SavePolicy(kind: Entity): MessagePolicy {
    if kind == Vehicle then StringOrFallback else RawOr
  }

  /** A field fails `schema` when it reports at least one message. */
  predicate Fails(cast: NumberCast, schema: Schema, path: string, r: Record) {
    FieldMessages(cast, schema, path, r) != []
  }

  /** A text field holding at least `n` characters. */
  predicate HasAtLeast(r: Record, path: string, n: nat) {
    TextOf(Get(r, path)).Some? && |TextOf(Get(r, path)).value| >= n
  }

  /** A field the schema does not name never fails. */
  lemma UnnamedFieldsPass(cast: NumberCast, schema: Schema, named: set<string>, r: Record)
    requires forall i :: 0 <= i < |schema| ==> schema[i].path in named
    ensures forall p :: p !in named ==> !Fails(cast, schema, p, r)
  {
    forall p | p !in named
      ensures !Fails(cast, schema, p, r)
    {
      RulesForMissing(schema, p);
    }
  }

  lemma ClientNameRule(cast: NumberCast, r: Record)
    ensures Fails(cast, ClientSchema, "nome", r) <==> !HasAtLeast(r, "nome", 3)
  {
    FieldFailsAt(cast, ClientSchema, 0, r);
    assert ClientSchema[0].rules[0] == MinLength(3, MinThreeMessage);
    assert ClientSchema[0].rules[1] == Required(RequiredMessage);
  }

  lemma ClientDocumentRule(cast: NumberCast, r: Record)
    ensures Fails(cast, ClientSchema, "numeroDocumento", r) <==>
      !(TextOf(Get(r, "numeroDocumento")).Some? && MatchesPattern(Digits, TextOf(Get(r, "numeroDocumento")).value))
  {
    FieldFailsAt(cast, ClientSchema, 1, r);
    assert ClientSchema[1].rules[0] == Matches(Digits, DigitsMessage);
    assert ClientSchema[1].rules[1] == Required(RequiredMessage);
  }

  lemma ClientDocumentTypeRule(cast: NumberCast, r: Record)
    ensures Fails(cast, ClientSchema, "tipoDocumento", r) <==> !HasAtLeast(r, "tipoDocumento", 1)
  {
    FieldFailsAt(cast, ClientSchema, 2, r);
    assert ClientSchema[2].rules[0] == Required(RequiredMessage);
  }

  lemma ClientStateRule(cast: NumberCast, r: Record)
    ensures Fails(cast, ClientSchema, "uf", r) <==>
      TextOf(Get(r, "uf")).Some? &&
      (|TextOf(Get(r, "uf")).value| > 2 || !MatchesPattern(LettersOrSpaces, TextOf(Get(r, "uf")).value))
  {
    FieldFailsAt(cast, ClientSchema, 3, r);
    assert ClientSchema[3].rules[0] == MaxLength(2, "Máximo 2 caracteres");
    assert ClientSchema[3].rules[1] == Matches(LettersOrSpaces, "Deve conter apenas letras");
  }

  /** The client rules: `nome` required with at least 3 characters;
      `numeroDocumento` required, digits only; `tipoDocumento` required;
      `uf` optional, at most 2 characters, letters or whitespace only; no
      other field is checked. */
  lemma ClientRules(cast: NumberCast, r: Record)
    ensures Fails(cast, ClientSchema, "nome", r) <==> !HasAtLeast(r, "nome", 3)
    ensures Fails(cast, ClientSchema, "numeroDocumento", r) <==>
      !(TextOf(Get(r, "numeroDocumento")).Some? && MatchesPattern(Digits, TextOf(Get(r, "numeroDocumento")).value))
    ensures Fails(cast, ClientSchema, "tipoDocumento", r) <==> !HasAtLeast(r, "tipoDocumento", 1)
    ensures Fails(cast, ClientSchema, "uf", r) <==>
      TextOf(Get(r, "uf")).Some? &&
      (|TextOf(Get(r, "uf")).value| > 2 || !MatchesPattern(LettersOrSpaces, TextOf(Get(r, "uf")).value))
    ensures forall p :: p !in {"nome", "numeroDocumento", "tipoDocumento", "uf"} ==> !Fails(cast, ClientSchema, p, r)
  {
    ClientNameRule(cast, r);
    ClientDocumentRule(cast, r);
    ClientDocumentTypeRule(cast, r);
    ClientStateRule(cast, r);
    UnnamedFieldsPass(cast, ClientSchema, {"nome", "numeroDocumento", "tipoDocumento", "uf"}, r);
  }

  lemma ConductorNameRule(cast: NumberCast, r: Record)
    ensures Fails(cast, ConductorSchema, "nome", r) <==> !HasAtLeast(r, "nome", 3)
  {
    FieldFailsAt(cast, ConductorSchema, 0, r);
    assert ConductorSchema[0].rules[0] == MinLength(3, MinThreeMessage);
    assert ConductorSchema[0].rules[1] == Required(RequiredMessage);
  }

  lemma ConductorLicenceRule(cast: NumberCast, r: Record)
    ensures Fails(cast, ConductorSchema, "numeroHabilitacao", r) <==>
      !(TextOf(Get(r, "numeroHabilitacao")).Some? && MatchesPattern(Digits, TextOf(Get(r, "numeroHabilitacao")).value))
  {
    FieldFailsAt(cast, ConductorSchema, 1, r);
    assert ConductorSchema[1].rules[0] == Matches(Digits, DigitsMessage);
    assert ConductorSchema[1].rules[1] == Required(RequiredMessage);
  }

  lemma ConductorCategoryRule(cast: NumberCast, r: Record)
    ensures Fails(cast, ConductorSchema, "categoriaHabilitacao", r) <==>
      !(HasAtLeast(r, "categoriaHabilitacao", 1) && |TextOf(Get(r, "categoriaHabilitacao")).value| <= 2)
  {
    FieldFailsAt(cast, ConductorSchema, 2, r);
    assert ConductorSchema[2].rules[0] == MaxLength(2, "Máximo de 2 caracteres");
    assert ConductorSchema[2].rules[1] == Required(RequiredMessage);
  }

  /** The conductor rules: `nome` required with at least 3 characters;
      `numeroHabilitacao` required, digits only; `categoriaHabilitacao`
      required with at most 2 characters; `vencimentoHabilitacao` and any
      other field are not checked. */
  lemma ConductorRules(cast: NumberCast, r: Record)
    ensures Fails(cast, ConductorSchema, "nome", r) <==> !HasAtLeast(r, "nome", 3)
    ensures Fails(cast, ConductorSchema, "numeroHabilitacao", r) <==>
      !(TextOf(Get(r, "numeroHabilitacao")).Some? && MatchesPattern(Digits, TextOf(Get(r, "numeroHabilitacao")).value))
    ensures Fails(cast, ConductorSchema, "categoriaHabilitacao", r) <==>
      !(HasAtLeast(r, "categoriaHabilitacao", 1) && |TextOf(Get(r, "categoriaHabilitacao")).value| <= 2)
    ensures forall p :: p !in {"nome", "numeroHabilitacao", "categoriaHabilitacao"} ==> !Fails(cast, ConductorSchema, p, r)
  {
    ConductorNameRule(cast, r);
    ConductorLicenceRule(cast, r);
    ConductorCategoryRule(cast, r);
    UnnamedFieldsPass(cast, ConductorSchema, {"nome", "numeroHabilitacao", "categoriaHabilitacao"}, r);
  }

  lemma VehiclePlateRule(cast: NumberCast, r: Record)
    ensures Fails(cast, VehicleSchema, "placa", r) <==> !HasAtLeast(r, "placa", 3)
  {
    FieldFailsAt(cast, VehicleSchema, 0, r);
    assert VehicleSchema[0].rules[0] == MinLength(3, MinThreeMessage);
    assert VehicleSchema[0].rules[1] == Required(RequiredMessage);
  }

  lemma VehicleModelRule(cast: NumberCast, r: Record)
    ensures Fails(cast, VehicleSchema, "marcaModelo", r) <==> !HasAtLeast(r, "marcaModelo", 1)
  {
    FieldFailsAt(cast, VehicleSchema, 1, r);
    assert VehicleSchema[1].rules[0] == Required(RequiredMessage);
  }

  lemma VehicleMileageRule(cast: NumberCast, r: Record)
    ensures Fails(cast, VehicleSchema, "kmAtual", r) <==>
      Violation(cast, NonNegativeNumber, Get(r, "kmAtual")).Some?
  {
    FieldFailsAt(cast, VehicleSchema, 2, r);
    assert VehicleSchema[2].rules[0] == NonNegativeNumber;
  }

  /** The vehicle rules: `placa` required with at least 3 characters;
      `marcaModelo` required; `kmAtual` a number >= 0; `anoFabricacao` and
      any other field are not checked. */
  lemma VehicleRules(cast: NumberCast, r: Record)
    ensures Fails(cast, VehicleSchema, "placa", r) <==> !HasAtLeast(r, "placa", 3)
    ensures Fails(cast, VehicleSchema, "marcaModelo", r) <==> !HasAtLeast(r, "marcaModelo", 1)
    ensures Fails(cast, VehicleSchema, "kmAtual", r) <==>
      Violation(cast, NonNegativeNumber, Get(r, "kmAtual")).Some?
    ensures forall p :: p !in {"placa", "marcaModelo", "kmAtual"} ==> !Fails(cast, VehicleSchema, p, r)
  {
    VehiclePlateRule(cast, r);
    VehicleModelRule(cast, r);
    VehicleMileageRule(cast, r);
    UnnamedFieldsPass(cast, VehicleSchema, {"placa", "marcaModelo", "kmAtual"}, r);
  }

  /** For every dialog: the draft is valid iff no field fails; the error
      map holds exactly the failing fields, each with one of its messages. */
  lemma EntityValidation(cast: NumberCast, kind: Entity, r: Record)
    ensures Issues(cast, SchemaOf(kind), r) == [] <==>
      forall i :: 0 <= i < |SchemaOf(kind)| ==> !Fails(cast, SchemaOf(kind), SchemaOf(kind)[i].path, r)
    ensures forall p :: p in ErrorMap(Issues(cast, SchemaOf(kind), r)) <==> Fails(cast, SchemaOf(kind), p, r)
    ensures forall p :: p in ErrorMap(Issues(cast, SchemaOf(kind), r)) ==>
      ErrorMap(Issues(cast, SchemaOf(kind), r))[p].Text? &&
      ErrorMap(Issues(cast, SchemaOf(kind), r))[p].s in FieldMessages(cast, SchemaOf(kind), p, r)
  {
    ValidationMeaning(cast, SchemaOf(kind), r);
  }

  class EntityDialog {
    const kind: Entity
    var isOpen: bool
    var isLoading: bool
    /** `customerData`, the draft being edited. */
    var draft: Record
    var errors: Record
    /** The requests sent, in order. */
    var requests: seq<Request>
    /** The `onSave` calls, in order. */
    var saves: seq<SaveEvent>
    /** How many times `onClose` was called. */
    var closeCalls: nat

    constructor (kind: Entity)
      ensures this.kind == kind && !isOpen && !isLoading
      ensures draft == CleanData(kind) && errors == CleanData(kind)
      ensures requests == [] && saves == [] && closeCalls == 0
    {
      this.kind := kind;
      isOpen, isLoading := false, false;
      draft, errors := CleanData(kind), CleanData(kind);
      requests, saves, closeCalls := [], [], 0;
    }

    /** The effect on `open`: opening shows the dialog and keeps the draft. */
    method Sync(open: bool)
      modifies this
      ensures isOpen == (open || old(isOpen))
      ensures isLoading == old(isLoading) && draft == old(draft) && errors == old(errors)
      ensures requests == old(requests) && saves == old(saves) && closeCalls == old(closeCalls)
    {
      if open {
        isOpen := true;
      }
    }

    /** `handleClose`: closed, not loading, draft and errors reset, `onClose` called. */
    method HandleClose()
      modifies this
      ensures !isOpen && !isLoading
      ensures draft == CleanData(kind) && errors == CleanData(kind)
      ensures closeCalls == old(closeCalls) + 1
      ensures requests == old(requests) && saves == old(saves)
    {
      isOpen := false;
      isLoading := false;
      draft := CleanData(kind);
      errors := CleanData(kind);
      closeCalls := closeCalls + 1;
    }

    /** `handleChange`: the text input named `name` writes its text. */
    method HandleChange(name: string, value: string)
      modifies this
      ensures draft == old(draft)[name := Text(value)]
      ensures forall k :: k != name ==> Get(draft, k) == Get(old(draft), k)
      ensures isOpen == old(isOpen) && isLoading == old(isLoading) && errors == old(errors)
      ensures requests == old(requests) && saves == old(saves) && closeCalls == old(closeCalls)
    {
      draft := draft[name := Text(value)];
    }

    /** The conductor's `handleDateChange`: the picked date, as
        `YYYY-MM-DD`, into `vencimentoHabilitacao`; a cleared picker makes
        `date.format` throw, so nothing changes. */
    method HandleDateChange(m: Moment, picked: Option<Date>)
      requires kind == Conductor
      modifies this
      ensures picked.Some? ==>
        draft == old(draft)["vencimentoHabilitacao" := Text(m.render(picked.value, "YYYY-MM-DD"))]
      ensures picked.None? ==> draft == old(draft)
      ensures isOpen == old(isOpen) && isLoading == old(isLoading) && errors == old(errors)
      ensures requests == old(requests) && saves == old(saves) && closeCalls == old(closeCalls)
    {
      if picked.Some? {
        draft := draft["vencimentoHabilitacao" := Text(m.render(picked.value, "YYYY-MM-DD"))];
      }
    }

    /** The vehicle's `handleYearChange`: the picked year, as `YYYY`, into
        `anoFabricacao`; a cleared picker makes `date.format` throw. */
    method HandleYearChange(m: Moment, picked: Option<Date>)
      requires kind == Vehicle
      modifies this
      ensures picked.Some? ==> draft == old(draft)["anoFabricacao" := Text(m.render(picked.value, "YYYY"))]
      ensures picked.None? ==> draft == old(draft)
      ensures isOpen == old(isOpen) && isLoading == old(isLoading) && errors == old(errors)
      ensures requests == old(requests) && saves == old(saves) && closeCalls == old(closeCalls)
    {
      if picked.Some? {
        draft := draft["anoFabricacao" := Text(m.render(picked.value, "YYYY"))];
      }
    }

    /** `validateForm`: on success the errors are reset, otherwise they
        become the error map. */
    method ValidateForm(cast: NumberCast) returns (valid: bool)
      modifies this
      ensures valid == (Issues(cast, SchemaOf(kind), draft) == [])
      ensures errors == if valid then CleanData(kind) else ErrorMap(Issues(cast, SchemaOf(kind), draft))
      ensures isOpen == old(isOpen) && isLoading == old(isLoading) && draft == old(draft)
      ensures requests == old(requests) && saves == old(saves) && closeCalls == old(closeCalls)
    {
      var issues := Issues(cast, SchemaOf(kind), draft);
      if issues == [] {
        errors := CleanData(kind);
        valid := true;
      } else {
        errors := CollectErrors(issues);
        valid := false;
      }
    }

    /** `handleSubmit`, with the outcome of its request supplied: the draft
        is posted only when it is valid; success closes the dialog and
        reports success; failure reports the dialog's message for it and
        stops loading, keeping the draft. */
    method HandleSubmit(cast: NumberCast, outcome: Outcome) returns (valid: bool)
      modifies this
      ensures valid == (Issues(cast, SchemaOf(kind), old(draft)) == [])
      ensures !valid ==>
        errors == ErrorMap(Issues(cast, SchemaOf(kind), old(draft))) &&
        draft == old(draft) && isOpen == old(isOpen) && isLoading == old(isLoading) &&
        requests == old(requests) && saves == old(saves) && closeCalls == old(closeCalls)
      ensures valid ==> requests == old(requests) + [Request(Post, [Lit(Resource(kind))], old(draft))]
      ensures valid && outcome.Succeeded? ==>
        !isOpen && !isLoading && draft == CleanData(kind) && errors == CleanData(kind) &&
        closeCalls == old(closeCalls) + 1 &&
        saves == old(saves) + [SaveEvent(Str(SavedMessage), "success")]
      ensures valid && outcome.Failed? ==>
        !isLoading && isOpen == old(isOpen) && draft == old(draft) && errors == CleanData(kind) &&
        closeCalls == old(closeCalls) &&
        saves == old(saves) + [SaveEvent(Report(SavePolicy(kind), outcome.failure), "error")]
    {
      valid := ValidateForm(cast);
      if valid {
        isLoading := true;
        requests := requests + [Request(Post, [Lit(Resource(kind))], draft)];
        if outcome.Succeeded? {
          HandleClose();
          saves := saves + [SaveEvent(Str(SavedMessage), "success")];
        } else {
          saves := saves + [SaveEvent(Report(SavePolicy(kind), outcome.failure), "error")];
          isLoading := false;
        }
      }
    }
  }
}
