# Fleet dashboard: date normaliser, record dialogs and list pages

A model of the core of a small fleet-management dashboard. The dashboard keeps
four kinds of records: clients, conductors (drivers), vehicles and trips
("deslocamentos"). It has one dialog per record kind and one list page per
record kind. The model covers:

- the date normaliser `formatDate`. A value already in the target format is
  left alone. Otherwise the first of seven known formats that parses it gives
  the date, rendered in the target format. A value that no format parses is
  returned unchanged.
- the trip dialog. With no trip given it is in START mode: it validates four
  numeric fields and posts the whole draft. With an open trip given it is in
  CLOSE mode: it validates the final mileage and puts exactly four closing
  fields to that trip's path.
- the client, conductor and vehicle dialogs. Each has its own validation rules
  and posts the draft to its resource. The conductor dialog has a date picker
  for the licence expiry and the vehicle dialog one for the manufacturing year;
  the client dialog has none. The client and conductor dialogs word a failure
  as the truthy response body or else the error message; the vehicle dialog
  takes a string body or message and otherwise a fixed text.
- the four list pages:
  - in-place normalisation of the dates in their rows (conductors and trips);
  - editing a single cell (clients, conductors, vehicles);
  - a delete of the selected rows, one request after the other, that collects
    the error messages and reports once;
  - on the trips page, choosing the single open trip that may be closed, and
    the per-row close button that only open trips show.

Layout:

- `values.dfy` (`JsValues`): JavaScript values and records, truthiness, `??`,
  and the two ways a handler words a failed request.
- `api.dfy` (`Api`): requests, outcomes, notifications and the fixed success
  texts.
- `helper.dfy` (`DateHelper`): the date normaliser.
- `validation.dfy` (`Validation`): the schema rules, the issues they report
  and the error map the dialogs build from them.
- `trip_form.dfy` (`TripForm`): the trip dialog.
- `entity_forms.dfy` (`EntityForms`): the client, conductor and vehicle
  dialogs.
- `list_pages.dfy` (`ListPages`): what the pages share, plus the client,
  conductor and vehicle pages.
- `trip_page.dfy` (`TripPage`): the trips page.

External services are parameters of the model. moment is a `Moment` value with
three operations: strict check, parse, render. yup's number coercion is a
`NumberCast` function. The outcome of each network request is an `Outcome`
input. A request that is sent is appended to a `requests` log. `mutate()` is a
count of refetches.

Behaviours of the code a reader might not expect:

- The START fields of a trip are not required. `yup.number()` without
  `.required()` lets `undefined` through.
- A CLOSE dialog takes the whole record given to it as its draft, not only the
  closing fields.
- Reference lists are fetched on every opening of the dialog, in either mode.
  Fetching is outside this model.
- The vehicles page sets its delete button's loading flag to true both before
  and after the deletes, so the flag stays true. `ListPages.EntityPage.HandleDelete`
  reproduces this as written.
- The trips page's delete clears the selection but not the trip offered for
  closing (`selected`). `TripPage.TripList.HandleDelete` keeps it as written,
  so the toolbar's close button can then open the dialog with no trip.

## Model

| member | source | states |
|---|---|---|
| JsValues.Get | src/shared/components/Dialog/FormDisplacement.tsx:229-234 | a missing key reads as `undefined`; a present key reads as its value |
| JsValues.Nullish | src/shared/components/Dialog/FormDisplacement.tsx:140-145 | `??` replaces only `undefined` and `null` and keeps every other value, falsy ones included |
| JsValues.Report | src/pages/conductors/index.tsx:153-164 | the or-form passes a truthy response body on, else the error message. The nullish form (`data ?? message`) gives a string body, else the message when there is no body, and the fixed unknown-error text for anything that is not a string |
| JsValues.Join | src/pages/clients/index.tsx:159-165 | joining no messages gives the empty text; joining one gives that message's text |
| DateHelper.TargetFormat | src/shared/utils/helper.tsx:13-16 | no format given means `DD/MM/YYYY`; a given format is used as it is |
| DateHelper.IsAlreadyFormatted | src/shared/utils/helper.tsx:34-38 | holds iff the value parses strictly in the target format; `NormalizeOutcomes` states that such a value is returned unchanged |
| DateHelper.FirstParse | src/shared/utils/helper.tsx:3-11 | the search finds nothing iff no format parses the value; otherwise it returns the parse of a format that parses and is preceded only by formats that do not |
| DateHelper.Normalize | src/shared/utils/helper.tsx:15-38 | the result is either the value itself or a text; `NormalizeOutcomes` states which, case by case |
| DateHelper.FormatDate | src/shared/utils/helper.tsx:15-32 | the loop with `break` returns exactly `Normalize` of the value in the target format |
| DateHelper.FirstMatchWins | src/shared/utils/helper.tsx:21-28 | the first format that parses decides the result, whatever the later formats would give |
| DateHelper.NormalizeOutcomes | src/shared/utils/helper.tsx:15-38 | the three outcomes: already formatted gives the value back; the first parsing format gives its date rendered in the target format; no parse gives the value back |
| DateHelper.NormalizeIdempotent | src/shared/utils/helper.tsx:34-38 | when every rendering in the format parses strictly in it, normalising twice equals normalising once |
| Validation.Violation | src/shared/components/Dialog/FormClient.tsx:90-105 | a failing text rule reports its own message; the number rule reports "Deve ser um número" or "Deve ser maior ou igual a zero"; an `undefined` value fails exactly the `required` rules |
| Validation.FieldIssues | src/shared/components/Dialog/FormDisplacement.tsx:193-200 | a field contributes one issue per message its rules report, in rule order, each under the field's path |
| Validation.Issues | src/shared/components/Dialog/FormDisplacement.tsx:193-196 | every issue reported is under a path the schema names; `IssuesMembership` and `NoIssuesIff` state which issues are reported |
| Validation.ErrorMap | src/shared/components/Dialog/FormDisplacement.tsx:197-200 | every value of the error map is a text message; `ErrorMapKeys` and `ErrorMapLast` state its keys and which message each holds |
| Validation.CollectErrors | src/shared/components/Dialog/FormDisplacement.tsx:197-200 | the `forEach` loop builds exactly the error map in which the last issue per path wins |
| Validation.ErrorMapKeys | src/shared/components/Dialog/FormDisplacement.tsx:197-200 | the error map has a key for exactly the paths some issue names |
| Validation.ErrorMapLast | src/shared/components/Dialog/FormDisplacement.tsx:197-200 | a key of the error map holds the message of the last issue for that path |
| Validation.ErrorMapMeaning | src/shared/components/Dialog/FormDisplacement.tsx:197-200 | the error map has a key for exactly the paths with issues, and each key holds the message of the last issue for that path |
| Validation.RulesForMissing | src/shared/components/Dialog/FormClient.tsx:90-105 | a path the schema does not name has no rules |
| Validation.RulesForAt | src/shared/components/Dialog/FormClient.tsx:90-105 | when paths are distinct, a path's rules are those written for it |
| Validation.RuleMessagesEmpty | src/shared/components/Dialog/FormClient.tsx:90-105 | a value reports no message iff it violates none of its rules |
| Validation.FieldFailsAt | src/shared/components/Dialog/FormClient.tsx:90-105 | a field fails iff one of its own rules is violated |
| Validation.IssuesMembership | src/shared/components/Dialog/FormDisplacement.tsx:193-196 | with `abortEarly: false`, an issue is reported iff its message is among those its path fails with |
| Validation.ErrorKeyAt | src/shared/components/Dialog/FormDisplacement.tsx:193-201 | a path is a key of the error map iff its field fails |
| Validation.ErrorMessageAt | src/shared/components/Dialog/FormDisplacement.tsx:193-201 | a key of the error map holds a text message that is one of those its field fails with |
| Validation.NoIssuesIff | src/shared/components/Dialog/FormDisplacement.tsx:193-195 | validation passes iff no field of the schema fails |
| Validation.ValidationMeaning | src/shared/components/Dialog/FormDisplacement.tsx:163-204 | valid iff no field fails; the error map's keys are exactly the failing fields; each key holds one of that field's messages |
| TripForm.CloseBody | src/shared/components/Dialog/FormDisplacement.tsx:229-234 | the CLOSE body has exactly `id`, `kmFinal`, `fimDeslocamento` and `observacao`, each as read from the draft |
| TripForm.SubmitRequest | src/shared/components/Dialog/FormDisplacement.tsx:206-251 | the request a valid submission sends; `SubmitRequestShape` states its verb, path and body in each mode |
| TripForm.SubmitRequestShape | src/shared/components/Dialog/FormDisplacement.tsx:206-251 | START posts the whole draft to `Deslocamento/IniciarDeslocamento`; CLOSE puts only the four closing fields to `Deslocamento/<form.id>/EncerrarDeslocamento` |
| TripForm.RulesForNumeric | src/shared/components/Dialog/FormDisplacement.tsx:167-192 | in a schema of number rules only, a path has the number rule iff the schema names it |
| TripForm.NumericSchemaMeaning | src/shared/components/Dialog/FormDisplacement.tsx:163-204 | for such a schema, a path is in the error map iff the schema names it and its value breaks the number rule; the path then holds that rule's message; the draft is valid iff no named path breaks it |
| TripForm.NumericFieldMessages | src/shared/components/Dialog/FormDisplacement.tsx:169-172 | in such a schema, a path reports the number rule's message when the schema names it and its value breaks the rule, and nothing otherwise |
| TripForm.StartSchemaMeaning | src/shared/components/Dialog/FormDisplacement.tsx:167-185 | START checks exactly `kmInicial`, `idCondutor`, `idVeiculo` and `idCliente`, each as a number >= 0 |
| TripForm.CloseSchemaMeaning | src/shared/components/Dialog/FormDisplacement.tsx:186-192 | CLOSE checks only `kmFinal`, as a number >= 0 |
| TripForm.NumberRuleMeaning | src/shared/components/Dialog/FormDisplacement.tsx:169-172 | the number rule passes `undefined`, values that coerce to nothing, and numbers >= 0. Otherwise it reports "Deve ser um número" when the value does not coerce and "Deve ser maior ou igual a zero" when it coerces to a negative number |
| TripForm.FailureMessage | src/shared/components/Dialog/FormDisplacement.tsx:217-226 | a failed submission reports a string body, else the string message when there is no body, else the fixed unknown-error text |
| TripForm.TripDialog.constructor | src/shared/components/Dialog/FormDisplacement.tsx:69-94 | closed, not loading, START mode, draft and errors equal to `cleanData`, nothing sent |
| TripForm.TripDialog.Sync | src/shared/components/Dialog/FormDisplacement.tsx:96-104 | opening shows the dialog and closing does not hide it; the draft becomes the given record, or `cleanData` when none is given |
| TripForm.TripDialog.HandleClose | src/shared/components/Dialog/FormDisplacement.tsx:132-138 | closed, not loading, draft and errors reset, `onClose` called once more; the mode and everything sent are unchanged |
| TripForm.TripDialog.HandleChange | src/shared/components/Dialog/FormDisplacement.tsx:147-154 | only the named field changes, to the input's value |
| TripForm.TripDialog.HandleAutocompleteChange | src/shared/components/Dialog/FormDisplacement.tsx:140-145 | the field becomes the chosen option's id, or `null` when the choice is cleared or has no id |
| TripForm.TripDialog.HandleDateTimeChange | src/shared/components/Dialog/FormDisplacement.tsx:156-161 | the field becomes the picked moment, or `null` when the picker is cleared |
| TripForm.TripDialog.ValidateForm | src/shared/components/Dialog/FormDisplacement.tsx:163-204 | valid iff the mode's schema reports no issue; the errors are reset on success and become the error map on failure; nothing else changes |
| TripForm.TripDialog.HandleSubmit | src/shared/components/Dialog/FormDisplacement.tsx:206-251 | invalid: nothing is sent. Valid: exactly the mode's request is sent. On success the dialog closes and reports "Registro salvo com sucesso!"; on failure it reports the failure's message, stops loading and keeps the draft |
| EntityForms.UnnamedFieldsPass | src/shared/components/Dialog/FormClient.tsx:90-104 | a field that the schema does not name never fails |
| EntityForms.ClientNameRule | src/shared/components/Dialog/FormClient.tsx:91-94 | the client's `nome` fails iff it is not a text of at least 3 characters |
| EntityForms.ClientDocumentRule | src/shared/components/Dialog/FormClient.tsx:95-98 | the client's `numeroDocumento` fails iff it is missing or not one or more digits |
| EntityForms.ClientDocumentTypeRule | src/shared/components/Dialog/FormClient.tsx:99 | the client's `tipoDocumento` fails iff it is missing or empty |
| EntityForms.ClientStateRule | src/shared/components/Dialog/FormClient.tsx:100-103 | the client's `uf` fails iff it is a text longer than 2 or with a character that is neither a letter nor whitespace |
| EntityForms.ConductorNameRule | src/shared/components/Dialog/FormConductor.tsx:99-102 | the conductor's `nome` fails iff it is not a text of at least 3 characters |
| EntityForms.ConductorLicenceRule | src/shared/components/Dialog/FormConductor.tsx:103-106 | the conductor's `numeroHabilitacao` fails iff it is missing or not one or more digits |
| EntityForms.ConductorCategoryRule | src/shared/components/Dialog/FormConductor.tsx:107-110 | the conductor's `categoriaHabilitacao` fails iff it is missing, empty or longer than 2 |
| EntityForms.VehiclePlateRule | src/shared/components/Dialog/FormVehicle.tsx:95-98 | the vehicle's `placa` fails iff it is not a text of at least 3 characters |
| EntityForms.VehicleModelRule | src/shared/components/Dialog/FormVehicle.tsx:99 | the vehicle's `marcaModelo` fails iff it is missing or empty |
| EntityForms.VehicleMileageRule | src/shared/components/Dialog/FormVehicle.tsx:100-103 | the vehicle's `kmAtual` fails iff it breaks the number rule |
| EntityForms.ClientRules | src/shared/components/Dialog/FormClient.tsx:88-117 | `nome` fails iff it has fewer than 3 characters; `numeroDocumento` fails iff it is not all digits or missing; `tipoDocumento` fails iff empty; `uf` fails iff present and longer than 2 or not letters and spaces; no other field fails |
| EntityForms.ConductorRules | src/shared/components/Dialog/FormConductor.tsx:96-124 | `nome` fails iff it has fewer than 3 characters; `numeroHabilitacao` fails iff it is not all digits or missing; `categoriaHabilitacao` fails iff it is empty or longer than 2; no other field, the licence date included, fails |
| EntityForms.VehicleRules | src/shared/components/Dialog/FormVehicle.tsx:92-117 | `placa` fails iff it has fewer than 3 characters; `marcaModelo` fails iff empty; `kmAtual` fails iff it breaks the number rule; no other field, the year included, fails |
| EntityForms.EntityValidation | src/shared/components/Dialog/FormClient.tsx:88-117 | for each dialog: valid iff no field fails; the error map holds exactly the failing fields, each with one of its messages |
| EntityForms.EntityDialog.constructor | src/shared/components/Dialog/FormClient.tsx:47-64 | closed, not loading, draft and errors equal to the dialog's `cleanData`, nothing sent |
| EntityForms.EntityDialog.Sync | src/shared/components/Dialog/FormClient.tsx:66-70 | opening shows the dialog; the draft is kept |
| EntityForms.EntityDialog.HandleClose | src/shared/components/Dialog/FormClient.tsx:72-78 | closed, not loading, draft and errors reset, `onClose` called once more |
| EntityForms.EntityDialog.HandleChange | src/shared/components/Dialog/FormClient.tsx:80-86 | only the named field changes, to the text typed |
| EntityForms.EntityDialog.HandleDateChange | src/shared/components/Dialog/FormConductor.tsx:87-94 | the licence date becomes the picked date rendered as `YYYY-MM-DD`; a cleared picker changes nothing |
| EntityForms.EntityDialog.HandleYearChange | src/shared/components/Dialog/FormVehicle.tsx:83-90 | the manufacturing year becomes the picked date rendered as `YYYY`; a cleared picker changes nothing |
| EntityForms.EntityDialog.ValidateForm | src/shared/components/Dialog/FormConductor.tsx:96-124 | valid iff the dialog's schema reports no issue; the errors are reset on success and become the error map on failure |
| EntityForms.EntityDialog.HandleSubmit | src/shared/components/Dialog/FormVehicle.tsx:119-141 | only a valid draft is posted, to the dialog's resource. Success closes and reports success. Failure reports the message, worded as the truthy body or else the message by clients and conductors and as a string or the fixed text by vehicles, then stops loading and keeps the draft |
| ListPages.FindById | src/pages/clients/index.tsx:117 | finds nothing iff no row has the id; otherwise finds the first row with that id |
| ListPages.Merge | src/pages/clients/index.tsx:119-122 | the row with the edited field replaced and every other field kept; a row that was not found gives a record of that one field |
| ListPages.DeleteRequests | src/pages/clients/index.tsx:147-151 | one delete request per selected id, in selection order, each to `<resource>/<id>` carrying `{ id }` |
| ListPages.DeleteAll | src/pages/vehicles/index.tsx:161-173 | the loop sends every delete, whatever failed before, and collects the failures' messages in order |
| ListPages.CollectedErrors | src/pages/clients/index.tsx:146-151 | no more messages than deletes, and every message collected is the worded failure of some failed delete |
| ListPages.CollectedErrorsMeaning | src/pages/clients/index.tsx:146-152 | no message is collected iff every delete succeeded; one message is collected per failed delete |
| ListPages.DeleteNotice | src/pages/clients/index.tsx:152-166 | success, with the deleted text, iff nothing failed; otherwise an error with the messages joined by ", " |
| ListPages.NormalizeLicence | src/pages/conductors/index.tsx:50-61 | only the licence date may change, and it ends either as it was or as a text |
| ListPages.NormalizeLicenceAgrees | src/pages/conductors/index.tsx:49-62 | the page's own strict check changes nothing: the licence date ends up as `formatDate` with the default format leaves it, and no other field changes |
| ListPages.NormalizeLicenceStable | src/pages/conductors/index.tsx:49-62 | re-rendering the conductor rows changes nothing further, when `DD/MM/YYYY` renderings parse strictly |
| ListPages.NormalizeLicences | src/pages/conductors/index.tsx:49-62 | the row mapping normalises every conductor's licence date and keeps the number and order of rows |
| ListPages.RowsOf | src/pages/clients/index.tsx:49 | the rows are the fetched data, or none before data arrives |
| ListPages.EntityPage.constructor | src/pages/clients/index.tsx:41-49 | a clean notification, no selection, not loading, dialog closed, nothing sent |
| ListPages.EntityPage.RenderConductorRows | src/pages/conductors/index.tsx:49-62 | the cached data itself is rewritten row by row with the normalised licence date; nothing else changes |
| ListPages.EntityPage.ReportFetchError | src/pages/clients/index.tsx:74-86 | a failed fetch shows its message as an error notification |
| ListPages.EntityPage.SetDialog | src/pages/clients/index.tsx:88-94 | the create dialog opens or closes; nothing else changes |
| ListPages.EntityPage.HandleSelectionChange | src/pages/clients/index.tsx:100-102 | the selection becomes the grid's selection |
| ListPages.EntityPage.HandleSave | src/pages/clients/index.tsx:104-112 | one refetch, then a notification with the dialog's message in the colour of its status |
| ListPages.EntityPage.HandleCloseNotify | src/pages/clients/index.tsx:96-98 | the notification is reset |
| ListPages.EntityPage.HandleUpdate | src/pages/conductors/index.tsx:131-166 | puts the merged row to `<resource>/<id>`. Success refetches once and notifies "Registro salvo com sucesso!". Failure notifies the error and does not refetch. The clients page words the error as the truthy body or else the message. The conductors and vehicles pages word it as a string or the fixed unknown-error text |
| ListPages.EntityPage.HandleDelete | src/pages/vehicles/index.tsx:158-196 | every selected id is deleted in turn, and the notice reports success iff nothing failed. There is one refetch and the selection is cleared. The loading flag ends true on the vehicles page (set true before and after) and false on the conductors page; the clients page has none |
| TripPage.NormalizeTrip | src/pages/displacement/index.tsx:58-71 | both trip dates become their `formatDate` in `DD/MM/YYYY H:mm:ss` and are always written back; no other field changes |
| TripPage.NormalizeTripStable | src/pages/displacement/index.tsx:58-71 | re-rendering the trip rows changes nothing further, when renderings in the page's format parse strictly |
| TripPage.NormalizeTrips | src/pages/displacement/index.tsx:58-71 | the row mapping normalises both dates of every trip and keeps the number and order of rows |
| TripPage.CanClose | src/pages/displacement/index.tsx:128 | a trip can be closed iff its final mileage is falsy; `RowAction` and `FindOpenTrip` are stated in its terms |
| TripPage.RowAction | src/pages/displacement/index.tsx:127-136 | a row shows the close button iff its final mileage is falsy, and the button edits that row's id |
| TripPage.RowActionLoadsRow | src/pages/displacement/index.tsx:127-136 | with distinct ids, a row's close button loads exactly that row into the dialog, and that row is an open trip |
| TripPage.FirstTruthy | src/pages/displacement/index.tsx:170 | the first truthy selected id, or `undefined` iff none is truthy |
| TripPage.FindOpenTrip | src/pages/displacement/index.tsx:172-174 | finds nothing iff no row has the id and no final mileage; otherwise finds the first such row |
| TripPage.FindOpenTripById | src/pages/displacement/index.tsx:172-174 | with distinct ids, the open-trip search gives the row with that id when it has no final mileage, and nothing otherwise |
| TripPage.SelectedTrip | src/pages/displacement/index.tsx:168-180 | nothing unless exactly one row is selected. Otherwise a trip is found iff some row without final mileage has the looked-up id (the selected id when truthy, else `undefined`), and the trip found is such a row |
| TripPage.EditLoadsSelected | src/pages/displacement/index.tsx:273-281 | with distinct ids, the toolbar's close button loads exactly the selected trip into the dialog |
| TripPage.TripList.constructor | src/pages/displacement/index.tsx:43-53 | a clean notification, nothing selected, no trip in the dialog, dialog closed, not loading |
| TripPage.TripList.RenderRows | src/pages/displacement/index.tsx:58-71 | the cached data itself is rewritten with both trip dates normalised; nothing else changes |
| TripPage.TripList.ReportFetchError | src/pages/displacement/index.tsx:140-148 | a failed fetch shows its message as an error notification |
| TripPage.TripList.HandleOpenDialog | src/pages/displacement/index.tsx:154-158 | the dialog opens; "new" clears the trip so that the dialog starts one, and any other call keeps it |
| TripPage.TripList.HandleCloseDialog | src/pages/displacement/index.tsx:160-162 | the dialog closes |
| TripPage.TripList.HandleCloseNotify | src/pages/displacement/index.tsx:164-166 | the notification is reset |
| TripPage.TripList.HandleSelectionChange | src/pages/displacement/index.tsx:168-180 | the selection is stored, and the trip offered for closing becomes `SelectedTrip` of the rows and the selection |
| TripPage.TripList.HandleSave | src/pages/displacement/index.tsx:182-193 | the trip offered for closing is dropped, one refetch, and a notification in the colour of the status |
| TripPage.TripList.HandleEdit | src/pages/displacement/index.tsx:195-201 | the row with the id, or none, goes to the dialog, which opens |
| TripPage.TripList.CloseRow | src/pages/displacement/index.tsx:127-136 | pressing an open trip's own close button puts that trip (found by its id) in the dialog and opens it; nothing else changes |
| TripPage.TripList.EditSelected | src/pages/displacement/index.tsx:273-281 | the close button edits the trip of the first truthy selected id |
| TripPage.TripList.HandleDelete | src/pages/displacement/index.tsx:203-240 | every selected trip is deleted in turn. Failures are worded as strings or the fixed text. The notice reports success iff nothing failed. The loading flag ends false, there is one refetch, and the selection is cleared |

## Left out

- Fetching is not modelled. This covers the pages' `useFetch` GET requests and
  the trip dialog's `fetchData` of the client, conductor and vehicle lists,
  with the loading flag it sets. A page's data is the `data` field, and a
  fetch error is reported through `ReportFetchError`.
- SWR's cache and revalidation are not modelled. `mutate()` is counted in
  `refetches`.
- JSX, icons, the column definitions (except the trips page's actions column, which is `TripPage.RowAction`), the grid component and the `Notify`
  component are not modelled. A notification keeps its open flag, message
  and colour; its icon follows from the colour.
- Asynchrony is not modelled. Each handler runs to completion with its
  request outcomes supplied in advance. A response that arrives after the
  dialog was closed, and a close during a pending submit, are not modelled.
- moment and yup are supplied as parameters (`Moment`, `NumberCast`). Their
  parsing and coercion rules are not modelled.
- The text rules see only string values, and a non-string counts as absent. `yup.string()` would first turn a number into
  text, but text inputs always produce strings.
- Text lengths count Dafny characters, where JavaScript
  counts UTF-16 code units. Text outside the Basic Multilingual Plane can
  differ.
- Request bodies are maps in which `undefined` fields are kept. JSON encoding
  would drop them.
- Numbers are integers in the value model (`Number`). Only yup's coercion
  result is a real number.
- EntityForms.EntityDialog.HandleDateChange: a cleared picker makes
  `date.format` throw in the source. The model leaves the draft unchanged
  instead of raising.
- EntityForms.EntityDialog.HandleYearChange: a cleared picker makes
  `date.format` throw in the source. The model leaves the draft unchanged
  instead of raising.
- JsValues.Join: only the empty and one-element cases are stated. The
  separator placement for longer lists is what the body computes.
- The application shell, the theme, the home page, the weather forecast page
  and the `Notify` component are not part of this model.
