/** What the list pages share (row lookup, the single-cell merge, the
    sequential batch delete and its notification), and the client,
    conductor and vehicle pages themselves. */
module ListPages {
  import opened JsValues
  import opened Api
  import opened DateHelper
  import opened EntityForms

  /** `rows.find(row => row.id === id)`. */
  function FindById(rows: seq<Record>, id: Value): (r: Option<Record>)
    ensures r.None? <==> forall i :: 0 <= i < |rows| ==> Get(rows[i], "id") != id
    ensures r.Some? ==>
      exists i :: 0 <= i < |rows| && rows[i] == r.value && Get(rows[i], "id") == id &&
        forall j :: 0 <= j < i ==> Get(rows[j], "id") != id
  {
    if rows == [] then None
    else if Get(rows[0], "id") == id then Some(rows[0])
    else
      var rest := FindById(rows[1..], id);
      assert forall i :: 1 <= i < |rows| ==> rows[i] == rows[1..][i - 1];
      rest
  }

  /** `{...row, [field]: value}`: the row with one field replaced; a row
      that was not found spreads to nothing. */
  function Merge(row: Option<Record>, field: string, value: Value): (r: Record)
    ensures field in r && r[field] == value
    ensures r.Keys == {field} + (if row.Some? then row.value.Keys else {})
    ensures forall k :: k != field ==> Get(r, k) == (if row.Some? then Get(row.value, k) else Undefined)
  {
    (if row.Some? then row.value else map[])[field := value]
  }

  /** `api.delete(`${resource}/${id}`, { data: { id } })`. */
  function DeleteRequest(resource: string, id: Value): Request {
    Request(Delete, [Lit(resource + "/"), Param(id)], map["id" := id])
  }

  /** One delete request per id, in the order of the ids. */
  function DeleteRequests(resource: string, ids: seq<Value>): (rs: seq<Request>)
    ensures |rs| == |ids|
    ensures forall i :: 0 <= i < |ids| ==> rs[i] == DeleteRequest(resource, ids[i])
  {
    seq(|ids|, i requires 0 <= i < |ids| => DeleteRequest(resource, ids[i]))
  }

  /** The `erros` array: the message of each failed delete, in order. */
  function CollectedErrors(outcomes: seq<Outcome>, policy: MessagePolicy): (erros: seq<Payload>)
    ensures |erros| <= |outcomes|
    ensures forall e :: e in erros ==>
      exists i :: 0 <= i < |outcomes| && outcomes[i].Failed? && e == Report(policy, outcomes[i].failure)
  {
    if outcomes == [] then []
    else
      var n := |outcomes| - 1;
      var front := CollectedErrors(outcomes[..n], policy);
      assert forall i :: 0 <= i < n ==> outcomes[..n][i] == outcomes[i];
      match outcomes[n]
      case Succeeded => front
      case Failed(f) => front + [Report(policy, f)]
  }

  /** The `for ... of selectedRows` loop of `handleDelete`: every id is
      tried, one after the other; a failure is collected and the loop goes on. */
  method DeleteAll(resource: string, ids: seq<Value>, outcomes: seq<Outcome>, policy: MessagePolicy)
    returns (sent: seq<Request>, erros: seq<Payload>)
    requires |outcomes| == |ids|
    ensures sent == DeleteRequests(resource, ids)
    ensures erros == CollectedErrors(outcomes, policy)
  {
    sent, erros := [], [];
    var i := 0;
    while i < |ids|
      invariant 0 <= i <= |ids|
      invariant sent == DeleteRequests(resource, ids[..i])
      invariant erros == CollectedErrors(outcomes[..i], policy)
    {
      sent := sent + [DeleteRequest(resource, ids[i])];
      assert outcomes[..i + 1][..i] == outcomes[..i];
      if outcomes[i].Failed? {
        erros := erros + [Report(policy, outcomes[i].failure)];
      }
      i := i + 1;
    }
    assert ids[..i] == ids;
    assert outcomes[..i] == outcomes;
  }

  /** No error is collected iff every delete succeeded, and one message is
      collected per failure. */
  lemma {:induction false} CollectedErrorsMeaning(outcomes: seq<Outcome>, policy: MessagePolicy)
    ensures CollectedErrors(outcomes, policy) == [] <==> forall i :: 0 <= i < |outcomes| ==> outcomes[i].Succeeded?
    ensures |CollectedErrors(outcomes, policy)| == |set i | 0 <= i < |outcomes| && outcomes[i].Failed?|
  {
    if outcomes != [] {
      var n := |outcomes| - 1;
      var front := outcomes[..n];
      CollectedErrorsMeaning(front, policy);
      var failed := set i | 0 <= i < |outcomes| && outcomes[i].Failed?;
      var failedFront := set i | 0 <= i < |front| && front[i].Failed?;
      assert failed == failedFront + (if outcomes[n].Failed? then {n} else {}) by {
        forall i | i in failed ensures i in failedFront + (if outcomes[n].Failed? then {n} else {}) {
          if i < n { assert front[i] == outcomes[i]; }
        }
        forall i | i in failedFront ensures i in failed {
          assert front[i] == outcomes[i];
        }
      }
      forall i | 0 <= i < n ensures front[i] == outcomes[i] {
      }
    }
  }

  /** The notification after a batch delete: success iff nothing failed,
      otherwise the collected messages joined with ", ". */
  function DeleteNotice(erros: seq<Payload>): (n: Notice)
    ensures n.open
    ensures n.color == "success" <==> erros == []
    ensures erros == [] ==> n.message == Str(DeletedMessage)
    ensures erros != [] ==> n.color == "error" && n.message == Str(Join(erros, ", "))
  {
    if erros == [] then Notice(true, Str(DeletedMessage), "success")
    else Notice(true, Str(Join(erros, ", ")), "error")
  }

  /** The page's wording of a failed update or delete: the client page
      passes `data || message` on; the others fall back to the fixed text. */
  function PagePolicy(kind: Entity): MessagePolicy {
    if kind == Client then RawOr else StringOrFallback
  }

  const LicenceField: string := "vencimentoHabilitacao"

  /** The conductor page's row mapping: a licence date not strictly in
      `DD/MM/YYYY` is passed through `formatDate` with its default format. */
  function NormalizeLicence(m: Moment, row: Record): (r: Record)
    ensures forall k :: k != LicenceField ==> Get(r, k) == Get(row, k)
    ensures Get(r, LicenceField) == Get(row, LicenceField) || Get(r, LicenceField).Text?
  {
    if m.strict(Get(row, LicenceField), DefaultFormat) then row
    else row[LicenceField := Normalize(m, Get(row, LicenceField), DefaultFormat)]
  }

  /** The page's own strict check agrees with the one inside `formatDate`:
      the licence date ends up as `formatDate` would leave it, and nothing
      else in the row changes. */
  lemma NormalizeLicenceAgrees(m: Moment, row: Record)
    ensures Get(NormalizeLicence(m, row), LicenceField) == Normalize(m, Get(row, LicenceField), DefaultFormat)
    ensures forall k :: k != LicenceField ==> Get(NormalizeLicence(m, row), k) == Get(row, k)
  {
  }

  /** Re-rendering the page normalises nothing further, provided every
      `DD/MM/YYYY` rendering parses strictly again. */
  lemma NormalizeLicenceStable(m: Moment, row: Record)
    requires RendersStrictly(m, DefaultFormat)
    ensures NormalizeLicence(m, NormalizeLicence(m, row)) == NormalizeLicence(m, row)
  {
  }

  /** The `rows` mapping of the conductor page over the fetched items: each
      licence date not strictly in `DD/MM/YYYY` goes through `formatDate`. */
  method NormalizeLicences(m: Moment, items: seq<Record>) returns (rows: seq<Record>)
    ensures |rows| == |items|
    ensures forall i :: 0 <= i < |items| ==> rows[i] == NormalizeLicence(m, items[i])
  {
    rows := items;
    var i := 0;
    while i < |rows|
      invariant 0 <= i <= |rows| && |rows| == |items|
      invariant forall j :: 0 <= j < i ==> rows[j] == NormalizeLicence(m, items[j])
      invariant forall j :: i <= j < |rows| ==> rows[j] == items[j]
    {
      var item := rows[i];
      var licence := Get(item, LicenceField);
      if !m.strict(licence, DefaultFormat) {
        var formatted := FormatDate(m, licence, None);
        item := item[LicenceField := formatted];
      }
      rows := rows[i := item];
      i := i + 1;
    }
  }

  /** `data || []`: a page's rows are the fetched data, or none while the
      fetch has not returned. */
  function RowsOf(data: Option<seq<Record>>): (rows: seq<Record>)
    ensures data.None? ==> rows == []
    ensures data.Some? ==> rows == data.value
  {
    data.GetOr([])
  }

  /** The client, conductor and vehicle list pages. */
  class EntityPage {
    const kind: Entity
    /** The data the fetch hook returned (None until it arrives). */
    var data: Option<seq<Record>>
    var notify: Notice
    var selectedRows: seq<Value>
    /** The delete button's loading flag (the client page has none). */
    var isLoading: bool
    /** The requests sent, in order. */
    var requests: seq<Request>
    /** How many times `mutate` asked for the data again. */
    var refetches: nat
    /** Whether the page's create dialog is shown. */
    var openDialog: bool

    constructor (kind: Entity, data: Option<seq<Record>>)
      ensures this.kind == kind && this.data == data
      ensures notify == CleanNotice && selectedRows == [] && !isLoading
      ensures requests == [] && refetches == 0 && !openDialog
    {
      this.kind := kind;
      this.data := data;
      notify, selectedRows, isLoading := CleanNotice, [], false;
      requests, refetches, openDialog := [], 0, false;
    }

    /** The conductor page's `rows`: each item's licence date is normalised
        in place, in the cached data itself. */
    method RenderConductorRows(m: Moment) returns (rows: seq<Record>)
      requires kind == Conductor
      modifies this
      ensures data.None? <==> old(data).None?
      ensures data.Some? ==>
        |data.value| == |old(data).value| &&
        forall i :: 0 <= i < |data.value| ==> data.value[i] == NormalizeLicence(m, old(data).value[i])
      ensures rows == RowsOf(data) && openDialog == old(openDialog)
      ensures notify == old(notify) && selectedRows == old(selectedRows) && isLoading == old(isLoading)
      ensures requests == old(requests) && refetches == old(refetches)
    {
      if data.Some? {
        var items := NormalizeLicences(m, data.value);
        data := Some(items);
      }
      rows := RowsOf(data);
    }

    /** The effect on a failed fetch: its message is shown as an error. */
    method ReportFetchError(message: string)
      modifies this
      ensures notify == Notice(true, Str(message), "error")
      ensures data == old(data) && openDialog == old(openDialog) && selectedRows == old(selectedRows)
      ensures isLoading == old(isLoading) && requests == old(requests) && refetches == old(refetches)
    {
      notify := Notice(true, Str(message), "error");
    }

    /** `handleOpenDialog` (the "Novo" button) and `handleCloseDialog`. */
    method SetDialog(open: bool)
      modifies this
      ensures openDialog == open
      ensures data == old(data) && notify == old(notify) && selectedRows == old(selectedRows)
      ensures isLoading == old(isLoading) && requests == old(requests) && refetches == old(refetches)
    {
      openDialog := open;
    }

    /** `handleSelectionChange`. */
    method HandleSelectionChange(selection: seq<Value>)
      modifies this
      ensures selectedRows == selection
      ensures data == old(data) && openDialog == old(openDialog) && notify == old(notify) && isLoading == old(isLoading)
      ensures requests == old(requests) && refetches == old(refetches)
    {
      selectedRows := selection;
    }

    /** `handleSave`, the dialog's `onSave`: refetch, then a notification in
        the colour of the status. */
    method HandleSave(message: Payload, status: string)
      modifies this
      ensures notify == Notice(true, message, status)
      ensures refetches == old(refetches) + 1
      ensures data == old(data) && openDialog == old(openDialog) && selectedRows == old(selectedRows) && isLoading == old(isLoading)
      ensures requests == old(requests)
    {
      refetches := refetches + 1;
      notify := Notice(true, message, status);
    }

    /** `handleCloseNotify`. */
    method HandleCloseNotify()
      modifies this
      ensures notify == CleanNotice
      ensures data == old(data) && openDialog == old(openDialog) && selectedRows == old(selectedRows) && isLoading == old(isLoading)
      ensures requests == old(requests) && refetches == old(refetches)
    {
      notify := CleanNotice;
    }

    /** `handleUpdade`, with the outcome of its request supplied: the row
        with that id, with one field replaced, is put to `<resource>/<id>`. */
    method HandleUpdate(id: Value, field: string, value: Value, outcome: Outcome)
      modifies this
      ensures requests == old(requests) +
        [Request(Put, [Lit(Resource(kind) + "/"), Param(id)], Merge(FindById(RowsOf(old(data)), id), field, value))]
      ensures outcome.Succeeded? ==>
        notify == Notice(true, Str(SavedMessage), "success") && refetches == old(refetches) + 1
      ensures outcome.Failed? ==>
        notify == Notice(true, Report(PagePolicy(kind), outcome.failure), "error") && refetches == old(refetches)
      ensures data == old(data) && openDialog == old(openDialog) && selectedRows == old(selectedRows) && isLoading == old(isLoading)
    {
      var row := FindById(RowsOf(data), id);
      var updateRow := Merge(row, field, value);
      requests := requests + [Request(Put, [Lit(Resource(kind) + "/"), Param(id)], updateRow)];
      if outcome.Succeeded? {
        refetches := refetches + 1;
        notify := Notice(true, Str(SavedMessage), "success");
      } else {
        notify := Notice(true, Report(PagePolicy(kind), outcome.failure), "error");
      }
    }

    /** `handleDelete`, with one outcome per selected id supplied. The
        conductor page ends with `isLoading` false; the vehicle page sets it
        to true at both ends, so it stays true; the client page has none. */
    method HandleDelete(outcomes: seq<Outcome>)
      requires |outcomes| == |selectedRows|
      modifies this
      ensures requests == old(requests) + DeleteRequests(Resource(kind), old(selectedRows))
      ensures notify == DeleteNotice(CollectedErrors(outcomes, PagePolicy(kind)))
      ensures isLoading == match kind
        case Client => old(isLoading)
        case Conductor => false
        case Vehicle => true
      ensures selectedRows == [] && refetches == old(refetches) + 1 && data == old(data) && openDialog == old(openDialog)
    {
      if kind != Client {
        isLoading := true;
      }
      var sent, erros := DeleteAll(Resource(kind), selectedRows, outcomes, PagePolicy(kind));
      requests := requests + sent;
      notify := DeleteNotice(erros);
      if kind == Conductor {
        isLoading := false;
      } else if kind == Vehicle {
        isLoading := true;
      }
      refetches := refetches + 1;
      selectedRows := [];
    }
  }
}
