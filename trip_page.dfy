/** The trips (displacement) list page: its rows show both trip dates in
    `DD/MM/YYYY H:mm:ss`; a single selected trip that has no final mileage
    yet can be closed; selected trips can be deleted in one go. */
module TripPage {
  import opened JsValues
  import opened Api
  import opened DateHelper
  import opened ListPages

  const TripResource: string := "Deslocamento"
  const TripFormat: string := "DD/MM/YYYY H:mm:ss"
  const StartField: string := "inicioDeslocamento"
  const EndField: string := "fimDeslocamento"

  /** The `rows` mapping: both dates go through `formatDate` with the
      page's format, and are written back whether or not they change. */
  function NormalizeTrip(m: Moment, row: Record): (r: Record)
    ensures r.Keys == row.Keys + {StartField, EndField}
    ensures Get(r, StartField) == Normalize(m, Get(row, StartField), TripFormat)
    ensures Get(r, EndField) == Normalize(m, Get(row, EndField), TripFormat)
    ensures forall k :: k != StartField && k != EndField ==> Get(r, k) == Get(row, k)
  {
    row[StartField := Normalize(m, Get(row, StartField), TripFormat)]
       [EndField := Normalize(m, Get(row, EndField), TripFormat)]
  }

  /** Rendering the page twice leaves the rows as rendering once did,
      provided every rendering in the page's format parses strictly again. */
  lemma NormalizeTripStable(m: Moment, row: Record)
    requires RendersStrictly(m, TripFormat)
    ensures NormalizeTrip(m, NormalizeTrip(m, row)) == NormalizeTrip(m, row)
  {
  }

  /** The `data?.map(...)` over the fetched trips, item by item. */
  method NormalizeTrips(m: Moment, items: seq<Record>) returns (rows: seq<Record>)
    ensures |rows| == |items|
    ensures forall i :: 0 <= i < |items| ==> rows[i] == NormalizeTrip(m, items[i])
  {
    rows := items;
    var i := 0;
    while i < |rows|
      invariant 0 <= i <= |rows| && |rows| == |items|
      invariant forall j :: 0 <= j < i ==> rows[j] == NormalizeTrip(m, items[j])
      invariant forall j :: i <= j < |rows| ==> rows[j] == items[j]
    {
      var item := rows[i];
      var start := FormatDate(m, Get(item, StartField), Some(TripFormat));
      item := item[StartField := start];
      var end := FormatDate(m, Get(item, EndField), Some(TripFormat));
      item := item[EndField := end];
      rows := rows[i := item];
      i := i + 1;
    }
  }

  /** A trip can still be closed while it has no (truthy) final mileage. */
  predicate CanClose(row: Record) {
    !Truthy(Get(row, "kmFinal"))
  }

  /** The per-row "Encerrar" button of the grid's actions column: it is
      rendered only on a trip without a (truthy) final mileage, and pressing
      it edits that row's id. None means the cell shows no button. */
  function RowAction(row: Record): (r: Option<Value>)
    ensures r.Some? <==> !Truthy(Get(row, "kmFinal"))
    ensures r.Some? ==> r.value == Get(row, "id")
  {
    if CanClose(row) then Some(Get(row, "id")) else None
  }

  /** `selection.find(item => item)`: the first truthy id, or undefined. */
  function FirstTruthy(selection: seq<Value>): (r: Value)
    ensures r == Undefined || Truthy(r)
    ensures Truthy(r) ==>
      exists i :: 0 <= i < |selection| && selection[i] == r &&
        forall j :: 0 <= j < i ==> !Truthy(selection[j])
    ensures !Truthy(r) <==> forall i :: 0 <= i < |selection| ==> !Truthy(selection[i])
  {
    if selection == [] then Undefined
    else if Truthy(selection[0]) then selection[0]
    else
      var rest := FirstTruthy(selection[1..]);
      assert forall i :: 1 <= i < |selection| ==> selection[i] == selection[1..][i - 1];
      rest
  }

  /** `rows.find(item => item.id === id && !item.kmFinal)`. */
  function FindOpenTrip(rows: seq<Record>, id: Value): (r: Option<Record>)
    ensures r.None? <==> forall i :: 0 <= i < |rows| ==> !(Get(rows[i], "id") == id && CanClose(rows[i]))
    ensures r.Some? ==>
      exists i :: 0 <= i < |rows| && rows[i] == r.value && Get(rows[i], "id") == id && CanClose(rows[i]) &&
        forall j :: 0 <= j < i ==> !(Get(rows[j], "id") == id && CanClose(rows[j]))
  {
    if rows == [] then None
    else if Get(rows[0], "id") == id && CanClose(rows[0]) then Some(rows[0])
    else
      var rest := FindOpenTrip(rows[1..], id);
      assert forall i :: 1 <= i < |rows| ==> rows[i] == rows[1..][i - 1];
      rest
  }

  /** No two rows share an id. */
  predicate DistinctIds(rows: seq<Record>) {
    forall i, j :: 0 <= i < j < |rows| ==> Get(rows[i], "id") != Get(rows[j], "id")
  }

  /** With distinct ids, looking for an open trip by id finds the row with
      that id when it is still open, and nothing otherwise. */
  lemma FindOpenTripById(rows: seq<Record>, id: Value)
    requires DistinctIds(rows)
    ensures FindOpenTrip(rows, id) ==
      match FindById(rows, id)
      case Some(row) => if CanClose(row) then Some(row) else None
      case None => None
  {
  }

  /** `selected` after `handleSelectionChange`: with exactly one row
      selected, the open trip whose id is that row's id when it is truthy,
      and `undefined` otherwise (which matches a row without an id);
      with any other number selected, nothing. */
  function SelectedTrip(rows: seq<Record>, selection: seq<Value>): (r: Option<Record>)
    ensures |selection| != 1 ==> r.None?
    ensures |selection| == 1 ==> FirstTruthy(selection) == (if Truthy(selection[0]) then selection[0] else Undefined)
    ensures r.Some? ==>
      r.value in rows && Get(r.value, "id") == FirstTruthy(selection) && CanClose(r.value)
    ensures |selection| == 1 ==>
      (r.Some? <==> exists i :: 0 <= i < |rows| && Get(rows[i], "id") == FirstTruthy(selection) && CanClose(rows[i]))
  {
    if |selection| == 1 then FindOpenTrip(rows, FirstTruthy(selection)) else None
  }

  /** The "Encerrar" button of the toolbar edits the trip that was selected:
      when ids are distinct, `handleEdit` on the first truthy selected id
      loads exactly the selected trip into the dialog. */
  lemma EditLoadsSelected(rows: seq<Record>, selection: seq<Value>)
    requires DistinctIds(rows) && SelectedTrip(rows, selection).Some?
    ensures FindById(rows, FirstTruthy(selection)) == SelectedTrip(rows, selection)
  {
  }

  /** With distinct ids, a row's "Encerrar" button loads exactly that row
      into the dialog, and only an open trip is ever loaded this way, so the
      dialog opens in CLOSE mode for it. */
  lemma RowActionLoadsRow(rows: seq<Record>, i: nat)
    requires DistinctIds(rows) && i < |rows| && RowAction(rows[i]).Some?
    ensures FindById(rows, RowAction(rows[i]).value) == Some(rows[i])
    ensures CanClose(rows[i])
  {
  }

  /** The trips page. */
  class TripList {
    /** The data the fetch hook returned (None until it arrives). */
    var data: Option<seq<Record>>
    var notify: Notice
    var selectedRows: seq<Value>
    /** The open trip the toolbar offers to close. */
    var selected: Option<Record>
    /** The trip handed to the dialog; None opens it for a new trip. */
    var form: Option<Record>
    var openDialog: bool
    var isLoading: bool
    /** The requests sent, in order. */
    var requests: seq<Request>
    /** How many times `mutate` asked for the data again. */
    var refetches: nat

    constructor (data: Option<seq<Record>>)
      ensures this.data == data && notify == CleanNotice && selectedRows == []
      ensures selected.None? && form.None? && !openDialog && !isLoading
      ensures requests == [] && refetches == 0
    {
      this.data := data;
      notify, selectedRows, selected, form := CleanNotice, [], None, None;
      openDialog, isLoading, requests, refetches := false, false, [], 0;
    }

    /** Computing `rows` normalises both dates of every trip in place, in
        the cached data itself. */
    method RenderRows(m: Moment) returns (rows: seq<Record>)
      modifies this
      ensures data.None? <==> old(data).None?
      ensures data.Some? ==>
        |data.value| == |old(data).value| &&
        forall i :: 0 <= i < |data.value| ==> data.value[i] == NormalizeTrip(m, old(data).value[i])
      ensures rows == RowsOf(data)
      ensures notify == old(notify) && selectedRows == old(selectedRows) && selected == old(selected)
      ensures form == old(form) && openDialog == old(openDialog) && isLoading == old(isLoading)
      ensures requests == old(requests) && refetches == old(refetches)
    {
      if data.Some? {
        var items := NormalizeTrips(m, data.value);
        data := Some(items);
      }
      rows := RowsOf(data);
    }

    /** The effect on a failed fetch: its message is shown as an error. */
    method ReportFetchError(message: string)
      modifies this
      ensures notify == Notice(true, Str(message), "error")
      ensures data == old(data) && selectedRows == old(selectedRows) && selected == old(selected)
      ensures form == old(form) && openDialog == old(openDialog) && isLoading == old(isLoading)
      ensures requests == old(requests) && refetches == old(refetches)
    {
      notify := Notice(true, Str(message), "error");
    }

    /** `handleOpenDialog`: "new" clears the trip first, so the dialog
        starts a trip; any other call keeps the current one. */
    method HandleOpenDialog(kind: Option<string>)
      modifies this
      ensures openDialog
      ensures form == if kind == Some("new") then None else old(form)
      ensures data == old(data) && notify == old(notify) && selectedRows == old(selectedRows)
      ensures selected == old(selected) && isLoading == old(isLoading)
      ensures requests == old(requests) && refetches == old(refetches)
    {
      if kind == Some("new") {
        form := None;
      }
      openDialog := true;
    }

    /** `handleCloseDialog`. */
    method HandleCloseDialog()
      modifies this
      ensures !openDialog
      ensures data == old(data) && notify == old(notify) && selectedRows == old(selectedRows)
      ensures selected == old(selected) && form == old(form) && isLoading == old(isLoading)
      ensures requests == old(requests) && refetches == old(refetches)
    {
      openDialog := false;
    }

    /** `handleCloseNotify`. */
    method HandleCloseNotify()
      modifies this
      ensures notify == CleanNotice
      ensures data == old(data) && selectedRows == old(selectedRows) && selected == old(selected)
      ensures form == old(form) && openDialog == old(openDialog) && isLoading == old(isLoading)
      ensures requests == old(requests) && refetches == old(refetches)
    {
      notify := CleanNotice;
    }

    /** `handleSelectionChange`: remembers the selection and which trip, if
        any, the toolbar may close. */
    method HandleSelectionChange(selection: seq<Value>)
      modifies this
      ensures selectedRows == selection
      ensures selected == SelectedTrip(RowsOf(old(data)), selection)
      ensures data == old(data) && notify == old(notify) && form == old(form)
      ensures openDialog == old(openDialog) && isLoading == old(isLoading)
      ensures requests == old(requests) && refetches == old(refetches)
    {
      if |selection| == 1 {
        var id := FirstTruthy(selection);
        selected := FindOpenTrip(RowsOf(data), id);
      } else {
        selected := None;
      }
      selectedRows := selection;
    }

    /** `handleSave`, the dialog's `onSave`: the selection for closing is
        dropped, the data refetched and the outcome notified. */
    method HandleSave(message: Payload, status: string)
      modifies this
      ensures selected.None? && notify == Notice(true, message, status)
      ensures refetches == old(refetches) + 1
      ensures data == old(data) && selectedRows == old(selectedRows) && form == old(form)
      ensures openDialog == old(openDialog) && isLoading == old(isLoading) && requests == old(requests)
    {
      selected := None;
      refetches := refetches + 1;
      notify := Notice(true, message, status);
    }

    /** `handleEdit`: the row with that id (if any) goes to the dialog,
        which opens to close that trip. */
    method HandleEdit(id: Value)
      modifies this
      ensures form == FindById(RowsOf(old(data)), id) && openDialog
      ensures data == old(data) && notify == old(notify) && selectedRows == old(selectedRows)
      ensures selected == old(selected) && isLoading == old(isLoading)
      ensures requests == old(requests) && refetches == old(refetches)
    {
      form := FindById(RowsOf(data), id);
      openDialog := true;
    }

    /** A row's "Encerrar" button, which exists only on an open trip:
        `handleEdit(params.row.id)`. */
    method CloseRow(row: Record)
      requires row in RowsOf(data) && RowAction(row).Some?
      modifies this
      ensures form == FindById(RowsOf(old(data)), Get(row, "id")) && form.Some? && openDialog
      ensures data == old(data) && notify == old(notify) && selectedRows == old(selectedRows)
      ensures selected == old(selected) && isLoading == old(isLoading)
      ensures requests == old(requests) && refetches == old(refetches)
    {
      HandleEdit(RowAction(row).value);
    }

    /** The toolbar's "Encerrar" button, shown while a trip is selected:
        `handleEdit` on the first truthy selected id. */
    method EditSelected()
      requires selected.Some?
      modifies this
      ensures form == FindById(RowsOf(old(data)), FirstTruthy(old(selectedRows))) && openDialog
      ensures data == old(data) && notify == old(notify) && selectedRows == old(selectedRows)
      ensures selected == old(selected) && isLoading == old(isLoading)
      ensures requests == old(requests) && refetches == old(refetches)
    {
      HandleEdit(FirstTruthy(selectedRows));
    }

    /** `handleDelete`, with one outcome per selected id supplied: every
        selected trip is deleted in turn, failures are collected in the
        fixed-text wording, and the loading flag ends false. */
    method HandleDelete(outcomes: seq<Outcome>)
      requires |outcomes| == |selectedRows|
      modifies this
      ensures requests == old(requests) + DeleteRequests(TripResource, old(selectedRows))
      ensures notify == DeleteNotice(CollectedErrors(outcomes, StringOrFallback))
      ensures !isLoading && selectedRows == [] && refetches == old(refetches) + 1
      ensures data == old(data) && selected == old(selected) && form == old(form)
      ensures openDialog == old(openDialog)
    {
      isLoading := true;
      var sent, erros := DeleteAll(TripResource, selectedRows, outcomes, StringOrFallback);
      requests := requests + sent;
      notify := DeleteNotice(erros);
      isLoading := false;
      refetches := refetches + 1;
      selectedRows := [];
    }
  }
}
