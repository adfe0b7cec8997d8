/** The editable data grid's row state: the rows on screen, the per-row edit mode map and
    the one id waiting for a delete confirmation. The persistence handler's answer is a
    parameter of the handlers that await it. */
module DataTable {
  import opened Common

  /** The JavaScript values a row id, a field or a handler answer can take. */
  datatype Value = Null | Num(n: int) | Str(s: string) | Bool(b: bool)

  /** JavaScript truthiness: null, 0, "" and false are falsy. */
  predicate Truthy(v: Value) {
    match v
    case Null => false
    case Num(n) => n != 0
    case Str(s) => s != ""
    case Bool(b) => b
  }

  /** A grid row: its id, the `isNew` flag of a row not yet saved, and its other fields. */
  datatype Row = Row(id: Value, isNew: bool, fields: map<string, Value>)

  /** A row's mode: viewing (possibly discarding the edits) or editing (possibly with a
      field to focus). */
  datatype Mode = View(ignoreModifications: bool) | Edit(fieldToFocus: Option<string>)

  /** Why the grid stopped editing a row. */
  datatype EditStopReason = RowFocusOut | EnterKeyDown | EscapeKeyDown | TabKeyDown | ShiftTabKeyDown

  /** `rows.map(row => row.id === id ? updated : row)`. */
  function ReplaceById(rows: seq<Row>, id: Value, updated: Row): (r: seq<Row>)
    ensures |r| == |rows|
    ensures forall i :: 0 <= i < |rows| ==> r[i] == if rows[i].id == id then updated else rows[i]
  {
    if rows == [] then [] else [if rows[0].id == id then updated else rows[0]] + ReplaceById(rows[1..], id, updated)
  }

  /** `rows.filter(row => row.id !== id)`. */
  function RemoveById(rows: seq<Row>, id: Value): (r: seq<Row>)
    ensures |r| <= |rows|
    ensures forall x :: x in r <==> x in rows && x.id != id
  {
    if rows == [] then [] else (if rows[0].id == id then [] else [rows[0]]) + RemoveById(rows[1..], id)
  }

  /** `rows.find(row => row.id === id)`. */
  function FindById(rows: seq<Row>, id: Value): (r: Option<Row>)
    ensures r.Some? ==> r.value in rows && r.value.id == id
    ensures r.None? ==> forall x :: x in rows ==> x.id != id
  {
    if rows == [] then None else if rows[0].id == id then Some(rows[0]) else FindById(rows[1..], id)
  }

  /** Which call `processRowUpdate` makes to the persistence handler. */
  datatype Persist = Add | Save

  class CrudGrid {
    var rows: seq<Row>
    var modes: map<Value, Mode>
    var itemToDelete: Value

    constructor ()
      ensures rows == [] && modes == map[] && itemToDelete == Null
    {
      rows, modes, itemToDelete := [], map[], Null;
    }

    /** The effect on `data`: the rows are replaced wholesale. */
    method SetData(data: seq<Row>)
      modifies this`rows
      ensures rows == data
    {
      rows := data;
    }

    /** `processRowUpdate(newRow)`, with `result` the handler's answer. A truthy id on a new
        row is an add, and a truthy answer becomes the row's id; anything else is a save that
        keeps the id. A falsy answer changes nothing and returns nothing. */
    method ProcessRowUpdate(newRow: Row, result: Value) returns (call: Persist, updated: Option<Row>)
      modifies this`rows
      ensures call == if Truthy(newRow.id) && newRow.isNew then Add else Save
      ensures !Truthy(result) ==> updated == None && rows == old(rows)
      ensures Truthy(result) ==>
        && updated == Some(if call == Add then newRow.(isNew := false, id := result) else newRow.(isNew := false))
        && rows == ReplaceById(old(rows), newRow.id, updated.value)
    {
      if Truthy(newRow.id) && newRow.isNew {
        call := Add;
        if Truthy(result) {
          var row := newRow.(isNew := false, id := result);
          rows := ReplaceById(rows, newRow.id, row);
          return call, Some(row);
        }
      } else {
        call := Save;
        if Truthy(result) {
          var row := newRow.(isNew := false);
          rows := ReplaceById(rows, newRow.id, row);
          return call, Some(row);
        }
      }
      updated := None;
    }

    /** A delete click only remembers which row is waiting for confirmation. */
    method DeleteClick(id: Value)
      modifies this`itemToDelete
      ensures itemToDelete == id
    {
      itemToDelete := id;
    }

    method EditClick(id: Value)
      modifies this`modes
      ensures modes == old(modes)[id := Edit(None)]
    {
      modes := modes[id := Edit(None)];
    }

    method SaveClick(id: Value)
      modifies this`modes
      ensures modes == old(modes)[id := View(false)]
    {
      modes := modes[id := View(false)];
    }

    /** Cancel discards the edits of row `id`; a row that was never saved disappears. The
        mode is set before the row is looked up. */
    method CancelClick(id: Value)
      modifies this`modes, this`rows
      ensures modes == old(modes)[id := View(true)]
      ensures var found := FindById(old(rows), id);
        rows == if found.Some? && found.value.isNew then RemoveById(old(rows), id) else old(rows)
    {
      modes := modes[id := View(true)];
      var found := FindById(rows, id);
      if found.Some? && found.value.isNew {
        rows := RemoveById(rows, id);
      }
    }

    method RowModesModelChange(newModes: map<Value, Mode>)
      modifies this`modes
      ensures modes == newModes
    {
      modes := newModes;
    }

    /** Closing the confirmation dialog: the delete handler runs only on a confirmed choice
        with a truthy pending id, the rows lose that id only on a truthy answer, and the
        pending id is cleared in every case. */
    method ConfirmDialogClose(choice: bool, result: Value) returns (deleteCalled: bool)
      modifies this`rows, this`itemToDelete
      ensures deleteCalled == (choice && Truthy(old(itemToDelete)))
      ensures rows == if deleteCalled && Truthy(result) then RemoveById(old(rows), old(itemToDelete)) else old(rows)
      ensures itemToDelete == Null
    {
      deleteCalled := choice && Truthy(itemToDelete);
      if deleteCalled && Truthy(result) {
        rows := RemoveById(rows, itemToDelete);
      }
      itemToDelete := Null;
    }
  }

  /** `handleRowEditStop`: leaving a row by moving the focus away does not end its edit. */
  function EditStopPrevented(reason: EditStopReason): (prevented: bool)
    ensures prevented <==> reason == RowFocusOut
  {
    reason.RowFocusOut?
  }

  // ---------------------------------------------------------------------------
  // Properties of the row operations
  // ---------------------------------------------------------------------------

  /** Saving a new row under a fresh server id: the row count stays, the row with the
      temporary id now carries the server id, and rows with other ids are untouched. */
  lemma {:induction false} SwapKeepsOthers(rows: seq<Row>, newRow: Row, result: Value, k: nat)
    requires k < |rows| && rows[k].id == newRow.id
    ensures var r := ReplaceById(rows, newRow.id, newRow.(isNew := false, id := result));
      && |r| == |rows|
      && r[k].id == result && !r[k].isNew && r[k].fields == newRow.fields
      && forall i :: 0 <= i < |rows| && rows[i].id != newRow.id ==> r[i] == rows[i]
  {
  }

  /** Removing an id that no row has leaves the rows as they are. */
  lemma {:induction false} RemoveAbsent(rows: seq<Row>, id: Value)
    requires forall x :: x in rows ==> x.id != id
    ensures RemoveById(rows, id) == rows
  {
    if rows != [] {
      RemoveAbsent(rows[1..], id);
      assert [rows[0]] + rows[1..] == rows;
    }
  }

  /** Removing by id distributes over appending rows. */
  lemma {:induction false} RemoveAppend(rows: seq<Row>, extra: Row, id: Value)
    ensures RemoveById(rows + [extra], id) == RemoveById(rows, id) + (if extra.id == id then [] else [extra])
  {
    if rows != [] {
      assert (rows + [extra])[1..] == rows[1..] + [extra];
      RemoveAppend(rows[1..], extra, id);
    }
  }

  /** No row survives a removal of its id, so a second removal changes nothing. */
  lemma RemoveIdempotent(rows: seq<Row>, id: Value)
    ensures RemoveById(RemoveById(rows, id), id) == RemoveById(rows, id)
  {
    RemoveAbsent(RemoveById(rows, id), id);
  }
}
