/** The grid toolbar's "Add record" button. */
module EditToolbar {
  import opened Common
  import opened DataTable

  /** The blank row the button appends, marked as not yet saved. */
  function BlankRow(id: Value): (r: Row)
    ensures r.id == id && r.isNew
    ensures r.fields == map["name" := Str(""), "age" := Str(""), "role" := Str("")]
  {
    Row(id, true, map["name" := Str(""), "age" := Str(""), "role" := Str("")])
  }

  /** `handleClick`, with `id` the value `randomId()` produced: one blank row is appended
      and put in edit mode with the focus on "name"; nothing else changes. */
  method HandleClick(grid: CrudGrid, id: Value)
    modifies grid`rows, grid`modes
    ensures grid.rows == old(grid.rows) + [BlankRow(id)]
    ensures grid.modes == old(grid.modes)[id := Edit(Some("name"))]
  {
    grid.rows := grid.rows + [BlankRow(id)];
    grid.modes := grid.modes[id := Edit(Some("name"))];
  }

  /** Adding a record and cancelling it at once gives back the rows there were, provided
      the generated id was not in use. */
  lemma {:induction false} AddThenCancelRestores(rows: seq<Row>, id: Value)
    requires forall x :: x in rows ==> x.id != id
    ensures var added := rows + [BlankRow(id)];
      && FindById(added, id) == Some(BlankRow(id))
      && RemoveById(added, id) == rows
  {
    var added := rows + [BlankRow(id)];
    RemoveAppend(rows, BlankRow(id), id);
    RemoveAbsent(rows, id);
    FindAppend(rows, BlankRow(id));
  }

  lemma {:induction false} FindAppend(rows: seq<Row>, extra: Row)
    requires forall x :: x in rows ==> x.id != extra.id
    ensures FindById(rows + [extra], extra.id) == Some(extra)
  {
    if rows != [] {
      assert (rows + [extra])[1..] == rows[1..] + [extra];
      FindAppend(rows[1..], extra);
    }
  }
}
