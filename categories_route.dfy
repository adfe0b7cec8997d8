/** The categories router: a list that is paginated only when both `page` and `limit` are
    given, and full-replace update, delete and insert by id. */
module CategoriesRoute {
  import opened Common
  import opened Sql
  import opened Schema

  class CategoryStore {
    var categories: seq<Category>
    var nextId: nat

    ghost predicate Valid()
      reads this
    {
      CategoryIdsBelow(categories, nextId) && CategoryIdsIncreasing(categories)
    }

    constructor ()
      ensures Valid() && categories == [] && nextId == 1
    {
      categories, nextId := [], 1;
    }
  }

  predicate CategoryIdsBelow(cats: seq<Category>, bound: nat) {
    forall i :: 0 <= i < |cats| ==> cats[i].id < bound
  }

  predicate CategoryIdsIncreasing(cats: seq<Category>) {
    forall i, j :: 0 <= i < j < |cats| ==> cats[i].id < cats[j].id
  }

  // ---------------------------------------------------------------------------
  // GET /
  // ---------------------------------------------------------------------------

  /** The query string: `page` and `limit` are `Some` when present and non-empty. */
  datatype CategoryQuery = CategoryQuery(
    page: Option<int>, limit: Option<int>, sortColumn: Option<string>, sortDirection: Option<string>)

  datatype CategoryPage = CategoryPage(results: seq<Category>, count: nat)

  const ListError: string := "GET_CATEGORIES_ERROR"

  /** The `ORDER BY` text of the paginated list, with "id" and "asc" for missing parameters. */
  function SortClause(q: CategoryQuery): (clause: string)
    ensures q.sortColumn.None? && q.sortDirection.None? ==> clause == "\"id\" ASC"
  {
    OrderBy(if q.sortColumn.Some? then q.sortColumn.value else "id",
            if q.sortDirection.Some? then q.sortDirection.value else "asc")
  }

  /** `ORDER BY name ASC` on categories, under the database's text collation `collate`. */
  function NameOrder(collate: (string, string) -> bool): (le: (Category, Category) -> bool) {
    (x: Category, y: Category) => NullsLast(collate, x.name, y.name)
  }

  lemma NameOrderIsPreorder(collate: (string, string) -> bool)
    requires TotalPreorder(collate)
    ensures TotalPreorder(NameOrder(collate))
  {
    NullsLastPreorder(collate, (c: Category) => c.name, NameOrder(collate));
  }

  /** GET /. Without both `page` and `limit` every row comes back in the order of
      `ORDER BY name ASC` (`NameOrder(collate)`), and `count` is the number of rows returned. Otherwise
      the rows come back in the order the database gives the `ORDER BY` text (`order`,
      `None` when that text is not valid there), cut by `LIMIT limit OFFSET (page - 1) * limit`;
      a negative limit or offset is a database error, and `count` is the size of the table. */
  function ListCategories(
    cats: seq<Category>, q: CategoryQuery,
    collate: (string, string) -> bool,
    order: string -> Option<(Category, Category) -> bool>): (r: Reply<CategoryPage>)
    ensures r.Success? ==> r.details.results != [] && |r.details.results| <= |cats|
  {
    if q.page.None? || q.limit.None? then
      var rows := SortBy(cats, NameOrder(collate));
      if |rows| < 1 then Failure(200, ListError, "Unable to get categories", "No results retrieving categories")
      else Success(200, "GET_CATEGORIES_SUCCESS", "Successfully retrieved categories", CategoryPage(rows, |rows|))
    else
      var clause := SortClause(q);
      var offset := (q.page.value - 1) * q.limit.value;
      if order(clause).None? then
        Failure(500, ListError, "Error retrieving categories", CaughtError)
      else
        var page := LimitOffsetChecked(SortBy(cats, order(clause).value), q.limit.value, offset);
        if page.None? then
          Failure(500, ListError, "Error retrieving categories", CaughtError)
        else if |page.value| < 1 then
          Failure(200, ListError, "Unable to get categories", "No results retrieving categories")
        else
          Success(200, "GET_CATEGORIES_SUCCESS", "Successfully retrieved categories", CategoryPage(page.value, |cats|))
  }

  /** The unpaginated answer holds every category exactly once, in name order, and `count`
      is its length. */
  lemma FullListIsEveryCategory(cats: seq<Category>, q: CategoryQuery,
    collate: (string, string) -> bool, order: string -> Option<(Category, Category) -> bool>)
    requires q.page.None? || q.limit.None?
    requires cats != []
    ensures var r := ListCategories(cats, q, collate, order);
      && r.Success?
      && multiset(r.details.results) == multiset(cats)
      && r.details.count == |cats|
      && (TotalPreorder(collate) ==>
            && (forall i, j :: 0 <= i < j < |r.details.results| ==>
                  NullsLast(collate, r.details.results[i].name, r.details.results[j].name))
            && (forall i, j :: 0 <= i < j < |r.details.results| && r.details.results[i].name.None? ==>
                  r.details.results[j].name.None?))
  {
    if TotalPreorder(collate) {
      NameOrderIsPreorder(collate);
      SortBySorted(cats, NameOrder(collate));
    }
  }

  /** A paginated answer is the window at `(page - 1) * limit` of the whole table in the
      requested order, and so comes back sorted by it; it is only ever given for a page and
      a limit of at least 1. */
  lemma PagedListIsSortedWindow(cats: seq<Category>, q: CategoryQuery,
    collate: (string, string) -> bool, order: string -> Option<(Category, Category) -> bool>)
    requires q.page.Some? && q.limit.Some?
    requires ListCategories(cats, q, collate, order).Success?
    ensures order(SortClause(q)).Some? && q.page.value >= 1 && q.limit.value >= 1
    ensures var le := order(SortClause(q)).value;
      var r := ListCategories(cats, q, collate, order);
      && r.details.results == LimitOffset(SortBy(cats, le), q.limit.value, (q.page.value - 1) * q.limit.value)
      && (TotalPreorder(le) ==> SortedBy(r.details.results, le))
  {
    var le := order(SortClause(q)).value;
    if q.page.value < 1 {
      NegativeTimesPositive(q.page.value - 1, q.limit.value);
    }
    if TotalPreorder(le) {
      SortBySorted(cats, le);
      LimitOffsetSorted(SortBy(cats, le), q.limit.value, (q.page.value - 1) * q.limit.value, le);
    }
  }

  /** A paginated answer is never larger than `limit`, its rows are categories of the table,
      and `count` is the whole table whatever page was asked for. */
  lemma PagedListBounds(cats: seq<Category>, q: CategoryQuery,
    collate: (string, string) -> bool, order: string -> Option<(Category, Category) -> bool>)
    requires q.page.Some? && q.limit.Some?
    requires ListCategories(cats, q, collate, order).Success?
    ensures var r := ListCategories(cats, q, collate, order);
      && |r.details.results| <= q.limit.value
      && r.details.count == |cats|
      && forall c :: c in r.details.results ==> c in cats
  {
    var r := ListCategories(cats, q, collate, order);
    var sorted := SortBy(cats, order(SortClause(q)).value);
    forall c | c in r.details.results ensures c in cats {
      var k :| 0 <= k < |r.details.results| && r.details.results[k] == c;
      assert c in multiset(sorted);
    }
  }

  /** Every reply of GET / under its condition. Without pagination: "No results" exactly
      when the table is empty, a success otherwise. With pagination: the 500 error when the
      `ORDER BY` text is not valid or the limit or offset is negative; otherwise "No results"
      exactly when the offset is at or past the end of the table or the limit is 0, and a
      success otherwise. */
  lemma ListRepliesExactly(cats: seq<Category>, q: CategoryQuery,
    collate: (string, string) -> bool, order: string -> Option<(Category, Category) -> bool>)
    ensures var r := ListCategories(cats, q, collate, order);
      q.page.None? || q.limit.None? ==>
        && (r == Failure(200, ListError, "Unable to get categories", "No results retrieving categories") <==> cats == [])
        && (r.Success? <==> cats != [])
    ensures var r := ListCategories(cats, q, collate, order);
      q.page.Some? && q.limit.Some? && order(SortClause(q)).None? ==>
        r == Failure(500, ListError, "Error retrieving categories", CaughtError)
    ensures var r := ListCategories(cats, q, collate, order);
      var offset := if q.page.Some? && q.limit.Some? then (q.page.value - 1) * q.limit.value else 0;
      q.page.Some? && q.limit.Some? && order(SortClause(q)).Some? && (q.limit.value < 0 || offset < 0) ==>
        r == Failure(500, ListError, "Error retrieving categories", CaughtError)
    ensures var r := ListCategories(cats, q, collate, order);
      var offset := if q.page.Some? && q.limit.Some? then (q.page.value - 1) * q.limit.value else 0;
      q.page.Some? && q.limit.Some? && order(SortClause(q)).Some? && q.limit.value >= 0 && offset >= 0 ==>
        && (var empty := Failure(200, ListError, "Unable to get categories", "No results retrieving categories");
            r == empty <==> offset >= |cats| || q.limit.value == 0)
        && (r.Success? <==> offset < |cats| && q.limit.value > 0)
  {
  }

  /** A page below 1 or a negative limit is refused by the database, not by the handler:
      the answer is the 500 error. */
  lemma {:induction false} NegativeWindowIsServerError(cats: seq<Category>, q: CategoryQuery,
    collate: (string, string) -> bool, order: string -> Option<(Category, Category) -> bool>)
    requires q.page.Some? && q.limit.Some?
    requires q.limit.value < 0 || (q.page.value < 1 && q.limit.value > 0)
    ensures ListCategories(cats, q, collate, order) == Failure(500, ListError, "Error retrieving categories", CaughtError)
  {
    if q.limit.value >= 0 {
      NegativeTimesPositive(q.page.value - 1, q.limit.value);
    }
    ListRepliesExactly(cats, q, collate, order);
  }


  // ---------------------------------------------------------------------------
  // PUT /:id, DELETE /:id, POST /
  // ---------------------------------------------------------------------------

  /** What PUT /:id echoes back: the id from the path and the body's fields. */
  datatype CategoryEcho = CategoryEcho(id: int, name: Option<string>, notes: Option<string>)

  /** The table after `UPDATE categories SET name = $1, notes = $2 WHERE id = $3`. */
  function Rename(cats: seq<Category>, id: int, name: Option<string>, notes: Option<string>): (r: seq<Category>)
    ensures |r| == |cats|
    ensures forall i :: 0 <= i < |cats| ==>
      r[i] == if cats[i].id == id then cats[i].(name := name, notes := notes) else cats[i]
  {
    if cats == [] then []
    else [if cats[0].id == id then cats[0].(name := name, notes := notes) else cats[0]] + Rename(cats[1..], id, name, notes)
  }

  /** The number of rows with that id: the statement's `rowCount`. */
  function CountId(cats: seq<Category>, id: int): (n: nat)
    ensures n == 0 <==> forall c :: c in cats ==> c.id != id
  {
    if cats == [] then 0 else (if cats[0].id == id then 1 else 0) + CountId(cats[1..], id)
  }

  /** PUT /:id: both fields are replaced; a field missing from the body becomes NULL. */
  method UpdateCategory(store: CategoryStore, id: int, name: Option<string>, notes: Option<string>)
    returns (r: Reply<CategoryEcho>)
    requires store.Valid()
    modifies store`categories
    ensures store.Valid()
    ensures store.categories == Rename(old(store.categories), id, name, notes)
    ensures CountId(old(store.categories), id) == 0 ==>
      r == Failure(200, "UPDATE_CATEGORY_ERROR", "Error updating category", "Unknown error")
    ensures CountId(old(store.categories), id) > 0 ==>
      r == Success(200, "UPDATE_CATEGORY_SUCCESS", "Successfully updated category", CategoryEcho(id, name, notes))
  {
    var rowCount := CountId(store.categories, id);
    RenameKeepsOrder(store.categories, id, name, notes, store.nextId);
    store.categories := Rename(store.categories, id, name, notes);
    if rowCount < 1 {
      return Failure(200, "UPDATE_CATEGORY_ERROR", "Error updating category", "Unknown error");
    }
    r := Success(200, "UPDATE_CATEGORY_SUCCESS", "Successfully updated category", CategoryEcho(id, name, notes));
  }

  /** Renaming keeps every id in place, so the table's id order survives. */
  lemma RenameKeepsOrder(cats: seq<Category>, id: int, name: Option<string>, notes: Option<string>, bound: nat)
    requires CategoryIdsBelow(cats, bound) && CategoryIdsIncreasing(cats)
    ensures CategoryIdsBelow(Rename(cats, id, name, notes), bound)
    ensures CategoryIdsIncreasing(Rename(cats, id, name, notes))
  {
    var r := Rename(cats, id, name, notes);
    assert forall i :: 0 <= i < |r| ==> r[i].id == cats[i].id;
  }

  /** The update replaces both fields: a body without `name` clears the stored name. */
  lemma {:induction false} UpdateReplacesBoth(cats: seq<Category>, id: int, notes: Option<string>, i: nat)
    requires i < |cats| && cats[i].id == id
    ensures Rename(cats, id, None, notes)[i].name == None
    ensures Rename(cats, id, None, notes)[i].notes == notes
  {
  }

  /** The table after `DELETE FROM categories WHERE id = $1`. */
  function DropId(cats: seq<Category>, id: int): (r: seq<Category>)
    ensures |r| <= |cats|
    ensures forall c :: c in r <==> c in cats && c.id != id
  {
    if cats == [] then []
    else (if cats[0].id == id then [] else [cats[0]]) + DropId(cats[1..], id)
  }

  /** DELETE /:id. */
  method DeleteCategory(store: CategoryStore, id: int) returns (r: Reply<int>)
    requires store.Valid()
    modifies store`categories
    ensures store.Valid()
    ensures store.categories == DropId(old(store.categories), id)
    ensures CountId(old(store.categories), id) == 0 ==>
      r == Failure(200, "DELETE_CATEGORY_ERROR", "Error deleting category", "Unknown error")
    ensures CountId(old(store.categories), id) > 0 ==>
      r == Success(200, "DELETE_CATEGORY_SUCCESS", "Successfully deleted category", id)
  {
    var rowCount := CountId(store.categories, id);
    DropKeepsOrder(store.categories, id, store.nextId);
    store.categories := DropId(store.categories, id);
    if rowCount < 1 {
      return Failure(200, "DELETE_CATEGORY_ERROR", "Error deleting category", "Unknown error");
    }
    r := Success(200, "DELETE_CATEGORY_SUCCESS", "Successfully deleted category", id);
  }

  lemma {:induction false} DropKeepsOrder(cats: seq<Category>, id: int, bound: nat)
    requires CategoryIdsBelow(cats, bound) && CategoryIdsIncreasing(cats)
    ensures CategoryIdsBelow(DropId(cats, id), bound) && CategoryIdsIncreasing(DropId(cats, id))
  {
    if cats != [] {
      DropKeepsOrder(cats[1..], id, bound);
      var rest := DropId(cats[1..], id);
      if cats[0].id != id {
        var r := [cats[0]] + rest;
        assert DropId(cats, id) == r;
        forall i, j | 0 <= i < j < |r| ensures r[i].id < r[j].id {
          assert r[j] in cats[1..];
          if i > 0 { assert r[i] == rest[i - 1]; }
        }
      }
    }
  }

  /** A deleted id is gone; every other category stays. */
  lemma DeleteRemovesOnlyThatId(cats: seq<Category>, id: int, c: Category)
    requires c in cats
    ensures c in DropId(cats, id) <==> c.id != id
    ensures CountId(DropId(cats, id), id) == 0
  {
  }

  /** POST /: the inserted row comes back. */
  method AddCategory(store: CategoryStore, name: Option<string>, notes: Option<string>) returns (r: Reply<Category>)
    requires store.Valid()
    modifies store`categories, store`nextId
    ensures store.Valid()
    ensures var row := Category(old(store.nextId), name, notes);
      && store.categories == old(store.categories) + [row]
      && r == Success(200, "ADD_CATEGORY_SUCCESS", "Successfully added category", row)
  {
    var row := Category(store.nextId, name, notes);
    store.categories := store.categories + [row];
    store.nextId := store.nextId + 1;
    r := Success(200, "ADD_CATEGORY_SUCCESS", "Successfully added category", row);
  }
}
