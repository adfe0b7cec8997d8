/** The sub-categories router: an always-paginated list joined with the parent category,
    the list of one category's sub-categories, and insert, full-replace update and delete. */
module SubCategoriesRoute {
  import opened Common
  import opened Sql
  import opened Schema

  class SubCategoryStore {
    var subCategories: seq<SubCategory>
    var nextId: nat

    ghost predicate Valid()
      reads this
    {
      SubIdsBelow(subCategories, nextId) && SubIdsIncreasing(subCategories)
    }

    constructor ()
      ensures Valid() && subCategories == [] && nextId == 1
    {
      subCategories, nextId := [], 1;
    }
  }

  predicate SubIdsBelow(subs: seq<SubCategory>, bound: nat) {
    forall i :: 0 <= i < |subs| ==> subs[i].id < bound
  }

  predicate SubIdsIncreasing(subs: seq<SubCategory>) {
    forall i, j :: 0 <= i < j < |subs| ==> subs[i].id < subs[j].id
  }

  // ---------------------------------------------------------------------------
  // GET /
  // ---------------------------------------------------------------------------

  /** One row of the list: the sub-category with its parent's id and name. */
  datatype SubCategoryView = SubCategoryView(
    id: nat, name: Option<string>, notes: Option<string>, categoryId: nat, categoryName: Option<string>)

  /** `JOIN categories ON sub_categories.category_id = categories.id`, in table order: a
      sub-category whose parent does not exist is dropped; ids of categories are unique. */
  function Joined(subs: seq<SubCategory>, cats: seq<Category>): (r: seq<SubCategoryView>)
    ensures |r| <= |subs|
    ensures forall v :: v in r ==>
      exists s, c ::
        && s in subs && c in cats && s.categoryId == c.id
        && v == SubCategoryView(s.id, s.name, s.notes, c.id, c.name)
  {
    if subs == [] then []
    else
      var parent := ParentOf(subs[0], cats);
      (if parent.Some? then [SubCategoryView(subs[0].id, subs[0].name, subs[0].notes, parent.value.id, parent.value.name)] else [])
      + Joined(subs[1..], cats)
  }

  function ParentOf(s: SubCategory, cats: seq<Category>): (r: Option<Category>)
    ensures r.Some? ==> r.value in cats && r.value.id == s.categoryId
    ensures r.None? ==> forall c :: c in cats ==> c.id != s.categoryId
  {
    if cats == [] then None
    else if cats[0].id == s.categoryId then Some(cats[0])
    else ParentOf(s, cats[1..])
  }

  /** The query string; a missing `page` means 1 and a missing `limit` means 10. */
  datatype SubCategoryQuery = SubCategoryQuery(
    page: Option<int>, limit: Option<int>, sortColumn: Option<string>, sortDirection: Option<string>)

  datatype SubCategoryPage = SubCategoryPage(results: seq<SubCategoryView>, count: nat)

  const ListError: string := "GET_SUB_CATEGORIES_ERROR"

  function PageNumber(q: SubCategoryQuery): (r: int) { if q.page.Some? then q.page.value else 1 }
  function PageSize(q: SubCategoryQuery): (r: int) { if q.limit.Some? then q.limit.value else 10 }

  /** The `ORDER BY` text, with "id" and "asc" for missing parameters. */
  function SortClause(q: SubCategoryQuery): (clause: string)
    ensures q.sortColumn.None? && q.sortDirection.None? ==> clause == "\"id\" ASC"
  {
    OrderBy(if q.sortColumn.Some? then q.sortColumn.value else "id",
            if q.sortDirection.Some? then q.sortDirection.value else "asc")
  }

  /** GET /: always `LIMIT limit OFFSET (page - 1) * limit`; the database refuses a negative
      limit or offset and an `ORDER BY` text it cannot read (`order` gives `None`).
      `count` is the size of the sub-categories table, joined or not. */
  function ListSubCategories(
    subs: seq<SubCategory>, cats: seq<Category>, q: SubCategoryQuery,
    order: string -> Option<(SubCategoryView, SubCategoryView) -> bool>): (r: Reply<SubCategoryPage>)
    ensures r.Success? ==> r.details.results != [] && r.details.count == |subs|
  {
    var clause := SortClause(q);
    if order(clause).None? then
      Failure(500, ListError, "Error retrieving sub-categories", CaughtError)
    else
      var page := LimitOffsetChecked(SortBy(Joined(subs, cats), order(clause).value),
                                     PageSize(q), (PageNumber(q) - 1) * PageSize(q));
      if page.None? then
        Failure(500, ListError, "Error retrieving sub-categories", CaughtError)
      else if |page.value| < 1 then
        Failure(200, ListError, "Unable to get sub-categories", "No results retrieving sub-categories")
      else
        Success(200, "GET_SUB_CATEGORIES_SUCCESS", "Successfully retrieved sub-categories",
                SubCategoryPage(page.value, |subs|))
  }

  /** Every listed row is a stored sub-category joined with its existing parent, at most
      `limit` rows come back, and with no parameters at all that is at most 10. */
  lemma ListedRowsAreJoined(
    subs: seq<SubCategory>, cats: seq<Category>, q: SubCategoryQuery,
    order: string -> Option<(SubCategoryView, SubCategoryView) -> bool>, v: SubCategoryView)
    requires ListSubCategories(subs, cats, q, order).Success?
    requires v in ListSubCategories(subs, cats, q, order).details.results
    ensures |ListSubCategories(subs, cats, q, order).details.results| <= PageSize(q)
    ensures q.limit.None? ==> |ListSubCategories(subs, cats, q, order).details.results| <= 10
    ensures exists s, c ::
      && s in subs && c in cats && s.categoryId == c.id
      && v == SubCategoryView(s.id, s.name, s.notes, c.id, c.name)
  {
    var sorted := SortBy(Joined(subs, cats), order(SortClause(q)).value);
    LimitOffsetMember(sorted, PageSize(q), (PageNumber(q) - 1) * PageSize(q), v);
    SortByMember(Joined(subs, cats), order(SortClause(q)).value, v);
  }

  /** A successful answer is the window at `(page - 1) * limit` of the joined rows in the
      requested order, and so comes back sorted by it; it is only ever given for a page and
      a limit of at least 1. */
  lemma ListIsSortedWindow(
    subs: seq<SubCategory>, cats: seq<Category>, q: SubCategoryQuery,
    order: string -> Option<(SubCategoryView, SubCategoryView) -> bool>)
    requires ListSubCategories(subs, cats, q, order).Success?
    ensures order(SortClause(q)).Some? && PageNumber(q) >= 1 && PageSize(q) >= 1
    ensures var le := order(SortClause(q)).value;
      var r := ListSubCategories(subs, cats, q, order);
      && r.details.results == LimitOffset(SortBy(Joined(subs, cats), le), PageSize(q), (PageNumber(q) - 1) * PageSize(q))
      && (TotalPreorder(le) ==> SortedBy(r.details.results, le))
  {
    var le := order(SortClause(q)).value;
    if PageNumber(q) < 1 {
      NegativeTimesPositive(PageNumber(q) - 1, PageSize(q));
    }
    if TotalPreorder(le) {
      SortBySorted(Joined(subs, cats), le);
      LimitOffsetSorted(SortBy(Joined(subs, cats), le), PageSize(q), (PageNumber(q) - 1) * PageSize(q), le);
    }
  }


  /** Every reply of GET / under its condition: the 500 error when the `ORDER BY` text is not
      valid or the limit or offset is negative; otherwise "No results" exactly when the
      offset is at or past the end of the joined rows or the limit is 0, and a success
      otherwise. */
  lemma ListRepliesExactly(
    subs: seq<SubCategory>, cats: seq<Category>, q: SubCategoryQuery,
    order: string -> Option<(SubCategoryView, SubCategoryView) -> bool>)
    ensures order(SortClause(q)).None? ==>
      ListSubCategories(subs, cats, q, order) == Failure(500, ListError, "Error retrieving sub-categories", CaughtError)
    ensures var offset := (PageNumber(q) - 1) * PageSize(q);
      order(SortClause(q)).Some? && (PageSize(q) < 0 || offset < 0) ==>
        ListSubCategories(subs, cats, q, order) == Failure(500, ListError, "Error retrieving sub-categories", CaughtError)
    ensures var r := ListSubCategories(subs, cats, q, order);
      var offset := (PageNumber(q) - 1) * PageSize(q);
      order(SortClause(q)).Some? && PageSize(q) >= 0 && offset >= 0 ==>
        && (var empty := Failure(200, ListError, "Unable to get sub-categories", "No results retrieving sub-categories");
            r == empty <==> offset >= |Joined(subs, cats)| || PageSize(q) == 0)
        && (r.Success? <==> offset < |Joined(subs, cats)| && PageSize(q) > 0)
  {
  }

  /** A sub-category whose parent category is missing is never listed, although `count`
      still includes it. */
  lemma {:induction false} OrphanNeverListed(subs: seq<SubCategory>, cats: seq<Category>, s: SubCategory)
    requires forall c :: c in cats ==> c.id != s.categoryId
    ensures forall v :: v in Joined(subs, cats) ==> v.id != s.id || v.categoryId != s.categoryId
  {
  }

  // ---------------------------------------------------------------------------
  // GET /:category_id
  // ---------------------------------------------------------------------------

  /** `WHERE category_id = $1`, in table order. */
  function OfCategory(subs: seq<SubCategory>, categoryId: int): (r: seq<SubCategory>)
    ensures |r| <= |subs|
    ensures forall s :: s in r <==> s in subs && s.categoryId == categoryId
  {
    if subs == [] then []
    else (if subs[0].categoryId == categoryId then [subs[0]] else []) + OfCategory(subs[1..], categoryId)
  }

  datatype SubCategoryList = SubCategoryList(results: seq<SubCategory>, count: nat)

  /** `ORDER BY name ASC` on sub-categories, under the database's text collation `collate`. */
  function NameOrder(collate: (string, string) -> bool): (le: (SubCategory, SubCategory) -> bool) {
    (x: SubCategory, y: SubCategory) => NullsLast(collate, x.name, y.name)
  }

  lemma NameOrderIsPreorder(collate: (string, string) -> bool)
    requires TotalPreorder(collate)
    ensures TotalPreorder(NameOrder(collate))
  {
    NullsLastPreorder(collate, (s: SubCategory) => s.name, NameOrder(collate));
  }

  /** GET /:category_id: that category's sub-categories in the order of `ORDER BY name ASC`
      (`NameOrder(collate)`); `count` is the number returned. */
  function ListOfCategory(subs: seq<SubCategory>, categoryId: int, collate: (string, string) -> bool)
    : (r: Reply<SubCategoryList>)
    ensures r.Success? ==>
      && multiset(r.details.results) == multiset(OfCategory(subs, categoryId))
      && r.details.count == |r.details.results| > 0
    ensures r.Failure? ==>
      && r == Failure(200, ListError, "Unable to get sub-categories", "No results retrieving sub-categories")
      && forall s :: s in subs ==> s.categoryId != categoryId
  {
    var rows := SortBy(OfCategory(subs, categoryId), NameOrder(collate));
    if |rows| < 1 then
      Failure(200, ListError, "Unable to get sub-categories", "No results retrieving sub-categories")
    else
      Success(200, "GET_SUB_CATEGORIES_SUCCESS", "Successfully retrieved sub-categories", SubCategoryList(rows, |rows|))
  }

  /** The answer for one category comes back in name order under the collation, with the
      sub-categories whose name is NULL last. */
  lemma ListOfCategoryInNameOrder(subs: seq<SubCategory>, categoryId: int, collate: (string, string) -> bool)
    requires TotalPreorder(collate)
    requires ListOfCategory(subs, categoryId, collate).Success?
    ensures var rs := ListOfCategory(subs, categoryId, collate).details.results;
      forall i, j :: 0 <= i < j < |rs| ==> NullsLast(collate, rs[i].name, rs[j].name)
    ensures var rs := ListOfCategory(subs, categoryId, collate).details.results;
      forall i, j :: 0 <= i < j < |rs| && rs[i].name.None? ==> rs[j].name.None?
  {
    NameOrderIsPreorder(collate);
    SortBySorted(OfCategory(subs, categoryId), NameOrder(collate));
  }

  // ---------------------------------------------------------------------------
  // POST /, PUT /:id, DELETE /:id
  // ---------------------------------------------------------------------------

  /** POST /. A missing `category_id` violates the column's NOT NULL, which is checked after
      the id default has drawn its value from the serial, so that id is used up either way. */
  method AddSubCategory(store: SubCategoryStore, name: Option<string>, notes: Option<string>, categoryId: Option<int>)
    returns (r: Reply<nat>)
    requires store.Valid()
    modifies store`subCategories, store`nextId
    ensures store.Valid()
    ensures store.nextId == old(store.nextId) + 1
    ensures categoryId.None? ==>
      && r == Failure(500, "ADD_SUB_CATEGORY_ERROR", "Error creating sub-category.", CaughtError)
      && store.subCategories == old(store.subCategories)
    ensures categoryId.Some? ==>
      && store.subCategories == old(store.subCategories) + [SubCategory(old(store.nextId), name, notes, categoryId.value)]
      && r == Success(201, "ADD_SUB_CATEGORY_SUCCESS", "Sub-category created successfully.", old(store.nextId))
  {
    var id := store.nextId;
    store.nextId := store.nextId + 1;
    if categoryId.None? {
      return Failure(500, "ADD_SUB_CATEGORY_ERROR", "Error creating sub-category.", CaughtError);
    }
    var row := SubCategory(id, name, notes, categoryId.value);
    store.subCategories := store.subCategories + [row];
    r := Success(201, "ADD_SUB_CATEGORY_SUCCESS", "Sub-category created successfully.", row.id);
  }

  /** What PUT /:id echoes back. */
  datatype SubCategoryEcho = SubCategoryEcho(id: int, name: Option<string>, categoryId: int, notes: Option<string>)

  /** The table after `UPDATE sub_categories SET name, category_id, notes WHERE id = $4`. */
  function Replace(subs: seq<SubCategory>, id: int, name: Option<string>, notes: Option<string>, categoryId: int)
    : (r: seq<SubCategory>)
    ensures |r| == |subs|
    ensures forall i :: 0 <= i < |subs| ==>
      r[i] == if subs[i].id == id then SubCategory(subs[i].id, name, notes, categoryId) else subs[i]
  {
    if subs == [] then []
    else [if subs[0].id == id then SubCategory(subs[0].id, name, notes, categoryId) else subs[0]]
         + Replace(subs[1..], id, name, notes, categoryId)
  }

  function CountSubId(subs: seq<SubCategory>, id: int): (n: nat)
    ensures n == 0 <==> forall s :: s in subs ==> s.id != id
  {
    if subs == [] then 0 else (if subs[0].id == id then 1 else 0) + CountSubId(subs[1..], id)
  }

  /** Replacing keeps every id in place, so the table's id order survives. */
  lemma ReplaceKeepsOrder(subs: seq<SubCategory>, id: int, name: Option<string>, notes: Option<string>,
                          categoryId: int, bound: nat)
    requires SubIdsBelow(subs, bound) && SubIdsIncreasing(subs)
    ensures SubIdsBelow(Replace(subs, id, name, notes, categoryId), bound)
    ensures SubIdsIncreasing(Replace(subs, id, name, notes, categoryId))
  {
    var r := Replace(subs, id, name, notes, categoryId);
    assert forall i :: 0 <= i < |r| ==> r[i].id == subs[i].id;
  }

  /** PUT /:id: all three fields are replaced. A missing `category_id` violates the column's
      NOT NULL only on a row the `WHERE` matches; with no such row nothing is written and
      the reply is the zero-row one. */
  method UpdateSubCategory(store: SubCategoryStore, id: int, name: Option<string>, notes: Option<string>, categoryId: Option<int>)
    returns (r: Reply<SubCategoryEcho>)
    requires store.Valid()
    modifies store`subCategories
    ensures store.Valid()
    ensures CountSubId(old(store.subCategories), id) == 0 ==>
      && r == Failure(200, "UPDATE_SUB_CATEGORY_ERROR", "Error updating sub-category", "Unknown error")
      && store.subCategories == old(store.subCategories)
    ensures CountSubId(old(store.subCategories), id) > 0 && categoryId.None? ==>
      && r == Failure(500, "UPDATE_SUB_CATEGORY_ERROR", "Error while updating sub-category", CaughtError)
      && store.subCategories == old(store.subCategories)
    ensures CountSubId(old(store.subCategories), id) > 0 && categoryId.Some? ==>
      && store.subCategories == Replace(old(store.subCategories), id, name, notes, categoryId.value)
      && r == Success(200, "UPDATE_SUB_CATEGORY_SUCCESS", "Successfully updated sub-category",
                      SubCategoryEcho(id, name, categoryId.value, notes))
  {
    var rowCount := CountSubId(store.subCategories, id);
    if rowCount < 1 {
      return Failure(200, "UPDATE_SUB_CATEGORY_ERROR", "Error updating sub-category", "Unknown error");
    }
    if categoryId.None? {
      return Failure(500, "UPDATE_SUB_CATEGORY_ERROR", "Error while updating sub-category", CaughtError);
    }
    ReplaceKeepsOrder(store.subCategories, id, name, notes, categoryId.value, store.nextId);
    store.subCategories := Replace(store.subCategories, id, name, notes, categoryId.value);
    r := Success(200, "UPDATE_SUB_CATEGORY_SUCCESS", "Successfully updated sub-category",
                 SubCategoryEcho(id, name, categoryId.value, notes));
  }

  /** Moving a sub-category to another parent makes it show up under that parent. */
  lemma {:induction false} MovedShowsUnderNewParent(subs: seq<SubCategory>, i: nat, name: Option<string>, notes: Option<string>, categoryId: int)
    requires i < |subs|
    ensures Replace(subs, subs[i].id, name, notes, categoryId)[i]
            in OfCategory(Replace(subs, subs[i].id, name, notes, categoryId), categoryId)
  {
    var r := Replace(subs, subs[i].id, name, notes, categoryId);
    assert r[i] in r;
  }

  function DropSubId(subs: seq<SubCategory>, id: int): (r: seq<SubCategory>)
    ensures |r| <= |subs|
    ensures forall s :: s in r <==> s in subs && s.id != id
  {
    if subs == [] then []
    else (if subs[0].id == id then [] else [subs[0]]) + DropSubId(subs[1..], id)
  }

  lemma {:induction false} DropSubKeepsOrder(subs: seq<SubCategory>, id: int, bound: nat)
    requires SubIdsBelow(subs, bound) && SubIdsIncreasing(subs)
    ensures SubIdsBelow(DropSubId(subs, id), bound) && SubIdsIncreasing(DropSubId(subs, id))
  {
    if subs != [] {
      DropSubKeepsOrder(subs[1..], id, bound);
      var rest := DropSubId(subs[1..], id);
      if subs[0].id != id {
        var r := [subs[0]] + rest;
        assert DropSubId(subs, id) == r;
        forall i, j | 0 <= i < j < |r| ensures r[i].id < r[j].id {
          assert r[j] in subs[1..];
          if i > 0 { assert r[i] == rest[i - 1]; }
        }
      }
    }
  }

  /** DELETE /:id. */
  method DeleteSubCategory(store: SubCategoryStore, id: int) returns (r: Reply<int>)
    requires store.Valid()
    modifies store`subCategories
    ensures store.Valid()
    ensures store.subCategories == DropSubId(old(store.subCategories), id)
    ensures CountSubId(old(store.subCategories), id) == 0 ==>
      r == Failure(200, "DELETE_SUB_CATEGORY_ERROR", "Error deleting sub-category", "Unknown error")
    ensures CountSubId(old(store.subCategories), id) > 0 ==>
      r == Success(200, "DELETE_SUB_CATEGORY_SUCCESS", "Successfully deleted sub-category", id)
  {
    var rowCount := CountSubId(store.subCategories, id);
    DropSubKeepsOrder(store.subCategories, id, store.nextId);
    store.subCategories := DropSubId(store.subCategories, id);
    if rowCount < 1 {
      return Failure(200, "DELETE_SUB_CATEGORY_ERROR", "Error deleting sub-category", "Unknown error");
    }
    r := Success(200, "DELETE_SUB_CATEGORY_SUCCESS", "Successfully deleted sub-category", id);
  }
}
