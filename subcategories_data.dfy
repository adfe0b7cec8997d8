/** The settings page's sub-categories grid hook: the list request it sends when the page,
    page size or sort changes, the answer it keeps, and what it hands to the grid. */
module SubcategoriesData {
  import opened Common
  import opened Schema
  import opened GridQuery
  import SubCategoriesRoute

  const SuccessCode: string := "GET_SUB_CATEGORIES_SUCCESS"

  /** The grid's columns; the id and category id columns are hidden. */
  const Columns: seq<string> := ["id", "name", "category_name", "category_id", "notes"]
  const ColumnsVisibility: map<string, bool> := map["id" := false, "category_id" := false]

  class SubcategoriesData {
    /** `subcategoriesResults`: undefined until a successful answer arrives. */
    var results: Option<SubCategoriesRoute.SubCategoryPage>

    constructor ()
      ensures results == None
    {
      results := None;
    }

    /** The effect: sends `/subcategories?` with the page, the page size and the sort, and
        keeps the answer's details only when its code is the success code. */
    method Effect(page: int, pageSize: int, sortModel: seq<SortItem>, reply: Reply<SubCategoriesRoute.SubCategoryPage>)
      returns (url: string)
      modifies this
      ensures url == "/subcategories?" + Query(PagedPairs(page, pageSize, sortModel))
      ensures results == if reply.Success? && reply.code == SuccessCode then Some(reply.details) else old(results)
    {
      var parameters := BuildPagedParameters(page, pageSize, sortModel);
      url := "/subcategories?" + Join(parameters, "&");
      if reply.Success? && reply.code == SuccessCode {
        results := Some(reply.details);
      }
    }

    /** `subcategories`: the kept rows, or none before a successful answer. */
    function Subcategories(): (r: seq<SubCategoriesRoute.SubCategoryView>)
      reads this
      ensures results.None? ==> r == []
      ensures results.Some? ==> r == results.value.results
    {
      if results.Some? then results.value.results else []
    }

    /** `count`: the kept count, or 0 before a successful answer. */
    function Count(): (c: nat)
      reads this
      ensures results.None? ==> c == 0
      ensures results.Some? ==> c == results.value.count
    {
      if results.Some? && results.value.count != 0 then results.value.count else 0
    }
  }

  /** The grid shows the name, the category's name and the notes, in that order. */
  lemma {:induction false} ShownColumns()
    ensures Shown(Columns, ColumnsVisibility) == ["name", "category_name", "notes"]
  {
    var v := ColumnsVisibility;
    assert "notes" !in v && "name" !in v && "category_name" !in v;
    assert !v["id"] && !v["category_id"];
    assert Shown([], v) == [];
    assert Shown(["notes"], v) == ["notes"];
    assert Shown(["category_id", "notes"], v) == ["notes"];
    assert Shown(["category_name", "category_id", "notes"], v) == ["category_name", "notes"];
    assert Shown(["name", "category_name", "category_id", "notes"], v) == ["name", "category_name", "notes"];
  }
}
