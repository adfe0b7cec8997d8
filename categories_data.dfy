/** The settings page's categories grid hook: the list request it sends when the page,
    page size or sort changes, the answer it keeps, and what it hands to the grid. */
module CategoriesData {
  import opened Common
  import opened Schema
  import opened GridQuery
  import CategoriesRoute

  const SuccessCode: string := "GET_CATEGORIES_SUCCESS"

  /** The grid's columns; only the id column is hidden. */
  const Columns: seq<string> := ["id", "name", "notes"]
  const ColumnsVisibility: map<string, bool> := map["id" := false]

  class CategoriesData {
    /** `categoriesResults`: undefined until a successful answer arrives. */
    var results: Option<CategoriesRoute.CategoryPage>

    constructor ()
      ensures results == None
    {
      results := None;
    }

    /** The effect: sends `/categories?` with the page, the page size and the sort, and
        keeps the answer's details only when its code is the success code. */
    method Effect(page: int, pageSize: int, sortModel: seq<SortItem>, reply: Reply<CategoriesRoute.CategoryPage>)
      returns (url: string)
      modifies this
      ensures url == "/categories?" + Query(PagedPairs(page, pageSize, sortModel))
      ensures results == if reply.Success? && reply.code == SuccessCode then Some(reply.details) else old(results)
    {
      var parameters := BuildPagedParameters(page, pageSize, sortModel);
      url := "/categories?" + Join(parameters, "&");
      if reply.Success? && reply.code == SuccessCode {
        results := Some(reply.details);
      }
    }

    /** `categories`: the kept rows, or none before a successful answer. */
    function Categories(): (r: seq<Category>)
      reads this
      ensures results.None? ==> r == []
      ensures results.Some? ==> r == results.value.results
    {
      if results.Some? then results.value.results else []
    }

    /** `count`: the kept count, or 0 before a successful answer. */
    function Count(): (c: nat)
      reads this
      ensures results.None? ==> c == 0
      ensures results.Some? ==> c == results.value.count
    {
      if results.Some? && results.value.count != 0 then results.value.count else 0
    }
  }

  /** The grid shows every column but the id, in the declared order. */
  lemma ShownColumns()
    ensures Shown(Columns, ColumnsVisibility) == ["name", "notes"]
  {
    assert Shown(Columns[2..], ColumnsVisibility) == ["notes"];
  }
}
