/** The shared `useTransactions` hook: the list query it sends for a grid page, the merge
    of the loaded transactions with category and sub-category names, and what it returns. */
module TransactionsHook {
  import opened Common
  import opened Schema
  import opened GridQuery
  import opened TransactionsParse

  /** A truthy JavaScript number: present and not zero. */
  predicate TruthyNumber(n: Option<int>) { n.Some? && n.value != 0 }

  /** A truthy JavaScript string: present and not empty. */
  predicate TruthyText(s: Option<string>) { s.Some? && s.value != "" }

  /** The date-range parameters: both or neither. */
  function DatePairs(from: Option<string>, to: Option<string>): (r: seq<Pair>) {
    if TruthyText(from) && TruthyText(to) then [Pair("from", from.value), Pair("to", to.value)] else []
  }

  /** The pagination parameters, the page size sent as `limit`: both or neither. */
  function PagePairs(page: Option<int>, pageSize: Option<int>): (r: seq<Pair>) {
    if TruthyNumber(page) && TruthyNumber(pageSize)
    then [Pair("page", IntToString(page.value)), Pair("limit", IntToString(pageSize.value))] else []
  }

  /** The parameters of the list query, in the order date range, pagination, sort. */
  function ListPairs(page: Option<int>, pageSize: Option<int>, from: Option<string>, to: Option<string>,
                     sortModel: seq<SortItem>): (r: seq<Pair>)
  {
    DatePairs(from, to) + PagePairs(page, pageSize) + SortPairs(sortModel)
  }

  /** The query function's parameter building: pushes onto `parameters`, then joins them
      into the request URL. */
  method BuildListUrl(page: Option<int>, pageSize: Option<int>, from: Option<string>, to: Option<string>,
                      sortModel: seq<SortItem>) returns (parameters: seq<string>, url: string)
    ensures parameters == Rendered(ListPairs(page, pageSize, from, to, sortModel))
    ensures url == "/transactions?" + Join(parameters, "&")
  {
    parameters := [];
    ghost var pairs: seq<Pair> := [];
    if TruthyText(from) && TruthyText(to) {
      parameters, pairs := PushTwo([], [], Pair("from", from.value), Pair("to", to.value));
    }
    assert pairs == DatePairs(from, to);
    ghost var dates := pairs;
    if TruthyNumber(page) && TruthyNumber(pageSize) {
      parameters, pairs := PushTwo(parameters, pairs, Pair("page", IntToString(page.value)),
                                   Pair("limit", IntToString(pageSize.value)));
    }
    assert pairs == dates + PagePairs(page, pageSize);
    ghost var paging := pairs;
    if |sortModel| > 0 {
      parameters, pairs := PushTwo(parameters, pairs, Pair("sortColumn", sortModel[0].field),
                                   Pair("sortDirection", SortText(sortModel[0].sort)));
    }
    assert pairs == paging + SortPairs(sortModel) == ListPairs(page, pageSize, from, to, sortModel);
    url := "/transactions?" + Join(parameters, "&");
  }

  lemma DatesEncodable(from: Option<string>, to: Option<string>)
    requires from.Some? ==> '&' !in from.value
    requires to.Some? ==> '&' !in to.value
    ensures Encodable(DatePairs(from, to))
  {
    if TruthyText(from) && TruthyText(to) {
      EncodablePair(Pair("from", from.value), Pair("to", to.value));
    }
  }

  lemma PagingEncodable(page: Option<int>, pageSize: Option<int>)
    ensures Encodable(PagePairs(page, pageSize))
  {
    if TruthyNumber(page) && TruthyNumber(pageSize) {
      var p, l := IntToString(page.value), IntToString(pageSize.value);
      assert '&' !in p && '&' !in l;
      EncodablePair(Pair("page", p), Pair("limit", l));
    }
  }

  lemma SortEncodable(sortModel: seq<SortItem>)
    requires |sortModel| > 0 ==> '&' !in sortModel[0].field
    ensures Encodable(SortPairs(sortModel))
  {
    if |sortModel| > 0 {
      EncodablePair(Pair("sortColumn", sortModel[0].field), Pair("sortDirection", SortText(sortModel[0].sort)));
    }
  }

  lemma ListEncodable(page: Option<int>, pageSize: Option<int>, from: Option<string>, to: Option<string>,
                      sortModel: seq<SortItem>)
    requires from.Some? ==> '&' !in from.value
    requires to.Some? ==> '&' !in to.value
    requires |sortModel| > 0 ==> '&' !in sortModel[0].field
    ensures Encodable(ListPairs(page, pageSize, from, to, sortModel))
  {
    DatesEncodable(from, to);
    PagingEncodable(page, pageSize);
    SortEncodable(sortModel);
    EncodableAppend(DatePairs(from, to), PagePairs(page, pageSize));
    EncodableAppend(DatePairs(from, to) + PagePairs(page, pageSize), SortPairs(sortModel));
  }

  /** The server reads `key` from the list query as the value the first group that
      uses `key` gave it. */
  lemma ListKeyReadBack(page: Option<int>, pageSize: Option<int>, from: Option<string>, to: Option<string>,
                        sortModel: seq<SortItem>, key: string)
    requires from.Some? ==> '&' !in from.value
    requires to.Some? ==> '&' !in to.value
    requires |sortModel| > 0 ==> '&' !in sortModel[0].field
    ensures var m := ParseQuery(Query(ListPairs(page, pageSize, from, to, sortModel)));
      var dates, paging := Lookup(DatePairs(from, to), key), Lookup(PagePairs(page, pageSize), key);
      var found := if dates.Some? then dates else if paging.Some? then paging
                   else Lookup(SortPairs(sortModel), key);
      (key in m <==> found.Some?) && (key in m ==> m[key] == found.value)
  {
    var dates, paging, sorting := DatePairs(from, to), PagePairs(page, pageSize), SortPairs(sortModel);
    ListEncodable(page, pageSize, from, to, sortModel);
    ReadBack(ListPairs(page, pageSize, from, to, sortModel), key);
    LookupAppend(dates + paging, sorting, key);
    LookupAppend(dates, paging, key);
  }

  lemma DatesLookup(from: Option<string>, to: Option<string>, key: string)
    ensures Lookup(DatePairs(from, to), key)
         == if !(TruthyText(from) && TruthyText(to)) then None
            else if key == "from" then from else if key == "to" then to else None
  {
    if TruthyText(from) && TruthyText(to) {
      LookupTwo(Pair("from", from.value), Pair("to", to.value), key);
    }
  }

  lemma PagingLookup(page: Option<int>, pageSize: Option<int>, key: string)
    ensures Lookup(PagePairs(page, pageSize), key)
         == if !(TruthyNumber(page) && TruthyNumber(pageSize)) then None
            else if key == "page" then Some(IntToString(page.value))
            else if key == "limit" then Some(IntToString(pageSize.value)) else None
  {
    if TruthyNumber(page) && TruthyNumber(pageSize) {
      LookupTwo(Pair("page", IntToString(page.value)), Pair("limit", IntToString(pageSize.value)), key);
    }
  }

  lemma SortLookup(sortModel: seq<SortItem>, key: string)
    ensures Lookup(SortPairs(sortModel), key)
         == if |sortModel| == 0 then None
            else if key == "sortColumn" then Some(sortModel[0].field)
            else if key == "sortDirection" then Some(SortText(sortModel[0].sort)) else None
  {
    if |sortModel| > 0 {
      LookupTwo(Pair("sortColumn", sortModel[0].field), Pair("sortDirection", SortText(sortModel[0].sort)), key);
    }
  }

  /** The dates reach the server only when both are set, and then unchanged. */
  lemma ListQueryDates(page: Option<int>, pageSize: Option<int>, from: Option<string>, to: Option<string>,
                       sortModel: seq<SortItem>)
    requires from.Some? ==> '&' !in from.value
    requires to.Some? ==> '&' !in to.value
    requires |sortModel| > 0 ==> '&' !in sortModel[0].field
    ensures var m := ParseQuery(Query(ListPairs(page, pageSize, from, to, sortModel)));
      && ("from" in m <==> TruthyText(from) && TruthyText(to))
      && ("to" in m <==> TruthyText(from) && TruthyText(to))
      && ("from" in m ==> m["from"] == from.value && m["to"] == to.value)
  {
    ListKeyReadBack(page, pageSize, from, to, sortModel, "from");
    ListKeyReadBack(page, pageSize, from, to, sortModel, "to");
    DatesLookup(from, to, "from");
    DatesLookup(from, to, "to");
    PagingLookup(page, pageSize, "from");
    PagingLookup(page, pageSize, "to");
    SortLookup(sortModel, "from");
    SortLookup(sortModel, "to");
  }

  /** The page and the page size (as `limit`) reach the server only when both are
      non-zero; a positive page number reads back as itself. */
  lemma ListQueryPaging(page: Option<int>, pageSize: Option<int>, from: Option<string>, to: Option<string>,
                        sortModel: seq<SortItem>)
    requires from.Some? ==> '&' !in from.value
    requires to.Some? ==> '&' !in to.value
    requires |sortModel| > 0 ==> '&' !in sortModel[0].field
    ensures var m := ParseQuery(Query(ListPairs(page, pageSize, from, to, sortModel)));
      && ("page" in m <==> TruthyNumber(page) && TruthyNumber(pageSize))
      && ("limit" in m <==> TruthyNumber(page) && TruthyNumber(pageSize))
      && ("page" in m ==> m["page"] == IntToString(page.value) && m["limit"] == IntToString(pageSize.value))
      && ("page" in m && page.value > 0 ==> DigitsValue(m["page"]) == page.value)
  {
    ListKeyReadBack(page, pageSize, from, to, sortModel, "page");
    ListKeyReadBack(page, pageSize, from, to, sortModel, "limit");
    DatesLookup(from, to, "page");
    DatesLookup(from, to, "limit");
    PagingLookup(page, pageSize, "page");
    PagingLookup(page, pageSize, "limit");
    SortLookup(sortModel, "page");
    SortLookup(sortModel, "limit");
    if TruthyNumber(page) && TruthyNumber(pageSize) && page.value > 0 {
      NatToStringRoundTrip(page.value);
    }
  }

  /** Only the first sort entry reaches the server, and only when there is one. */
  lemma ListQuerySort(page: Option<int>, pageSize: Option<int>, from: Option<string>, to: Option<string>,
                      sortModel: seq<SortItem>)
    requires from.Some? ==> '&' !in from.value
    requires to.Some? ==> '&' !in to.value
    requires |sortModel| > 0 ==> '&' !in sortModel[0].field
    ensures var m := ParseQuery(Query(ListPairs(page, pageSize, from, to, sortModel)));
      && ("sortColumn" in m <==> |sortModel| > 0)
      && ("sortDirection" in m <==> |sortModel| > 0)
      && ("sortColumn" in m ==> m["sortColumn"] == sortModel[0].field)
      && ("sortDirection" in m ==> m["sortDirection"] == SortText(sortModel[0].sort))
  {
    ListKeyReadBack(page, pageSize, from, to, sortModel, "sortColumn");
    ListKeyReadBack(page, pageSize, from, to, sortModel, "sortDirection");
    DatesLookup(from, to, "sortColumn");
    DatesLookup(from, to, "sortDirection");
    PagingLookup(page, pageSize, "sortColumn");
    PagingLookup(page, pageSize, "sortDirection");
    SortLookup(sortModel, "sortColumn");
    SortLookup(sortModel, "sortDirection");
  }

  // ---------------------------------------------------------------------------
  // Merging names into the loaded transactions
  // ---------------------------------------------------------------------------

  /** A category or sub-category as the lookups see it. */
  datatype Named = Named(id: int, name: string)

  /** `items.find(item => item.id === id)?.name`; a null id matches nothing. */
  function FindName(items: seq<Named>, id: Option<int>): (r: Option<string>)
    ensures r.Some? <==> id.Some? && exists i :: 0 <= i < |items| && items[i].id == id.value
    ensures r.Some? ==> exists i :: 0 <= i < |items| && items[i].id == id.value && items[i].name == r.value
                                    && forall j :: 0 <= j < i ==> items[j].id != id.value
  {
    if items == [] || id.None? then None
    else if items[0].id == id.value then Some(items[0].name)
    else
      var r := FindName(items[1..], id);
      assert r.Some? ==> exists i :: 1 <= i < |items| && items[i].id == id.value && items[i].name == r.value
                                     && forall j :: 1 <= j < i ==> items[j].id != id.value;
      r
  }

  /** The loaded page: the parsed rows and the server's count. */
  datatype TransactionsData = TransactionsData(transactions: seq<ClientTransaction>, count: int)

  /** A merged row: the transaction with `category` replaced by a name and a new
      `subcategory` field holding the sub-category's name. */
  datatype MergedTransaction = MergedTransaction(
    amount: real, category: Option<string>, direction: Direction, id: int, notes: string,
    subCategory: Option<int>, subcategory: Option<string>, timestamp: int)

  /** The merge as written: the sub-category is looked up by `transaction.subcategory`, a
      field the parsed rows do not have, so the lookup key is always undefined. */
  function MergeOneAsWritten(t: ClientTransaction, cats: seq<Named>, subs: seq<Named>): (r: MergedTransaction) {
    MergedTransaction(t.amount, FindName(cats, t.category), t.direction, t.id, t.notes, t.subCategory,
                      FindName(subs, None), t.timestamp)
  }

  /** The merge as intended: the sub-category is looked up by the row's `subCategory`, as
      the transactions page's own merge does. */
  function MergeOne(t: ClientTransaction, cats: seq<Named>, subs: seq<Named>): (r: MergedTransaction) {
    MergedTransaction(t.amount, FindName(cats, t.category), t.direction, t.id, t.notes, t.subCategory,
                      FindName(subs, t.subCategory), t.timestamp)
  }

  /** The memoised merge as written: nothing until all three datasets are loaded, then one
      merged row per transaction, in order. */
  function Merge(data: Option<TransactionsData>, cats: Option<seq<Named>>, subs: Option<seq<Named>>)
    : (r: seq<MergedTransaction>)
    ensures data.None? || cats.None? || subs.None? ==> r == []
    ensures data.Some? && cats.Some? && subs.Some? ==>
      && |r| == |data.value.transactions|
      && forall i :: 0 <= i < |r| ==> r[i] == MergeOneAsWritten(data.value.transactions[i], cats.value, subs.value)
  {
    if data.Some? && cats.Some? && subs.Some? then MergeAll(data.value.transactions, cats.value, subs.value) else []
  }

  function MergeAll(ts: seq<ClientTransaction>, cats: seq<Named>, subs: seq<Named>): (r: seq<MergedTransaction>)
    ensures |r| == |ts|
    ensures forall i :: 0 <= i < |ts| ==> r[i] == MergeOneAsWritten(ts[i], cats, subs)
  {
    if ts == [] then [] else [MergeOneAsWritten(ts[0], cats, subs)] + MergeAll(ts[1..], cats, subs)
  }

  /** Every merged row keeps its transaction's own fields; it shows a category name exactly
      when a loaded category has the transaction's category id, and that category's name. */
  lemma {:induction false} MergedRowsKeepTheirTransaction(data: TransactionsData, cats: seq<Named>, subs: seq<Named>, i: int)
    requires 0 <= i < |data.transactions|
    ensures var r := Merge(Some(data), Some(cats), Some(subs))[i];
      var t := data.transactions[i];
      && r.id == t.id && r.amount == t.amount && r.direction == t.direction && r.notes == t.notes
      && r.timestamp == t.timestamp && r.subCategory == t.subCategory
      && (r.category.Some? <==> t.category.Some? && exists c :: c in cats && c.id == t.category.value)
      && (r.category.Some? ==> exists c :: c in cats && Some(c.id) == t.category && c.name == r.category.value)
      && r.subcategory.None?
  {
    var t := data.transactions[i];
    NamedIffLoaded(cats, t.category);
  }

  /** `FindName` in terms of membership: a name comes back exactly when some loaded item has
      the id, and it is the name of such an item. */
  lemma NamedIffLoaded(items: seq<Named>, id: Option<int>)
    ensures FindName(items, id).Some? <==> id.Some? && exists n :: n in items && n.id == id.value
    ensures FindName(items, id).Some? ==>
      exists n :: n in items && Some(n.id) == id && n.name == FindName(items, id).value
  {
    if id.Some? && (exists n :: n in items && n.id == id.value) {
      var n :| n in items && n.id == id.value;
      var k :| 0 <= k < |items| && items[k] == n;
    }
    var r := FindName(items, id);
    if r.Some? {
      var k :| 0 <= k < |items| && items[k].id == id.value && items[k].name == r.value
               && forall j :: 0 <= j < k ==> items[j].id != id.value;
      assert items[k] in items;
    }
  }

  /** The intended merge names both: a row shows a category (sub-category) name exactly when
      a loaded category (sub-category) has the transaction's id for it, and the name is that
      item's; everything else is the transaction's own. */
  lemma {:induction false} IntendedMergeNamesBoth(t: ClientTransaction, cats: seq<Named>, subs: seq<Named>)
    ensures var r := MergeOne(t, cats, subs);
      && r.id == t.id && r.amount == t.amount && r.direction == t.direction && r.notes == t.notes
      && r.timestamp == t.timestamp && r.subCategory == t.subCategory
      && (r.category.Some? <==> t.category.Some? && exists c :: c in cats && c.id == t.category.value)
      && (r.category.Some? ==> exists c :: c in cats && Some(c.id) == t.category && c.name == r.category.value)
      && (r.subcategory.Some? <==> t.subCategory.Some? && exists s :: s in subs && s.id == t.subCategory.value)
      && (r.subcategory.Some? ==> exists s :: s in subs && Some(s.id) == t.subCategory && s.name == r.subcategory.value)
  {
    NamedIffLoaded(cats, t.category);
    NamedIffLoaded(subs, t.subCategory);
  }

  /** As written, no merged row ever shows a sub-category name. */
  lemma AsWrittenLosesSubcategory(t: ClientTransaction, cats: seq<Named>, subs: seq<Named>)
    ensures MergeOneAsWritten(t, cats, subs).subcategory == None
  {
  }

  /** A row of sub-category 3 with a sub-category 3 named "Rent" loaded: the merge as
      written leaves the name out, the intended merge shows it. */
  lemma {:induction false} SubcategoryNameExample()
    ensures var t := ClientTransaction(1.0, None, In, 1, "", Some(3), 0);
      && MergeOneAsWritten(t, [], [Named(3, "Rent")]).subcategory == None
      && MergeOne(t, [], [Named(3, "Rent")]).subcategory == Some("Rent")
  {
  }

  /** What the hook returns; its rows are the merge as written. */
  datatype HookResult = HookResult(transactions: seq<MergedTransaction>, isFetching: bool, rowCount: int)

  /** The category and sub-category queries run only once a non-empty page of
      transactions is loaded. */
  function DependentQueriesEnabled(data: Option<TransactionsData>): (enabled: bool)
    ensures enabled <==> data.Some? && |data.value.transactions| > 0
  {
    (if data.Some? then |data.value.transactions| else 0) > 0
  }

  function UseTransactions(data: Option<TransactionsData>, cats: Option<seq<Named>>, subs: Option<seq<Named>>,
                           transactionsFetching: bool, categoriesFetching: bool, subcategoriesFetching: bool)
    : (r: HookResult)
    ensures r.transactions == Merge(data, cats, subs)
    ensures r.isFetching <==> transactionsFetching || categoriesFetching || subcategoriesFetching
    ensures r.rowCount == if data.Some? then data.value.count else 0
  {
    HookResult(Merge(data, cats, subs), transactionsFetching || categoriesFetching || subcategoriesFetching,
               if data.Some? then data.value.count else 0)
  }
}
