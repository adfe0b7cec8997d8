/** The transactions page's `useTransactions` hook: the grid's columns and their
    visibility, and the table rows it builds from the three loaded datasets. */
module TransactionsPageHook {
  import opened Common
  import opened Schema
  import opened GridQuery
  import opened TransactionsParse
  import TransactionsHook

  /** The column fields, in display order. */
  const Columns: seq<string> := ["id", "amount", "direction", "category", "subCategory", "timestamp", "notes"]

  /** Only the id column is hidden. */
  const ColumnsVisibility: map<string, bool> := map["id" := false]

  /** The grid shows every column but the id, in the declared order. */
  lemma {:induction false} ShownColumns()
    ensures Shown(Columns, ColumnsVisibility) == ["amount", "direction", "category", "subCategory", "timestamp", "notes"]
  {
    var tail := ["amount", "direction", "category", "subCategory", "timestamp", "notes"];
    assert Columns[1..] == tail;
    ShownAllVisible(tail, ColumnsVisibility);
  }

  lemma {:induction false} ShownAllVisible(fields: seq<string>, visibility: map<string, bool>)
    requires forall f :: f in fields ==> f !in visibility
    ensures Shown(fields, visibility) == fields
  {
    if fields != [] {
      ShownAllVisible(fields[1..], visibility);
      assert [fields[0]] + fields[1..] == fields;
    }
  }

  /** A table row (`TransactionTableType`): the transaction with its category and
      sub-category ids replaced by their names. */
  datatype TableRow = TableRow(
    amount: real, category: Option<string>, direction: Direction, id: int, notes: string,
    subCategory: Option<string>, timestamp: int)

  function MergeOne(t: ClientTransaction, cats: seq<TransactionsHook.Named>, subs: seq<TransactionsHook.Named>)
    : (r: TableRow)
  {
    TableRow(t.amount, TransactionsHook.FindName(cats, t.category), t.direction, t.id, t.notes,
             TransactionsHook.FindName(subs, t.subCategory), t.timestamp)
  }

  function MergeAll(ts: seq<ClientTransaction>, cats: seq<TransactionsHook.Named>, subs: seq<TransactionsHook.Named>)
    : (r: seq<TableRow>)
    ensures |r| == |ts|
    ensures forall i :: 0 <= i < |ts| ==> r[i] == MergeOne(ts[i], cats, subs)
  {
    if ts == [] then [] else [MergeOne(ts[0], cats, subs)] + MergeAll(ts[1..], cats, subs)
  }

  /** The memoised merge: no rows until all three datasets are loaded, then one row per
      transaction, in order. */
  function Merge(data: Option<seq<ClientTransaction>>, cats: Option<seq<TransactionsHook.Named>>,
                 subs: Option<seq<TransactionsHook.Named>>): (r: seq<TableRow>)
    ensures data.None? || cats.None? || subs.None? ==> r == []
    ensures data.Some? && cats.Some? && subs.Some? ==>
      && |r| == |data.value|
      && forall i :: 0 <= i < |r| ==> r[i] == MergeOne(data.value[i], cats.value, subs.value)
  {
    if data.Some? && cats.Some? && subs.Some? then MergeAll(data.value, cats.value, subs.value) else []
  }

  /** From API row to table row: the row at position `i` of the table shows the converted
      amount and date of the API row at position `i`, its other fields unchanged, and the
      names of the category and sub-category whose ids that API row holds. */
  lemma ParseThenMerge(results: seq<ApiTransaction>, toNumber: string -> real, toDate: string -> int,
                       cats: seq<TransactionsHook.Named>, subs: seq<TransactionsHook.Named>, i: int)
    requires 0 <= i < |results|
    ensures var rows := Merge(Some(ParseTransactionsApiResults(results, toNumber, toDate)), Some(cats), Some(subs));
      var a := results[i];
      && |rows| == |results|
      && rows[i].amount == toNumber(a.amount) && rows[i].timestamp == toDate(a.timestamp)
      && rows[i].id == a.id && rows[i].direction == a.direction && rows[i].notes == a.notes
      && (rows[i].category.Some? <==> a.category.Some? && exists c :: c in cats && c.id == a.category.value)
      && (rows[i].category.Some? ==>
            exists c :: c in cats && c.id == a.category.value && c.name == rows[i].category.value)
      && (rows[i].subCategory.Some? <==> a.sub_category.Some? && exists s :: s in subs && s.id == a.sub_category.value)
      && (rows[i].subCategory.Some? ==>
            exists s :: s in subs && s.id == a.sub_category.value && s.name == rows[i].subCategory.value)
  {
    var parsed := ParseTransactionsApiResults(results, toNumber, toDate);
    var rows := Merge(Some(parsed), Some(cats), Some(subs));
    var a := results[i];
    assert parsed[i] == ParseOne(a, toNumber, toDate);
    assert rows[i] == MergeOne(parsed[i], cats, subs);
    var cat := rows[i].category;
    if a.category.Some? && exists c :: c in cats && c.id == a.category.value {
      var c :| c in cats && c.id == a.category.value;
      var k :| 0 <= k < |cats| && cats[k] == c;
    }
    if cat.Some? {
      var k :| 0 <= k < |cats| && cats[k].id == a.category.value && cats[k].name == cat.value
               && forall j :: 0 <= j < k ==> cats[j].id != a.category.value;
      assert cats[k] in cats;
    }
    var sub := rows[i].subCategory;
    if a.sub_category.Some? && exists s :: s in subs && s.id == a.sub_category.value {
      var s :| s in subs && s.id == a.sub_category.value;
      var k :| 0 <= k < |subs| && subs[k] == s;
    }
    if sub.Some? {
      var k :| 0 <= k < |subs| && subs[k].id == a.sub_category.value && subs[k].name == sub.value
               && forall j :: 0 <= j < k ==> subs[j].id != a.sub_category.value;
      assert subs[k] in subs;
    }
  }

  datatype PageHookResult = PageHookResult(
    columns: seq<string>, columnsVisibility: map<string, bool>, transactions: seq<TableRow>, isFetching: bool)

  /** What the hook returns: the fixed columns, the merged rows, and whether any of the
      three queries is still fetching. */
  function UseTransactions(data: Option<seq<ClientTransaction>>, cats: Option<seq<TransactionsHook.Named>>,
                           subs: Option<seq<TransactionsHook.Named>>,
                           transactionsFetching: bool, categoriesFetching: bool, subcategoriesFetching: bool)
    : (r: PageHookResult)
    ensures r.columns == Columns && r.columnsVisibility == ColumnsVisibility
    ensures r.transactions == Merge(data, cats, subs)
    ensures r.isFetching <==> transactionsFetching || categoriesFetching || subcategoriesFetching
  {
    PageHookResult(Columns, ColumnsVisibility, Merge(data, cats, subs),
                   transactionsFetching || categoriesFetching || subcategoriesFetching)
  }
}
