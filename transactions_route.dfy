/** The transactions router. Every handler first turns the session username into a user
    id and then works only on that user's rows; a session that names no user is answered
    with an error and touches nothing. */
module TransactionsRoute {
  import opened Common
  import opened Sql
  import opened Schema
  import opened UserTable

  /** The transactions table. Ids come from a serial column. */
  class TransactionStore {
    var transactions: seq<Transaction>
    var nextId: nat

    ghost predicate Valid()
      reads this
    {
      IdsBelow(transactions, nextId) && IdsIncreasing(transactions)
    }

    constructor ()
      ensures Valid() && transactions == [] && nextId == 1
    {
      transactions, nextId := [], 1;
    }
  }

  predicate IdsBelow(txs: seq<Transaction>, bound: nat) {
    forall i :: 0 <= i < |txs| ==> txs[i].id < bound
  }

  predicate IdsIncreasing(txs: seq<Transaction>) {
    forall i, j :: 0 <= i < j < |txs| ==> txs[i].id < txs[j].id
  }

  lemma IdsIncreasingCons(t: Transaction, rest: seq<Transaction>)
    requires IdsIncreasing(rest) && forall k :: 0 <= k < |rest| ==> t.id < rest[k].id
    ensures IdsIncreasing([t] + rest)
  {
    var r := [t] + rest;
    forall i, j | 0 <= i < j < |r| ensures r[i].id < r[j].id {
      assert r[j] == rest[j - 1];
      if i > 0 { assert r[i] == rest[i - 1]; }
    }
  }

  // ---------------------------------------------------------------------------
  // Row selection
  // ---------------------------------------------------------------------------

  /** `WHERE transactions.user_id = uid`, in table order. */
  function Owned(txs: seq<Transaction>, uid: nat): (r: seq<Transaction>)
    ensures |r| <= |txs|
    ensures forall t :: t in r <==> t in txs && t.userId == uid
  {
    if txs == [] then []
    else (if txs[0].userId == uid then [txs[0]] else []) + Owned(txs[1..], uid)
  }

  /** `AND transactions.timestamp BETWEEN from AND to`, added only when both bounds are given. */
  function InDateRange(txs: seq<Transaction>, from: Option<int>, to: Option<int>): (r: seq<Transaction>)
    ensures |r| <= |txs|
    ensures forall t :: t in r <==>
      t in txs && (from.Some? && to.Some? ==> from.value <= t.timestamp <= to.value)
  {
    if txs == [] then []
    else
      var keep := from.Some? && to.Some? ==> from.value <= txs[0].timestamp <= to.value;
      (if keep then [txs[0]] else []) + InDateRange(txs[1..], from, to)
  }

  /** The one row `WHERE user_id = uid AND id = id`, if any (ids are unique). */
  function FindOwned(txs: seq<Transaction>, uid: nat, id: int): (r: Option<Transaction>)
    ensures r.Some? ==> r.value in txs && r.value.userId == uid && r.value.id == id
    ensures r.None? ==> forall t :: t in txs ==> !(t.userId == uid && t.id == id)
  {
    if txs == [] then None
    else if txs[0].userId == uid && txs[0].id == id then Some(txs[0])
    else FindOwned(txs[1..], uid, id)
  }

  // ---------------------------------------------------------------------------
  // The joined rows of the list query
  // ---------------------------------------------------------------------------

  /** One row of the list query: the transaction with the names of its category and
      sub-category. `LEFT JOIN` keeps a transaction whose category is null or unknown,
      with null name and id. */
  datatype TransactionView = TransactionView(
    id: nat,
    amount: int,
    direction: Direction,
    category: Option<string>,
    categoryId: Option<nat>,
    subCategory: Option<string>,
    subCategoryId: Option<nat>,
    notes: Option<string>,
    timestamp: int)

  function FindCategory(cats: seq<Category>, id: Option<nat>): (r: Option<Category>)
    ensures r.Some? ==> r.value in cats && id == Some(r.value.id)
    ensures r.None? && id.Some? ==> forall c :: c in cats ==> c.id != id.value
  {
    if id.None? || cats == [] then None
    else if cats[0].id == id.value then Some(cats[0])
    else FindCategory(cats[1..], id)
  }

  function FindSubCategory(subs: seq<SubCategory>, id: Option<nat>): (r: Option<SubCategory>)
    ensures r.Some? ==> r.value in subs && id == Some(r.value.id)
    ensures r.None? && id.Some? ==> forall s :: s in subs ==> s.id != id.value
  {
    if id.None? || subs == [] then None
    else if subs[0].id == id.value then Some(subs[0])
    else FindSubCategory(subs[1..], id)
  }

  /** The two `LEFT JOIN`s for one transaction. */
  function ViewOf(t: Transaction, cats: seq<Category>, subs: seq<SubCategory>): (r: TransactionView) {
    var c := FindCategory(cats, t.category);
    var s := FindSubCategory(subs, t.subCategory);
    TransactionView(
      t.id, t.amount, t.direction,
      if c.Some? then c.value.name else None,
      if c.Some? then Some(c.value.id) else None,
      if s.Some? then s.value.name else None,
      if s.Some? then Some(s.value.id) else None,
      t.notes, t.timestamp)
  }

  function Views(txs: seq<Transaction>, cats: seq<Category>, subs: seq<SubCategory>): (r: seq<TransactionView>)
    ensures |r| == |txs|
    ensures forall i :: 0 <= i < |txs| ==> r[i] == ViewOf(txs[i], cats, subs)
  {
    if txs == [] then [] else [ViewOf(txs[0], cats, subs)] + Views(txs[1..], cats, subs)
  }

  // ---------------------------------------------------------------------------
  // GET /
  // ---------------------------------------------------------------------------

  /** The query string of the list endpoint. A numeric parameter is `Some` when it is
      present (a non-empty string is truthy, even "0"); `sortColumn` and `sortDirection`
      default to "id" and "asc" when absent. */
  datatype ListQuery = ListQuery(
    page: Option<int>,
    limit: Option<int>,
    sortColumn: Option<string>,
    sortDirection: Option<string>,
    from: Option<int>,
    to: Option<int>)

  datatype TransactionPage = TransactionPage(results: seq<TransactionView>, count: nat)

  /** The `ORDER BY` text of the list query, with "id" and "asc" for missing parameters. */
  function OrderByClause(q: ListQuery): (clause: string)
    ensures q.sortColumn.None? && q.sortDirection.None? ==> clause == "\"id\" ASC"
  {
    OrderBy(if q.sortColumn.Some? then q.sortColumn.value else "id",
            if q.sortDirection.Some? then q.sortDirection.value else "asc")
  }

  /** Both pagination parameters present: only then are `LIMIT` and `OFFSET` added. */
  predicate Paginated(q: ListQuery) {
    q.limit.Some? && q.page.Some?
  }

  const ListError: string := "GET_TRANSACTIONS_ERROR"
  const ListFailed: string := "Error retrieving transactions"

  /** Page or limit below 1, checked only when both are given. */
  predicate BadPaging(q: ListQuery) {
    Paginated(q) && (q.page.value < 1 || q.limit.value < 1)
  }

  /** A limit above 100, checked only when both are given. */
  predicate OverLimit(q: ListQuery) {
    Paginated(q) && q.limit.value > 100
  }

  /** Both dates given, the first after the second. */
  predicate BackwardDates(q: ListQuery) {
    q.from.Some? && q.to.Some? && q.from.value > q.to.value
  }

  /** The handler's reply to a negative offset, which the checks before it already exclude. */
  function OffsetRefused(): (r: Reply<TransactionPage>) {
    Failure(200, ListError, ListFailed, "Invalid offset value")
  }

  /** How many rows the query selects before `LIMIT` and `OFFSET`. */
  function Matching(txs: seq<Transaction>, uid: nat, q: ListQuery): (r: nat) {
    |InDateRange(Owned(txs, uid), q.from, q.to)|
  }

  /** The user's rows in the requested window, joined, in the order the database's reading
      of the `ORDER BY` clause gives them, before `LIMIT`/`OFFSET`. */
  function Ordered(txs: seq<Transaction>, cats: seq<Category>, subs: seq<SubCategory>, uid: nat,
                   q: ListQuery, le: (TransactionView, TransactionView) -> bool): (r: seq<TransactionView>)
  {
    SortBy(Views(InDateRange(Owned(txs, uid), q.from, q.to), cats, subs), le)
  }

  /** `LIMIT limit OFFSET (page - 1) * limit` when both are given (and already checked to be
      at least 1), the whole list otherwise. */
  function Window(rows: seq<TransactionView>, q: ListQuery): (r: seq<TransactionView>)
    ensures forall v :: v in r ==> v in rows
    ensures !Paginated(q) ==> r == rows
  {
    if Paginated(q) && q.page.value >= 1 && q.limit.value >= 1 then
      LimitOffset(rows, q.limit.value, (q.page.value - 1) * q.limit.value)
    else rows
  }

  /** GET /. `order` is how the database reads the `ORDER BY` text: an ordering of the
      joined rows, or `None` when the column or direction is not valid SQL there. */
  function ListTransactions(
    txs: seq<Transaction>, cats: seq<Category>, subs: seq<SubCategory>,
    users: seq<User>, session: Option<string>, q: ListQuery,
    order: string -> Option<(TransactionView, TransactionView) -> bool>): (r: Reply<TransactionPage>)
    ensures r.Success? ==> r.details.results != []
    ensures r.Success? ==>
      SessionUserId(users, session).Some? && r.details.count == |Owned(txs, SessionUserId(users, session).value)|
  {
    var uid := SessionUserId(users, session);
    if uid.None? then
      Failure(200, ListError, ListFailed, "Error retrieving user information")
    else if BadPaging(q) then
      Failure(200, ListError, ListFailed, "Invalid pagination parameters")
    else if OverLimit(q) then
      Failure(200, ListError, ListFailed, "Limit exceeds maximum value of 100")
    else if Paginated(q) && (q.page.value - 1) * q.limit.value < 0 then
      OffsetRefused()
    else if BackwardDates(q) then
      Failure(200, ListError, ListFailed, "Invalid date range")
    else if order(OrderByClause(q)).None? then
      Failure(500, ListError, ListFailed, CaughtError)
    else
      var results := Window(Ordered(txs, cats, subs, uid.value, q, order(OrderByClause(q)).value), q);
      if |results| < 1 then
        Failure(200, ListError, "No transactions found", "No results retrieving transactions")
      else
        Success(200, "GET_TRANSACTIONS_SUCCESS", "Successfully retrieved transactions",
                TransactionPage(results, |Owned(txs, uid.value)|))
  }

  /** The query without its pagination parameters. */
  function Unpaginated(q: ListQuery): (r: ListQuery) {
    q.(page := None, limit := None)
  }

  /** A page is the matching slice of the unpaginated answer: same rows, same order, same
      count. Together with `Sql.PagesArePrefix`, walking pages 1, 2, ... visits every row
      of the unpaginated answer once, in order. */
  lemma PageIsSliceOfWhole(
    txs: seq<Transaction>, cats: seq<Category>, subs: seq<SubCategory>,
    users: seq<User>, session: Option<string>, q: ListQuery,
    order: string -> Option<(TransactionView, TransactionView) -> bool>)
    requires Paginated(q)
    requires ListTransactions(txs, cats, subs, users, session, q, order).Success?
    ensures var whole := ListTransactions(txs, cats, subs, users, session, Unpaginated(q), order);
      var part := ListTransactions(txs, cats, subs, users, session, q, order);
      && whole.Success?
      && part.details.results
           == LimitOffset(whole.details.results, q.limit.value, (q.page.value - 1) * q.limit.value)
      && part.details.count == whole.details.count
  {
    var u := Unpaginated(q);
    var uid := SessionUserId(users, session).value;
    var le := order(OrderByClause(q)).value;
    assert OrderByClause(u) == OrderByClause(q);
    SuccessfulResults(txs, cats, subs, users, session, q, order);
    var rows := Ordered(txs, cats, subs, uid, q, le);
    assert Ordered(txs, cats, subs, uid, u, le) == rows;
    var part := ListTransactions(txs, cats, subs, users, session, q, order).details.results;
    assert part[0] in rows;
    assert Matching(txs, uid, u) == |rows| > 0;
    EmptyAnswerExactly(txs, cats, subs, users, session, u, order);
    SuccessfulResults(txs, cats, subs, users, session, u, order);
  }

  /** The handler's refusals, each under the condition it is checked on, in the order the
      checks run: no user, page or limit below 1, a limit above 100, dates the wrong way
      round, and an `ORDER BY` text the database cannot read. */
  lemma ListRefusals(
    txs: seq<Transaction>, cats: seq<Category>, subs: seq<SubCategory>,
    users: seq<User>, session: Option<string>, q: ListQuery,
    order: string -> Option<(TransactionView, TransactionView) -> bool>)
    ensures SessionUserId(users, session).None? ==>
      ListTransactions(txs, cats, subs, users, session, q, order) == Failure(200, ListError, ListFailed, "Error retrieving user information")
    ensures SessionUserId(users, session).Some? && BadPaging(q) ==>
      ListTransactions(txs, cats, subs, users, session, q, order) == Failure(200, ListError, ListFailed, "Invalid pagination parameters")
    ensures SessionUserId(users, session).Some? && !BadPaging(q) && OverLimit(q) ==>
      ListTransactions(txs, cats, subs, users, session, q, order) == Failure(200, ListError, ListFailed, "Limit exceeds maximum value of 100")
    ensures SessionUserId(users, session).Some? && !BadPaging(q) && !OverLimit(q) && BackwardDates(q) ==>
      ListTransactions(txs, cats, subs, users, session, q, order) == Failure(200, ListError, ListFailed, "Invalid date range")
    ensures SessionUserId(users, session).Some? && !BadPaging(q) && !OverLimit(q) && !BackwardDates(q) && order(OrderByClause(q)).None? ==>
      ListTransactions(txs, cats, subs, users, session, q, order) == Failure(500, ListError, ListFailed, CaughtError)
  {
  }

  /** `le` ties two rows only when they have the same id, as `"id" ASC` and `"id" DESC` do
      (and any ordering that breaks its ties by id). */
  ghost predicate TiesOnlyOnSameId(le: (TransactionView, TransactionView) -> bool) {
    forall x, y :: le(x, y) && le(y, x) ==> x.id == y.id
  }

  /** The orderings of `"id" ASC` and `"id" DESC` are total preorders that tie only rows with
      the same id. */
  lemma IdOrdersTieOnlyOnSameId()
    ensures var asc := (x: TransactionView, y: TransactionView) => x.id <= y.id;
      TotalPreorder(asc) && TiesOnlyOnSameId(asc)
    ensures var desc := (x: TransactionView, y: TransactionView) => x.id >= y.id;
      TotalPreorder(desc) && TiesOnlyOnSameId(desc)
  {
  }

  /** In a table whose ids increase, as every table the handlers build does, an ordering
      that ties only rows with the same id ties no two different rows of a user's list. */
  lemma UniqueIdsLeaveNoTies(
    txs: seq<Transaction>, cats: seq<Category>, subs: seq<SubCategory>, uid: nat,
    from: Option<int>, to: Option<int>, le: (TransactionView, TransactionView) -> bool)
    requires IdsIncreasing(txs) && TiesOnlyOnSameId(le)
    ensures NoTiesOn(Views(InDateRange(Owned(txs, uid), from, to), cats, subs), le)
  {
    var window := InDateRange(Owned(txs, uid), from, to);
    var views := Views(window, cats, subs);
    forall x, y | x in views && y in views && le(x, y) && le(y, x) ensures x == y {
      var tx := ViewSource(window, cats, subs, x);
      var ty := ViewSource(window, cats, subs, y);
      var i :| 0 <= i < |txs| && txs[i] == tx;
      var j :| 0 <= j < |txs| && txs[j] == ty;
      assert txs[i].id == txs[j].id;
    }
  }

  /** With an ordering that ties only rows with the same id, a page is the matching slice of
      ANY sorted arrangement of the whole answer, so it does not rest on the two queries
      breaking ties the same way. */
  lemma PageOfAnyDatabaseOrder(
    txs: seq<Transaction>, cats: seq<Category>, subs: seq<SubCategory>,
    users: seq<User>, session: Option<string>, q: ListQuery,
    order: string -> Option<(TransactionView, TransactionView) -> bool>, whole: seq<TransactionView>)
    requires IdsIncreasing(txs)
    requires Paginated(q)
    requires ListTransactions(txs, cats, subs, users, session, q, order).Success?
    requires TotalPreorder(order(OrderByClause(q)).value) && TiesOnlyOnSameId(order(OrderByClause(q)).value)
    requires SortedBy(whole, order(OrderByClause(q)).value)
    requires multiset(whole) == multiset(Views(InDateRange(Owned(txs, SessionUserId(users, session).value), q.from, q.to), cats, subs))
    ensures ListTransactions(txs, cats, subs, users, session, q, order).details.results
         == LimitOffset(whole, q.limit.value, (q.page.value - 1) * q.limit.value)
  {
    var le := order(OrderByClause(q)).value;
    var uid := SessionUserId(users, session).value;
    var views := Views(InDateRange(Owned(txs, uid), q.from, q.to), cats, subs);
    SuccessfulResults(txs, cats, subs, users, session, q, order);
    UniqueIdsLeaveNoTies(txs, cats, subs, uid, q.from, q.to, le);
    WindowOfAnyOrder(views, whole, le, q);
  }

  /** The page of the modelled order is the same page of any other sorted arrangement. */
  lemma WindowOfAnyOrder(rows: seq<TransactionView>, whole: seq<TransactionView>,
                         le: (TransactionView, TransactionView) -> bool, q: ListQuery)
    requires Paginated(q) && q.page.value >= 1 && q.limit.value >= 1
    requires TotalPreorder(le) && NoTiesOn(rows, le)
    requires SortedBy(whole, le) && multiset(whole) == multiset(rows)
    ensures Window(SortBy(rows, le), q) == LimitOffset(whole, q.limit.value, (q.page.value - 1) * q.limit.value)
  {
    MulNonNegative(q.page.value - 1, q.limit.value);
    WindowOfAnySorted(rows, whole, le, q.limit.value, (q.page.value - 1) * q.limit.value);
  }

  /** A success passed every check and is the window of the user's ordered rows. */
  lemma SuccessfulResults(
    txs: seq<Transaction>, cats: seq<Category>, subs: seq<SubCategory>,
    users: seq<User>, session: Option<string>, q: ListQuery,
    order: string -> Option<(TransactionView, TransactionView) -> bool>)
    requires ListTransactions(txs, cats, subs, users, session, q, order).Success?
    ensures Paginated(q) ==> q.page.value >= 1 && q.limit.value >= 1
    ensures !BadPaging(q) && !OverLimit(q) && !BackwardDates(q)
    ensures SessionUserId(users, session).Some? && order(OrderByClause(q)).Some?
    ensures ListTransactions(txs, cats, subs, users, session, q, order).details.results
         == Window(Ordered(txs, cats, subs, SessionUserId(users, session).value, q, order(OrderByClause(q)).value), q)
  {
    ListRefusals(txs, cats, subs, users, session, q, order);
  }

  /** Once the query passes its checks, the answer is "No transactions found" exactly when
      the window starts at or after the last matching row (with no pagination: when no row
      matches), and a success otherwise. */
  lemma EmptyAnswerExactly(
    txs: seq<Transaction>, cats: seq<Category>, subs: seq<SubCategory>,
    users: seq<User>, session: Option<string>, q: ListQuery,
    order: string -> Option<(TransactionView, TransactionView) -> bool>)
    requires SessionUserId(users, session).Some?
    requires !BadPaging(q) && !OverLimit(q) && !BackwardDates(q) && order(OrderByClause(q)).Some?
    ensures var r := ListTransactions(txs, cats, subs, users, session, q, order);
      var n := Matching(txs, SessionUserId(users, session).value, q);
      var empty := if Paginated(q) then (q.page.value - 1) * q.limit.value >= n else n == 0;
      && (empty ==> r == Failure(200, ListError, "No transactions found", "No results retrieving transactions"))
      && (!empty ==> r.Success?)
  {
    var uid := SessionUserId(users, session).value;
    var rows := Ordered(txs, cats, subs, uid, q, order(OrderByClause(q)).value);
    var page := Window(rows, q);
    assert |rows| == Matching(txs, uid, q);
    assert !(Paginated(q) && (q.page.value - 1) * q.limit.value < 0) by {
      if Paginated(q) { MulNonNegative(q.page.value - 1, q.limit.value); }
    }
    assert ListTransactions(txs, cats, subs, users, session, q, order) ==
      if |page| < 1 then Failure(200, ListError, "No transactions found", "No results retrieving transactions")
      else Success(200, "GET_TRANSACTIONS_SUCCESS", "Successfully retrieved transactions",
                   TransactionPage(page, |Owned(txs, uid)|));
    if Paginated(q) {
      MulNonNegative(q.page.value - 1, q.limit.value);
      assert page == LimitOffset(rows, q.limit.value, (q.page.value - 1) * q.limit.value);
    }
  }

  /** A paginated answer never holds more than `limit` rows, and never more than 100. */
  lemma PageWithinLimit(
    txs: seq<Transaction>, cats: seq<Category>, subs: seq<SubCategory>,
    users: seq<User>, session: Option<string>, q: ListQuery,
    order: string -> Option<(TransactionView, TransactionView) -> bool>)
    requires Paginated(q)
    requires ListTransactions(txs, cats, subs, users, session, q, order).Success?
    ensures var r := ListTransactions(txs, cats, subs, users, session, q, order);
      |r.details.results| <= q.limit.value <= 100
  {
  }

  /** The offset check can never fire: once page and limit are at least 1, the offset
      `(page - 1) * limit` is not negative. */
  lemma {:induction false} OffsetCheckUnreachable(
    txs: seq<Transaction>, cats: seq<Category>, subs: seq<SubCategory>,
    users: seq<User>, session: Option<string>, q: ListQuery,
    order: string -> Option<(TransactionView, TransactionView) -> bool>)
    ensures ListTransactions(txs, cats, subs, users, session, q, order) != Failure(200, ListError, ListFailed, "Invalid offset value")
  {
    if Paginated(q) && q.page.value >= 1 && q.limit.value >= 1 {
      MulNonNegative(q.page.value - 1, q.limit.value);
    }
  }

  lemma MulNonNegative(a: int, b: int)
    requires a >= 0 && b >= 0
    ensures a * b >= 0
  {
  }

  /** Every returned row is one of the session user's transactions, inside the date window
      when both bounds are given, with its category and sub-category joined in. */
  lemma ResultsAreOwnedAndInRange(
    txs: seq<Transaction>, cats: seq<Category>, subs: seq<SubCategory>,
    users: seq<User>, session: Option<string>, q: ListQuery,
    order: string -> Option<(TransactionView, TransactionView) -> bool>,
    v: TransactionView)
    requires ListTransactions(txs, cats, subs, users, session, q, order).Success?
    requires v in ListTransactions(txs, cats, subs, users, session, q, order).details.results
    ensures exists t ::
      && t in txs && ViewOf(t, cats, subs) == v
      && t.userId == SessionUserId(users, session).value
      && (q.from.Some? && q.to.Some? ==> q.from.value <= t.timestamp <= q.to.value)
  {
    var uid := SessionUserId(users, session).value;
    var window := InDateRange(Owned(txs, uid), q.from, q.to);
    var rows := Ordered(txs, cats, subs, uid, q, order(OrderByClause(q)).value);
    SuccessfulResults(txs, cats, subs, users, session, q, order);
    assert v in rows;
    assert v in multiset(Views(window, cats, subs));
    var t := ViewSource(window, cats, subs, v);
  }

  /** The transaction a joined row was made from. */
  lemma ViewSource(window: seq<Transaction>, cats: seq<Category>, subs: seq<SubCategory>, v: TransactionView)
    returns (t: Transaction)
    requires v in Views(window, cats, subs)
    ensures t in window && ViewOf(t, cats, subs) == v
  {
    var views := Views(window, cats, subs);
    var i :| 0 <= i < |views| && views[i] == v;
    t := window[i];
  }

  /** Without pagination the answer is, in some order, every one of the user's transactions
      inside the date window, joined; `count` still counts all of the user's transactions. */
  lemma UnpaginatedAnswerIsWholeWindow(
    txs: seq<Transaction>, cats: seq<Category>, subs: seq<SubCategory>,
    users: seq<User>, session: Option<string>, q: ListQuery,
    order: string -> Option<(TransactionView, TransactionView) -> bool>)
    requires !Paginated(q)
    requires ListTransactions(txs, cats, subs, users, session, q, order).Success?
    ensures var r := ListTransactions(txs, cats, subs, users, session, q, order);
      var uid := SessionUserId(users, session).value;
      multiset(r.details.results) == multiset(Views(InDateRange(Owned(txs, uid), q.from, q.to), cats, subs))
  {
    SuccessfulResults(txs, cats, subs, users, session, q, order);
  }

  /** Without pagination and without a date window, the answer is all of the user's
      transactions (in some order) and `count` is exactly how many there are. */
  lemma WholeAnswerIsAllOwned(
    txs: seq<Transaction>, cats: seq<Category>, subs: seq<SubCategory>,
    users: seq<User>, session: Option<string>, q: ListQuery,
    order: string -> Option<(TransactionView, TransactionView) -> bool>)
    requires !Paginated(q) && (q.from.None? || q.to.None?)
    requires ListTransactions(txs, cats, subs, users, session, q, order).Success?
    ensures var r := ListTransactions(txs, cats, subs, users, session, q, order);
      var uid := SessionUserId(users, session).value;
      && multiset(r.details.results) == multiset(Views(Owned(txs, uid), cats, subs))
      && |r.details.results| == r.details.count
  {
    var uid := SessionUserId(users, session).value;
    InDateRangeOpen(Owned(txs, uid), q.from, q.to);
  }

  /** `count` depends only on the session user: page, limit, sort and date window do not
      change it. */
  lemma CountIgnoresQuery(
    txs: seq<Transaction>, cats: seq<Category>, subs: seq<SubCategory>,
    users: seq<User>, session: Option<string>, q1: ListQuery, q2: ListQuery,
    order: string -> Option<(TransactionView, TransactionView) -> bool>)
    requires ListTransactions(txs, cats, subs, users, session, q1, order).Success?
    requires ListTransactions(txs, cats, subs, users, session, q2, order).Success?
    ensures ListTransactions(txs, cats, subs, users, session, q1, order).details.count
         == ListTransactions(txs, cats, subs, users, session, q2, order).details.count
  {
  }

  /** When the database's ordering is a total preorder, the answer comes back sorted by it. */
  lemma ResultsSorted(
    txs: seq<Transaction>, cats: seq<Category>, subs: seq<SubCategory>,
    users: seq<User>, session: Option<string>, q: ListQuery,
    order: string -> Option<(TransactionView, TransactionView) -> bool>)
    requires ListTransactions(txs, cats, subs, users, session, q, order).Success?
    requires TotalPreorder(order(OrderByClause(q)).value)
    ensures SortedBy(ListTransactions(txs, cats, subs, users, session, q, order).details.results,
                     order(OrderByClause(q)).value)
  {
    SuccessfulResults(txs, cats, subs, users, session, q, order);
    var le := order(OrderByClause(q)).value;
    var uid := SessionUserId(users, session).value;
    SortBySorted(Views(InDateRange(Owned(txs, uid), q.from, q.to), cats, subs), le);
    WindowSorted(Ordered(txs, cats, subs, uid, q, le), q, le);
  }

  /** A window of rows in query order is in query order. */
  lemma WindowSorted(rows: seq<TransactionView>, q: ListQuery, le: (TransactionView, TransactionView) -> bool)
    requires SortedBy(rows, le)
    ensures SortedBy(Window(rows, q), le)
  {
    if Paginated(q) && q.page.value >= 1 && q.limit.value >= 1 {
      LimitOffsetSorted(rows, q.limit.value, (q.page.value - 1) * q.limit.value, le);
    }
  }

  /** With no complete date window `InDateRange` keeps every row. */
  lemma {:induction false} InDateRangeOpen(txs: seq<Transaction>, from: Option<int>, to: Option<int>)
    requires from.None? || to.None?
    ensures InDateRange(txs, from, to) == txs
  {
    if txs != [] {
      InDateRangeOpen(txs[1..], from, to);
      assert [txs[0]] + txs[1..] == txs;
    }
  }

  // ---------------------------------------------------------------------------
  // GET /:id
  // ---------------------------------------------------------------------------

  /** The columns GET /:id selects: everything but the owner. */
  datatype TransactionRow = TransactionRow(
    id: nat, amount: int, direction: Direction, category: Option<nat>,
    subCategory: Option<nat>, notes: Option<string>, timestamp: int)

  function RowOf(t: Transaction): (r: TransactionRow) {
    TransactionRow(t.id, t.amount, t.direction, t.category, t.subCategory, t.notes, t.timestamp)
  }

  /** GET /:id: the session user's transaction with that id. */
  function GetTransaction(txs: seq<Transaction>, users: seq<User>, session: Option<string>, id: int): (r: Reply<TransactionRow>)
    ensures SessionUserId(users, session).None? ==>
      r == Failure(200, "GET_TRANSACTION_ERROR", "Error retrieving transaction", "Error retrieving user information")
    ensures r.Success? <==>
      SessionUserId(users, session).Some?
      && exists t :: t in txs && t.userId == SessionUserId(users, session).value && t.id == id
    ensures r.Success? ==> r.details.id == id
    ensures r.Success? ==>
      exists t :: && t in txs && t.userId == SessionUserId(users, session).value && t.id == id
                  && r == Success(200, "GET_TRANSACTION_SUCCESS", "Successfully retrieved transaction", RowOf(t))
    ensures r.Failure? && SessionUserId(users, session).Some? ==>
      r == Failure(200, "GET_TRANSACTION_ERROR", "Transaction not found", "No transaction found with ID: " + IntToString(id))
  {
    var uid := SessionUserId(users, session);
    if uid.None? then
      Failure(200, "GET_TRANSACTION_ERROR", "Error retrieving transaction", "Error retrieving user information")
    else
      var found := FindOwned(txs, uid.value, id);
      if found.None? then
        Failure(200, "GET_TRANSACTION_ERROR", "Transaction not found", "No transaction found with ID: " + IntToString(id))
      else
        Success(200, "GET_TRANSACTION_SUCCESS", "Successfully retrieved transaction", RowOf(found.value))
  }

  // ---------------------------------------------------------------------------
  // POST /
  // ---------------------------------------------------------------------------

  /** The request body of POST /. A missing field is `None`, which the insert binds as NULL. */
  datatype NewTransaction = NewTransaction(
    amount: Option<int>, direction: Option<string>, category: Option<nat>,
    subCategory: Option<nat>, notes: Option<string>)

  /** The row the insert writes, or `None` when the database refuses it: a null amount or
      direction violates NOT NULL, and a direction other than IN or OUT is not an enum value. */
  function InsertedRow(req: NewTransaction, id: nat, uid: nat, now: int): (r: Option<Transaction>)
    ensures r.Some? <==> req.amount.Some? && req.direction.Some? && ParseDirection(req.direction.value).Some?
    ensures r.Some? ==>
      && r.value.id == id && r.value.userId == uid && r.value.timestamp == now
      && r.value.amount == req.amount.value && DirectionText(r.value.direction) == req.direction.value
      && r.value.category == req.category && r.value.subCategory == req.subCategory && r.value.notes == req.notes
  {
    if req.amount.None? || req.direction.None? then None
    else
      var d := ParseDirection(req.direction.value);
      if d.None? then None
      else Some(Transaction(id, uid, now, req.amount.value, d.value, req.category, req.subCategory, req.notes))
  }

  /** Whether the insert draws a value from the id serial. A direction that is not an enum
      label is refused when the parameters are bound, before anything runs; otherwise the
      column defaults, the serial among them, are evaluated before the NOT NULL checks, so a
      missing amount or direction still uses an id up. */
  predicate DrawsId(req: NewTransaction) {
    req.direction.None? || ParseDirection(req.direction.value).Some?
  }

  /** POST /. `now` is the database clock that fills the timestamp column. */
  method AddTransaction(store: TransactionStore, users: seq<User>, session: Option<string>, req: NewTransaction, now: int)
    returns (r: Reply<Transaction>)
    requires store.Valid()
    modifies store`transactions, store`nextId
    ensures store.Valid()
    ensures SessionUserId(users, session).None? ==>
      && r == Failure(200, "ADD_TRANSACTION_ERROR", "Error while adding transaction", "Error retrieving user information")
      && store.transactions == old(store.transactions)
    ensures SessionUserId(users, session).Some? ==>
      var row := InsertedRow(req, old(store.nextId), SessionUserId(users, session).value, now);
      && (row.None? ==>
            r == Failure(500, "ADD_TRANSACTION_ERROR", "Error while adding transaction", CaughtError)
            && store.transactions == old(store.transactions))
      && (row.Some? ==>
            r == Success(200, "ADD_TRANSACTION_SUCCESS", "Successfully added transaction", row.value)
            && store.transactions == old(store.transactions) + [row.value])
      && store.nextId == if DrawsId(req) then old(store.nextId) + 1 else old(store.nextId)
    ensures SessionUserId(users, session).None? ==> store.nextId == old(store.nextId)
  {
    var uid := SessionUserId(users, session);
    if uid.None? {
      return Failure(200, "ADD_TRANSACTION_ERROR", "Error while adding transaction", "Error retrieving user information");
    }
    var row := InsertedRow(req, store.nextId, uid.value, now);
    if DrawsId(req) {
      store.nextId := store.nextId + 1;
    }
    if row.None? {
      return Failure(500, "ADD_TRANSACTION_ERROR", "Error while adding transaction", CaughtError);
    }
    store.transactions := store.transactions + [row.value];
    r := Success(200, "ADD_TRANSACTION_SUCCESS", "Successfully added transaction", row.value);
  }

  /** A freshly inserted row is what GET /:id then answers for its id. */
  lemma {:induction false} AddThenGet(txs: seq<Transaction>, users: seq<User>, session: Option<string>, row: Transaction)
    requires forall t :: t in txs ==> t.id < row.id
    requires SessionUserId(users, session) == Some(row.userId)
    ensures GetTransaction(txs + [row], users, session, row.id)
         == Success(200, "GET_TRANSACTION_SUCCESS", "Successfully retrieved transaction", RowOf(row))
  {
    FindOwnedAppend(txs, row);
  }

  lemma {:induction false} FindOwnedAppend(txs: seq<Transaction>, row: Transaction)
    requires forall t :: t in txs ==> t.id < row.id
    ensures FindOwned(txs + [row], row.userId, row.id) == Some(row)
  {
    if txs != [] {
      assert (txs + [row])[1..] == txs[1..] + [row];
      FindOwnedAppend(txs[1..], row);
    }
  }

  // ---------------------------------------------------------------------------
  // PUT /:id
  // ---------------------------------------------------------------------------

  /** The request body of PUT /:id; a missing field is `None` and keeps the stored value. */
  datatype TransactionEdit = TransactionEdit(
    amount: Option<int>, direction: Option<Direction>, category: Option<nat>,
    subCategory: Option<nat>, notes: Option<string>)

  /** `SET column = COALESCE($n, column)` for the five editable columns. */
  function Merge(t: Transaction, e: TransactionEdit): (r: Transaction)
    ensures r.id == t.id && r.userId == t.userId && r.timestamp == t.timestamp
    ensures r.amount == if e.amount.Some? then e.amount.value else t.amount
    ensures r.direction == if e.direction.Some? then e.direction.value else t.direction
    ensures r.category == if e.category.Some? then e.category else t.category
    ensures r.subCategory == if e.subCategory.Some? then e.subCategory else t.subCategory
    ensures r.notes == if e.notes.Some? then e.notes else t.notes
  {
    t.(amount := if e.amount.Some? then e.amount.value else t.amount,
       direction := if e.direction.Some? then e.direction.value else t.direction,
       category := if e.category.Some? then e.category else t.category,
       subCategory := if e.subCategory.Some? then e.subCategory else t.subCategory,
       notes := if e.notes.Some? then e.notes else t.notes)
  }

  /** Sending the same edit twice changes nothing the second time. */
  lemma MergeIdempotent(t: Transaction, e: TransactionEdit)
    ensures Merge(Merge(t, e), e) == Merge(t, e)
  {
  }

  /** An edit with no fields leaves the row as it is: COALESCE cannot clear a column. */
  lemma MergeEmpty(t: Transaction)
    ensures Merge(t, TransactionEdit(None, None, None, None, None)) == t
  {
  }

  /** The table after `UPDATE ... WHERE user_id = uid AND id = id`. */
  function EditRows(txs: seq<Transaction>, uid: nat, id: int, e: TransactionEdit): (r: seq<Transaction>)
    ensures |r| == |txs|
    ensures forall i :: 0 <= i < |txs| ==>
      r[i] == if txs[i].userId == uid && txs[i].id == id then Merge(txs[i], e) else txs[i]
  {
    if txs == [] then []
    else [if txs[0].userId == uid && txs[0].id == id then Merge(txs[0], e) else txs[0]]
         + EditRows(txs[1..], uid, id, e)
  }

  /** The body's direction, cast to the enum when present; a cast failure is `None`. */
  function EditOf(req: NewTransaction): (e: Option<TransactionEdit>)
    ensures e.Some? <==> req.direction.None? || ParseDirection(req.direction.value).Some?
  {
    if req.direction.Some? && ParseDirection(req.direction.value).None? then None
    else
      Some(TransactionEdit(
        req.amount,
        if req.direction.Some? then ParseDirection(req.direction.value) else None,
        req.category, req.subCategory, req.notes))
  }

  /** PUT /:id. An invalid direction fails the statement whether or not a row matches. */
  method EditTransaction(store: TransactionStore, users: seq<User>, session: Option<string>, id: int, req: NewTransaction)
    returns (r: Reply<Transaction>)
    requires store.Valid()
    modifies store`transactions
    ensures store.Valid()
    ensures SessionUserId(users, session).None? ==>
      && r == Failure(200, "EDIT_TRANSACTION_ERROR", "Error retrieving user information", "")
      && store.transactions == old(store.transactions)
    ensures SessionUserId(users, session).Some? && EditOf(req).None? ==>
      && r == Failure(500, "EDIT_TRANSACTION_ERROR", "Error updating transaction", CaughtError)
      && store.transactions == old(store.transactions)
    ensures SessionUserId(users, session).Some? && EditOf(req).Some? ==>
      var uid := SessionUserId(users, session).value;
      var found := FindOwned(old(store.transactions), uid, id);
      && store.transactions == EditRows(old(store.transactions), uid, id, EditOf(req).value)
      && (found.None? ==>
            r == Failure(200, "EDIT_TRANSACTION_ERROR", "Transaction not found or no changes made",
                         "No transaction found with id " + IntToString(id)))
      && (found.Some? ==>
            r == Success(200, "EDIT_TRANSACTION_SUCCESS", "Successfully updated transaction",
                         Merge(found.value, EditOf(req).value)))
  {
    var uid := SessionUserId(users, session);
    if uid.None? {
      return Failure(200, "EDIT_TRANSACTION_ERROR", "Error retrieving user information", "");
    }
    var e := EditOf(req);
    if e.None? {
      return Failure(500, "EDIT_TRANSACTION_ERROR", "Error updating transaction", CaughtError);
    }
    var found := FindOwned(store.transactions, uid.value, id);
    store.transactions := EditRows(store.transactions, uid.value, id, e.value);
    if found.None? {
      return Failure(200, "EDIT_TRANSACTION_ERROR", "Transaction not found or no changes made",
                     "No transaction found with id " + IntToString(id));
    }
    r := Success(200, "EDIT_TRANSACTION_SUCCESS", "Successfully updated transaction", Merge(found.value, e.value));
  }

  /** After an edit, GET /:id answers with the merged row. */
  lemma {:induction false} EditThenGet(txs: seq<Transaction>, uid: nat, id: int, e: TransactionEdit)
    requires FindOwned(txs, uid, id).Some?
    ensures FindOwned(EditRows(txs, uid, id, e), uid, id) == Some(Merge(FindOwned(txs, uid, id).value, e))
  {
    if !(txs[0].userId == uid && txs[0].id == id) {
      assert EditRows(txs, uid, id, e)[1..] == EditRows(txs[1..], uid, id, e);
      EditThenGet(txs[1..], uid, id, e);
    }
  }

  // ---------------------------------------------------------------------------
  // DELETE /:id
  // ---------------------------------------------------------------------------

  /** The table after `DELETE ... WHERE user_id = uid AND id = id`, order kept. */
  function RemoveRows(txs: seq<Transaction>, uid: nat, id: int): (r: seq<Transaction>)
    ensures |r| <= |txs|
    ensures forall t :: t in r <==> t in txs && !(t.userId == uid && t.id == id)
  {
    if txs == [] then []
    else (if txs[0].userId == uid && txs[0].id == id then [] else [txs[0]]) + RemoveRows(txs[1..], uid, id)
  }

  /** DELETE /:id. */
  method DeleteTransaction(store: TransactionStore, users: seq<User>, session: Option<string>, id: int)
    returns (r: Reply<Transaction>)
    requires store.Valid()
    modifies store`transactions
    ensures store.Valid()
    ensures SessionUserId(users, session).None? ==>
      && r == Failure(200, "DELETE_TRANSACTION_ERROR", "Error retrieving user information", "")
      && store.transactions == old(store.transactions)
    ensures SessionUserId(users, session).Some? ==>
      var uid := SessionUserId(users, session).value;
      var found := FindOwned(old(store.transactions), uid, id);
      && store.transactions == RemoveRows(old(store.transactions), uid, id)
      && (found.None? ==>
            r == Failure(200, "DELETE_TRANSACTION_ERROR", "Transaction not found",
                         "No transaction found with ID: " + IntToString(id)))
      && (found.Some? ==>
            r == Success(200, "DELETE_TRANSACTION_SUCCESS", "Successfully deleted transaction", found.value))
  {
    var uid := SessionUserId(users, session);
    if uid.None? {
      return Failure(200, "DELETE_TRANSACTION_ERROR", "Error retrieving user information", "");
    }
    var found := FindOwned(store.transactions, uid.value, id);
    RemoveKeepsOrder(store.transactions, uid.value, id, store.nextId);
    store.transactions := RemoveRows(store.transactions, uid.value, id);
    if found.None? {
      return Failure(200, "DELETE_TRANSACTION_ERROR", "Transaction not found", "No transaction found with ID: " + IntToString(id));
    }
    r := Success(200, "DELETE_TRANSACTION_SUCCESS", "Successfully deleted transaction", found.value);
  }

  /** Deleting keeps the remaining ids increasing and below `bound`, so the table stays valid. */
  lemma {:induction false} RemoveKeepsOrder(txs: seq<Transaction>, uid: nat, id: int, bound: nat)
    requires IdsBelow(txs, bound) && IdsIncreasing(txs)
    ensures IdsBelow(RemoveRows(txs, uid, id), bound) && IdsIncreasing(RemoveRows(txs, uid, id))
  {
    if txs != [] {
      RemoveKeepsOrder(txs[1..], uid, id, bound);
      var rest := RemoveRows(txs[1..], uid, id);
      if !(txs[0].userId == uid && txs[0].id == id) {
        forall k | 0 <= k < |rest| ensures txs[0].id < rest[k].id {
          assert rest[k] in txs[1..];
        }
        IdsIncreasingCons(txs[0], rest);
        assert RemoveRows(txs, uid, id) == [txs[0]] + rest;
      }
    }
  }

  /** After a delete, GET /:id finds nothing under that id, and every other row survives. */
  lemma DeleteThenGet(txs: seq<Transaction>, users: seq<User>, session: Option<string>, id: int)
    requires SessionUserId(users, session).Some?
    ensures var after := RemoveRows(txs, SessionUserId(users, session).value, id);
      && GetTransaction(after, users, session, id).Failure?
      && forall t :: t in txs && (t.userId != SessionUserId(users, session).value || t.id != id) ==> t in after
  {
  }
}
