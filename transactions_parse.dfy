/** The client's reading of the transaction rows the list endpoint returns. */
module TransactionsParse {
  import opened Common
  import opened Schema

  /** A row as the API sends it: the decimal amount and the timestamp arrive as text,
      and the sub-category under its column name `sub_category`. */
  datatype ApiTransaction = ApiTransaction(
    amount: string, category: Option<int>, direction: Direction, id: int,
    notes: string, sub_category: Option<int>, timestamp: string)

  /** The client's `TransactionType`: a numeric amount, a date (milliseconds here) and the
      sub-category under `subCategory`. A null category or sub-category stays `None`. */
  datatype ClientTransaction = ClientTransaction(
    amount: real, category: Option<int>, direction: Direction, id: int,
    notes: string, subCategory: Option<int>, timestamp: int)

  /** One row: `Number(amount)` and `new Date(timestamp)` are the conversions `toNumber`
      and `toDate`; every other field is copied, `sub_category` under its new name. */
  function ParseOne(a: ApiTransaction, toNumber: string -> real, toDate: string -> int): (r: ClientTransaction) {
    ClientTransaction(toNumber(a.amount), a.category, a.direction, a.id, a.notes, a.sub_category, toDate(a.timestamp))
  }

  /** `parseTransactionsApiResults`: one client row per API row, in the same order. */
  function ParseTransactionsApiResults(results: seq<ApiTransaction>, toNumber: string -> real, toDate: string -> int)
    : (r: seq<ClientTransaction>)
    ensures |r| == |results|
    ensures forall i :: 0 <= i < |results| ==> r[i] == ParseOne(results[i], toNumber, toDate)
  {
    if results == [] then []
    else [ParseOne(results[0], toNumber, toDate)] + ParseTransactionsApiResults(results[1..], toNumber, toDate)
  }

  /** Only the two conversions can lose information: with conversions that can be undone,
      the API rows can be rebuilt from the client rows. */
  lemma {:induction false} ParseIsLossless(results: seq<ApiTransaction>, toNumber: string -> real, toDate: string -> int,
                                            fromNumber: real -> string, fromDate: int -> string)
    requires forall a :: a in results ==> fromNumber(toNumber(a.amount)) == a.amount
    requires forall a :: a in results ==> fromDate(toDate(a.timestamp)) == a.timestamp
    ensures var parsed := ParseTransactionsApiResults(results, toNumber, toDate);
      forall i :: 0 <= i < |results| ==> Unparse(parsed[i], fromNumber, fromDate) == results[i]
  {
    var parsed := ParseTransactionsApiResults(results, toNumber, toDate);
    forall i | 0 <= i < |results|
      ensures Unparse(parsed[i], fromNumber, fromDate) == results[i]
    {
      assert results[i] in results;
      assert parsed[i] == ParseOne(results[i], toNumber, toDate);
    }
  }

  /** The API row a client row came from, given inverses of the two conversions. */
  function Unparse(c: ClientTransaction, fromNumber: real -> string, fromDate: int -> string): (r: ApiTransaction) {
    ApiTransaction(fromNumber(c.amount), c.category, c.direction, c.id, c.notes, c.subCategory, fromDate(c.timestamp))
  }
}
