/** The two pieces of SQL the list endpoints share: `ORDER BY`, modelled as a stable
    insertion sort under an abstract ordering of rows, and `LIMIT ... OFFSET ...`. */
module Sql {
  import opened Common

  function Min(a: int, b: int): (r: int) { if a <= b then a else b }

  // ---------------------------------------------------------------------------
  // LIMIT / OFFSET
  // ---------------------------------------------------------------------------

  /** `LIMIT limit OFFSET offset` over rows that are already in query order. */
  function LimitOffset<T>(rows: seq<T>, limit: nat, offset: nat): (page: seq<T>)
    ensures |page| <= limit
    ensures |page| == if offset >= |rows| then 0 else Min(limit, |rows| - offset)
    ensures forall i :: 0 <= i < |page| ==> page[i] == rows[offset + i]
  {
    if offset >= |rows| then [] else rows[offset..offset + Min(limit, |rows| - offset)]
  }

  lemma LimitOffsetMember<T>(rows: seq<T>, limit: nat, offset: nat, x: T)
    requires x in LimitOffset(rows, limit, offset)
    ensures x in rows
  {
    var page := LimitOffset(rows, limit, offset);
    var k :| 0 <= k < |page| && page[k] == x;
    assert rows[offset + k] == x;
  }

  /** `LIMIT $1 OFFSET $2` with both bound from request numbers: the database refuses a
      negative limit or offset, which is `None` here. */
  function LimitOffsetChecked<T>(rows: seq<T>, limit: int, offset: int): (page: Option<seq<T>>)
    ensures page.Some? <==> limit >= 0 && offset >= 0
    ensures page.Some? ==> page.value == LimitOffset(rows, limit, offset)
  {
    if limit < 0 || offset < 0 then None else Some(LimitOffset(rows, limit, offset))
  }

  /** A page number below 1 with a positive limit gives a negative offset. */
  lemma NegativeTimesPositive(a: int, b: int)
    requires a < 0 && b > 0
    ensures a * b < 0
  {
  }

  /** The text a handler splices after `ORDER BY`: the column in double quotes, a space and
      the direction upper-cased. */
  function OrderBy(column: string, direction: string): (clause: string)
    ensures direction == "asc" ==> clause == "\"" + column + "\" ASC"
    ensures direction == "desc" ==> clause == "\"" + column + "\" DESC"
  {
    assert ToUpperAscii("asc") == "ASC";
    assert ToUpperAscii("desc") == "DESC";
    "\"" + column + "\" " + ToUpperAscii(direction)
  }

  /** The first `n` pages of size `limit`, one after the other. */
  function Pages<T>(rows: seq<T>, limit: nat, n: nat): (r: seq<T>) {
    if n == 0 then [] else Pages(rows, limit, n - 1) + LimitOffset(rows, limit, (n - 1) * limit)
  }

  lemma NextPageStart(n: nat, limit: nat)
    requires n > 0
    ensures n * limit == (n - 1) * limit + limit
  {
  }

  /** Walking pages 1, 2, ..., n of size `limit` visits the rows in order, none skipped and
      none repeated. */
  lemma {:induction false} PagesArePrefix<T>(rows: seq<T>, limit: nat, n: nat)
    ensures Pages(rows, limit, n) == rows[..Min(n * limit, |rows|)]
  {
    if n > 0 {
      var start := (n - 1) * limit;
      PagesArePrefix(rows, limit, n - 1);
      NextPageStart(n, limit);
      NextPage(rows, limit, start);
      assert Pages(rows, limit, n) == rows[..Min(start, |rows|)] + LimitOffset(rows, limit, start);
    }
  }

  /** The rows before `offset` followed by the page at `offset` are the rows before
      `offset + limit`. */
  lemma NextPage<T>(rows: seq<T>, limit: nat, offset: nat)
    ensures rows[..Min(offset, |rows|)] + LimitOffset(rows, limit, offset) == rows[..Min(offset + limit, |rows|)]
  {
    var end := Min(offset + limit, |rows|);
    if offset < |rows| {
      assert LimitOffset(rows, limit, offset) == rows[offset..end];
      assert rows[..end] == rows[..offset] + rows[offset..end];
    } else {
      assert LimitOffset(rows, limit, offset) == [];
    }
  }

  // ---------------------------------------------------------------------------
  // ORDER BY
  // ---------------------------------------------------------------------------

  /** `le` is an ordering the database could sort by: total and transitive. */
  ghost predicate TotalPreorder<T(!new)>(le: (T, T) -> bool) {
    && (forall x, y :: le(x, y) || le(y, x))
    && (forall x, y, z :: le(x, y) && le(y, z) ==> le(x, z))
  }

  predicate SortedBy<T>(s: seq<T>, le: (T, T) -> bool) {
    forall i, j :: 0 <= i < j < |s| ==> le(s[i], s[j])
  }

  /** `ORDER BY col ASC` on a nullable text column: values in the order of the database's
      collation `collate`, then every NULL, which PostgreSQL puts last in ascending order. */
  predicate NullsLast(collate: (string, string) -> bool, x: Option<string>, y: Option<string>) {
    if y.None? then true else x.Some? && collate(x.value, y.value)
  }

  /** Sorting rows by a nullable text column, NULLs last, is a total preorder on the rows
      whenever the collation is one on the texts. */
  lemma NullsLastPreorder<T(!new)>(collate: (string, string) -> bool, column: T -> Option<string>, le: (T, T) -> bool)
    requires TotalPreorder(collate)
    requires forall x, y :: le(x, y) == NullsLast(collate, column(x), column(y))
    ensures TotalPreorder(le)
  {
    forall x: T, y: T, z: T | le(x, y) && le(y, z) ensures le(x, z) {
      if column(z).Some? {
        assert collate(column(x).value, column(y).value) && collate(column(y).value, column(z).value);
      }
    }
  }

  function Insert<T>(x: T, s: seq<T>, le: (T, T) -> bool): (r: seq<T>)
    ensures multiset(r) == multiset(s) + multiset{x}
  {
    if s == [] || le(x, s[0]) then [x] + s
    else
      assert s == [s[0]] + s[1..];
      [s[0]] + Insert(x, s[1..], le)
  }

  /** The rows in the order `ORDER BY` gives them; a permutation of the input. */
  function SortBy<T>(s: seq<T>, le: (T, T) -> bool): (r: seq<T>)
    ensures multiset(r) == multiset(s)
    ensures |r| == |s|
  {
    if s == [] then []
    else
      assert s == [s[0]] + s[1..];
      Insert(s[0], SortBy(s[1..], le), le)
  }

  lemma SortByMember<T>(s: seq<T>, le: (T, T) -> bool, x: T)
    requires x in SortBy(s, le)
    ensures x in s
  {
    assert x in multiset(SortBy(s, le));
  }

  lemma {:induction false} InsertSorted<T(!new)>(x: T, s: seq<T>, le: (T, T) -> bool)
    requires TotalPreorder(le)
    requires SortedBy(s, le)
    ensures SortedBy(Insert(x, s, le), le)
  {
    if s != [] && !le(x, s[0]) {
      InsertSorted(x, s[1..], le);
      var r := Insert(x, s[1..], le);
      forall k | 0 <= k < |r| ensures le(s[0], r[k]) {
        assert r[k] in multiset(r);
        assert r[k] in multiset(s[1..]) + multiset{x};
        if r[k] != x {
          assert r[k] in multiset(s[1..]);
          var m :| 0 <= m < |s[1..]| && s[1..][m] == r[k];
          assert s[1 + m] == r[k];
        }
      }
    }
  }

  /** A window of a sorted list is sorted. */
  lemma LimitOffsetSorted<T>(rows: seq<T>, limit: nat, offset: nat, le: (T, T) -> bool)
    requires SortedBy(rows, le)
    ensures SortedBy(LimitOffset(rows, limit, offset), le)
  {
    var page := LimitOffset(rows, limit, offset);
    forall i, j | 0 <= i < j < |page| ensures le(page[i], page[j]) {
      assert page[i] == rows[offset + i] && page[j] == rows[offset + j];
    }
  }

  /** `le` puts no two different rows of `s` level with each other, as an ordering by a
      column whose values are unique among those rows does: then there is only one sorted
      arrangement of them. */
  ghost predicate NoTiesOn<T>(s: seq<T>, le: (T, T) -> bool) {
    forall x, y :: x in s && y in s && le(x, y) && le(y, x) ==> x == y
  }

  /** Having no ties is a property of the rows, not of their arrangement. */
  lemma NoTiesOnSameRows<T>(a: seq<T>, b: seq<T>, le: (T, T) -> bool)
    requires NoTiesOn(a, le) && multiset(a) == multiset(b)
    ensures NoTiesOn(b, le)
  {
    forall x | x in b ensures x in a {
      assert x in multiset(b);
    }
  }

  /** The first element of a sorted list comes before every element of it. */
  lemma SortedHeadFirst<T>(s: seq<T>, le: (T, T) -> bool, x: T)
    requires s != [] && SortedBy(s, le) && x in s
    requires le(s[0], s[0])
    ensures le(s[0], x)
  {
    var k :| 0 <= k < |s| && s[k] == x;
  }

  /** Two non-empty sorted lists of the same rows start with the same row when `le` has no
      ties. */
  lemma SortedHeadsEqual<T>(a: seq<T>, b: seq<T>, le: (T, T) -> bool)
    requires NoTiesOn(a, le)
    requires a != [] && b != [] && le(a[0], a[0]) && le(b[0], b[0])
    requires SortedBy(a, le) && SortedBy(b, le)
    requires multiset(a) == multiset(b)
    ensures a[0] == b[0]
  {
    assert a[0] in multiset(b) && b[0] in multiset(a);
    SortedHeadFirst(a, le, b[0]);
    SortedHeadFirst(b, le, a[0]);
  }

  /** Two sorted arrangements of the same rows are the same list when `le` is reflexive and
      has no ties: whatever sort the database runs, it gives the answer `SortBy` gives. */
  lemma {:induction false} SortedUnique<T>(a: seq<T>, b: seq<T>, le: (T, T) -> bool)
    requires (forall x :: le(x, x)) && NoTiesOn(a, le)
    requires SortedBy(a, le) && SortedBy(b, le)
    requires multiset(a) == multiset(b)
    ensures a == b
  {
    if a != [] {
      assert |b| == |a| by { assert |multiset(b)| == |multiset(a)|; }
      SortedHeadsEqual(a, b, le);
      TailsSameRows(a, b);
      SortedTail(a, le);
      SortedTail(b, le);
      assert NoTiesOn(a[1..], le) by {
        forall x | x in a[1..] ensures x in a {
          var k :| 0 <= k < |a[1..]| && a[1..][k] == x;
          assert a[k + 1] == x;
        }
      }
      SortedUnique(a[1..], b[1..], le);
    }
  }

  /** With no ties among the rows, a window of `SortBy`'s answer is the same window of any
      other sorted arrangement of them. */
  lemma WindowOfAnySorted<T(!new)>(rows: seq<T>, other: seq<T>, le: (T, T) -> bool, limit: nat, offset: nat)
    requires TotalPreorder(le) && NoTiesOn(rows, le)
    requires SortedBy(other, le) && multiset(other) == multiset(rows)
    ensures LimitOffset(SortBy(rows, le), limit, offset) == LimitOffset(other, limit, offset)
  {
    SortBySorted(rows, le);
    forall x ensures le(x, x) {
      assert le(x, x) || le(x, x);
    }
    NoTiesOnSameRows(rows, other, le);
    SortedUnique(other, SortBy(rows, le), le);
  }

  lemma TailsSameRows<T>(a: seq<T>, b: seq<T>)
    requires a != [] && b != [] && a[0] == b[0]
    requires multiset(a) == multiset(b)
    ensures multiset(a[1..]) == multiset(b[1..])
  {
    assert a == [a[0]] + a[1..] && b == [b[0]] + b[1..];
    assert multiset(a) == multiset{a[0]} + multiset(a[1..]);
    assert multiset(b) == multiset{a[0]} + multiset(b[1..]);
    assert multiset(a[1..]) == multiset(a) - multiset{a[0]};
    assert multiset(b[1..]) == multiset(b) - multiset{a[0]};
  }

  lemma SortedTail<T>(s: seq<T>, le: (T, T) -> bool)
    requires s != [] && SortedBy(s, le)
    ensures SortedBy(s[1..], le)
  {
    forall i, j | 0 <= i < j < |s| - 1 ensures le(s[1..][i], s[1..][j]) {
      assert s[1..][i] == s[i + 1] && s[1..][j] == s[j + 1];
    }
  }

  /** Under a total preorder the result of `SortBy` is sorted. */
  lemma {:induction false} SortBySorted<T(!new)>(s: seq<T>, le: (T, T) -> bool)
    requires TotalPreorder(le)
    ensures SortedBy(SortBy(s, le), le)
  {
    if s != [] {
      SortBySorted(s[1..], le);
      InsertSorted(s[0], SortBy(s[1..], le), le);
    }
  }
}
