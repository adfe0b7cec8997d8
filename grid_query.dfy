/** What the data-grid hooks share: the grid's sort model, the `key=value&...` query
    strings they send, the way the server reads such a string back, and column
    visibility. */
module GridQuery {
  import opened Common

  /** MUI's `GridSortDirection`: 'asc', 'desc', null or undefined. */
  datatype SortDirection = Asc | Desc | Unsorted | Undefined

  /** How `${sort}` renders each direction. */
  function SortText(d: SortDirection): (t: string)
    ensures '&' !in t
  {
    match d
    case Asc => "asc"
    case Desc => "desc"
    case Unsorted => "null"
    case Undefined => "undefined"
  }

  /** One entry of the grid's sort model. */
  datatype SortItem = SortItem(field: string, sort: SortDirection)

  /** One query parameter as a key and its already rendered value. */
  datatype Pair = Pair(key: string, value: string)

  /** `${key}=${value}`. */
  function Param(p: Pair): (r: string) { p.key + "=" + p.value }

  /** The strings the hooks push onto their `parameters` array. */
  function Rendered(pairs: seq<Pair>): (r: seq<string>)
    ensures |r| == |pairs|
    ensures forall i :: 0 <= i < |pairs| ==> r[i] == Param(pairs[i])
  {
    if pairs == [] then [] else [Param(pairs[0])] + Rendered(pairs[1..])
  }

  lemma RenderedAppend(a: seq<Pair>, b: seq<Pair>)
    ensures Rendered(a + b) == Rendered(a) + Rendered(b)
  {
    var r := Rendered(a + b);
    forall i | 0 <= i < |a + b| ensures r[i] == (Rendered(a) + Rendered(b))[i] {
      if i < |a| {
        assert (a + b)[i] == a[i];
      } else {
        assert (a + b)[i] == b[i - |a|];
      }
    }
  }

  /** A pushed ``${prefix}${value}`` whose prefix is the key and '=' is that parameter. */
  lemma PrefixParam(prefix: string, key: string, value: string)
    requires prefix == key + "="
    ensures prefix + value == Param(Pair(key, value))
  {
  }

  /** Two `parameters.push(`${key}=${value}`)` calls, one per pair, keeping alongside
      the pairs pushed so far. */
  method PushTwo(parameters: seq<string>, ghost pairs: seq<Pair>, a: Pair, b: Pair)
    returns (pushed: seq<string>, ghost pairsPushed: seq<Pair>)
    requires parameters == Rendered(pairs)
    ensures pushed == parameters + [Param(a), Param(b)]
    ensures pairsPushed == pairs + [a, b] && pushed == Rendered(pairsPushed)
  {
    pushed := parameters + [Param(a)];
    pushed := pushed + [Param(b)];
    pairsPushed := pairs + [a, b];
    RenderedAppend(pairs, [a, b]);
    RenderedPair(a, b);
  }

  lemma RenderedPair(a: Pair, b: Pair)
    ensures Rendered([a, b]) == [Param(a), Param(b)]
  {
    assert Rendered([a, b])[0] == Param(a);
  }

  /** Pushing one more parameter. */
  lemma RenderedPush(pairs: seq<Pair>, p: Pair)
    ensures Rendered(pairs + [p]) == Rendered(pairs) + [Param(p)]
  {
    RenderedAppend(pairs, [p]);
    assert Rendered([p]) == [Param(p)];
  }

  /** The query string after `?`: the parameters joined with '&'. */
  function Query(pairs: seq<Pair>): (r: string) { Join(Rendered(pairs), "&") }

  /** The first pair with key `key`, if any. */
  function Lookup(pairs: seq<Pair>, key: string): (r: Option<string>)
    ensures r.Some? <==> exists i :: 0 <= i < |pairs| && pairs[i].key == key
  {
    if pairs == [] then None
    else if pairs[0].key == key then Some(pairs[0].value)
    else Lookup(pairs[1..], key)
  }

  lemma {:induction false} LookupAppend(a: seq<Pair>, b: seq<Pair>, key: string)
    ensures Lookup(a + b, key) == if Lookup(a, key).Some? then Lookup(a, key) else Lookup(b, key)
  {
    if a != [] {
      assert (a + b)[1..] == a[1..] + b;
      LookupAppend(a[1..], b, key);
    } else {
      assert a + b == b;
    }
  }

  /** Looking a key up among two pairs. */
  lemma LookupTwo(x: Pair, y: Pair, key: string)
    ensures Lookup([x, y], key)
         == if x.key == key then Some(x.value) else if y.key == key then Some(y.value) else None
  {
    assert [x, y][1..] == [y];
    assert [y][1..] == [];
  }

  // ---------------------------------------------------------------------------
  // Reading a query string back, as the server's query parser does
  // ---------------------------------------------------------------------------

  /** The part of `s` before its first `c` (all of `s` when there is none). */
  function Before(s: string, c: char): (r: string)
    ensures |r| <= |s|
  {
    if s == [] || s[0] == c then [] else [s[0]] + Before(s[1..], c)
  }

  /** The part of `s` after its first `c` ("" when there is none). */
  function After(s: string, c: char): (r: string)
    ensures |r| <= |s|
  {
    if s == [] then [] else if s[0] == c then s[1..] else After(s[1..], c)
  }

  lemma {:induction false} SplitParam(key: string, value: string)
    requires '=' !in key
    ensures Before(key + "=" + value, '=') == key
    ensures After(key + "=" + value, '=') == value
  {
    if key != [] {
      assert (key + "=" + value)[1..] == key[1..] + "=" + value;
      SplitParam(key[1..], value);
      assert [key[0]] + key[1..] == key;
    }
  }

  /** `a=b&c=d` read as `{a: "b", c: "d"}`: empty parts are skipped, a part without '='
      gives its key the empty value, and the first occurrence of a key wins. */
  function ParseParts(parts: seq<string>): (r: map<string, string>) {
    if parts == [] then map[]
    else
      var rest := ParseParts(parts[1..]);
      if parts[0] == "" then rest else rest[Before(parts[0], '=') := After(parts[0], '=')]
  }

  function ParseQuery(query: string): (r: map<string, string>) {
    ParseParts(Split(query, '&'))
  }

  /** Keys without '=' or '&' and values without '&' survive the trip through the
      query string. */
  predicate Encodable(pairs: seq<Pair>) {
    forall i :: 0 <= i < |pairs| ==> '=' !in pairs[i].key && '&' !in pairs[i].key && '&' !in pairs[i].value
  }

  lemma EncodablePair(a: Pair, b: Pair)
    requires '=' !in a.key && '&' !in a.key && '&' !in a.value
    requires '=' !in b.key && '&' !in b.key && '&' !in b.value
    ensures Encodable([a, b])
  {
  }

  lemma EncodableAppend(a: seq<Pair>, b: seq<Pair>)
    requires Encodable(a) && Encodable(b)
    ensures Encodable(a + b)
  {
    forall i | 0 <= i < |a + b|
      ensures '=' !in (a + b)[i].key && '&' !in (a + b)[i].key && '&' !in (a + b)[i].value
    {
      if i >= |a| {
        assert (a + b)[i] == b[i - |a|];
      }
    }
  }

  lemma {:induction false} ParseRendered(pairs: seq<Pair>, key: string)
    requires Encodable(pairs)
    ensures key in ParseParts(Rendered(pairs)) <==> Lookup(pairs, key).Some?
    ensures key in ParseParts(Rendered(pairs)) ==> ParseParts(Rendered(pairs))[key] == Lookup(pairs, key).value
  {
    if pairs != [] {
      var r := Rendered(pairs);
      assert r[1..] == Rendered(pairs[1..]);
      assert r[0] == pairs[0].key + "=" + pairs[0].value;
      assert r[0] != "" by { assert r[0][|pairs[0].key|] == '='; }
      SplitParam(pairs[0].key, pairs[0].value);
      ParseRendered(pairs[1..], key);
    }
  }

  /** Reading the query string back gives, for every key, the first value the builder
      gave it, and nothing for a key it did not use. */
  lemma ReadBack(pairs: seq<Pair>, key: string)
    requires Encodable(pairs)
    ensures key in ParseQuery(Query(pairs)) <==> Lookup(pairs, key).Some?
    ensures key in ParseQuery(Query(pairs)) ==> ParseQuery(Query(pairs))[key] == Lookup(pairs, key).value
  {
    var r := Rendered(pairs);
    if pairs == [] {
      assert Query(pairs) == "";
      assert Split("", '&') == [""];
    } else {
      forall k | 0 <= k < |r| ensures '&' !in r[k] {
        assert r[k] == pairs[k].key + "=" + pairs[k].value;
      }
      SplitJoin(r, '&');
      ParseRendered(pairs, key);
    }
  }

  /** The two sort parameters every hook derives from the first entry of the sort model,
      and none for an empty model. */
  function SortPairs(sortModel: seq<SortItem>): (r: seq<Pair>) {
    if |sortModel| > 0 then
      [Pair("sortColumn", sortModel[0].field), Pair("sortDirection", SortText(sortModel[0].sort))]
    else []
  }

  // ---------------------------------------------------------------------------
  // The settings grids' query: page and limit always, then the sort
  // ---------------------------------------------------------------------------

  function PagedPairs(page: int, pageSize: int, sortModel: seq<SortItem>): (r: seq<Pair>) {
    [Pair("page", IntToString(page)), Pair("limit", IntToString(pageSize))] + SortPairs(sortModel)
  }

  /** The settings grids' effect: `page` and `limit` pushed first, the sort after. */
  method BuildPagedParameters(page: int, pageSize: int, sortModel: seq<SortItem>) returns (parameters: seq<string>)
    ensures parameters == Rendered(PagedPairs(page, pageSize, sortModel))
  {
    ghost var pairs: seq<Pair>;
    parameters, pairs := PushTwo([], [], Pair("page", IntToString(page)), Pair("limit", IntToString(pageSize)));
    assert pairs == [Pair("page", IntToString(page)), Pair("limit", IntToString(pageSize))];
    if |sortModel| > 0 {
      parameters, pairs := PushTwo(parameters, pairs, Pair("sortColumn", sortModel[0].field),
                                   Pair("sortDirection", SortText(sortModel[0].sort)));
    }
    assert pairs == PagedPairs(page, pageSize, sortModel);
  }

  /** What the server reads from a settings grid's query: the page and the page size (as
      `limit`) always, a positive page and page size as themselves, and the first sort
      entry only when there is one. */
  lemma PagedQueryReadBack(page: int, pageSize: int, sortModel: seq<SortItem>)
    requires |sortModel| > 0 ==> '&' !in sortModel[0].field
    ensures var m := ParseQuery(Query(PagedPairs(page, pageSize, sortModel)));
      && "page" in m && m["page"] == IntToString(page)
      && "limit" in m && m["limit"] == IntToString(pageSize)
      && (page > 0 ==> DigitsValue(m["page"]) == page)
      && (pageSize > 0 ==> DigitsValue(m["limit"]) == pageSize)
      && ("sortColumn" in m <==> |sortModel| > 0)
      && ("sortDirection" in m <==> |sortModel| > 0)
      && ("sortColumn" in m ==> m["sortColumn"] == sortModel[0].field)
      && ("sortDirection" in m ==> m["sortDirection"] == SortText(sortModel[0].sort))
  {
    var pairs := PagedPairs(page, pageSize, sortModel);
    PagedEncodable(page, pageSize, sortModel);
    ReadBack(pairs, "page");
    ReadBack(pairs, "limit");
    ReadBack(pairs, "sortColumn");
    ReadBack(pairs, "sortDirection");
    PagedLookup(page, pageSize, sortModel, "page");
    PagedLookup(page, pageSize, sortModel, "limit");
    PagedLookup(page, pageSize, sortModel, "sortColumn");
    PagedLookup(page, pageSize, sortModel, "sortDirection");
    if page > 0 { NatToStringRoundTrip(page); }
    if pageSize > 0 { NatToStringRoundTrip(pageSize); }
  }

  lemma PagedEncodable(page: int, pageSize: int, sortModel: seq<SortItem>)
    requires |sortModel| > 0 ==> '&' !in sortModel[0].field
    ensures Encodable(PagedPairs(page, pageSize, sortModel))
  {
    var paging := [Pair("page", IntToString(page)), Pair("limit", IntToString(pageSize))];
    assert '&' !in paging[0].value && '&' !in paging[1].value;
    EncodablePair(paging[0], paging[1]);
    if |sortModel| > 0 {
      EncodablePair(Pair("sortColumn", sortModel[0].field), Pair("sortDirection", SortText(sortModel[0].sort)));
    }
    EncodableAppend(paging, SortPairs(sortModel));
  }

  /** The value the settings grids' pairs give each key. */
  lemma PagedLookup(page: int, pageSize: int, sortModel: seq<SortItem>, key: string)
    ensures Lookup(PagedPairs(page, pageSize, sortModel), key)
         == if key == "page" then Some(IntToString(page))
            else if key == "limit" then Some(IntToString(pageSize))
            else if |sortModel| == 0 then None
            else if key == "sortColumn" then Some(sortModel[0].field)
            else if key == "sortDirection" then Some(SortText(sortModel[0].sort)) else None
  {
    var paging := [Pair("page", IntToString(page)), Pair("limit", IntToString(pageSize))];
    LookupAppend(paging, SortPairs(sortModel), key);
    LookupTwo(paging[0], paging[1], key);
    if |sortModel| > 0 {
      LookupTwo(Pair("sortColumn", sortModel[0].field), Pair("sortDirection", SortText(sortModel[0].sort)), key);
    } else {
      assert SortPairs(sortModel) == [];
    }
  }

  // ---------------------------------------------------------------------------
  // Column visibility
  // ---------------------------------------------------------------------------

  /** The fields the grid shows: a field is hidden only when the visibility model maps
      it to false. */
  function Shown(fields: seq<string>, visibility: map<string, bool>): (r: seq<string>) {
    if fields == [] then []
    else
      (if fields[0] in visibility && !visibility[fields[0]] then [] else [fields[0]])
      + Shown(fields[1..], visibility)
  }

  /** A field is shown exactly when it is a column the visibility model does not hide. */
  lemma {:induction false} ShownMember(fields: seq<string>, visibility: map<string, bool>, f: string)
    ensures f in Shown(fields, visibility) <==> f in fields && !(f in visibility && !visibility[f])
  {
    if fields != [] {
      ShownMember(fields[1..], visibility, f);
      assert f in fields <==> f == fields[0] || f in fields[1..];
    }
  }
}
