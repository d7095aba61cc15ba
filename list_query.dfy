/**
 * The statement GetMany assembles for a filtered, paged list of companies or
 * users: one argument and one `$n` per search or `in` entry, the where-clauses
 * joined with " and ", then the page size and offset as the last two arguments.
 * The sort clause is not modelled.
 */
module ListQuery {
  import opened Base
  import opened Text
  import opened SqlText
  import opened Filters
  import opened GoErrors

  /** The column tag of a search entry's reference and of an `in` entry's reference. */
  function SearchColumn(k: string): string { "search:" + k }
  function InColumn(k: string): string { "in:" + k }

  /** `%s ~* $%d` */
  function SearchPart(k: string, n: nat): seq<Piece> { [Lit(k + " ~* "), Ref(SearchColumn(k), n)] }

  /** `$%d = any(%s)` */
  function InPart(k: string, n: nat): seq<Piece> { [Ref(InColumn(k), n), Lit(" = any(" + k + ")")] }

  /** The where-parts of a run of entries whose arguments follow `base` others. */
  function SearchParts(m: FilterMap, base: nat): (parts: seq<seq<Piece>>)
    ensures |parts| == |m| && forall j :: 0 <= j < |m| ==> parts[j] == SearchPart(m[j].0, base + j + 1)
  {
    seq(|m|, j requires 0 <= j < |m| => SearchPart(m[j].0, base + j + 1))
  }

  function InParts(m: FilterMap, base: nat): (parts: seq<seq<Piece>>)
    ensures |parts| == |m| && forall j :: 0 <= j < |m| ==> parts[j] == InPart(m[j].0, base + j + 1)
  {
    seq(|m|, j requires 0 <= j < |m| => InPart(m[j].0, base + j + 1))
  }

  /** The values of the entries, in visiting order. */
  function EntryArgs(m: FilterMap): (args: seq<Arg>)
    ensures |args| == |m| && forall j :: 0 <= j < |m| ==> args[j] == TextArg(m[j].1)
  {
    seq(|m|, j requires 0 <= j < |m| => TextArg(m[j].1))
  }

  function Entries(m: Option<FilterMap>): FilterMap {
    if m.Some? then m.value else []
  }

  /** The page size and offset, when both pointers are set. */
  function Paging(f: Filters): Option<(int, int)> {
    if f.page.Some? && f.pageSize.Some? then Some((f.pageSize.value, (f.page.value - 1) * f.pageSize.value))
    else None
  }

  /** The where-parts in the order GetMany appends them. */
  function WhereParts(f: Filters): seq<seq<Piece>> {
    SearchParts(Entries(f.search), 0) + InParts(Entries(f.inFilter), |Entries(f.search)|)
  }

  /** `limit $%d offset $%d` over the last two arguments. */
  function PagingPart(n: nat): seq<Piece>
    requires n >= 1
  {
    [Lit("limit "), Ref("limit", n - 1), Lit(" offset "), Ref("offset", n)]
  }

  /** The arguments GetMany passes, in order. */
  function ManyArgs(f: Filters): (args: seq<Arg>)
    ensures Paging(f).None? ==> |args| == |Entries(f.search)| + |Entries(f.inFilter)|
    ensures Paging(f).Some? ==>
              && |args| == |Entries(f.search)| + |Entries(f.inFilter)| + 2
              && args[|args| - 2] == IntArg(Paging(f).value.0) && args[|args| - 1] == IntArg(Paging(f).value.1)
  {
    EntryArgs(Entries(f.search)) + EntryArgs(Entries(f.inFilter))
    + (if Paging(f).Some? then [IntArg(Paging(f).value.0), IntArg(Paging(f).value.1)] else [])
  }

  /** The parts of the statement, which GetMany joins with single spaces. */
  function ManyGroups(head: string, f: Filters): seq<seq<Piece>> {
    var wp := WhereParts(f);
    [[Lit(head)]]
    + (if wp != [] then [[Lit("where")], JoinPieces(wp, " and ")] else [])
    + (if Paging(f).Some? then [PagingPart(|ManyArgs(f)|)] else [])
  }

  function ManyPieces(head: string, f: Filters): seq<Piece> {
    JoinPieces(ManyGroups(head, f), " ")
  }

  lemma RenderSearchPart(k: string, n: nat)
    ensures Render(SearchPart(k, n)) == k + " ~* $" + Itoa(n)
  {
    RenderCons(Lit(k + " ~* "), [Ref(SearchColumn(k), n)]);
    RenderCons(Ref(SearchColumn(k), n), []);
  }

  lemma RenderInPart(k: string, n: nat)
    ensures Render(InPart(k, n)) == "$" + Itoa(n) + " = any(" + k + ")"
  {
    RenderCons(Ref(InColumn(k), n), [Lit(" = any(" + k + ")")]);
    RenderCons(Lit(" = any(" + k + ")"), []);
  }

  /** The paging clause's text, regrouped from piece-by-piece rendering. */
  lemma PagingText(a: string, b: string)
    ensures "limit " + (("$" + a) + (" offset " + ("$" + b))) == "limit $" + a + " offset $" + b
  {
    assert "limit " + "$" == "limit $";
    assert " offset " + "$" == " offset $";
  }

  lemma RenderPagingPart(n: nat)
    requires n >= 2
    ensures Render(PagingPart(n)) == "limit $" + Itoa(n - 1) + " offset $" + Itoa(n)
  {
    Render4(Lit("limit "), Ref("limit", n - 1), Lit(" offset "), Ref("offset", n));
    PagingText(Itoa(n - 1), Itoa(n));
  }

  /** The texts of the statement's parts, as GetMany appends them to its query parts. */
  lemma {:induction false} ManyTexts(head: string, f: Filters)
    ensures RenderAll(ManyGroups(head, f))
         == [head]
          + (if WhereParts(f) != [] then ["where", Join(RenderAll(WhereParts(f)), " and ")] else [])
          + (if Paging(f).Some? then ["limit $" + Itoa(|ManyArgs(f)| - 1) + " offset $" + Itoa(|ManyArgs(f)|)] else [])
  {
    var wp := WhereParts(f);
    var w := if wp != [] then [[Lit("where")], JoinPieces(wp, " and ")] else [];
    var p := if Paging(f).Some? then [PagingPart(|ManyArgs(f)|)] else [];
    RenderAllAppend([[Lit(head)]], w);
    RenderAllAppend([[Lit(head)]] + w, p);
    RenderAllOne([Lit(head)]);
    assert Render([Lit(head)]) == head by { RenderCons(Lit(head), []); }
    if wp != [] {
      RenderJoin(wp, " and ");
      assert Render([Lit("where")]) == "where" by { RenderCons(Lit("where"), []); }
      RenderAllTwo([Lit("where")], JoinPieces(wp, " and "));
      assert RenderAll(w) == ["where", Join(RenderAll(wp), " and ")];
    } else {
      assert RenderAll(w) == [];
    }
    if Paging(f).Some? {
      PagingTexts(|ManyArgs(f)|);
      assert RenderAll(p) == ["limit $" + Itoa(|ManyArgs(f)| - 1) + " offset $" + Itoa(|ManyArgs(f)|)];
    } else {
      assert RenderAll(p) == [];
    }
    assert ManyGroups(head, f) == [[Lit(head)]] + w + p;
  }

  lemma PagingTexts(n: nat)
    requires n >= 2
    ensures RenderAll([PagingPart(n)]) == ["limit $" + Itoa(n - 1) + " offset $" + Itoa(n)]
  {
    RenderPagingPart(n);
    RenderAllOne(PagingPart(n));
  }

  lemma RenderAllOne(g: seq<Piece>)
    ensures RenderAll([g]) == [Render(g)]
  {
    assert RenderAll([g])[0] == Render(g);
  }

  lemma RenderAllTwo(g: seq<Piece>, h: seq<Piece>)
    ensures RenderAll([g, h]) == [Render(g), Render(h)]
  {
    assert RenderAll([g, h])[0] == Render(g) && RenderAll([g, h])[1] == Render(h);
  }

  lemma RenderAllAppend(a: seq<seq<Piece>>, b: seq<seq<Piece>>)
    ensures RenderAll(a + b) == RenderAll(a) + RenderAll(b)
  {
  }

  lemma EntryArgsSnoc(m: FilterMap, n: nat)
    requires n < |m|
    ensures EntryArgs(m[..n + 1]) == EntryArgs(m[..n]) + [TextArg(m[n].1)]
  {
    assert m[..n + 1][..n] == m[..n];
  }

  lemma SearchPartsSnoc(m: FilterMap, n: nat, base: nat)
    requires n < |m|
    ensures SearchParts(m[..n + 1], base) == SearchParts(m[..n], base) + [SearchPart(m[n].0, base + n + 1)]
  {
    assert m[..n + 1][..n] == m[..n];
  }

  lemma InPartsSnoc(m: FilterMap, n: nat, base: nat)
    requires n < |m|
    ensures InParts(m[..n + 1], base) == InParts(m[..n], base) + [InPart(m[n].0, base + n + 1)]
  {
    assert m[..n + 1][..n] == m[..n];
  }

  lemma RenderAllSnoc(gs: seq<seq<Piece>>, g: seq<Piece>)
    ensures RenderAll(gs + [g]) == RenderAll(gs) + [Render(g)]
  {
  }

  /** One turn of the search loop: the entry's value and its `key ~* $n` part are appended. */
  lemma {:induction false} SearchStep(search: FilterMap, n: nat, whereParts: seq<string>)
    requires n < |search| && whereParts == RenderAll(SearchParts(search[..n], 0))
    ensures EntryArgs(search[..n + 1]) == EntryArgs(search[..n]) + [TextArg(search[n].1)]
    ensures whereParts + [search[n].0 + " ~* $" + Itoa(n + 1)] == RenderAll(SearchParts(search[..n + 1], 0))
  {
    EntryArgsSnoc(search, n);
    SearchPartsSnoc(search, n, 0);
    RenderAllSnoc(SearchParts(search[..n], 0), SearchPart(search[n].0, n + 1));
    RenderSearchPart(search[n].0, n + 1);
  }

  /** One turn of the `in` loop: the entry's value and its `$n = any(key)` part are appended. */
  lemma {:induction false} InStep(search: FilterMap, ins: FilterMap, n: nat, args: seq<Arg>, whereParts: seq<string>)
    requires n < |ins|
    requires args == EntryArgs(search) + EntryArgs(ins[..n])
    requires whereParts == RenderAll(SearchParts(search, 0) + InParts(ins[..n], |search|))
    ensures args + [TextArg(ins[n].1)] == EntryArgs(search) + EntryArgs(ins[..n + 1])
    ensures whereParts + ["$" + Itoa(|search| + n + 1) + " = any(" + ins[n].0 + ")"]
         == RenderAll(SearchParts(search, 0) + InParts(ins[..n + 1], |search|))
  {
    EntryArgsSnoc(ins, n);
    InPartsSnoc(ins, n, |search|);
    var wp := SearchParts(search, 0) + InParts(ins[..n], |search|);
    RenderAllSnoc(wp, InPart(ins[n].0, |search| + n + 1));
    RenderInPart(ins[n].0, |search| + n + 1);
    assert wp + [InPart(ins[n].0, |search| + n + 1)] == SearchParts(search, 0) + InParts(ins[..n + 1], |search|);
  }

  /**
   * The two range loops of GetMany: each search entry, then each `in` entry,
   * appends its value to the arguments and a where-part referencing `$len(args)`.
   */
  method WhereClauses(f: Filters) returns (args: seq<Arg>, whereParts: seq<string>)
    ensures args == EntryArgs(Entries(f.search)) + EntryArgs(Entries(f.inFilter))
    ensures whereParts == RenderAll(WhereParts(f))
  {
    args := [];
    whereParts := [];
    var search := Entries(f.search);
    var n := 0;
    while n < |search|
      invariant 0 <= n <= |search|
      invariant args == EntryArgs(search[..n])
      invariant whereParts == RenderAll(SearchParts(search[..n], 0))
    {
      SearchStep(search, n, whereParts);
      assert |args| == n;
      args := args + [TextArg(search[n].1)];
      whereParts := whereParts + [search[n].0 + " ~* $" + Itoa(|args|)];
      n := n + 1;
    }
    assert search[..n] == search;
    var ins := Entries(f.inFilter);
    n := 0;
    assert ins[..0] == [] && SearchParts(search, 0) + InParts(ins[..0], |search|) == SearchParts(search, 0);
    while n < |ins|
      invariant 0 <= n <= |ins|
      invariant args == EntryArgs(search) + EntryArgs(ins[..n])
      invariant whereParts == RenderAll(SearchParts(search, 0) + InParts(ins[..n], |search|))
    {
      InStep(search, ins, n, args, whereParts);
      assert |args| == |search| + n;
      args := args + [TextArg(ins[n].1)];
      whereParts := whereParts + ["$" + Itoa(|args|) + " = any(" + ins[n].0 + ")"];
      n := n + 1;
    }
    assert ins[..n] == ins;
  }

  /**
   * GetMany's statement assembly: the where-clauses, then the paging arguments
   * referenced as the last two, and the query parts joined with spaces. The
   * result is the text of ManyPieces with the arguments of ManyArgs.
   */
  method GetManyQuery(head: string, f: Filters) returns (query: string, args: seq<Arg>)
    ensures query == Render(ManyPieces(head, f))
    ensures args == ManyArgs(f)
  {
    var whereParts;
    args, whereParts := WhereClauses(f);
    var queryParts: seq<string> := [head];
    if |whereParts| > 0 {
      queryParts := queryParts + ["where", Join(whereParts, " and ")];
    }
    if f.page.Some? && f.pageSize.Some? {
      args := args + [IntArg(f.pageSize.value), IntArg((f.page.value - 1) * f.pageSize.value)];
      queryParts := queryParts + ["limit $" + Itoa(|args| - 1) + " offset $" + Itoa(|args|)];
    }
    assert args == ManyArgs(f);
    ManyTexts(head, f);
    assert queryParts == RenderAll(ManyGroups(head, f));
    RenderJoin(ManyGroups(head, f), " ");
    query := Join(queryParts, " ");
  }

  /** What each reference of GetMany's statement is meant to number. */
  function EntriesMeant(m: FilterMap, column: string -> string): map<string, Arg>
    decreases |m|
  {
    if m == [] then map[]
    else EntriesMeant(m[..|m| - 1], column)[column(m[|m| - 1].0) := TextArg(m[|m| - 1].1)]
  }

  function PagingMeant(f: Filters): map<string, Arg> {
    if Paging(f).Some? then map["limit" := IntArg(Paging(f).value.0), "offset" := IntArg(Paging(f).value.1)]
    else map[]
  }

  function Meant(f: Filters): map<string, Arg> {
    EntriesMeant(Entries(f.search), SearchColumn) + EntriesMeant(Entries(f.inFilter), InColumn) + PagingMeant(f)
  }

  /** An entry's column is meant for its value when the keys are distinct; every column is some entry's. */
  lemma {:induction false} EntriesMeantAt(m: FilterMap, column: string -> string, j: nat)
    requires DistinctKeys(m) && j < |m|
    requires forall k1, k2 :: column(k1) == column(k2) ==> k1 == k2
    ensures column(m[j].0) in EntriesMeant(m, column)
    ensures EntriesMeant(m, column)[column(m[j].0)] == TextArg(m[j].1)
    decreases |m|
  {
    if j < |m| - 1 {
      var init := m[..|m| - 1];
      assert init[j] == m[j];
      assert DistinctKeys(init) by {
        forall a, b | 0 <= a < b < |init| ensures init[a].0 != init[b].0 { assert init[a] == m[a] && init[b] == m[b]; }
      }
      EntriesMeantAt(init, column, j);
    }
  }

  lemma {:induction false} EntriesMeantKeys(m: FilterMap, column: string -> string)
    ensures forall c :: c in EntriesMeant(m, column) ==> exists k :: c == column(k)
    decreases |m|
  {
    if m != [] {
      EntriesMeantKeys(m[..|m| - 1], column);
    }
  }

  lemma ColumnsInjective()
    ensures forall k1, k2 :: SearchColumn(k1) == SearchColumn(k2) ==> k1 == k2
    ensures forall k1, k2 :: InColumn(k1) == InColumn(k2) ==> k1 == k2
    ensures forall k1, k2 :: SearchColumn(k1) != InColumn(k2)
    ensures forall k :: SearchColumn(k) !in {"limit", "offset"} && InColumn(k) !in {"limit", "offset"}
  {
    forall k1, k2 | SearchColumn(k1) == SearchColumn(k2) ensures k1 == k2 {
      assert k1 == SearchColumn(k1)[7..];
    }
    forall k1, k2 | InColumn(k1) == InColumn(k2) ensures k1 == k2 {
      assert k1 == InColumn(k1)[3..];
    }
    forall k1, k2 ensures SearchColumn(k1) != InColumn(k2) {
      assert SearchColumn(k1)[0] == 's' && InColumn(k2)[0] == 'i';
    }
    forall k ensures SearchColumn(k) !in {"limit", "offset"} && InColumn(k) !in {"limit", "offset"} {
      assert SearchColumn(k)[0] == 's' && InColumn(k)[0] == 'i';
    }
  }

  /**
   * What the database answers a list statement with: the page of rows and the
   * `count(*) over ()` column they carry, or the error the query failed with.
   */
  datatype Rows<T> = Rows(found: seq<T>, count: int) | QueryFailed(err: Error)

  /** The record count GetMany hands to NewListMetadata: the column of the last row scanned, 0 when none was. */
  function RecordCount<T>(found: seq<T>, count: int): (n: int)
    ensures found == [] ==> n == 0
    ensures found != [] ==> n == count
  {
    if found == [] then 0 else count
  }

  /** A name that cannot start or fake a `$n` reference when written into the statement. */
  predicate PlainName(k: string) {
    '$' !in k && (k == [] || !IsDigit(k[0]))
  }

  predicate PlainKeys(m: FilterMap) {
    forall j :: 0 <= j < |m| ==> PlainName(m[j].0)
  }

  /** Keys drawn from a list of plain names are plain. */
  lemma ListedKeysPlain(m: FilterMap, names: seq<string>)
    requires forall i :: 0 <= i < |names| ==> PlainName(names[i])
    requires forall j :: 0 <= j < |m| ==> m[j].0 in names
    ensures PlainKeys(m)
  {
    forall j | 0 <= j < |m| ensures PlainName(m[j].0) {
      var i :| 0 <= i < |names| && names[i] == m[j].0;
    }
  }

  lemma SearchPartBound(k: string, v: string, j: nat, meant: map<string, Arg>)
    requires SearchColumn(k) in meant && meant[SearchColumn(k)] == TextArg(v)
    ensures BoundFrom(SearchPart(k, j + 1), [TextArg(v)], j, meant)
  {
    LitBound(k + " ~* ", j, meant);
    RefBound(SearchColumn(k), TextArg(v), j, meant);
    BoundAppend([Lit(k + " ~* ")], [], [Ref(SearchColumn(k), j + 1)], [TextArg(v)], j, meant);
    assert [] + [TextArg(v)] == [TextArg(v)];
  }

  lemma InPartBound(k: string, v: string, j: nat, meant: map<string, Arg>)
    requires InColumn(k) in meant && meant[InColumn(k)] == TextArg(v)
    ensures BoundFrom(InPart(k, j + 1), [TextArg(v)], j, meant)
  {
    RefBound(InColumn(k), TextArg(v), j, meant);
    LitBound(" = any(" + k + ")", j + 1, meant);
    BoundAppend([Ref(InColumn(k), j + 1)], [TextArg(v)], [Lit(" = any(" + k + ")")], [], j, meant);
    assert [TextArg(v)] + [] == [TextArg(v)];
  }

  /** Each search entry's column is meant for its value. */
  lemma {:induction false} MeantSearch(f: Filters, j: nat)
    requires DistinctKeys(Entries(f.search)) && j < |Entries(f.search)|
    ensures var e := Entries(f.search)[j]; SearchColumn(e.0) in Meant(f) && Meant(f)[SearchColumn(e.0)] == TextArg(e.1)
  {
    var k := Entries(f.search)[j].0;
    ColumnsInjective();
    EntriesMeantKeys(Entries(f.inFilter), InColumn);
    EntriesMeantAt(Entries(f.search), SearchColumn, j);
    assert SearchColumn(k) !in EntriesMeant(Entries(f.inFilter), InColumn);
    assert SearchColumn(k) !in PagingMeant(f);
  }

  /** Each `in` entry's column is meant for its value. */
  lemma {:induction false} MeantIn(f: Filters, i: nat)
    requires DistinctKeys(Entries(f.inFilter)) && i < |Entries(f.inFilter)|
    ensures var e := Entries(f.inFilter)[i]; InColumn(e.0) in Meant(f) && Meant(f)[InColumn(e.0)] == TextArg(e.1)
  {
    var k := Entries(f.inFilter)[i].0;
    ColumnsInjective();
    EntriesMeantAt(Entries(f.inFilter), InColumn, i);
    assert InColumn(k) !in PagingMeant(f);
  }

  /** The j-th where-part binds the j-th argument. */
  lemma {:induction false} WherePartBound(f: Filters, j: nat)
    requires DistinctKeys(Entries(f.search)) && DistinctKeys(Entries(f.inFilter))
    requires j < |WhereParts(f)|
    ensures BoundFrom(WhereParts(f)[j], [ManyArgs(f)[j]], j, Meant(f))
  {
    var search, ins := Entries(f.search), Entries(f.inFilter);
    if j < |search| {
      MeantSearch(f, j);
      assert ManyArgs(f)[j] == TextArg(search[j].1);
      assert WhereParts(f)[j] == SearchPart(search[j].0, j + 1);
      SearchPartBound(search[j].0, search[j].1, j, Meant(f));
    } else {
      var i := j - |search|;
      MeantIn(f, i);
      assert ManyArgs(f)[j] == TextArg(ins[i].1);
      assert WhereParts(f)[j] == InPart(ins[i].0, j + 1);
      InPartBound(ins[i].0, ins[i].1, j, Meant(f));
    }
  }

  /** With plain keys, every where-part's literals are plain. */
  lemma {:induction false} WherePartPlain(f: Filters, j: nat)
    requires PlainKeys(Entries(f.search)) && PlainKeys(Entries(f.inFilter))
    requires j < |WhereParts(f)|
    ensures PlainLiterals(WhereParts(f)[j])
  {
    var search, ins := Entries(f.search), Entries(f.inFilter);
    if j < |search| {
      assert WhereParts(f)[j] == SearchPart(search[j].0, j + 1);
      assert PlainName(search[j].0);
    } else {
      assert WhereParts(f)[j] == InPart(ins[j - |search|].0, j + 1);
      assert PlainName(ins[j - |search|].0);
    }
  }

  /** The where-clauses, joined, bind the entries' arguments in order. */
  lemma {:induction false} WhereBound(f: Filters)
    requires DistinctKeys(Entries(f.search)) && DistinctKeys(Entries(f.inFilter))
    ensures BoundFrom(JoinPieces(WhereParts(f), " and "), ManyArgs(f)[..|WhereParts(f)|], 0, Meant(f))
  {
    var wp := WhereParts(f);
    var all := ManyArgs(f);
    assert |wp| <= |all|;
    var args := all[..|wp|];
    forall j | 0 <= j < |wp| ensures BoundFrom(wp[j], [args[j]], 0 + j, Meant(f)) {
      WherePartBound(f, j);
      assert args[j] == all[j];
    }
    JoinBound(wp, args, " and ", 0, Meant(f));
  }

  lemma {:induction false} WherePlain(f: Filters)
    requires PlainKeys(Entries(f.search)) && PlainKeys(Entries(f.inFilter))
    ensures PlainLiterals(JoinPieces(WhereParts(f), " and "))
  {
    var wp := WhereParts(f);
    forall j | 0 <= j < |wp| ensures PlainLiterals(wp[j]) {
      WherePartPlain(f, j);
    }
    JoinPlain(wp, " and ");
  }

  /** The paging part binds the page size and the offset as the last two of n arguments. */
  lemma PagingPartBound(n: nat, size: int, offset: int, meant: map<string, Arg>)
    requires n >= 2
    requires "limit" in meant && meant["limit"] == IntArg(size)
    requires "offset" in meant && meant["offset"] == IntArg(offset)
    ensures BoundFrom(PagingPart(n), [IntArg(size), IntArg(offset)], n - 2, meant)
  {
    var ps := PagingPart(n);
    assert Indices(ps[3..]) == [n] by { assert ps[3..] == [Ref("offset", n)]; }
    assert Indices(ps[2..]) == [n] by { assert ps[2..][1..] == ps[3..]; }
    assert Indices(ps[1..]) == [n - 1, n] by { assert ps[1..][1..] == ps[2..]; }
    assert Indices(ps) == Range(n - 1, n + 1);
  }

  /** `limit` and `offset` are meant for the page size and the offset. */
  lemma MeantPaging(f: Filters)
    requires Paging(f).Some?
    ensures "limit" in Meant(f) && Meant(f)["limit"] == IntArg(Paging(f).value.0)
    ensures "offset" in Meant(f) && Meant(f)["offset"] == IntArg(Paging(f).value.1)
  {
  }

  /** The head and the where-clauses, joined with spaces, bind the entries' arguments. */
  lemma {:induction false} HeadWhereBound(head: string, f: Filters)
    requires DistinctKeys(Entries(f.search)) && DistinctKeys(Entries(f.inFilter))
    ensures var wp := WhereParts(f);
            BoundFrom(JoinPieces([[Lit(head)]] + (if wp != [] then [[Lit("where")], JoinPieces(wp, " and ")] else []), " "),
                      ManyArgs(f)[..|wp|], 0, Meant(f))
  {
    var wp := WhereParts(f);
    var meant := Meant(f);
    var whereArgs := ManyArgs(f)[..|wp|];
    var g0: seq<seq<Piece>> := [[Lit(head)]];
    LitBound(head, 0, meant);
    assert JoinPieces(g0, " ") == [Lit(head)];
    if wp != [] {
      WhereBound(f);
      LitBound("where", 0, meant);
      BoundJoinSnoc(g0, [Lit("where")], [], [], " ", meant);
      BoundJoinSnoc(g0 + [[Lit("where")]], JoinPieces(wp, " and "), [], whereArgs, " ", meant);
      assert [] + whereArgs == whereArgs;
      assert g0 + [[Lit("where")]] + [JoinPieces(wp, " and ")] == g0 + [[Lit("where")], JoinPieces(wp, " and ")];
    } else {
      assert whereArgs == [];
      assert g0 + [] == g0;
    }
  }

  /** The paging part's literals are plain. */
  lemma {:induction false} PagingPlain(n: nat)
    requires n >= 1
    ensures PlainLiterals(PagingPart(n))
  {
    var pp := PagingPart(n);
    assert '$' !in "limit " && 'l' == "limit "[0];
    assert '$' !in " offset " && ' ' == " offset "[0];
    assert forall i :: 0 <= i < |pp| && pp[i].Lit? ==> pp[i].text in {"limit ", " offset "};
  }

  /** With plain names, every literal of GetMany's statement is plain. */
  lemma {:induction false} ManyPlain(head: string, f: Filters)
    requires PlainName(head)
    requires PlainKeys(Entries(f.search)) && PlainKeys(Entries(f.inFilter))
    ensures PlainLiterals(ManyPieces(head, f))
  {
    var gs := ManyGroups(head, f);
    var wp := WhereParts(f);
    var w := if wp != [] then [[Lit("where")], JoinPieces(wp, " and ")] else [];
    var p := if Paging(f).Some? then [PagingPart(|ManyArgs(f)|)] else [];
    assert gs == [[Lit(head)]] + w + p;
    assert PlainLiterals([Lit(head)]);
    if wp != [] {
      WherePlain(f);
    }
    assert PlainLiterals([Lit("where")]) by { assert '$' !in "where" && 'w' == "where"[0]; }
    if Paging(f).Some? {
      PagingPlain(|ManyArgs(f)|);
    }
    assert forall j :: 0 <= j < |w| ==> PlainLiterals(w[j]);
    assert forall j :: 0 <= j < |p| ==> PlainLiterals(p[j]);
    assert forall j :: 0 <= j < |gs| ==> PlainLiterals(gs[j]) by {
      forall j | 0 <= j < |gs| ensures PlainLiterals(gs[j]) {
        if j == 0 {
        } else if j < 1 + |w| {
          assert gs[j] == w[j - 1];
        } else {
          assert gs[j] == p[j - 1 - |w|];
        }
      }
    }
    assert '$' !in " " && ' ' == " "[0];
    JoinPlain(gs, " ");
  }

  /** With paging, the limit and offset references bind the last two arguments after the where-clauses. */
  lemma {:induction false} PagedBound(head: string, f: Filters)
    requires DistinctKeys(Entries(f.search)) && DistinctKeys(Entries(f.inFilter))
    requires Paging(f).Some?
    ensures BoundFrom(ManyPieces(head, f), ManyArgs(f), 0, Meant(f))
  {
    var wp := WhereParts(f);
    var args := ManyArgs(f);
    var g1 := [[Lit(head)]] + (if wp != [] then [[Lit("where")], JoinPieces(wp, " and ")] else []);
    HeadWhereBound(head, f);
    var n := |args|;
    MeantPaging(f);
    PagingPartBound(n, Paging(f).value.0, Paging(f).value.1, Meant(f));
    var pa := [IntArg(Paging(f).value.0), IntArg(Paging(f).value.1)];
    assert |wp| == |Entries(f.search)| + |Entries(f.inFilter)| == n - 2;
    assert BoundFrom(JoinPieces(g1, " "), args[..|wp|], 0, Meant(f));
    assert BoundFrom(PagingPart(n), pa, |args[..|wp|]|, Meant(f));
    BoundJoinSnoc(g1, PagingPart(n), args[..|wp|], pa, " ", Meant(f));
    assert args[..|wp|] + pa == args;
    assert g1 + [PagingPart(n)] == ManyGroups(head, f);
  }

  /** Without paging, the head and the where-clauses are the whole statement. */
  lemma {:induction false} UnpagedBound(head: string, f: Filters)
    requires DistinctKeys(Entries(f.search)) && DistinctKeys(Entries(f.inFilter))
    requires Paging(f).None?
    ensures BoundFrom(ManyPieces(head, f), ManyArgs(f), 0, Meant(f))
  {
    var wp := WhereParts(f);
    var args := ManyArgs(f);
    var g1 := [[Lit(head)]] + (if wp != [] then [[Lit("where")], JoinPieces(wp, " and ")] else []);
    HeadWhereBound(head, f);
    assert args[..|wp|] == args;
    assert ManyGroups(head, f) == g1 + [];
    assert g1 + [] == g1;
  }

  /**
   * GetMany's statement is well bound: its references are $1..$len(args) in
   * order, each search and `in` entry's reference numbers that entry's value,
   * and `limit` and `offset` number the page size and (page-1)*page size.
   */
  lemma {:induction false} GetManyWellBound(head: string, f: Filters)
    requires PlainName(head)
    requires DistinctKeys(Entries(f.search)) && DistinctKeys(Entries(f.inFilter))
    requires PlainKeys(Entries(f.search)) && PlainKeys(Entries(f.inFilter))
    ensures WellBound(ManyPieces(head, f), ManyArgs(f), Meant(f))
    ensures Placeholders(Render(ManyPieces(head, f))) == Range(1, |ManyArgs(f)| + 1)
  {
    if Paging(f).Some? {
      PagedBound(head, f);
    } else {
      UnpagedBound(head, f);
    }
    ManyPlain(head, f);
    PlaceholdersOfRender(ManyPieces(head, f));
  }
}
