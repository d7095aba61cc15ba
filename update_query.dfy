/**
 * The UPDATE statements the stores send for a record: a `set` list whose
 * assignments take consecutive `$n`, followed by `where id = $n and version = $n+1`,
 * the optimistic-concurrency condition.
 */
module UpdateQuery {
  import opened Text
  import opened SqlText

  /** One assignment `column = $n` and the argument it is to take. */
  datatype Field = Field(column: string, arg: Arg)

  /** `, column = $n` for each field, numbered from `first`, in order. */
  function SetPieces(fields: seq<Field>, first: nat): (ps: seq<Piece>)
    ensures |ps| == 2 * |fields|
    decreases |fields|
  {
    if fields == [] then []
    else
      var f := fields[|fields| - 1];
      SetPieces(fields[..|fields| - 1], first) + [Lit(", " + f.column + " = "), Ref(f.column, first + |fields| - 1)]
  }

  /** The arguments of the fields, in order. */
  function FieldArgs(fields: seq<Field>): (args: seq<Arg>)
    ensures |args| == |fields| && forall j :: 0 <= j < |fields| ==> args[j] == fields[j].arg
  {
    seq(|fields|, j requires 0 <= j < |fields| => fields[j].arg)
  }

  /** What each field's column is meant to be set to. */
  function FieldsMeant(fields: seq<Field>): map<string, Arg>
    decreases |fields|
  {
    if fields == [] then map[]
    else FieldsMeant(fields[..|fields| - 1])[fields[|fields| - 1].column := fields[|fields| - 1].arg]
  }

  /** `where id = $n and version = $n+1 returning ...` */
  function Tail(n: nat, returning: string): seq<Piece> {
    [Lit(" where id = "), Ref("id", n), Lit(" and version = "), Ref("version", n + 1), Lit(" returning " + returning)]
  }

  /** The statement PartialUpdate assembles: updated_at is $1, the present fields follow, then id and version. */
  function PartialPieces(table: string, fields: seq<Field>, returning: string): seq<Piece> {
    PartialHead(table) + SetPieces(fields, 2) + Tail(|fields| + 2, returning)
  }

  function PartialHead(table: string): seq<Piece> {
    [Lit("update " + table + " set updated_at = "), Ref("updated_at", 1), Lit(", version = version + 1")]
  }

  /** The arguments PartialUpdate passes: the time, the present fields' values, the id and the version. */
  function PartialArgs(now: int, fields: seq<Field>, id: int, version: int): seq<Arg> {
    [TimeArg(now)] + FieldArgs(fields) + [IntArg(id), IntArg(version)]
  }

  /** The statement Update sends: every field in order from $1, then id and version. */
  function FullPieces(table: string, fields: seq<Field>, returning: string): seq<Piece>
    requires fields != []
  {
    FullHead(table, fields[0]) + SetPieces(fields[1..], 2) + FullTail(|fields| + 1, returning)
  }

  function FullArgs(fields: seq<Field>, id: int, version: int): seq<Arg> {
    FieldArgs(fields) + [IntArg(id), IntArg(version)]
  }

  /** What each reference of an update statement is meant to number. */
  function Meant(fields: seq<Field>, id: int, version: int): map<string, Arg> {
    FieldsMeant(fields)["id" := IntArg(id)]["version" := IntArg(version)]
  }

  /** The columns of the fields, none of them `id` or `version`, all different, all plain names. */
  predicate GoodColumns(fields: seq<Field>) {
    && (forall j :: 0 <= j < |fields| ==> fields[j].column != "id" && fields[j].column != "version")
    && (forall j, k :: 0 <= j < k < |fields| ==> fields[j].column != fields[k].column)
    && (forall j :: 0 <= j < |fields| ==> '$' !in fields[j].column)
  }

  /** Every field's column is one of `names`. */
  predicate ColumnsIn(fields: seq<Field>, names: set<string>) {
    forall j :: 0 <= j < |fields| ==> fields[j].column in names
  }

  /** Appending a field whose column is new and usable keeps the columns good. */
  lemma SnocGood(fields: seq<Field>, f: Field, names: set<string>)
    requires GoodColumns(fields) && ColumnsIn(fields, names) && f.column !in names
    requires f.column != "id" && f.column != "version" && '$' !in f.column
    ensures GoodColumns(fields + [f]) && ColumnsIn(fields + [f], names + {f.column})
  {
    var fs := fields + [f];
    forall j | 0 <= j < |fields| ensures fs[j] == fields[j] { }
  }

  lemma {:induction false} FieldsMeantAt(fields: seq<Field>, j: nat)
    requires GoodColumns(fields) && j < |fields|
    ensures fields[j].column in FieldsMeant(fields) && FieldsMeant(fields)[fields[j].column] == fields[j].arg
    decreases |fields|
  {
    if j < |fields| - 1 {
      var init := fields[..|fields| - 1];
      assert init[j] == fields[j];
      assert GoodColumns(init) by {
        forall a | 0 <= a < |init| ensures init[a] == fields[a] { }
      }
      FieldsMeantAt(init, j);
    }
  }

  /** `lit $n` binds one argument, the one meant for the reference's column. */
  lemma PairBound(t: string, column: string, arg: Arg, base: nat, meant: map<string, Arg>)
    requires column in meant && meant[column] == arg
    ensures BoundFrom([Lit(t), Ref(column, base + 1)], [arg], base, meant)
  {
    LitBound(t, base, meant);
    RefBound(column, arg, base, meant);
    BoundAppend([Lit(t)], [], [Ref(column, base + 1)], [arg], base, meant);
    assert [Lit(t)] + [Ref(column, base + 1)] == [Lit(t), Ref(column, base + 1)];
    assert [] + [arg] == [arg];
  }

  lemma SetSnocBound(ps: seq<Piece>, args: seq<Arg>, f: Field, first: nat, meant: map<string, Arg>)
    requires first >= 1
    requires BoundFrom(ps, args, first - 1, meant)
    requires f.column in meant && meant[f.column] == f.arg
    ensures BoundFrom(ps + [Lit(", " + f.column + " = "), Ref(f.column, first + |args|)], args + [f.arg], first - 1, meant)
  {
    PairBound(", " + f.column + " = ", f.column, f.arg, first - 1 + |args|, meant);
    BoundAppend(ps, args, [Lit(", " + f.column + " = "), Ref(f.column, first + |args|)], [f.arg], first - 1, meant);
  }

  /** One more field keeps the assignments bound. */
  lemma SetBoundStep(init: seq<Field>, f: Field, first: nat, meant: map<string, Arg>)
    requires first >= 1
    requires BoundFrom(SetPieces(init, first), FieldArgs(init), first - 1, meant)
    requires f.column in meant && meant[f.column] == f.arg
    ensures BoundFrom(SetPieces(init + [f], first), FieldArgs(init + [f]), first - 1, meant)
  {
    SetSnocBound(SetPieces(init, first), FieldArgs(init), f, first, meant);
    FieldArgsSnoc(init, f);
    assert (init + [f])[..|init + [f]| - 1] == init;
  }

  /** Each field's reference binds its value, in order, after `first - 1` others. */
  lemma {:induction false} SetBound(fields: seq<Field>, first: nat, meant: map<string, Arg>)
    requires first >= 1
    requires forall j :: 0 <= j < |fields| ==> fields[j].column in meant && meant[fields[j].column] == fields[j].arg
    ensures BoundFrom(SetPieces(fields, first), FieldArgs(fields), first - 1, meant)
    decreases |fields|
  {
    if fields == [] {
      assert Indices([]) == [];
    } else {
      var init := fields[..|fields| - 1];
      var f := fields[|fields| - 1];
      forall j | 0 <= j < |init| ensures init[j].column in meant && meant[init[j].column] == init[j].arg {
        assert init[j] == fields[j];
      }
      SetBound(init, first, meant);
      SetBoundStep(init, f, first, meant);
      assert init + [f] == fields;
    }
  }

  lemma {:induction false} SetPlain(fields: seq<Field>, first: nat)
    requires forall j :: 0 <= j < |fields| ==> '$' !in fields[j].column
    ensures PlainLiterals(SetPieces(fields, first))
    decreases |fields|
  {
    if fields != [] {
      var init := fields[..|fields| - 1];
      forall j | 0 <= j < |init| ensures '$' !in init[j].column {
        assert init[j] == fields[j];
      }
      SetPlain(init, first);
      var f := fields[|fields| - 1];
      assert '$' !in ", " + f.column + " = " by {
        assert forall c :: c in ", " + f.column + " = " ==> c in ", " || c in f.column || c in " = ";
      }
      PlainAppend(SetPieces(init, first), [Lit(", " + f.column + " = "), Ref(f.column, first + |fields| - 1)]);
    }
  }

  lemma TailIndices(n: nat, returning: string)
    ensures Indices(Tail(n, returning)) == [n, n + 1]
  {
    var ps := Tail(n, returning);
    assert Indices(ps[4..]) == [] by { assert ps[4..] == [Lit(" returning " + returning)]; }
    assert Indices(ps[3..]) == [n + 1] by { assert ps[3..][1..] == ps[4..]; }
    assert Indices(ps[2..]) == [n + 1] by { assert ps[2..][1..] == ps[3..]; }
    assert Indices(ps[1..]) == [n, n + 1] by { assert ps[1..][1..] == ps[2..]; }
  }

  /** The where-clause binds the id and the version as the next two arguments. */
  lemma TailBound(n: nat, id: int, version: int, returning: string, meant: map<string, Arg>)
    requires n >= 1
    requires "id" in meant && meant["id"] == IntArg(id)
    requires "version" in meant && meant["version"] == IntArg(version)
    ensures BoundFrom(Tail(n, returning), [IntArg(id), IntArg(version)], n - 1, meant)
  {
    var ps := Tail(n, returning);
    var args := [IntArg(id), IntArg(version)];
    TailIndices(n, returning);
    assert Range(n, n + 2) == [n, n + 1];
    forall i | 0 <= i < |ps| && ps[i].Ref?
      ensures n - 1 < ps[i].index <= n + 1 && ps[i].column in meant && args[ps[i].index - n] == meant[ps[i].column]
    {
      assert i == 1 || i == 3;
    }
  }

  lemma MeantFixed(fields: seq<Field>, id: int, version: int)
    ensures "id" in Meant(fields, id, version) && Meant(fields, id, version)["id"] == IntArg(id)
    ensures "version" in Meant(fields, id, version) && Meant(fields, id, version)["version"] == IntArg(version)
  {
  }

  lemma {:induction false} MeantFields(fields: seq<Field>, id: int, version: int)
    requires GoodColumns(fields)
    ensures forall j :: 0 <= j < |fields| ==>
              fields[j].column in Meant(fields, id, version) && Meant(fields, id, version)[fields[j].column] == fields[j].arg
  {
    forall j | 0 <= j < |fields|
      ensures fields[j].column in Meant(fields, id, version) && Meant(fields, id, version)[fields[j].column] == fields[j].arg
    {
      FieldsMeantAt(fields, j);
    }
  }

  lemma NoDollar2(a: string, b: string)
    requires '$' !in a && '$' !in b
    ensures '$' !in a + b
  {
    assert forall ch :: ch in a + b ==> ch in a || ch in b;
  }

  lemma NoDollar(a: string, b: string, c: string)
    requires '$' !in a && '$' !in b && '$' !in c
    ensures '$' !in a + b + c
  {
    assert forall ch :: ch in a + b + c ==> ch in a || ch in b || ch in c;
  }

  /** What the fields, the time, the id and the version are meant to be bound to, column by column. */
  predicate MeansFields(fields: seq<Field>, meant: map<string, Arg>) {
    forall j :: 0 <= j < |fields| ==> fields[j].column in meant && meant[fields[j].column] == fields[j].arg
  }

  predicate MeansKeys(id: int, version: int, meant: map<string, Arg>) {
    && "id" in meant && meant["id"] == IntArg(id)
    && "version" in meant && meant["version"] == IntArg(version)
  }

  lemma PartialHeadBound(table: string, now: int, meant: map<string, Arg>)
    requires "updated_at" in meant && meant["updated_at"] == TimeArg(now)
    ensures BoundFrom(PartialHead(table), [TimeArg(now)], 0, meant)
  {
    var head := PartialHead(table);
    assert Indices(head[2..]) == [] by { assert head[2..] == [Lit(", version = version + 1")]; }
    assert Indices(head[1..]) == [1] by { assert head[1..][1..] == head[2..]; }
  }

  /** A literal that holds no `$` and does not start with a digit. */
  predicate PlainText(t: string) {
    '$' !in t && (t == [] || !IsDigit(t[0]))
  }

  lemma PlainLitRefLit(a: string, column: string, n: nat, b: string)
    requires PlainText(a) && PlainText(b)
    ensures PlainLiterals([Lit(a), Ref(column, n), Lit(b)])
  {
  }

  lemma PartialHeadPlain(table: string)
    requires '$' !in table
    ensures PlainLiterals(PartialHead(table))
  {
    NoDollar("update ", table, " set updated_at = ");
    assert PlainText(", version = version + 1");
    PlainLitRefLit("update " + table + " set updated_at = ", "updated_at", 1, ", version = version + 1");
  }

  lemma TailPlain(n: nat, returning: string)
    requires '$' !in returning
    ensures PlainLiterals(Tail(n, returning))
  {
    NoDollar(" returning ", returning, "");
    assert " returning " + returning + "" == " returning " + returning;
    assert PlainText(" where id = ");
    PlainLitRefLit(" where id = ", "id", n, " and version = ");
    PlainLitRefLit(" and version = ", "version", n + 1, " returning " + returning);
    PlainAppend([Lit(" where id = "), Ref("id", n)], [Lit(" and version = "), Ref("version", n + 1), Lit(" returning " + returning)]);
    assert Tail(n, returning)
        == [Lit(" where id = "), Ref("id", n)] + [Lit(" and version = "), Ref("version", n + 1), Lit(" returning " + returning)];
  }

  lemma {:induction false} PartialBinds(table: string, fields: seq<Field>, returning: string, now: int, id: int, version: int,
                                        meant: map<string, Arg>)
    requires MeansFields(fields, meant) && MeansKeys(id, version, meant)
    requires "updated_at" in meant && meant["updated_at"] == TimeArg(now)
    ensures BoundFrom(PartialPieces(table, fields, returning), PartialArgs(now, fields, id, version), 0, meant)
  {
    var head := PartialHead(table);
    PartialHeadBound(table, now, meant);
    SetBound(fields, 2, meant);
    TailBound(|fields| + 2, id, version, returning, meant);
    assert 0 + |[TimeArg(now)]| + |FieldArgs(fields)| == |fields| + 1;
    BoundAppend3(head, [TimeArg(now)], SetPieces(fields, 2), FieldArgs(fields), Tail(|fields| + 2, returning),
                 [IntArg(id), IntArg(version)], 0, meant);
  }

  lemma {:induction false} PartialPlain(table: string, fields: seq<Field>, returning: string)
    requires forall j :: 0 <= j < |fields| ==> '$' !in fields[j].column
    requires '$' !in table && '$' !in returning
    ensures PlainLiterals(PartialPieces(table, fields, returning))
  {
    PartialHeadPlain(table);
    SetPlain(fields, 2);
    TailPlain(|fields| + 2, returning);
    PlainAppend(PartialHead(table), SetPieces(fields, 2));
    PlainAppend(PartialHead(table) + SetPieces(fields, 2), Tail(|fields| + 2, returning));
  }

  lemma {:induction false} PartialMeant(fields: seq<Field>, now: int, id: int, version: int)
    requires GoodColumns(fields) && forall j :: 0 <= j < |fields| ==> fields[j].column != "updated_at"
    ensures var meant := Meant(fields, id, version)["updated_at" := TimeArg(now)];
            && MeansFields(fields, meant) && MeansKeys(id, version, meant)
            && "updated_at" in meant && meant["updated_at"] == TimeArg(now)
  {
    MeantFields(fields, id, version);
    MeantFixed(fields, id, version);
  }

  /**
   * A partial update's statement is well bound: updated_at numbers the time,
   * each present field's reference numbers its value, id and version number
   * the last two arguments, and the references are $1..$len(args) in order.
   */
  lemma {:induction false} PartialWellBound(table: string, fields: seq<Field>, returning: string, now: int, id: int, version: int)
    requires GoodColumns(fields) && forall j :: 0 <= j < |fields| ==> fields[j].column != "updated_at"
    requires '$' !in table && '$' !in returning
    ensures var args := PartialArgs(now, fields, id, version);
            && |args| == |fields| + 3
            && WellBound(PartialPieces(table, fields, returning), args, Meant(fields, id, version)["updated_at" := TimeArg(now)])
            && Placeholders(Render(PartialPieces(table, fields, returning))) == Range(1, |args| + 1)
  {
    PartialMeant(fields, now, id, version);
    PartialBinds(table, fields, returning, now, id, version, Meant(fields, id, version)["updated_at" := TimeArg(now)]);
    PartialPlain(table, fields, returning);
    PlaceholdersOfRender(PartialPieces(table, fields, returning));
  }

  function FullHead(table: string, f0: Field): seq<Piece> {
    [Lit("update " + table + " set " + f0.column + " = "), Ref(f0.column, 1)]
  }

  function FullTail(n: nat, returning: string): seq<Piece> {
    [Lit(", version = version + 1")] + Tail(n, returning)
  }

  lemma FullTailBound(n: nat, id: int, version: int, returning: string, meant: map<string, Arg>)
    requires n >= 1 && MeansKeys(id, version, meant)
    ensures BoundFrom(FullTail(n, returning), [IntArg(id), IntArg(version)], n - 1, meant)
  {
    TailBound(n, id, version, returning, meant);
    LitPrefixBound(", version = version + 1", Tail(n, returning), [IntArg(id), IntArg(version)], n - 1, meant);
  }

  lemma {:induction false} FullBinds(table: string, fields: seq<Field>, returning: string, id: int, version: int,
                                     meant: map<string, Arg>)
    requires fields != [] && MeansFields(fields, meant) && MeansKeys(id, version, meant)
    ensures BoundFrom(FullPieces(table, fields, returning), FullArgs(fields, id, version), 0, meant)
  {
    var f0 := fields[0];
    var rest := fields[1..];
    var head := FullHead(table, f0);
    FullHeadBound(table, fields, meant);
    MeansRest(fields, meant);
    SetBound(rest, 2, meant);
    FullTailBound(|fields| + 1, id, version, returning, meant);
    BoundAppend3(head, [f0.arg], SetPieces(rest, 2), FieldArgs(rest), FullTail(|fields| + 1, returning),
                 [IntArg(id), IntArg(version)], 0, meant);
    FieldArgsCons(fields);
  }

  lemma FullHeadBound(table: string, fields: seq<Field>, meant: map<string, Arg>)
    requires fields != [] && MeansFields(fields, meant)
    ensures BoundFrom(FullHead(table, fields[0]), [fields[0].arg], 0, meant)
  {
    var f0 := fields[0];
    assert f0.column in meant && meant[f0.column] == f0.arg;
    var head := FullHead(table, f0);
    assert Indices(head[1..]) == [1] by { assert head[1..] == [Ref(f0.column, 1)]; }
  }

  lemma MeansRest(fields: seq<Field>, meant: map<string, Arg>)
    requires fields != [] && MeansFields(fields, meant)
    ensures MeansFields(fields[1..], meant)
  {
    var rest := fields[1..];
    forall j | 0 <= j < |rest| ensures rest[j].column in meant && meant[rest[j].column] == rest[j].arg {
      assert rest[j] == fields[j + 1];
    }
  }

  lemma FieldArgsCons(fields: seq<Field>)
    requires fields != []
    ensures [fields[0].arg] + FieldArgs(fields[1..]) == FieldArgs(fields)
  {
    var l, r := [fields[0].arg] + FieldArgs(fields[1..]), FieldArgs(fields);
    assert |l| == |r|;
    forall j | 0 <= j < |l| ensures l[j] == r[j] {
      if j > 0 {
        assert fields[1..][j - 1] == fields[j];
      }
    }
  }

  lemma {:induction false} FullPlain(table: string, fields: seq<Field>, returning: string)
    requires fields != [] && forall j :: 0 <= j < |fields| ==> '$' !in fields[j].column
    requires '$' !in table && '$' !in returning
    ensures PlainLiterals(FullPieces(table, fields, returning))
  {
    var f0 := fields[0];
    var rest := fields[1..];
    assert PlainLiterals(FullHead(table, f0)) by {
      NoDollar("update ", table, " set ");
      NoDollar("update " + table + " set ", f0.column, " = ");
    }
    forall j | 0 <= j < |rest| ensures '$' !in rest[j].column {
      assert rest[j] == fields[j + 1];
    }
    SetPlain(rest, 2);
    TailPlain(|fields| + 1, returning);
    PlainAppend([Lit(", version = version + 1")], Tail(|fields| + 1, returning));
    PlainAppend(FullHead(table, f0), SetPieces(rest, 2));
    PlainAppend(FullHead(table, f0) + SetPieces(rest, 2), FullTail(|fields| + 1, returning));
  }

  /** An update's statement over all its fields is well bound in the same way. */
  lemma {:induction false} FullWellBound(table: string, fields: seq<Field>, returning: string, id: int, version: int)
    requires fields != [] && GoodColumns(fields)
    requires '$' !in table && '$' !in returning
    ensures var args := FullArgs(fields, id, version);
            && |args| == |fields| + 2
            && WellBound(FullPieces(table, fields, returning), args, Meant(fields, id, version))
            && Placeholders(Render(FullPieces(table, fields, returning))) == Range(1, |args| + 1)
  {
    MeantFields(fields, id, version);
    MeantFixed(fields, id, version);
    FullBinds(table, fields, returning, id, version, Meant(fields, id, version));
    FullPlain(table, fields, returning);
    PlaceholdersOfRender(FullPieces(table, fields, returning));
  }

  /** The text `fmt.Sprintf(", column = $%d", n)` appends. */
  function Assignment(column: string, n: nat): string {
    (", " + column + " = ") + ("$" + Itoa(n))
  }

  /** The closing text the last `fmt.Sprintf` appends: the id and version conditions and the returned columns. */
  function WhereClause(n: nat, returning: string): string {
    " where id = " + ("$" + Itoa(n) + (" and version = " + ("$" + Itoa(n + 1) + (" returning " + returning))))
  }

  /** The text a partial update's statement starts with: updated_at is `$1`. */
  function Opening(table: string): string {
    ("update " + table + " set updated_at = ") + ("$" + Itoa(1) + ", version = version + 1")
  }

  /** The text of the where-clause, as the final `query += fmt.Sprintf(...)` writes it. */
  lemma TailText(n: nat, returning: string)
    ensures Render(Tail(n, returning)) == WhereClause(n, returning)
  {
    Render5(Lit(" where id = "), Ref("id", n), Lit(" and version = "), Ref("version", n + 1), Lit(" returning " + returning));
  }

  /** The text the statement starts with, before any field is added. */
  lemma HeadText(table: string)
    ensures Render(PartialHead(table)) == Opening(table)
  {
    Render3(Lit("update " + table + " set updated_at = "), Ref("updated_at", 1), Lit(", version = version + 1"));
  }

  /** Appending one more assignment to the statement text, as `query += fmt.Sprintf(", col = $%d", i)` does. */
  lemma {:induction false} RenderSetSnoc(head: seq<Piece>, fields: seq<Field>, f: Field, first: nat)
    ensures Render(head + SetPieces(fields + [f], first))
         == Render(head + SetPieces(fields, first)) + Assignment(f.column, first + |fields|)
  {
    var fs := fields + [f];
    assert fs[..|fs| - 1] == fields;
    var step := [Lit(", " + f.column + " = "), Ref(f.column, first + |fields|)];
    assert head + SetPieces(fs, first) == (head + SetPieces(fields, first)) + step;
    RenderAppend(head + SetPieces(fields, first), step);
    Render2(step[0], step[1]);
  }

  /** The text and the arguments so far: the opening, then the assignments of `fields` and their values. */
  ghost predicate Built(table: string, fields: seq<Field>, query: string, args: seq<Arg>, now: int) {
    query == Render(PartialHead(table) + SetPieces(fields, 2)) && args == [TimeArg(now)] + FieldArgs(fields)
  }

  /** Before any field is added the statement is its opening and the only argument the time. */
  lemma PartialStart(table: string, now: int)
    ensures Built(table, [], Opening(table), [TimeArg(now)], now)
  {
    assert PartialHead(table) + SetPieces([], 2) == PartialHead(table);
    HeadText(table);
  }

  /** One `query += ", column = $i"` and `args = append(args, value)` step keeps the text and the arguments in step. */
  lemma PartialSnoc(table: string, fields: seq<Field>, f: Field, query: string, args: seq<Arg>, now: int)
    requires Built(table, fields, query, args, now)
    ensures Built(table, fields + [f], query + Assignment(f.column, |fields| + 2), args + [f.arg], now)
  {
    RenderSetSnoc(PartialHead(table), fields, f, 2);
    FieldArgsSnoc(fields, f);
    ArgsAssoc([TimeArg(now)], FieldArgs(fields), [f.arg]);
  }

  /**
   * One present field's step of a partial update: `query += ", column = $i"`,
   * `args = append(args, value)`, `i++`; the text and the arguments stay in step.
   */
  method AppendField(ghost table: string, ghost fields: seq<Field>, f: Field, query: string, args: seq<Arg>, i: nat, ghost now: int)
    returns (query': string, args': seq<Arg>, i': nat)
    requires Built(table, fields, query, args, now) && i == |fields| + 2
    ensures Built(table, fields + [f], query', args', now) && i' == |fields + [f]| + 2
  {
    PartialSnoc(table, fields, f, query, args, now);
    query' := query + Assignment(f.column, i);
    args' := args + [f.arg];
    i' := i + 1;
  }

  lemma ArgsAssoc(a: seq<Arg>, b: seq<Arg>, c: seq<Arg>)
    ensures a + (b + c) == a + b + c
  {
  }

  lemma FieldArgsSnoc(fields: seq<Field>, f: Field)
    ensures FieldArgs(fields + [f]) == FieldArgs(fields) + [f.arg]
  {
    var l, r := FieldArgs(fields + [f]), FieldArgs(fields) + [f.arg];
    assert |l| == |r|;
    forall j | 0 <= j < |l| ensures l[j] == r[j] {
      if j < |fields| {
        assert (fields + [f])[j] == fields[j];
      }
    }
  }

  /** The closing clause and the id and version complete the statement and its arguments. */
  lemma PartialFinish(table: string, fields: seq<Field>, query: string, args: seq<Arg>, now: int,
                      returning: string, id: int, version: int, n: nat)
    requires Built(table, fields, query, args, now) && n == |fields| + 2
    ensures query + WhereClause(n, returning) == Render(PartialPieces(table, fields, returning))
    ensures args + [IntArg(id), IntArg(version)] == PartialArgs(now, fields, id, version)
  {
    RenderAppend(PartialHead(table) + SetPieces(fields, 2), Tail(|fields| + 2, returning));
    TailText(|fields| + 2, returning);
  }
}
