/**
 * The companies table and the statements CompanyModel sends it: the version
 * lookup, the insert, the paged list, the full and the partial update with
 * their version check, and the delete. The table is a map from id to row. An
 * error the database reports for a statement (a constraint it violates, a lost
 * connection) is the parameter `fault`, the regular-expression engine is `re`,
 * and the current instant is `now`.
 */
module CompanyStore {
  import opened Base
  import opened GoErrors
  import opened SqlText
  import opened Filters
  import opened Companies
  import opened UpdateQuery
  import DataErrors
  import ListQuery
  import ListMeta

  /**
   * The regular expression a driver error's text is matched with to spot a
   * unique-key violation. It is valid RE2 syntax, so the statements that map it
   * (Insert and Update) take an engine that compiles it.
   */
  const DuplicateKeyPattern: string := ".*duplicate key.*"

  /** The ErrorMap of each statement, in the order the range loop visits it. */
  const NotFoundMap: seq<Entry> := [Entry(ErrorKey(ErrNoRows), DataErrors.ErrRecordNotFound)]
  const InsertMap: seq<Entry> := [Entry(PatternKey(DuplicateKeyPattern), DataErrors.ErrDuplicateKey)]
  const UpdateMap: seq<Entry> :=
    [Entry(ErrorKey(ErrNoRows), DataErrors.ErrEditConflict), Entry(PatternKey(DuplicateKeyPattern), DataErrors.ErrDuplicateKey)]
  const PartialMap: seq<Entry> := [Entry(ErrorKey(ErrNoRows), DataErrors.ErrEditConflict)]

  /** This package's MapError over a table of error and string keys, which returns rather than panics. */
  function MapErr(err: Option<Error>, table: seq<Entry>, re: Matcher): (r: Option<Error>)
    requires UsableKeys(table, re)
    ensures r.None? <==> err.None?
  {
    DataErrors.MapError(err, table, re).err
  }

  /** What Scan reports for a statement returning at most one row: the database's error, no row, or nil. */
  function ScanError(found: bool, fault: Option<Error>): Option<Error> {
    if fault.Some? then fault else if found then None else Some(ErrNoRows)
  }

  /**
   * A missing row comes out as the statement's sentinel, whatever the regular
   * expressions match: its key comes first, so no pattern is compiled.
   */
  lemma NoRowsMapped(re: Matcher)
    ensures DataErrors.MapError(Some(ErrNoRows), NotFoundMap, re) == Returned(Some(DataErrors.ErrRecordNotFound))
    ensures DataErrors.MapError(Some(ErrNoRows), UpdateMap, re) == Returned(Some(DataErrors.ErrEditConflict))
    ensures DataErrors.MapError(Some(ErrNoRows), PartialMap, re) == Returned(Some(DataErrors.ErrEditConflict))
  {
  }

  /**
   * Any other driver error becomes ErrDuplicateKey where the statement maps the
   * pattern and its text matches, and ErrUnknown otherwise: the original error
   * is never returned.
   */
  lemma {:induction false} DriverErrorMapped(e: Error, re: Matcher)
    requires !Is(e, ErrNoRows)
    ensures MapErr(Some(e), NotFoundMap, re) == Some(DataErrors.ErrUnknown)
    ensures MapErr(Some(e), PartialMap, re) == Some(DataErrors.ErrUnknown)
    ensures Compiles(re, DuplicateKeyPattern) ==>
              MapErr(Some(e), InsertMap, re)
                == if re.matches(DuplicateKeyPattern, GoErrors.Text(e)) then Some(DataErrors.ErrDuplicateKey) else Some(DataErrors.ErrUnknown)
    ensures Compiles(re, DuplicateKeyPattern) ==>
              MapErr(Some(e), UpdateMap, re)
                == if re.matches(DuplicateKeyPattern, GoErrors.Text(e)) then Some(DataErrors.ErrDuplicateKey) else Some(DataErrors.ErrUnknown)
    ensures !Compiles(re, DuplicateKeyPattern) ==>
              DataErrors.MapError(Some(e), InsertMap, re).MapPanic? && DataErrors.MapError(Some(e), UpdateMap, re).MapPanic?
  {
    assert UpdateMap[1..] == InsertMap;
  }

  /** Whether `where id = $n and version = $n+1` finds the row. */
  predicate VersionMatches(rows: map<int, Company>, id: int, version: int) {
    id in rows && rows[id].version == version
  }

  /** The row a matching Update leaves: the caller's name, URL and stack, the time, and the next version. */
  function Updated(stored: Company, company: Company, now: int): Company {
    stored.(name := company.name, url := company.url, techStack := company.techStack,
            updatedAt := now, version := stored.version + 1)
  }

  /**
   * Update when the database reports no error of its own: the table, the
   * caller's company with the returned version scanned into it, and the error.
   * Only the version is scanned back; the caller's updated_at is left as it was.
   */
  function UpdateStep(rows: map<int, Company>, company: Company, now: int): (map<int, Company>, Company, Option<Error>) {
    if VersionMatches(rows, company.id, company.version) then
      var row := Updated(rows[company.id], company, now);
      (rows[company.id := row], company.(version := row.version), None)
    else
      (rows, company, Some(DataErrors.ErrEditConflict))
  }

  /**
   * An update succeeds exactly when the stored version is the caller's; it then
   * stores the caller's fields with the version one higher, hands that version
   * back, and leaves the row's id, creation time and every other row as they were.
   * Otherwise it is an edit conflict and nothing changes.
   */
  lemma UpdateBumpsVersion(rows: map<int, Company>, company: Company, now: int)
    ensures var (rows', c, err) := UpdateStep(rows, company, now);
            && (err.None? <==> VersionMatches(rows, company.id, company.version))
            && (err.None? ==>
                  && rows'.Keys == rows.Keys
                  && rows'[company.id].version == company.version + 1 == c.version
                  && rows'[company.id].id == rows[company.id].id
                  && rows'[company.id].createdAt == rows[company.id].createdAt
                  && rows'[company.id].name == company.name && rows'[company.id].url == company.url
                  && rows'[company.id].techStack == company.techStack
                  && rows'[company.id].updatedAt == now
                  && c == company.(version := company.version + 1)
                  && forall other :: other in rows && other != company.id ==> rows'[other] == rows[other])
            && (err.Some? ==> err == Some(DataErrors.ErrEditConflict) && rows' == rows && c == company)
  {
  }

  /**
   * Optimistic concurrency: once an update went through, sending the same
   * company again is an edit conflict, while sending the company with the
   * version the first update handed back goes through.
   */
  lemma {:induction false} StaleUpdateConflicts(rows: map<int, Company>, company: Company, now: int, later: int)
    requires UpdateStep(rows, company, now).2.None?
    ensures var (rows', c, _) := UpdateStep(rows, company, now);
            && UpdateStep(rows', company, later).2 == Some(DataErrors.ErrEditConflict)
            && UpdateStep(rows', c, later).2.None?
  {
    UpdateBumpsVersion(rows, company, now);
  }

  /**
   * The fields a partial update writes, in the order the statement assigns
   * them: each present one appended in turn to an initially empty list.
   */
  function PartialFields(pc: PartialCompany): (fields: seq<Field>)
    ensures |fields| <= 3
  {
    var fs: seq<Field> := [];
    var fs := if pc.name.Some? then fs + [Field("name", TextArg(pc.name.value))] else fs;
    var fs := if pc.url.Some? then fs + [Field("url", TextArg(pc.url.value))] else fs;
    if pc.techStack.Some? then fs + [Field("tech_stack", ListArg(pc.techStack.value))] else fs
  }

  /** The row a matching partial update leaves: the present fields, the time, and the next version. */
  function Patched(stored: Company, pc: PartialCompany, now: int): Company {
    stored.(name := if pc.name.Some? then pc.name.value else stored.name,
            url := if pc.url.Some? then pc.url.value else stored.url,
            techStack := if pc.techStack.Some? then pc.techStack else stored.techStack,
            updatedAt := now, version := stored.version + 1)
  }

  /** The company PartialUpdate hands back when the statement fails: only its id is set. */
  function Unscanned(id: int): Company {
    Company(id, 0, 0, "", "", None, 0)
  }

  /** PartialUpdate when the database reports no error of its own: the table, the company returned, the error. */
  function PartialStep(rows: map<int, Company>, id: int, version: int, pc: PartialCompany, now: int)
    : (map<int, Company>, Company, Option<Error>)
  {
    if VersionMatches(rows, id, version) then
      var row := Patched(rows[id], pc, now);
      (rows[id := row], row, None)
    else
      (rows, Unscanned(id), Some(DataErrors.ErrEditConflict))
  }

  /**
   * A partial update sets exactly the fields that are present, keeps the
   * others, and always moves updated_at to now and the version up by one,
   * even when no field is present.
   */
  lemma PatchedFields(stored: Company, pc: PartialCompany, now: int)
    ensures var row := Patched(stored, pc, now);
            && (pc.name.Some? ==> row.name == pc.name.value) && (pc.name.None? ==> row.name == stored.name)
            && (pc.url.Some? ==> row.url == pc.url.value) && (pc.url.None? ==> row.url == stored.url)
            && (pc.techStack.Some? ==> row.techStack == pc.techStack) && (pc.techStack.None? ==> row.techStack == stored.techStack)
            && row.id == stored.id && row.createdAt == stored.createdAt
            && row.updatedAt == now && row.version == stored.version + 1
  {
  }

  /** With every field present, a partial update stores what a full Update of those values stores. */
  lemma PatchedAllIsUpdated(stored: Company, pc: PartialCompany, company: Company, now: int)
    requires pc.name == Some(company.name) && pc.url == Some(company.url)
    requires pc.techStack == company.techStack && company.techStack.Some?
    ensures Patched(stored, pc, now) == Updated(stored, company, now)
  {
  }

  /**
   * A partial update goes through exactly when the stored version is the
   * caller's, returns the stored row, and touches no other row; otherwise it is
   * an edit conflict that returns a company holding only the id.
   */
  lemma PartialStepRows(rows: map<int, Company>, id: int, version: int, pc: PartialCompany, now: int)
    ensures var (rows', c, err) := PartialStep(rows, id, version, pc, now);
            && (err.None? <==> VersionMatches(rows, id, version))
            && (err.None? ==> rows'.Keys == rows.Keys && c == rows'[id] == Patched(rows[id], pc, now)
                              && forall other :: other in rows && other != id ==> rows'[other] == rows[other])
            && (err.Some? ==> err == Some(DataErrors.ErrEditConflict) && rows' == rows && c == Unscanned(id))
  {
  }

  /** The columns PartialUpdate returns. */
  const PartialReturning: string := "created_at, updated_at, " + "name, url, tech_stack, version"

  /** The columns a partial update may assign are usable and not updated_at, which the opening assigns. */
  lemma UsableColumns()
    ensures "name" != "id" && "name" != "version" && '$' !in "name"
    ensures "url" != "id" && "url" != "version" && '$' !in "url" && "url" != "name"
    ensures "tech_stack" != "id" && "tech_stack" != "version" && '$' !in "tech_stack"
    ensures "tech_stack" !in {"name", "url"} && "updated_at" !in {"name", "url", "tech_stack"}
  {
  }

  /** A partial update assigns each column at most once, never id, version or updated_at. */
  lemma {:induction false} PartialColumns(pc: PartialCompany)
    ensures GoodColumns(PartialFields(pc))
    ensures forall j :: 0 <= j < |PartialFields(pc)| ==> PartialFields(pc)[j].column != "updated_at"
  {
    UsableColumns();
    var fs: seq<Field> := [];
    if pc.name.Some? {
      SnocGood(fs, Field("name", TextArg(pc.name.value)), {});
      fs := fs + [Field("name", TextArg(pc.name.value))];
    }
    assert GoodColumns(fs) && ColumnsIn(fs, {"name"});
    if pc.url.Some? {
      SnocGood(fs, Field("url", TextArg(pc.url.value)), {"name"});
      fs := fs + [Field("url", TextArg(pc.url.value))];
    }
    assert GoodColumns(fs) && ColumnsIn(fs, {"name", "url"});
    if pc.techStack.Some? {
      SnocGood(fs, Field("tech_stack", ListArg(pc.techStack.value)), {"name", "url"});
      fs := fs + [Field("tech_stack", ListArg(pc.techStack.value))];
    }
    assert GoodColumns(fs) && ColumnsIn(fs, {"name", "url", "tech_stack"});
    assert fs == PartialFields(pc);
  }

  /**
   * PartialUpdate's statement is well bound: `$1` is the time, each present
   * field's reference numbers that field's new value, id and version take the
   * last two numbers, and the numbers run 1..len(args) with len(args) = i+1.
   */
  lemma PartialStatementWellBound(pc: PartialCompany, now: int, id: int, version: int)
    ensures var fields := PartialFields(pc);
            var args := PartialArgs(now, fields, id, version);
            && WellBound(PartialPieces("companies", fields, PartialReturning), args,
                         Meant(fields, id, version)["updated_at" := TimeArg(now)])
            && Placeholders(Render(PartialPieces("companies", fields, PartialReturning))) == Range(1, |args| + 1)
            && |args| == |fields| + 3
  {
    PartialColumns(pc);
    PartialWellBound("companies", PartialFields(pc), PartialReturning, now, id, version);
  }

  /** Each present field's column is meant to take that field's new value. */
  lemma {:induction false} PartialMeant(pc: PartialCompany, id: int, version: int)
    ensures var meant := Meant(PartialFields(pc), id, version);
            && (pc.name.Some? ==> "name" in meant && meant["name"] == TextArg(pc.name.value))
            && (pc.url.Some? ==> "url" in meant && meant["url"] == TextArg(pc.url.value))
            && (pc.techStack.Some? ==> "tech_stack" in meant && meant["tech_stack"] == ListArg(pc.techStack.value))
  {
    var fs := PartialFields(pc);
    PartialColumns(pc);
    MeantFields(fs, id, version);
    if pc.name.Some? {
      assert fs[0] == Field("name", TextArg(pc.name.value));
    }
    if pc.url.Some? {
      var j := if pc.name.Some? then 1 else 0;
      assert fs[j] == Field("url", TextArg(pc.url.value));
    }
    if pc.techStack.Some? {
      assert fs[|fs| - 1] == Field("tech_stack", ListArg(pc.techStack.value));
    }
  }

  /**
   * The first part of PartialUpdate's assembly: the opening with updated_at as
   * `$1`, then one `, column = $i` per present field with i counting up from 2.
   */
  method PartialAssignments(partial: PartialCompany, now: int) returns (query: string, args: seq<Arg>, i: nat)
    ensures Built("companies", PartialFields(partial), query, args, now)
    ensures i == |PartialFields(partial)| + 2
  {
    var table := "companies";
    query := Opening(table);
    args := [TimeArg(now)];
    PartialStart(table, now);
    i := 2;
    ghost var fields: seq<Field> := [];
    if partial.name.Some? {
      var f := Field("name", TextArg(partial.name.value));
      query, args, i := AppendField(table, fields, f, query, args, i, now);
      fields := fields + [f];
    }
    if partial.url.Some? {
      var f := Field("url", TextArg(partial.url.value));
      query, args, i := AppendField(table, fields, f, query, args, i, now);
      fields := fields + [f];
    }
    if partial.techStack.Some? {
      var f := Field("tech_stack", ListArg(partial.techStack.value));
      query, args, i := AppendField(table, fields, f, query, args, i, now);
      fields := fields + [f];
    }
  }

  /**
   * PartialUpdate's statement and arguments: the assignments of the present
   * fields, then the closing where-clause with id and version as `$i` and `$i+1`.
   */
  method PartialUpdateQuery(id: int, version: int, partial: PartialCompany, now: int) returns (query: string, args: seq<Arg>)
    ensures query == Render(PartialPieces("companies", PartialFields(partial), PartialReturning))
    ensures args == PartialArgs(now, PartialFields(partial), id, version)
  {
    var i;
    query, args, i := PartialAssignments(partial, now);
    PartialFinish("companies", PartialFields(partial), query, args, now, PartialReturning, id, version, i);
    query := query + WhereClause(i, PartialReturning);
    args := args + [IntArg(id), IntArg(version)];
  }

  /** The Update statement: the three fields and the time as `$1`..`$4`, then id and version. */
  function UpdateFields(company: Company, now: int): seq<Field> {
    [Field("name", TextArg(company.name)), Field("url", TextArg(company.url)),
     Field("tech_stack", ListArg(Items(company.techStack))), Field("updated_at", TimeArg(now))]
  }

  /** Update's fixed statement numbers its six arguments in order, each for its own column. */
  lemma UpdateStatementWellBound(company: Company, now: int)
    ensures var fields := UpdateFields(company, now);
            var args := FullArgs(fields, company.id, company.version);
            && WellBound(FullPieces("companies", fields, "version"), args, Meant(fields, company.id, company.version))
            && Placeholders(Render(FullPieces("companies", fields, "version"))) == Range(1, 7)
            && |args| == 6
  {
    var fields := UpdateFields(company, now);
    assert GoodColumns(fields);
    FullWellBound("companies", fields, "version", company.id, company.version);
  }

  /** GetMany's select list and table. */
  const ListHead: string :=
    ("select count(*) " + "over (), id, " + "created_at, " + "updated_at, ")
    + ("name, url, " + "tech_stack, " + "version from " + "companies")

  /**
   * GetMany: the assembled statement goes to the database `db`; its error is
   * returned as it is, and otherwise the rows come back with the metadata
   * for the count the last row carried (0 when there was none).
   */
  method GetMany(f: Filters, db: (string, seq<Arg>) -> ListQuery.Rows<Company>)
    returns (companies: seq<Company>, meta: Option<ListMeta.MetaOutcome>, err: Option<Error>)
    ensures var res := db(Render(ListQuery.ManyPieces(ListHead, f)), ListQuery.ManyArgs(f));
            && (res.QueryFailed? ==> err == Some(res.err) && companies == [] && meta.None?)
            && (res.Rows? ==> err.None? && companies == res.found
                              && meta == Some(ListMeta.NewListMetadata(f, ListQuery.RecordCount(res.found, res.count))))
  {
    var query, args := ListQuery.GetManyQuery(ListHead, f);
    var res := db(query, args);
    if res.QueryFailed? {
      return [], None, Some(res.err);
    }
    companies := res.found;
    meta := Some(ListMeta.NewListMetadata(f, ListQuery.RecordCount(res.found, res.count)));
    err := None;
  }

  /**
   * For search and `in` keys from the companies' whitelists, GetMany's statement
   * is well bound: each entry's reference numbers its value, limit and offset
   * the page size and (page-1)*page size, and the numbers run 1..len(args).
   */
  lemma {:induction false} ListStatementWellBound(f: Filters)
    requires DistinctKeys(ListQuery.Entries(f.search)) && DistinctKeys(ListQuery.Entries(f.inFilter))
    requires forall j :: 0 <= j < |ListQuery.Entries(f.search)| ==> ListQuery.Entries(f.search)[j].0 in CompanySearchFields
    requires forall j :: 0 <= j < |ListQuery.Entries(f.inFilter)| ==> ListQuery.Entries(f.inFilter)[j].0 in CompanyInFields
    ensures WellBound(ListQuery.ManyPieces(ListHead, f), ListQuery.ManyArgs(f), ListQuery.Meant(f))
    ensures Placeholders(Render(ListQuery.ManyPieces(ListHead, f))) == Range(1, |ListQuery.ManyArgs(f)| + 1)
  {
    ListHeadPlain();
    ListKeysPlain();
    ListQuery.ListedKeysPlain(ListQuery.Entries(f.search), CompanySearchFields);
    ListQuery.ListedKeysPlain(ListQuery.Entries(f.inFilter), CompanyInFields);
    ListQuery.GetManyWellBound(ListHead, f);
  }

  /** The select list cannot be mistaken for `$n` references. */
  lemma ListHeadPlain()
    ensures ListQuery.PlainName(ListHead)
  {
    var first := "select count(*) " + "over (), id, " + "created_at, " + "updated_at, ";
    assert '$' !in first by {
      NoDollar("select count(*) ", "over (), id, ", "created_at, ");
      NoDollar2("select count(*) " + "over (), id, " + "created_at, ", "updated_at, ");
    }
    var second := "name, url, " + "tech_stack, " + "version from " + "companies";
    assert '$' !in second by {
      NoDollar("name, url, ", "tech_stack, ", "version from ");
      NoDollar2("name, url, " + "tech_stack, " + "version from ", "companies");
    }
    NoDollar2(first, second);
    assert ListHead[0] == first[0] == 's';
  }

  /** Neither can the whitelisted keys. */
  lemma ListKeysPlain()
    ensures forall i :: 0 <= i < |CompanySearchFields| ==> ListQuery.PlainName(CompanySearchFields[i])
    ensures forall i :: 0 <= i < |CompanyInFields| ==> ListQuery.PlainName(CompanyInFields[i])
  {
    assert ListQuery.PlainName("name") && ListQuery.PlainName("tech_stack");
  }

  /** The companies table: rows by id, and the next id the database's sequence hands out. */
  class CompanyTable {
    var rows: map<int, Company>
    var nextId: int

    /** Every row is stored under its own id, and ids come from the sequence, above every stored one. */
    predicate Valid()
      reads this
    {
      nextId >= 1 && forall id :: id in rows ==> rows[id].id == id && 1 <= id < nextId
    }

    constructor ()
      ensures Valid() && rows == map[] && nextId == 1
    {
      rows := map[];
      nextId := 1;
    }

    /** GetVersion: the stored version, or 0 with the mapped error. */
    method GetVersion(id: int, fault: Option<Error>, re: Matcher) returns (version: int, err: Option<Error>)
      ensures err.None? <==> fault.None? && id in rows
      ensures err.None? ==> version == rows[id].version
      ensures err.Some? ==> version == 0
      ensures fault.None? && id !in rows ==> err == Some(DataErrors.ErrRecordNotFound)
      ensures fault.Some? && !Is(fault.value, ErrNoRows) ==> err == Some(DataErrors.ErrUnknown)
    {
      var scanErr := ScanError(id in rows, fault);
      version := if scanErr.None? then rows[id].version else 0;
      err := MapErr(scanErr, NotFoundMap, re);
      if fault.Some? && !Is(fault.value, ErrNoRows) {
        DriverErrorMapped(fault.value, re);
      }
    }

    /**
     * Insert: the row gets the next id, now as both times and version 1, and
     * those are scanned back into the caller's company. A database error leaves
     * table and company alone and is mapped: duplicate-key text to
     * ErrDuplicateKey, anything else to ErrUnknown.
     */
    method Insert(company: Company, now: int, fault: Option<Error>, re: Matcher) returns (c: Company, err: Option<Error>)
      requires Compiles(re, DuplicateKeyPattern)
      requires Valid()
      modifies this
      ensures Valid()
      ensures fault.None? ==> && err.None? && old(nextId) !in old(rows)
                              && c == company.(id := old(nextId), createdAt := now, updatedAt := now, version := 1)
                              && rows == old(rows)[c.id := c]
      ensures fault.Some? ==> && err == MapErr(fault, InsertMap, re) && err.Some?
                              && c == company && rows == old(rows) && nextId == old(nextId)
    {
      if fault.Some? {
        return company, MapErr(fault, InsertMap, re);
      }
      c := company.(id := nextId, createdAt := now, updatedAt := now, version := 1);
      rows := rows[nextId := c];
      nextId := nextId + 1;
      err := None;
    }

    /**
     * Update: the version-checked write of UpdateStep; a database error leaves
     * table and company alone and is mapped through the update's ErrorMap.
     */
    method Update(company: Company, now: int, fault: Option<Error>, re: Matcher) returns (c: Company, err: Option<Error>)
      requires Compiles(re, DuplicateKeyPattern)
      requires Valid()
      modifies this
      ensures Valid() && nextId == old(nextId)
      ensures fault.None? ==> (rows, c, err) == UpdateStep(old(rows), company, now)
      ensures fault.Some? ==> err == MapErr(fault, UpdateMap, re) && c == company && rows == old(rows)
    {
      var found := company.id in rows && rows[company.id].version == company.version;
      var scanErr := ScanError(found, fault);
      c := company;
      if scanErr.None? {
        var row := Updated(rows[company.id], company, now);
        rows := rows[company.id := row];
        c := company.(version := row.version);
      }
      err := MapErr(scanErr, UpdateMap, re);
      NoRowsMapped(re);
    }

    /**
     * PartialUpdate: the statement of PartialUpdateQuery, applied as PartialStep;
     * a database error leaves the table alone and is mapped through the partial
     * update's ErrorMap.
     */
    method PartialUpdate(id: int, version: int, partial: PartialCompany, now: int, fault: Option<Error>, re: Matcher)
      returns (c: Company, err: Option<Error>)
      requires Valid()
      modifies this
      ensures Valid() && nextId == old(nextId)
      ensures fault.None? ==> (rows, c, err) == PartialStep(old(rows), id, version, partial, now)
      ensures fault.Some? ==> err == MapErr(fault, PartialMap, re) && c == Unscanned(id) && rows == old(rows)
    {
      var query, args := PartialUpdateQuery(id, version, partial, now);
      c := Unscanned(id);
      var found := id in rows && rows[id].version == version;
      var scanErr := ScanError(found, fault);
      if scanErr.None? {
        var row := Patched(rows[id], partial, now);
        rows := rows[id := row];
        c := row;
        err := MapErr(scanErr, PartialMap, re);
        assert VersionMatches(old(rows), id, version);
      } else {
        err := MapErr(scanErr, PartialMap, re);
        NoRowsMapped(re);
      }
    }

    /**
     * Delete: a database error is returned as it is (no ErrorMap here); no
     * deleted row is ErrRecordNotFound.
     */
    method Delete(id: int, fault: Option<Error>) returns (err: Option<Error>)
      requires Valid()
      modifies this
      ensures Valid() && nextId == old(nextId)
      ensures fault.Some? ==> err == fault && rows == old(rows)
      ensures fault.None? ==> && (err.None? <==> id in old(rows))
                              && (err.Some? ==> err == Some(DataErrors.ErrRecordNotFound))
                              && rows == old(rows) - {id}
    {
      if fault.Some? {
        return fault;
      }
      var rowsAffected := if id in rows then 1 else 0;
      rows := rows - {id};
      if rowsAffected == 0 {
        return Some(DataErrors.ErrRecordNotFound);
      }
      err := None;
    }
  }
}
