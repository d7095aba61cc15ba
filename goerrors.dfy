/**
 * Go's `error` values as the data layer sees them, `errors.Is`, and the
 * key-to-error table search that both snapshots of `MapError` perform.
 */
module GoErrors {
  import opened Base

  /**
   * An error value. `Leaf` is a value made once by errors.New (its identity is its
   * origin, so two leaves with the same text but different origins are different
   * errors); `Wrap` is a value made by fmt.Errorf with %w around another error.
   */
  datatype Error = Leaf(origin: string, text: string) | Wrap(text: string, inner: Error)

  /** err.Error() */
  function Text(e: Error): string {
    match e
    case Leaf(_, t) => t
    case Wrap(t, _) => t
  }

  /** errors.Is: the error itself or any error it wraps is the target. */
  predicate Is(err: Error, target: Error)
    decreases err
  {
    err == target || (err.Wrap? && Is(err.inner, target))
  }

  /** database/sql.ErrNoRows, returned by Scan when a query found no row. */
  const ErrNoRows: Error := Leaf("database/sql.ErrNoRows", "sql: no rows in result set")

  /** A driver error reported by the database, identified by its text. */
  function DriverError(text: string): Error { Leaf("lib/pq", text) }

  /**
   * A key of an ErrorMap (`map[any]error`): an error value, a string holding a
   * regular expression, or a value of any other type (shown as %v would show it).
   */
  datatype Key = ErrorKey(e: Error) | PatternKey(pattern: string) | OtherKey(shown: string)

  /** One entry of an ErrorMap, as the range loop visits it. */
  datatype Entry = Entry(key: Key, value: Error)

  /**
   * The regular-expression engine: `compileError(pattern)` is the reason
   * regexp.Compile refuses the pattern, or `None` when it compiles, and
   * `matches(pattern, text)` says whether a compiled pattern matches somewhere
   * in the text.
   */
  datatype Matcher = Matcher(compileError: string -> Option<string>, matches: (string, string) -> bool)

  predicate Compiles(re: Matcher, pattern: string) {
    re.compileError(pattern).None?
  }

  /** A key the range loop can test without panicking: an error, or a string that compiles. */
  predicate Usable(k: Key, re: Matcher) {
    match k
    case ErrorKey(_) => true
    case PatternKey(p) => Compiles(re, p)
    case OtherKey(_) => false
  }

  /** The range loop's verdict on a usable entry. */
  predicate KeyMatches(k: Key, err: Error, re: Matcher) {
    match k
    case ErrorKey(e) => Is(err, e)
    case PatternKey(p) => Compiles(re, p) && re.matches(p, Text(err))
    case OtherKey(_) => false
  }

  /** The message a key that cannot be tested panics with: MustCompile's, or the type switch's default. */
  function PanicMessage(k: Key, re: Matcher): string
    requires !Usable(k, re)
  {
    match k
    case PatternKey(p) => "regexp: Compile(\"" + p + "\"): " + re.compileError(p).value
    case OtherKey(shown) => "Invalid type in ErrorMap: " + shown + ". Expected error or string"
  }

  /** What the search over the table ends in. */
  datatype Search = NoMatch | Matched(value: Error) | Panicked(message: string)

  /** What MapError ends in: it returns an error (possibly nil) or panics with a message. */
  datatype Mapped = Returned(err: Option<Error>) | MapPanic(message: string)

  /**
   * The loop `for inErr, outErr := range errMap` with its early returns, over
   * the entries in the order the range visits them: each key is tested in turn,
   * and the first that cannot be tested panics.
   */
  function FindMapping(err: Error, table: seq<Entry>, re: Matcher): (r: Search)
    ensures r.Matched? ==> exists i :: 0 <= i < |table| && KeyMatches(table[i].key, err, re) && r.value == table[i].value
    ensures r.NoMatch? <==> forall i :: 0 <= i < |table| ==> Usable(table[i].key, re) && !KeyMatches(table[i].key, err, re)
    ensures r.Panicked? ==> exists i :: 0 <= i < |table| && !Usable(table[i].key, re) && r.message == PanicMessage(table[i].key, re)
    decreases |table|
  {
    if table == [] then NoMatch
    else
      var k := table[0].key;
      if !Usable(k, re) then Panicked(PanicMessage(k, re))
      else if KeyMatches(k, err, re) then Matched(table[0].value)
      else
        var r := FindMapping(err, table[1..], re);
        assert forall i :: 0 <= i < |table| - 1 ==> table[1..][i] == table[i + 1];
        r
  }

  /** Every key of the table is an error or a string that compiles. */
  predicate UsableKeys(t: seq<Entry>, re: Matcher) {
    forall e :: e in t ==> Usable(e.key, re)
  }

  /** Some key of the table matches the error. */
  predicate SomeKeyMatches(t: seq<Entry>, err: Error, re: Matcher) {
    exists e :: e in t && KeyMatches(e.key, err, re)
  }

  /** All the keys that match the error map it to the same value. */
  predicate MatchesAgree(t: seq<Entry>, err: Error, re: Matcher) {
    forall e1, e2 | e1 in t && e2 in t && KeyMatches(e1.key, err, re) && KeyMatches(e2.key, err, re) :: e1.value == e2.value
  }

  /**
   * The search, stated over the entries rather than their positions: over a table
   * of errors and strings that compile it never panics and it finds a value exactly
   * when some key matches, and what it finds is the value of a matching key.
   */
  lemma FindMappingByEntries(err: Error, t: seq<Entry>, re: Matcher)
    ensures FindMapping(err, t, re).Panicked? ==> !UsableKeys(t, re)
    ensures UsableKeys(t, re) ==> (FindMapping(err, t, re).Matched? <==> SomeKeyMatches(t, err, re))
    ensures FindMapping(err, t, re).Matched? ==>
              exists e :: e in t && KeyMatches(e.key, err, re) && FindMapping(err, t, re).value == e.value
  {
    var r := FindMapping(err, t, re);
    if r.Panicked? {
      var i :| 0 <= i < |t| && !Usable(t[i].key, re) && r.message == PanicMessage(t[i].key, re);
      assert t[i] in t;
    } else if r.Matched? {
      var i :| 0 <= i < |t| && KeyMatches(t[i].key, err, re) && r.value == t[i].value;
      assert t[i] in t;
    } else {
      forall e | e in t ensures !KeyMatches(e.key, err, re) {
        var i :| 0 <= i < |t| && t[i] == e;
      }
    }
  }

  /**
   * The result of the search does not depend on the order the range loop visits
   * the table in, as long as every key is an error or a string that compiles and
   * all the keys that match agree on the value.
   */
  lemma FindMappingOrderFree(err: Error, t1: seq<Entry>, t2: seq<Entry>, re: Matcher)
    requires forall e :: e in t1 <==> e in t2
    requires UsableKeys(t1, re)
    requires MatchesAgree(t1, err, re)
    ensures FindMapping(err, t1, re) == FindMapping(err, t2, re)
  {
    FindMappingByEntries(err, t1, re);
    FindMappingByEntries(err, t2, re);
  }

  /**
   * Without that condition the order does matter: a matching key visited before a
   * pattern that does not compile returns its value, and visited after it the
   * search panics in MustCompile.
   */
  lemma {:induction false} BadPatternOrderMatters(err: Error, hit: Entry, bad: Entry, re: Matcher)
    requires KeyMatches(hit.key, err, re)
    requires bad.key.PatternKey? && !Compiles(re, bad.key.pattern)
    ensures FindMapping(err, [hit, bad], re) == Matched(hit.value)
    ensures FindMapping(err, [bad, hit], re) == Panicked(PanicMessage(bad.key, re))
  {
    assert Usable(hit.key, re);
  }
}
