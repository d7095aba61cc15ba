/**
 * The sentinel errors of the `types` package and its MapError, whose
 * fallback for an error no key matches is the original error.
 */
module TypesErrors {
  import opened Base
  import opened GoErrors

  const ErrRecordNotFound: Error := Leaf("types.ErrRecordNotFound", "record not found")
  const ErrNoTokenMatch: Error := Leaf("types.ErrNoTokenMatch", "no valid token")
  const ErrEditConflict: Error := Leaf("types.ErrEditConflict", "edit conflict")
  const ErrInvalidParam: Error := Leaf("types.ErrInvalidParam", "invalid query parameter")
  const ErrDuplicateKey: Error := Leaf("types.ErrDuplicateKey", "duplicate key")
  const ErrUnknown: Error := Leaf("types.ErrUnknown", "unknown error")
  const ErrUnauthorized: Error := Leaf("types.ErrUnauthorized", "unauthorized")
  const ErrForbidden: Error := Leaf("types.ErrForbidden", "forbidden")
  const ErrPasswordMismatch: Error := Leaf("types.ErrPasswordMismatch", "password mismatch")
  const ErrUserNotActivated: Error := Leaf("types.ErrUserNotActivated", "user not activated")

  /**
   * MapError over the entries of the map in the order the range loop visits
   * them; `None` is a nil error.
   */
  function MapError(err: Option<Error>, errMap: seq<Entry>, re: Matcher): (r: Mapped)
    ensures err.None? ==> r == Returned(None)
    ensures err.Some? && UsableKeys(errMap, re) && !SomeKeyMatches(errMap, err.value, re) ==> r == Returned(err)
    ensures err.Some? && SomeKeyMatches(errMap, err.value, re) && UsableKeys(errMap, re) ==>
              exists e :: e in errMap && KeyMatches(e.key, err.value, re) && r == Returned(Some(e.value))
    ensures r.MapPanic? ==> err.Some? && !UsableKeys(errMap, re)
  {
    if err.None? then Returned(None)
    else
      FindMappingByEntries(err.value, errMap, re);
      match FindMapping(err.value, errMap, re)
      case Matched(v) => Returned(Some(v))
      case NoMatch => Returned(err)
      case Panicked(m) => MapPanic(m)
  }

  /**
   * Go does not fix the order a map is ranged over: over any two orders of the
   * same entries MapError agrees, when every key is an error or a string and
   * the keys that match agree on the value.
   */
  lemma MapErrorOrderFree(err: Option<Error>, m1: seq<Entry>, m2: seq<Entry>, re: Matcher)
    requires forall e :: e in m1 <==> e in m2
    requires UsableKeys(m1, re)
    requires err.Some? ==> MatchesAgree(m1, err.value, re)
    ensures MapError(err, m1, re) == MapError(err, m2, re)
  {
    if err.Some? {
      FindMappingOrderFree(err.value, m1, m2, re);
    }
  }

  const ErrTestJawa: Error := Leaf("types_test.ErrTestJawa", "err::jawa")
  const ErrTestEwok: Error := Leaf("types_test.ErrTestEwok", "err::ewok")
  const ErrTestHutt: Error := Leaf("types_test.ErrTestHutt", "err::hutt")
  const ErrTestPyke: Error := Leaf("types_test.ErrTestPyke", "err::pyke")

  /** The table of the package's test case, in either order the range may visit it. */
  lemma TestMapError(errMap: seq<Entry>, re: Matcher)
    requires errMap == [Entry(ErrorKey(ErrTestJawa), ErrTestEwok), Entry(ErrorKey(ErrTestPyke), ErrTestHutt)]
          || errMap == [Entry(ErrorKey(ErrTestPyke), ErrTestHutt), Entry(ErrorKey(ErrTestJawa), ErrTestEwok)]
    ensures MapError(Some(ErrTestJawa), errMap, re) == Returned(Some(ErrTestEwok))
    ensures MapError(Some(ErrTestHutt), errMap, re) == Returned(Some(ErrTestHutt))
    ensures MapError(Some(ErrTestPyke), errMap, re) == Returned(Some(ErrTestHutt))
    ensures MapError(None, errMap, re) == Returned(None)
  {
    var jawa := Entry(ErrorKey(ErrTestJawa), ErrTestEwok);
    var pyke := Entry(ErrorKey(ErrTestPyke), ErrTestHutt);
    assert !Is(ErrTestPyke, ErrTestJawa) && !Is(ErrTestJawa, ErrTestPyke);
    assert !Is(ErrTestHutt, ErrTestJawa) && !Is(ErrTestHutt, ErrTestPyke);
    assert [jawa, pyke][1..] == [pyke] && [pyke, jawa][1..] == [jawa];
  }
}
