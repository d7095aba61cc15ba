/**
 * The sentinel errors of the older `data` package and its MapError, whose
 * fallback for an error no key matches is ErrUnknown rather than the original.
 */
module DataErrors {
  import opened Base
  import opened GoErrors

  const ErrRecordNotFound: Error := Leaf("data.ErrRecordNotFound", "record not found")
  const ErrEditConflict: Error := Leaf("data.ErrEditConflict", "edit conflict")
  const ErrInvalidParam: Error := Leaf("data.ErrInvalidParam", "invalid query parameter")
  const ErrDuplicateKey: Error := Leaf("data.ErrDuplicateKey", "duplicate key")
  /** Made by its own errors.New call, but with the text of ErrDuplicateKey. */
  const ErrUnknown: Error := Leaf("data.ErrUnknown", "duplicate key")

  /** MapError over the entries in range order; `None` is a nil error. */
  function MapError(err: Option<Error>, errMap: seq<Entry>, re: Matcher): (r: Mapped)
    ensures err.None? ==> r == Returned(None)
    ensures err.Some? && UsableKeys(errMap, re) && !SomeKeyMatches(errMap, err.value, re) ==> r == Returned(Some(ErrUnknown))
    ensures err.Some? && SomeKeyMatches(errMap, err.value, re) && UsableKeys(errMap, re) ==>
              exists e :: e in errMap && KeyMatches(e.key, err.value, re) && r == Returned(Some(e.value))
    ensures r.MapPanic? ==> err.Some? && !UsableKeys(errMap, re)
  {
    if err.None? then Returned(None)
    else
      FindMappingByEntries(err.value, errMap, re);
      match FindMapping(err.value, errMap, re)
      case Matched(v) => Returned(Some(v))
      case NoMatch => Returned(Some(ErrUnknown))
      case Panicked(m) => MapPanic(m)
  }

  /** Over any two orders of the same entries MapError agrees (as in the types package). */
  lemma MapErrorOrderFree(err: Option<Error>, m1: seq<Entry>, m2: seq<Entry>, re: Matcher)
    requires forall e :: e in m1 <==> e in m2
    requires UsableKeys(m1, re)
    requires err.Some? ==> MatchesAgree(m1, err.value, re)
    ensures MapError(err, m1, re) == MapError(err, m2, re)
  {
    if err.Some? {
      FindMappingOrderFree(err.value, m1, m2, re);
    }
  }

  /**
   * ErrUnknown reads like ErrDuplicateKey but is a different sentinel: errors.Is
   * tells them apart in both directions, so a caller testing for a duplicate key
   * does not take the unknown fallback for one.
   */
  lemma UnknownIsNotDuplicateKey()
    ensures Text(ErrUnknown) == Text(ErrDuplicateKey)
    ensures ErrUnknown != ErrDuplicateKey
    ensures !Is(ErrUnknown, ErrDuplicateKey) && !Is(ErrDuplicateKey, ErrUnknown)
  {
  }

  /** The unmatched fallback loses the original error: errors.Is no longer finds it. */
  lemma FallbackHidesOriginal(err: Error, errMap: seq<Entry>, re: Matcher)
    requires UsableKeys(errMap, re) && !SomeKeyMatches(errMap, err, re)
    requires err != ErrUnknown
    ensures MapError(Some(err), errMap, re).Returned?
    ensures MapError(Some(err), errMap, re).err.Some?
    ensures !Is(MapError(Some(err), errMap, re).err.value, err)
  {
  }
}
