/**
 * The list filters a client may pass and the whitelists they are checked
 * against before any of them reaches a query.
 */
module Filters {
  import opened Base

  /**
   * A search or `in` map (`map[string]string`), as its entries in the order a
   * range loop visits them; Go map keys are distinct.
   */
  type FilterMap = seq<(string, string)>

  predicate DistinctKeys(m: FilterMap) {
    forall i, j :: 0 <= i < j < |m| ==> m[i].0 != m[j].0
  }

  /** Filters; `None` is a nil pointer. The sort order is not modelled. */
  datatype Filters = Filters(
    search: Option<FilterMap>,
    sort: Option<string>,
    inFilter: Option<FilterMap>,
    sortAsc: Option<bool>,
    page: Option<int>,
    pageSize: Option<int>)

  /**
   * SearchFields.Check and InFields.Check: a range over the map's keys that
   * returns false at the first key not in the whitelist.
   */
  method CheckKeys(allowed: seq<string>, m: FilterMap) returns (ok: bool)
    ensures ok <==> forall i :: 0 <= i < |m| ==> m[i].0 in allowed
  {
    var n := 0;
    while n < |m|
      invariant 0 <= n <= |m|
      invariant forall i :: 0 <= i < n ==> m[i].0 in allowed
    {
      if m[n].0 !in allowed {
        return false;
      }
      n := n + 1;
    }
    return true;
  }

  /** SortFields.Check: slices.Contains. */
  function SortCheck(allowed: seq<string>, s: string): (ok: bool)
    ensures ok <==> exists i :: 0 <= i < |allowed| && allowed[i] == s
  {
    s in allowed
  }

  /** The whitelists the stores declare. */
  const CompanySearchFields: seq<string> := ["name", "tech_stack"]
  const CompanySortFields: seq<string> := ["id", "created_at", "updated_at", "name"]
  const CompanyInFields: seq<string> := ["tech_stack"]
  const UserSearchFields: seq<string> := ["name", "email"]
  const UserSortFields: seq<string> := ["id", "created_at", "updated_at", "name", "email"]
}
