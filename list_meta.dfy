/** The paging metadata returned with a list. */
module ListMeta {
  import opened Base
  import opened Filters

  datatype ListMetadata = ListMetadata(currentPage: int, pageSize: int, firstPage: int, lastPage: int, recordCount: int)

  /** What NewListMetadata ends in: metadata, or a run-time panic with Go's message. */
  datatype MetaOutcome = Meta(meta: ListMetadata) | MetaPanic(message: string)

  /**
   * NewListMetadata: all zero when there are no records; otherwise it reads the
   * page and page size through their pointers (a nil one panics) and divides
   * by the page size (zero panics).
   */
  function NewListMetadata(f: Filters, recordCount: int): (r: MetaOutcome)
    ensures recordCount == 0 ==> r == Meta(ListMetadata(0, 0, 0, 0, 0))
    ensures recordCount != 0 && (f.page.None? || f.pageSize.None?) ==>
              r == MetaPanic("runtime error: invalid memory address or nil pointer dereference")
    ensures recordCount != 0 && f.page.Some? && f.pageSize == Some(0) ==>
              r == MetaPanic("runtime error: integer divide by zero")
    ensures r.Meta? && recordCount != 0 ==>
              && r.meta.currentPage == f.page.value && r.meta.pageSize == f.pageSize.value
              && r.meta.firstPage == 1 && r.meta.recordCount == recordCount
  {
    if recordCount == 0 then Meta(ListMetadata(0, 0, 0, 0, 0))
    else if f.page.None? || f.pageSize.None? then
      MetaPanic("runtime error: invalid memory address or nil pointer dereference")
    else if f.pageSize.value == 0 then MetaPanic("runtime error: integer divide by zero")
    else
      var ps := f.pageSize.value;
      Meta(ListMetadata(f.page.value, ps, 1, GoDiv(recordCount + ps - 1, ps), recordCount))
  }

  /**
   * With records and a positive page size, the last page is the ceiling of
   * records / page size: the pages before it hold fewer than all the records,
   * and the pages up to it hold them all.
   */
  lemma {:induction false} LastPageIsCeiling(f: Filters, recordCount: int)
    requires recordCount > 0 && f.page.Some? && f.pageSize.Some? && f.pageSize.value > 0
    ensures NewListMetadata(f, recordCount).Meta?
    ensures var m := NewListMetadata(f, recordCount).meta;
            (m.lastPage - 1) * m.pageSize < recordCount <= m.lastPage * m.pageSize
    ensures NewListMetadata(f, recordCount).meta.lastPage >= 1
  {
    var ps := f.pageSize.value;
    var q := GoDiv(recordCount + ps - 1, ps);
    assert q == (recordCount + ps - 1) / ps;
    assert q * ps <= recordCount + ps - 1 < (q + 1) * ps;
  }
}
