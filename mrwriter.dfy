/**
 * The metrics response writer: it forwards every call to the writer it wraps
 * and remembers the status of the response, which the first header write or
 * body write fixes.
 */
module MetricsWriter {
  import opened Base

  /** A call reaching the wrapped http.ResponseWriter. */
  datatype WriterCall = WriteHeaderCall(code: int) | WriteCall(body: seq<bv8>)

  /** The status a response ends up with after a sequence of calls: fixed by the first call. */
  function RecordedStatus(calls: seq<WriterCall>): (status: int)
    ensures calls == [] ==> status == 200
    ensures calls != [] && calls[0].WriteCall? ==> status == 200
    ensures calls != [] && calls[0].WriteHeaderCall? ==> status == calls[0].code
  {
    if calls != [] && calls[0].WriteHeaderCall? then calls[0].code else 200
  }

  /**
   * The wrapped writer, as the calls it has received. A healthy connection
   * takes every byte; a broken one takes none and reports `failure`.
   */
  class Recorder {
    var calls: seq<WriterCall>
    const failure: Option<string>

    constructor New(failure: Option<string>)
      ensures calls == [] && this.failure == failure
    {
      calls := [];
      this.failure := failure;
    }

    method WriteHeader(code: int)
      modifies this
      ensures calls == old(calls) + [WriteHeaderCall(code)]
    {
      calls := calls + [WriteHeaderCall(code)];
    }

    method Write(b: seq<bv8>) returns (n: int, err: Option<string>)
      modifies this
      ensures calls == old(calls) + [WriteCall(b)]
      ensures err == failure && n == (if failure.None? then |b| else 0)
    {
      calls := calls + [WriteCall(b)];
      n, err := if failure.None? then |b| else 0, failure;
    }
  }

  /** metricsResponseWriter */
  class MetricsResponseWriter {
    const inner: Recorder
    var statusCode: int
    var headerWritten: bool
    /** The calls forwarded through this writer, oldest first. */
    ghost var forwarded: seq<WriterCall>
    /** What the wrapped writer had received before it was wrapped. */
    ghost const before: seq<WriterCall>

    /** The fields are what the forwarded calls determine, and every one reached the wrapped writer. */
    ghost predicate Valid()
      reads this, inner
    {
      && inner.calls == before + forwarded
      && headerWritten == (forwarded != [])
      && statusCode == RecordedStatus(forwarded)
    }

    /** newMetricsResponseWriter: status 200, nothing written yet. */
    constructor New(w: Recorder)
      ensures Valid() && inner == w && before == w.calls
      ensures statusCode == 200 && !headerWritten && forwarded == []
    {
      inner := w;
      statusCode := 200;
      headerWritten := false;
      forwarded := [];
      before := w.calls;
    }

    /** WriteHeader: forwarded always; recorded only if nothing was written before. */
    method WriteHeader(code: int)
      requires Valid()
      modifies this, inner
      ensures Valid()
      ensures forwarded == old(forwarded) + [WriteHeaderCall(code)]
      ensures statusCode == (if old(headerWritten) then old(statusCode) else code)
      ensures headerWritten
    {
      inner.WriteHeader(code);
      if !headerWritten {
        statusCode := code;
        headerWritten := true;
      }
      forwarded := forwarded + [WriteHeaderCall(code)];
    }

    /**
     * Write: forwarded; a body write locks the status at whatever it is, 200 if
     * unset, and the wrapped writer's count and error are returned as they are.
     */
    method Write(b: seq<bv8>) returns (n: int, err: Option<string>)
      requires Valid()
      modifies this, inner
      ensures Valid()
      ensures forwarded == old(forwarded) + [WriteCall(b)]
      ensures statusCode == old(statusCode) && headerWritten
      ensures err == inner.failure && n == (if inner.failure.None? then |b| else 0)
    {
      headerWritten := true;
      n, err := inner.Write(b);
      forwarded := forwarded + [WriteCall(b)];
    }

    /** Unwrap: the wrapped writer itself. */
    function Unwrap(): (w: Recorder)
      ensures w == inner
    {
      inner
    }
  }

  /** Once a call has fixed the status, no later call changes it. */
  lemma {:induction false} FirstCallWins(calls: seq<WriterCall>, later: seq<WriterCall>)
    requires calls != []
    ensures RecordedStatus(calls + later) == RecordedStatus(calls)
  {
    assert (calls + later)[0] == calls[0];
  }

  /** A body written before any header leaves the status at 200, whatever headers follow. */
  lemma WriteFirstIs200(body: seq<bv8>, later: seq<WriterCall>)
    ensures RecordedStatus([WriteCall(body)] + later) == 200
  {
    FirstCallWins([WriteCall(body)], later);
  }
}
