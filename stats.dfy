/**
 * Request metrics: the per-status response counter and the request totals.
 * http.StatusText is a parameter; counters are unbounded integers.
 */
module Stats {
  import opened Base
  import opened Text

  /** The counter key of a status code: its status text, then the code in parentheses. */
  function CounterKey(statusText: int -> string, code: int): (key: string)
    ensures |key| >= 4 && key[|key| - 1] == ')'
  {
    statusText(code) + " (" + IntToString(code) + ")"
  }

  /** The decimal text of a number never holds a parenthesis. */
  lemma {:induction false} NoParenInNumber(i: int)
    ensures '(' !in IntToString(i)
  {
    var s := IntToString(i);
    var digits := Itoa(if i < 0 then -i else i);
    assert forall j :: 0 <= j < |digits| ==> digits[j] != '(';
    if i < 0 {
      assert s == "-" + digits;
      assert forall j :: 0 < j < |s| ==> s[j] == digits[j - 1];
    }
  }

  /**
   * Different codes (within int64) are counted under different keys, whatever
   * the status texts are: the number after the last "(" tells the code.
   */
  lemma {:induction false} CounterKeyInjective(statusText: int -> string, c1: int, c2: int)
    requires MinInt64 <= c1 <= MaxInt64 && MinInt64 <= c2 <= MaxInt64
    requires CounterKey(statusText, c1) == CounterKey(statusText, c2)
    ensures c1 == c2
  {
    var k := CounterKey(statusText, c1);
    var n1 := IntToString(c1);
    var n2 := IntToString(c2);
    NoParenInNumber(c1);
    NoParenInNumber(c2);
    assert k[|k| - 2 - |n1|] == '(';
    assert k[|k| - 2 - |n2|] == '(';
    assert |n1| == |n2|;
    assert n1 == k[|k| - 1 - |n1| .. |k| - 1] == n2;
    ParseIntToString(c1);
    ParseIntToString(c2);
  }

  /** A key chosen from a non-empty map. */
  ghost function Pick(m: map<string, int>): (k: string)
    requires |m| > 0
    ensures k in m
  {
    var k :| k in m; k
  }

  /** The sum of a map's counts. */
  ghost function Sum(m: map<string, int>): int
    decreases |m|
  {
    if |m| == 0 then 0
    else
      var k := Pick(m);
      assert |(m - {k}).Keys| == |m.Keys - {k}|;
      m[k] + Sum(m - {k})
  }

  /** The sum can be split at any key, not only the one Sum picks. */
  lemma {:induction false} SumRemove(m: map<string, int>, k: string)
    requires k in m
    ensures Sum(m) == m[k] + Sum(m - {k})
    decreases |m|
  {
    var j := Pick(m);
    if j != k {
      assert (m - {j}).Keys == m.Keys - {j};
      assert (m - {k}).Keys == m.Keys - {k};
      SumRemove(m - {j}, k);
      SumRemove(m - {k}, j);
      assert m - {j} - {k} == m - {k} - {j};
    }
  }

  /** Setting one count changes the sum by the difference. */
  lemma {:induction false} SumUpdate(m: map<string, int>, k: string, v: int)
    ensures Sum(m[k := v]) == Sum(m) - (if k in m then m[k] else 0) + v
  {
    SumRemove(m[k := v], k);
    assert m[k := v] - {k} == m - {k};
    if k in m {
      SumRemove(m, k);
    } else {
      assert m - {k} == m;
    }
  }

  /** respCounter: counts per status key. */
  class RespCounter {
    var counts: map<string, int>

    /** newRespCounter */
    constructor New()
      ensures counts == map[]
    {
      counts := map[];
    }

    /** Incr: one more response with this code, under its key; nothing else changes. */
    method Incr(code: int, statusText: int -> string)
      modifies this
      ensures var key := CounterKey(statusText, code);
              counts == old(counts)[key := (if key in old(counts) then old(counts)[key] else 0) + 1]
      ensures Sum(counts) == Sum(old(counts)) + 1
    {
      var key := statusText(code) + " (" + IntToString(code) + ")";
      SumUpdate(counts, key, (if key in counts then counts[key] else 0) + 1);
      if key !in counts {
        counts := counts[key := 1];
      } else {
        counts := counts[key := counts[key] + 1];
      }
    }
  }

  /** RequestStats: the totals and the per-status counter. */
  class RequestStats {
    var requestCount: int
    var responseCount: int
    var procTimeMu: int
    var byStatus: RespCounter

    /** Every response counted is counted under some status. */
    ghost predicate Inv()
      reads this, byStatus
    {
      Sum(byStatus.counts) == responseCount
    }

    /** NewRequestStats */
    constructor New()
      ensures Inv() && fresh(byStatus)
      ensures requestCount == 0 && responseCount == 0 && procTimeMu == 0 && byStatus.counts == map[]
    {
      requestCount := 0;
      responseCount := 0;
      procTimeMu := 0;
      byStatus := new RespCounter.New();
    }

    /** AddResponse: count the status, then the total; the two stay in step. */
    method AddResponse(code: int, statusText: int -> string)
      requires Inv()
      modifies this, byStatus
      ensures Inv() && byStatus == old(byStatus)
      ensures responseCount == old(responseCount) + 1
      ensures var key := CounterKey(statusText, code);
              byStatus.counts == old(byStatus.counts)[key := (if key in old(byStatus.counts) then old(byStatus.counts)[key] else 0) + 1]
      ensures requestCount == old(requestCount) && procTimeMu == old(procTimeMu)
    {
      ghost var counted := Sum(byStatus.counts);
      byStatus.Incr(code, statusText);
      assert Sum(byStatus.counts) == counted + 1;
      responseCount := responseCount + 1;
    }

    method AddRequest()
      requires Inv()
      modifies this
      ensures Inv()
      ensures requestCount == old(requestCount) + 1
      ensures responseCount == old(responseCount) && procTimeMu == old(procTimeMu) && byStatus == old(byStatus)
    {
      requestCount := requestCount + 1;
    }

    /** AddTime: a duration in nanoseconds adds its whole microseconds, truncated toward zero. */
    method AddTime(d: int)
      requires Inv()
      modifies this
      ensures Inv()
      ensures procTimeMu == old(procTimeMu) + Microseconds(d)
      ensures requestCount == old(requestCount) && responseCount == old(responseCount) && byStatus == old(byStatus)
    {
      procTimeMu := procTimeMu + GoDiv(d, 1000);
    }
  }

  /** Duration.Microseconds: nanoseconds divided by 1000, truncated toward zero. */
  function Microseconds(d: int): (mu: int)
    ensures d >= 0 ==> mu * 1000 <= d < (mu + 1) * 1000
    ensures d < 0 ==> (mu - 1) * 1000 < d <= mu * 1000
  {
    GoDiv(d, 1000)
  }
}
