/**
 * The per-client registry the rate limiter keeps: one token bucket and one
 * last-seen instant per client IP, created on first sight and swept away once
 * idle for longer than the timeout. Instants are integers in one time unit;
 * the current instant is a parameter.
 */
module Clients {

  /**
   * A token bucket: `rate` tokens are added per time unit up to `burst`, and
   * each allowed event takes one. `last` is the instant the tokens were counted at.
   */
  datatype Limiter = Limiter(rate: nat, burst: nat, tokens: nat, last: int)

  /** The bucket never holds more than its burst. */
  predicate Sane(l: Limiter) {
    l.tokens <= l.burst
  }

  /** rate.NewLimiter: a bucket that has been filling forever, hence full. */
  function NewLimiter(rate: nat, burst: nat, now: int): (l: Limiter)
    ensures Sane(l) && l.tokens == l.burst
    ensures l.rate == rate && l.burst == burst
  {
    Limiter(rate, burst, burst, now)
  }

  /** The time units since the tokens were counted; none when the clock went back. */
  function Elapsed(l: Limiter, now: int): nat {
    if now > l.last then now - l.last else 0
  }

  function Min(a: int, b: int): int { if a < b then a else b }

  /**
   * The tokens at `now`: `rate` more for every elapsed time unit, capped at the
   * burst; a bucket already above its burst is never cut down.
   */
  function Advance(l: Limiter, now: int): (t: nat)
    ensures t <= l.burst || t == l.tokens
    ensures Sane(l) ==> l.tokens <= t <= l.burst
    ensures Sane(l) ==> t == Min(l.burst, l.tokens + l.rate * Elapsed(l, now))
    ensures now <= l.last ==> t == l.tokens
  {
    var elapsed := if now > l.last then now - l.last else 0;
    var filled := l.tokens + elapsed * l.rate;
    if filled > l.burst then (if l.tokens > l.burst then l.tokens else l.burst) else filled
  }

  /**
   * Limiter.Allow at `now`: allowed when a token is available after the refill,
   * which then takes one and records `now`; a denied event changes nothing.
   */
  function Allow(l: Limiter, now: int): (r: (bool, Limiter))
    ensures r.0 <==> Advance(l, now) >= 1
    ensures r.0 ==> r.1 == l.(tokens := Advance(l, now) - 1, last := now)
    ensures !r.0 ==> r.1 == l
    ensures Sane(l) ==> Sane(r.1)
  {
    var t := Advance(l, now);
    if t >= 1 then (true, l.(tokens := t - 1, last := now)) else (false, l)
  }

  /** The number of events allowed out of `n` made at the same instant, and the bucket after them. */
  function AllowMany(l: Limiter, now: int, n: nat): (r: (nat, Limiter))
    ensures r.0 <= n
    decreases n
  {
    if n == 0 then (0, l)
    else
      var (ok, l1) := Allow(l, now);
      var (k, l2) := AllowMany(l1, now, n - 1);
      (if ok then k + 1 else k, l2)
  }

  /**
   * At one instant the bucket allows as many events as it holds tokens after
   * the refill and no more: a burst of `n` gets min(n, tokens) through.
   */
  lemma {:induction false} AllowManyAtOneInstant(l: Limiter, now: int, n: nat)
    requires Sane(l) && l.last == now
    ensures AllowMany(l, now, n).0 == if n < l.tokens then n else l.tokens
    decreases n
  {
    if n > 0 {
      var (ok, l1) := Allow(l, now);
      assert Advance(l, now) == l.tokens;
      AllowManyAtOneInstant(l1, now, n - 1);
    }
  }

  /**
   * A burst of `n` events at one instant no earlier than the last count gets
   * min(n, refilled tokens) through: the refill happens once, on the first event.
   */
  lemma {:induction false} AllowManyAfter(l: Limiter, now: int, n: nat)
    requires Sane(l) && l.last <= now
    ensures AllowMany(l, now, n).0 == Min(n, Advance(l, now))
    decreases n
  {
    if n > 0 {
      var (ok, l1) := Allow(l, now);
      if ok {
        AllowManyAtOneInstant(l1, now, n - 1);
      } else {
        AllowManyAfter(l1, now, n - 1);
      }
    }
  }

  /**
   * An emptied bucket that waits `k` time units lets min(n, burst, k * rate) of
   * a burst of `n` events through.
   */
  lemma WaitRefills(l: Limiter, k: nat, n: nat)
    requires Sane(l) && l.tokens == 0
    ensures AllowMany(l, l.last + k, n).0 == Min(n, Min(l.burst, k * l.rate))
  {
    AllowManyAfter(l, l.last + k, n);
  }

  /**
   * With one token per time unit, an emptied bucket refuses an event at once and
   * admits the one made a time unit later, and only that one of a burst.
   */
  lemma OneMorePerTick(l: Limiter, n: nat)
    requires Sane(l) && l.tokens == 0 && l.rate == 1 && l.burst >= 1 && n >= 1
    ensures !Allow(l, l.last).0
    ensures Allow(l, l.last + 1).0
    ensures AllowMany(l, l.last + 1, n).0 == 1
  {
    WaitRefills(l, 1, n);
  }

  /** At the instant of the last count, `n` events within the bucket take `n` tokens. */
  lemma {:induction false} AllowManyState(l: Limiter, now: int, n: nat)
    requires Sane(l) && l.last == now && n <= l.tokens
    ensures AllowMany(l, now, n).1 == l.(tokens := l.tokens - n)
    decreases n
  {
    if n > 0 {
      assert Advance(l, now) == l.tokens;
      AllowManyState(l.(tokens := l.tokens - 1), now, n - 1);
    }
  }

  /**
   * A client allowed 4 events in a burst and 2 per second, with half a second as
   * the time unit (one token per unit): 4 events at once all pass, a 5th at the
   * same instant is refused, and a 6th half a second later passes.
   */
  lemma BurstOfFourScenario(now: int)
    ensures var l0 := NewLimiter(1, 4, now);
            var (k, l4) := AllowMany(l0, now, 4);
            var (fifth, l5) := Allow(l4, now);
            k == 4 && !fifth && Allow(l5, now + 1).0
  {
    var l0 := NewLimiter(1, 4, now);
    FreshBurst(1, 4, now, 4);
    var (k, l4) := AllowMany(l0, now, 4);
    AllowManyState(l0, now, 4);
    var (fifth, l5) := Allow(l4, now);
    OneMorePerTick(l5, 1);
  }

  /** A fresh client's bucket lets exactly `burst` of a burst of `n` events through. */
  lemma FreshBurst(rate: nat, burst: nat, now: int, n: nat)
    ensures AllowMany(NewLimiter(rate, burst, now), now, n).0 == if n < burst then n else burst
  {
    AllowManyAtOneInstant(NewLimiter(rate, burst, now), now, n);
  }

  /** A client: its bucket and the instant it was last looked up. */
  datatype Client = Client(limiter: Limiter, lastSeen: int)

  /** A client idle for strictly longer than the timeout. */
  predicate Stale(c: Client, now: int, timeout: int) {
    now - c.lastSeen > timeout
  }

  /**
   * The registry after GetLimiter(ip) at `now`: an absent ip gets a fresh
   * bucket, an existing one keeps its bucket, and either way it is seen now.
   */
  function Touched(m: map<string, Client>, ip: string, now: int, rate: nat, burst: nat): map<string, Client> {
    var limiter := if ip in m then m[ip].limiter else NewLimiter(rate, burst, now);
    m[ip := Client(limiter, now)]
  }

  /**
   * After a lookup the ip is present and seen now; its bucket is the old one if
   * it had one and a fresh one otherwise; no other entry changes, and the
   * registry grows by at most the one entry.
   */
  lemma TouchedEntries(m: map<string, Client>, ip: string, now: int, rate: nat, burst: nat)
    ensures var m' := Touched(m, ip, now, rate, burst);
            && ip in m' && m'[ip].lastSeen == now
            && (ip in m ==> m'[ip].limiter == m[ip].limiter)
            && (ip !in m ==> m'[ip].limiter == NewLimiter(rate, burst, now))
            && (forall other :: other != ip ==> (other in m' <==> other in m) && (other in m ==> m'[other] == m[other]))
            && m'.Keys == m.Keys + {ip}
            && |m'.Keys| <= |m.Keys| + 1
  {
    var m' := Touched(m, ip, now, rate, burst);
    assert m'.Keys == m.Keys + {ip};
  }

  /** The registry after one sweep at `now`: the stale entries are gone, the rest untouched. */
  function Swept(m: map<string, Client>, now: int, timeout: int): (m': map<string, Client>)
    ensures forall ip :: ip in m' <==> ip in m && !Stale(m[ip], now, timeout)
    ensures forall ip :: ip in m' ==> m'[ip] == m[ip]
  {
    map ip | ip in m && !Stale(m[ip], now, timeout) :: m[ip]
  }

  /** Sweeping twice at one instant removes nothing more. */
  lemma SweptIdempotent(m: map<string, Client>, now: int, timeout: int)
    ensures Swept(Swept(m, now, timeout), now, timeout) == Swept(m, now, timeout)
  {
  }

  /** An evicted client's next lookup starts over with a fresh, full bucket. */
  lemma EvictedStartsOver(m: map<string, Client>, ip: string, now: int, timeout: int, later: int, rate: nat, burst: nat)
    requires ip in m && Stale(m[ip], now, timeout)
    ensures Touched(Swept(m, now, timeout), ip, later, rate, burst)[ip].limiter == NewLimiter(rate, burst, later)
  {
  }

  /** IsIpAllowed as a value: the verdict of the looked-up bucket, and the registry with that bucket written back. */
  function AllowedStep(m: map<string, Client>, ip: string, now: int, rate: nat, burst: nat): (bool, map<string, Client>) {
    var m1 := Touched(m, ip, now, rate, burst);
    var (ok, l) := Allow(m1[ip].limiter, now);
    (ok, m1[ip := Client(l, now)])
  }

  /**
   * IsIpAllowed refreshes the client's last-seen instant whether or not the
   * bucket allows the request, and a denied request leaves its bucket as it was.
   */
  lemma {:induction false} AllowedStepSeen(m: map<string, Client>, ip: string, now: int, rate: nat, burst: nat)
    ensures var (ok, m') := AllowedStep(m, ip, now, rate, burst);
            && ip in m' && m'[ip].lastSeen == now
            && (!ok ==> m'[ip].limiter == Touched(m, ip, now, rate, burst)[ip].limiter)
            && (forall other :: other != ip && other in m ==> other in m' && m'[other] == m[other])
  {
    TouchedEntries(m, ip, now, rate, burst);
  }

  /** A client seen for the first time is allowed as long as the burst is at least one. */
  lemma FirstRequestAllowed(m: map<string, Client>, ip: string, now: int, rate: nat, burst: nat)
    requires ip !in m
    ensures AllowedStep(m, ip, now, rate, burst).0 <==> burst >= 1
  {
  }

  /** The registry: clients by IP, the bucket settings, and the sweep settings. */
  class ClientMap {
    var clients: map<string, Client>
    const limitRPS: nat
    const limitBurst: nat
    const cleanupInterval: int
    const cleanupTimeout: int

    /** NewClientMap: empty, with the timeout taken from the cleanup interval. */
    constructor New(limitRPS: nat, limitBurst: nat, clientCleanupInterval: int)
      ensures clients == map[]
      ensures this.limitRPS == limitRPS && this.limitBurst == limitBurst
      ensures cleanupInterval == clientCleanupInterval && cleanupTimeout == clientCleanupInterval
    {
      clients := map[];
      this.limitRPS := limitRPS;
      this.limitBurst := limitBurst;
      cleanupInterval := clientCleanupInterval;
      cleanupTimeout := clientCleanupInterval;
    }

    /** The client's bucket, after creating the entry if absent and marking it seen now. */
    method GetLimiter(ip: string, now: int) returns (l: Limiter)
      modifies this
      ensures clients == Touched(old(clients), ip, now, limitRPS, limitBurst)
      ensures l == clients[ip].limiter
    {
      if ip !in clients {
        clients := clients[ip := Client(NewLimiter(limitRPS, limitBurst, now), 0)];
      }
      clients := clients[ip := clients[ip].(lastSeen := now)];
      l := clients[ip].limiter;
    }

    /** One pass deleting every client idle longer than the timeout. */
    method Cleanup(now: int)
      modifies this
      ensures clients == Swept(old(clients), now, cleanupTimeout)
    {
      ghost var start := clients;
      var pending := clients.Keys;
      while pending != {}
        invariant pending <= start.Keys
        invariant clients == map ip | ip in start && (ip in pending || !Stale(start[ip], now, cleanupTimeout)) :: start[ip]
        decreases pending
      {
        var ip :| ip in pending;
        if now - clients[ip].lastSeen > cleanupTimeout {
          clients := map k | k in clients && k != ip :: clients[k];
        }
        pending := pending - {ip};
      }
    }

    /** The lookup, then the bucket's verdict; the used bucket is written back. */
    method IsIpAllowed(ip: string, now: int) returns (allowed: bool)
      modifies this
      ensures (allowed, clients) == AllowedStep(old(clients), ip, now, limitRPS, limitBurst)
    {
      var limiter := GetLimiter(ip, now);
      var r := Allow(limiter, now);
      allowed := r.0;
      clients := clients[ip := Client(r.1, now)];
    }

    /** One pass of CleanCycle's loop: the same sweep as Cleanup. */
    method CleanCyclePass(now: int)
      modifies this
      ensures clients == Swept(old(clients), now, cleanupTimeout)
    {
      Cleanup(now);
    }
  }
}
