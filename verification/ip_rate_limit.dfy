/** The per-address request limiter and its periodic cleanup (mess/main.go:1683-1741). */
module IpRateLimit {
  import opened Wrappers
  import opened FixedWindow

  datatype Bucket = Bucket(count: nat, resetAt: int)

  datatype Attempt = Attempt(ip: string, limit: int, now: int)

  datatype Verdict = Verdict(allowed: bool, retryAfter: int)

  datatype Limiter = Limiter(clients: map<string, Bucket>, lastCleanup: Option<int>)

  /** The bucket key: the host part when the address splits, else all of it; "unknown" when empty. */
  function BucketKey(remoteAddr: string, host: Option<string>): string {
    var ip := match host case Some(h) => h case None => remoteAddr;
    if ip == "" then "unknown" else ip
  }

  function Swept(clients: map<string, Bucket>, now: int): map<string, Bucket> {
    map ip | ip in clients && now <= clients[ip].resetAt :: clients[ip]
  }

  predicate CleanupDue(s: Limiter, window: nat, now: int) {
    s.lastCleanup.None? || now - s.lastCleanup.value >= window
  }

  /** One attempt against a table of buckets from which nothing is ever removed. */
  function Counted(clients: map<string, Bucket>, window: nat, a: Attempt): (map<string, Bucket>, Verdict) {
    var current := if a.ip in clients && a.now <= clients[a.ip].resetAt then clients[a.ip]
                   else Bucket(0, a.now + window);
    var bucket := current.(count := current.count + 1);
    (clients[a.ip := bucket],
     if bucket.count > a.limit then Verdict(false, bucket.resetAt - a.now) else Verdict(true, 0))
  }

  /** One attempt as the limiter makes it: expired buckets are dropped first, once per window. */
  function Allowed(s: Limiter, window: nat, a: Attempt): (Limiter, Verdict) {
    var due := CleanupDue(s, window, a.now);
    var (clients, verdict) := Counted(if due then Swept(s.clients, a.now) else s.clients, window, a);
    (Limiter(clients, if due then Some(a.now) else s.lastCleanup), verdict)
  }

  class IpRateLimiter {
    var clients: map<string, Bucket>
    var lastCleanup: Option<int>
    const window: nat

    constructor (window: nat)
      ensures State() == EMPTY && this.window == window
    {
      clients, lastCleanup := map[], None;
      this.window := window;
    }

    ghost function State(): Limiter
      reads this
    {
      Limiter(clients, lastCleanup)
    }

    /** `host` is what splitting the port off the address gave; `limit` and `now` are read per call. */
    method Allow(remoteAddr: string, host: Option<string>, limit: int, now: int) returns (ok: bool, retryAfter: int)
      modifies this
      ensures (State(), Verdict(ok, retryAfter))
           == Allowed(old(State()), window, Attempt(BucketKey(remoteAddr, host), limit, now))
    {
      var ip := match host case Some(h) => h case None => remoteAddr;
      if ip == "" {
        ip := "unknown";
      }
      if lastCleanup.None? || now - lastCleanup.value >= window {
        Sweep(now);
        lastCleanup := Some(now);
      }
      var bucket;
      if ip !in clients || now > clients[ip].resetAt {
        bucket := Bucket(0, now + window);
      } else {
        bucket := clients[ip];
      }
      bucket := bucket.(count := bucket.count + 1);
      clients := clients[ip := bucket];
      if bucket.count > limit {
        return false, bucket.resetAt - now;
      }
      return true, 0;
    }

    method Sweep(now: int)
      modifies this`clients
      ensures clients == Swept(old(clients), now)
    {
      var keys := clients.Keys;
      while keys != {}
        invariant keys <= clients.Keys <= old(clients).Keys
        invariant forall ip :: ip in clients ==> clients[ip] == old(clients)[ip]
        invariant forall ip :: ip in old(clients) && ip !in keys ==>
                    (ip in clients <==> now <= old(clients)[ip].resetAt)
        decreases keys
      {
        var ip :| ip in keys;
        if now > clients[ip].resetAt {
          clients := clients - {ip};
        }
        keys := keys - {ip};
      }
    }
  }

  // ----- runs -----

  const EMPTY := Limiter(map[], None)

  ghost predicate ClockNeverGoesBack(attempts: seq<Attempt>) {
    forall i, j :: 0 <= i < j < |attempts| ==> attempts[i].now <= attempts[j].now
  }

  function Verdicts(s: Limiter, window: nat, attempts: seq<Attempt>): (vs: seq<Verdict>)
    ensures |vs| == |attempts|
    decreases |attempts|
  {
    if attempts == [] then []
    else
      var (next, v) := Allowed(s, window, attempts[0]);
      [v] + Verdicts(next, window, attempts[1..])
  }

  function KeepingVerdicts(kept: map<string, Bucket>, window: nat, attempts: seq<Attempt>): (vs: seq<Verdict>)
    ensures |vs| == |attempts|
    decreases |attempts|
  {
    if attempts == [] then []
    else
      var (next, v) := Counted(kept, window, attempts[0]);
      [v] + KeepingVerdicts(next, window, attempts[1..])
  }

  /** The times at which one address was let through. */
  function AdmittedTimes(attempts: seq<Attempt>, vs: seq<Verdict>, ip: string): seq<int>
    requires |vs| == |attempts|
  {
    if attempts == [] then []
    else
      Extended([], attempts[0].now, attempts[0].ip == ip && vs[0].allowed)
      + AdmittedTimes(attempts[1..], vs[1..], ip)
  }

  // ----- cleanup is invisible -----

  /** The limiter has every bucket the other table has, but for buckets already over by time `since`. */
  ghost predicate HidesOnlyExpired(clients: map<string, Bucket>, kept: map<string, Bucket>, since: int) {
    && (forall ip :: ip in clients ==> ip in kept && clients[ip] == kept[ip])
    && (forall ip :: ip in kept && ip !in clients ==> kept[ip].resetAt < since)
  }

  lemma SweepingHidesOnlyExpired(clients: map<string, Bucket>, kept: map<string, Bucket>, since: int, now: int)
    requires HidesOnlyExpired(clients, kept, since) && since <= now
    ensures HidesOnlyExpired(Swept(clients, now), kept, now)
  {
  }

  lemma CountingAgrees(clients: map<string, Bucket>, kept: map<string, Bucket>, window: nat, a: Attempt)
    requires HidesOnlyExpired(clients, kept, a.now)
    ensures var (c, v), (k, u) := Counted(clients, window, a), Counted(kept, window, a);
            v == u && HidesOnlyExpired(c, k, a.now)
  {
  }

  lemma {:induction false} CleanupIsInvisibleFrom(s: Limiter, kept: map<string, Bucket>, since: int, window: nat,
                                                  attempts: seq<Attempt>)
    requires HidesOnlyExpired(s.clients, kept, since) && ClockNeverGoesBack(attempts)
    requires attempts != [] ==> since <= attempts[0].now
    ensures Verdicts(s, window, attempts) == KeepingVerdicts(kept, window, attempts)
    decreases |attempts|
  {
    hide HidesOnlyExpired;
    hide Counted;
    hide Swept;
    if attempts != [] {
      var a := attempts[0];
      HidingGoesOn(s.clients, kept, since, a.now);
      SweepingHidesOnlyExpired(s.clients, kept, since, a.now);
      var clients := if CleanupDue(s, window, a.now) then Swept(s.clients, a.now) else s.clients;
      CountingAgrees(clients, kept, window, a);
      CleanupIsInvisibleFrom(Allowed(s, window, a).0, Counted(kept, window, a).0, a.now, window, attempts[1..]);
    }
  }

  lemma HidingGoesOn(clients: map<string, Bucket>, kept: map<string, Bucket>, since: int, now: int)
    requires HidesOnlyExpired(clients, kept, since) && since <= now
    ensures HidesOnlyExpired(clients, kept, now)
  {
  }

  /** Under a clock that never goes back, dropping expired buckets changes no decision and no retry time. */
  lemma CleanupIsInvisible(window: nat, attempts: seq<Attempt>)
    requires ClockNeverGoesBack(attempts)
    ensures Verdicts(EMPTY, window, attempts) == KeepingVerdicts(map[], window, attempts)
  {
    CleanupIsInvisibleFrom(EMPTY, map[], if attempts == [] then 0 else attempts[0].now, window, attempts);
  }

  function After(s: Limiter, window: nat, attempts: seq<Attempt>): Limiter
    decreases |attempts|
  {
    if attempts == [] then s else After(Allowed(s, window, attempts[0]).0, window, attempts[1..])
  }

  /** The last cleanup is less than a window ago, and no bucket was over by then. */
  ghost predicate IsTidy(s: Limiter, window: nat, now: int) {
    s.lastCleanup.Some?
    && s.lastCleanup.value <= now && (now - s.lastCleanup.value < window || s.lastCleanup.value == now)
    && forall ip :: ip in s.clients ==> s.clients[ip].resetAt >= s.lastCleanup.value
  }

  lemma {:induction false} StaysTidy(s: Limiter, window: nat, since: int, attempts: seq<Attempt>)
    requires s == EMPTY || IsTidy(s, window, since)
    requires ClockNeverGoesBack(attempts) && attempts != [] && (s != EMPTY ==> since <= attempts[0].now)
    ensures IsTidy(After(s, window, attempts), window, attempts[|attempts| - 1].now)
    decreases |attempts|
  {
    var next := Allowed(s, window, attempts[0]).0;
    assert IsTidy(next, window, attempts[0].now);
    if |attempts| > 1 {
      StaysTidy(next, window, attempts[0].now, attempts[1..]);
    }
  }

  /** Right after any attempt the table holds no bucket that has been over for a whole window. */
  lemma OldBucketsAreDropped(window: nat, attempts: seq<Attempt>, ip: string)
    requires ClockNeverGoesBack(attempts) && attempts != [] && window >= 1
    ensures var clients := After(EMPTY, window, attempts).clients;
            ip in clients ==> clients[ip].resetAt > attempts[|attempts| - 1].now - window
  {
    hide After;
    StaysTidy(EMPTY, window, 0, attempts);
  }

  // ----- the sliding bound -----

  ghost predicate LimitsWithin(attempts: seq<Attempt>, limit: int) {
    forall i :: 0 <= i < |attempts| ==> attempts[i].limit <= limit
  }

  /** The address's bucket accounts for everything the address was admitted for. */
  ghost predicate Accounted(kept: map<string, Bucket>, window: nat, limit: int, ip: string, log: seq<int>, since: int) {
    if ip !in kept then log == []
    else
      var b := Window(kept[ip].resetAt - window, kept[ip].count);
      b.start <= since && Fits(window, limit, b, log)
  }

  lemma CountingAccounts(kept: map<string, Bucket>, window: nat, limit: int, ip: string, log: seq<int>, since: int,
                         a: Attempt)
    requires Accounted(kept, window, limit, ip, log, since) && since <= a.now && a.limit <= limit
    ensures var (k, v) := Counted(kept, window, a);
            Accounted(k, window, limit, ip, Extended(log, a.now, a.ip == ip && v.allowed), a.now)
  {
    hide Fits;
    if a.ip == ip {
      var v := Counted(kept, window, a).1;
      if ip !in kept {
        FirstFits(window, limit, a.now, v.allowed);
      } else {
        var b := Window(kept[ip].resetAt - window, kept[ip].count);
        if a.now > kept[ip].resetAt {
          OpeningFits(window, limit, b, log, a.now, v.allowed);
        } else {
          JoiningFits(window, limit, b, log, a.now, v.allowed);
        }
      }
    }
  }

  lemma AccountedBounds(kept: map<string, Bucket>, window: nat, limit: int, ip: string, log: seq<int>, since: int,
                        lo: int, hi: int)
    requires Accounted(kept, window, limit, ip, log, since) && hi <= lo + window
    ensures CountIn(log, lo, hi) <= Burst(limit)
  {
    if ip in kept {
      assert FitsWithin(window, limit, Window(kept[ip].resetAt - window, kept[ip].count), log, lo, hi);
    }
  }

  lemma AdmittedUnfolds(kept: map<string, Bucket>, window: nat, ip: string, log: seq<int>, attempts: seq<Attempt>)
    requires attempts != []
    ensures var a := attempts[0];
            var (next, v) := Counted(kept, window, a);
            log + AdmittedTimes(attempts, KeepingVerdicts(kept, window, attempts), ip)
              == Extended(log, a.now, a.ip == ip && v.allowed)
                 + AdmittedTimes(attempts[1..], KeepingVerdicts(next, window, attempts[1..]), ip)
  {
    hide Counted;
    var (next, v) := Counted(kept, window, attempts[0]);
    assert KeepingVerdicts(kept, window, attempts)[1..] == KeepingVerdicts(next, window, attempts[1..]);
    assert KeepingVerdicts(kept, window, attempts)[0] == v;
  }

  lemma {:induction false} BoundFrom(kept: map<string, Bucket>, window: nat, limit: int, ip: string, log: seq<int>,
                                     since: int, attempts: seq<Attempt>, lo: int, hi: int)
    requires Accounted(kept, window, limit, ip, log, since)
    requires ClockNeverGoesBack(attempts) && LimitsWithin(attempts, limit) && hi <= lo + window
    requires attempts != [] ==> since <= attempts[0].now
    ensures CountIn(log + AdmittedTimes(attempts, KeepingVerdicts(kept, window, attempts), ip), lo, hi) <= Burst(limit)
    decreases |attempts|
  {
    hide Accounted;
    hide Counted;
    hide CountIn;
    hide Extended;
    if attempts == [] {
      AccountedBounds(kept, window, limit, ip, log, since, lo, hi);
      assert log + [] == log;
    } else {
      var a := attempts[0];
      var (next, v) := Counted(kept, window, a);
      CountingAccounts(kept, window, limit, ip, log, since, a);
      AdmittedUnfolds(kept, window, ip, log, attempts);
      BoundFrom(next, window, limit, ip, Extended(log, a.now, a.ip == ip && v.allowed), a.now, attempts[1..], lo, hi);
    }
  }

  /** In any closed interval one window long, one address is let through less than twice the limit. */
  lemma SlidingBound(window: nat, limit: int, attempts: seq<Attempt>, ip: string, lo: int, hi: int)
    requires ClockNeverGoesBack(attempts) && LimitsWithin(attempts, limit) && hi <= lo + window
    ensures CountIn(AdmittedTimes(attempts, Verdicts(EMPTY, window, attempts), ip), lo, hi) <= Burst(limit)
  {
    CleanupIsInvisible(window, attempts);
    var since := if attempts == [] then 0 else attempts[0].now;
    BoundFrom(map[], window, limit, ip, [], since, attempts, lo, hi);
    var times := AdmittedTimes(attempts, Verdicts(EMPTY, window, attempts), ip);
    assert [] + times == times;
  }

  // ----- the retry time -----

  function KeptAfter(kept: map<string, Bucket>, window: nat, attempts: seq<Attempt>): map<string, Bucket>
    decreases |attempts|
  {
    if attempts == [] then kept else KeptAfter(Counted(kept, window, attempts[0]).0, window, attempts[1..])
  }

  lemma {:induction false} VerdictAt(kept: map<string, Bucket>, window: nat, attempts: seq<Attempt>, i: nat)
    requires i < |attempts|
    ensures KeepingVerdicts(kept, window, attempts)[i]
         == Counted(KeptAfter(kept, window, attempts[..i]), window, attempts[i]).1
    decreases |attempts|
  {
    hide Counted;
    if i > 0 {
      VerdictAt(Counted(kept, window, attempts[0]).0, window, attempts[1..], i - 1);
      assert attempts[..i][1..] == attempts[1..][..i - 1];
    }
  }

  /** The address's bucket stays over its limit and ends at the same time while attempts come before its end. */
  lemma {:induction false} BucketStaysFull(kept: map<string, Bucket>, window: nat, attempts: seq<Attempt>, ip: string,
                                           count: nat, end: int)
    requires ip in kept && kept[ip].count >= count && kept[ip].resetAt == end
    requires forall i :: 0 <= i < |attempts| && attempts[i].ip == ip ==> attempts[i].now <= end
    ensures var k := KeptAfter(kept, window, attempts); ip in k && k[ip].count >= count && k[ip].resetAt == end
    decreases |attempts|
  {
    if attempts != [] {
      BucketStaysFull(Counted(kept, window, attempts[0]).0, window, attempts[1..], ip, count, end);
    }
  }

  lemma {:induction false} KeptAfterSplits(kept: map<string, Bucket>, window: nat, a: seq<Attempt>, b: seq<Attempt>)
    ensures KeptAfter(kept, window, a + b) == KeptAfter(KeptAfter(kept, window, a), window, b)
    decreases |a|
  {
    hide Counted;
    if a == [] {
      assert a + b == b;
    } else {
      assert (a + b)[1..] == a[1..] + b;
      KeptAfterSplits(Counted(kept, window, a[0]).0, window, a[1..], b);
    }
  }

  /**
   The retry time is exact: after a refusal the address is refused again up to that time, under no higher a
   limit, and its first attempt later than that is let through, under any limit of at least one.
   */
  lemma RetryTimeIsExact(window: nat, attempts: seq<Attempt>, i: nat, j: nat)
    requires ClockNeverGoesBack(attempts) && i < j < |attempts| && attempts[i].ip == attempts[j].ip
    requires !Verdicts(EMPTY, window, attempts)[i].allowed
    requires var retryAt := attempts[i].now + Verdicts(EMPTY, window, attempts)[i].retryAfter;
             forall k :: i < k < j && attempts[k].ip == attempts[i].ip ==> attempts[k].now <= retryAt
    ensures var retryAt := attempts[i].now + Verdicts(EMPTY, window, attempts)[i].retryAfter;
            && (attempts[j].now <= retryAt && attempts[j].limit <= attempts[i].limit ==>
                  !Verdicts(EMPTY, window, attempts)[j].allowed)
            && (attempts[j].now > retryAt && attempts[j].limit >= 1 ==> Verdicts(EMPTY, window, attempts)[j].allowed)
  {
    hide Verdicts;
    hide KeepingVerdicts;
    hide KeptAfter;
    CleanupIsInvisible(window, attempts);
    VerdictAt(map[], window, attempts, i);
    VerdictAt(map[], window, attempts, j);
    var a := attempts[i];
    var kept := KeptAfter(map[], window, attempts[..i]);
    var refused := Counted(kept, window, a).0;
    var between := attempts[i + 1..j];
    assert attempts[..j] == attempts[..i] + ([a] + between);
    KeptAfterSplits(map[], window, attempts[..i], [a] + between);
    OneMoreKept(kept, window, a, between);
    BucketStaysFull(refused, window, between, a.ip, refused[a.ip].count, refused[a.ip].resetAt);
  }

  lemma OneMoreKept(kept: map<string, Bucket>, window: nat, a: Attempt, rest: seq<Attempt>)
    ensures KeptAfter(kept, window, [a] + rest) == KeptAfter(Counted(kept, window, a).0, window, rest)
  {
    hide Counted;
    assert ([a] + rest)[1..] == rest;
  }

  // ----- the bound is attained -----

  const A := "203.0.113.7"

  function Repeated(a: Attempt, n: nat): seq<Attempt> {
    if n == 0 then [] else [a] + Repeated(a, n - 1)
  }

  /** One attempt opens a window, the rest of its limit comes at its end, and a whole limit right after it. */
  function BurstRun(limit: nat, window: nat): seq<Attempt>
    requires limit >= 1
  {
    var late, next := Attempt(A, limit, window), Attempt(A, limit, window + 1);
    [Attempt(A, limit, 0)] + (Repeated(late, limit - 1) + ([next] + Repeated(next, limit - 1)))
  }

  ghost function Admitted(kept: map<string, Bucket>, window: nat, attempts: seq<Attempt>, lo: int, hi: int): nat {
    CountIn(AdmittedTimes(attempts, KeepingVerdicts(kept, window, attempts), A), lo, hi)
  }

  lemma {:induction false} CountJoins(a: seq<int>, b: seq<int>, lo: int, hi: int)
    ensures CountIn(a + b, lo, hi) == CountIn(a, lo, hi) + CountIn(b, lo, hi)
    decreases |b|
  {
    if b == [] {
      assert a + b == a;
    } else {
      assert (a + b)[..|a + b| - 1] == a + b[..|b| - 1];
      CountJoins(a, b[..|b| - 1], lo, hi);
    }
  }

  lemma AdmittedStep(kept: map<string, Bucket>, window: nat, a: Attempt, rest: seq<Attempt>, lo: int, hi: int)
    ensures var (next, v) := Counted(kept, window, a);
            Admitted(kept, window, [a] + rest, lo, hi)
              == (if a.ip == A && v.allowed && lo <= a.now <= hi then 1 else 0) + Admitted(next, window, rest, lo, hi)
  {
    hide Counted;
    var (next, v) := Counted(kept, window, a);
    var attempts := [a] + rest;
    var first := Extended([], a.now, a.ip == A && v.allowed);
    assert attempts[1..] == rest;
    AdmittedUnfolds(kept, window, A, [], attempts);
    var times := AdmittedTimes(attempts, KeepingVerdicts(kept, window, attempts), A);
    assert [] + times == times;
    CountJoins(first, AdmittedTimes(rest, KeepingVerdicts(next, window, rest), A), lo, hi);
    CountExtended([], a.now, a.ip == A && v.allowed, lo, hi);
  }

  lemma {:induction false} RepeatedAreAdmitted(kept: map<string, Bucket>, window: nat, a: Attempt, n: nat,
                                               rest: seq<Attempt>, lo: int, hi: int)
    requires a.ip == A && A in kept && a.now <= kept[A].resetAt && kept[A].count + n <= a.limit
    ensures Admitted(kept, window, Repeated(a, n) + rest, lo, hi)
         == (if lo <= a.now <= hi then n else 0)
            + Admitted(kept[A := kept[A].(count := kept[A].count + n)], window, rest, lo, hi)
    decreases n
  {
    hide Admitted;
    if n == 0 {
      assert Repeated(a, n) + rest == rest;
      assert kept[A := kept[A].(count := kept[A].count + 0)] == kept;
    } else {
      var tail := Repeated(a, n - 1) + rest;
      var next := Counted(kept, window, a).0;
      assert Repeated(a, n) + rest == [a] + tail;
      AdmittedStep(kept, window, a, tail, lo, hi);
      RepeatedAreAdmitted(next, window, a, n - 1, rest, lo, hi);
      assert next[A := next[A].(count := next[A].count + (n - 1))] == kept[A := kept[A].(count := kept[A].count + n)];
    }
  }

  /** For every limit and window the bound is attained: one run admits 2L - 1 attempts within one window's length. */
  lemma BurstIsReached(limit: nat, window: nat)
    requires limit >= 1 && window >= 1
    ensures var run := BurstRun(limit, window);
            && ClockNeverGoesBack(run) && LimitsWithin(run, limit)
            && CountIn(AdmittedTimes(run, Verdicts(EMPTY, window, run), A), window, 2 * window) == Burst(limit)
  {
    hide AdmittedTimes;
    hide Verdicts;
    hide KeepingVerdicts;
    hide CountIn;
    var run := BurstRun(limit, window);
    BurstRunIsOrdered(limit, window);
    CleanupIsInvisible(window, run);
    var lo, hi := window, 2 * window;
    var first, late, next := Attempt(A, limit, 0), Attempt(A, limit, window), Attempt(A, limit, window + 1);
    var second := [next] + Repeated(next, limit - 1);
    var opened1 := map[A := Bucket(1, window)];
    AdmittedStep(map[], window, first, Repeated(late, limit - 1) + second, lo, hi);
    assert Counted(map[], window, first).0 == opened1;
    RepeatedAreAdmitted(opened1, window, late, limit - 1, second, lo, hi);
    var full := opened1[A := Bucket(limit, window)];
    var opened2 := full[A := Bucket(1, 2 * window + 1)];
    AdmittedStep(full, window, next, Repeated(next, limit - 1), lo, hi);
    assert Counted(full, window, next).0 == opened2;
    assert Repeated(next, limit - 1) + [] == Repeated(next, limit - 1);
    RepeatedAreAdmitted(opened2, window, next, limit - 1, [], lo, hi);
    NothingLeft(opened2[A := Bucket(limit, 2 * window + 1)], window, lo, hi);
  }

  lemma NothingLeft(kept: map<string, Bucket>, window: nat, lo: int, hi: int)
    ensures Admitted(kept, window, [], lo, hi) == 0
  {
  }

  lemma {:induction false} RepeatedElements(a: Attempt, n: nat)
    ensures |Repeated(a, n)| == n && forall i :: 0 <= i < n ==> Repeated(a, n)[i] == a
  {
    if n > 0 {
      RepeatedElements(a, n - 1);
    }
  }

  lemma BurstRunIsOrdered(limit: nat, window: nat)
    requires limit >= 1
    ensures ClockNeverGoesBack(BurstRun(limit, window)) && LimitsWithin(BurstRun(limit, window), limit)
  {
    RepeatedElements(Attempt(A, limit, window), limit - 1);
    RepeatedElements(Attempt(A, limit, window + 1), limit - 1);
  }

  // ----- the limiter by the list of attempts alone -----

  /** The position of the address's attempt that opened the window one at this time would join, if there is one. */
  function Opening(past: seq<Attempt>, window: nat, ip: string, now: int): (i: Option<nat>)
    ensures i.Some? ==> i.value < |past|
    decreases |past|, 1
  {
    var last := LastOpening(past, window, ip);
    if last.Some? && now <= past[last.value].now + window then last else None
  }

  /** The position of the address's latest attempt that no earlier window could take. */
  function LastOpening(past: seq<Attempt>, window: nat, ip: string): (i: Option<nat>)
    ensures i.Some? ==> i.value < |past|
    decreases |past|, 0
  {
    if past == [] then None
    else
      var before, a := past[..|past| - 1], past[|past| - 1];
      if a.ip == ip && Opening(before, window, ip, a.now).None? then Some(|past| - 1)
      else LastOpening(before, window, ip)
  }

  /** How many attempts of the address a list holds from a position on. */
  function AttemptsFrom(past: seq<Attempt>, from: nat, ip: string): nat {
    if |past| <= from then 0
    else AttemptsFrom(past[..|past| - 1], from, ip) + if past[|past| - 1].ip == ip then 1 else 0
  }

  /** The answer to an attempt, by the attempts before it. */
  function Answer(past: seq<Attempt>, window: nat, a: Attempt): Verdict {
    var opening := Opening(past, window, a.ip, a.now);
    var earlier := if opening.Some? then AttemptsFrom(past, opening.value, a.ip) else 0;
    var end := (if opening.Some? then past[opening.value].now else a.now) + window;
    if earlier < a.limit then Verdict(true, 0) else Verdict(false, end - a.now)
  }

  /** The never-emptied table has exactly the address's current window. */
  ghost predicate Tracks(kept: map<string, Bucket>, past: seq<Attempt>, window: nat, ip: string) {
    var last := LastOpening(past, window, ip);
    if last.None? then ip !in kept
    else ip in kept && kept[ip] == Bucket(AttemptsFrom(past, last.value, ip), past[last.value].now + window)
  }

  lemma OneMoreAttempt(past: seq<Attempt>, a: Attempt, window: nat, ip: string, from: nat)
    ensures var all := past + [a];
            && LastOpening(all, window, ip) ==
                 (if a.ip == ip && Opening(past, window, ip, a.now).None? then Some(|past|)
                  else LastOpening(past, window, ip))
            && AttemptsFrom(all, from, ip) ==
                 (if |past| < from then 0 else AttemptsFrom(past, from, ip) + if a.ip == ip then 1 else 0)
            && AttemptsFrom(past, |past|, ip) == 0
  {
    hide Opening;
    assert (past + [a])[..|past|] == past;
  }

  lemma CountingTracks(kept: map<string, Bucket>, past: seq<Attempt>, window: nat, a: Attempt, ip: string)
    requires Tracks(kept, past, window, ip)
    ensures Tracks(Counted(kept, window, a).0, past + [a], window, ip)
    ensures a.ip == ip ==> Counted(kept, window, a).1 == Answer(past, window, a)
  {
    hide LastOpening;
    hide AttemptsFrom;
    var last := LastOpening(past, window, ip);
    OneMoreAttempt(past, a, window, ip, |past|);
    if last.Some? {
      OneMoreAttempt(past, a, window, ip, last.value);
      assert (past + [a])[last.value] == past[last.value];
    }
  }

  lemma {:induction false} KeptTracks(past: seq<Attempt>, window: nat, ip: string)
    ensures Tracks(KeptAfter(map[], window, past), past, window, ip)
    decreases |past|
  {
    hide Counted;
    hide Tracks;
    if past == [] {
      NothingTracked(window, ip);
    } else {
      var before, a := past[..|past| - 1], past[|past| - 1];
      assert before + [a] == past;
      KeptTracks(before, window, ip);
      CountingTracks(KeptAfter(map[], window, before), before, window, a, ip);
      KeptAfterSplits(map[], window, before, [a]);
      OneMoreKept(KeptAfter(map[], window, before), window, a, []);
      assert [a] + [] == [a];
    }
  }

  lemma NothingTracked(window: nat, ip: string)
    ensures Tracks(map[], [], window, ip)
  {
  }

  /**
   Under a clock that never goes back every attempt is let through exactly when fewer than the limit of its address
   have come since the one that opened its window, and a refusal tells the time left of that window.
   */
  lemma AnswersAreExact(window: nat, attempts: seq<Attempt>, i: nat)
    requires ClockNeverGoesBack(attempts) && i < |attempts|
    ensures Verdicts(EMPTY, window, attempts)[i] == Answer(attempts[..i], window, attempts[i])
  {
    hide Verdicts;
    hide KeepingVerdicts;
    hide KeptAfter;
    hide Counted;
    hide Answer;
    hide Tracks;
    CleanupIsInvisible(window, attempts);
    VerdictAt(map[], window, attempts, i);
    KeptTracks(attempts[..i], window, attempts[i].ip);
    CountingTracks(KeptAfter(map[], window, attempts[..i]), attempts[..i], window, attempts[i], attempts[i].ip);
  }

  /** Attempts of one host count together, whatever ports they come from, and those of two hosts do not. */
  lemma HostsAreCounted(addr: string, addr': string, host: string, host': string)
    requires host != "" && host' != "" && addr != ""
    ensures BucketKey(addr, Some(host)) == BucketKey(addr', Some(host')) <==> host == host'
    ensures BucketKey(addr, None) == addr && BucketKey("", None) == BucketKey(addr, Some("")) == "unknown"
  {
  }

}
