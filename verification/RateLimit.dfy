// The fixed-window rate limiter (src/http/middleware/rate-limit.ts) over a store of counters
// that expire. Times are milliseconds on one clock; reading it, `INCR` and `EXPIRE` are separate
// steps.
module RateLimit {
  import opened Collections

  // The limit of an id does not change during a run.
  datatype Config = Config(windowSeconds: int, limit: string -> int)

  type Key = (string, int)

  datatype Counter = Counter(count: nat, expiresAt: Option<int>)

  type Counters = map<Key, Counter>

  ghost predicate Valid(c: Config) {
    c.windowSeconds > 0
  }

  function Width(c: Config): int {
    1000 * c.windowSeconds
  }

  function Bucket(c: Config, at: int): int
    requires Valid(c)
  {
    at / Width(c)
  }

  // The store drops a key once its time has come.
  function Swept(s: Counters, at: int): Counters {
    map k | k in s && (s[k].expiresAt.None? || s[k].expiresAt.value > at) :: s[k]
  }

  function CountAfterIncr(s: Counters, k: Key, at: int): nat {
    var live := Swept(s, at);
    1 + (if k in live then live[k].count else 0)
  }

  function Incr(s: Counters, k: Key, at: int): Counters {
    var live := Swept(s, at);
    live[k := Counter(CountAfterIncr(s, k, at), if k in live then live[k].expiresAt else None)]
  }

  function Expire(c: Config, s: Counters, k: Key, at: int): Counters {
    var live := Swept(s, at);
    if k in live then live[k := Counter(live[k].count, Some(at + Width(c)))] else live
  }

  class RateLimiter {
    const c: Config
    var counters: Counters

    constructor (c: Config)
      ensures this.c == c && counters == map[]
    {
      this.c := c;
      counters := map[];
    }

    // The store executes the increment at `at` and the expiry, if it is asked to, at `later`.
    method UnderLimit(id: string, now: int, at: int, later: int) returns (allowed: bool)
      requires Valid(c)
      modifies this`counters
      ensures var k := (id, Bucket(c, now));
        && allowed == (CountAfterIncr(old(counters), k, at) <= c.limit(id))
        && counters == (if CountAfterIncr(old(counters), k, at) == 1
                        then Expire(c, Incr(old(counters), k, at), k, later)
                        else Incr(old(counters), k, at))
    {
      var key := (id, Bucket(c, now));
      counters := Swept(counters, at);
      var count := if key in counters then counters[key].count + 1 else 1;
      counters := counters[key := Counter(count, if key in counters then counters[key].expiresAt else None)];
      if count == 1 {
        counters := Expire(c, counters, key, later);
      }
      allowed := count <= c.limit(id);
    }
  }

  // ---- runs, with the commands of any number of processes interleaved ----

  // A request reads the clock at `askedAt`, which decides its window; its INCR is executed at `at`.
  datatype Event = Hit(id: string, askedAt: int, at: int) | SetExpiry(key: Key, at: int)

  function Step(c: Config, s: Counters, e: Event): Counters
    requires Valid(c)
  {
    match e
    case Hit(id, askedAt, at) => Incr(s, (id, Bucket(c, askedAt)), at)
    case SetExpiry(key, at) => Expire(c, s, key, at)
  }

  function Run(c: Config, events: seq<Event>): Counters
    requires Valid(c)
  {
    if events == [] then map[] else Step(c, Run(c, events[..|events| - 1]), events[|events| - 1])
  }

  // Time does not run backwards, and an expiry is only set by a request of that key's window.
  ghost predicate Orderly(c: Config, events: seq<Event>)
    requires Valid(c)
  {
    && (forall i, j :: 0 <= i < j < |events| ==> events[i].at <= events[j].at)
    && (forall i :: 0 <= i < |events| && events[i].Hit? ==> events[i].askedAt <= events[i].at)
    && (forall i :: 0 <= i < |events| && events[i].SetExpiry? ==> events[i].key.1 * Width(c) <= events[i].at)
  }

  function KeyOf(c: Config, e: Event): Key
    requires Valid(c) && e.Hit?
  {
    (e.id, Bucket(c, e.askedAt))
  }

  predicate InWindow(c: Config, e: Event, k: Key)
    requires Valid(c)
  {
    e.Hit? && KeyOf(c, e) == k
  }

  // Requests for a key so far.
  function Hits(c: Config, events: seq<Event>, k: Key): nat
    requires Valid(c)
  {
    if events == [] then 0
    else Hits(c, events[..|events| - 1], k) + if InWindow(c, events[|events| - 1], k) then 1 else 0
  }

  // The limiter's answer to event i.
  predicate Admitted(c: Config, events: seq<Event>, i: nat)
    requires Valid(c) && i < |events|
  {
    events[i].Hit? &&
    CountAfterIncr(Run(c, events[..i]), KeyOf(c, events[i]), events[i].at) <= c.limit(events[i].id)
  }

  function WindowEnd(c: Config, k: Key): int {
    (k.1 + 1) * Width(c)
  }

  // Its INCR is executed before its window ends.
  predicate Punctual(c: Config, e: Event)
    requires Valid(c)
  {
    e.Hit? && e.at < WindowEnd(c, KeyOf(c, e))
  }

  // Until its window ends, a key's counter holds the number of its requests.
  ghost predicate Counts(c: Config, events: seq<Event>, s: Counters, k: Key)
    requires Valid(c)
  {
    if Hits(c, events, k) == 0 then k !in s
    else
      && k in s
      && s[k].count == Hits(c, events, k)
      && (s[k].expiresAt.None? || s[k].expiresAt.value >= WindowEnd(c, k))
  }

  lemma BucketSpan(c: Config, at: int)
    requires Valid(c)
    ensures Bucket(c, at) * Width(c) <= at < (Bucket(c, at) + 1) * Width(c)
  {
  }

  lemma WindowWidth(c: Config, k: Key)
    ensures WindowEnd(c, k) == k.1 * Width(c) + Width(c)
  {
  }

  // Windows are as long as configured, in seconds, and follow each other from the epoch on.
  lemma WindowOf(c: Config, id: string, at: int)
    requires Valid(c)
    ensures var b := Bucket(c, at);
      && b * (1000 * c.windowSeconds) <= at < b * (1000 * c.windowSeconds) + 1000 * c.windowSeconds
      && WindowEnd(c, (id, b)) == b * (1000 * c.windowSeconds) + 1000 * c.windowSeconds
  {
    BucketSpan(c, at);
    WindowWidth(c, (id, Bucket(c, at)));
  }

  lemma CancelWidth(x: int, y: int, w: int)
    requires w > 0 && x * w < y * w
    ensures x < y
  {
  }

  lemma StepCounts(c: Config, events: seq<Event>, s: Counters, e: Event, k: Key)
    requires Valid(c) && Counts(c, events, s, k) && e.at < WindowEnd(c, k)
    requires e.SetExpiry? ==> e.key.1 * Width(c) <= e.at
    ensures Counts(c, events + [e], Step(c, s, e), k)
  {
    assert (events + [e])[..|events|] == events;
    assert k in s ==> k in Swept(s, e.at) && Swept(s, e.at)[k] == s[k];
    WindowWidth(c, k);
  }

  lemma {:induction false} RunCounts(c: Config, events: seq<Event>, k: Key, now: int)
    requires Valid(c) && Orderly(c, events) && now < WindowEnd(c, k)
    requires events != [] ==> events[|events| - 1].at <= now
    ensures Counts(c, events, Run(c, events), k)
  {
    if events != [] {
      var init, last := events[..|events| - 1], events[|events| - 1];
      RunCounts(c, init, k, now);
      StepCounts(c, init, Run(c, init), last, k);
      assert init + [last] == events;
    }
  }

  // Of the requests of one id in one window that are punctual, exactly the first `limit` are admitted.
  lemma AdmittedIff(c: Config, events: seq<Event>, i: nat)
    requires Valid(c) && Orderly(c, events) && i < |events| && Punctual(c, events[i])
    ensures Admitted(c, events, i) <==> Hits(c, events[..i], KeyOf(c, events[i])) < c.limit(events[i].id)
  {
    var before, k := events[..i], KeyOf(c, events[i]);
    RunCounts(c, before, k, events[i].at);
    var s := Run(c, before);
    assert k in s ==> k in Swept(s, events[i].at) && Swept(s, events[i].at)[k] == s[k];
  }

  // ---- late requests ----

  // n requests that read the clock and are counted at the very start of a window, with the expiry
  // the first of them sets.
  function Early(c: Config, k: Key, n: nat): seq<Event> {
    var hit := Hit(k.0, k.1 * Width(c), k.1 * Width(c));
    if n == 0 then [] else if n == 1 then [hit, SetExpiry(k, hit.at)] else Early(c, k, n - 1) + [hit]
  }

  lemma {:induction false} EarlyEvents(c: Config, k: Key, n: nat, e: Event)
    requires e in Early(c, k, n)
    ensures e.at == k.1 * Width(c)
    ensures e.Hit? ==> e.askedAt == e.at
    ensures e.SetExpiry? ==> e.key == k
  {
    if n > 1 && e in Early(c, k, n - 1) { EarlyEvents(c, k, n - 1, e); }
  }

  lemma WindowStart(c: Config, b: int)
    requires Valid(c)
    ensures Bucket(c, b * Width(c)) == b
  {
    var b', w := Bucket(c, b * Width(c)), Width(c);
    BucketSpan(c, b * w);
    CancelWidth(b', b + 1, w);
    CancelWidth(b, b' + 1, w);
  }

  lemma {:induction false} EarlyRun(c: Config, k: Key, n: nat)
    requires Valid(c) && n > 0
    ensures Run(c, Early(c, k, n)) == map[k := Counter(n, Some(WindowEnd(c, k)))]
    ensures Hits(c, Early(c, k, n), k) == n
  {
    var start, events := k.1 * Width(c), Early(c, k, n);
    WindowStart(c, k.1);
    WindowWidth(c, k);
    if n == 1 {
      assert events[..1] == [Hit(k.0, start, start)] && events[..1][..0] == [];
      assert Run(c, events[..1]) == map[k := Counter(1, None)];
      assert InWindow(c, events[0], k) && Hits(c, events[..1], k) == 1;
    } else {
      EarlyRun(c, k, n - 1);
      assert events[..|events| - 1] == Early(c, k, n - 1);
    }
  }

  // A late request, after `limit` punctual ones: their counter is gone, and it is admitted too.
  lemma LateAdmitted(c: Config, id: string, askedAt: int, at: int) returns (events: seq<Event>)
    requires Valid(c) && c.limit(id) > 0
    requires askedAt <= at && WindowEnd(c, (id, Bucket(c, askedAt))) <= at
    ensures var k, i := (id, Bucket(c, askedAt)), |events| - 1;
      && i >= 0 && Orderly(c, events) && events[i] == Hit(id, askedAt, at)
      && Hits(c, events[..i], k) == c.limit(id) && Admitted(c, events, i)
  {
    var k := (id, Bucket(c, askedAt));
    var early := Early(c, k, c.limit(id));
    events := early + [Hit(id, askedAt, at)];
    BucketSpan(c, askedAt);
    EarlyRun(c, k, c.limit(id));
    forall i | 0 <= i < |early|
      ensures early[i].at == k.1 * Width(c) && (early[i].Hit? ==> early[i].askedAt == early[i].at)
      ensures early[i].SetExpiry? ==> early[i].key == k
    {
      EarlyEvents(c, k, c.limit(id), early[i]);
    }
    assert events[..|events| - 1] == early;
  }

  // The limiter's promise about a request whose INCR is executed at `at`: after any run it is
  // admitted if and only if fewer than `limit` of its window came before.
  ghost predicate Exact(c: Config, id: string, askedAt: int, at: int)
    requires Valid(c)
  {
    forall before: seq<Event> | Orderly(c, before + [Hit(id, askedAt, at)]) ::
      Admitted(c, before + [Hit(id, askedAt, at)], |before|) <==>
      Hits(c, before, (id, Bucket(c, askedAt))) < c.limit(id)
  }

  // It keeps it exactly if the INCR is executed before the window ends, or nothing is ever admitted.
  lemma ExactIff(c: Config, id: string, askedAt: int, at: int)
    requires Valid(c) && askedAt <= at
    ensures Exact(c, id, askedAt, at) <==> at < WindowEnd(c, (id, Bucket(c, askedAt))) || c.limit(id) <= 0
  {
    var late := Hit(id, askedAt, at);
    if at < WindowEnd(c, KeyOf(c, late)) || c.limit(id) <= 0 {
      forall before: seq<Event> | Orderly(c, before + [late])
        ensures Admitted(c, before + [late], |before|) <==> Hits(c, before, KeyOf(c, late)) < c.limit(id)
      {
        assert (before + [late])[..|before|] == before;
        if Punctual(c, late) { AdmittedIff(c, before + [late], |before|); }
      }
    } else {
      var events := LateAdmitted(c, id, askedAt, at);
      assert events == events[..|events| - 1] + [late];
    }
  }

  // ---- bursts of punctual requests ----

  function AdmittedIn(c: Config, events: seq<Event>, n: nat, k: Key): nat
    requires Valid(c) && n <= |events|
  {
    if n == 0 then 0
    else
      var e := events[n - 1];
      AdmittedIn(c, events, n - 1, k) +
      if InWindow(c, e, k) && Punctual(c, e) && Admitted(c, events, n - 1) then 1 else 0
  }

  function AdmittedBetween(c: Config, events: seq<Event>, n: nat, id: string, from: int): nat
    requires Valid(c) && n <= |events|
  {
    if n == 0 then 0
    else
      var e := events[n - 1];
      AdmittedBetween(c, events, n - 1, id, from) +
      if Punctual(c, e) && e.id == id && from <= e.at < from + Width(c) && Admitted(c, events, n - 1) then 1 else 0
  }

  // While a window lasts, the first `limit` of its requests have been admitted and no others.
  lemma {:induction false} WindowAdmits(c: Config, events: seq<Event>, n: nat, k: Key)
    requires Valid(c) && Orderly(c, events) && n <= |events| && c.limit(k.0) >= 0
    requires n > 0 ==> events[n - 1].at < WindowEnd(c, k)
    ensures AdmittedIn(c, events, n, k) ==
      if Hits(c, events[..n], k) < c.limit(k.0) then Hits(c, events[..n], k) else c.limit(k.0)
  {
    if n > 0 {
      WindowAdmits(c, events, n - 1, k);
      assert events[..n][..n - 1] == events[..n - 1];
      if InWindow(c, events[n - 1], k) { AdmittedIff(c, events, n - 1); }
    }
  }

  lemma {:induction false} WindowLimit(c: Config, events: seq<Event>, n: nat, k: Key)
    requires Valid(c) && Orderly(c, events) && n <= |events| && c.limit(k.0) >= 0
    ensures AdmittedIn(c, events, n, k) <= c.limit(k.0)
  {
    if n > 0 {
      if events[n - 1].at < WindowEnd(c, k) {
        WindowAdmits(c, events, n, k);
      } else {
        WindowLimit(c, events, n - 1, k);
      }
    }
  }

  // A punctual request is counted in the window it is executed in.
  lemma PunctualBucket(c: Config, e: Event)
    requires Valid(c) && Punctual(c, e) && e.askedAt <= e.at
    ensures Bucket(c, e.at) == Bucket(c, e.askedAt)
  {
    var w, b, b' := Width(c), Bucket(c, e.askedAt), Bucket(c, e.at);
    BucketSpan(c, e.askedAt);
    BucketSpan(c, e.at);
    CancelWidth(b', b + 1, w);
    CancelWidth(b, b' + 1, w);
  }

  lemma TwoWindows(c: Config, id: string, from: int, at: int)
    requires Valid(c) && from <= at < from + Width(c)
    ensures Bucket(c, from) <= Bucket(c, at) <= Bucket(c, from) + 1
  {
    var w, b, b' := Width(c), Bucket(c, from), Bucket(c, at);
    BucketSpan(c, from);
    BucketSpan(c, at);
    WindowWidth(c, (id, b));
    CancelWidth(b', b + 2, w);
    CancelWidth(b, b' + 1, w);
  }

  lemma {:induction false} SplitByWindow(c: Config, events: seq<Event>, n: nat, id: string, from: int)
    requires Valid(c) && Orderly(c, events) && n <= |events|
    ensures AdmittedBetween(c, events, n, id, from) <=
      AdmittedIn(c, events, n, (id, Bucket(c, from))) + AdmittedIn(c, events, n, (id, Bucket(c, from) + 1))
  {
    if n > 0 {
      SplitByWindow(c, events, n - 1, id, from);
      var e := events[n - 1];
      if Punctual(c, e) && from <= e.at < from + Width(c) {
        PunctualBucket(c, e);
        TwoWindows(c, id, from, e.at);
      }
    }
  }

  // No stretch of time as long as a window admits more than twice the limit of punctual requests.
  lemma BurstBound(c: Config, events: seq<Event>, id: string, from: int)
    requires Valid(c) && Orderly(c, events) && c.limit(id) >= 0
    ensures AdmittedBetween(c, events, |events|, id, from) <= 2 * c.limit(id)
  {
    SplitByWindow(c, events, |events|, id, from);
    WindowLimit(c, events, |events|, (id, Bucket(c, from)));
    WindowLimit(c, events, |events|, (id, Bucket(c, from) + 1));
  }

  function BurstAt(c: Config, m: nat, i: int): int {
    if i < m then Width(c) - 1 else Width(c)
  }

  // `m` requests in the last millisecond of one window, `m` in the first of the next.
  function Burst(c: Config, id: string, m: nat): (events: seq<Event>)
    ensures |events| == 2 * m
    ensures forall i :: 0 <= i < |events| ==> events[i] == Hit(id, BurstAt(c, m, i), BurstAt(c, m, i))
  {
    seq(2 * m, i => Hit(id, BurstAt(c, m, i), BurstAt(c, m, i)))
  }

  lemma BoundaryBuckets(c: Config)
    requires Valid(c)
    ensures Bucket(c, Width(c) - 1) == 0 && Bucket(c, Width(c)) == 1
  {
    var w := Width(c);
    var last, first := Bucket(c, w - 1), Bucket(c, w);
    BucketSpan(c, w - 1);
    BucketSpan(c, w);
    CancelWidth(last, 1, w);
    CancelWidth(0, last + 1, w);
    CancelWidth(first, 2, w);
    CancelWidth(1, first + 1, w);
  }

  lemma {:induction false} BurstHits(c: Config, events: seq<Event>, id: string, m: nat, n: nat)
    requires Valid(c) && n <= |events| == 2 * m
    requires Bucket(c, Width(c) - 1) == 0 && Bucket(c, Width(c)) == 1
    requires forall i :: 0 <= i < |events| ==> events[i] == Hit(id, BurstAt(c, m, i), BurstAt(c, m, i))
    ensures Hits(c, events[..n], (id, 0)) == if n < m then n else m
    ensures Hits(c, events[..n], (id, 1)) == if n < m then 0 else n - m
  {
    if n > 0 {
      BurstHits(c, events, id, m, n - 1);
      assert events[..n][..n - 1] == events[..n - 1];
    }
  }

  // Twice the limit can pass within two milliseconds, across a window boundary.
  lemma BurstBoundReached(c: Config, id: string)
    requires Valid(c) && c.limit(id) >= 0
    ensures var events := Burst(c, id, c.limit(id));
      && Orderly(c, events)
      && |events| == 2 * c.limit(id)
      && forall i :: 0 <= i < |events| ==> Admitted(c, events, i)
  {
    var m := c.limit(id);
    var events := Burst(c, id, m);
    BoundaryBuckets(c);
    assert Orderly(c, events);
    forall i | 0 <= i < |events| ensures Admitted(c, events, i) {
      BurstHits(c, events, id, m, i);
      AdmittedIff(c, events, i);
    }
  }
}
