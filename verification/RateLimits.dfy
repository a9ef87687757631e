// The fixed-window rate limiter of the permit issuer (apps/permit-issuer/src/domain.ts), with its cleanup.
module RateLimits {
  datatype Bucket = Bucket(bucket: int, count: nat, expiresAt: int)

  type Table = map<string, Bucket>

  // consumeRateLimit: the table after the call, and whether the call is within the limit.
  function Consume(t: Table, key: string, now: int, windowMs: nat, limit: nat): (Table, bool)
    requires windowMs > 0
  {
    var bucket := now / windowMs;
    var count := if key in t && t[key].bucket == bucket then t[key].count + 1 else 1;
    (t[key := Bucket(bucket, count, (bucket + 1) * windowMs)], count <= limit)
  }

  // The rate-limit loop of cleanupExpiredState.
  function Forget(t: Table, now: int): Table {
    map k | k in t && t[k].expiresAt > now :: t[k]
  }

  // ---- runs of calls and cleanups ----

  datatype Event =
    | Hit(key: string, now: int, windowMs: nat, limit: nat)
    | Cleanup(now: int)

  // Times do not decrease, and calls for `key` always use one window and one limit.
  ghost predicate Regular(events: seq<Event>, key: string, windowMs: nat, limit: nat) {
    && windowMs > 0
    && (forall i, j | 0 <= i <= j < |events| :: events[i].now <= events[j].now)
    && (forall i | 0 <= i < |events| && events[i].Hit? ::
          events[i].windowMs > 0
          && (events[i].key == key ==> events[i].windowMs == windowMs && events[i].limit == limit))
  }

  ghost predicate Sane(events: seq<Event>) {
    forall i | 0 <= i < |events| && events[i].Hit? :: events[i].windowMs > 0
  }

  ghost function After(events: seq<Event>): Table
    requires Sane(events)
  {
    if events == [] then map[]
    else
      var t := After(events[..|events| - 1]);
      match events[|events| - 1]
      case Hit(key, now, windowMs, limit) => Consume(t, key, now, windowMs, limit).0
      case Cleanup(now) => Forget(t, now)
  }

  // Whether the i-th event, a call, was let through.
  ghost predicate Granted(events: seq<Event>, i: nat)
    requires Sane(events) && i < |events| && events[i].Hit?
  {
    Consume(After(events[..i]), events[i].key, events[i].now, events[i].windowMs, events[i].limit).1
  }

  // Calls for `key` in bucket b; cleanups do not appear in it.
  ghost function Hits(events: seq<Event>, key: string, windowMs: nat, b: int): nat
    requires windowMs > 0
  {
    if events == [] then 0
    else
      var last := events[|events| - 1];
      Hits(events[..|events| - 1], key, windowMs, b)
      + if last.Hit? && last.key == key && last.now / windowMs == b then 1 else 0
  }

  ghost function GrantedIn(events: seq<Event>, key: string, lo: int, hi: int): nat
    requires Sane(events)
  {
    if events == [] then 0
    else
      var last := events[|events| - 1];
      GrantedIn(events[..|events| - 1], key, lo, hi)
      + if last.Hit? && last.key == key && lo <= last.now < hi && Granted(events, |events| - 1) then 1 else 0
  }

  lemma BucketOf(now: int, windowMs: nat, b: int)
    requires windowMs > 0
    ensures now / windowMs == b <==> b * windowMs <= now < (b + 1) * windowMs
  {
    var q, r := now / windowMs, now % windowMs;
    assert now == q * windowMs + r && 0 <= r < windowMs;
    if b * windowMs <= now < (b + 1) * windowMs {
      if q < b { MulKeepsOrder(q + 1, b, windowMs); }
      if b < q { MulKeepsOrder(b + 1, q, windowMs); }
    }
  }

  lemma MulKeepsOrder(a: int, b: int, m: nat)
    requires a <= b
    ensures a * m <= b * m
  {
    assert (b - a) * m >= 0;
  }

  lemma BucketsOrdered(a: int, b: int, windowMs: nat)
    requires windowMs > 0 && a <= b
    ensures a / windowMs <= b / windowMs
  {
    BucketOf(a, windowMs, a / windowMs);
    BucketOf(b, windowMs, b / windowMs);
    if b / windowMs < a / windowMs { MulKeepsOrder(b / windowMs + 1, a / windowMs, windowMs); }
  }

  lemma {:induction false} NoHitsAhead(events: seq<Event>, key: string, windowMs: nat, b: int, now: int)
    requires windowMs > 0 && now / windowMs < b
    requires forall i | 0 <= i < |events| :: events[i].now <= now
    ensures Hits(events, key, windowMs, b) == 0
  {
    if events != [] {
      NoHitsAhead(events[..|events| - 1], key, windowMs, b, now);
      BucketsOrdered(events[|events| - 1].now, now, windowMs);
    }
  }

  // The table knows the count of the current bucket, whatever cleanups ran.
  lemma {:induction false} TableTracks(events: seq<Event>, key: string, windowMs: nat, limit: nat, now: int)
    requires Regular(events, key, windowMs, limit) && forall i | 0 <= i < |events| :: events[i].now <= now
    ensures var t := After(events);
            && (key in t ==> t[key].expiresAt == (t[key].bucket + 1) * windowMs)
            && Hits(events, key, windowMs, now / windowMs)
               == if key in t && t[key].bucket == now / windowMs then t[key].count else 0
  {
    if events != [] {
      var prefix, last := events[..|events| - 1], events[|events| - 1];
      TableTracks(prefix, key, windowMs, limit, now);
      if last.Cleanup? {
        BucketOf(now, windowMs, now / windowMs);
      } else if last.key == key {
        TableTracks(prefix, key, windowMs, limit, last.now);
        BucketsOrdered(last.now, now, windowMs);
        if last.now / windowMs < now / windowMs {
          NoHitsAhead(prefix, key, windowMs, now / windowMs, last.now);
        }
      }
    }
  }

  // Event i is the last call for the key, and no cleanup since ran at or after the end of its window.
  ghost predicate LivesFrom(events: seq<Event>, key: string, i: int) {
    && 0 <= i < |events| && events[i].Hit? && events[i].key == key && events[i].windowMs > 0
    && (forall j | i < j < |events| && events[j].Hit? :: events[j].key != key)
    && forall j | i < j < |events| && events[j].Cleanup? ::
         events[j].now < WindowEnd(events[i].now, events[i].windowMs)
  }

  function WindowEnd(now: int, windowMs: nat): int
    requires windowMs > 0
  {
    (now / windowMs + 1) * windowMs
  }

  // One more event lets an earlier call live on, unless it is a call for the key or a cleanup after its window.
  lemma LivesOn(prefix: seq<Event>, last: Event, key: string, i: nat)
    requires i < |prefix|
    ensures LivesFrom(prefix + [last], key, i) <==>
            && LivesFrom(prefix, key, i)
            && if last.Hit? then last.key != key else last.now < WindowEnd(prefix[i].now, prefix[i].windowMs)
  {
    var events := prefix + [last];
    assert forall j | 0 <= j < |prefix| :: events[j] == prefix[j];
    assert events[|prefix|] == last;
  }

  // The table holds a key from its last call until the first cleanup at or after the end of that window.
  lemma {:induction false} TableHolds(events: seq<Event>, key: string) returns (i: int)
    requires Sane(events)
    ensures key in After(events) ==>
              && LivesFrom(events, key, i)
              && After(events)[key].expiresAt == WindowEnd(events[i].now, events[i].windowMs)
    ensures key !in After(events) ==> forall j :: !LivesFrom(events, key, j)
  {
    i := -1;
    if events != [] {
      var n := |events| - 1;
      var prefix, last := events[..n], events[n];
      assert events == prefix + [last];
      i := TableHolds(prefix, key);
      if last.Hit? && last.key == key {
        i := n;
      } else if key in After(prefix) {
        LivesOn(prefix, last, key, i);
        forall j | LivesFrom(events, key, j) ensures j == i {
          if j != n { LivesOn(prefix, last, key, j); }
        }
      } else {
        forall j ensures !LivesFrom(events, key, j) {
          if 0 <= j < n { LivesOn(prefix, last, key, j); }
        }
      }
    }
  }

  // The answer depends only on the earlier calls in the same bucket: cleanups at any points change nothing.
  lemma AnswerIsCount(events: seq<Event>, key: string, windowMs: nat, limit: nat, i: nat)
    requires Regular(events, key, windowMs, limit) && i < |events| && events[i].Hit? && events[i].key == key
    ensures Granted(events, i) <==> Hits(events[..i], key, windowMs, events[i].now / windowMs) < limit
  {
    TableTracks(events[..i], key, windowMs, limit, events[i].now);
  }

  ghost function WithoutCleanups(events: seq<Event>): seq<Event> {
    if events == [] then []
    else
      WithoutCleanups(events[..|events| - 1])
      + if events[|events| - 1].Hit? then [events[|events| - 1]] else []
  }

  lemma {:induction false} HitsIgnoreCleanups(events: seq<Event>, key: string, windowMs: nat, b: int)
    requires windowMs > 0
    ensures Hits(WithoutCleanups(events), key, windowMs, b) == Hits(events, key, windowMs, b)
    ensures forall e <- WithoutCleanups(events) :: e in events && e.Hit?
  {
    if events != [] {
      var prefix, last := events[..|events| - 1], events[|events| - 1];
      HitsIgnoreCleanups(prefix, key, windowMs, b);
      if last.Hit? {
        var kept := WithoutCleanups(prefix) + [last];
        assert WithoutCleanups(events) == kept && kept != [];
        assert kept[..|kept| - 1] == WithoutCleanups(prefix) && kept[|kept| - 1] == last;
      } else {
        assert WithoutCleanups(events) == WithoutCleanups(prefix);
      }
    }
  }

  lemma AppendRegular(events: seq<Event>, last: Event, key: string, windowMs: nat, limit: nat)
    requires Regular(events, key, windowMs, limit) && Regular([last], key, windowMs, limit)
    requires forall e <- events :: e.now <= last.now
    ensures Regular(events + [last], key, windowMs, limit)
  {
    var all := events + [last];
    forall i, j | 0 <= i <= j < |all| ensures all[i].now <= all[j].now {
      if j == |events| && i < j { assert all[i] in events; }
    }
  }

  lemma {:induction false} StrippedIsRegular(events: seq<Event>, key: string, windowMs: nat, limit: nat)
    requires Regular(events, key, windowMs, limit)
    ensures Regular(WithoutCleanups(events), key, windowMs, limit)
  {
    if events != [] {
      var prefix, last := events[..|events| - 1], events[|events| - 1];
      StrippedIsRegular(prefix, key, windowMs, limit);
      HitsIgnoreCleanups(prefix, key, windowMs, 0);
      if last.Hit? { AppendRegular(WithoutCleanups(prefix), last, key, windowMs, limit); }
    }
  }

  // A call is answered as if no cleanup had ever run before it.
  lemma CleanupsChangeNothing(events: seq<Event>, key: string, windowMs: nat, limit: nat)
    requires Regular(events, key, windowMs, limit) && events != []
    requires events[|events| - 1].Hit? && events[|events| - 1].key == key
    ensures var bare := WithoutCleanups(events);
            && Regular(bare, key, windowMs, limit) && |bare| > 0 && bare[|bare| - 1] == events[|events| - 1]
            && (Granted(events, |events| - 1) <==> Granted(bare, |bare| - 1))
  {
    var n := |events| - 1;
    var bare := WithoutCleanups(events);
    StrippedIsRegular(events, key, windowMs, limit);
    assert bare[..|bare| - 1] == WithoutCleanups(events[..n]);
    HitsIgnoreCleanups(events[..n], key, windowMs, events[n].now / windowMs);
    AnswerIsCount(events, key, windowMs, limit, n);
    AnswerIsCount(bare, key, windowMs, limit, |bare| - 1);
  }

  // In one bucket the limiter lets through the first `limit` calls and no more.
  lemma {:induction false} BucketGrants(events: seq<Event>, key: string, windowMs: nat, limit: nat, b: int)
    requires Regular(events, key, windowMs, limit)
    ensures GrantedIn(events, key, b * windowMs, (b + 1) * windowMs)
            == var h := Hits(events, key, windowMs, b); if h < limit then h else limit
  {
    if events != [] {
      var prefix, last := events[..|events| - 1], events[|events| - 1];
      BucketGrants(prefix, key, windowMs, limit, b);
      BucketOf(last.now, windowMs, b);
      if last.Hit? && last.key == key { AnswerIsCount(events, key, windowMs, limit, |events| - 1); }
    }
  }

  lemma {:induction false} IntervalSplits(events: seq<Event>, key: string, lo: int, mid: int, hi: int, lo': int,
                                          hi': int)
    requires Sane(events) && lo' <= lo && hi <= hi' && lo' <= mid <= hi'
    ensures GrantedIn(events, key, lo, hi) <= GrantedIn(events, key, lo', mid) + GrantedIn(events, key, mid, hi')
  {
    if events != [] {
      IntervalSplits(events[..|events| - 1], key, lo, mid, hi, lo', hi');
    }
  }

  // At most 2 * limit calls get through in any interval as long as one window.
  lemma WindowGrants(events: seq<Event>, key: string, windowMs: nat, limit: nat, from: int)
    requires Regular(events, key, windowMs, limit)
    ensures GrantedIn(events, key, from, from + windowMs) <= 2 * limit
  {
    var b := from / windowMs;
    BucketOf(from, windowMs, b);
    BucketGrants(events, key, windowMs, limit, b);
    BucketGrants(events, key, windowMs, limit, b + 1);
    assert (b + 1 + 1) * windowMs == (b + 1) * windowMs + windowMs;
    IntervalSplits(events, key, from, (b + 1) * windowMs, from + windowMs, b * windowMs, (b + 1 + 1) * windowMs);
  }
}
