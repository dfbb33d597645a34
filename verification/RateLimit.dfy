/**
 The fixed-window limiter whose counting is one Redis script (apps/api/src/middleware/ratelimit.ts:8-28), and
 the device-wipe limiters built on it (207-279). Times are in milliseconds; a script sees one time throughout.
 */
module RateLimit {
  import opened Wrappers

  /** A key that holds a counter: `deadline` is the last moment at which the key exists. */
  datatype Entry = Entry(count: int, deadline: Option<int>)

  type Db = map<string, Entry>

  /** What a command sees: a key past its deadline is gone. */
  function Live(db: Db, key: string, now: int): Option<Entry> {
    if key in db && (db[key].deadline.Some? ==> now <= db[key].deadline.value) then Some(db[key]) else None
  }

  /** The effect of the script on the key. */
  function Hit(e: Option<Entry>, window: nat, now: int): Entry {
    match e
    case None => Entry(1, Some(now + window))
    case Some(e) =>
      if e.count == 0 || e.deadline.None? then Entry(e.count + 1, Some(now + window))
      else Entry(e.count + 1, e.deadline)
  }

  function HitKey(db: Db, key: string, window: nat, now: int): Db {
    db[key := Hit(Live(db, key, now), window, now)]
  }

  /** Every rate-limited key has a deadline after a call, not yet passed; a deadline within the window stays
      within the window, and a key that lost its deadline gets one again. */
  lemma HitSetsDeadline(db: Db, key: string, window: nat, now: int)
    ensures var e := HitKey(db, key, window, now)[key];
            && e.deadline.Some? && now <= e.deadline.value
            && (Live(db, key, now) == None || db[key].deadline == None ==> e.deadline.value == now + window)
            && (key in db && db[key].deadline.Some? && db[key].deadline.value <= now + window ==>
                  e.deadline.value <= now + window)
  {
  }

  datatype Tier = Tier(key: string, max: nat)

  datatype Outcome = Admitted | Limited | Unavailable

  /** The call for this tier throws, before or after Redis has run the script. */
  datatype Fault = Fault(tier: nat, applied: bool)

  function Later(fault: Option<Fault>): Option<Fault> {
    if fault.Some? && fault.value.tier > 0 then Some(Fault(fault.value.tier - 1, fault.value.applied)) else None
  }

  /** One request: the tiers in order, until one is exceeded or throws. */
  function Visit(db: Db, tiers: seq<Tier>, window: nat, now: int, fault: Option<Fault>): (Db, Outcome)
    decreases |tiers|
  {
    if tiers == [] then (db, Admitted)
    else
      var hit := HitKey(db, tiers[0].key, window, now);
      if fault.Some? && fault.value.tier == 0 then (if fault.value.applied then hit else db, Unavailable)
      else if hit[tiers[0].key].count > tiers[0].max then (hit, Limited)
      else Visit(hit, tiers[1..], window, now, Later(fault))
  }

  class Redis {
    var keys: Db

    method Incr(key: string, now: int) returns (value: int)
      modifies this
      ensures var e := Live(old(keys), key, now);
              value == (if e.Some? then e.value.count + 1 else 1)
              && keys == old(keys)[key := Entry(value, if e.Some? then e.value.deadline else None)]
    {
      var e := Live(keys, key, now);
      if e.Some? { value := e.value.count + 1; } else { value := 1; }
      keys := keys[key := Entry(value, if e.Some? then e.value.deadline else None)];
    }

    /** Remaining seconds, rounded to the nearest; -1 without a deadline, -2 without a key. */
    method Ttl(key: string, now: int) returns (seconds: int)
      ensures seconds == -2 <==> Live(keys, key, now) == None
      ensures seconds == -1 <==> Live(keys, key, now).Some? && keys[key].deadline == None
      ensures seconds >= 0 ==> seconds == (keys[key].deadline.value - now + 500) / 1000
      ensures seconds >= -2
    {
      var e := Live(keys, key, now);
      if e == None { return -2; }
      if e.value.deadline == None { return -1; }
      return (e.value.deadline.value - now + 500) / 1000;
    }

    method Expire(key: string, seconds: nat, now: int)
      requires Live(keys, key, now).Some?
      modifies this
      ensures keys == old(keys)[key := Entry(old(keys)[key].count, Some(now + 1000 * seconds))]
    {
      keys := keys[key := Entry(keys[key].count, Some(now + 1000 * seconds))];
    }

    /** The script: `return {current, ttl}`. */
    method ConsumeAtomic(key: string, windowSeconds: nat, now: int) returns (current: int, ttl: int)
      modifies this
      ensures keys == HitKey(old(keys), key, 1000 * windowSeconds, now)
      ensures current == keys[key].count
      ensures ttl == (keys[key].deadline.value - now + 500) / 1000
    {
      current := Incr(key, now);
      ttl := Ttl(key, now);
      if current == 1 || ttl < 0 {
        Expire(key, windowSeconds, now);
        ttl := windowSeconds;
      }
    }

    /** The limiters' loop over their tiers; the binding limiter has a single one. */
    method Limit(tiers: seq<Tier>, windowSeconds: nat, now: int, fault: Option<Fault>) returns (outcome: Outcome)
      modifies this
      ensures (keys, outcome) == Visit(old(keys), tiers, 1000 * windowSeconds, now, fault)
    {
      var i, f := 0, fault;
      while i < |tiers|
        invariant 0 <= i <= |tiers|
        invariant Visit(keys, tiers[i..], 1000 * windowSeconds, now, f)
               == Visit(old(keys), tiers, 1000 * windowSeconds, now, fault)
      {
        var tier := tiers[i];
        assert tiers[i..][1..] == tiers[i + 1..];
        if f.Some? && f.value.tier == 0 {
          if f.value.applied { var _, _ := ConsumeAtomic(tier.key, windowSeconds, now); }
          return Unavailable;
        }
        var current, _ := ConsumeAtomic(tier.key, windowSeconds, now);
        if current > tier.max { return Limited; }
        i, f := i + 1, Later(f);
      }
      return Admitted;
    }
  }

  // ---------------------------------------------------------------- within one window

  /** The calls of one window, from its first: exactly the first `max` of them are admitted. */
  lemma {:induction false} WindowAdmitsTheFirst(db: Db, tier: Tier, window: nat, start: int, times: seq<int>, i: nat)
    requires i < |times| && times[0] == start && Live(db, tier.key, start) == None
    requires forall j :: 0 <= j < |times| ==> start <= times[j] <= start + window
    ensures var before := AfterHits(db, tier.key, window, times[..i]);
            Visit(before, [tier], window, times[i], None).1 == if i < tier.max then Admitted else Limited
  {
    CountInWindow(db, tier.key, window, start, times, i);
    assert [tier][1..] == [];
  }

  function AfterHits(db: Db, key: string, window: nat, times: seq<int>): Db {
    if times == [] then db
    else HitKey(AfterHits(db, key, window, times[..|times| - 1]), key, window, times[|times| - 1])
  }

  lemma {:induction false} CountInWindow(db: Db, key: string, window: nat, start: int, times: seq<int>, i: nat)
    requires i < |times| && times[0] == start && Live(db, key, start) == None
    requires forall j :: 0 <= j < |times| ==> start <= times[j] <= start + window
    ensures Hit(Live(AfterHits(db, key, window, times[..i]), key, times[i]), window, times[i])
         == Entry(i + 1, Some(start + window))
  {
    if i > 0 {
      CountInWindow(db, key, window, start, times, i - 1);
      assert times[..i][..i - 1] == times[..i - 1];
    }
  }

  // ---------------------------------------------------------------- over any interval

  datatype Call = Call(now: int, tiers: seq<Tier>, fault: Option<Fault>)

  predicate Ordered(calls: seq<Call>) { forall i, j :: 0 <= i < j < |calls| ==> calls[i].now <= calls[j].now }

  /** No key twice in one request, and the same bound for the key in every request. */
  predicate Consistent(calls: seq<Call>, k: Tier) {
    forall c <- calls :: TiersConsistent(c.tiers, k)
  }

  predicate TiersConsistent(tiers: seq<Tier>, k: Tier) {
    (forall i, j :: 0 <= i < j < |tiers| ==> tiers[i].key != tiers[j].key)
    && forall t <- tiers :: t.key == k.key ==> t == k
  }

  /** Requests under the bound `k` that are admitted at a time in [from, from + window). */
  function Admissions(db: Db, calls: seq<Call>, window: nat, k: Tier, from: int): nat
    decreases |calls|
  {
    if calls == [] then 0
    else
      var c := calls[0];
      var (after, outcome) := Visit(db, c.tiers, window, c.now, c.fault);
      (if outcome == Admitted && k in c.tiers && from <= c.now < from + window then 1 else 0)
      + Admissions(after, calls[1..], window, k, from)
  }

  function Min(a: int, b: int): int { if a < b then a else b }

  /** `n` requests have been admitted since `from`: either they share the current window with an earlier
      call, or the current window will outlast the interval. */
  predicate Paid(db: Db, k: Tier, n: nat, from: int, window: nat) {
    if k.key in db then
      var e := db[k.key];
      e.count >= 1
      && (n <= Min(e.count, k.max) - 1
          || (e.deadline.Some? && e.deadline.value >= from + window && n <= k.max - 1 + Min(e.count, k.max)))
    else n == 0
  }

  predicate Same(db: Db, after: Db, key: string) {
    (key in db <==> key in after) && (key in db ==> after[key] == db[key])
  }

  predicate WasHit(db: Db, after: Db, key: string, window: nat, now: int) {
    key in after && after[key] == Hit(Live(db, key, now), window, now)
  }

  /** A request leaves a key alone or hits it once, and is admitted only if no counter exceeds its bound. */
  lemma {:induction false} VisitOfTier(db: Db, tiers: seq<Tier>, window: nat, now: int, fault: Option<Fault>, k: Tier)
    requires TiersConsistent(tiers, k)
    ensures var (after, outcome) := Visit(db, tiers, window, now, fault);
            && (Same(db, after, k.key) || WasHit(db, after, k.key, window, now))
            && ((forall t <- tiers :: t.key != k.key) ==> Same(db, after, k.key))
            && (outcome == Admitted && k in tiers
                ==> WasHit(db, after, k.key, window, now) && after[k.key].count <= k.max)
    decreases |tiers|
  {
    if tiers != [] {
      var t, rest := tiers[0], tiers[1..];
      var hit := HitKey(db, t.key, window, now);
      assert t in tiers;
      forall i, j | 0 <= i < j < |rest| ensures rest[i].key != rest[j].key {
        assert rest[i] == tiers[i + 1] && rest[j] == tiers[j + 1];
      }
      VisitOfTier(hit, rest, window, now, Later(fault), k);
      if t.key == k.key {
        forall u | u in rest ensures u.key != k.key {
          var j :| 0 <= j < |rest| && rest[j] == u;
          assert tiers[0].key != tiers[j + 1].key;
        }
      } else {
        assert Live(hit, k.key, now) == Live(db, k.key, now);
      }
    }
  }

  lemma HitKeepsPaid(db: Db, after: Db, k: Tier, n: nat, admitted: nat, from: int, window: nat, now: int)
    requires k.max >= 1 && admitted <= 1 && Paid(db, k, n, from, window)
    requires WasHit(db, after, k.key, window, now)
    requires admitted == 1 ==> after[k.key].count <= k.max
    requires now < from ==> n == 0 && admitted == 0
    requires now < from + window
    ensures Paid(after, k, n + admitted, from, window)
  {
  }

  lemma {:induction false} NoneAfterInterval(db: Db, calls: seq<Call>, window: nat, k: Tier, from: int)
    requires forall c <- calls :: c.now >= from + window
    ensures Admissions(db, calls, window, k, from) == 0
    decreases |calls|
  {
    if calls != [] {
      assert calls[0] in calls;
      NoneAfterInterval(Visit(db, calls[0].tiers, window, calls[0].now, calls[0].fault).0, calls[1..], window, k, from);
    }
  }

  lemma {:induction false} BoundFrom(db: Db, calls: seq<Call>, window: nat, k: Tier, from: int, n: nat)
    requires k.max >= 1 && Ordered(calls) && Consistent(calls, k)
    requires Paid(db, k, n, from, window)
    requires n > 0 ==> forall c <- calls :: c.now >= from
    ensures n + Admissions(db, calls, window, k, from) <= 2 * k.max - 1
    decreases |calls|
  {
    if calls != [] {
      var c, rest := calls[0], calls[1..];
      assert c in calls;
      forall i, j | 0 <= i < j < |rest| ensures rest[i].now <= rest[j].now {
        assert rest[i] == calls[i + 1] && rest[j] == calls[j + 1];
      }
      forall d | d in rest ensures c.now <= d.now {
        var j :| 0 <= j < |rest| && rest[j] == d;
        assert calls[0].now <= calls[j + 1].now;
      }
      var (after, outcome) := Visit(db, c.tiers, window, c.now, c.fault);
      if c.now >= from + window {
        NoneAfterInterval(after, rest, window, k, from);
      } else {
        VisitOfTier(db, c.tiers, window, c.now, c.fault, k);
        var admitted := if outcome == Admitted && k in c.tiers && from <= c.now then 1 else 0;
        if WasHit(db, after, k.key, window, c.now) {
          HitKeepsPaid(db, after, k, n, admitted, from, window, c.now);
        }
        BoundFrom(after, rest, window, k, from, n + admitted);
      }
    }
  }

  /** Whatever the calls, their tiers, their times and their faults: in no interval of one window's length are
      2·max or more requests admitted under one key. (A counter that exists has counted at least one call.) */
  lemma SlidingBound(db: Db, calls: seq<Call>, window: nat, k: Tier, from: int)
    requires k.max >= 1 && Ordered(calls) && Consistent(calls, k)
    requires k.key in db ==> db[k.key].count >= 1
    ensures Admissions(db, calls, window, k, from) <= 2 * k.max - 1
  {
    BoundFrom(db, calls, window, k, from, 0);
  }

  function Repeated(c: Call, n: nat): seq<Call> { if n == 0 then [] else [c] + Repeated(c, n - 1) }

  lemma SingleVisit(db: Db, k: Tier, window: nat, now: int)
    requires HitKey(db, k.key, window, now)[k.key].count <= k.max
    ensures Visit(db, [k], window, now, None) == (HitKey(db, k.key, window, now), Admitted)
  {
    var hit := HitKey(db, k.key, window, now);
    assert [k][1..] == [];
    assert Visit(hit, [], window, now, None) == (hit, Admitted);
  }

  lemma {:induction false} RepeatedAdmits(db: Db, c: Call, n: nat, rest: seq<Call>, window: nat, k: Tier, from: int)
    requires c == Call(c.now, [k], None) && k.key in db
    requires db[k.key].count > 0 && db[k.key].count + n <= k.max
    requires db[k.key].deadline.Some? && c.now <= db[k.key].deadline.value
    ensures Admissions(db, Repeated(c, n) + rest, window, k, from)
         == (if from <= c.now < from + window then n else 0)
            + Admissions(db[k.key := Entry(db[k.key].count + n, db[k.key].deadline)], rest, window, k, from)
    decreases n
  {
    if n == 0 {
      assert Repeated(c, 0) + rest == rest;
      assert db[k.key := Entry(db[k.key].count, db[k.key].deadline)] == db;
    } else {
      var calls := Repeated(c, n) + rest;
      assert calls[0] == c && calls[1..] == Repeated(c, n - 1) + rest;
      SingleVisit(db, k, window, c.now);
      var after := HitKey(db, k.key, window, c.now);
      assert after == db[k.key := Entry(db[k.key].count + 1, db[k.key].deadline)];
      RepeatedAdmits(after, c, n - 1, rest, window, k, from);
      assert after[k.key := Entry(db[k.key].count + n, db[k.key].deadline)]
          == db[k.key := Entry(db[k.key].count + n, db[k.key].deadline)];
    }
  }

  lemma FirstAdmits(db: Db, now: int, rest: seq<Call>, window: nat, k: Tier, from: int)
    requires k.max >= 1 && Live(db, k.key, now) == None
    ensures Admissions(db, [Call(now, [k], None)] + rest, window, k, from)
         == (if from <= now < from + window then 1 else 0)
            + Admissions(db[k.key := Entry(1, Some(now + window))], rest, window, k, from)
  {
    var calls := [Call(now, [k], None)] + rest;
    assert calls[1..] == rest;
    SingleVisit(db, k, window, now);
  }

  lemma RepeatedAlone(db: Db, c: Call, n: nat, window: nat, k: Tier, from: int)
    requires c == Call(c.now, [k], None) && k.key in db
    requires db[k.key].count > 0 && db[k.key].count + n <= k.max
    requires db[k.key].deadline.Some? && c.now <= db[k.key].deadline.value
    requires from <= c.now < from + window
    ensures Admissions(db, Repeated(c, n), window, k, from) == n
  {
    RepeatedAdmits(db, c, n, [], window, k, from);
    assert Repeated(c, n) + [] == Repeated(c, n);
  }

  lemma NextWindowAdmits(full: Db, window: nat, k: Tier)
    requires k.max >= 1 && window >= 2
    requires k.key in full && full[k.key] == Entry(k.max, Some(window))
    ensures var next := Call(window + 1, [k], None);
            Admissions(full, [next] + Repeated(next, k.max - 1), window, k, window) == k.max
  {
    var next := Call(window + 1, [k], None);
    var last := Repeated(next, k.max - 1);
    RepeatedAlone(full[k.key := Entry(1, Some(window + 1 + window))], next, k.max - 1, window, k, window);
    FirstAdmits(full, window + 1, last, window, k, window);
  }

  /** The bound is the best possible: one call, the rest of its window at the last moment, and the whole of the
      next window right after it. */
  lemma BoundIsReached(window: nat, k: Tier)
    requires k.max >= 1 && window >= 2
    ensures var calls := [Call(0, [k], None)] + (Repeated(Call(window, [k], None), k.max - 1)
              + ([Call(window + 1, [k], None)] + Repeated(Call(window + 1, [k], None), k.max - 1)));
            Admissions(map[], calls, window, k, window) == 2 * k.max - 1
  {
    var late, next := Call(window, [k], None), Call(window + 1, [k], None);
    var last := [next] + Repeated(next, k.max - 1);
    var db := map[k.key := Entry(1, Some(window))];
    assert map[][k.key := Entry(1, Some(window))] == db;
    FirstAdmits(map[], 0, Repeated(late, k.max - 1) + last, window, k, window);
    RepeatedAdmits(db, late, k.max - 1, last, window, k, window);
    NextWindowAdmits(db[k.key := Entry(k.max, Some(window))], window, k);
  }

  // ---------------------------------------------------------------- the device-wipe limiters

  const LOOKUP_WINDOW := 60

  function IpTier(ip: string): Tier { Tier("ratelimit:device-wipe-lookup:ip:" + ip, 600) }

  function ProjectTier(project: string, ip: string): Tier {
    Tier("ratelimit:device-wipe-lookup:project:" + project + ":" + ip, 240)
  }

  function BindingTier(digest: string, ip: string): Tier {
    Tier("ratelimit:device-wipe-lookup:binding:" + digest + ":" + ip, 120)
  }

  function LookupTiers(project: string, digest: string, ip: string): seq<Tier> {
    [IpTier(ip), ProjectTier(project, ip), BindingTier(digest, ip)]
  }

  /** The kind of a lookup key is told by one character, so keys of different tiers never meet. */
  lemma TierOfKey(project: string, digest: string, ip: string)
    ensures IpTier(ip).key[29] == 'i' && ProjectTier(project, ip).key[29] == 'p'
    ensures BindingTier(digest, ip).key[29] == 'b'
  {
  }

  const BINDING_WINDOW := 15 * 60

  function WipeTier(ip: string): Tier { Tier("ratelimit:device-wipe-binding:" + ip, 30) }

  /** A binding request is limited by address alone: fewer than 60 in any quarter of an hour. */
  lemma BindingBound(db: Db, calls: seq<Call>, ip: string, from: int)
    requires Ordered(calls) && forall c <- calls :: exists other: string :: c.tiers == [WipeTier(other)]
    requires WipeTier(ip).key in db ==> db[WipeTier(ip).key].count >= 1
    ensures Admissions(db, calls, 1000 * BINDING_WINDOW, WipeTier(ip), from) < 60
  {
    SlidingBound(db, calls, 1000 * BINDING_WINDOW, WipeTier(ip), from);
  }

  /** A lookup: the identities of the request decide its tiers. */
  datatype Lookup = Lookup(now: int, project: string, digest: string, ip: string, fault: Option<Fault>)

  function CallsOf(lookups: seq<Lookup>): (calls: seq<Call>)
    ensures |calls| == |lookups|
  {
    if lookups == [] then []
    else
      var l := lookups[0];
      [Call(l.now, LookupTiers(l.project, l.digest, l.ip), l.fault)] + CallsOf(lookups[1..])
  }

  lemma {:induction false} CallAt(lookups: seq<Lookup>, i: nat)
    requires i < |lookups|
    ensures var l := lookups[i];
            CallsOf(lookups)[i] == Call(l.now, LookupTiers(l.project, l.digest, l.ip), l.fault)
  {
    if i > 0 { CallAt(lookups[1..], i - 1); }
  }

  lemma LookupsConsistent(l: Lookup, k: Tier, project: string, digest: string, ip: string)
    requires k in LookupTiers(project, digest, ip)
    ensures TiersConsistent(LookupTiers(l.project, l.digest, l.ip), k)
  {
    TierOfKey(l.project, l.digest, l.ip);
    TierOfKey(project, digest, ip);
  }

  /** Three tiers: over any minute, an address is admitted fewer than 1200 times, with one project fewer than
      480 times, and with one binding fewer than 240 times. */
  lemma LookupBounds(db: Db, lookups: seq<Lookup>, from: int, project: string, digest: string, ip: string)
    requires forall i, j :: 0 <= i < j < |lookups| ==> lookups[i].now <= lookups[j].now
    requires forall key <- db :: db[key].count >= 1
    ensures Admissions(db, CallsOf(lookups), 1000 * LOOKUP_WINDOW, IpTier(ip), from) < 1200
    ensures Admissions(db, CallsOf(lookups), 1000 * LOOKUP_WINDOW, ProjectTier(project, ip), from) < 480
    ensures Admissions(db, CallsOf(lookups), 1000 * LOOKUP_WINDOW, BindingTier(digest, ip), from) < 240
  {
    var calls := CallsOf(lookups);
    forall i, j | 0 <= i < j < |calls| ensures calls[i].now <= calls[j].now {
      CallAt(lookups, i);
      CallAt(lookups, j);
    }
    forall k | k in LookupTiers(project, digest, ip) ensures Consistent(calls, k) {
      forall c | c in calls ensures TiersConsistent(c.tiers, k) {
        var i :| 0 <= i < |calls| && calls[i] == c;
        CallAt(lookups, i);
        LookupsConsistent(lookups[i], k, project, digest, ip);
      }
    }
    SlidingBound(db, calls, 1000 * LOOKUP_WINDOW, IpTier(ip), from);
    SlidingBound(db, calls, 1000 * LOOKUP_WINDOW, ProjectTier(project, ip), from);
    SlidingBound(db, calls, 1000 * LOOKUP_WINDOW, BindingTier(digest, ip), from);
  }
}
