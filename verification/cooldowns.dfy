/**
 * The cooldown store (`RateLimitCoordinator`): a map from a rate-limit key
 * (a host name) to the instant before which no request to that host may be
 * sent. Instants are .NET ticks and the current instant `now` is passed in
 * explicitly instead of being read from the clock.
 *
 * The functions below specify the store's transitions on plain maps; the
 * class at the end performs them in place, as the C# class does on its
 * `ConcurrentDictionary`.
 */
module Cooldowns {
  import opened Wrappers
  import opened Http

  /** The outcome of `AddOrUpdate` with the "keep the later instant" merge. */
  function Raised(m: map<string, int>, key: string, nextAllowedAt: int): (r: map<string, int>)
    ensures r.Keys == m.Keys + {key}
    ensures key !in m ==> r[key] == nextAllowedAt
    ensures key in m ==> r[key] >= m[key] && r[key] >= nextAllowedAt
    ensures key in m ==> r[key] == m[key] || r[key] == nextAllowedAt
    ensures forall k :: k in m && k != key ==> r[k] == m[k]
  {
    if key in m && !(nextAllowedAt > m[key]) then m else m[key := nextAllowedAt]
  }

  /** The entries still in the future at `now`; every other one has expired. */
  function Live(m: map<string, int>, now: int): (r: map<string, int>)
    ensures forall k :: k in r <==> k in m && m[k] > now
    ensures forall k :: k in r ==> r[k] == m[k]
  {
    map k | k in m && m[k] > now :: m[k]
  }

  /** The time left before `key` may be used again; zero when it is free. */
  function Remaining(m: map<string, int>, key: string, now: int): (r: int)
    ensures r >= 0
    ensures r > 0 <==> key in m && m[key] > now
    ensures r > 0 ==> now + r == m[key]
  {
    if key in m && m[key] - now > 0 then m[key] - now else 0
  }

  /**
   * The map after a reader has looked `key` up at `now`: the entry is
   * dropped when it has expired, and nothing else changes.
   */
  function Observed(m: map<string, int>, key: string, now: int): (r: map<string, int>)
    ensures r.Keys <= m.Keys
    ensures forall k :: k in r ==> r[k] == m[k]
    ensures forall k :: k in m ==> (k !in r <==> k == key && m[k] <= now)
  {
    if key in m && m[key] <= now then m - {key} else m
  }

  /** `v` is the latest instant stored in `m`. */
  predicate IsLatest(v: int, m: map<string, int>) {
    && (exists k :: k in m && m[k] == v)
    && (forall k :: k in m ==> m[k] <= v)
  }

  /** The largest element of a non-empty sequence. */
  function Max(s: seq<int>): (r: int)
    requires s != []
    ensures forall i :: 0 <= i < |s| ==> s[i] <= r
    ensures exists i :: 0 <= i < |s| && s[i] == r
  {
    if |s| == 1 then s[0]
    else
      var tail := Max(s[1..]);
      if s[0] >= tail then s[0] else tail
  }

  /** The store after `UpdateCooldown(key, ·)` has installed each instant of `candidates` in turn. */
  function RaisedAll(m: map<string, int>, key: string, candidates: seq<int>): map<string, int>
    decreases |candidates|
  {
    if candidates == [] then m else RaisedAll(Raised(m, key, candidates[0]), key, candidates[1..])
  }

  /**
   * Monotonic max: after any sequence of updates of one key, the stored
   * instant is the latest of the original entry (if any) and all the
   * candidates, and no other key has changed.
   */
  lemma {:induction false} RaisedAllIsMax(m: map<string, int>, key: string, candidates: seq<int>)
    requires candidates != []
    decreases |candidates|
    ensures var r := RaisedAll(m, key, candidates);
      && r.Keys == m.Keys + {key}
      && r[key] == (if key in m && m[key] > Max(candidates) then m[key] else Max(candidates))
      && forall k :: k in m && k != key ==> r[k] == m[k]
  {
    var m' := Raised(m, key, candidates[0]);
    if |candidates| > 1 {
      RaisedAllIsMax(m', key, candidates[1..]);
      assert candidates == [candidates[0]] + candidates[1..];
    }
  }

  /** An update never lowers the instant stored for any key. */
  lemma {:induction false} RaisedAllNeverLowers(m: map<string, int>, key: string, candidates: seq<int>)
    decreases |candidates|
    ensures var r := RaisedAll(m, key, candidates);
      forall k :: k in m ==> k in r && r[k] >= m[k]
  {
    if candidates != [] {
      RaisedAllNeverLowers(Raised(m, key, candidates[0]), key, candidates[1..]);
    }
  }

  /** Right after `UpdateCooldown(key, d)` with `d > 0`, at least `d` remains for `key`. */
  lemma RemainingAfterUpdate(m: map<string, int>, key: string, now: int, d: int)
    requires d > 0
    ensures Remaining(Raised(m, key, now + d), key, now) >= d
  {
  }

  /** An update with a delay that is not positive leaves no new live entry. */
  lemma ExpiredUpdateIsInvisible(m: map<string, int>, key: string, now: int, d: int)
    requires d <= 0
    ensures Live(Raised(m, key, now + d), now) == Live(m, now)
  {
    var r := Raised(m, key, now + d);
    assert Live(r, now).Keys == Live(m, now).Keys;
  }

  /** Once `key` has expired it reads as free, and the lookup removes it. */
  lemma ExpiredKeyIsDropped(m: map<string, int>, key: string, now: int)
    requires key in m && m[key] <= now
    ensures Remaining(m, key, now) == 0
    ensures key !in Observed(m, key, now)
    ensures Remaining(Observed(m, key, now), key, now) == 0
  {
  }

  /**
   * Two cooldowns of 10 and 20 minutes installed within a minute of `t0`:
   * some entry is still live, and the latest live instant lies strictly
   * between `t0 + 19` and `t0 + 21` minutes.
   */
  lemma LatestOfTwoCooldowns(t0: int, t1: int, t2: int, now: int)
    requires t0 <= t1 <= t2 <= now < t0 + TicksPerMinute
    ensures var live := Live(Raised(Raised(map[], "host1", t1 + 10 * TicksPerMinute), "host2", t2 + 20 * TicksPerMinute), now);
      && live != map[]
      && forall v :: IsLatest(v, live) ==> t0 + 19 * TicksPerMinute < v < t0 + 21 * TicksPerMinute
  {
    var m := Raised(Raised(map[], "host1", t1 + 10 * TicksPerMinute), "host2", t2 + 20 * TicksPerMinute);
    var live := Live(m, now);
    assert "host2" in live;
    forall v | IsLatest(v, live)
      ensures t0 + 19 * TicksPerMinute < v < t0 + 21 * TicksPerMinute
    {
      var k :| k in live && live[k] == v;
      assert k == "host1" || k == "host2";
    }
  }

  /** The map while a scan is in progress: keys still `pending` are untouched, scanned expired keys are gone. */
  function Swept(m: map<string, int>, pending: set<string>, now: int): map<string, int>
  {
    map k | k in m && (k in pending || m[k] > now) :: m[k]
  }

  class RateLimitCoordinator {
    var cooldowns: map<string, int>

    constructor()
      ensures cooldowns == map[]
    {
      cooldowns := map[];
    }

    /** Remaining cooldown of `key`; a lookup that finds it expired removes it. */
    method GetRemainingCooldown(key: string, now: int) returns (remaining: int)
      modifies this
      ensures remaining == Remaining(old(cooldowns), key, now)
      ensures cooldowns == Observed(old(cooldowns), key, now)
    {
      remaining := 0;
      if key in cooldowns {
        var nextAllowedAt := cooldowns[key];
        var left := nextAllowedAt - now;
        if left > 0 {
          return left;
        }
        cooldowns := cooldowns - {key};
      }
    }

    /** The largest remaining cooldown over all keys; the scan removes every expired entry. */
    method GetMaxRemainingCooldown(now: int) returns (max: int)
      modifies this
      ensures cooldowns == Live(old(cooldowns), now)
      ensures max >= 0
      ensures max == 0 <==> Live(old(cooldowns), now) == map[]
      ensures max > 0 ==> IsLatest(now + max, Live(old(cooldowns), now))
    {
      ghost var original := cooldowns;
      max := 0;
      var pending := cooldowns.Keys;
      while pending != {}
        invariant pending <= original.Keys
        invariant cooldowns == Swept(original, pending, now)
        invariant max >= 0
        invariant max == 0 <==> forall k :: k in original && k !in pending ==> original[k] <= now
        invariant max > 0 ==> exists k :: k in original && k !in pending && original[k] == now + max
        invariant forall k :: k in original && k !in pending && original[k] > now ==> original[k] <= now + max
        decreases pending
      {
        var key :| key in pending;
        var remaining := cooldowns[key] - now;
        if remaining > 0 {
          if remaining > max {
            max := remaining;
          }
        } else {
          cooldowns := cooldowns - {key};
        }
        pending := pending - {key};
      }
      assert cooldowns == Live(original, now);
      if max == 0 {
        assert Live(original, now).Keys == {};
      } else {
        ghost var k :| k in original && original[k] == now + max;
        assert k in Live(original, now);
      }
    }

    /** The latest instant still in the future, if any; the scan removes every expired entry. */
    method GetMaxNextAllowedAt(now: int) returns (max: Option<int>)
      modifies this
      ensures cooldowns == Live(old(cooldowns), now)
      ensures max.None? <==> Live(old(cooldowns), now) == map[]
      ensures max.Some? ==> IsLatest(max.value, Live(old(cooldowns), now))
    {
      ghost var original := cooldowns;
      max := None;
      var pending := cooldowns.Keys;
      while pending != {}
        invariant pending <= original.Keys
        invariant cooldowns == Swept(original, pending, now)
        invariant max.None? <==> forall k :: k in original && k !in pending ==> original[k] <= now
        invariant max.Some? ==> exists k :: k in original && k !in pending && original[k] > now && original[k] == max.value
        invariant max.Some? ==> forall k :: k in original && k !in pending && original[k] > now ==> original[k] <= max.value
        decreases pending
      {
        var key :| key in pending;
        var nextAllowedAt := cooldowns[key];
        if nextAllowedAt > now {
          if max.None? || nextAllowedAt > max.value {
            max := Some(nextAllowedAt);
          }
        } else {
          cooldowns := cooldowns - {key};
        }
        pending := pending - {key};
      }
      assert cooldowns == Live(original, now);
      if max.None? {
        assert Live(original, now).Keys == {};
      } else {
        ghost var k :| k in original && original[k] > now && original[k] == max.value;
        assert k in Live(original, now);
      }
    }

    /** Installs `now + retryAfter` for `key` unless a later instant is already stored. */
    method UpdateCooldown(key: string, retryAfter: int, now: int)
      modifies this
      ensures cooldowns == Raised(old(cooldowns), key, now + retryAfter)
    {
      var nextAllowedAt := now + retryAfter;
      if key in cooldowns {
        var existing := cooldowns[key];
        cooldowns := cooldowns[key := if nextAllowedAt > existing then nextAllowedAt else existing];
      } else {
        cooldowns := cooldowns[key := nextAllowedAt];
      }
    }

    /** The instant `key` becomes free if that is still in the future; an expired entry is removed. */
    method GetNextAllowedAt(key: string, now: int) returns (next: Option<int>)
      modifies this
      ensures next.Some? <==> key in old(cooldowns) && old(cooldowns)[key] > now
      ensures next.Some? ==> next.value == old(cooldowns)[key]
      ensures cooldowns == Observed(old(cooldowns), key, now)
    {
      next := None;
      if key in cooldowns {
        var nextAllowedAt := cooldowns[key];
        if nextAllowedAt > now {
          return Some(nextAllowedAt);
        }
        cooldowns := cooldowns - {key};
      }
    }
  }
}
