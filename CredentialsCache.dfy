/**
 * The in-memory service-account cache (ui/web/api/credentials_cache.py): one entry with an expiry in whole
 * seconds. Wall-clock time (`time.time()`) is a parameter; the lock around each call is left out, each call
 * being one atomic step.
 */
module CredentialsCache {
  import opened Wrappers
  import opened Json

  /** Python's `int(x)` on a float: truncation toward zero. */
  function Trunc(x: real): (r: int)
    ensures x >= 0.0 ==> r as real <= x < r as real + 1.0
    ensures x < 0.0 ==> r as real - 1.0 < x <= r as real
  {
    if x >= 0.0 then x.Floor else -((-x).Floor)
  }

  /** `expires and time.time() < expires`: the entry is still valid at `now`. */
  predicate Live(expiresAt: int, now: real)
  {
    expiresAt != 0 && now < expiresAt as real
  }

  /** What `get_service_account_info` returns for the cache (`info`, `expiresAt`) at time `now`. */
  function Lookup(info: Option<Json>, expiresAt: int, now: real): (r: Option<Json>)
    ensures r.Some? ==> r == info && Live(expiresAt, now)
  {
    if Live(expiresAt, now) then info else None
  }

  /**
   * An entry set at time `t0 >= 0` with a positive ttl is returned from `t0` until just before
   * `int(t0) + ttl`, and never at or after `t0 + ttl`: truncating `t0` can only shorten its life.
   */
  lemma SetEntryWindow(i: Json, ttl: int, t0: real, now: real)
    requires t0 >= 0.0 && ttl > 0
    ensures t0 <= now < (Trunc(t0) + ttl) as real ==> Lookup(Some(i), Trunc(t0) + ttl, now) == Some(i)
    ensures now >= t0 + ttl as real ==> Lookup(Some(i), Trunc(t0) + ttl, now) == None
  {
    var e := Trunc(t0) + ttl;
    assert e >= 1;
  }

  /** An expiry of 0 means "empty": nothing is returned whatever the time and the stored value. */
  lemma ZeroExpiryIsEmpty(info: Option<Json>, now: real)
    ensures Lookup(info, 0, now) == None
  {
  }

  class Cache {
    var info: Option<Json>
    var expiresAt: int

    /** The module's initial `_CACHE`: no info, `expires_at` 0. */
    constructor()
      ensures info == None && expiresAt == 0
    {
      info := None;
      expiresAt := 0;
    }

    /** `set_service_account_info(info, ttl)`: overwrites both the info and its expiry. */
    method Set(i: Json, ttl: int, now: real)
      modifies this
      ensures info == Some(i) && expiresAt == Trunc(now) + ttl
    {
      info := Some(i);
      expiresAt := Trunc(now) + ttl;
    }

    /** `get_service_account_info()`: the stored info while live; otherwise the cache is emptied. */
    method Get(now: real) returns (r: Option<Json>)
      modifies this
      ensures r == Lookup(old(info), old(expiresAt), now)
      ensures Live(old(expiresAt), now) ==> info == old(info) && expiresAt == old(expiresAt)
      ensures !Live(old(expiresAt), now) ==> info == None && expiresAt == 0
    {
      var expires := expiresAt;
      if expires != 0 && now < expires as real {
        return info;
      }
      info := None;
      expiresAt := 0;
      return None;
    }

    /** `clear_service_account_info()`. */
    method Clear()
      modifies this
      ensures info == None && expiresAt == 0
    {
      info := None;
      expiresAt := 0;
    }
  }

  /** Once a lookup found the entry expired, no later lookup returns anything until the next `set`. */
  method ExpiredNeverReappears(c: Cache, now: real, later: real) returns (r1: Option<Json>, r2: Option<Json>)
    modifies c
    ensures r1.None? ==> r2.None?
  {
    r1 := c.Get(now);
    r2 := c.Get(later);
  }
}
