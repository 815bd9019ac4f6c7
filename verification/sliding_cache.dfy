/** The go-cache store behind `labelCache` (customLabels.go lines 122-123,
    133-141), with the clock passed in explicitly as integer ticks. */
module SlidingCache {
  import opened Wrappers

  /** When an item stops being served; `Never` is go-cache's zero expiration. */
  datatype Expiry = Never | At(tick: int)

  datatype Item = Item(value: string, expiry: Expiry)

  type Store = map<string, Item>

  /** go-cache treats an item as gone once the clock is strictly past its expiry. */
  predicate Expired(item: Item, now: int)
  {
    item.expiry.At? && now > item.expiry.tick
  }

  /** The expiry `Set` stamps: a positive duration counts from `now`; zero
      (the default, itself zero here) and negative durations never expire. */
  function ExpiryAfter(ttl: int, now: int): Expiry
  {
    if ttl > 0 then At(now + ttl) else Never
  }

  /** `Get(key)`: the value, if present and not expired. */
  function Get(store: Store, key: string, now: int): Option<string>
  {
    if key in store && !Expired(store[key], now) then Some(store[key].value) else None
  }

  /** `Set(key, value, ttl)`: insert or fully replace the item. */
  function Set(store: Store, key: string, value: string, ttl: int, now: int): Store
  {
    store[key := Item(value, ExpiryAfter(ttl, now))]
  }

  /** The janitor's `DeleteExpired` pass. */
  function Sweep(store: Store, now: int): Store
  {
    map key | key in store && !Expired(store[key], now) :: store[key]
  }

  /** A value just set is served until its duration has elapsed, and from
      then on is not. */
  lemma GetAfterSet(store: Store, key: string, value: string, ttl: int, now: int, later: int)
    requires now <= later
    ensures Get(Set(store, key, value, ttl, now), key, later) ==
              if ttl <= 0 || later <= now + ttl then Some(value) else None
  {
  }

  /** `Set` of one key leaves what every other key reads unchanged. */
  lemma SetOtherKeys(store: Store, key: string, value: string, ttl: int, now: int, other: string, later: int)
    requires other != key
    ensures Get(Set(store, key, value, ttl, now), other, later) == Get(store, other, later)
  {
  }

  /** A sweep keeps exactly the unexpired items and, from its own time on,
      changes no answer of `Get`. */
  lemma SweepInvisible(store: Store, now: int, key: string, later: int)
    requires now <= later
    ensures key in Sweep(store, now) <==> key in store && !Expired(store[key], now)
    ensures Get(Sweep(store, now), key, later) == Get(store, key, later)
  {
  }
}
