/** `CustomCGLagLabels`: construction from a configuration document
    (customLabels.go lines 75-130) and `FetchLabel` (lines 132-147). */
module Resolver {
  import opened Wrappers
  import opened Notifiers
  import opened Document
  import opened Rules
  import opened SlidingCache

  /** Why construction returned no resolver: the document broke the schema,
      or it passed the schema but `json.Unmarshal` could not store it. */
  datatype ConfigError = SchemaViolation | DecodeError

  /** The resolver: the compiled table, the cache contents, and the cache
      expiration and cleanup interval, in clock ticks. */
  datatype Labels = Labels(labelByPrefix: Table, cache: Store, expiration: int, cleanupInterval: int)

  /** `NewCustomCGLagLabels`: validate, decode, compile, start with an empty cache. */
  function New(config: Json, expiration: int, cleanupInterval: int): (r: Result<Labels, ConfigError>)
    ensures r.Success? <==> SchemaValid(config) && FitsConfig(config)
    ensures !SchemaValid(config) ==> r == Failure(SchemaViolation)
    ensures SchemaValid(config) && !FitsConfig(config) ==> r == Failure(DecodeError)
    ensures r.Success? ==> ValidNotifiers(Decode(config).value)
    ensures r.Success? ==> r.value.labelByPrefix == Compile(Decode(config).value) && r.value.cache == map[]
    ensures r.Success? ==> r.value.expiration == expiration && r.value.cleanupInterval == cleanupInterval
  {
    if !SchemaValid(config) then Failure(SchemaViolation)
    else match Decode(config)
      case None => Failure(DecodeError)
      case Some(ns) =>
        DecodedValid(config);
        Success(Labels(Compile(ns), map[], expiration, cleanupInterval))
  }

  /** Construction from the canonical document of `ns` succeeds exactly when
      `ns` meets the schema, and then compiles `ns` itself. */
  lemma NewFromNotifiers(ns: seq<Notifier>, expiration: int, cleanupInterval: int)
    ensures New(Encode(ns), expiration, cleanupInterval).Success? <==> ValidNotifiers(ns)
    ensures ValidNotifiers(ns) ==>
              New(Encode(ns), expiration, cleanupInterval) == Success(Labels(Compile(ns), map[], expiration, cleanupInterval))
  {
    DecodeEncode(ns);
    EncodeSchemaValid(ns);
  }

  /** The malformed document of the test suite yields no resolver. */
  lemma NestedArrayConfigFails(expiration: int, cleanupInterval: int)
    ensures New(NestedArrayDocument(), expiration, cleanupInterval) == Failure(SchemaViolation)
  {
  }

  // ----- FetchLabel -------------------------------------------------------

  /** `prefix` is a table prefix that `groupId` starts with. */
  predicate Matches(table: Table, prefix: string, groupId: string)
  {
    prefix in table && prefix <= groupId
  }

  /** What one `FetchLabel(groupId)` at time `now` may do, taking `c` to `c'`
      and answering `owner`. The table iteration order is unspecified, so a
      miss may pick any matching prefix. */
  ghost predicate FetchStep(c: Labels, groupId: string, now: int, owner: string, c': Labels)
  {
    && c'.labelByPrefix == c.labelByPrefix
    && c'.expiration == c.expiration
    && c'.cleanupInterval == c.cleanupInterval
    && match Get(c.cache, groupId, now)
       case Some(cached) =>
         // hit: answer the cached label and renew its expiry
         owner == cached && c'.cache == Set(c.cache, groupId, cached, c.expiration, now)
       case None =>
         if exists p :: Matches(c.labelByPrefix, p, groupId) then
           // miss with a match: cache the label of some matching prefix
           && (exists p :: Matches(c.labelByPrefix, p, groupId) && owner == c.labelByPrefix[p])
           && c'.cache == Set(c.cache, groupId, owner, c.expiration, now)
         else
           // miss without a match: empty label, nothing cached
           owner == "" && c'.cache == c.cache
  }

  /** `FetchLabel`: the table is scanned in an unspecified order, modelled by
      picking any not yet visited prefix. */
  method FetchLabel(c: Labels, groupId: string, now: int) returns (owner: string, c': Labels)
    ensures FetchStep(c, groupId, now, owner, c')
  {
    var cached := Get(c.cache, groupId, now);
    if cached.Some? {
      owner := cached.value;
      c' := c.(cache := Set(c.cache, groupId, owner, c.expiration, now));
      return;
    }
    var unvisited := c.labelByPrefix.Keys;
    while unvisited != {}
      invariant unvisited <= c.labelByPrefix.Keys
      invariant forall p :: p in c.labelByPrefix && p !in unvisited ==> !(p <= groupId)
      decreases |unvisited|
    {
      var p :| p in unvisited;
      if p <= groupId {
        owner := c.labelByPrefix[p];
        c' := c.(cache := Set(c.cache, groupId, owner, c.expiration, now));
        assert Matches(c.labelByPrefix, p, groupId);
        return;
      }
      unvisited := unvisited - {p};
    }
    owner := "";
    c' := c;
  }

  // ----- properties of FetchLabel -------------------------------------------

  /** Every cached label is the label of a table prefix of its key. */
  ghost predicate CacheConsistent(c: Labels)
  {
    forall key :: key in c.cache ==> exists p :: Matches(c.labelByPrefix, p, key) && c.labelByPrefix[p] == c.cache[key].value
  }

  lemma NewIsConsistent(config: Json, expiration: int, cleanupInterval: int)
    requires New(config, expiration, cleanupInterval).Success?
    ensures CacheConsistent(New(config, expiration, cleanupInterval).value)
  {
  }

  /** FetchLabel keeps the cache consistent, and what it answers is the label
      of some table prefix of `groupId`, or "" when no table prefix matches. */
  lemma FetchAnswersTableLabel(c: Labels, groupId: string, now: int, owner: string, c': Labels)
    requires CacheConsistent(c)
    requires FetchStep(c, groupId, now, owner, c')
    ensures CacheConsistent(c')
    ensures (exists p :: Matches(c.labelByPrefix, p, groupId) && c.labelByPrefix[p] == owner)
            || (owner == "" && forall p :: !Matches(c.labelByPrefix, p, groupId))
  {
  }

  /** A hit answers the cached label and renews only that entry. */
  lemma HitRenews(c: Labels, groupId: string, now: int, owner: string, c': Labels)
    requires Get(c.cache, groupId, now).Some?
    requires FetchStep(c, groupId, now, owner, c')
    ensures owner == c.cache[groupId].value
    ensures c'.cache[groupId] == Item(owner, ExpiryAfter(c.expiration, now))
    ensures forall key :: key != groupId ==> (key in c'.cache <==> key in c.cache)
    ensures forall key :: key != groupId && key in c.cache ==> c'.cache[key] == c.cache[key]
  {
  }

  /** A group id that matches no prefix answers "" and is not cached. */
  lemma UnmatchedNotCached(c: Labels, groupId: string, now: int, owner: string, c': Labels)
    requires CacheConsistent(c)
    requires forall p :: !Matches(c.labelByPrefix, p, groupId)
    requires FetchStep(c, groupId, now, owner, c')
    ensures owner == "" && c' == c
    ensures groupId !in c'.cache
  {
  }

  /** Once a group id has been resolved, asking again before the entry
      expires gives the same label, whatever prefix the first call picked. */
  lemma FetchRepeats(c: Labels, groupId: string, t1: int, o1: string, c1: Labels, t2: int, o2: string, c2: Labels)
    requires exists p :: Matches(c.labelByPrefix, p, groupId)
    requires FetchStep(c, groupId, t1, o1, c1)
    requires t1 <= t2 && (c.expiration <= 0 || t2 <= t1 + c.expiration)
    requires FetchStep(c1, groupId, t2, o2, c2)
    ensures o2 == o1
    ensures Get(c2.cache, groupId, t2) == Some(o1)
  {
  }

  /** Sliding expiration: a hit at `t2` keeps the entry alive past the
      expiry the first resolution at `t1` gave it. */
  lemma HitExtendsLife(c: Labels, groupId: string, t1: int, o1: string, c1: Labels, t2: int, o2: string, c2: Labels,
                       t3: int, o3: string, c3: Labels)
    requires CacheConsistent(c) && c.expiration > 0
    requires exists p :: Matches(c.labelByPrefix, p, groupId)
    requires FetchStep(c, groupId, t1, o1, c1)
    requires t1 <= t2 <= t1 + c.expiration < t3 <= t2 + c.expiration
    requires FetchStep(c1, groupId, t2, o2, c2)
    requires FetchStep(c2, groupId, t3, o3, c3)
    ensures Get(c1.cache, groupId, t3).None?
    ensures o3 == o1
  {
  }

  /** When all matching prefixes carry the same label, FetchLabel is
      deterministic despite the unspecified scan order. */
  lemma FetchDeterministicWhenUnambiguous(c: Labels, groupId: string, now: int,
                                          o1: string, c1: Labels, o2: string, c2: Labels)
    requires forall p, q :: Matches(c.labelByPrefix, p, groupId) && Matches(c.labelByPrefix, q, groupId) ==>
                              c.labelByPrefix[p] == c.labelByPrefix[q]
    requires FetchStep(c, groupId, now, o1, c1)
    requires FetchStep(c, groupId, now, o2, c2)
    ensures o1 == o2 && c1 == c2
  {
  }

  /** On a miss where exactly one table prefix matches, FetchLabel answers
      that prefix's label and caches it. */
  lemma MissWithSingleMatch(c: Labels, groupId: string, now: int, owner: string, c': Labels, p: string)
    requires Get(c.cache, groupId, now).None?
    requires Matches(c.labelByPrefix, p, groupId)
    requires forall q :: Matches(c.labelByPrefix, q, groupId) ==> q == p
    requires FetchStep(c, groupId, now, owner, c')
    ensures owner == c.labelByPrefix[p]
    ensures Get(c'.cache, groupId, now) == Some(owner)
  {
  }
}
