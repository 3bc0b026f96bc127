/** The region-keyed session cache: a map from region name to session that
    is filled lazily, one region at a time, and never loses an entry. */
module SessionCache {
  import opened Wrappers

  /** An SDK session. Its insides belong to the SDK and are not modelled. */
  type Session(==)

  /** The error the SDK reports when it cannot build a session. */
  type Error(==)

  /** The SDK's session constructor, `session.NewSession` applied to a
      configuration holding only the region. */
  type Constructor = string -> Result<Session, Error>

  /** The caller's configuration; `Get` writes the resolved region back. */
  class Conf {
    var region: string

    constructor (region: string)
      ensures this.region == region
    {
      this.region := region;
    }
  }

  /** The map behind the package singleton. Locking is not modelled: every
      operation here runs to completion before the next one starts. */
  class AtomicSessionMap {
    var sessionsByRegion: map<string, Session>

    /** The singleton starts out empty. */
    constructor ()
      ensures sessionsByRegion == map[]
    {
      sessionsByRegion := map[];
    }

    /** Go's `get`: the stored session, if any, for `region`. Reading only. */
    function Lookup(region: string): (r: Option<Session>)
      reads this
      ensures r.Some? <==> region in sessionsByRegion
      ensures r.Some? ==> r.value == sessionsByRegion[region]
    {
      if region in sessionsByRegion then Some(sessionsByRegion[region]) else None
    }

    /** Go's `set`: store `val` under `region`, overwriting any earlier value;
        every other region keeps its entry. */
    method Set(region: string, val: Session)
      modifies this
      ensures sessionsByRegion == old(sessionsByRegion)[region := val]
      ensures sessionsByRegion.Keys == old(sessionsByRegion.Keys) + {region}
      ensures sessionsByRegion[region] == val
      ensures forall k :: k in old(sessionsByRegion) && k != region ==>
                sessionsByRegion[k] == old(sessionsByRegion)[k]
    {
      sessionsByRegion := sessionsByRegion[region := val];
    }
  }

  /** The region `Get` works with: the requested one when it is non-empty,
      otherwise the `AWS_REGION` environment value, or "" when that is unset.
      An empty region is passed on, not rejected. */
  function EffectiveRegion(requested: string, env: Option<string>): (r: string)
    ensures requested != "" ==> r == requested
    ensures requested == "" && env.Some? ==> r == env.value
    ensures requested == "" && env.None? ==> r == ""
    ensures r == requested || (requested == "" && env == Some(r))
    ensures r == "" <==> requested == "" && (env.None? || env.value == "")
  {
    if requested == "" then
      match env
      case Some(v) => v
      case None => ""
    else
      requested
  }

  /** What one `Get` did: its result, the map afterwards, and the region the
      constructor was called with (None when it was not called). */
  datatype StepResult = StepResult(
    result: Result<Session, Error>,
    cache: map<string, Session>,
    constructedFor: Option<string>)

  /** One `Get` for an already-resolved `region`, on the map value `cache`:
      a hit returns the stored session; a miss calls `construct`, returns its
      error untouched and caches nothing, or stores and returns the new
      session. */
  function GetStep(cache: map<string, Session>, region: string, construct: Constructor): (s: StepResult)
    // the constructor runs exactly on a miss, and only for the requested region
    ensures s.constructedFor.Some? <==> region !in cache
    ensures s.constructedFor.Some? ==> s.constructedFor.value == region
    // a hit: the stored session, the map untouched
    ensures region in cache ==> s.result == Success(cache[region]) && s.cache == cache
    // a miss: exactly what the constructor produced is returned
    ensures region !in cache ==> s.result == construct(region)
    // failures leave the map as it was
    ensures s.result.Failure? ==> s.cache == cache
    // a success is what the map now holds under the region
    ensures s.result.Success? ==> region in s.cache && s.cache[region] == s.result.value
    // the map only gains the region, and no existing entry changes
    ensures s.cache.Keys == cache.Keys + (if s.result.Success? then {region} else {})
    ensures forall k :: k in cache ==> k in s.cache && s.cache[k] == cache[k]
  {
    if region in cache then
      StepResult(Success(cache[region]), cache, None)
    else
      match construct(region)
      case Failure(e) => StepResult(Failure(e), cache, Some(region))
      case Success(sess) => StepResult(Success(sess), cache[region := sess], Some(region))
  }

  /** Go's package-level `Get`, with the singleton `cache` passed explicitly,
      the `AWS_REGION` lookup as `env` and the SDK constructor as `construct`.
      The ghost `invoked` records the region the constructor was called with. */
  method Get(cache: AtomicSessionMap, c: Conf, env: Option<string>, construct: Constructor)
    returns (r: Result<Session, Error>, ghost invoked: Option<string>)
    modifies cache, c
    ensures c.region == EffectiveRegion(old(c.region), env)
    ensures old(c.region) != "" ==> c.region == old(c.region)
    ensures GetStep(old(cache.sessionsByRegion), c.region, construct)
            == StepResult(r, cache.sessionsByRegion, invoked)
  {
    if c.region == "" {
      var region := match env case Some(v) => v case None => "";
      c.region := region;
    }

    var found := cache.Lookup(c.region);
    if found.Some? {
      return Success(found.value), None;
    }

    invoked := Some(c.region);
    var built := construct(c.region);
    if built.Failure? {
      return Failure(built.error), invoked;
    }
    cache.Set(c.region, built.value);
    r := Success(built.value);
  }
}
