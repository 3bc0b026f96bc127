# awssessioncache in Dafny

A model of `awssessioncache`, a Go package holding a process-wide cache of AWS SDK sessions keyed by region name. `Get(&Conf{...})` works out the region. If the configuration's region is empty, it uses the `AWS_REGION` environment variable, or `""` when that is unset, and writes that value back into the caller's `Conf`. It then returns the cached session for the region. On a miss it asks the SDK for a new session. An SDK error is returned as-is and nothing is cached. A new session is stored under the region and returned.

Layout:

- `wrappers.dfy` (module `Wrappers`): `Option` and `Result`.
- `session_cache.dfy` (module `SessionCache`):
  - the class `AtomicSessionMap`, whose `sessionsByRegion` field is the Go map;
  - the class `Conf`, whose `region` field `Get` overwrites;
  - `EffectiveRegion`, the default-region rule;
  - `GetStep`, one `Get` on a map value;
  - the imperative `Get`, whose contract ties its result, the new map and the new `Conf.region` to `EffectiveRegion` and `GetStep`.
- `cache_properties.dfy` (module `CacheProperties`): a sequence of `Get` calls, run one after the other (`Trace`, `Final`), and lemmas about such runs. They cover memoisation, write-once entries, failures being retried, exactly one construction, and per-region isolation.

External inputs are parameters:

- The environment lookup `os.LookupEnv("AWS_REGION")` is the parameter `env: Option<string>`.
- The SDK constructor `session.NewSession(&aws.Config{Region: ...})` is the parameter `construct: string -> Result<Session, Error>`. Each call to `Get` gets its own, so the SDK may behave differently from call to call.
- `Session` and `Error` are abstract types.
- The package singleton `sessionByRegionCache` is an `AtomicSessionMap` instance passed to `Get` explicitly. Its constructor gives the empty map.
- The ghost out-parameter `invoked` of `Get` records the region the constructor was called with, or `None` when it was not called. This lets the contracts say that a hit never constructs.

The code does not reject an empty region: it caches and constructs under `""` too. The model does the same.

## Model

| member | source | states |
|---|---|---|
| SessionCache.AtomicSessionMap.Lookup | awssessioncache.go:28-33 | the result is present exactly when the region is a key, and then it is the stored session; being a function, it cannot change the map |
| SessionCache.AtomicSessionMap.Set | awssessioncache.go:35-39 | the region now maps to the given session; the key set gains that region only; every other key keeps its value; an existing value is overwritten |
| SessionCache.AtomicSessionMap.constructor | awssessioncache.go:47-49 | the singleton's map starts empty |
| SessionCache.Conf.constructor | awssessioncache.go:43-45 | a configuration holds the region it was given |
| SessionCache.EffectiveRegion | awssessioncache.go:54-58 | a non-empty requested region is used unchanged and the environment is not consulted; an empty one becomes the `AWS_REGION` value, or "" when unset; the result is "" exactly when both are empty or unset |
| SessionCache.GetStep | awssessioncache.go:60-69 | the constructor runs exactly on a miss and only for that region; a hit returns the stored session and keeps the map; a miss returns what the constructor returned; a failure leaves the map unchanged; a success is stored under the region; the map gains at most that key and no existing entry changes |
| SessionCache.Get | awssessioncache.go:53-70 | the caller's region is overwritten with the effective region, and left alone when non-empty; the result, the new map and whether construction ran are exactly those of GetStep on the old map |
| CacheProperties.FinalKeepsEntries | awssessioncache.go:60-68 | over any sequence of calls, the key set never shrinks and a stored session is never replaced |
| CacheProperties.TraceAt | awssessioncache.go:53-70 | each call in a sequence sees the map left by the calls before it |
| CacheProperties.HitsNeverConstruct | awssessioncache.go:60-62 | once a region is cached, every later call for it returns the stored session and does not call the constructor |
| CacheProperties.Memoisation | awssessioncache.go:60-69 | after a successful call for a region, every later call for that region returns the same session without constructing |
| CacheProperties.FailuresAreRetried | awssessioncache.go:64-67 | while construction keeps failing for an uncached region, every call for it calls the constructor again, returns its error, and the region stays uncached |
| CacheProperties.ExactlyOneConstruction | awssessioncache.go:60-69 | N >= 1 sequential calls for one uncached region, the first of them constructing successfully, call the constructor exactly once |
| CacheProperties.ResultsAreStoredUnderTheirRegion | awssessioncache.go:60-69 | every session a call returns is the one stored under that call's own region at the end of the run, so one region's session is never handed out for another |

## Left out

- The `sync.RWMutex` in `atomicSessionMap` and the locking in `get` and `set` are not modelled; the model is sequential.
- Because the model is sequential, the race between concurrent first-time calls for one region is not modelled either. Both such callers construct a session, and the last `set` wins. The model shows only that `Set` overwrites, so a later `Set` wins.
- `session.NewSession` and `aws.Config` are SDK calls that resolve credentials and may use the network. They are an abstract constructor parameter that returns a session or an error.
- `os.LookupEnv` reads the process environment. It is the `env` parameter, read once per `Get` with an empty region.
- The package-level initialisation of the global is modelled only as "the cache starts empty".
- The SDK receives `&c.region`, a pointer into the caller's `Conf` (awssessioncache.go:64). The model's constructor takes the region by value, so any aliasing between a stored session and a later write to `c.region` is not modelled.
- `Get(nil)` panics on the nil dereference at awssessioncache.go:54. The model's `Conf` parameter is non-null, so that panic is not modelled.
- `Conf.region` is unexported and has no setter (awssessioncache.go:44), so outside the package every `Conf` starts with an empty region. The model's `Conf` constructor accepts any region, as code inside the package can.
