/** What a run of sequential `Get` calls does to the cache: memoisation,
    write-once entries, failures that are retried, and per-region isolation. */
module CacheProperties {
  import opened Wrappers
  import opened SessionCache

  /** One call to `Get`: the region in the caller's configuration, the
      `AWS_REGION` value at that moment, and how the SDK behaves on that call. */
  datatype Call = Call(requested: string, env: Option<string>, construct: Constructor)

  function Region(call: Call): string
  {
    EffectiveRegion(call.requested, call.env)
  }

  /** The step `Get` takes for `call` on the map value `cache`. */
  function Serve(cache: map<string, Session>, call: Call): StepResult
  {
    GetStep(cache, Region(call), call.construct)
  }

  /** The map after running `calls` one after the other from `cache`. */
  function Final(cache: map<string, Session>, calls: seq<Call>): map<string, Session>
    decreases |calls|
  {
    if calls == [] then cache else Final(Serve(cache, calls[0]).cache, calls[1..])
  }

  /** The step each of `calls` takes when they run one after the other. */
  function Trace(cache: map<string, Session>, calls: seq<Call>): (t: seq<StepResult>)
    ensures |t| == |calls|
    decreases |calls|
  {
    if calls == [] then []
    else
      var s := Serve(cache, calls[0]);
      [s] + Trace(s.cache, calls[1..])
  }

  /** How many steps of `t` called the SDK constructor. */
  function Constructions(t: seq<StepResult>): nat
  {
    if t == [] then 0
    else (if t[0].constructedFor.Some? then 1 else 0) + Constructions(t[1..])
  }

  /** Entries are written once: a run never removes a region and never
      replaces a stored session. */
  lemma {:induction false} FinalKeepsEntries(cache: map<string, Session>, calls: seq<Call>)
    ensures cache.Keys <= Final(cache, calls).Keys
    ensures forall k :: k in cache ==> Final(cache, calls)[k] == cache[k]
    decreases |calls|
  {
    if calls != [] {
      FinalKeepsEntries(Serve(cache, calls[0]).cache, calls[1..]);
    }
  }

  /** Running `a` and then `b` is running `a + b`. */
  lemma {:induction false} FinalAppend(cache: map<string, Session>, a: seq<Call>, b: seq<Call>)
    ensures Final(cache, a + b) == Final(Final(cache, a), b)
    decreases |a|
  {
    if a == [] {
      assert a + b == b;
    } else {
      assert (a + b)[0] == a[0];
      assert (a + b)[1..] == a[1..] + b;
      FinalAppend(Serve(cache, a[0]).cache, a[1..], b);
    }
  }

  /** Call `k` of a run sees the map left by the calls before it. */
  lemma {:induction false} TraceAt(cache: map<string, Session>, calls: seq<Call>, k: nat)
    requires k < |calls|
    ensures Trace(cache, calls)[k] == Serve(Final(cache, calls[..k]), calls[k])
    decreases k
  {
    if k > 0 {
      var s := Serve(cache, calls[0]);
      TraceAt(s.cache, calls[1..], k - 1);
      assert calls[1..][..k - 1] == calls[..k][1..];
      assert calls[..k][0] == calls[0];
    }
  }

  /** The map after the first `k + 1` calls is the one call `k` left. */
  lemma FinalAfterStep(cache: map<string, Session>, calls: seq<Call>, k: nat)
    requires k < |calls|
    ensures Final(cache, calls[..k + 1]) == Trace(cache, calls)[k].cache
  {
    TraceAt(cache, calls, k);
    FinalAppend(cache, calls[..k], [calls[k]]);
    assert calls[..k] + [calls[k]] == calls[..k + 1];
  }

  /** A region already cached is served from the cache by every later call:
      the stored session comes back and the constructor is never called. */
  lemma {:induction false} HitsNeverConstruct(cache: map<string, Session>, calls: seq<Call>, r: string)
    requires r in cache
    ensures forall i :: 0 <= i < |calls| && Region(calls[i]) == r ==>
              Trace(cache, calls)[i].result == Success(cache[r]) &&
              Trace(cache, calls)[i].constructedFor == None
  {
    forall i | 0 <= i < |calls| && Region(calls[i]) == r
      ensures Trace(cache, calls)[i].result == Success(cache[r])
      ensures Trace(cache, calls)[i].constructedFor == None
    {
      TraceAt(cache, calls, i);
      FinalKeepsEntries(cache, calls[..i]);
    }
  }

  /** Memoisation: once a call for region R succeeds, every later call for R
      returns that same session without constructing. */
  lemma Memoisation(cache: map<string, Session>, calls: seq<Call>, i: nat, j: nat)
    requires i < j < |calls|
    requires Region(calls[i]) == Region(calls[j])
    requires Trace(cache, calls)[i].result.Success?
    ensures Trace(cache, calls)[j].result == Trace(cache, calls)[i].result
    ensures Trace(cache, calls)[j].constructedFor == None
  {
    var r := Region(calls[i]);
    var after := Final(cache, calls[..i + 1]);
    TraceAt(cache, calls, i);
    FinalAfterStep(cache, calls, i);
    assert r in after && after[r] == Trace(cache, calls)[i].result.value;
    // the calls between i+1 and j keep the entry call i stored
    FinalAppend(cache, calls[..i + 1], calls[i + 1..j]);
    assert calls[..i + 1] + calls[i + 1..j] == calls[..j];
    FinalKeepsEntries(after, calls[i + 1..j]);
    TraceAt(cache, calls, j);
  }

  /** A failed construction is not remembered: while the constructor keeps
      failing for an uncached region, every call for it constructs again,
      gets the error, and the region stays absent. */
  lemma {:induction false} FailuresAreRetried(cache: map<string, Session>, calls: seq<Call>, r: string)
    requires r !in cache
    requires forall i :: 0 <= i < |calls| && Region(calls[i]) == r ==>
               calls[i].construct(r).Failure?
    ensures r !in Final(cache, calls)
    ensures forall i :: 0 <= i < |calls| && Region(calls[i]) == r ==>
              Trace(cache, calls)[i].constructedFor == Some(r) &&
              Trace(cache, calls)[i].result == calls[i].construct(r)
    decreases |calls|
  {
    if calls != [] {
      var s := Serve(cache, calls[0]);
      assert r !in s.cache;
      FailuresAreRetried(s.cache, calls[1..], r);
      forall i | 1 <= i < |calls| && Region(calls[i]) == r
        ensures Trace(cache, calls)[i] == Trace(s.cache, calls[1..])[i - 1]
      {
        assert calls[1..][i - 1] == calls[i];
      }
    }
  }

  /** N sequential calls for one uncached region, the first of which
      constructs successfully, call the constructor exactly once. */
  lemma {:induction false} ExactlyOneConstruction(cache: map<string, Session>, calls: seq<Call>, r: string)
    requires r !in cache
    requires |calls| >= 1
    requires forall i :: 0 <= i < |calls| ==> Region(calls[i]) == r
    requires calls[0].construct(r).Success?
    ensures Constructions(Trace(cache, calls)) == 1
  {
    var s := Serve(cache, calls[0]);
    var rest := Trace(s.cache, calls[1..]);
    assert r in s.cache;
    forall i | 0 <= i < |calls[1..]|
      ensures Region(calls[1..][i]) == r
    {
      assert calls[1..][i] == calls[i + 1];
    }
    HitsNeverConstruct(s.cache, calls[1..], r);
    NoneConstructed(rest);
  }

  /** A trace in which no step constructs has no constructions. */
  lemma {:induction false} NoneConstructed(t: seq<StepResult>)
    requires forall i :: 0 <= i < |t| ==> t[i].constructedFor == None
    ensures Constructions(t) == 0
  {
    if t != [] {
      assert forall i :: 0 <= i < |t[1..]| ==> t[1..][i] == t[i + 1];
      NoneConstructed(t[1..]);
    }
  }

  /** Per-region isolation: every session a call returns is the one stored
      under that call's own region when the run is over. */
  lemma ResultsAreStoredUnderTheirRegion(cache: map<string, Session>, calls: seq<Call>, i: nat)
    requires i < |calls|
    requires Trace(cache, calls)[i].result.Success?
    ensures Region(calls[i]) in Final(cache, calls)
    ensures Final(cache, calls)[Region(calls[i])] == Trace(cache, calls)[i].result.value
  {
    var r := Region(calls[i]);
    var after := Final(cache, calls[..i + 1]);
    TraceAt(cache, calls, i);
    FinalAfterStep(cache, calls, i);
    assert r in after && after[r] == Trace(cache, calls)[i].result.value;
    // the remaining calls keep the entry call i stored
    FinalAppend(cache, calls[..i + 1], calls[i + 1..]);
    assert calls[..i + 1] + calls[i + 1..] == calls;
    FinalKeepsEntries(after, calls[i + 1..]);
  }
}
