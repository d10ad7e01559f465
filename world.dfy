/** The jlv2 World of World.cpp: the host features every plugin is offered,
    the pool of worker threads handed out in turn, and the tests of whether
    a plugin can be hosted. The lilv world itself (loading bundles, the
    plugin list) becomes the `plugins` sequence. */
module Worlds {
  import opened Wrappers
  import opened Features
  import opened Plugins

  /** JLV2_NUM_WORKERS. */
  const NumWorkers: nat := 1

  const MinBlockLength: int := 128
  const MaxBlockLength: int := 8192

  /** One LV2_Options_Option: an instance option whose key and value type
      are given by URI (the URIDs the symbol map assigns them), or the
      blank entry that ends the array. */
  datatype OptionEntry = InstanceOption(key: string, size: nat, valueType: string, value: int) | Blank

  /** The options of OptionsFeature: the minimum and maximum block length
      as ints, then the terminator. The array ends with its only blank
      entry, the two keys differ, and the minimum is at most the maximum. */
  function OptionsTable(): (t: seq<OptionEntry>)
    ensures |t| == 3 && t[2] == Blank
    ensures t[0].InstanceOption? && t[1].InstanceOption? && t[0].key != t[1].key
    ensures t[0].value <= t[1].value
  {
    [InstanceOption(MinBlockLengthUri, 4, AtomIntUri, MinBlockLength),
     InstanceOption(MaxBlockLengthUri, 4, AtomIntUri, MaxBlockLength),
     Blank]
  }

  /** The features World () adds: URID map and unmap, log, options and
      bounded block length. */
  function HostFeatures(): seq<Feature>
  {
    [Feature(UridMapUri, 0), Feature(UridUnmapUri, 1), Feature(LogUri, 2),
     Feature(OptionsUri, 3), Feature(BoundedBlockLengthUri, 4)]
  }

  /** The thread index after `currentThread` in a pool of n. */
  function NextThread(current: nat, n: nat): (r: nat)
    requires current < n
    ensures r < n
  {
    if current + 1 >= n then 0 else current + 1
  }

  /** The value of currentThread after k calls to getWorkThread. */
  function AfterCalls(current: nat, n: nat, k: nat): (r: nat)
    requires current < n
    ensures r < n
  {
    if k == 0 then current else NextThread(AfterCalls(current, n, k - 1), n)
  }

  /** Before the counter reaches n it just counts up. */
  lemma {:induction false} CountsUp(current: nat, n: nat, k: nat)
    requires current + k < n
    ensures AfterCalls(current, n, k) == current + k
  {
    if k > 0 {
      CountsUp(current, n, k - 1);
    }
  }

  /** a calls and then b more are a + b calls. */
  lemma {:induction false} CallsCompose(current: nat, n: nat, a: nat, b: nat)
    requires current < n
    ensures AfterCalls(current, n, a + b) == AfterCalls(AfterCalls(current, n, a), n, b)
  {
    if b > 0 {
      CallsCompose(current, n, a, b - 1);
    }
  }

  /** Within n calls the counter counts up from `current` and wraps once. */
  lemma Wraps(current: nat, n: nat, k: nat)
    requires current < n && k < n
    ensures AfterCalls(current, n, k) == if current + k < n then current + k else current + k - n
  {
    if current + k < n {
      CountsUp(current, n, k);
    } else {
      CountsUp(current, n, n - 1 - current);
      assert AfterCalls(current, n, n - current) == 0;
      CallsCompose(current, n, n - current, current + k - n);
      CountsUp(0, n, current + k - n);
    }
  }

  /** getWorkThread is round-robin: call k hands out the thread that
      AfterCalls(current, n, k) names, so from any thread the first n calls
      hand out n different threads, i.e. every thread once, and then the
      counter is back where it started. */
  lemma RoundRobin(current: nat, n: nat)
    requires current < n
    ensures forall a, b :: 0 <= a < b < n ==> AfterCalls(current, n, a) != AfterCalls(current, n, b)
    ensures AfterCalls(current, n, n) == current
  {
    forall a, b | 0 <= a < b < n
      ensures AfterCalls(current, n, a) != AfterCalls(current, n, b)
    {
      Wraps(current, n, a);
      Wraps(current, n, b);
    }
    CountsUp(current, n, n - 1 - current);
    assert AfterCalls(current, n, n - current) == 0;
    CountsUp(0, n, current);
    CallsCompose(current, n, n - current, current);
  }

  /** add (f, rebuild) of a feature whose URI is not there yet: it is
      appended, and the array is current after a rebuild. */
  method AddNew(fa: FeatureArray, f: Feature, rebuild: bool)
    requires fa.Valid() && !HasUri(fa.features, f.uri)
    modifies fa
    ensures fa.Valid() && fa.features == old(fa.features) + [f]
    ensures rebuild ==> !fa.needsBuilt && fresh(fa.table) && fa.Built()
  {
    fa.Add(Some(f), rebuild);
  }

  class World {
    const numThreads: nat
    var threads: nat
    var currentThread: nat
    const features: FeatureArray
    const plugins: seq<PluginDesc>

    ghost predicate Valid()
      reads this, features, features.table
    {
      1 <= numThreads && currentThread < numThreads
      && features.Valid() && !features.needsBuilt && features.Built()
    }

    /** World (): start numThreads worker threads, and add the host
        features, the first two without rebuilding the array. */
    constructor (plugins: seq<PluginDesc>, numThreads: nat)
      requires 1 <= numThreads
      ensures Valid() && fresh(features) && fresh(features.table)
      ensures this.plugins == plugins && this.numThreads == numThreads
      ensures threads == numThreads && currentThread == 0
      ensures features.features == HostFeatures()
    {
      var fa := new FeatureArray();
      AddNew(fa, Feature(UridMapUri, 0), false);
      AddNew(fa, Feature(UridUnmapUri, 1), false);
      AddNew(fa, Feature(LogUri, 2), true);
      AddNew(fa, Feature(OptionsUri, 3), true);
      AddNew(fa, Feature(BoundedBlockLengthUri, 4), true);
      this.plugins := plugins;
      this.numThreads := numThreads;
      threads := numThreads;
      currentThread := 0;
      features := fa;
    }

    /** getFeatures (list): the host features as the entries handed to
        lilv and suil. */
    function FeatureList(): (list: seq<Option<Feature>>)
      reads features
      ensures |list| == |features.features|
      ensures forall i :: 0 <= i < |list| ==> list[i] == Some(features.features[i])
    {
      var fs := features.features;
      seq(|fs|, i requires 0 <= i < |fs| => Some(fs[i]))
    }

    /** getWorkThread (): top the pool up to numThreads, hand out the
        current thread and move on to the next one. */
    method GetWorkThread() returns (thread: nat)
      requires Valid()
      modifies this`threads, this`currentThread
      ensures Valid() && thread < numThreads <= threads
      ensures thread == old(currentThread)
      ensures currentThread == NextThread(old(currentThread), numThreads)
      ensures threads == if old(threads) < numThreads then numThreads else old(threads)
    {
      while threads < numThreads
        invariant currentThread == old(currentThread) && old(threads) <= threads
        invariant old(threads) < numThreads ==> threads <= numThreads
        invariant old(threads) >= numThreads ==> threads == old(threads)
        decreases numThreads - threads
      {
        threads := threads + 1;
      }
      thread := currentThread;
      currentThread := currentThread + 1;
      if currentThread >= numThreads {
        currentThread := 0;
      }
    }

    /** The URIs isFeatureSupported accepts. */
    ghost predicate Supports(uri: string)
      reads this, features
    {
      HasUri(features.features, uri) || uri == WorkerScheduleUri || uri == LoadDefaultStateUri
    }

    /** isFeatureSupported (uri): a host feature, the worker schedule, or
        loadDefaultState. */
    method IsFeatureSupported(uri: string) returns (r: bool)
      ensures r <==> Supports(uri)
    {
      r := features.Contains(uri);
      if r {
        return;
      }
      r := uri == WorkerScheduleUri || uri == LoadDefaultStateUri;
    }

    /** isPluginSupported (plugin): every required feature is supported.
        The loop over the ports checks nothing. */
    method IsPluginSupported(plugin: PluginDesc) returns (r: bool)
      ensures r <==> forall i :: 0 <= i < |plugin.requiredFeatures| ==> Supports(plugin.requiredFeatures[i])
    {
      var i := 0;
      while i < |plugin.requiredFeatures|
        invariant 0 <= i <= |plugin.requiredFeatures|
        invariant forall j :: 0 <= j < i ==> Supports(plugin.requiredFeatures[j])
      {
        var ok := IsFeatureSupported(plugin.requiredFeatures[i]);
        if !ok {
          return false;
        }
        i := i + 1;
      }
      return true;
    }

    /** isPluginSupported (uri): false when no plugin has the URI. */
    method IsPluginSupportedUri(uri: string) returns (r: bool)
      ensures FindPlugin(plugins, uri).None? ==> !r
      ensures FindPlugin(plugins, uri).Some? ==>
        (r <==> forall i :: 0 <= i < |FindPlugin(plugins, uri).value.requiredFeatures| ==>
                  Supports(FindPlugin(plugins, uri).value.requiredFeatures[i]))
    {
      var p := FindPlugin(plugins, uri);
      if p.None? {
        return false;
      }
      r := IsPluginSupported(p.value);
    }
  }
}
