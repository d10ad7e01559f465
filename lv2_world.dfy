/** The lvtk LV2World of lvtk_LV2World.cpp: a world with its own feature
    array, which accepts a plugin only when it is available, all its
    required features are supported and it has no CV, Atom or Event port. */
module LV2Worlds {
  import opened Wrappers
  import opened Features
  import opened Plugins

  /** A port class that isPluginSupported refuses. */
  predicate Refused(p: PortInfo)
  {
    CVPort in p.classes || AtomPort in p.classes || EventPort in p.classes
  }

  class LV2World {
    const features: FeatureArray
    const plugins: seq<PluginDesc>

    ghost predicate Valid()
      reads this, features
    {
      features.Valid()
    }

    constructor (plugins: seq<PluginDesc>)
      ensures Valid() && fresh(features) && features.features == []
      ensures this.plugins == plugins
    {
      features := new FeatureArray();
      this.plugins := plugins;
    }

    /** addFeature (feature, rebuild). */
    method AddFeature(feature: Option<Feature>, rebuild: bool)
      requires Valid()
      modifies features
      ensures Valid()
      ensures feature.Some? ==> HasUri(features.features, feature.value.uri)
      ensures feature.Some? && !HasUri(old(features.features), feature.value.uri) ==>
        features.features == old(features.features) + [feature.value]
      ensures feature.None? || HasUri(old(features.features), feature.value.uri) ==>
        features.features == old(features.features)
    {
      features.Add(feature, rebuild);
    }

    /** The URIs isFeatureSupported accepts: unlike the jlv2 World there is
        no loadDefaultState case. */
    ghost predicate Supports(uri: string)
      reads this, features
    {
      HasUri(features.features, uri) || uri == WorkerScheduleUri
    }

    /** isFeatureSupported (uri). */
    method IsFeatureSupported(uri: string) returns (r: bool)
      ensures r <==> Supports(uri)
    {
      r := features.Contains(uri);
      if r {
        return;
      }
      r := uri == WorkerScheduleUri;
    }

    /** The whole test of isPluginSupported (uri). */
    ghost predicate Hostable(uri: string)
      reads this, features
    {
      var p := FindPlugin(plugins, uri);
      p.Some?
      && (forall i :: 0 <= i < |p.value.requiredFeatures| ==> Supports(p.value.requiredFeatures[i]))
      && (forall i :: 0 <= i < |p.value.ports| ==> !Refused(p.value.ports[i]))
    }

    /** isPluginSupported (uri): the plugin must be available, every required
        feature supported, and the ports (checked from the last one down)
        free of CV, Atom and Event ports. */
    method IsPluginSupported(uri: string) returns (r: bool)
      ensures r <==> Hostable(uri)
    {
      var p := FindPlugin(plugins, uri);
      if p.None? {
        return false;
      }
      var plugin := p.value;
      var i := 0;
      while i < |plugin.requiredFeatures|
        invariant 0 <= i <= |plugin.requiredFeatures|
        invariant forall j :: 0 <= j < i ==> Supports(plugin.requiredFeatures[j])
      {
        var ok := IsFeatureSupported(plugin.requiredFeatures[i]);
        if !ok {
          return false;
        }
        i := i + 1;
      }
      var k := |plugin.ports|;
      while k > 0
        invariant 0 <= k <= |plugin.ports|
        invariant forall j :: k <= j < |plugin.ports| ==> !Refused(plugin.ports[j])
      {
        k := k - 1;
        var port := plugin.ports[k];
        if CVPort in port.classes || AtomPort in port.classes || EventPort in port.classes {
          return false;
        }
      }
      return true;
    }

    /** createModule (uri): the plugin a new module wraps, only when it is
        supported. */
    method CreateModule(uri: string) returns (m: Option<PluginDesc>)
      ensures m.Some? <==> Hostable(uri)
      ensures m.Some? ==> m == FindPlugin(plugins, uri) && m.value.uri == uri
    {
      var ok := IsPluginSupported(uri);
      if ok {
        return FindPlugin(plugins, uri);
      }
      return None;
    }
  }
}
