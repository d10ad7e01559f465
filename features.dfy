/** LV2FeatureArray of lvtk_LV2Features.h: host features kept once per URI,
    and the null-terminated LV2_Feature* array that instantiate() takes. */
module Features {
  import opened Wrappers

  /** An LV2_Feature: its URI and (the identity of) its data. */
  datatype Feature = Feature(uri: string, data: nat)

  /** Some stored feature has this URI. */
  predicate HasUri(features: seq<Feature>, uri: string)
  {
    exists i :: 0 <= i < |features| && features[i].uri == uri
  }

  /** No URI is stored twice. */
  predicate DistinctUris(features: seq<Feature>)
  {
    forall i, j :: 0 <= i < j < |features| ==> features[i].uri != features[j].uri
  }

  class FeatureArray {
    var features: seq<Feature>
    /** The C array handed to plugins: one entry per feature, then null. */
    var table: array<Option<Feature>>
    var needsBuilt: bool

    ghost predicate Valid()
      reads this
    {
      DistinctUris(features)
    }

    /** The C array lists the features in order and ends with null. */
    ghost predicate Built()
      reads this, table
    {
      table.Length == |features| + 1 && table[|features|] == None
      && forall i :: 0 <= i < |features| ==> table[i] == Some(features[i])
    }

    /** LV2FeatureArray (): empty, and not built yet. */
    constructor ()
      ensures Valid() && features == [] && needsBuilt
    {
      features := [];
      table := new Option<Feature>[0];
      needsBuilt := true;
    }

    /** contains (uri): search from the last feature to the first. */
    method Contains(uri: string) returns (found: bool)
      ensures found <==> HasUri(features, uri)
    {
      var i := |features|;
      while i > 0
        invariant 0 <= i <= |features|
        invariant forall j :: i <= j < |features| ==> features[j].uri != uri
      {
        i := i - 1;
        if features[i].uri == uri {
          return true;
        }
      }
      return false;
    }

    /** buildArray (): a fresh array of size () + 1 entries. */
    method BuildArray()
      modifies this
      ensures features == old(features) && !needsBuilt
      ensures fresh(table) && Built()
    {
      needsBuilt := false;
      var a := new Option<Feature>[|features| + 1](_ => None);
      var i := 0;
      while i < |features|
        invariant 0 <= i <= |features|
        invariant a[|features|] == None
        invariant forall j :: 0 <= j < i ==> a[j] == Some(features[j])
        modifies a
      {
        a[i] := Some(features[i]);
        i := i + 1;
      }
      table := a;
    }

    /** add (feature, rebuildArray): a null feature or one whose URI is
        already stored is dropped. A new one is appended, and the array is
        rebuilt only when asked; without a rebuild neither the array nor
        needsBuilt changes, so a built array can go stale. */
    method Add(feature: Option<Feature>, rebuild: bool)
      requires Valid()
      modifies this
      ensures Valid()
      ensures feature.Some? ==> HasUri(features, feature.value.uri)
      ensures feature.None? || HasUri(old(features), feature.value.uri) ==>
        features == old(features) && table == old(table) && needsBuilt == old(needsBuilt)
      ensures feature.Some? && !HasUri(old(features), feature.value.uri) ==>
        features == old(features) + [feature.value]
        && (rebuild ==> !needsBuilt && fresh(table) && Built())
        && (!rebuild ==> table == old(table) && needsBuilt == old(needsBuilt))
    {
      if feature.Some? {
        var known := Contains(feature.value.uri);
        if !known {
          features := features + [feature.value];
          assert features[|features| - 1].uri == feature.value.uri;
          if rebuild {
            BuildArray();
          }
        }
      }
    }

    /** getFeatures (): the C array, which must have been built. */
    method GetFeatures() returns (a: array<Option<Feature>>)
      requires !needsBuilt
      ensures a == table
    {
      a := table;
    }

    /** size (). */
    function Size(): (n: nat)
      reads this
      ensures n == |features|
    {
      |features|
    }

    /** end (): the entry after the last feature, null on a current array. */
    method End() returns (e: Option<Feature>)
      requires !needsBuilt && Built()
      ensures e == None
    {
      var a := GetFeatures();
      e := a[|features|];
    }
  }
}
