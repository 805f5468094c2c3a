/** The clustered-lighting bookkeeping of the renderer: the per-frame light
    list with its hard cap, the sun, and the cluster grid whose index lists
    `build_clusters` fills. Colours, positions, ranges and angles are floats
    and are not part of the model; a light keeps its type and flags. */
module Lighting {
  import opened Common

  /** The hard cap on lights per frame in `add_light`. */
  const MAX_LIGHTS: nat := 1024

  datatype LightType = Directional | Point | Spot | Area

  /** The `light_type as u32` discriminant packed into the GPU record. */
  function TypeCode(t: LightType): (c: nat)
    ensures c < 4
  {
    match t
    case Directional => 0
    case Point => 1
    case Spot => 2
    case Area => 3
  }

  /** Distinct light types get distinct codes, so the packed record
      identifies the type. */
  lemma TypeCodeInjective(t: LightType, u: LightType)
    ensures TypeCode(t) == TypeCode(u) ==> t == u
  {
  }

  /** The non-float part of a light. */
  datatype Light = Light(lightType: LightType, volumetric: bool, layerMask: nat)

  /** The GPU record `add_light` builds; only the type code is modelled. */
  datatype LightData = LightData(typeCode: nat)

  /** `LightData` for a light: its type code in the last parameter slot. */
  function Pack(light: Light): (d: LightData)
    ensures d.typeCode == TypeCode(light.lightType)
  {
    LightData(TypeCode(light.lightType))
  }

  datatype LightingConfig = LightingConfig(
    maxLightsPerCluster: nat,
    maxVolumetricLights: nat,
    clusterGrid: (nat, nat, nat),
    clustered: bool)

  /** `LightingConfig::default`: 32 lights per cluster in a 16×8×24 grid. */
  function DefaultConfig(): (c: LightingConfig)
    ensures c.maxLightsPerCluster == 32 && c.maxVolumetricLights == 4
    ensures c.clusterGrid == (16, 8, 24) && c.clustered
  {
    LightingConfig(32, 4, (16, 8, 24), true)
  }

  /** The number of clusters in a grid. */
  function ClusterCount(grid: (nat, nat, nat)): nat
  {
    grid.0 * grid.1 * grid.2
  }

  /** The light indices `0, 1, …, n - 1`. */
  function Indices(n: nat): (r: seq<nat>)
    ensures |r| == n && forall i :: 0 <= i < n ==> r[i] == i
  {
    seq(n, i => i)
  }

  /** A cluster's list once `n` lights have been offered to it under a cap:
      the first `min(n, cap)` indices, in order. */
  function Capped(n: nat, cap: nat): (r: seq<nat>)
    ensures |r| == Min(n, cap) <= cap
    ensures forall i :: 0 <= i < |r| ==> r[i] == i
  {
    Indices(Min(n, cap))
  }

  /** Offering light `n` to a cluster that holds the capped list for `n`
      lights appends it exactly when there is room, giving the capped list
      for `n + 1` lights. */
  lemma OfferExtendsCapped(n: nat, cap: nat)
    ensures |Capped(n, cap)| < cap ==> Capped(n, cap) + [n] == Capped(n + 1, cap)
    ensures |Capped(n, cap)| >= cap ==> Capped(n, cap) == Capped(n + 1, cap)
  {
    if n < cap {
      assert Capped(n, cap) + [n] == Indices(n + 1);
    }
  }

  class LightingSystem {
    const config: LightingConfig
    var lights: seq<LightData>
    const clusters: array<seq<nat>>
    var sun: Option<Light>

    /** At most `MAX_LIGHTS` lights are ever queued. */
    predicate Valid()
      reads this
    {
      |lights| <= MAX_LIGHTS
    }

    /** `LightingSystem::new`: no lights, no sun, and one empty cluster per
        grid cell. The grid product is a `u32` multiplication, which must not
        overflow. */
    constructor (config: LightingConfig)
      requires ClusterCount(config.clusterGrid) <= U32_MAX
      ensures Valid() && this.config == config && lights == [] && sun == None
      ensures fresh(clusters) && clusters.Length == ClusterCount(config.clusterGrid)
      ensures forall k :: 0 <= k < clusters.Length ==> clusters[k] == []
    {
      this.config := config;
      lights := [];
      clusters := new seq<nat>[ClusterCount(config.clusterGrid)](_ => []);
      sun := None;
    }

    /** `set_sun`: only a directional light may be the sun. */
    method SetSun(light: Light)
      requires light.lightType == Directional
      modifies this
      ensures sun == Some(light) && lights == old(lights)
    {
      sun := Some(light);
    }

    /** `sun`. */
    function Sun(): (s: Option<Light>)
      reads this
      ensures s == sun
    {
      sun
    }

    /** `light_count`. */
    function LightCount(): (n: nat)
      reads this
      requires Valid()
      ensures n == |lights| <= MAX_LIGHTS
    {
      |lights|
    }

    /** Empties every cluster's index list. */
    method ClearClusters()
      modifies clusters
      ensures forall k :: 0 <= k < clusters.Length ==> clusters[k] == []
    {
      for k := 0 to clusters.Length
        invariant forall j :: 0 <= j < k ==> clusters[j] == []
      {
        clusters[k] := [];
      }
    }

    /** `clear`: no lights and every cluster empty. */
    method Clear()
      modifies this, clusters
      ensures Valid() && lights == [] && sun == old(sun)
      ensures forall k :: 0 <= k < clusters.Length ==> clusters[k] == []
    {
      lights := [];
      ClearClusters();
    }

    /** `add_light`: queues the light's GPU record unless the cap is reached,
        in which case nothing changes. */
    method AddLight(light: Light)
      requires Valid()
      modifies this
      ensures Valid() && sun == old(sun)
      ensures |old(lights)| < MAX_LIGHTS ==> lights == old(lights) + [Pack(light)]
      ensures |old(lights)| >= MAX_LIGHTS ==> lights == old(lights)
    {
      if |lights| >= MAX_LIGHTS {
        return;
      }
      lights := lights + [Pack(light)];
    }

    /** Offers light `n` to every cluster that holds the capped list for `n`
        lights. */
    method OfferToAll(n: nat)
      requires n < U16_MAX
      requires forall k :: 0 <= k < clusters.Length ==> clusters[k] == Capped(n, config.maxLightsPerCluster)
      modifies clusters
      ensures forall k :: 0 <= k < clusters.Length ==> clusters[k] == Capped(n + 1, config.maxLightsPerCluster)
    {
      var cap := config.maxLightsPerCluster;
      OfferExtendsCapped(n, cap);
      for k := 0 to clusters.Length
        invariant forall j :: 0 <= j < k ==> clusters[j] == Capped(n + 1, cap)
        invariant forall j :: k <= j < clusters.Length ==> clusters[j] == Capped(n, cap)
      {
        if |clusters[k]| < cap {
          clusters[k] := clusters[k] + [n];
        }
      }
    }

    /** `build_clusters`: every cluster ends up holding the indices
        `0 … min(light_count, max_lights_per_cluster) - 1` in order. The
        `as u16` cast and the `< u16::MAX` guard never bite, since at most
        `MAX_LIGHTS` lights are queued. */
    method BuildClusters()
      requires Valid()
      modifies clusters
      ensures forall k :: 0 <= k < clusters.Length ==>
                clusters[k] == Capped(|lights|, config.maxLightsPerCluster)
    {
      ClearClusters();
      assert forall k :: 0 <= k < clusters.Length ==> clusters[k] == Capped(0, config.maxLightsPerCluster);
      for i := 0 to |lights|
        invariant forall k :: 0 <= k < clusters.Length ==> clusters[k] == Capped(i, config.maxLightsPerCluster)
      {
        var index := i % (U16_MAX + 1);
        if index < U16_MAX {
          OfferToAll(index);
        }
      }
    }
  }

  /** `test_lighting_system` and `test_light_addition`, and one build. */
  method LightingScenario()
  {
    var system := new LightingSystem(DefaultConfig());
    assert system.clusters.Length == 16 * 8 * 24;
    system.SetSun(Light(Directional, true, U32_MAX));
    assert system.Sun().Some?;
    system.AddLight(Light(Point, false, U32_MAX));
    assert system.LightCount() == 1;
    system.BuildClusters();
    assert system.clusters[0] == [0];
    system.Clear();
    assert system.LightCount() == 0;
  }
}
