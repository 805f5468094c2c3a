/** The asset database: metadata by id, ids by source path and the reverse
    dependency graph, with the recook query over it; and the platform and
    file-type tables of the asset pipeline. */
module Assets {
  import opened Common

  /** A content-addressed id: the raw 64-bit hash. */
  datatype AssetId = AssetId(value: nat)

  datatype AssetType = Texture | Mesh | Animation | Audio | Material | Shader
                     | Prefab | Scene | Font | Script | Data

  /** `AssetType::extensions`: the source file extensions of each type. */
  function Extensions(t: AssetType): (exts: seq<string>)
    ensures |exts| > 0 && NoDuplicates(exts)
  {
    match t
    case Texture => ["png", "jpg", "jpeg", "tga", "exr", "hdr"]
    case Mesh => ["gltf", "glb", "fbx", "obj"]
    case Animation => ["gltf", "glb", "fbx"]
    case Audio => ["wav", "ogg", "mp3", "flac"]
    case Material => ["omat"]
    case Shader => ["wgsl", "glsl", "hlsl"]
    case Prefab => ["opfb"]
    case Scene => ["oscn"]
    case Font => ["ttf", "otf"]
    case Script => ["wasm", "lua"]
    case Data => ["json", "toml", "yaml"]
  }

  datatype AssetMeta = AssetMeta(id: AssetId, name: string, assetType: AssetType, sourcePath: string,
                                 contentHash: nat, dependencies: seq<AssetId>, modifiedTime: nat,
                                 settingsHash: nat)

  datatype TextureCompression = Auto | NoCompression | BC7 | ASTC | ETC2

  /** The texture import settings without their defaults' floating-point
      companions: mipmaps, compression, sRGB and the size cap (0 = none). */
  datatype TextureImportSettings = TextureImportSettings(generateMips: bool, compression: TextureCompression,
                                                         srgb: bool, maxSize: nat)

  /** `TextureImportSettings::default`. */
  function DefaultTextureImportSettings(): (s: TextureImportSettings)
    ensures s.generateMips && s.srgb && s.compression == Auto && s.maxSize == 4096
  {
    TextureImportSettings(true, Auto, true, 4096)
  }

  datatype TargetPlatform = Android | Ios | Windows | Linux

  /** `TargetPlatform::texture_compression`. */
  function PreferredCompression(p: TargetPlatform): (c: TextureCompression)
    ensures c == ASTC <==> p == Android || p == Ios
    ensures c == BC7 <==> p == Windows || p == Linux
  {
    match p
    case Android => ASTC
    case Ios => ASTC
    case Windows => BC7
    case Linux => BC7
  }

  // ---------------------------------------------------------------------------
  // The dependency graph
  // ---------------------------------------------------------------------------

  /** The dependents table after `id` is recorded as a dependent of every
      asset in `deps`, in order. */
  function WithDependent(dependents: map<AssetId, set<AssetId>>, deps: seq<AssetId>, id: AssetId)
    : map<AssetId, set<AssetId>>
  {
    if deps == [] then dependents
    else
      var m := WithDependent(dependents, deps[..|deps| - 1], id);
      var d := deps[|deps| - 1];
      m[d := (if d in m then m[d] else {}) + {id}]
  }

  /** After recording, an asset in `deps` has `id` among its dependents besides
      its former ones; every other entry is untouched. */
  lemma {:induction false} WithDependentAt(dependents: map<AssetId, set<AssetId>>, deps: seq<AssetId>,
                                           id: AssetId, k: AssetId)
    ensures k in WithDependent(dependents, deps, id) <==> k in dependents || k in deps
    ensures k in deps ==>
              WithDependent(dependents, deps, id)[k] == (if k in dependents then dependents[k] else {}) + {id}
    ensures k !in deps && k in dependents ==> WithDependent(dependents, deps, id)[k] == dependents[k]
  {
    if deps != [] {
      var init := deps[..|deps| - 1];
      assert k in deps <==> k in init || k == deps[|deps| - 1];
      WithDependentAt(dependents, init, id, k);
    }
  }

  /** Every dependency gains `id` as a dependent. */
  lemma RecordedAsDependent(dependents: map<AssetId, set<AssetId>>, deps: seq<AssetId>, id: AssetId)
    ensures forall d :: d in deps ==> d in WithDependent(dependents, deps, id) &&
                                      id in WithDependent(dependents, deps, id)[d]
  {
    forall d | d in deps
      ensures d in WithDependent(dependents, deps, id) && id in WithDependent(dependents, deps, id)[d]
    {
      WithDependentAt(dependents, deps, id, d);
    }
  }

  /** Recording dependents never drops an entry or a dependent. */
  lemma DependentsOnlyGrow(dependents: map<AssetId, set<AssetId>>, deps: seq<AssetId>, id: AssetId)
    ensures forall k :: k in dependents ==> k in WithDependent(dependents, deps, id) &&
                                            dependents[k] <= WithDependent(dependents, deps, id)[k]
  {
    forall k | k in dependents
      ensures k in WithDependent(dependents, deps, id) && dependents[k] <= WithDependent(dependents, deps, id)[k]
    {
      WithDependentAt(dependents, deps, id, k);
    }
  }

  // ---------------------------------------------------------------------------
  // Recooking
  // ---------------------------------------------------------------------------

  /** The source file of `meta` was modified after it was imported; `sourceTimes`
      holds the modification time of each readable source file, in seconds. */
  predicate SourceChanged(meta: AssetMeta, sourceTimes: map<string, nat>)
  {
    meta.sourcePath in sourceTimes && sourceTimes[meta.sourcePath] > meta.modifiedTime
  }

  /** A rank that falls along every dependency between registered assets: the
      dependency graph of those assets is acyclic. */
  ghost predicate DepsRanked(assets: map<AssetId, AssetMeta>, rank: map<AssetId, nat>)
  {
    forall id :: id in assets ==>
      id in rank && forall d :: d in assets[id].dependencies && d in assets ==> d in rank && rank[d] < rank[id]
  }

  /** The termination measure of the recook query: unregistered ids end it. */
  ghost function RecookMeasure(assets: map<AssetId, AssetMeta>, rank: map<AssetId, nat>, id: AssetId): nat
    requires DepsRanked(assets, rank)
  {
    if id in assets then rank[id] + 1 else 0
  }

  /** `needs_recook`: an unregistered asset, one whose source changed, or one
      with a dependency that needs recooking. */
  function NeedsRecookIn(assets: map<AssetId, AssetMeta>, sourceTimes: map<string, nat>,
                         ghost rank: map<AssetId, nat>, id: AssetId): (r: bool)
    requires DepsRanked(assets, rank)
    ensures id !in assets ==> r
    ensures id in assets && SourceChanged(assets[id], sourceTimes) ==> r
    decreases RecookMeasure(assets, rank, id), 1, 0
  {
    if id !in assets then true
    else
      var meta := assets[id];
      SourceChanged(meta, sourceTimes) ||
      AnyNeedsRecook(assets, sourceTimes, rank, meta.dependencies, RecookMeasure(assets, rank, id))
  }

  /** The loop over the dependencies of `needs_recook`. */
  function AnyNeedsRecook(assets: map<AssetId, AssetMeta>, sourceTimes: map<string, nat>,
                          ghost rank: map<AssetId, nat>, deps: seq<AssetId>, ghost bound: nat): (r: bool)
    requires DepsRanked(assets, rank)
    requires forall i :: 0 <= i < |deps| ==> RecookMeasure(assets, rank, deps[i]) < bound
    ensures r <==> exists i :: 0 <= i < |deps| && NeedsRecookIn(assets, sourceTimes, rank, deps[i])
    decreases bound, 0, |deps|
  {
    if deps == [] then false
    else
      var rest := AnyNeedsRecook(assets, sourceTimes, rank, deps[1..], bound);
      assert forall i :: 1 <= i < |deps| ==> deps[i] == deps[1..][i - 1];
      NeedsRecookIn(assets, sourceTimes, rank, deps[0]) || rest
  }

  /** A dependency that needs recooking makes its dependents need it too. */
  lemma RecookPropagates(assets: map<AssetId, AssetMeta>, sourceTimes: map<string, nat>,
                         rank: map<AssetId, nat>, id: AssetId, d: AssetId)
    requires DepsRanked(assets, rank)
    requires id in assets && d in assets[id].dependencies
    requires NeedsRecookIn(assets, sourceTimes, rank, d)
    ensures NeedsRecookIn(assets, sourceTimes, rank, id)
  {
    var deps := assets[id].dependencies;
    var i :| 0 <= i < |deps| && deps[i] == d;
    assert AnyNeedsRecook(assets, sourceTimes, rank, deps, RecookMeasure(assets, rank, id));
  }

  /** A set of registered assets that is closed under dependencies and whose
      sources are all unchanged. */
  ghost predicate CleanClosed(assets: map<AssetId, AssetMeta>, sourceTimes: map<string, nat>, s: set<AssetId>)
  {
    forall id :: id in s ==> id in assets && !SourceChanged(assets[id], sourceTimes) &&
                             forall d :: d in assets[id].dependencies ==> d in s
  }

  /** Nothing in such a set needs recooking. */
  lemma {:induction false} CleanClosedNeedsNoRecook(assets: map<AssetId, AssetMeta>, sourceTimes: map<string, nat>,
                                                    rank: map<AssetId, nat>, s: set<AssetId>, id: AssetId)
    requires DepsRanked(assets, rank) && CleanClosed(assets, sourceTimes, s) && id in s
    ensures !NeedsRecookIn(assets, sourceTimes, rank, id)
    decreases RecookMeasure(assets, rank, id)
  {
    var deps := assets[id].dependencies;
    forall i | 0 <= i < |deps| ensures !NeedsRecookIn(assets, sourceTimes, rank, deps[i]) {
      assert deps[i] in s;
      CleanClosedNeedsNoRecook(assets, sourceTimes, rank, s, deps[i]);
    }
  }

  /** Conversely, the assets that need no recooking form such a set: an asset
      needs no recooking exactly when some clean closed set holds it. */
  lemma NoRecookIsCleanClosed(assets: map<AssetId, AssetMeta>, sourceTimes: map<string, nat>,
                              rank: map<AssetId, nat>, id: AssetId)
    requires DepsRanked(assets, rank)
    requires !NeedsRecookIn(assets, sourceTimes, rank, id)
    ensures var s := set x | x in assets && !NeedsRecookIn(assets, sourceTimes, rank, x);
            id in s && CleanClosed(assets, sourceTimes, s)
  {
    var s := set x | x in assets && !NeedsRecookIn(assets, sourceTimes, rank, x);
    forall x | x in s
      ensures x in assets && !SourceChanged(assets[x], sourceTimes) &&
              forall d :: d in assets[x].dependencies ==> d in s
    {
      forall d | d in assets[x].dependencies ensures d in s {
        if NeedsRecookIn(assets, sourceTimes, rank, d) {
          RecookPropagates(assets, sourceTimes, rank, x, d);
        }
      }
    }
  }

  // ---------------------------------------------------------------------------
  // The database
  // ---------------------------------------------------------------------------

  class AssetDatabase {
    var assets: map<AssetId, AssetMeta>
    var pathToId: map<string, AssetId>
    var dependents: map<AssetId, set<AssetId>>
    const projectRoot: string
    const cacheDir: string

    /** Metadata is stored under its own id, and every path and every
        dependent names a registered asset. */
    ghost predicate Valid()
      reads this
    {
      (forall id :: id in assets ==> assets[id].id == id) &&
      (forall p :: p in pathToId ==> pathToId[p] in assets) &&
      (forall d, x :: d in dependents && x in dependents[d] ==> x in assets)
    }

    /** `AssetDatabase::new`. */
    constructor (projectRoot: string, cacheDir: string)
      ensures Valid()
      ensures assets == map[] && pathToId == map[] && dependents == map[]
      ensures this.projectRoot == projectRoot && this.cacheDir == cacheDir
    {
      assets, pathToId, dependents := map[], map[], map[];
      this.projectRoot, this.cacheDir := projectRoot, cacheDir;
    }

    /** `register`: the metadata replaces any under its id, its path now maps
        to its id, and it is added as a dependent of each of its dependencies.
        Nothing is removed, not even the dependents of an earlier registration
        of the same id. */
    method Register(meta: AssetMeta)
      requires Valid()
      modifies this
      ensures Valid()
      ensures assets == old(assets)[meta.id := meta]
      ensures pathToId == old(pathToId)[meta.sourcePath := meta.id]
      ensures dependents == WithDependent(old(dependents), meta.dependencies, meta.id)
    {
      var id := meta.id;
      var deps := meta.dependencies;
      assets := assets[id := meta];
      pathToId := pathToId[meta.sourcePath := id];
      var i := 0;
      while i < |deps|
        invariant 0 <= i <= |deps|
        invariant assets == old(assets)[id := meta] && pathToId == old(pathToId)[meta.sourcePath := id]
        invariant dependents == WithDependent(old(dependents), deps[..i], id)
        invariant Valid()
      {
        var d := deps[i];
        assert deps[..i + 1][..i] == deps[..i];
        dependents := dependents[d := (if d in dependents then dependents[d] else {}) + {id}];
        i := i + 1;
      }
      assert deps[..i] == deps;
    }

    /** `get`. */
    function Get(id: AssetId): (r: Option<AssetMeta>)
      reads this
      ensures r.Some? <==> id in assets
      ensures r.Some? ==> r.value == assets[id] && (Valid() ==> r.value.id == id)
    {
      if id in assets then Some(assets[id]) else None
    }

    /** `get_id_by_path`. */
    function GetIdByPath(path: string): (r: Option<AssetId>)
      reads this
      ensures r.Some? <==> path in pathToId
      ensures r.Some? ==> r.value == pathToId[path] && (Valid() ==> r.value in assets)
    {
      if path in pathToId then Some(pathToId[path]) else None
    }

    /** `get_by_type`: the registered metadata of one type (as a set: the
        order of a hash map's values is unspecified). */
    function GetByType(t: AssetType): (r: set<AssetMeta>)
      reads this
      requires Valid()
      ensures forall m :: m in r <==> m.id in assets && assets[m.id] == m && m.assetType == t
    {
      set id | id in assets && assets[id].assetType == t :: assets[id]
    }

    /** `get_dependents`: the assets registered with `id` as a dependency (as a
        set, for the same reason); none for an id nobody depends on. */
    function GetDependents(id: AssetId): (r: set<AssetId>)
      reads this
      ensures id !in dependents ==> r == {}
      ensures id in dependents ==> r == dependents[id]
      ensures Valid() ==> forall x :: x in r ==> x in assets
    {
      if id in dependents then dependents[id] else {}
    }

    /** `needs_recook`, over the modification times of the source files. */
    function NeedsRecook(id: AssetId, sourceTimes: map<string, nat>, ghost rank: map<AssetId, nat>): (r: bool)
      reads this
      requires DepsRanked(assets, rank)
      ensures id !in assets ==> r
      ensures id in assets && SourceChanged(assets[id], sourceTimes) ==> r
      ensures id in assets && !SourceChanged(assets[id], sourceTimes) ==>
                (r <==> exists d :: d in assets[id].dependencies && NeedsRecookIn(assets, sourceTimes, rank, d))
    {
      if id in assets then
        var deps := assets[id].dependencies;
        assert (exists d :: d in deps && NeedsRecookIn(assets, sourceTimes, rank, d)) <==>
               (exists i :: 0 <= i < |deps| && NeedsRecookIn(assets, sourceTimes, rank, deps[i]));
        NeedsRecookIn(assets, sourceTimes, rank, id)
      else true
    }

    /** `asset_count`: one per distinct registered id. */
    function AssetCount(): (n: nat)
      reads this
      ensures n == |assets.Keys|
    {
      |assets|
    }

    /** `clear`. */
    method Clear()
      modifies this
      ensures Valid()
      ensures assets == map[] && pathToId == map[] && dependents == map[]
    {
      assets, pathToId, dependents := map[], map[], map[];
    }
  }

  /** Registering a new id adds one asset; registering a known id again
      replaces it and keeps the count. */
  lemma RegisterCount(assets: map<AssetId, AssetMeta>, meta: AssetMeta)
    ensures meta.id !in assets ==> |assets[meta.id := meta]| == |assets| + 1
    ensures meta.id in assets ==> |assets[meta.id := meta]| == |assets|
  {
    if meta.id in assets {
      assert assets[meta.id := meta].Keys == assets.Keys;
    }
  }

  // ---------------------------------------------------------------------------
  // Scenarios from the unit tests
  // ---------------------------------------------------------------------------

  method DatabaseScenario()
  {
    var db := new AssetDatabase(".", "./cache");
    var meta := AssetMeta(AssetId(12345), "Test", Texture, "textures/test.png", 0, [], 0, 0);
    db.Register(meta);
    assert db.AssetCount() == 1;
    var got := db.Get(AssetId(12345));
    assert got.Some? && got.value.name == "Test";
    var byPath := db.GetIdByPath("textures/test.png");
    assert byPath == Some(AssetId(12345));
  }

  /** A material depending on a texture: the texture lists it as a dependent,
      and a changed texture source makes both need recooking. */
  method DependencyScenario()
  {
    var db := new AssetDatabase(".", "./cache");
    var tex := AssetMeta(AssetId(1), "Albedo", Texture, "albedo.png", 0, [], 10, 0);
    var mat := AssetMeta(AssetId(2), "Brick", Material, "brick.omat", 0, [AssetId(1)], 10, 0);
    db.Register(tex);
    db.Register(mat);
    RecordedAsDependent(map[], [AssetId(1)], AssetId(2));
    assert AssetId(2) in db.GetDependents(AssetId(1));
    assert db.GetDependents(AssetId(3)) == {};
    ghost var rank := map[AssetId(1) := 0, AssetId(2) := 1];
    assert db.assets == map[AssetId(1) := tex, AssetId(2) := mat];
    assert DepsRanked(db.assets, rank);
    var times := map["albedo.png" := 20];
    RecookPropagates(db.assets, times, rank, AssetId(2), AssetId(1));
    assert db.NeedsRecook(AssetId(2), times, rank);
  }

  method PlatformScenario()
  {
    assert PreferredCompression(Android) == ASTC && PreferredCompression(Windows) == BC7;
  }
}
