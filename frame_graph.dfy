/** The frame graph of the renderer: resources and passes are registered with
    fresh ids, passes are assembled by a builder, and compiling computes each
    resource's first and last use, the execution order and the (empty) alias
    table. */
module FrameGraphs {
  import opened Common

  datatype ResourceId = ResourceId(n: nat)
  datatype PassId = PassId(n: nat)

  datatype ResourceType = Texture2D | DepthTexture | Buffer | RenderTarget

  datatype TextureFormat = RGBA8 | RGBA16F | RGBA32F | R8 | R16F | R32F | RG8 | RG16F
                         | Depth24 | Depth32F | Depth24Stencil8

  datatype QueueType = Graphics | Compute | Transfer

  datatype RenderResource = RenderResource(id: ResourceId, name: string, resourceType: ResourceType,
                                           size: Option<(nat, nat)>, format: Option<TextureFormat>,
                                           transient: bool)

  /** A render pass; its builder methods take the pass by value and return
      the extended pass. */
  datatype RenderPass = RenderPass(id: PassId, name: string, readIds: seq<ResourceId>, writeIds: seq<ResourceId>,
                                   asyncCompute: bool, queue: QueueType)
  {
    /** `RenderPass::read`. */
    function Read(r: ResourceId): (p: RenderPass)
      ensures p.readIds == readIds + [r]
      ensures p.(readIds := readIds) == this
    {
      this.(readIds := readIds + [r])
    }

    /** `RenderPass::write`. */
    function Write(r: ResourceId): (p: RenderPass)
      ensures p.writeIds == writeIds + [r]
      ensures p.(writeIds := writeIds) == this
    {
      this.(writeIds := writeIds + [r])
    }

    /** `RenderPass::async_compute`: the async flag and the compute queue. */
    function AsyncCompute(): (p: RenderPass)
      ensures p.asyncCompute && p.queue == Compute
      ensures p.(asyncCompute := asyncCompute, queue := queue) == this
    {
      this.(asyncCompute := true, queue := Compute)
    }

    /** `RenderPass::on_queue`. */
    function OnQueue(q: QueueType): (p: RenderPass)
      ensures p.queue == q
      ensures p.(queue := queue) == this
    {
      this.(queue := q)
    }

    /** The resources the pass touches, reads first, in the order lifetimes
        are computed. */
    function Accesses(): (s: seq<ResourceId>)
      ensures forall r :: r in s <==> r in readIds || r in writeIds
    {
      readIds + writeIds
    }
  }

  /** `RenderPass::new`: no reads or writes, synchronous, graphics queue. */
  function NewPass(id: PassId, name: string): (p: RenderPass)
    ensures p.id == id && p.name == name
    ensures p.readIds == [] && p.writeIds == [] && !p.asyncCompute && p.queue == Graphics
  {
    RenderPass(id, name, [], [], false, Graphics)
  }

  /** Chained builder calls append in call order. */
  lemma BuilderKeepsOrder(p: RenderPass, a: ResourceId, b: ResourceId, c: ResourceId)
    ensures p.Write(a).Read(b).Write(c).writeIds == p.writeIds + [a, c]
    ensures p.Write(a).Read(b).Write(c).readIds == p.readIds + [b]
  {
    assert p.writeIds + [a] + [c] == p.writeIds + [a, c];
  }

  // ---------------------------------------------------------------------------
  // Lifetimes
  // ---------------------------------------------------------------------------

  datatype ResourceLifetime = ResourceLifetime(firstUse: PassId, lastUse: PassId)

  /** One step of `calculate_lifetimes`: a first use inserts, a later one moves
      the last use. */
  function Record(lt: map<ResourceId, ResourceLifetime>, r: ResourceId, id: PassId): map<ResourceId, ResourceLifetime>
  {
    if r in lt then lt[r := lt[r].(lastUse := id)] else lt[r := ResourceLifetime(id, id)]
  }

  /** All accesses `rs` of pass `id` recorded in order. */
  function RecordAll(lt: map<ResourceId, ResourceLifetime>, rs: seq<ResourceId>, id: PassId): map<ResourceId, ResourceLifetime>
  {
    if rs == [] then lt else Record(RecordAll(lt, rs[..|rs| - 1], id), rs[|rs| - 1], id)
  }

  /** After recording the accesses of one pass, a resource it touches has that
      pass as its last use (and as its first use when it is new); the others
      keep their lifetime. */
  lemma {:induction false} RecordAllAt(lt: map<ResourceId, ResourceLifetime>, rs: seq<ResourceId>, id: PassId, r: ResourceId)
    ensures r in RecordAll(lt, rs, id) <==> r in lt || r in rs
    ensures r in RecordAll(lt, rs, id) ==>
              RecordAll(lt, rs, id)[r] == if r !in rs then lt[r]
                                          else if r in lt then lt[r].(lastUse := id)
                                          else ResourceLifetime(id, id)
  {
    if rs != [] {
      var init := rs[..|rs| - 1];
      assert r in rs <==> r in init || r == rs[|rs| - 1];
      RecordAllAt(lt, init, id, r);
    }
  }

  /** The lifetime table `calculate_lifetimes` builds from `passes`. */
  function LifetimesOf(passes: seq<RenderPass>): map<ResourceId, ResourceLifetime>
  {
    if passes == [] then map[]
    else
      var last := passes[|passes| - 1];
      RecordAll(LifetimesOf(passes[..|passes| - 1]), last.Accesses(), last.id)
  }

  /** Pass `i` reads or writes `r`. */
  predicate Touches(passes: seq<RenderPass>, i: int, r: ResourceId)
  {
    0 <= i < |passes| && r in passes[i].Accesses()
  }

  /** Dropping the last pass does not change which earlier passes touch `r`. */
  lemma InitTouches(passes: seq<RenderPass>, r: ResourceId)
    requires passes != []
    ensures forall k :: 0 <= k < |passes| - 1 ==>
              (Touches(passes, k, r) <==> Touches(passes[..|passes| - 1], k, r))
  {
    forall k | 0 <= k < |passes| - 1 ensures passes[k] == passes[..|passes| - 1][k] { }
  }

  /** Exactly the resources some pass touches have a lifetime. */
  lemma {:induction false} LifetimeIffTouched(passes: seq<RenderPass>, r: ResourceId)
    ensures r in LifetimesOf(passes) <==> exists i :: Touches(passes, i, r)
  {
    if passes != [] {
      var n := |passes| - 1;
      var init, last := passes[..n], passes[n];
      LifetimeIffTouched(init, r);
      RecordAllAt(LifetimesOf(init), last.Accesses(), last.id, r);
      InitTouches(passes, r);
      if r in LifetimesOf(passes) {
        if r in last.Accesses() {
          assert Touches(passes, n, r);
        } else {
          var i :| Touches(init, i, r);
          assert Touches(passes, i, r);
        }
      } else {
        assert !exists i :: Touches(init, i, r);
        assert !Touches(passes, n, r);
      }
    }
  }

  /** A resource's first use is the earliest pass that touches it. */
  lemma {:induction false} FirstUseIsEarliest(passes: seq<RenderPass>, r: ResourceId)
    requires r in LifetimesOf(passes)
    ensures exists i :: Touches(passes, i, r) && LifetimesOf(passes)[r].firstUse == passes[i].id &&
                        forall k :: 0 <= k < i ==> !Touches(passes, k, r)
  {
    var n := |passes| - 1;
    var init, last := passes[..n], passes[n];
    RecordAllAt(LifetimesOf(init), last.Accesses(), last.id, r);
    InitTouches(passes, r);
    if r in LifetimesOf(init) {
      FirstUseIsEarliest(init, r);
      var i :| Touches(init, i, r) && LifetimesOf(init)[r].firstUse == init[i].id &&
               forall k :: 0 <= k < i ==> !Touches(init, k, r);
      assert Touches(passes, i, r) && LifetimesOf(passes)[r].firstUse == passes[i].id;
    } else {
      LifetimeIffTouched(init, r);
      assert Touches(passes, n, r);
    }
  }

  /** A resource's last use is the latest pass that touches it. */
  lemma {:induction false} LastUseIsLatest(passes: seq<RenderPass>, r: ResourceId)
    requires r in LifetimesOf(passes)
    ensures exists j :: Touches(passes, j, r) && LifetimesOf(passes)[r].lastUse == passes[j].id &&
                        forall k :: j < k < |passes| ==> !Touches(passes, k, r)
  {
    var n := |passes| - 1;
    var init, last := passes[..n], passes[n];
    RecordAllAt(LifetimesOf(init), last.Accesses(), last.id, r);
    if r in last.Accesses() {
      assert Touches(passes, n, r);
    } else {
      InitTouches(passes, r);
      LastUseIsLatest(init, r);
      var j :| Touches(init, j, r) && LifetimesOf(init)[r].lastUse == init[j].id &&
               forall k :: j < k < n ==> !Touches(init, k, r);
      assert Touches(passes, j, r);
    }
  }

  /** The pass ids in insertion order. */
  function PassIds(passes: seq<RenderPass>): (ids: seq<PassId>)
    ensures |ids| == |passes|
    ensures forall i :: 0 <= i < |passes| ==> ids[i] == passes[i].id
  {
    seq(|passes|, i requires 0 <= i < |passes| => passes[i].id)
  }

  /** `get_pass`: the first pass with that id. */
  function FindPass(passes: seq<RenderPass>, id: PassId): (r: Option<RenderPass>)
    ensures r.None? <==> forall i :: 0 <= i < |passes| ==> passes[i].id != id
    ensures r.Some? ==> exists i :: 0 <= i < |passes| && passes[i] == r.value && r.value.id == id &&
                                    forall k :: 0 <= k < i ==> passes[k].id != id
  {
    if passes == [] then None
    else if passes[0].id == id then Some(passes[0])
    else
      var r := FindPass(passes[1..], id);
      assert forall i :: 0 < i < |passes| ==> passes[i] == passes[1..][i - 1];
      r
  }

  /** The inner loop of `calculate_lifetimes`: the accesses of one pass. */
  method RecordAccesses(lt: map<ResourceId, ResourceLifetime>, acc: seq<ResourceId>, id: PassId)
    returns (m: map<ResourceId, ResourceLifetime>)
    ensures m == RecordAll(lt, acc, id)
  {
    m := lt;
    var j := 0;
    while j < |acc|
      invariant 0 <= j <= |acc|
      invariant m == RecordAll(lt, acc[..j], id)
    {
      var r := acc[j];
      assert acc[..j + 1][..j] == acc[..j];
      if r in m {
        m := m[r := m[r].(lastUse := id)];
      } else {
        m := m[r := ResourceLifetime(id, id)];
      }
      j := j + 1;
    }
    assert acc[..j] == acc;
  }

  // ---------------------------------------------------------------------------
  // The graph
  // ---------------------------------------------------------------------------

  class FrameGraph {
    var resources: map<ResourceId, RenderResource>
    var passes: seq<RenderPass>
    var executionOrder: seq<PassId>
    var lifetimes: map<ResourceId, ResourceLifetime>
    var aliases: map<ResourceId, ResourceId>
    var nextResourceId: nat
    var nextPassId: nat
    var compiled: bool

    /** Every resource is stored under its own id, and every stored id is
        below the counter. */
    ghost predicate Valid()
      reads this
    {
      forall r :: r in resources ==> resources[r].id == r && r.n < nextResourceId
    }

    /** `FrameGraph::new`. */
    constructor ()
      ensures Valid()
      ensures resources == map[] && passes == [] && executionOrder == []
      ensures lifetimes == map[] && aliases == map[]
      ensures nextResourceId == 0 && nextPassId == 0 && !compiled
    {
      resources, passes, executionOrder := map[], [], [];
      lifetimes, aliases := map[], map[];
      nextResourceId, nextPassId, compiled := 0, 0, false;
    }

    /** `create_transient`: a transient resource without size or format under
        the next id. */
    method CreateTransient(name: string, resourceType: ResourceType) returns (id: ResourceId)
      requires Valid()
      modifies this
      ensures Valid()
      ensures id == ResourceId(old(nextResourceId)) && nextResourceId == old(nextResourceId) + 1
      ensures id !in old(resources)
      ensures resources == old(resources)[id := RenderResource(id, name, resourceType, None, None, true)]
      ensures |resources| == |old(resources)| + 1
      ensures !compiled
      ensures passes == old(passes) && executionOrder == old(executionOrder)
      ensures lifetimes == old(lifetimes) && aliases == old(aliases) && nextPassId == old(nextPassId)
    {
      id := ResourceId(nextResourceId);
      nextResourceId := nextResourceId + 1;
      resources := resources[id := RenderResource(id, name, resourceType, None, None, true)];
      compiled := false;
    }

    /** `create_texture`: a 2D texture of the given size and format under the
        next id. */
    method CreateTexture(name: string, width: nat, height: nat, format: TextureFormat, transient: bool)
      returns (id: ResourceId)
      requires Valid()
      requires width <= U32_MAX && height <= U32_MAX
      modifies this
      ensures Valid()
      ensures id == ResourceId(old(nextResourceId)) && nextResourceId == old(nextResourceId) + 1
      ensures id !in old(resources)
      ensures resources == old(resources)[id := RenderResource(id, name, Texture2D, Some((width, height)),
                                                                  Some(format), transient)]
      ensures |resources| == |old(resources)| + 1
      ensures !compiled
      ensures passes == old(passes) && executionOrder == old(executionOrder)
      ensures lifetimes == old(lifetimes) && aliases == old(aliases) && nextPassId == old(nextPassId)
    {
      id := ResourceId(nextResourceId);
      nextResourceId := nextResourceId + 1;
      resources := resources[id := RenderResource(id, name, Texture2D, Some((width, height)), Some(format), transient)];
      compiled := false;
    }

    /** `add_pass`: takes the next pass id and returns a builder holding a new
        pass; the pass is not in the graph until the builder's `Build`. */
    method AddPass(name: string) returns (b: PassBuilder)
      requires Valid()
      modifies this
      ensures Valid() && fresh(b)
      ensures b.graph == this && b.pass == NewPass(PassId(old(nextPassId)), name)
      ensures nextPassId == old(nextPassId) + 1 && !compiled
      ensures passes == old(passes) && resources == old(resources) && nextResourceId == old(nextResourceId)
      ensures executionOrder == old(executionOrder) && lifetimes == old(lifetimes) && aliases == old(aliases)
    {
      var id := PassId(nextPassId);
      nextPassId := nextPassId + 1;
      compiled := false;
      b := new PassBuilder(this, NewPass(id, name));
    }

    /** `compile`: nothing when already compiled; otherwise lifetimes, order
        and aliases are recomputed from the passes. */
    method Compile()
      requires Valid()
      modifies this
      ensures Valid() && compiled
      ensures resources == old(resources) && passes == old(passes)
      ensures nextResourceId == old(nextResourceId) && nextPassId == old(nextPassId)
      ensures old(compiled) ==> executionOrder == old(executionOrder) && lifetimes == old(lifetimes)
                                && aliases == old(aliases)
      ensures !old(compiled) ==> lifetimes == LifetimesOf(passes) && executionOrder == PassIds(passes)
                                 && aliases == map[]
    {
      if compiled {
        return;
      }
      CalculateLifetimes();
      TopologicalSort();
      CalculateAliasing();
      compiled := true;
    }

    /** `calculate_lifetimes`: every access of every pass, in order. */
    method CalculateLifetimes()
      modifies this
      ensures lifetimes == LifetimesOf(passes)
      ensures resources == old(resources) && passes == old(passes) && executionOrder == old(executionOrder)
      ensures aliases == old(aliases) && compiled == old(compiled)
      ensures nextResourceId == old(nextResourceId) && nextPassId == old(nextPassId)
    {
      var ps := passes;
      var lt: map<ResourceId, ResourceLifetime> := map[];
      var i := 0;
      while i < |ps|
        modifies {}
        invariant 0 <= i <= |ps|
        invariant lt == LifetimesOf(ps[..i])
      {
        var p := ps[i];
        lt := RecordAccesses(lt, p.Accesses(), p.id);
        assert ps[..i + 1][..i] == ps[..i];
        i := i + 1;
      }
      assert ps[..i] == ps;
      lifetimes := lt;
    }

    /** `topological_sort`: the passes stay in insertion order. */
    method TopologicalSort()
      modifies this
      ensures executionOrder == PassIds(passes)
      ensures resources == old(resources) && passes == old(passes) && lifetimes == old(lifetimes)
      ensures aliases == old(aliases) && compiled == old(compiled)
      ensures nextResourceId == old(nextResourceId) && nextPassId == old(nextPassId)
    {
      executionOrder := PassIds(passes);
    }

    /** `calculate_aliasing`: no resource is aliased. */
    method CalculateAliasing()
      modifies this
      ensures aliases == map[]
      ensures resources == old(resources) && passes == old(passes) && lifetimes == old(lifetimes)
      ensures executionOrder == old(executionOrder) && compiled == old(compiled)
      ensures nextResourceId == old(nextResourceId) && nextPassId == old(nextPassId)
    {
      aliases := map[];
    }

    /** `execution_order`. */
    function ExecutionOrder(): (order: seq<PassId>)
      reads this
      ensures order == executionOrder
    {
      executionOrder
    }

    /** `get_pass`. */
    function GetPass(id: PassId): (r: Option<RenderPass>)
      reads this
      ensures r.None? <==> forall i :: 0 <= i < |passes| ==> passes[i].id != id
      ensures r.Some? ==> r.value in passes && r.value.id == id
    {
      FindPass(passes, id)
    }

    /** `get_resource`. */
    function GetResource(id: ResourceId): (r: Option<RenderResource>)
      reads this
      ensures r.Some? <==> id in resources
      ensures r.Some? ==> r.value == resources[id]
    {
      if id in resources then Some(resources[id]) else None
    }

    /** `clear`: every table emptied and both counters back to zero. */
    method Clear()
      modifies this
      ensures Valid()
      ensures resources == map[] && passes == [] && executionOrder == []
      ensures lifetimes == map[] && aliases == map[]
      ensures nextResourceId == 0 && nextPassId == 0 && !compiled
    {
      resources, passes, executionOrder := map[], [], [];
      lifetimes, aliases := map[], map[];
      nextResourceId, nextPassId, compiled := 0, 0, false;
    }

    /** `pass_count`. */
    function PassCount(): (n: nat)
      reads this
      ensures n == |passes|
    {
      |passes|
    }

    /** `resource_count`. */
    function ResourceCount(): (n: nat)
      reads this
      ensures n == |resources|
    {
      |resources|
    }
  }

  /** The builder `add_pass` returns: it holds the graph and the pass being
      assembled. */
  class PassBuilder {
    const graph: FrameGraph
    var pass: RenderPass

    constructor (g: FrameGraph, p: RenderPass)
      ensures graph == g && pass == p
    {
      graph := g;
      pass := p;
    }

    /** `PassBuilder::read`. */
    method Read(r: ResourceId)
      modifies this
      ensures pass == old(pass).Read(r)
    {
      pass := pass.Read(r);
    }

    /** `PassBuilder::write`. */
    method Write(r: ResourceId)
      modifies this
      ensures pass == old(pass).Write(r)
    {
      pass := pass.Write(r);
    }

    /** `PassBuilder::async_compute`. */
    method AsyncCompute()
      modifies this
      ensures pass == old(pass).AsyncCompute()
    {
      pass := pass.AsyncCompute();
    }

    /** `PassBuilder::on_queue`. */
    method OnQueue(q: QueueType)
      modifies this
      ensures pass == old(pass).OnQueue(q)
    {
      pass := pass.OnQueue(q);
    }

    /** `build`: appends the pass to the graph and returns its id. The
        compiled flag is left as it is. */
    method Build() returns (id: PassId)
      modifies graph
      ensures id == pass.id
      ensures graph.passes == old(graph.passes) + [pass]
      ensures graph.resources == old(graph.resources) && graph.nextResourceId == old(graph.nextResourceId)
      ensures graph.nextPassId == old(graph.nextPassId) && graph.compiled == old(graph.compiled)
      ensures graph.executionOrder == old(graph.executionOrder) && graph.lifetimes == old(graph.lifetimes)
      ensures graph.aliases == old(graph.aliases)
    {
      id := pass.id;
      graph.passes := graph.passes + [pass];
    }
  }

  // ---------------------------------------------------------------------------
  // Scenarios from the unit tests
  // ---------------------------------------------------------------------------

  method ResourceScenario()
  {
    var g := new FrameGraph();
    assert g.PassCount() == 0 && g.ResourceCount() == 0;
    var color := g.CreateTexture("Color", 1920, 1080, RGBA16F, true);
    var depth := g.CreateTexture("Depth", 1920, 1080, Depth32F, true);
    assert color == ResourceId(0) && depth == ResourceId(1);
    assert g.ResourceCount() == 2;
    var res := g.GetResource(color);
    assert res.Some? && res.value.name == "Color" && res.value.size == Some((1920, 1080));
  }

  method PassScenario()
  {
    var g := new FrameGraph();
    var color := g.CreateTexture("Color", 1920, 1080, RGBA16F, true);
    var depth := g.CreateTexture("Depth", 1920, 1080, Depth32F, true);
    var b := g.AddPass("GBuffer");
    b.Write(color);
    b.Write(depth);
    var id := b.Build();
    assert g.PassCount() == 1;
    var p := g.GetPass(id);
    assert p.Some? && p.value.name == "GBuffer" && p.value.writeIds == [color, depth];
  }

  /** The lifetimes of the compilation test: a target written by the first
      pass and read by the second lives across both. */
  lemma TwoPassLifetimes(p0: RenderPass, p1: RenderPass, a: ResourceId, b: ResourceId)
    requires a != b
    requires p0.readIds == [] && p0.writeIds == [a] && p1.readIds == [a] && p1.writeIds == [b]
    ensures a in LifetimesOf([p0, p1]) && LifetimesOf([p0, p1])[a] == ResourceLifetime(p0.id, p1.id)
    ensures b in LifetimesOf([p0, p1]) && LifetimesOf([p0, p1])[b] == ResourceLifetime(p1.id, p1.id)
  {
    assert [p0, p1][..1] == [p0] && [p0][..0] == [];
    assert p0.Accesses() == [a] && p1.Accesses() == [a, b];
    var none: seq<RenderPass> := [];
    assert LifetimesOf(none) == map[];
    assert [p0][..0] == none && [p0][0] == p0 && [p0, p1][1] == p1;
    var l0 := LifetimesOf([p0]);
    assert l0 == RecordAll(map[], [a], p0.id);
    assert LifetimesOf([p0, p1]) == RecordAll(l0, [a, b], p1.id);
    RecordAllAt(map[], [a], p0.id, a);
    RecordAllAt(map[], [a], p0.id, b);
    RecordAllAt(l0, [a, b], p1.id, a);
    RecordAllAt(l0, [a, b], p1.id, b);
  }

  /** The graph of the compilation test: a G-buffer pass writing one target and
      a lighting pass reading it and writing another. */
  method TwoPassGraph() returns (g: FrameGraph, gbuffer: ResourceId, lighting: ResourceId,
                                 ghost q0: RenderPass, ghost q1: RenderPass)
    ensures fresh(g) && g.Valid() && !g.compiled && g.passes == [q0, q1] && gbuffer != lighting
    ensures q0.id == PassId(0) && q0.readIds == [] && q0.writeIds == [gbuffer]
    ensures q1.id == PassId(1) && q1.readIds == [gbuffer] && q1.writeIds == [lighting]
  {
    g := new FrameGraph();
    gbuffer := g.CreateTransient("GBuffer", RenderTarget);
    lighting := g.CreateTransient("Lighting", RenderTarget);
    var b1 := g.AddPass("GBuffer Pass");
    b1.Write(gbuffer);
    q0 := b1.pass;
    var p1 := b1.Build();
    var b2 := g.AddPass("Lighting Pass");
    b2.Read(gbuffer);
    b2.Write(lighting);
    q1 := b2.pass;
    var p2 := b2.Build();
  }

  method CompileScenario()
  {
    var g, gbuffer, lighting, q0, q1 := TwoPassGraph();
    g.Compile();
    assert g.ExecutionOrder() == [PassId(0), PassId(1)];
    TwoPassLifetimes(q0, q1, gbuffer, lighting);
    assert g.lifetimes[gbuffer] == ResourceLifetime(PassId(0), PassId(1));
    assert g.lifetimes[lighting] == ResourceLifetime(PassId(1), PassId(1));
  }

  method AsyncComputeScenario()
  {
    var g := new FrameGraph();
    var data := g.CreateTransient("Data", Buffer);
    var b := g.AddPass("Compute Pass");
    b.Write(data);
    b.AsyncCompute();
    var id := b.Build();
    var p := g.GetPass(id);
    assert p.Some? && p.value.asyncCompute && p.value.queue == Compute;
  }
}
