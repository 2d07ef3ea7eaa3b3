/** The scene renderer (Renderer.h / Renderer.cpp): a registry of models by id with a
    drawing order and an automatic-id counter, the render settings, and a frame drawn
    in two passes, opaque meshes first, then transparent meshes with blending on and
    depth writes off. */
module Render {
  import opened Wrappers
  import opened Geometry
  import opened Gl
  import opened Materials
  import opened Meshes
  import opened Models
  import opened Text

  /** `RenderSettings{}`: filled polygons, back faces culled, depth test on, and a
      dark blue-grey background. */
  const DefaultSettings := RenderSettings(false, true, true, Vec4(0.08, 0.09, 0.11, 1.0))

  /** The colour an opaque mesh without a material is drawn with. */
  const OpaqueColor := Vec3(0.7, 0.7, 0.8)

  /** The uniforms a transparent mesh without a material is drawn with: a light blue
      glass, alpha 0.4, shininess 128, white highlights. */
  const GlassShading := Blended(Vec3(0.9, 0.95, 1.0), 0.4, 128.0, One3)

  /** `generateAutoId`: "modelo_" followed by the counter in decimal. */
  function AutoId(n: nat): (id: string)
    ensures id != "" && |id| > |"modelo_"|
  {
    "modelo_" + NatToString(n)
  }

  /** Different counter values give different automatic ids. */
  lemma {:induction false} AutoIdsDistinct(a: nat, b: nat)
    ensures AutoId(a) == AutoId(b) <==> a == b
  {
    if AutoId(a) == AutoId(b) {
      assert NatToString(a) == AutoId(a)[7..];
      assert NatToString(b) == AutoId(b)[7..];
      NatToStringInjective(a, b);
    }
  }

  /** No id occurs twice. */
  predicate Unique(s: seq<string>) {
    s == [] || (s[0] !in s[1..] && Unique(s[1..]))
  }

  /** An id that does not occur yet can be appended without repeating one. */
  lemma {:induction false} UniqueSnoc(s: seq<string>, x: string)
    requires Unique(s) && x !in s
    ensures Unique(s + [x])
  {
    if s != [] {
      assert (s + [x])[1..] == s[1..] + [x];
      UniqueSnoc(s[1..], x);
    }
  }

  /** `order` lists exactly the ids in `keys`, each once. */
  ghost predicate Lists(order: seq<string>, keys: set<string>) {
    Unique(order) && forall id :: id in order <==> id in keys
  }

  /** `std::find` followed by `erase`: `s` without the first occurrence of `x`; `s`
      itself when `x` does not occur. */
  function Erase(s: seq<string>, x: string): seq<string> {
    if s == [] then []
    else if s[0] == x then s[1..]
    else
      [s[0]] + Erase(s[1..], x)
  }

  /** `Erase` removes the element at the index `std::find` reports, and nothing when
      that index is the end. */
  lemma {:induction false} EraseAtFirstIndex(s: seq<string>, x: string)
    ensures var k := FirstIndex(s, x);
      Erase(s, x) == if k < 0 then s else s[..k] + s[k + 1..]
  {
    if s != [] && s[0] != x {
      EraseAtFirstIndex(s[1..], x);
      var k := FirstIndex(s[1..], x);
      if 0 <= k {
        DropAtCons(s, k);
      }
    }
  }

  /** Dropping index `k + 1` of `s` is keeping its head and dropping index `k` of its tail. */
  lemma DropAtCons(s: seq<string>, k: nat)
    requires k + 1 < |s|
    ensures s[..k + 1] + s[k + 2..] == [s[0]] + (s[1..][..k] + s[1..][k + 1..])
  {
    assert s[..k + 1] == [s[0]] + s[1..][..k];
    assert s[k + 2..] == s[1..][k + 1..];
  }

  /** Erasing an id that does not occur changes nothing. */
  lemma {:induction false} EraseMissing(s: seq<string>, x: string)
    requires x !in s
    ensures Erase(s, x) == s
  {
    if s != [] {
      EraseMissing(s[1..], x);
    }
  }

  /** The rest of a listing lists the other keys. */
  lemma ListingTail(order: seq<string>, keys: set<string>)
    requires order != [] && Lists(order, keys)
    ensures order[0] in keys && Lists(order[1..], keys - {order[0]})
  {
    var t := order[1..];
    forall id
      ensures id in t <==> id in keys - {order[0]}
    {
      if id in keys - {order[0]} {
        var j :| 0 <= j < |order| && order[j] == id;
        assert t[j - 1] == id;
      }
      if id in t {
        var j :| 0 <= j < |t| && t[j] == id;
        assert order[j + 1] == id;
      }
    }
  }

  /** Putting a key not yet listed in front extends the listing by that key. */
  lemma ListingCons(x: string, order: seq<string>, keys: set<string>)
    requires Lists(order, keys) && x !in keys
    ensures Lists([x] + order, keys + {x})
  {
    assert ([x] + order)[1..] == order;
    assert forall id :: id in [x] + order <==> id == x || id in order;
  }

  /** Removing an id from a listing of `keys` lists the other keys, in their order. */
  lemma {:induction false} EraseKeepsListing(order: seq<string>, keys: set<string>, x: string)
    requires Lists(order, keys)
    ensures Lists(Erase(order, x), keys - {x})
  {
    if order == [] {
      assert keys - {x} == {};
    } else {
      ListingTail(order, keys);
      var y := order[0];
      if y == x {
        assert Erase(order, x) == order[1..];
      } else {
        EraseKeepsListing(order[1..], keys - {y}, x);
        ListingCons(y, Erase(order[1..], x), keys - {y} - {x});
        assert keys - {y} - {x} + {y} == keys - {x};
      }
    }
  }

  /** Appending an id not yet listed extends the listing by that id. */
  lemma AppendKeepsListing(order: seq<string>, keys: set<string>, x: string)
    requires Lists(order, keys) && x !in keys
    ensures Lists(order + [x], keys + {x})
  {
    UniqueSnoc(order, x);
    assert forall id :: id in order + [x] <==> id in order || id == x;
  }

  /** A listing has one entry per key. */
  lemma {:induction false} ListingSize(order: seq<string>, keys: set<string>)
    requires Lists(order, keys)
    ensures |order| == |keys|
  {
    if order != [] {
      var x := order[0];
      assert Erase(order, x) == order[1..];
      EraseKeepsListing(order, keys, x);
      ListingSize(order[1..], keys - {x});
    } else {
      assert forall id :: id !in keys;
      assert keys == {};
    }
  }

  /** The per-model figures `calculateStats` adds up. */
  datatype Counts = Counts(meshes: nat, triangles: nat, vertices: nat)

  const NoCounts := Counts(0, 0, 0)

  function Plus(a: Counts, b: Counts): Counts {
    Counts(a.meshes + b.meshes, a.triangles + b.triangles, a.vertices + b.vertices)
  }

  /** `RenderStats`: the model count and the sums over all models. */
  datatype RenderStats = RenderStats(totalModels: nat, totalMeshes: nat, totalTriangles: nat,
                                     totalVertices: nat)

  /** The figures of one model: `getMeshCount`, `getTotalTriangleCount`,
      `getTotalVertexCount`. */
  function CountsOf(model: Model): Counts
    reads model, model.meshes
  {
    Counts(|model.meshes|, TotalTriangles(model.meshes), TotalVertices(model.meshes))
  }

  /** The figures of every registered model, by id. */
  ghost function Census(models: map<string, Model>): (c: map<string, Counts>)
    reads models.Values, set m, x | m in models.Values && x in m.meshes :: x
    ensures c.Keys == models.Keys
  {
    assert forall id, k :: id in models && 0 <= k < |models[id].meshes| ==>
      models[id].meshes[k] in models[id].meshes;
    map id | id in models :: CountsOf(models[id])
  }

  /** The figures of `id`; none for an id without an entry. */
  function CountsAt(c: map<string, Counts>, id: string): Counts {
    if id in c then c[id] else NoCounts
  }

  /** The sum of the figures of the ids in `order`. */
  function Tally(c: map<string, Counts>, order: seq<string>): Counts {
    if order == [] then NoCounts else Plus(CountsAt(c, order[0]), Tally(c, order[1..]))
  }

  /** The sum only looks at the entries of the ids it adds up. */
  lemma {:induction false} TallyFrame(c: map<string, Counts>, d: map<string, Counts>,
                                      order: seq<string>)
    requires forall k :: 0 <= k < |order| ==> CountsAt(c, order[k]) == CountsAt(d, order[k])
    ensures Tally(c, order) == Tally(d, order)
  {
    if order != [] {
      TallyFrame(c, d, order[1..]);
    }
  }

  /** Taking one id out of the sum subtracts exactly its figures. */
  lemma {:induction false} TallyErase(c: map<string, Counts>, order: seq<string>, x: string)
    requires x in order
    ensures Tally(c, order) == Plus(Tally(c, Erase(order, x)), CountsAt(c, x))
  {
    if order[0] != x {
      TallyErase(c, order[1..], x);
      TallyCons(c, order[0], Erase(order[1..], x));
    }
  }

  /** Adding one more id at the front of the sum. */
  lemma TallyCons(c: map<string, Counts>, x: string, order: seq<string>)
    ensures Tally(c, [x] + order) == Plus(CountsAt(c, x), Tally(c, order))
  {
    assert ([x] + order)[1..] == order;
  }

  /** The sum over a listing does not depend on the order of the listing: summing
      along the drawing order gives what summing over the map in any order gives. */
  lemma {:induction false} TallyOrderFree(c: map<string, Counts>, a: seq<string>,
                                          b: seq<string>, keys: set<string>)
    requires Lists(a, keys) && Lists(b, keys) && keys <= c.Keys
    ensures Tally(c, a) == Tally(c, b)
  {
    if a != [] {
      var x := a[0];
      assert Erase(a, x) == a[1..];
      EraseKeepsListing(a, keys, x);
      EraseKeepsListing(b, keys, x);
      TallyErase(c, b, x);
      TallyOrderFree(c, a[1..], Erase(b, x), keys - {x});
    } else {
      ListingSize(a, keys);
      ListingSize(b, keys);
    }
  }

  /** Registering a model under a new id adds exactly its figures to the totals. */
  lemma AddedModelAdds(c: map<string, Counts>, order: seq<string>, x: string, n: Counts)
    requires Lists(order, c.Keys) && x !in c
    ensures Tally(c[x := n], order + [x]) == Plus(Tally(c, order), n)
  {
    var c' := c[x := n];
    AppendKeepsListing(order, c.Keys, x);
    assert Lists([x] + order, c'.Keys) by {
      assert forall id :: id in [x] + order <==> id == x || id in order;
    }
    TallyOrderFree(c', order + [x], [x] + order, c'.Keys);
    assert ([x] + order)[1..] == order;
    TallyFrame(c, c', order);
  }

  /** Removing a registered id subtracts exactly its model's figures from the totals. */
  lemma RemovedModelSubtracts(c: map<string, Counts>, order: seq<string>, x: string)
    requires Lists(order, c.Keys) && x in c
    ensures Lists(Erase(order, x), (c - {x}).Keys)
    ensures Tally(c, order) == Plus(Tally(c - {x}, Erase(order, x)), c[x])
  {
    EraseKeepsListing(order, c.Keys, x);
    TallyErase(c, order, x);
    TallyFrame(c, c - {x}, Erase(order, x));
  }

  /** The program a pass binds. */
  function ProgramFor(transparent: bool): Program {
    if transparent then TransparentProgram else BasicProgram
  }

  /** The material uniforms a mesh is drawn with in a pass: in the opaque pass the
      albedo, in the transparent pass albedo, alpha, shininess and specular colour;
      the pass's defaults for a mesh without a material. */
  function ShadingFor(mesh: Mesh, transparent: bool): (s: Shading)
    reads mesh, mesh.material
    ensures s.Blended? <==> transparent
    ensures mesh.material != null ==> s.color == mesh.material.albedo
    ensures mesh.material == null ==> s == if transparent then GlassShading else Solid(OpaqueColor)
  {
    var mat := mesh.material;
    if mat == null then (if transparent then GlassShading else Solid(OpaqueColor))
    else if transparent then Blended(mat.albedo, mat.alpha, mat.shininess, mat.specular)
    else Solid(mat.albedo)
  }

  /** What a frame needs of a mesh: its vertex array, its index count, whether the
      transparent pass draws it, and the material uniforms it is drawn with there. */
  datatype Look = Look(vao: nat, count: nat, transparent: bool, shading: Shading)

  function LookOf(mesh: Mesh): (l: Look)
    reads mesh, mesh.material
    ensures l.transparent == mesh.IsTransparent() && l.shading.Blended? == l.transparent
  {
    var t := mesh.IsTransparent();
    Look(mesh.vao, |mesh.indices|, t, ShadingFor(mesh, t))
  }

  /** The looks of the meshes, in storage order. */
  ghost function Looks(meshes: seq<Mesh>): (r: seq<Look>)
    reads meshes, set m | m in meshes && m.material != null :: m.material
    ensures |r| == |meshes|
    ensures forall k :: 0 <= k < |meshes| ==> r[k] == LookOf(meshes[k])
  {
    if meshes == [] then []
    else Looks(meshes[..|meshes| - 1]) + [LookOf(meshes[|meshes| - 1])]
  }

  /** What a frame needs of a model: its placement matrix and the looks of its meshes. */
  datatype ModelView = ModelView(placement: Mat4, looks: seq<Look>)

  /** A model as a frame sees it. */
  ghost function ViewOf(model: Model): (v: ModelView)
    reads model, model.meshes, set m | m in model.meshes && m.material != null :: m.material
    ensures |v.looks| == |model.meshes|
  {
    ModelView(model.ModelMatrix(), Looks(model.meshes))
  }

  /** `scene` holds the views of the models of `order`, in that order. */
  ghost predicate Shows(models: map<string, Model>, order: seq<string>, scene: seq<ModelView>)
    reads models.Values, set m, x | m in models.Values && x in m.meshes :: x,
      set m, x | m in models.Values && x in m.meshes && x.material != null :: x.material
  {
    && (forall k :: 0 <= k < |order| ==> order[k] in models)
    && scene == SceneView(models, order)
  }

  /** The models of `order`, in that order, as a frame sees them. */
  ghost function SceneView(models: map<string, Model>, order: seq<string>): (r: seq<ModelView>)
    requires forall k :: 0 <= k < |order| ==> order[k] in models
    reads models.Values, set m, x | m in models.Values && x in m.meshes :: x,
      set m, x | m in models.Values && x in m.meshes && x.material != null :: x.material
    ensures |r| == |order|
  {
    if order == [] then []
    else
      var model := models[order[|order| - 1]];
      assert forall k :: 0 <= k < |model.meshes| ==> model.meshes[k] in model.meshes;
      SceneView(models, order[..|order| - 1])
      + [ViewOf(model)]
  }

  /** The draws one pass issues for a model's meshes: those whose transparency is the
      pass's, in storage order, each under the pass's program. */
  function PassDraws(looks: seq<Look>, transparent: bool, transform: Mat4, blend: bool,
                     depthWrite: bool): (r: seq<GlEvent>)
    ensures |r| <= |looks|
  {
    if looks == [] then []
    else
      PassDraws(looks[..|looks| - 1], transparent, transform, blend, depthWrite)
      + DrawOf(looks[|looks| - 1], transparent, transform, blend, depthWrite)
  }

  /** The draw a pass issues for one mesh: none when the mesh belongs to the other pass. */
  function DrawOf(l: Look, transparent: bool, transform: Mat4, blend: bool, depthWrite: bool)
    : seq<GlEvent>
  {
    if l.transparent == transparent
    then [Drawn(l.vao, l.count, ProgramFor(transparent), transform, l.shading, blend, depthWrite)]
    else []
  }

  /** The log after one more mesh of the loop over `looks`. */
  lemma PassStep(log: seq<GlEvent>, looks: seq<Look>, i: nat, transparent: bool, transform: Mat4,
                 blend: bool, depthWrite: bool)
    requires i < |looks|
    ensures log + PassDraws(looks[..i + 1], transparent, transform, blend, depthWrite)
            == log + PassDraws(looks[..i], transparent, transform, blend, depthWrite)
               + DrawOf(looks[i], transparent, transform, blend, depthWrite)
  {
    assert looks[..i + 1][..i] == looks[..i];
  }

  /** `e` is a draw under the program of the given pass and the given blend and depth-write
      state. */
  predicate DrawnUnder(e: GlEvent, transparent: bool, blend: bool, depthWrite: bool) {
    e.Drawn? && e.program == ProgramFor(transparent) && e.blend == blend
    && e.depthWrite == depthWrite
  }

  /** Every draw of a pass is under the pass's program, transform, blend and depth-write
      state. */
  lemma {:induction false} PassDrawsShape(looks: seq<Look>, transparent: bool, transform: Mat4,
                                          blend: bool, depthWrite: bool)
    ensures forall k :: 0 <= k < |PassDraws(looks, transparent, transform, blend, depthWrite)| ==>
      && DrawnUnder(PassDraws(looks, transparent, transform, blend, depthWrite)[k], transparent,
                    blend, depthWrite)
      && PassDraws(looks, transparent, transform, blend, depthWrite)[k].transform == transform
  {
    if looks != [] {
      var p := PassDraws(looks[..|looks| - 1], transparent, transform, blend, depthWrite);
      var d := DrawOf(looks[|looks| - 1], transparent, transform, blend, depthWrite);
      PassDrawsShape(looks[..|looks| - 1], transparent, transform, blend, depthWrite);
      forall k | 0 <= k < |p + d|
        ensures DrawnUnder((p + d)[k], transparent, blend, depthWrite)
        ensures (p + d)[k].transform == transform
      {
        if k < |p| {
          assert (p + d)[k] == p[k];
        } else {
          var l := looks[|looks| - 1];
          assert d == [Drawn(l.vao, l.count, ProgramFor(transparent), transform, l.shading, blend,
                             depthWrite)];
          assert (p + d)[k] == d[0];
        }
      }
    }
  }

  /** Every mesh is drawn by exactly one of the two passes. */
  lemma {:induction false} PassesPartition(looks: seq<Look>, transform: Mat4, blend: bool,
                                           depthWrite: bool, blend': bool, depthWrite': bool)
    ensures |PassDraws(looks, false, transform, blend, depthWrite)|
            + |PassDraws(looks, true, transform, blend', depthWrite')| == |looks|
  {
    if looks != [] {
      PassesPartition(looks[..|looks| - 1], transform, blend, depthWrite, blend', depthWrite');
    }
  }

  /** The draws one pass issues over the models, in drawing order, each under its
      model's placement matrix. */
  function ScenePass(scene: seq<ModelView>, transparent: bool, blend: bool, depthWrite: bool)
    : seq<GlEvent>
  {
    if scene == [] then []
    else
      var v := scene[|scene| - 1];
      ScenePass(scene[..|scene| - 1], transparent, blend, depthWrite)
      + PassDraws(v.looks, transparent, v.placement, blend, depthWrite)
  }

  /** Every draw of a pass over the models is under the pass's program, blend and
      depth-write state. */
  lemma {:induction false} ScenePassShape(scene: seq<ModelView>, transparent: bool, blend: bool,
                                          depthWrite: bool)
    ensures forall k :: 0 <= k < |ScenePass(scene, transparent, blend, depthWrite)| ==>
      DrawnUnder(ScenePass(scene, transparent, blend, depthWrite)[k], transparent, blend,
                 depthWrite)
  {
    if scene != [] {
      var v := scene[|scene| - 1];
      var p := ScenePass(scene[..|scene| - 1], transparent, blend, depthWrite);
      var d := PassDraws(v.looks, transparent, v.placement, blend, depthWrite);
      ScenePassShape(scene[..|scene| - 1], transparent, blend, depthWrite);
      PassDrawsShape(v.looks, transparent, v.placement, blend, depthWrite);
      forall k | 0 <= k < |p + d|
        ensures DrawnUnder((p + d)[k], transparent, blend, depthWrite)
      {
        if k < |p| {
          assert (p + d)[k] == p[k];
        } else {
          assert (p + d)[k] == d[k - |p|];
        }
      }
    }
  }

  /** The log after one more model of the loop over `scene`. */
  lemma ScenePassStep(log: seq<GlEvent>, scene: seq<ModelView>, i: nat, transparent: bool,
                      blend: bool, depthWrite: bool)
    requires i < |scene|
    ensures log + ScenePass(scene[..i + 1], transparent, blend, depthWrite)
            == log + ScenePass(scene[..i], transparent, blend, depthWrite)
               + PassDraws(scene[i].looks, transparent, scene[i].placement, blend, depthWrite)
  {
    assert scene[..i + 1][..i] == scene[..i];
  }

  /** The number of meshes of the models. */
  function MeshCount(scene: seq<ModelView>): nat {
    if scene == [] then 0 else MeshCount(scene[..|scene| - 1]) + |scene[|scene| - 1].looks|
  }

  /** Across the two passes every mesh of the scene is drawn exactly once. */
  lemma {:induction false} PassesDrawEveryMesh(scene: seq<ModelView>, blend: bool,
                                               depthWrite: bool, blend': bool, depthWrite': bool)
    ensures |ScenePass(scene, false, blend, depthWrite)| + |ScenePass(scene, true, blend', depthWrite')|
            == MeshCount(scene)
  {
    if scene != [] {
      var v := scene[|scene| - 1];
      PassesDrawEveryMesh(scene[..|scene| - 1], blend, depthWrite, blend', depthWrite');
      PassesPartition(v.looks, v.placement, blend, depthWrite, blend', depthWrite');
    }
  }

  /** The meshes a frame draws are the meshes `calculateStats` counts. */
  lemma {:induction false} SceneMeshCount(models: map<string, Model>, order: seq<string>)
    requires forall k :: 0 <= k < |order| ==> order[k] in models
    ensures MeshCount(SceneView(models, order)) == Tally(Census(models), order).meshes
  {
    if order != [] {
      var init := order[..|order| - 1];
      var x := order[|order| - 1];
      SceneMeshCount(models, init);
      TallySnoc(Census(models), init, x);
      assert init + [x] == order;
      var scene := SceneView(models, order);
      assert scene[..|scene| - 1] == SceneView(models, init);
    }
  }

  /** Adding one more id at the end of the sum. */
  lemma {:induction false} TallySnoc(c: map<string, Counts>, order: seq<string>, x: string)
    ensures Tally(c, order + [x]) == Plus(Tally(c, order), CountsAt(c, x))
  {
    if order == [] {
      assert ([x])[1..] == [];
    } else {
      assert (order + [x])[1..] == order[1..] + [x];
      TallySnoc(c, order[1..], x);
    }
  }

  /** The calls of one frame whose order matters: the render state, the clear (of the
      depth buffer too exactly when depth testing is on), the opaque pass under the
      blend and depth-write state found, blending on and depth writes off, the
      transparent pass, then depth writes and blending restored. */
  function FrameLog(settings: RenderSettings, scene: seq<ModelView>, blend: bool,
                    depthWrite: bool): seq<GlEvent>
  {
    [StateApplied(settings), Cleared(settings.clearColor, settings.enableDepthTest)]
    + ScenePass(scene, false, blend, depthWrite)
    + [BlendSet(true), DepthWriteSet(false)]
    + ScenePass(scene, true, true, false)
    + [DepthWriteSet(true), BlendSet(false)]
  }

  /** The frame's calls appended one after another to a log. */
  lemma FrameLogParts(log: seq<GlEvent>, settings: RenderSettings, scene: seq<ModelView>,
                      blend: bool, depthWrite: bool)
    ensures log + FrameLog(settings, scene, blend, depthWrite)
            == log + [StateApplied(settings)] + [Cleared(settings.clearColor, settings.enableDepthTest)]
               + ScenePass(scene, false, blend, depthWrite)
               + [BlendSet(true)] + [DepthWriteSet(false)]
               + ScenePass(scene, true, true, false)
               + [DepthWriteSet(true)] + [BlendSet(false)]
  {
    var a := ScenePass(scene, false, blend, depthWrite);
    var b := ScenePass(scene, true, true, false);
    var p := [StateApplied(settings), Cleared(settings.clearColor, settings.enableDepthTest)];
    var q := [BlendSet(true), DepthWriteSet(false)];
    var r := [DepthWriteSet(true), BlendSet(false)];
    AppendAssoc(log, p + a + q + b, r);
    AppendAssoc(log, p + a + q, b);
    AppendAssoc(log, p + a, q);
    AppendAssoc(log, p, a);
    assert log + p == log + [p[0]] + [p[1]];
    assert log + p + a + q == log + p + a + [q[0]] + [q[1]];
    assert log + p + a + q + b + r == log + p + a + q + b + [r[0]] + [r[1]];
  }

  /** In a frame every opaque-pass draw comes before every transparent-pass draw. */
  lemma OpaqueBeforeTransparent(settings: RenderSettings, scene: seq<ModelView>, blend: bool,
                                depthWrite: bool)
    ensures var f := FrameLog(settings, scene, blend, depthWrite);
      forall i, j :: 0 <= i < |f| && 0 <= j < |f| && f[i].Drawn? && f[j].Drawn?
        && f[i].program == BasicProgram && f[j].program == TransparentProgram
        ==> i < j
  {
    var a := ScenePass(scene, false, blend, depthWrite);
    var b := ScenePass(scene, true, true, false);
    ScenePassShape(scene, false, blend, depthWrite);
    ScenePassShape(scene, true, true, false);
    var f := FrameLog(settings, scene, blend, depthWrite);
    assert forall i :: 0 <= i < |f| ==>
      f[i] == if i < 2 then f[i]
              else if i < 2 + |a| then a[i - 2]
              else if i < 4 + |a| then f[i]
              else if i < 4 + |a| + |b| then b[i - 4 - |a|]
              else f[i];
    assert forall i :: 0 <= i < |f| && f[i].Drawn? && f[i].program == BasicProgram ==> 2 <= i < 2 + |a|;
  }

  /** Starting from the state a frame leaves behind (blending off, depth writes on),
      a draw has blending on exactly when it belongs to the transparent pass, and has
      depth writes on exactly when it belongs to the opaque pass; the clear covers the
      depth buffer exactly when depth testing is on. */
  lemma BlendingOnlyForTransparent(settings: RenderSettings, scene: seq<ModelView>)
    ensures var f := FrameLog(settings, scene, false, true);
      && (f[1].Cleared? && (f[1].depth <==> settings.enableDepthTest))
      && forall i :: 0 <= i < |f| && f[i].Drawn? ==>
        (f[i].blend <==> f[i].program == TransparentProgram)
        && (f[i].depthWrite <==> f[i].program == BasicProgram)
  {
    var a := ScenePass(scene, false, false, true);
    var b := ScenePass(scene, true, true, false);
    ScenePassShape(scene, false, false, true);
    ScenePassShape(scene, true, true, false);
    var f := FrameLog(settings, scene, false, true);
    assert forall i :: 0 <= i < |f| ==>
      f[i] == if i < 2 then f[i]
              else if i < 2 + |a| then a[i - 2]
              else if i < 4 + |a| then f[i]
              else if i < 4 + |a| + |b| then b[i - 4 - |a|]
              else f[i];
  }

  class Renderer {
    var models: map<string, Model>
    /** The drawing order. */
    var order: seq<string>
    var nextAutoId: nat
    var settings: RenderSettings

    /** The drawing order lists each registered id once. */
    ghost predicate Valid()
      reads this
    {
      Lists(order, models.Keys)
    }

    /** An empty scene with the default settings and the counter at 0. */
    constructor ()
      ensures Valid()
      ensures models == map[] && order == [] && nextAutoId == 0 && settings == DefaultSettings
    {
      models := map[];
      order := [];
      nextAutoId := 0;
      settings := DefaultSettings;
    }

    /** `addModel`: a null model is ignored; an empty id is replaced by the next
        automatic id; an id already registered has its model replaced and moves to
        the end of the drawing order. */
    method AddModel(model: Model?, id: string := "")
      requires Valid()
      modifies this`models, this`order, this`nextAutoId
      ensures Valid()
      ensures model == null ==>
        models == old(models) && order == old(order) && nextAutoId == old(nextAutoId)
      ensures model != null ==>
        (var newId := if id == "" then AutoId(old(nextAutoId)) else id;
         && nextAutoId == (if id == "" then old(nextAutoId) + 1 else old(nextAutoId))
         && models == old(models)[newId := model]
         && order == Erase(old(order), newId) + [newId])
    {
      if model == null {
        return;
      }
      var finalId := id;
      if finalId == "" {
        finalId := AutoId(nextAutoId);
        nextAutoId := nextAutoId + 1;
      }
      EraseKeepsListing(order, models.Keys, finalId);
      if finalId in models {
        order := Erase(order, finalId);
      } else {
        EraseMissing(order, finalId);
      }
      AppendKeepsListing(order, models.Keys - {finalId}, finalId);
      models := models[finalId := model];
      order := order + [finalId];
    }

    /** `removeModel`: reports whether the id was registered, and forgets it. */
    method RemoveModel(id: string) returns (removed: bool)
      requires Valid()
      modifies this`models, this`order
      ensures Valid()
      ensures removed <==> id in old(models)
      ensures models == old(models) - {id} && order == Erase(old(order), id)
    {
      if id in models {
        EraseKeepsListing(order, models.Keys, id);
        order := Erase(order, id);
        models := models - {id};
        return true;
      }
      assert models - {id} == models;
      EraseMissing(order, id);
      return false;
    }

    /** `getModel`: the model registered under `id`, or null. */
    method GetModel(id: string) returns (model: Model?)
      ensures model == null <==> id !in models
      ensures model != null ==> model == models[id]
    {
      if id in models {
        return models[id];
      }
      return null;
    }

    /** `clear`: no models, and the counter back at 0. */
    method Clear()
      modifies this`models, this`order, this`nextAutoId
      ensures Valid()
      ensures models == map[] && order == [] && nextAutoId == 0
    {
      models := map[];
      order := [];
      nextAutoId := 0;
    }

    /** `setRenderSettings`: stores the settings and applies them. */
    method SetRenderSettings(s: RenderSettings, gl: GlDevice)
      modifies this`settings, gl`log
      ensures settings == s && gl.log == old(gl.log) + [StateApplied(s)]
    {
      settings := s;
      gl.ApplySettings(settings);
    }

    /** `calculateStats`: the number of models and the sums of their figures. */
    method CalculateStats() returns (stats: RenderStats)
      requires Valid()
      ensures var t := Tally(Census(models), order);
        stats == RenderStats(|models|, t.meshes, t.triangles, t.vertices)
    {
      var total := SumFigures(models, order);
      stats := RenderStats(|models|, total.meshes, total.triangles, total.vertices);
    }

    /** `render`: applies the settings, clears, draws the opaque pass, turns blending
        on and depth writes off, draws the transparent pass, restores both, and unbinds
        the program. */
    method Render(gl: GlDevice)
      requires Valid()
      modifies gl`blend, gl`depthWrite, gl`program, gl`transform, gl`shading, gl`log
      ensures gl.log == old(gl.log) + FrameLog(settings, old(SceneView(models, order)),
                                                old(gl.blend), old(gl.depthWrite))
      ensures !gl.blend && gl.depthWrite && gl.program == NoProgram
    {
      DrawFrame(settings, models, order, gl, SceneView(models, order));
    }

  }

  /** The loop of `calculateStats`: the figures of the models in `order`, added up
      along the order. */
  method SumFigures(models: map<string, Model>, order: seq<string>) returns (total: Counts)
    requires forall k :: 0 <= k < |order| ==> order[k] in models
    ensures total == Tally(Census(models), order)
  {
    total := NoCounts;
    for i := 0 to |order|
      invariant total == Tally(Census(models), order[..i])
    {
      var f := Figures(models[order[i]]);
      CensusAt(models, order[i]);
      TallySnoc(Census(models), order[..i], order[i]);
      assert order[..i + 1] == order[..i] + [order[i]];
      total := Plus(total, f);
    }
    assert order[..|order|] == order;
  }

  /** The figures of one model, from its own counters. */
  method Figures(model: Model) returns (f: Counts)
    ensures f == CountsOf(model)
  {
    var triangles := model.GetTotalTriangleCount();
    var vertices := model.GetTotalVertexCount();
    f := Counts(|model.meshes|, triangles, vertices);
  }

  /** The census entry of a registered id is its model's figures. */
  lemma CensusAt(models: map<string, Model>, id: string)
    requires id in models
    ensures CountsAt(Census(models), id) == CountsOf(models[id])
  {
  }

  /** The calls of `render` for the models of `order`, whose views `scene` holds. */
  method DrawFrame(settings: RenderSettings, models: map<string, Model>, order: seq<string>,
                   gl: GlDevice, ghost scene: seq<ModelView>)
    requires Shows(models, order, scene)
    modifies gl`blend, gl`depthWrite, gl`program, gl`transform, gl`shading, gl`log
    ensures gl.log == old(gl.log) + FrameLog(settings, scene, old(gl.blend), old(gl.depthWrite))
    ensures !gl.blend && gl.depthWrite && gl.program == NoProgram
  {
    ghost var log0, blend0, depthWrite0 := gl.log, gl.blend, gl.depthWrite;
    OpaquePhase(settings, models, order, gl, scene);
    DrawPass(models, order, true, gl, scene);
    EndFrame(gl);
    FrameLogParts(log0, settings, scene, blend0, depthWrite0);
  }

  /** The frame up to the transparent pass: the state and the clear, the opaque pass, then
      blending on and depth writes off; the models are left as they were. */
  method OpaquePhase(settings: RenderSettings, models: map<string, Model>, order: seq<string>,
                     gl: GlDevice, ghost scene: seq<ModelView>)
    requires Shows(models, order, scene)
    modifies gl`blend, gl`depthWrite, gl`program, gl`transform, gl`shading, gl`log
    ensures gl.log == old(gl.log) + [StateApplied(settings)]
                      + [Cleared(settings.clearColor, settings.enableDepthTest)]
                      + ScenePass(scene, false, old(gl.blend), old(gl.depthWrite))
                      + [BlendSet(true)] + [DepthWriteSet(false)]
    ensures gl.blend && !gl.depthWrite
    ensures Shows(models, order, scene)
  {
    BeginFrame(settings, gl, models, order, scene);
    DrawPass(models, order, false, gl, scene);
    BeginTransparentPass(gl, models, order, scene);
  }

  /** After the transparent pass: depth writes and blending restored, no program bound. */
  method EndFrame(gl: GlDevice)
    modifies gl`blend, gl`depthWrite, gl`program, gl`log
    ensures gl.log == old(gl.log) + [DepthWriteSet(true)] + [BlendSet(false)]
    ensures !gl.blend && gl.depthWrite && gl.program == NoProgram
  {
    gl.SetDepthWrite(true);
    gl.SetBlend(false);
    gl.UseProgram(NoProgram);
  }

  /** `setupRenderState` then `clearBuffers`; the models are left as they were. */
  method BeginFrame(settings: RenderSettings, gl: GlDevice, models: map<string, Model>,
                    order: seq<string>, ghost scene: seq<ModelView>)
    requires Shows(models, order, scene)
    modifies gl`log
    ensures gl.blend == old(gl.blend) && gl.depthWrite == old(gl.depthWrite)
    ensures gl.log == old(gl.log) + [StateApplied(settings)]
                      + [Cleared(settings.clearColor, settings.enableDepthTest)]
    ensures Shows(models, order, scene)
  {
    gl.ApplySettings(settings);
    gl.Clear(settings.clearColor, settings.enableDepthTest);
  }

  /** Between the passes: blending on and depth writes off; the models are left as they
      were. */
  method BeginTransparentPass(gl: GlDevice, models: map<string, Model>, order: seq<string>,
                              ghost scene: seq<ModelView>)
    requires Shows(models, order, scene)
    modifies gl`blend, gl`depthWrite, gl`log
    ensures gl.blend && !gl.depthWrite
    ensures gl.log == old(gl.log) + [BlendSet(true)] + [DepthWriteSet(false)]
    ensures Shows(models, order, scene)
  {
    gl.SetBlend(true);
    gl.SetDepthWrite(false);
  }

  /** One pass over the models of `order`, in that order. */
  method DrawPass(models: map<string, Model>, order: seq<string>, transparent: bool, gl: GlDevice,
                  ghost scene: seq<ModelView>)
    requires Shows(models, order, scene)
    modifies gl`program, gl`transform, gl`shading, gl`log
    ensures gl.blend == old(gl.blend) && gl.depthWrite == old(gl.depthWrite)
    ensures gl.log == old(gl.log) + ScenePass(scene, transparent, gl.blend, gl.depthWrite)
    ensures Shows(models, order, scene)
  {
    ghost var start := gl.log;
    for i := 0 to |order|
      invariant gl.log == start + ScenePass(scene[..i], transparent, gl.blend, gl.depthWrite)
      invariant Shows(models, order, scene)
    {
      DrawEntry(models, order, i, transparent, gl, scene, start);
    }
    assert scene[..|order|] == scene;
  }

  /** The pass's turn for the `i`-th model of `order`: the log grows from the first `i`
      models' draws to the first `i + 1` models' draws; the models are left as they were. */
  method DrawEntry(models: map<string, Model>, order: seq<string>, i: nat, transparent: bool,
                   gl: GlDevice, ghost scene: seq<ModelView>, ghost start: seq<GlEvent>)
    requires i < |order| && Shows(models, order, scene)
    requires gl.log == start + ScenePass(scene[..i], transparent, gl.blend, gl.depthWrite)
    modifies gl`program, gl`transform, gl`shading, gl`log
    ensures gl.log == start + ScenePass(scene[..i + 1], transparent, gl.blend, gl.depthWrite)
    ensures Shows(models, order, scene)
  {
    SceneViewAt(models, order, i);
    ScenePassStep(start, scene, i, transparent, gl.blend, gl.depthWrite);
    DrawModel(models[order[i]], transparent, gl, scene[i]);
  }

  /** The view of the `k`-th model of the order. */
  lemma {:induction false} SceneViewAt(models: map<string, Model>, order: seq<string>, k: nat)
    requires forall j :: 0 <= j < |order| ==> order[j] in models
    requires k < |order|
    ensures SceneView(models, order)[k] == ViewOf(models[order[k]])
  {
    if k < |order| - 1 {
      SceneViewAt(models, order[..|order| - 1], k);
    }
  }

  /** `renderModelOpaque` / `renderModelTransparent`: binds the pass's program, sets the
      model's placement matrix, and draws the meshes whose transparency is the pass's,
      each with its material's uniforms or the pass's defaults. */
  method DrawModel(model: Model, transparent: bool, gl: GlDevice, ghost view: ModelView)
    requires view == ViewOf(model)
    modifies gl`program, gl`transform, gl`shading, gl`log
    ensures gl.log == old(gl.log) + PassDraws(view.looks, transparent, view.placement, gl.blend,
                                              gl.depthWrite)
  {
    BindModel(gl, transparent, model.ModelMatrix());
    DrawMeshes(model.meshes, transparent, gl, view.looks);
  }

  /** The start of a model's turn: the pass's program, the model's matrix and the pass's
      default uniforms. */
  method BindModel(gl: GlDevice, transparent: bool, placement: Mat4)
    modifies gl`program, gl`transform, gl`shading
    ensures gl.program == ProgramFor(transparent) && gl.transform == placement
    ensures gl.shading == if transparent then GlassShading else Solid(OpaqueColor)
  {
    gl.UseProgram(ProgramFor(transparent));
    gl.SetTransform(placement);
    gl.SetShading(if transparent then GlassShading else Solid(OpaqueColor));
  }

  /** One iteration of the mesh loop: a mesh of the pass's kind is drawn with its material's
      uniforms, or with the pass's defaults when it has no material; a mesh of the other kind
      is skipped. */
  method DrawMesh(mesh: Mesh, transparent: bool, gl: GlDevice, ghost look: Look)
    requires look == LookOf(mesh)
    requires gl.program == ProgramFor(transparent)
    modifies gl`shading, gl`log
    ensures gl.log == old(gl.log) + DrawOf(look, transparent, gl.transform, gl.blend,
                                           gl.depthWrite)
  {
    if mesh.IsTransparent() == transparent {
      if mesh.material != null {
        var mat := mesh.material;
        if transparent {
          gl.SetShading(Blended(mat.albedo, mat.alpha, mat.shininess, mat.specular));
        } else {
          gl.SetShading(Solid(mat.albedo));
        }
      } else {
        gl.SetShading(if transparent then GlassShading else Solid(OpaqueColor));
      }
      mesh.Draw(gl);
    }
  }

  /** The mesh loop of a pass. */
  method DrawMeshes(meshes: seq<Mesh>, transparent: bool, gl: GlDevice, ghost looks: seq<Look>)
    requires looks == Looks(meshes)
    requires gl.program == ProgramFor(transparent)
    modifies gl`shading, gl`log
    ensures gl.log == old(gl.log) + PassDraws(looks, transparent, gl.transform, gl.blend,
                                              gl.depthWrite)
  {
    for i := 0 to |meshes|
      invariant gl.log == old(gl.log) + PassDraws(looks[..i], transparent, gl.transform,
                                                  gl.blend, gl.depthWrite)
    {
      PassStep(old(gl.log), looks, i, transparent, gl.transform, gl.blend, gl.depthWrite);
      DrawMesh(meshes[i], transparent, gl, looks[i]);
    }
    assert looks[..|meshes|] == looks;
  }
}
