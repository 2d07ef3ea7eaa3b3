/** A model (Model.h / Model.cpp): an ordered list of meshes with a parent table
    forming a forest, one placement (position, rotation in radians, scale) for the
    whole model, and a lazily recomputed placement matrix. */
module Models {
  import opened Geometry
  import opened Gl
  import opened Meshes
  import opened ParentForest

  /** The `mutable` matrix cache of a model: the last placement matrix computed and
      whether it is out of date. Kept as its own object so that the logically
      constant getter modifies the cache and nothing else. */
  class MatrixCache {
    var matrix: Mat4
    var dirty: bool

    constructor ()
      ensures matrix == Identity && dirty
    {
      matrix := Identity;
      dirty := true;
    }
  }

  /** Position of the first occurrence of `x` in `s`, or -1 (`indexOf`). */
  function FirstIndex<T(==)>(s: seq<T>, x: T): (r: int)
    ensures -1 <= r < |s|
    ensures r == -1 <==> x !in s
    ensures r >= 0 ==> s[r] == x && forall k :: 0 <= k < r ==> s[k] != x
  {
    if s == [] then -1
    else if s[0] == x then 0
    else
      var r := FirstIndex(s[1..], x);
      if r == -1 then -1 else r + 1
  }

  /** Position of the first mesh called `name`, or -1. */
  function FirstNamed(meshes: seq<Mesh>, name: string): (r: int)
    reads meshes
    ensures -1 <= r < |meshes|
    ensures r == -1 <==> forall k :: 0 <= k < |meshes| ==> meshes[k].name != name
    ensures r >= 0 ==> meshes[r].name == name && forall k :: 0 <= k < r ==> meshes[k].name != name
  {
    if meshes == [] then -1
    else if meshes[0].name == name then 0
    else
      var r := FirstNamed(meshes[1..], name);
      if r == -1 then -1 else r + 1
  }

  /** Sum of the triangle counts of the meshes. */
  function TotalTriangles(meshes: seq<Mesh>): nat
    reads meshes
  {
    if meshes == [] then 0
    else TotalTriangles(meshes[..|meshes| - 1]) + meshes[|meshes| - 1].TriangleCount()
  }

  /** Sum of the vertex counts of the meshes. */
  function TotalVertices(meshes: seq<Mesh>): nat
    reads meshes
  {
    if meshes == [] then 0
    else TotalVertices(meshes[..|meshes| - 1]) + |meshes[|meshes| - 1].vertices|
  }

  /** The totals of a list joined from two parts are the sums of the parts' totals. */
  lemma {:induction false} TotalsAdditive(a: seq<Mesh>, b: seq<Mesh>)
    ensures TotalTriangles(a + b) == TotalTriangles(a) + TotalTriangles(b)
    ensures TotalVertices(a + b) == TotalVertices(a) + TotalVertices(b)
    decreases |b|
  {
    if b != [] {
      var b' := b[..|b| - 1];
      assert (a + b)[..|a + b| - 1] == a + b';
      TotalsAdditive(a, b');
    } else {
      assert a + b == a;
    }
  }

  /** The draws of the meshes in order, each issued under the given program state. */
  function DrawsOf(meshes: seq<Mesh>, program: Program, transform: Mat4, shading: Shading,
                   blend: bool, depthWrite: bool): (r: seq<GlEvent>)
    reads meshes
    ensures |r| == |meshes|
    ensures forall k :: 0 <= k < |meshes| ==>
      r[k] == Drawn(meshes[k].vao, |meshes[k].indices|, program, transform, shading, blend, depthWrite)
  {
    if meshes == [] then []
    else DrawsOf(meshes[..|meshes| - 1], program, transform, shading, blend, depthWrite)
         + [Drawn(meshes[|meshes| - 1].vao, |meshes[|meshes| - 1].indices|, program, transform,
                  shading, blend, depthWrite)]
  }

  class Model {
    var meshes: seq<Mesh>
    /** `parents[i]`: index of the parent of `meshes[i]`, or -1. */
    var parents: seq<int>
    var name: string
    var position: Vec3
    var rotation: Vec3
    var scale: Vec3
    const cache: MatrixCache

    /** One parent entry per mesh, and the entries form a forest. */
    ghost predicate Structured()
      reads this
    {
      |parents| == |meshes| && Forest(parents)
    }

    /** Structured, and the cached matrix is the placement whenever it is marked current. */
    ghost predicate Valid()
      reads this, cache
    {
      Structured() && (!cache.dirty ==> cache.matrix == ModelMatrix())
    }

    /** The placement matrix T(position) * Rx * Ry * Rz * S(scale). */
    function ModelMatrix(): Mat4
      reads this
    {
      Placement(position, rotation, scale)
    }

    /** Product of the local transforms along `chain` (a leaf-to-root list of mesh
        indices), the root's first: ancestors apply before descendants. */
    ghost function ChainProduct(chain: seq<int>): Mat4
      reads this, meshes
      requires forall k :: 0 <= k < |chain| ==> 0 <= chain[k] < |meshes|
    {
      if chain == [] then Identity
      else Mul(ChainProduct(chain[1..]), meshes[chain[0]].localTransform)
    }

    /** The world matrix of `mesh`: the placement times the local transforms from the
        root down to the mesh; the placement alone for a mesh the model does not hold. */
    ghost function WorldMatrix(mesh: Mesh?): Mat4
      reads this, meshes
      requires Structured()
    {
      var i := FirstIndex(meshes, mesh);
      if i < 0 then ModelMatrix()
      else Mul(ModelMatrix(), ChainProduct(ChainToRoot(parents, i)))
    }

    constructor (name: string := "")
      ensures Valid() && fresh(cache)
      ensures meshes == [] && parents == [] && this.name == name
      ensures position == Zero3 && rotation == Zero3 && scale == One3
      ensures cache.dirty
    {
      meshes := [];
      parents := [];
      this.name := name;
      position := Zero3;
      rotation := Zero3;
      scale := One3;
      cache := new MatrixCache();
    }

    /** Appends a mesh as a new root; a null mesh is ignored. */
    method AddMesh(mesh: Mesh?)
      requires Valid()
      modifies this`meshes, this`parents
      ensures Valid()
      ensures mesh == null ==> meshes == old(meshes) && parents == old(parents)
      ensures mesh != null ==> meshes == old(meshes) + [mesh] && parents == old(parents) + [-1]
    {
      if mesh != null {
        AppendRootKeepsForest(parents);
        meshes := meshes + [mesh];
        parents := parents + [-1];
      }
    }

    /** Draws every mesh in order under the current program state. */
    method Draw(gl: GlDevice)
      modifies gl`log
      ensures gl.log == old(gl.log) + DrawsOf(meshes, gl.program, gl.transform, gl.shading,
                                              gl.blend, gl.depthWrite)
    {
      ghost var draws := DrawsOf(meshes, gl.program, gl.transform, gl.shading, gl.blend,
                                 gl.depthWrite);
      var i := 0;
      while i < |meshes|
        invariant 0 <= i <= |meshes|
        invariant gl.log == old(gl.log) + draws[..i]
      {
        assert draws[..i + 1] == draws[..i] + [draws[i]];
        meshes[i].Draw(gl);
        i := i + 1;
      }
      assert draws[..i] == draws;
    }

    /** Changes the position, marking the cached matrix stale only if it changed. */
    method SetPosition(p: Vec3)
      requires Valid()
      modifies this`position, cache`dirty
      ensures Valid() && position == p
      ensures cache.dirty == (old(cache.dirty) || old(position) != p)
    {
      if position != p {
        position := p;
        cache.dirty := true;
      }
    }

    /** Changes the rotation, marking the cached matrix stale only if it changed. */
    method SetRotation(r: Vec3)
      requires Valid()
      modifies this`rotation, cache`dirty
      ensures Valid() && rotation == r
      ensures cache.dirty == (old(cache.dirty) || old(rotation) != r)
    {
      if rotation != r {
        rotation := r;
        cache.dirty := true;
      }
    }

    /** Changes the scale, marking the cached matrix stale only if it changed. */
    method SetScale(s: Vec3)
      requires Valid()
      modifies this`scale, cache`dirty
      ensures Valid() && scale == s
      ensures cache.dirty == (old(cache.dirty) || old(scale) != s)
    {
      if scale != s {
        scale := s;
        cache.dirty := true;
      }
    }

    /** The placement matrix, recomputed only when the cache is stale. */
    method GetModelMatrix() returns (m: Mat4)
      requires Valid()
      modifies cache
      ensures Valid() && !cache.dirty
      ensures m == ModelMatrix()
    {
      if cache.dirty {
        var acc := Identity;
        acc := Mul(acc, [Translate(position)]);
        if rotation.x != 0.0 {
          acc := Mul(acc, [RotateX(rotation.x)]);
        }
        if rotation.y != 0.0 {
          acc := Mul(acc, [RotateY(rotation.y)]);
        }
        if rotation.z != 0.0 {
          acc := Mul(acc, [RotateZ(rotation.z)]);
        }
        acc := Mul(acc, [ScaleBy(scale)]);
        cache.matrix := acc;
        cache.dirty := false;
      }
      m := cache.matrix;
    }

    /** `indexOf`: position of the first slot holding `mesh`, or -1. */
    method IndexOf(mesh: Mesh?) returns (idx: int)
      ensures idx == FirstIndex(meshes, mesh)
    {
      var i := 0;
      while i < |meshes|
        invariant 0 <= i <= |meshes|
        invariant forall k :: 0 <= k < i ==> meshes[k] != mesh
      {
        if meshes[i] == mesh {
          return i;
        }
        i := i + 1;
      }
      return -1;
    }

    /** The first mesh with the given name, or null. */
    method FindMeshByName(name: string) returns (mesh: Mesh?)
      ensures var i := FirstNamed(meshes, name); if i < 0 then mesh == null else mesh == meshes[i]
    {
      var i := 0;
      while i < |meshes|
        invariant 0 <= i <= |meshes|
        invariant forall k :: 0 <= k < i ==> meshes[k].name != name
      {
        if meshes[i].name == name {
          return meshes[i];
        }
        i := i + 1;
      }
      return null;
    }

    /** Makes `parent` the parent of `child` (a root when `parent` is null). Refused,
        changing nothing, when the child is not in the model, when a non-null parent is
        not in the model, or when the parent is the child or one of its descendants. */
    method SetParent(child: Mesh?, parent: Mesh?) returns (ok: bool)
      requires Valid()
      modifies this`parents
      ensures Valid()
      ensures var c := FirstIndex(meshes, child);
              var q := if parent == null then -1 else FirstIndex(meshes, parent);
              && (ok <==> child != null && c >= 0
                          && (parent != null ==> q >= 0 && !IsAncestorOrSelf(old(parents), c, q)))
              && (ok ==> parents == old(parents)[c := q])
              && (!ok ==> parents == old(parents))
    {
      if child == null {
        return false;
      }
      var cIdx := IndexOf(child);
      if cIdx < 0 {
        return false;
      }
      var pIdx := -1;
      if parent != null {
        pIdx := IndexOf(parent);
        if pIdx < 0 {
          return false;
        }
        assert Rooted(parents, pIdx);
        ghost var n: nat :| RootedWithin(parents, pIdx, n);
        ghost var left: nat := n;
        var cursor := pIdx;
        while cursor != -1
          invariant -1 <= cursor < |parents|
          invariant RootedWithin(parents, cursor, left)
          invariant OnChainWithin(parents, cIdx, pIdx, n) == OnChainWithin(parents, cIdx, cursor, left)
          decreases left
        {
          if cursor == cIdx {
            return false;
          }
          cursor := parents[cursor];
          left := left - 1;
        }
        assert !IsAncestorOrSelf(parents, cIdx, pIdx) by {
          if IsAncestorOrSelf(parents, cIdx, pIdx) {
            var m: nat :| OnChainWithin(parents, cIdx, pIdx, m);
            OnChainBounded(parents, cIdx, pIdx, n, m);
          }
        }
      }
      ReparentKeepsForest(parents, cIdx, pIdx);
      parents := parents[cIdx := pIdx];
      return true;
    }

    /** `setParent` on the first meshes carrying the two names. */
    method SetParentByName(childName: string, parentName: string) returns (ok: bool)
      requires Valid()
      modifies this`parents
      ensures Valid()
      ensures var c := FirstNamed(meshes, childName);
              var q := FirstNamed(meshes, parentName);
              && (ok <==> c >= 0 && (q >= 0 ==> !IsAncestorOrSelf(old(parents), c, q)))
              && (ok ==> parents == old(parents)[c := q])
              && (!ok ==> parents == old(parents))
    {
      var child := FindMeshByName(childName);
      var parent := FindMeshByName(parentName);
      assert child != null ==> FirstIndex(meshes, child) == FirstNamed(meshes, childName);
      assert parent != null ==> FirstIndex(meshes, parent) == FirstNamed(meshes, parentName);
      ok := SetParent(child, parent);
    }

    /** The indices visited walking from mesh `meshIndex` up to its root. */
    method CollectChain(meshIndex: int) returns (chain: seq<int>)
      requires Structured() && 0 <= meshIndex < |meshes|
      ensures chain == ChainToRoot(parents, meshIndex)
    {
      assert Rooted(parents, meshIndex);
      ghost var n: nat :| RootedWithin(parents, meshIndex, n);
      chain := [];
      var idx := meshIndex;
      while idx != -1
        invariant -1 <= idx < |parents|
        invariant |chain| <= n && RootedWithin(parents, idx, n - |chain|)
        invariant chain + ChainWithin(parents, idx, n - |chain|) == ChainWithin(parents, meshIndex, n)
        decreases n - |chain|
      {
        ghost var f := n - |chain|;
        assert ChainWithin(parents, idx, f) == [idx] + ChainWithin(parents, parents[idx], f - 1);
        chain := chain + [idx];
        idx := if 0 <= idx < |parents| then parents[idx] else -1;
      }
      ChainToRootIs(parents, meshIndex, n);
    }

    /** The product of the local transforms from the root down to mesh `meshIndex`. */
    method AccumulateLocalUpToRoot(meshIndex: int) returns (acc: Mat4)
      requires Valid() && 0 <= meshIndex < |meshes|
      ensures acc == ChainProduct(ChainToRoot(parents, meshIndex))
    {
      var chain := CollectChain(meshIndex);
      acc := Identity;
      var i := |chain| - 1;
      while i >= 0
        invariant -1 <= i < |chain|
        invariant acc == ChainProduct(chain[i + 1..])
      {
        assert chain[i..][1..] == chain[i + 1..];
        acc := Mul(acc, meshes[chain[i]].localTransform);
        i := i - 1;
      }
      assert chain[0..] == chain;
    }

    /** The placement for a mesh the model does not hold, otherwise the placement times
        the accumulated local transforms. */
    method GetWorldMatrixForMesh(mesh: Mesh?) returns (w: Mat4)
      requires Valid()
      modifies cache
      ensures Valid()
      ensures w == WorldMatrix(mesh)
    {
      if mesh == null {
        w := GetModelMatrix();
        return;
      }
      var idx := IndexOf(mesh);
      if idx < 0 {
        w := GetModelMatrix();
        return;
      }
      var m := GetModelMatrix();
      var local := AccumulateLocalUpToRoot(idx);
      w := Mul(m, local);
    }

    method GetTotalTriangleCount() returns (total: nat)
      ensures total == TotalTriangles(meshes)
    {
      total := 0;
      var i := 0;
      while i < |meshes|
        invariant 0 <= i <= |meshes|
        invariant total == TotalTriangles(meshes[..i])
      {
        assert meshes[..i + 1][..i] == meshes[..i];
        total := total + meshes[i].TriangleCount();
        i := i + 1;
      }
      assert meshes[..i] == meshes;
    }

    method GetTotalVertexCount() returns (total: nat)
      ensures total == TotalVertices(meshes)
    {
      total := 0;
      var i := 0;
      while i < |meshes|
        invariant 0 <= i <= |meshes|
        invariant total == TotalVertices(meshes[..i])
      {
        assert meshes[..i + 1][..i] == meshes[..i];
        total := total + |meshes[i].vertices|;
        i := i + 1;
      }
      assert meshes[..i] == meshes;
    }
  }

  /** A mesh with no parent is placed by the model's placement and its own local
      transform. */
  lemma UnparentedWorldMatrix(model: Model, i: int)
    requires model.Structured() && 0 <= i < |model.meshes| && model.parents[i] == -1
    requires FirstIndex<Mesh?>(model.meshes, model.meshes[i]) == i
    ensures model.WorldMatrix(model.meshes[i])
            == Mul(model.ModelMatrix(), model.meshes[i].localTransform)
  {
    RootChainProduct(model, i);
  }

  /** A root's chain is the root alone, so its product is the root's local transform. */
  lemma {:induction false} RootChainProduct(model: Model, i: int)
    requires model.Structured() && 0 <= i < |model.meshes| && model.parents[i] == -1
    ensures model.ChainProduct(ChainToRoot(model.parents, i)) == model.meshes[i].localTransform
  {
    ChainToRootStep(model.parents, i);
    assert [i][1..] == [];
    assert Mul(Identity, model.meshes[i].localTransform) == model.meshes[i].localTransform;
  }

  /** For a grandchild g of c of root r, the world matrix is
      placement * local(r) * local(c) * local(g). */
  lemma {:induction false} GrandchildWorldMatrix(model: Model, g: int, c: int, r: int)
    requires model.Structured()
    requires 0 <= g < |model.meshes| && 0 <= c < |model.meshes| && 0 <= r < |model.meshes|
    requires model.parents[g] == c && model.parents[c] == r && model.parents[r] == -1
    requires FirstIndex<Mesh?>(model.meshes, model.meshes[g]) == g
    ensures model.WorldMatrix(model.meshes[g])
            == Mul(Mul(Mul(model.ModelMatrix(), model.meshes[r].localTransform),
                       model.meshes[c].localTransform),
                   model.meshes[g].localTransform)
  {
    GrandchildChain(model.parents, g, c, r);
    ThreeChainProduct(model, g, c, r);
  }

  lemma {:induction false} ThreeChainProduct(model: Model, g: int, c: int, r: int)
    requires 0 <= g < |model.meshes| && 0 <= c < |model.meshes| && 0 <= r < |model.meshes|
    ensures model.ChainProduct([g, c, r])
            == Mul(Mul(model.meshes[r].localTransform, model.meshes[c].localTransform),
                   model.meshes[g].localTransform)
  {
    var ms := model.meshes;
    assert [g, c, r][1..] == [c, r];
    assert [c, r][1..] == [r];
    assert [r][1..] == [];
    assert model.ChainProduct([r]) == ms[r].localTransform by {
      assert model.ChainProduct([r]) == Mul(Identity, ms[r].localTransform);
      assert Identity + ms[r].localTransform == ms[r].localTransform;
    }
    assert model.ChainProduct([c, r]) == Mul(ms[r].localTransform, ms[c].localTransform);
  }
}
