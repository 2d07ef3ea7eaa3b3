/** The OBJ loader (ModelLoader.h / ModelLoader.cpp) as the program runs it: a
    `ParseData` filled line by line, meshes handed to the model at each object line
    and at the end. Every handler is proved to do what the directive fold of
    `ObjParse` says, so the properties proved there hold of the loaded model. */
module Loader {
  import opened Wrappers
  import opened Text
  import opened Geometry
  import opened Gl
  import opened Materials
  import opened Meshes
  import opened Models
  import opened ObjSyntax
  import opened Mtl
  import opened ObjParse

  /** `LoadStats` without the load time. */
  datatype LoadStats = LoadStats(totalVertices: nat, totalTriangles: nat, totalMeshes: nat)

  /** The loader's working state while one file is read. */
  class ParseData {
    var positions: seq<Vec3>
    var normals: seq<Normal>
    var texCoords: seq<Vec2>
    var currentVertices: seq<Vertex>
    var currentIndices: seq<nat>
    var currentObjectName: string
    var vertexMap: map<FaceIndex, nat>
    var materials: map<string, Material>
    var currentMaterial: Material?

    /** Everything but the materials, as a value. */
    function State(): ParseState
      reads this`positions, this`normals, this`texCoords, this`currentVertices
      reads this`currentIndices, this`currentObjectName, this`vertexMap
    {
      ParseState(positions, normals, texCoords, currentVertices, currentIndices,
                 currentObjectName, vertexMap)
    }

    constructor ()
      ensures State() == EmptyState && materials == map[] && currentMaterial == null
    {
      positions := [];
      normals := [];
      texCoords := [];
      currentVertices := [];
      currentIndices := [];
      currentObjectName := "";
      vertexMap := map[];
      materials := map[];
      currentMaterial := null;
    }
  }

  /** A material's state, or None for no material. */
  function MaterialValue(m: Material?): Option<MaterialData>
    reads m
  {
    if m == null then None else Some(m.Data())
  }

  /** What one mesh holds, as a value. */
  function DataOfMesh(m: Mesh): MeshData
    reads m, m.material
  {
    MeshData(m.vertices, m.indices, m.name, MaterialValue(m.material))
  }

  /** What a model's meshes hold, as values. */
  function MeshesData(ms: seq<Mesh>): (r: seq<MeshData>)
    reads set m | m in ms
    reads set m | m in ms :: m.material
    ensures |r| == |ms|
  {
    if ms == [] then [] else MeshesData(ms[..|ms| - 1]) + [DataOfMesh(ms[|ms| - 1])]
  }

  /** Entry k of `MeshesData` is mesh k's data. */
  lemma {:induction false} MeshesDataAt(ms: seq<Mesh>, k: nat)
    requires k < |ms|
    ensures MeshesData(ms)[k] == DataOfMesh(ms[k])
    decreases |ms|
  {
    if k < |ms| - 1 {
      MeshesDataAt(ms[..|ms| - 1], k);
    }
  }

  /** One more mesh adds its data at the end. */
  lemma MeshesDataSnoc(ms: seq<Mesh>, m: Mesh)
    ensures MeshesData(ms + [m]) == MeshesData(ms) + [DataOfMesh(m)]
  {
    assert (ms + [m])[..|ms|] == ms;
  }

  /** The loader state together with the meshes already in the model. */
  function Snapshot(data: ParseData, model: Model): ObjState
    reads data, data.materials.Values, data.currentMaterial
    reads model`meshes, (set m | m in model.meshes), (set m | m in model.meshes :: m.material)
  {
    ObjState(data.State(), MeshesData(model.meshes), DataOf(data.materials),
             MaterialValue(data.currentMaterial))
  }

  /** The loader state alone, with no finished meshes. */
  function Local(data: ParseData): ObjState
    reads data, data.materials.Values, data.currentMaterial
  {
    ObjState(data.State(), [], DataOf(data.materials), MaterialValue(data.currentMaterial))
  }

  /** `getOrCreateVertex`: the vertex already made for this reference, or a new one
      built from the pools and appended. */
  method GetOrCreateVertex(f: FaceIndex, data: ParseData) returns (idx: nat)
    modifies data`currentVertices, data`vertexMap
    ensures (data.State(), idx) == GetOrCreate(old(data.State()), f)
  {
    if f in data.vertexMap {
      return data.vertexMap[f];
    }
    var vertex := DefaultVertex;
    if 0 <= f.position < |data.positions| {
      vertex := vertex.(position := data.positions[f.position]);
    }
    if 0 <= f.texCoord < |data.texCoords| {
      vertex := vertex.(texCoords := data.texCoords[f.texCoord]);
    }
    if 0 <= f.normal < |data.normals| {
      vertex := vertex.(normal := data.normals[f.normal]);
    }
    idx := |data.currentVertices|;
    data.currentVertices := data.currentVertices + [vertex];
    data.vertexMap := data.vertexMap[f := idx];
  }

  /** One corner: `currentIndices.push_back(getOrCreateVertex(f, data))`. */
  method PushCorner(f: FaceIndex, data: ParseData)
    modifies data`currentVertices, data`vertexMap, data`currentIndices
    ensures data.State() == AddCorner(old(data.State()), f)
  {
    var idx := GetOrCreateVertex(f, data);
    data.currentIndices := data.currentIndices + [idx];
  }

  /** The next fan triangle is three more corners. */
  lemma FanStep<T>(ids: seq<T>, n: nat)
    requires 2 <= n < |ids|
    ensures FanUpTo(ids, n + 1) == FanUpTo(ids, n) + [ids[0]] + [ids[n - 1]] + [ids[n]]
  {
    var fan := FanUpTo(ids, n);
    assert FanUpTo(ids, n + 1) == fan + [ids[0], ids[n - 1], ids[n]];
    assert fan + [ids[0], ids[n - 1], ids[n]] == fan + [ids[0]] + [ids[n - 1]] + [ids[n]];
  }

  /** The three corners of one triangle, in order. */
  method PushTriangle(a: FaceIndex, b: FaceIndex, c: FaceIndex, data: ParseData)
    modifies data`currentVertices, data`vertexMap, data`currentIndices
    ensures data.State() == AddCorners(old(data.State()), [a, b, c])
  {
    ghost var st := data.State();
    PushCorner(a, data);
    assert [a][..0] == [];
    assert data.State() == AddCorners(st, [a]);
    PushCorner(b, data);
    assert [a, b][..1] == [a];
    assert data.State() == AddCorners(st, [a, b]);
    PushCorner(c, data);
    assert [a, b, c][..2] == [a, b];
  }

  /** Adding two runs of corners is adding their concatenation. */
  lemma {:induction false} AddCornersAppend(st: ParseState, cs: seq<FaceIndex>, ds: seq<FaceIndex>)
    ensures AddCorners(st, cs + ds) == AddCorners(AddCorners(st, cs), ds)
    decreases |ds|
  {
    if ds == [] {
      assert cs + ds == cs;
    } else {
      var last := |ds| - 1;
      assert (cs + ds)[..|cs + ds| - 1] == cs + ds[..last];
      AddCornersAppend(st, cs, ds[..last]);
    }
  }

  /** The corners of fan triangle (0, n-1, n) are added after those before it. */
  lemma FanCornersStep(st: ParseState, fs: seq<FaceIndex>, n: nat)
    requires 2 <= n < |fs|
    ensures AddCorners(st, FanUpTo(fs, n + 1))
      == AddCorners(AddCorners(st, FanUpTo(fs, n)), [fs[0], fs[n - 1], fs[n]])
  {
    FanStep(fs, n);
    assert FanUpTo(fs, n) + [fs[0]] + [fs[n - 1]] + [fs[n]] == FanUpTo(fs, n) + [fs[0], fs[n - 1], fs[n]];
    AddCornersAppend(st, FanUpTo(fs, n), [fs[0], fs[n - 1], fs[n]]);
  }

  /** Fan triangle (0, n-1, n), pushed after the triangles before it. */
  method FanTriangle(fs: seq<FaceIndex>, n: nat, ghost st0: ParseState, data: ParseData)
    requires 2 <= n < |fs|
    requires data.State() == AddCorners(st0, FanUpTo(fs, n))
    modifies data`currentVertices, data`vertexMap, data`currentIndices
    ensures data.State() == AddCorners(st0, FanUpTo(fs, n + 1))
  {
    PushTriangle(fs[0], fs[n - 1], fs[n], data);
    FanCornersStep(st0, fs, n);
  }

  /** The `makeAbsolute` loop of `parseFace`: every reference resolved against the
      pool sizes. */
  method ResolveFace(refs: seq<FaceRef>, data: ParseData) returns (fs: seq<FaceIndex>)
    ensures fs == ResolveAll(refs, data.State())
  {
    fs := [];
    for k := 0 to |refs|
      invariant |fs| == k
      invariant forall j :: 0 <= j < k ==>
        fs[j] == Resolve(refs[j], |data.positions|, |data.texCoords|, |data.normals|)
    {
      fs := fs + [Resolve(refs[k], |data.positions|, |data.texCoords|, |data.normals|)];
    }
  }

  /** The triangulation loop of `parseFace`: triangles (0, i-1, i) for i from 2,
      corner by corner. */
  method Triangulate(fs: seq<FaceIndex>, data: ParseData)
    modifies data`currentVertices, data`vertexMap, data`currentIndices
    ensures data.State() == AddCorners(old(data.State()), Fan(fs))
  {
    if |fs| >= 3 {
      FanLoop(fs, data);
    }
  }

  /** The loop itself, for a face of at least three corners. */
  method FanLoop(fs: seq<FaceIndex>, data: ParseData)
    requires |fs| >= 3
    modifies data`currentVertices, data`vertexMap, data`currentIndices
    ensures data.State() == AddCorners(old(data.State()), FanUpTo(fs, |fs|))
  {
    ghost var st0 := data.State();
    assert FanUpTo(fs, 2) == [];
    assert AddCorners(st0, []) == st0;
    for i := 2 to |fs|
      invariant data.State() == AddCorners(st0, FanUpTo(fs, i))
    {
      FanTriangle(fs, i, st0, data);
    }
  }

  /** `parseFace`: reads every reference (a malformed one aborts the line before
      anything changes), resolves them against the pools, then triangulates. */
  method ParseFace(refs: Option<seq<FaceRef>>, data: ParseData)
    modifies data`currentVertices, data`vertexMap, data`currentIndices
    ensures data.State() == if refs.Some? then FaceUpdate(old(data.State()), refs.value) else old(data.State())
  {
    if refs.Some? {
      var fs := ResolveFace(refs.value, data);
      Triangulate(fs, data);
    }
  }

  /** `calculateNormals`: every complete triangle, in order, gives its three vertices
      its face normal. */
  method CalculateNormals(data: ParseData)
    modifies data`currentVertices
    ensures data.currentVertices == FlatNormals(old(data.currentVertices), data.currentIndices)
  {
    ghost var v0 := data.currentVertices;
    var idx := data.currentIndices;
    var i := 0;
    while i < |idx|
      invariant i % 3 == 0 && i <= |idx| + 2
      invariant data.currentVertices == FlatNormalsUpTo(v0, idx, i / 3)
    {
      if i + 2 < |idx| {
        var i0, i1, i2 := idx[i], idx[i + 1], idx[i + 2];
        var vs := data.currentVertices;
        if i0 < |vs| && i1 < |vs| && i2 < |vs| {
          var n := FaceNormalOf(vs[i0].position, vs[i1].position, vs[i2].position);
          data.currentVertices := data.currentVertices[i0 := data.currentVertices[i0].(normal := n)];
          data.currentVertices := data.currentVertices[i1 := data.currentVertices[i1].(normal := n)];
          data.currentVertices := data.currentVertices[i2 := data.currentVertices[i2].(normal := n)];
        }
      }
      assert (i + 3) / 3 - 1 == i / 3;
      i := i + 3;
    }
    assert i / 3 == (|idx| + 2) / 3;
  }

  /** The material a finished mesh gets: the current one, or else the one detected
      from the mesh's name (possibly none). */
  ghost predicate MaterialFor(material: Material?, current: Material?, meshName: string)
    reads material
  {
    if current != null then material == current
    else
      (material == null <==> DetectPreset(meshName).None?)
      && (material != null ==> material.Data() == PresetData(DetectPreset(meshName).value, meshName))
  }

  /** The material `finalizeMesh` hands to the new mesh. */
  method MeshMaterial(current: Material?, meshName: string) returns (material: Material?)
    ensures MaterialFor(material, current, meshName)
    ensures MaterialValue(material) == MeshMaterialOf(MaterialValue(current), meshName)
    ensures current == null && material != null ==> fresh(material)
  {
    material := current;
    if material == null {
      material := DetectMaterialFromName(meshName);
    }
  }

  /** `model.addMesh(std::make_unique<Mesh>(vertices, indices, name, material))`. */
  method AddNewMesh(vertices: seq<Vertex>, indices: seq<nat>, name: string, material: Material?,
                    model: Model, gl: GlDevice) returns (mesh: Mesh)
    requires model.Valid() && gl.Valid()
    modifies model`meshes, model`parents, gl`nextName, gl`log
    ensures model.Valid() && gl.Valid()
    ensures fresh(mesh) && model.meshes == old(model.meshes) + [mesh] && mesh.material == material
    ensures mesh.name == name
    ensures MeshesData(model.meshes)
      == old(MeshesData(model.meshes)) + [MeshData(vertices, indices, name, MaterialValue(material))]
  {
    ghost var ms0, d0 := model.meshes, MeshesData(model.meshes);
    mesh := new Mesh(gl, vertices, indices, name, material);
    assert MeshesData(ms0) == d0;
    model.AddMesh(mesh);
    assert MeshesData(ms0) == d0;
    MeshesDataSnoc(ms0, mesh);
  }

  /** `finalizeMesh`: a current mesh with vertices and indices becomes a mesh of the
      model (face normals computed when the file has no normals; named after the
      object or numbered; given the current material, or one detected from its name),
      and the per-mesh state is cleared. Otherwise nothing happens. */
  method FinalizeMesh(data: ParseData, model: Model, gl: GlDevice)
    requires model.Valid() && gl.Valid()
    modifies data`currentVertices, data`currentIndices, data`vertexMap, data`currentObjectName,
      data`currentMaterial, model`meshes, model`parents, gl`nextName, gl`log
    ensures model.Valid() && gl.Valid()
    ensures Snapshot(data, model) == Finalize(old(Snapshot(data, model)))
    ensures |old(model.meshes)| <= |model.meshes| && model.meshes[..|old(model.meshes)|] == old(model.meshes)
    ensures forall k :: |old(model.meshes)| <= k < |model.meshes| ==> fresh(model.meshes[k])
  {
    if data.currentVertices != [] && data.currentIndices != [] {
      var mesh := HandOver(data, model, gl);
      DataOfFrame(data.materials);
    }
  }

  /** The body of `finalizeMesh` once it has decided to act. */
  method HandOver(data: ParseData, model: Model, gl: GlDevice) returns (mesh: Mesh)
    requires model.Valid() && gl.Valid()
    modifies data`currentVertices, data`currentIndices, data`vertexMap, data`currentObjectName,
      data`currentMaterial, model`meshes, model`parents, gl`nextName, gl`log
    ensures model.Valid() && gl.Valid()
    ensures data.State() == HandedOver(old(data.State())) && data.currentMaterial == null
    ensures MeshesData(model.meshes)
      == old(MeshesData(model.meshes))
         + [MeshData(FinishedVertices(old(data.State())), old(data.currentIndices),
                     MeshName(old(data.currentObjectName), |old(model.meshes)|),
                     MeshMaterialOf(old(MaterialValue(data.currentMaterial)),
                                    MeshName(old(data.currentObjectName), |old(model.meshes)|)))]
    ensures fresh(mesh) && model.meshes == old(model.meshes) + [mesh]
    ensures old(data.currentMaterial) != null ==> mesh.material == old(data.currentMaterial)
  {
    ghost var ms0 := MeshesData(model.meshes);
    var vertices, indices, meshName, material := PrepareMesh(data, |model.meshes|);
    assert MeshesData(model.meshes) == ms0;
    mesh := AddNewMesh(vertices, indices, meshName, material, model, gl);
    label added:
    ClearCurrent(data);
    MeshesDataFrame@added(model.meshes);
  }

  /** Materials that did not change hold the same states. */
  twostate lemma DataOfFrame(mats: map<string, Material>)
    requires forall k :: k in mats ==> unchanged(mats[k])
    ensures DataOf(mats) == old(DataOf(mats))
  {
  }

  /** Meshes and materials that did not change hold the same data. */
  twostate lemma MeshesDataFrame(ms: seq<Mesh>)
    requires forall m :: m in ms ==> unchanged(m)
    requires forall m :: m in ms && m.material != null ==> unchanged(m.material)
    ensures MeshesData(ms) == old(MeshesData(ms))
  {
  }

  /** What `finalizeMesh` hands to the new mesh: the vertices (with face normals when
      the file declared none), the indices, the name and the material. */
  method PrepareMesh(data: ParseData, meshCount: nat)
    returns (vertices: seq<Vertex>, indices: seq<nat>, meshName: string, material: Material?)
    modifies data`currentVertices
    ensures vertices == FinishedVertices(old(data.State())) && indices == old(data.currentIndices)
    ensures meshName == MeshName(old(data.currentObjectName), meshCount)
    ensures MaterialValue(material) == MeshMaterialOf(old(MaterialValue(data.currentMaterial)), meshName)
    ensures old(data.currentMaterial) != null ==> material == old(data.currentMaterial)
    ensures data.State() == old(data.State()).(vertices := vertices)
    ensures data.currentMaterial == old(data.currentMaterial)
  {
    ghost var cur0 := MaterialValue(data.currentMaterial);
    FinishVertices(data);
    meshName := MeshName(data.currentObjectName, meshCount);
    assert MaterialValue(data.currentMaterial) == cur0;
    material := MeshMaterial(data.currentMaterial, meshName);
    vertices, indices := data.currentVertices, data.currentIndices;
  }

  /** The normals step of `finalizeMesh`: `calculateNormals` when the file declared
      no normals. */
  method FinishVertices(data: ParseData)
    modifies data`currentVertices
    ensures data.currentVertices == FinishedVertices(old(data.State()))
  {
    if data.normals == [] {
      CalculateNormals(data);
    }
  }

  /** The end of `finalizeMesh`: the current vertices, indices, vertex map, object
      name and material are cleared; the pools stay. */
  method ClearCurrent(data: ParseData)
    modifies data`currentVertices, data`currentIndices, data`vertexMap, data`currentObjectName,
      data`currentMaterial
    ensures data.State() == HandedOver(old(data.State()))
    ensures data.currentMaterial == null
  {
    data.currentVertices := [];
    data.currentIndices := [];
    data.vertexMap := map[];
    data.currentObjectName := "";
    data.currentMaterial := null;
  }

  /** `parseObject`: finishes the current mesh, then takes the name the line gives
      or, when it gives none, "Objeto_<k>" with k one more than the meshes so far. */
  method ParseObject(name: Option<string>, data: ParseData, model: Model, gl: GlDevice,
                     ghost fs: map<string, seq<string>>, ghost objPath: string)
    requires model.Valid() && gl.Valid()
    modifies data`currentVertices, data`currentIndices, data`vertexMap, data`currentObjectName,
      data`currentMaterial, model`meshes, model`parents, gl`nextName, gl`log
    ensures model.Valid() && gl.Valid()
    ensures Snapshot(data, model) == ObjStep(old(Snapshot(data, model)), ObjectDef(name), fs, objPath)
    ensures |old(model.meshes)| <= |model.meshes| && model.meshes[..|old(model.meshes)|] == old(model.meshes)
    ensures forall k :: |old(model.meshes)| <= k < |model.meshes| ==> fresh(model.meshes[k])
  {
    FinalizeMesh(data, model, gl);
    ghost var ms := MeshesData(model.meshes);
    NameObject(name, |model.meshes|, data);
    assert MeshesData(model.meshes) == ms;
  }

  /** The naming half of `parseObject`: the name the line gives or, when it gives
      none, "Objeto_<k>" with k one more than the meshes so far. */
  method NameObject(name: Option<string>, meshCount: nat, data: ParseData)
    modifies data`currentObjectName
    ensures Local(data) == old(Local(data)).(parse := old(data.State()).(objectName := name.GetOr(DefaultObjectName(meshCount))))
  {
    if name.Some? {
      data.currentObjectName := name.value;
    } else {
      data.currentObjectName := DefaultObjectName(meshCount);
    }
  }

  /** Merging two name tables merges their states. */
  lemma DataOfMerge(a: map<string, Material>, b: map<string, Material>)
    ensures DataOf(a + b) == DataOf(a) + DataOf(b)
  {
    assert forall k :: k in a + b ==> DataOf(a + b)[k] == (DataOf(a) + DataOf(b))[k];
  }

  /** `parseMaterialLib`: loads the named library from the directory of the OBJ file
      and adds its materials, a name already present taking the new material. */
  method ParseMaterialLib(file: Option<string>, data: ParseData, fs: map<string, seq<string>>,
                          objPath: string)
    modifies data`materials
    ensures data.State() == old(data.State()) && data.currentMaterial == old(data.currentMaterial)
    ensures var path := if file.Some? then JoinPath(ParentPath(objPath), file.value) else "";
      if file.Some? && path in fs then
        data.materials.Keys == old(data.materials).Keys + MtlSpec(fs[path]).Keys
        && (forall k :: k in MtlSpec(fs[path]) ==>
              fresh(data.materials[k]) && data.materials[k].Data() == MtlSpec(fs[path])[k])
        && (forall k :: k in old(data.materials) && k !in MtlSpec(fs[path]) ==>
              data.materials[k] == old(data.materials)[k])
      else data.materials == old(data.materials)
    ensures DataOf(data.materials) == old(DataOf(data.materials)) + Library(fs, objPath, file)
  {
    ghost var m0 := data.materials;
    ghost var k0 := DataOf(m0);
    if file.Some? {
      var path := JoinPath(ParentPath(objPath), file.value);
      var loaded := LoadMaterials(fs, path);
      DataOfFrame(m0);
      if path in fs {
        assert DataOf(loaded) == MtlSpec(fs[path]);
      } else {
        assert DataOf(loaded) == map[] && m0 + loaded == m0;
      }
      assert DataOf(loaded) == Library(fs, objPath, file);
      DataOfMerge(m0, loaded);
      ghost var merged := DataOf(m0 + loaded);
      assert merged == k0 + Library(fs, objPath, file);
      label merging:
      data.materials := data.materials + loaded;
      DataOfFrame@merging(data.materials);
    } else {
      assert Library(fs, objPath, file) == map[];
      assert k0 + map[] == k0;
    }
  }

  /** `parseUseMaterial`: the named material when known, else a fresh default
      material of that name (which is not added to the known ones). */
  method ParseUseMaterial(name: Option<string>, data: ParseData)
    modifies data`currentMaterial
    ensures data.State() == old(data.State()) && data.materials == old(data.materials)
    ensures name.None? ==> data.currentMaterial == old(data.currentMaterial)
    ensures name.Some? && name.value in data.materials ==>
      data.currentMaterial == data.materials[name.value]
    ensures name.Some? && name.value !in data.materials ==>
      data.currentMaterial != null && fresh(data.currentMaterial)
      && data.currentMaterial.Data() == DefaultData(name.value)
    ensures MaterialValue(data.currentMaterial)
      == if name.Some? then Some(UsedMaterial(DataOf(data.materials), name.value))
         else old(MaterialValue(data.currentMaterial))
  {
    if name.Some? {
      if name.value in data.materials {
        data.currentMaterial := data.materials[name.value];
      } else {
        data.currentMaterial := CreateDefaultMaterial(name.value);
      }
    }
  }

  /** `parseLine`: the trimmed line goes to the handler its first characters select,
      with the operands that handler reads. The geometry and the meshes follow
      `ObjStep` of the line's directive. */
  method ParseLine(line: string, data: ParseData, model: Model, gl: GlDevice,
                   fs: map<string, seq<string>>, objPath: string)
    requires model.Valid() && gl.Valid()
    modifies data, model`meshes, model`parents, gl`nextName, gl`log
    ensures model.Valid() && gl.Valid()
    ensures Snapshot(data, model) == ObjStep(old(Snapshot(data, model)), ReadDirective(line), fs, objPath)
    ensures |old(model.meshes)| <= |model.meshes| && model.meshes[..|old(model.meshes)|] == old(model.meshes)
    ensures forall k :: |old(model.meshes)| <= k < |model.meshes| ==> fresh(model.meshes[k])
  {
    Dispatch(ReadDirective(line), data, model, gl, fs, objPath);
  }

  /** The handlers of `parseLine`, one per directive; a handler that throws (a
      malformed number or face reference) leaves everything as it was. */
  method Dispatch(d: Directive, data: ParseData, model: Model, gl: GlDevice,
                  fs: map<string, seq<string>>, objPath: string)
    requires model.Valid() && gl.Valid()
    modifies data, model`meshes, model`parents, gl`nextName, gl`log
    ensures model.Valid() && gl.Valid()
    ensures Snapshot(data, model) == ObjStep(old(Snapshot(data, model)), d, fs, objPath)
    ensures |old(model.meshes)| <= |model.meshes| && model.meshes[..|old(model.meshes)|] == old(model.meshes)
    ensures forall k :: |old(model.meshes)| <= k < |model.meshes| ==> fresh(model.meshes[k])
  {
    if d.ObjectDef? {
      ParseObject(d.objectName, data, model, gl, fs, objPath);
    } else {
      ghost var before := Snapshot(data, model);
      ParseOther(d, data, fs, objPath);
      assert Snapshot(data, model) == Local(data).(meshes := before.meshes);
      assert before == old(Local(data)).(meshes := before.meshes);
    }
  }

  /** The handlers of every directive but `o`: they change only the loader's own
      state, as `ObjStep` says. */
  method ParseOther(d: Directive, data: ParseData, fs: map<string, seq<string>>, objPath: string)
    requires !d.ObjectDef?
    modifies data
    ensures Local(data) == ObjStep(old(Local(data)), d, fs, objPath)
  {
    if d.MaterialLibDef? {
      ParseMaterialLib(d.file, data, fs, objPath);
    } else if d.UseMaterialDef? {
      ParseUseMaterial(d.material, data);
      DataOfFrame(data.materials);
    } else {
      ParseGeometry(d, data);
      DataOfFrame(data.materials);
    }
  }

  /** The handlers of `v`, `vn`, `vt` and `f`; the other directives are not theirs
      and change nothing here. */
  method ParseGeometry(d: Directive, data: ParseData)
    modifies data`positions, data`normals, data`texCoords
    modifies data`currentVertices, data`vertexMap, data`currentIndices
    ensures data.State() == ParseStep(old(data.State()), d)
    ensures data.materials == old(data.materials) && data.currentMaterial == old(data.currentMaterial)
  {
    match d
    case VertexDef(p) =>
      if p.Some? {
        data.positions := data.positions + [p.value];
      }
    case NormalDef(raw) =>
      if raw.Some? {
        data.normals := data.normals + [NormalOf(raw.value)];
      }
    case TexCoordDef(uv) =>
      if uv.Some? {
        data.texCoords := data.texCoords + [uv.value];
      }
    case FaceDef(refs) =>
      ParseFace(refs, data);
    case _ =>
  }

  /** The reading loop of `loadModel`: every line, in order, through `parseLine`. */
  method ReadLines(lines: seq<string>, data: ParseData, model: Model, gl: GlDevice,
                   fs: map<string, seq<string>>, objPath: string)
    requires model.Valid() && gl.Valid()
    requires Snapshot(data, model) == EmptyObjState
    modifies data, model`meshes, model`parents, gl`nextName, gl`log
    ensures model.Valid() && gl.Valid()
    ensures Snapshot(data, model) == ObjUpTo(Directives(lines), |lines|, fs, objPath)
  {
    for i := 0 to |lines|
      invariant model.Valid() && gl.Valid()
      invariant Snapshot(data, model) == ObjUpTo(Directives(lines), i, fs, objPath)
    {
      ReadLineAt(lines, i, data, model, gl, fs, objPath);
    }
  }

  /** One turn of the reading loop: line `i` through `parseLine`. */
  method ReadLineAt(lines: seq<string>, i: nat, data: ParseData, model: Model, gl: GlDevice,
                    fs: map<string, seq<string>>, objPath: string)
    requires i < |lines| && model.Valid() && gl.Valid()
    requires Snapshot(data, model) == ObjUpTo(Directives(lines), i, fs, objPath)
    modifies data, model`meshes, model`parents, gl`nextName, gl`log
    ensures model.Valid() && gl.Valid()
    ensures Snapshot(data, model) == ObjUpTo(Directives(lines), i + 1, fs, objPath)
  {
    DirectiveAt(lines, i);
    ParseLine(lines[i], data, model, gl, fs, objPath);
  }

  /** Meshes holding what the directive fold produced are well formed. */
  lemma LoadedMeshesWellFormed(ms: seq<Mesh>, lines: seq<string>, fs: map<string, seq<string>>,
                                objPath: string)
    requires MeshesData(ms) == ObjMeshes(lines, fs, objPath)
    ensures forall k :: 0 <= k < |ms| ==> ms[k].WellFormed() && ms[k].indices != [] && ms[k].name != []
    ensures forall k :: 0 <= k < |ms| ==> MaterialValue(ms[k].material) == ObjMeshes(lines, fs, objPath)[k].material
  {
    ObjMeshesDrawable(lines, fs, objPath);
    forall k | 0 <= k < |ms|
      ensures ms[k].WellFormed() && ms[k].indices != [] && ms[k].name != []
      ensures MaterialValue(ms[k].material) == ObjMeshes(lines, fs, objPath)[k].material
    {
      MeshesDataAt(ms, k);
      assert MeshOk(MeshesData(ms)[k]);
    }
  }

  /** Fresh parse data, every line parsed, the last mesh finished: the model's
      meshes are those the directive fold produces. */
  method ReadModel(lines: seq<string>, model: Model, gl: GlDevice,
                   fs: map<string, seq<string>>, objPath: string)
    requires model.Valid() && gl.Valid() && model.meshes == [] && model.parents == []
    modifies model`meshes, model`parents, gl`nextName, gl`log
    ensures model.Valid() && gl.Valid()
    ensures MeshesData(model.meshes) == ObjMeshes(lines, fs, objPath)
  {
    var data := new ParseData();
    ReadLines(lines, data, model, gl, fs, objPath);
    FinalizeMesh(data, model, gl);
  }

  /** The part of `loadModel` between opening the file and computing the
      statistics: a fresh model of that name, every line parsed, the last mesh
      finished. */
  method BuildModel(lines: seq<string>, name: string, gl: GlDevice,
                    fs: map<string, seq<string>>, objPath: string) returns (model: Model)
    requires gl.Valid()
    modifies gl`nextName, gl`log
    ensures gl.Valid() && fresh(model) && model.Valid() && model.name == name
    ensures MeshesData(model.meshes) == ObjMeshes(lines, fs, objPath)
    ensures forall k :: 0 <= k < |model.meshes| ==>
      model.meshes[k].WellFormed() && model.meshes[k].indices != [] && model.meshes[k].name != []
    ensures forall k :: 0 <= k < |model.meshes| ==>
      MaterialValue(model.meshes[k].material) == ObjMeshes(lines, fs, objPath)[k].material
  {
    model := new Model(name);
    ReadModel(lines, model, gl, fs, objPath);
    LoadedMeshesWellFormed(model.meshes, lines, fs, objPath);
  }

  /** `loadModel`: null when the file cannot be opened; otherwise a model named
      `modelName` (or the file's stem) whose meshes are exactly those the directive
      fold produces from the file's lines, every one drawable. `stats` is what the
      loader's static statistics hold afterwards: zero after a failed load, the
      model's totals after a successful one. */
  method LoadModel(fs: map<string, seq<string>>, path: string, modelName: string, gl: GlDevice)
    returns (model: Model?, stats: LoadStats)
    requires gl.Valid()
    modifies gl`nextName, gl`log
    ensures gl.Valid()
    ensures path !in fs <==> model == null
    ensures path !in fs ==> stats == LoadStats(0, 0, 0)
    ensures model != null ==> fresh(model) && model.Valid()
    ensures model != null ==> model.name == (if modelName == [] then Stem(path) else modelName)
    ensures model != null ==> MeshesData(model.meshes) == ObjMeshes(fs[path], fs, path)
    ensures model != null ==> forall k :: 0 <= k < |model.meshes| ==>
      model.meshes[k].WellFormed() && model.meshes[k].indices != [] && model.meshes[k].name != []
    ensures model != null ==> forall k :: 0 <= k < |model.meshes| ==>
      MaterialValue(model.meshes[k].material) == ObjMeshes(fs[path], fs, path)[k].material
    ensures model != null ==>
      stats == LoadStats(TotalVertices(model.meshes), TotalTriangles(model.meshes), |model.meshes|)
  {
    stats := LoadStats(0, 0, 0);
    if path !in fs {
      return null, stats;
    }
    var finalName := modelName;
    if finalName == [] {
      finalName := Stem(path);
    }
    model := BuildModel(fs[path], finalName, gl, fs, path);
    label built:
    var vertexCount := model.GetTotalVertexCount();
    var triangleCount := model.GetTotalTriangleCount();
    stats := LoadStats(vertexCount, triangleCount, |model.meshes|);
    MeshesDataFrame@built(model.meshes);
    LoadedMeshesWellFormed(model.meshes, fs[path], fs, path);
  }
}
