/** The OBJ reader as values: what each line means once read (a directive), the state
    `ParseData` accumulates (attribute pools, the current mesh's vertices and indices,
    the key-to-vertex map that deduplicates them), and how each directive changes that
    state and the list of finished meshes. The loader's methods are proved against
    these functions. */
module ObjParse {
  import opened Wrappers
  import opened Text
  import opened Geometry
  import opened Materials
  import opened Meshes
  import opened ObjSyntax
  import Mtl

  /** One line of an OBJ file, read. A `None` payload is a line whose handler throws
      (or, for `mtllib`/`usemtl`, one that names nothing). */
  datatype Directive =
    | Skip
    | VertexDef(position: Option<Vec3>)
    | NormalDef(raw: Option<Vec3>)
    | TexCoordDef(uv: Option<Vec2>)
    | FaceDef(refs: Option<seq<FaceRef>>)
    | ObjectDef(objectName: Option<string>)
    | MaterialLibDef(file: Option<string>)
    | UseMaterialDef(material: Option<string>)

  /** All the references of a face, or None when one of them is malformed. */
  function ParseRefs(toks: seq<string>): (r: Option<seq<FaceRef>>)
    ensures r.Some? <==> forall k :: 0 <= k < |toks| ==> ParseFaceRef(toks[k]).Some?
    ensures r.Some? ==> |r.value| == |toks|
    ensures r.Some? ==> forall k :: 0 <= k < |toks| ==> r.value[k] == ParseFaceRef(toks[k]).value
  {
    if toks == [] then Some([])
    else
      match (ParseFaceRef(toks[0]), ParseRefs(toks[1..]))
      case (Some(f), Some(rest)) => Some([f] + rest)
      case _ => None
  }

  /** The word after the directive, if any. */
  function SecondToken(toks: seq<string>): Option<string> {
    if |toks| >= 2 then Some(toks[1]) else None
  }

  /** What `parseLine` makes of a line: it trims it, classifies it and reads the
      operands the matching handler reads. */
  function ReadDirective(line: string): Directive {
    var t := Trim(line);
    match Classify(t)
    case Ignored => Skip
    case VertexLine => VertexDef(ReadVec3(Tokens(t)))
    case NormalLine => NormalDef(ReadVec3(Tokens(t)))
    case TexCoordLine => TexCoordDef(ReadTexCoord(Tokens(t)))
    case FaceLine => FaceDef(ParseRefs(Tokens(t)[1..]))
    case ObjectLine => ObjectDef(if |t| > 2 then Some(Trim(t[2..])) else None)
    case MaterialLibLine => MaterialLibDef(SecondToken(Tokens(t)))
    case UseMaterialLine => UseMaterialDef(SecondToken(Tokens(t)))
  }

  /** Blank lines and comments are skipped; a face line is an "f" word followed by
      the references; an object line is an "o" word, and names an object exactly
      when there is text after "o ". */
  lemma ReadDirectiveShape(line: string)
    ensures ReadDirective(line) == Skip <==> Classify(Trim(line)) == Ignored
    ensures ReadDirective(line).FaceDef? ==>
      Tokens(Trim(line))[0] == "f" && ReadDirective(line).refs == ParseRefs(Tokens(Trim(line))[1..])
    ensures ReadDirective(line).ObjectDef? ==>
      Tokens(Trim(line))[0] == "o" && (ReadDirective(line).objectName.Some? <==> |Trim(line)| > 2)
  {
  }

  /** `ParseData` without its materials. */
  datatype ParseState = ParseState(
    positions: seq<Vec3>,
    normals: seq<Normal>,
    texCoords: seq<Vec2>,
    vertices: seq<Vertex>,
    indices: seq<nat>,
    objectName: string,
    vertexMap: map<FaceIndex, nat>)

  const EmptyState := ParseState([], [], [], [], [], "", map[])

  /** The vertex a resolved reference makes: each attribute whose index falls inside
      its pool, the zero default for the others. */
  function BuildVertex(f: FaceIndex, st: ParseState): (v: Vertex)
    ensures 0 <= f.position < |st.positions| ==> v.position == st.positions[f.position]
    ensures !(0 <= f.position < |st.positions|) ==> v.position == Zero3
    ensures 0 <= f.texCoord < |st.texCoords| ==> v.texCoords == st.texCoords[f.texCoord]
    ensures !(0 <= f.texCoord < |st.texCoords|) ==> v.texCoords == Zero2
    ensures 0 <= f.normal < |st.normals| ==> v.normal == st.normals[f.normal]
    ensures !(0 <= f.normal < |st.normals|) ==> v.normal == NoNormal
  {
    Vertex(
      if 0 <= f.position < |st.positions| then st.positions[f.position] else Zero3,
      if 0 <= f.normal < |st.normals| then st.normals[f.normal] else NoNormal,
      if 0 <= f.texCoord < |st.texCoords| then st.texCoords[f.texCoord] else Zero2)
  }

  /** With the corrected resolution, a corner that omits its texture coordinate or
      normal gets the zero default for it, whatever the pools hold. */
  lemma OmittedAttributesStayDefault(r: FaceRef, st: ParseState)
    ensures r.texCoord.None? ==>
      BuildVertex(Resolve(r, |st.positions|, |st.texCoords|, |st.normals|), st).texCoords == Zero2
    ensures r.normal.None? ==>
      BuildVertex(Resolve(r, |st.positions|, |st.texCoords|, |st.normals|), st).normal == NoNormal
  {
  }

  /** The vertex map gives every current vertex exactly one key and nothing else; the
      indices name current vertices and every vertex is used by some index. */
  ghost predicate Consistent(st: ParseState) {
    (forall key :: key in st.vertexMap ==> st.vertexMap[key] < |st.vertices|)
    && (forall a, b :: a in st.vertexMap && b in st.vertexMap && st.vertexMap[a] == st.vertexMap[b] ==> a == b)
    && (forall v :: 0 <= v < |st.vertices| ==> v in st.vertexMap.Values)
    && (forall k :: 0 <= k < |st.indices| ==> st.indices[k] < |st.vertices|)
    && (forall v :: 0 <= v < |st.vertices| ==> v in st.indices)
  }

  /** Consistent, and the indices come in whole triangles. */
  ghost predicate WellIndexed(st: ParseState) {
    Consistent(st) && |st.indices| % 3 == 0
  }

  /** `getOrCreateVertex`: the vertex already made for this reference, or a new one
      appended and recorded under it. The map is keyed by the resolved reference
      itself: `GetKeyInjective` shows that keying it by `getKey`'s string, as the
      source does, merges exactly the same references. */
  function GetOrCreate(st: ParseState, f: FaceIndex): (ParseState, nat) {
    var key := f;
    if key in st.vertexMap then (st, st.vertexMap[key])
    else
      (st.(vertices := st.vertices + [BuildVertex(f, st)],
           vertexMap := st.vertexMap[key := |st.vertices|]),
       |st.vertices|)
  }

  /** One corner of a triangle: `currentIndices.push_back(getOrCreateVertex(f))`. */
  function AddCorner(st: ParseState, f: FaceIndex): ParseState {
    var (s, idx) := GetOrCreate(st, f);
    s.(indices := s.indices + [idx])
  }

  /** The corners in order, each as `AddCorner` handles it. */
  function AddCorners(st: ParseState, cs: seq<FaceIndex>): ParseState
    decreases |cs|
  {
    if cs == [] then st else AddCorner(AddCorners(st, cs[..|cs| - 1]), cs[|cs| - 1])
  }

  /** The references resolved against the pools as they are when the face is read. */
  function ResolveAll(refs: seq<FaceRef>, st: ParseState): (fs: seq<FaceIndex>)
    ensures |fs| == |refs|
    ensures forall k :: 0 <= k < |refs| ==>
      fs[k] == Resolve(refs[k], |st.positions|, |st.texCoords|, |st.normals|)
  {
    seq(|refs|, k requires 0 <= k < |refs| =>
      Resolve(refs[k], |st.positions|, |st.texCoords|, |st.normals|))
  }

  /** `parseFace` on well-formed references: the corners of the fan triangulation,
      each deduplicated. */
  function FaceUpdate(st: ParseState, refs: seq<FaceRef>): ParseState {
    AddCorners(st, Fan(ResolveAll(refs, st)))
  }

  /** The vertex index each reference's key maps to (0 for keys not in the map). */
  function Ids(m: map<FaceIndex, nat>, fs: seq<FaceIndex>): (ids: seq<nat>)
    ensures |ids| == |fs|
    ensures forall k :: 0 <= k < |fs| && fs[k] in m ==> ids[k] == m[fs[k]]
  {
    seq(|fs|, k requires 0 <= k < |fs| => if fs[k] in m then m[fs[k]] else 0)
  }

  /** `b` keeps every entry of `a`. */
  predicate Extends(b: map<FaceIndex, nat>, a: map<FaceIndex, nat>) {
    forall key :: key in a ==> key in b && b[key] == a[key]
  }

  /** A corner keeps the pools and the existing vertices and keys, maps its key,
      pushes the vertex index of that key, and adds a vertex only for a new key. */
  lemma AddCornerFrame(st: ParseState, f: FaceIndex)
    ensures var r := AddCorner(st, f);
      r.positions == st.positions && r.normals == st.normals && r.texCoords == st.texCoords
      && r.objectName == st.objectName
      && f in r.vertexMap && Extends(r.vertexMap, st.vertexMap)
      && r.vertexMap.Keys == st.vertexMap.Keys + {f}
      && r.indices == st.indices + [r.vertexMap[f]]
      && |st.vertices| <= |r.vertices| && r.vertices[..|st.vertices|] == st.vertices
      && (f in st.vertexMap ==> r.vertices == st.vertices)
      && (f !in st.vertexMap ==> r.vertices == st.vertices + [BuildVertex(f, st)])
  {
  }

  /** A corner keeps the state consistent: a new vertex gets its key and its index. */
  lemma {:induction false} AddCornerConsistent(st: ParseState, f: FaceIndex)
    requires Consistent(st)
    ensures Consistent(AddCorner(st, f))
  {
    var key := f;
    var r := AddCorner(st, f);
    if key !in st.vertexMap {
      var n := |st.vertices|;
      assert r.vertexMap == st.vertexMap[key := n];
      forall v | 0 <= v < |r.vertices|
        ensures v in r.vertexMap.Values
      {
        if v < n {
          assert v in st.vertexMap.Values;
          var k0 :| k0 in st.vertexMap && st.vertexMap[k0] == v;
          assert k0 != key && r.vertexMap[k0] == v;
        } else {
          assert r.vertexMap[key] == v;
        }
      }
      forall v | 0 <= v < |r.vertices|
        ensures v in r.indices
      {
        if v < n {
          assert v in st.indices;
        } else {
          assert r.indices[|r.indices| - 1] == v;
        }
      }
    }
  }

  /** Corners keep the pools, the existing vertices and the existing keys. */
  lemma {:induction false} AddCornersFrame(st: ParseState, cs: seq<FaceIndex>)
    ensures var r := AddCorners(st, cs);
      r.positions == st.positions && r.normals == st.normals && r.texCoords == st.texCoords
      && r.objectName == st.objectName
      && Extends(r.vertexMap, st.vertexMap)
      && |st.vertices| <= |r.vertices| && r.vertices[..|st.vertices|] == st.vertices
    decreases |cs|
  {
    if cs != [] {
      AddCornersFrame(st, cs[..|cs| - 1]);
      var s0 := AddCorners(st, cs[..|cs| - 1]);
      AddCornerFrame(s0, cs[|cs| - 1]);
      var r := AddCorners(st, cs);
      assert r.vertices[..|st.vertices|] == st.vertices by {
        assert s0.vertices[..|st.vertices|] == st.vertices;
        assert r.vertices[..|s0.vertices|] == s0.vertices;
      }
    }
  }

  /** Corners add exactly their own references to the map. */
  lemma {:induction false} AddCornersKeys(st: ParseState, cs: seq<FaceIndex>)
    ensures AddCorners(st, cs).vertexMap.Keys == st.vertexMap.Keys + (set c | c in cs)
    decreases |cs|
  {
    if cs != [] {
      var init := cs[..|cs| - 1];
      var c := cs[|cs| - 1];
      AddCornersKeys(st, init);
      AddCornerFrame(AddCorners(st, init), c);
      assert (set x | x in cs) == (set x | x in init) + {c} by {
        assert forall x :: x in cs <==> x in init || x == c;
      }
    }
  }

  /** Ids of references already in a map do not change when the map is extended. */
  lemma IdsOfExtended(a: map<FaceIndex, nat>, b: map<FaceIndex, nat>, fs: seq<FaceIndex>)
    requires Extends(b, a)
    requires forall k :: 0 <= k < |fs| ==> fs[k] in a
    ensures Ids(a, fs) == Ids(b, fs)
  {
    assert forall k :: 0 <= k < |fs| ==> Ids(a, fs)[k] == a[fs[k]] == b[fs[k]] == Ids(b, fs)[k];
  }

  /** The ids of one more reference are the ids before it and its own. */
  lemma IdsSnoc(m: map<FaceIndex, nat>, init: seq<FaceIndex>, c: FaceIndex)
    requires c in m
    ensures Ids(m, init + [c]) == Ids(m, init) + [m[c]]
  {
    assert forall k :: 0 <= k < |init| ==> (init + [c])[k] == init[k];
  }

  /** Corners push the vertex index of each of their references, in order. */
  lemma {:induction false} AddCornersIndices(st: ParseState, cs: seq<FaceIndex>)
    ensures AddCorners(st, cs).indices == st.indices + Ids(AddCorners(st, cs).vertexMap, cs)
    decreases |cs|
  {
    if cs != [] {
      var init := cs[..|cs| - 1];
      var c := cs[|cs| - 1];
      assert cs == init + [c];
      AddCornersIndices(st, init);
      AddCornersKeys(st, init);
      var s0 := AddCorners(st, init);
      AddCornerFrame(s0, c);
      var r := AddCorners(st, cs);
      assert forall k :: 0 <= k < |init| ==> init[k] in s0.vertexMap by {
        assert forall k :: 0 <= k < |init| ==> init[k] in (set x | x in init);
      }
      IdsOfExtended(s0.vertexMap, r.vertexMap, init);
      IdsSnoc(r.vertexMap, init, c);
      AppendAssoc(st.indices, Ids(r.vertexMap, init), [r.vertexMap[c]]);
    }
  }

  /** Corners keep the state consistent. */
  lemma {:induction false} AddCornersConsistent(st: ParseState, cs: seq<FaceIndex>)
    requires Consistent(st)
    ensures Consistent(AddCorners(st, cs))
    decreases |cs|
  {
    if cs != [] {
      AddCornersConsistent(st, cs[..|cs| - 1]);
      AddCornerConsistent(AddCorners(st, cs[..|cs| - 1]), cs[|cs| - 1]);
    }
  }

  /** Looking ids up commutes with fan triangulation. */
  lemma IdsOfFan(m: map<FaceIndex, nat>, fs: seq<FaceIndex>)
    ensures Ids(m, Fan(fs)) == Fan(Ids(m, fs))
  {
    var a := Ids(m, Fan(fs));
    var b := Fan(Ids(m, fs));
    FanCorners(fs);
    FanCorners(Ids(m, fs));
    assert |a| == |b|;
    forall j | 0 <= j < |a|
      ensures a[j] == b[j]
    {
      var t := j / 3;
      assert j == 3 * t || j == 3 * t + 1 || j == 3 * t + 2;
    }
  }

  /** Every corner of a polygon with at least three corners is used by its fan. */
  lemma FanUsesEveryCorner(fs: seq<FaceIndex>)
    requires |fs| >= 3
    ensures (set c | c in Fan(fs)) == (set c | c in fs)
  {
    var f := Fan(fs);
    FanCorners(fs);
    forall c | c in fs
      ensures c in f
    {
      var k :| 0 <= k < |fs| && fs[k] == c;
      if k == 0 {
        assert f[3 * 0] == c;
      } else if k <= |fs| - 2 {
        assert f[3 * (k - 1) + 1] == c;
      } else {
        assert f[3 * (k - 2) + 2] == c;
      }
    }
    forall c | c in f
      ensures c in fs
    {
      var j :| 0 <= j < |f| && f[j] == c;
      var t := j / 3;
      assert j == 3 * t || j == 3 * t + 1 || j == 3 * t + 2;
    }
  }

  /** Each corner's vertex is the one its reference already had, or one built from
      the reference against the pools. */
  lemma {:induction false} AddCornersVertices(st: ParseState, cs: seq<FaceIndex>)
    requires Consistent(st)
    ensures var r := AddCorners(st, cs);
      forall c :: c in cs ==>
        (c in r.vertexMap && r.vertexMap[c] < |r.vertices|
         && r.vertices[r.vertexMap[c]]
            == (if c in st.vertexMap then st.vertices[st.vertexMap[c]] else BuildVertex(c, st)))
    decreases |cs|
  {
    if cs != [] {
      var init := cs[..|cs| - 1];
      var last := cs[|cs| - 1];
      AddCornersVertices(st, init);
      AddCornersFrame(st, init);
      AddCornersKeys(st, init);
      AddCornersConsistent(st, init);
      var s0 := AddCorners(st, init);
      AddCornerFrame(s0, last);
      AddCornerConsistent(s0, last);
      var r := AddCorners(st, cs);
      forall c | c in cs
        ensures c in r.vertexMap && r.vertexMap[c] < |r.vertices|
        ensures r.vertices[r.vertexMap[c]]
                == (if c in st.vertexMap then st.vertices[st.vertexMap[c]] else BuildVertex(c, st))
      {
        if c in s0.vertexMap {
          assert r.vertexMap[c] == s0.vertexMap[c] < |s0.vertices|;
          assert r.vertices[r.vertexMap[c]] == r.vertices[..|s0.vertices|][s0.vertexMap[c]];
          if c !in init {
            assert c in st.vertexMap;
            assert s0.vertices[st.vertexMap[c]] == s0.vertices[..|st.vertices|][st.vertexMap[c]];
          }
        } else {
          assert c == last;
        }
      }
    }
  }

  /** `parseFace`'s effect: the fan's indices over the deduplicated vertices of the
      corners, every corner's reference mapped, nothing else touched. Fewer than three
      references change nothing. */
  lemma FaceUpdateSpec(st: ParseState, refs: seq<FaceRef>)
    ensures var r := FaceUpdate(st, refs);
      var fs := ResolveAll(refs, st);
      r.positions == st.positions && r.normals == st.normals && r.texCoords == st.texCoords
      && r.objectName == st.objectName
      && Extends(r.vertexMap, st.vertexMap)
      && r.vertexMap.Keys == st.vertexMap.Keys + (if |fs| >= 3 then set c | c in fs else {})
      && r.indices == st.indices + Fan(Ids(r.vertexMap, fs))
      && |st.vertices| <= |r.vertices| && r.vertices[..|st.vertices|] == st.vertices
      && (|fs| < 3 ==> r == st)
  {
    var fs := ResolveAll(refs, st);
    var cs := Fan(fs);
    var r := FaceUpdate(st, refs);
    AddCornersFrame(st, cs);
    AddCornersKeys(st, cs);
    AddCornersIndices(st, cs);
    IdsOfFan(r.vertexMap, fs);
    if |fs| >= 3 {
      FanUsesEveryCorner(fs);
    }
  }

  /** A face keeps the state well indexed: three indices per triangle, all naming
      vertices, every vertex keyed once and used. */
  lemma FaceUpdateWellIndexed(st: ParseState, refs: seq<FaceRef>)
    requires WellIndexed(st)
    ensures WellIndexed(FaceUpdate(st, refs))
  {
    AddCornersConsistent(st, Fan(ResolveAll(refs, st)));
    FaceIndexCount(st, refs);
  }

  /** A face adds three indices per triangle of its fan. */
  lemma FaceIndexCount(st: ParseState, refs: seq<FaceRef>)
    requires |st.indices| % 3 == 0
    ensures |FaceUpdate(st, refs).indices| % 3 == 0
  {
    var cs := Fan(ResolveAll(refs, st));
    AddCornersIndices(st, cs);
    assert |FaceUpdate(st, refs).indices| == |st.indices| + |cs|;
  }

  /** Two corners of a face share a vertex exactly when they resolve to the same
      reference. */
  lemma FaceSharesOnlyEqualReferences(st: ParseState, refs: seq<FaceRef>, j: int, k: int)
    requires WellIndexed(st)
    requires |refs| >= 3 && 0 <= j < |refs| && 0 <= k < |refs|
    ensures var r := FaceUpdate(st, refs);
      var ids := Ids(r.vertexMap, ResolveAll(refs, st));
      ids[j] == ids[k] <==> ResolveAll(refs, st)[j] == ResolveAll(refs, st)[k]
  {
    FaceUpdateSpec(st, refs);
    FaceUpdateWellIndexed(st, refs);
  }

  /** The three indices from `i` on exist and name existing vertices. */
  predicate Complete(vs: seq<Vertex>, idx: seq<nat>, i: nat) {
    i + 2 < |idx| && idx[i] < |vs| && idx[i + 1] < |vs| && idx[i + 2] < |vs|
  }

  /** `normalize(cross(p1 - p0, p2 - p0))` for the triangle from `i` on. */
  function TriangleNormal(vs: seq<Vertex>, idx: seq<nat>, i: nat): Normal
    requires Complete(vs, idx, i)
  {
    FaceNormalOf(vs[idx[i]].position, vs[idx[i + 1]].position, vs[idx[i + 2]].position)
  }

  /** The triangle from `i` on uses vertex `v`. */
  predicate Touches(idx: seq<nat>, i: nat, v: nat)
    requires i + 2 < |idx|
  {
    idx[i] == v || idx[i + 1] == v || idx[i + 2] == v
  }

  /** One iteration of `calculateNormals`: a complete triangle gives its three vertices
      its face normal; anything else changes nothing. */
  function ShadeTriangle(vs: seq<Vertex>, idx: seq<nat>, i: nat): (r: seq<Vertex>)
    ensures |r| == |vs|
    ensures forall v :: 0 <= v < |vs| ==> r[v].position == vs[v].position && r[v].texCoords == vs[v].texCoords
    ensures Complete(vs, idx, i) ==> forall v :: 0 <= v < |vs| ==>
      r[v].normal == (if Touches(idx, i, v) then TriangleNormal(vs, idx, i) else vs[v].normal)
    ensures !Complete(vs, idx, i) ==> r == vs
  {
    if Complete(vs, idx, i) then
      var n := TriangleNormal(vs, idx, i);
      var v1 := vs[idx[i] := vs[idx[i]].(normal := n)];
      var v2 := v1[idx[i + 1] := v1[idx[i + 1]].(normal := n)];
      v2[idx[i + 2] := v2[idx[i + 2]].(normal := n)]
    else vs
  }

  /** The vertices after the first `t` iterations (triangles from 0, 3, ..., 3t - 3). */
  function FlatNormalsUpTo(vs: seq<Vertex>, idx: seq<nat>, t: nat): (r: seq<Vertex>)
    ensures |r| == |vs|
    ensures forall v :: 0 <= v < |vs| ==> r[v].position == vs[v].position && r[v].texCoords == vs[v].texCoords
  {
    if t == 0 then vs else ShadeTriangle(FlatNormalsUpTo(vs, idx, t - 1), idx, 3 * (t - 1))
  }

  /** `calculateNormals`: one iteration per started group of three indices. */
  function FlatNormals(vs: seq<Vertex>, idx: seq<nat>): seq<Vertex> {
    FlatNormalsUpTo(vs, idx, (|idx| + 2) / 3)
  }

  /** The last of the first `t` triangles that is complete and uses `v`, or -1. */
  function LastTouch(vs: seq<Vertex>, idx: seq<nat>, t: nat, v: nat): (r: int)
    ensures -1 <= r < t
    ensures r >= 0 ==> Complete(vs, idx, 3 * r) && Touches(idx, 3 * r, v)
    ensures forall j :: r < j < t && Complete(vs, idx, 3 * j) ==> !Touches(idx, 3 * j, v)
  {
    if t == 0 then -1
    else if Complete(vs, idx, 3 * (t - 1)) && Touches(idx, 3 * (t - 1), v) then t - 1
    else LastTouch(vs, idx, t - 1, v)
  }

  /** The triangles overwrite one another: each vertex ends with the face normal of the
      last complete triangle that uses it, and keeps its normal when none does. */
  lemma {:induction false} FlatNormalsLastWriter(vs: seq<Vertex>, idx: seq<nat>, t: nat)
    ensures forall v :: 0 <= v < |vs| ==>
      FlatNormalsUpTo(vs, idx, t)[v].normal
      == (if LastTouch(vs, idx, t, v) < 0 then vs[v].normal
          else TriangleNormal(vs, idx, 3 * LastTouch(vs, idx, t, v)))
  {
    if t > 0 {
      FlatNormalsLastWriter(vs, idx, t - 1);
      var w := FlatNormalsUpTo(vs, idx, t - 1);
      var i := 3 * (t - 1);
      if Complete(vs, idx, i) {
        assert Complete(w, idx, i);
        assert TriangleNormal(w, idx, i) == TriangleNormal(vs, idx, i);
      } else {
        assert !Complete(w, idx, i);
      }
    }
  }

  /** A finished mesh: its vertices, indices, name and the state of its material
      (None for a mesh drawn without one). */
  datatype MeshData = MeshData(vertices: seq<Vertex>, indices: seq<nat>, name: string,
                               material: Option<MaterialData>)

  /** The parse state, the meshes finished so far, the materials the libraries read so
      far define (by name), and the material chosen for the current mesh. */
  datatype ObjState = ObjState(parse: ParseState, meshes: seq<MeshData>,
                               known: map<string, MaterialData>, current: Option<MaterialData>)

  const EmptyObjState := ObjState(EmptyState, [], map[], None)

  /** The material a name's preset gives, or None when the name selects no preset. */
  function PresetMaterial(name: string): Option<MaterialData> {
    match Mtl.DetectPreset(name)
    case Some(p) => Some(Mtl.PresetData(p, name))
    case None => None
  }

  /** The material `finalizeMesh` gives a mesh: the current one, else the preset the
      mesh's name selects, else none. */
  function MeshMaterialOf(current: Option<MaterialData>, meshName: string): Option<MaterialData> {
    if current.Some? then current else PresetMaterial(meshName)
  }

  /** `finalizeMesh`: a current mesh with vertices and indices becomes a finished mesh,
      with face normals when the file declared no normals at all, named after the
      current object or numbered, with the current material or its name's preset;
      the per-mesh state and the current material are then cleared. */
  function Finalize(os: ObjState): ObjState
  {
    var st := os.parse;
    if st.vertices != [] && st.indices != [] then
      var name := MeshName(st.objectName, |os.meshes|);
      ObjState(HandedOver(st),
               os.meshes + [MeshData(FinishedVertices(st), st.indices, name, MeshMaterialOf(os.current, name))],
               os.known, None)
    else os
  }

  /** The pools and the known materials are kept; nothing happens to an empty current
      mesh; otherwise one mesh holding its indices, as many vertices, its name and the
      current material (or, when there is none, its name's preset) is appended, and
      the current mesh and the current material are cleared. */
  lemma FinalizeShape(os: ObjState)
    ensures var r := Finalize(os);
      r.parse.positions == os.parse.positions && r.parse.normals == os.parse.normals
      && r.parse.texCoords == os.parse.texCoords && r.known == os.known
      && (os.parse.vertices == [] || os.parse.indices == [] ==> r == os)
      && (os.parse.vertices != [] && os.parse.indices != [] ==>
            r.parse.vertices == [] && r.parse.indices == [] && r.parse.vertexMap == map[]
            && r.parse.objectName == [] && r.current.None?
            && |r.meshes| == |os.meshes| + 1 && r.meshes[..|os.meshes|] == os.meshes
            && r.meshes[|os.meshes|].indices == os.parse.indices
            && |r.meshes[|os.meshes|].vertices| == |os.parse.vertices|
            && r.meshes[|os.meshes|].name == MeshName(os.parse.objectName, |os.meshes|)
            && (os.current.Some? ==> r.meshes[|os.meshes|].material == os.current)
            && (os.current.None? ==>
                  (r.meshes[|os.meshes|].material.None? <==> Mtl.DetectPreset(r.meshes[|os.meshes|].name).None?)))
  {
  }

  /** The vertices of a finished mesh: with face normals when the file declared no
      normals, as they are otherwise. */
  function FinishedVertices(st: ParseState): (r: seq<Vertex>)
    ensures |r| == |st.vertices|
  {
    if st.normals == [] then FlatNormals(st.vertices, st.indices) else st.vertices
  }

  /** The state once the current mesh is handed over: pools kept, the rest cleared. */
  function HandedOver(st: ParseState): ParseState {
    st.(vertices := [], indices := [], vertexMap := map[], objectName := "")
  }

  /** In a consistent state the current mesh has vertices exactly when it has indices,
      so `finalizeMesh`'s two tests are one. */
  lemma VerticesIffIndices(st: ParseState)
    requires Consistent(st)
    ensures st.vertices != [] <==> st.indices != []
  {
    if st.vertices != [] {
      assert 0 in st.indices;
    }
    if st.indices != [] {
      assert st.indices[0] < |st.vertices|;
    }
  }

  /** The name an `o` line without a name gets: "Objeto_<k>", k one more than the
      meshes already finished. */
  function DefaultObjectName(meshCount: nat): (r: string)
    ensures r != []
  {
    "Objeto_" + NatToString(meshCount + 1)
  }

  /** What a directive other than `o` does to the parse state: `v`, `vn` and `vt`
      grow their pool, `f` adds its corners, and a directive whose handler throws, a
      material directive or a line the loader ignores leaves it as it was. */
  function ParseStep(st: ParseState, d: Directive): ParseState {
    match d
    case VertexDef(p) =>
      if p.Some? then st.(positions := st.positions + [p.value]) else st
    case NormalDef(raw) =>
      if raw.Some? then st.(normals := st.normals + [NormalOf(raw.value)]) else st
    case TexCoordDef(uv) =>
      if uv.Some? then st.(texCoords := st.texCoords + [uv.value]) else st
    case FaceDef(refs) =>
      if refs.Some? then FaceUpdate(st, refs.value) else st
    case _ => st
  }

  /** Where `parseMaterialLib` looks for a library: next to the OBJ file. */
  function LibraryPath(objPath: string, file: string): string {
    JoinPath(ParentPath(objPath), file)
  }

  /** The materials an `mtllib` line contributes: those of the library it names, read
      from `fs`; none when it names nothing or the library cannot be opened. */
  function Library(fs: map<string, seq<string>>, objPath: string, file: Option<string>)
    : map<string, MaterialData>
  {
    if file.Some? && LibraryPath(objPath, file.value) in fs
    then Mtl.MtlSpec(fs[LibraryPath(objPath, file.value)])
    else map[]
  }

  /** The material `usemtl name` selects: the known one of that name, else a default
      material carrying the name. */
  function UsedMaterial(known: map<string, MaterialData>, name: string): MaterialData {
    if name in known then known[name] else DefaultData(name)
  }

  /** What one directive does to the state, the libraries it may name being read from
      `fs` next to `objPath`: `o` finishes the current mesh and names the next one,
      `mtllib` adds a library's materials (a name already known taking the new
      material), `usemtl` with a name selects the current material, and every other
      directive only changes the parse state. */
  function ObjStep(os: ObjState, d: Directive, fs: map<string, seq<string>>, objPath: string): ObjState {
    match d
    case ObjectDef(name) =>
      var f := Finalize(os);
      f.(parse := f.parse.(objectName := name.GetOr(DefaultObjectName(|f.meshes|))))
    case MaterialLibDef(file) =>
      os.(known := os.known + Library(fs, objPath, file))
    case UseMaterialDef(name) =>
      if name.Some? then os.(current := Some(UsedMaterial(os.known, name.value))) else os
    case _ => os.(parse := ParseStep(os.parse, d))
  }

  /** The state after the first `n` directives. */
  function ObjUpTo(ds: seq<Directive>, n: nat, fs: map<string, seq<string>>, objPath: string): ObjState
    requires n <= |ds|
  {
    if n == 0 then EmptyObjState else ObjStep(ObjUpTo(ds, n - 1, fs, objPath), ds[n - 1], fs, objPath)
  }

  /** The directives of a file, line by line. */
  function Directives(lines: seq<string>): (ds: seq<Directive>)
    ensures |ds| == |lines|
  {
    if lines == [] then [] else Directives(lines[..|lines| - 1]) + [ReadDirective(lines[|lines| - 1])]
  }

  /** Directive j is what line j reads as. */
  lemma {:induction false} DirectiveAt(lines: seq<string>, j: nat)
    requires j < |lines|
    ensures Directives(lines)[j] == ReadDirective(lines[j])
    decreases |lines|
  {
    if j < |lines| - 1 {
      DirectiveAt(lines[..|lines| - 1], j);
    }
  }

  /** The meshes `loadModel` builds from a file: every directive, then a last
      `finalizeMesh`. */
  function ObjMeshes(lines: seq<string>, fs: map<string, seq<string>>, objPath: string): seq<MeshData> {
    var ds := Directives(lines);
    Finalize(ObjUpTo(ds, |ds|, fs, objPath)).meshes
  }

  /** A mesh the renderer can draw: at least one triangle, whole triangles, every
      index naming one of its vertices, and a name. */
  predicate MeshOk(m: MeshData) {
    m.indices != [] && |m.indices| % 3 == 0
    && (forall k :: 0 <= k < |m.indices| ==> m.indices[k] < |m.vertices|)
    && m.name != []
  }

  /** The current mesh is well indexed and every finished mesh is drawable. */
  ghost predicate ObjInvariant(os: ObjState) {
    WellIndexed(os.parse) && forall j :: 0 <= j < |os.meshes| ==> MeshOk(os.meshes[j])
  }

  /** Finishing a well-indexed mesh yields a drawable mesh and an empty current one. */
  lemma FinalizeKeeps(os: ObjState)
    requires ObjInvariant(os)
    ensures ObjInvariant(Finalize(os))
  {
    var r := Finalize(os);
    if os.parse.vertices != [] && os.parse.indices != [] {
      var m := r.meshes[|os.meshes|];
      assert MeshOk(m);
      assert forall j :: 0 <= j < |os.meshes| ==> r.meshes[j] == os.meshes[j];
    }
  }

  /** Every directive keeps the invariant, and finished meshes are never changed. */
  lemma ObjStepKeeps(os: ObjState, d: Directive, fs: map<string, seq<string>>, objPath: string)
    requires ObjInvariant(os)
    ensures ObjInvariant(ObjStep(os, d, fs, objPath))
    ensures |os.meshes| <= |ObjStep(os, d, fs, objPath).meshes|
    ensures ObjStep(os, d, fs, objPath).meshes[..|os.meshes|] == os.meshes
  {
    var r := ObjStep(os, d, fs, objPath);
    if d.ObjectDef? {
      FinalizeKeeps(os);
      FinalizeShape(os);
    } else {
      assert r.meshes == os.meshes && r.parse == ParseStep(os.parse, d);
      ParseStepKeeps(os.parse, d);
    }
  }

  /** Directives other than `o` keep the current mesh well indexed. */
  lemma ParseStepKeeps(st: ParseState, d: Directive)
    requires WellIndexed(st)
    ensures WellIndexed(ParseStep(st, d))
  {
    if d.FaceDef? && d.refs.Some? {
      FaceUpdateWellIndexed(st, d.refs.value);
    }
  }

  /** The invariant holds after any number of directives. */
  lemma {:induction false} ObjUpToKeeps(ds: seq<Directive>, n: nat, fs: map<string, seq<string>>, objPath: string)
    requires n <= |ds|
    ensures ObjInvariant(ObjUpTo(ds, n, fs, objPath))
  {
    if n > 0 {
      ObjUpToKeeps(ds, n - 1, fs, objPath);
      ObjStepKeeps(ObjUpTo(ds, n - 1, fs, objPath), ds[n - 1], fs, objPath);
    }
  }

  /** Every mesh loaded from any file has a triangle, whole triangles, indices inside
      its vertex list and a name. */
  lemma ObjMeshesDrawable(lines: seq<string>, fs: map<string, seq<string>>, objPath: string)
    ensures forall j :: 0 <= j < |ObjMeshes(lines, fs, objPath)| ==> MeshOk(ObjMeshes(lines, fs, objPath)[j])
  {
    var ds := Directives(lines);
    ObjUpToKeeps(ds, |ds|, fs, objPath);
    FinalizeKeeps(ObjUpTo(ds, |ds|, fs, objPath));
  }

  // The material chain: which material each finished mesh receives.

  /** A `usemtl` line that names a material. */
  predicate SelectsMaterial(d: Directive) {
    d.UseMaterialDef? && d.material.Some?
  }

  /** The materials of the libraries the first directives name, merged in order, a
      later library's material replacing an earlier one of the same name. */
  function LibrariesRead(ds: seq<Directive>, fs: map<string, seq<string>>, objPath: string)
    : map<string, MaterialData>
  {
    if ds == [] then map[]
    else
      var prior := LibrariesRead(ds[..|ds| - 1], fs, objPath);
      match ds[|ds| - 1]
      case MaterialLibDef(file) => prior + Library(fs, objPath, file)
      case _ => prior
  }

  /** The known materials after any number of directives are exactly those of the
      libraries named so far: nothing else adds, removes or changes one. */
  lemma {:induction false} KnownIsLibrariesRead(ds: seq<Directive>, n: nat, fs: map<string, seq<string>>,
                                                objPath: string)
    requires n <= |ds|
    ensures ObjUpTo(ds, n, fs, objPath).known == LibrariesRead(ds[..n], fs, objPath)
  {
    if n > 0 {
      KnownIsLibrariesRead(ds, n - 1, fs, objPath);
      assert ds[..n][..n - 1] == ds[..n - 1];
      var os := ObjUpTo(ds, n - 1, fs, objPath);
      match ds[n - 1]
      case ObjectDef(_) =>
        FinalizeShape(os);
      case _ =>
    }
  }

  /** A directive keeps the finished meshes as a prefix. */
  lemma ObjStepExtends(os: ObjState, d: Directive, fs: map<string, seq<string>>, objPath: string)
    ensures |os.meshes| <= |ObjStep(os, d, fs, objPath).meshes|
    ensures ObjStep(os, d, fs, objPath).meshes[..|os.meshes|] == os.meshes
  {
    if d.ObjectDef? {
      FinalizeShape(os);
    }
  }

  /** The number of finished meshes never falls. */
  lemma {:induction false} MeshCountGrows(ds: seq<Directive>, j: nat, n: nat,
                                          fs: map<string, seq<string>>, objPath: string)
    requires j <= n <= |ds|
    ensures |ObjUpTo(ds, j, fs, objPath).meshes| <= |ObjUpTo(ds, n, fs, objPath).meshes|
  {
    if j < n {
      MeshCountGrows(ds, j, n - 1, fs, objPath);
      ObjStepExtends(ObjUpTo(ds, n - 1, fs, objPath), ds[n - 1], fs, objPath);
    }
  }

  /** Between two points at which no mesh was finished and no `usemtl` line named a
      material, the current material stays what it was. */
  lemma {:induction false} CurrentPersists(ds: seq<Directive>, j: nat, n: nat,
                                           fs: map<string, seq<string>>, objPath: string)
    requires j <= n <= |ds|
    requires forall i :: j <= i < n ==> !SelectsMaterial(ds[i])
    requires |ObjUpTo(ds, n, fs, objPath).meshes| == |ObjUpTo(ds, j, fs, objPath).meshes|
    ensures ObjUpTo(ds, n, fs, objPath).current == ObjUpTo(ds, j, fs, objPath).current
  {
    if j < n {
      var os := ObjUpTo(ds, n - 1, fs, objPath);
      MeshCountGrows(ds, j, n - 1, fs, objPath);
      ObjStepExtends(os, ds[n - 1], fs, objPath);
      CurrentPersists(ds, j, n - 1, fs, objPath);
      FinalizeShape(os);
      assert !SelectsMaterial(ds[n - 1]);
    }
  }

  /** The last `usemtl name` before a mesh is finished decides the mesh's material: the
      material of that name among those the libraries read before it define, or a
      default one carrying the name. That holds whether the mesh is finished by an `o`
      line or at the end of the file. */
  lemma LastSelectionWins(ds: seq<Directive>, j: nat, n: nat, fs: map<string, seq<string>>, objPath: string)
    requires j < n <= |ds| && SelectsMaterial(ds[j])
    requires forall i :: j < i < n ==> !SelectsMaterial(ds[i])
    requires |ObjUpTo(ds, n, fs, objPath).meshes| == |ObjUpTo(ds, j, fs, objPath).meshes|
    ensures var chosen := UsedMaterial(LibrariesRead(ds[..j], fs, objPath), ds[j].material.value);
      var os := ObjUpTo(ds, n, fs, objPath);
      os.current == Some(chosen)
      && (os.parse.vertices != [] && os.parse.indices != [] ==>
            Finalize(os).meshes[|os.meshes|].material == Some(chosen))
  {
    KnownIsLibrariesRead(ds, j, fs, objPath);
    MeshCountGrows(ds, j, j + 1, fs, objPath);
    MeshCountGrows(ds, j + 1, n, fs, objPath);
    CurrentPersists(ds, j + 1, n, fs, objPath);
  }

  /** Once a mesh is finished, or at the start, the next mesh's material is chosen
      afresh: with no `usemtl` naming a material before it is finished, it gets the
      preset its name selects, or none. */
  lemma NoSelectionMeansPreset(ds: seq<Directive>, j: nat, n: nat, fs: map<string, seq<string>>, objPath: string)
    requires j <= n <= |ds| && ObjUpTo(ds, j, fs, objPath).current.None?
    requires forall i :: j <= i < n ==> !SelectsMaterial(ds[i])
    requires |ObjUpTo(ds, n, fs, objPath).meshes| == |ObjUpTo(ds, j, fs, objPath).meshes|
    ensures var os := ObjUpTo(ds, n, fs, objPath);
      os.current.None?
      && (os.parse.vertices != [] && os.parse.indices != [] ==>
            Finalize(os).meshes[|os.meshes|].material == PresetMaterial(Finalize(os).meshes[|os.meshes|].name))
  {
    CurrentPersists(ds, j, n, fs, objPath);
  }

  /** A file with no `usemtl` line naming a material gives every mesh the preset its
      name selects, or none, whatever libraries it reads. */
  lemma NoSelectionAllPresets(lines: seq<string>, fs: map<string, seq<string>>, objPath: string)
    requires forall i :: 0 <= i < |lines| ==> !SelectsMaterial(ReadDirective(lines[i]))
    ensures forall k :: 0 <= k < |ObjMeshes(lines, fs, objPath)| ==>
      ObjMeshes(lines, fs, objPath)[k].material == PresetMaterial(ObjMeshes(lines, fs, objPath)[k].name)
  {
    var ds := Directives(lines);
    forall i | 0 <= i < |ds|
      ensures !SelectsMaterial(ds[i])
    {
      DirectiveAt(lines, i);
    }
    PresetsUpTo(ds, |ds|, fs, objPath);
    var os := ObjUpTo(ds, |ds|, fs, objPath);
    FinalizeShape(os);
  }

  /** With no material selected, the current material stays None and every finished
      mesh carries its name's preset. */
  lemma {:induction false} PresetsUpTo(ds: seq<Directive>, n: nat, fs: map<string, seq<string>>, objPath: string)
    requires n <= |ds|
    requires forall i :: 0 <= i < n ==> !SelectsMaterial(ds[i])
    ensures ObjUpTo(ds, n, fs, objPath).current.None?
    ensures forall k :: 0 <= k < |ObjUpTo(ds, n, fs, objPath).meshes| ==>
      ObjUpTo(ds, n, fs, objPath).meshes[k].material == PresetMaterial(ObjUpTo(ds, n, fs, objPath).meshes[k].name)
  {
    if n > 0 {
      PresetsUpTo(ds, n - 1, fs, objPath);
      var os := ObjUpTo(ds, n - 1, fs, objPath);
      ObjStepExtends(os, ds[n - 1], fs, objPath);
      FinalizeShape(os);
      assert !SelectsMaterial(ds[n - 1]);
      var r := ObjUpTo(ds, n, fs, objPath);
      forall k | 0 <= k < |r.meshes|
        ensures r.meshes[k].material == PresetMaterial(r.meshes[k].name)
      {
        if k < |os.meshes| {
          assert r.meshes[k] == r.meshes[..|os.meshes|][k];
        }
      }
    }
  }
}
