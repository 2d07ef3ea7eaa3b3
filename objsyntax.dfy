/** The pure parts of the OBJ reader (ModelLoader.cpp): how a trimmed line is
    dispatched, how the numbers of `v`/`vn`/`vt` lines and the references of `f`
    lines are read, how references resolve against the pools, the key that
    deduplicates vertices, fan triangulation and the names given to objects and meshes. */
module ObjSyntax {
  import opened Wrappers
  import opened Text
  import opened Geometry

  datatype LineKind =
    | Ignored
    | VertexLine
    | NormalLine
    | TexCoordLine
    | FaceLine
    | ObjectLine
    | MaterialLibLine
    | UseMaterialLine

  /** The first token of a string that starts with a non-space character is its
      leading run of non-space characters. */
  lemma {:induction false} FirstToken(t: string)
    requires t != [] && !IsSpace(t[0])
    ensures Tokens(t) != [] && Tokens(t)[0] == t[..WordLength(t)]
  {
  }

  /** `parseLine`'s dispatch on the trimmed line: blank and '#' lines and lines
      shorter than two characters are ignored; "v " is checked before the bare prefixes
      "vn" and "vt", then "f ", "o ", and the six-character prefixes "mtllib" and "usemtl".
      Each directive is the first token the handler then skips. */
  function Classify(t: string): (k: LineKind)
    ensures k != Ignored ==> |t| >= 2 && t[0] != '#' && Tokens(t) != []
    ensures k == VertexLine ==> Tokens(t)[0] == "v"
    ensures k == FaceLine ==> Tokens(t)[0] == "f"
    ensures k == ObjectLine ==> Tokens(t)[0] == "o"
    ensures k == NormalLine ==> StartsWith(Tokens(t)[0], "vn")
    ensures k == TexCoordLine ==> StartsWith(Tokens(t)[0], "vt")
    ensures k == MaterialLibLine ==> StartsWith(Tokens(t)[0], "mtllib")
    ensures k == UseMaterialLine ==> StartsWith(Tokens(t)[0], "usemtl")
  {
    if t == [] || t[0] == '#' || |t| < 2 || IsSpace(t[0]) then Ignored
    else
      FirstToken(t);
      if t[0] == 'v' && t[1] == ' ' then VertexLine
      else if t[..2] == "vn" then NormalLine
      else if t[..2] == "vt" then TexCoordLine
      else if t[0] == 'f' && t[1] == ' ' then FaceLine
      else if t[0] == 'o' && t[1] == ' ' then ObjectLine
      else if StartsWith(t, "mtllib") then MaterialLibLine
      else if StartsWith(t, "usemtl") then UseMaterialLine
      else Ignored
  }

  /** The three numbers after the directive of a `v` or `vn` line; None when one is
      missing or malformed (the handler then throws). */
  function ReadVec3(toks: seq<string>): (r: Option<Vec3>)
    ensures r.Some? <==> |toks| >= 4 && ParseReal(toks[1]).Some? && ParseReal(toks[2]).Some?
                                     && ParseReal(toks[3]).Some?
  {
    if |toks| >= 4 then
      match (ParseReal(toks[1]), ParseReal(toks[2]), ParseReal(toks[3]))
      case (Some(x), Some(y), Some(z)) => Some(Vec3(x, y, z))
      case _ => None
    else None
  }

  /** The numbers of a `vt` line: `u` is required, a missing or malformed `v` reads as 0. */
  function ReadTexCoord(toks: seq<string>): (r: Option<Vec2>)
    ensures r.Some? <==> |toks| >= 2 && ParseReal(toks[1]).Some?
    ensures r.Some? ==> r.value.u == ParseReal(toks[1]).value
    ensures r.Some? && (|toks| < 3 || ParseReal(toks[2]).None?) ==> r.value.v == 0.0
  {
    if |toks| >= 2 && ParseReal(toks[1]).Some? then
      var v := if |toks| >= 3 then ParseReal(toks[2]).GetOr(0.0) else 0.0;
      Some(Vec2(ParseReal(toks[1]).value, v))
    else None
  }

  /** The normal a `vn` line stores: the unit vector along a non-zero raw vector, the
      raw (zero) vector otherwise. */
  function NormalOf(raw: Vec3): (n: Normal)
    ensures n == NoNormal <==> raw == Zero3
  {
    if raw == Zero3 then Exact(raw) else UnitOf(raw)
  }

  /** A face reference: position, texture-coordinate and normal indices, one-based or
      negative (relative to the end) as written in the file, or zero-based once
      resolved. -1 is the default of an omitted component. */
  datatype FaceIndex = FaceIndex(position: int, texCoord: int, normal: int)

  /** A face reference as written, omitted components kept apart from given ones. */
  datatype FaceRef = FaceRef(position: Option<int>, texCoord: Option<int>, normal: Option<int>)

  /** Component `k` of a reference split on '/': Some(None) when missing or empty,
      Some(Some(v)) for a number, None when `stoi` would throw. */
  function Component(parts: seq<string>, k: nat): (r: Option<Option<int>>)
    ensures r == None <==> k < |parts| && parts[k] != [] && ParseInt(parts[k]).None?
    ensures r == Some(None) <==> k >= |parts| || parts[k] == []
  {
    if k < |parts| && parts[k] != [] then
      match ParseInt(parts[k])
      case Some(v) => Some(Some(v))
      case None => None
    else Some(None)
  }

  /** The reference `p`, `p/t`, `p//n`, `p/t/n` (further fields ignored), or None when
      a non-empty component is not a number. */
  function ParseFaceRef(s: string): (r: Option<FaceRef>)
    ensures r.Some? <==> Component(Split(s, '/'), 0).Some? && Component(Split(s, '/'), 1).Some?
                         && Component(Split(s, '/'), 2).Some?
  {
    var parts := Split(s, '/');
    match (Component(parts, 0), Component(parts, 1), Component(parts, 2))
    case (Some(p), Some(t), Some(n)) => Some(FaceRef(p, t, n))
    case _ => None
  }

  /** `p//n` gives the position and normal with the texture coordinate omitted. */
  lemma PositionNormalReference()
    ensures ParseFaceIndex("1//3") == Some(FaceIndex(1, -1, 3))
  {
    SplitPositionNormal();
    var parts := Split("1//3", '/');
    assert Component(parts, 0) == Some(Some(1)) by {
      assert parts[0] == "1" && DigitsValue("1") == 1;
    }
    assert Component(parts, 1) == Some(None);
    assert Component(parts, 2) == Some(Some(3)) by {
      assert parts[2] == "3" && DigitsValue("3") == 3;
    }
    assert ParseFaceRef("1//3") == Some(FaceRef(Some(1), None, Some(3)));
  }

  lemma SplitPositionNormal()
    ensures Split("1//3", '/') == ["1", "", "3"]
  {
    assert IndexOfChar("3", '/') == 1;
    assert Split("3", '/') == ["3"];
    assert IndexOfChar("/3", '/') == 0 && "/3"[1..] == "3";
    assert Split("/3", '/') == [""] + Split("3", '/');
    assert IndexOfChar("1//3", '/') == 1 && "1//3"[2..] == "/3" && "1//3"[..1] == "1";
    assert "/3"[..0] == "";
    assert Split("1//3", '/') == ["1"] + Split("/3", '/');
  }

  /** `parseFaceIndex`: omitted components become -1; None when `stoi` throws. */
  function ParseFaceIndex(s: string): (r: Option<FaceIndex>)
    ensures r.Some? <==> ParseFaceRef(s).Some?
    ensures r.Some? ==> r.value.texCoord == ParseFaceRef(s).value.texCoord.GetOr(-1)
                        && r.value.position == ParseFaceRef(s).value.position.GetOr(-1)
                        && r.value.normal == ParseFaceRef(s).value.normal.GetOr(-1)
  {
    match ParseFaceRef(s)
    case Some(f) => Some(FaceIndex(f.position.GetOr(-1), f.texCoord.GetOr(-1), f.normal.GetOr(-1)))
    case None => None
  }

  /** One component of `makeAbsolute`: a negative index counts back from the end of a
      pool of `count` entries (-1 the last), then one-based becomes zero-based; 0 and
      indices still negative stay as they are. */
  function ResolveIndex(i: int, count: nat): (j: int)
    ensures 1 <= i ==> j == i - 1
    ensures i <= -1 && 0 <= count + i ==> j == count + i
    ensures i == 0 || count + i < 0 ==> j == (if i == 0 then 0 else count + i + 1)
  {
    var k := if i < 0 then count + i + 1 else i;
    if k > 0 then k - 1 else k
  }

  /** `makeAbsolute` as written: resolves all three components, including the -1 of
      an omitted one. */
  function MakeAbsolute(f: FaceIndex, posCount: nat, texCount: nat, normCount: nat): (r: FaceIndex)
    ensures r.position == ResolveIndex(f.position, posCount)
    ensures r.texCoord == ResolveIndex(f.texCoord, texCount)
    ensures r.normal == ResolveIndex(f.normal, normCount)
  {
    FaceIndex(ResolveIndex(f.position, posCount), ResolveIndex(f.texCoord, texCount),
              ResolveIndex(f.normal, normCount))
  }

  /** As written, an omitted texture coordinate or normal resolves to the last one
      declared so far, not to "none": after one `vt` line, `f 1 2 3` gives every
      vertex that texture coordinate. */
  lemma OmittedComponentTakesLast(texCount: nat, normCount: nat)
    requires texCount >= 1 && normCount >= 1
    ensures ParseFaceIndex("1") == Some(FaceIndex(1, -1, -1))
    ensures MakeAbsolute(FaceIndex(1, -1, -1), 3, texCount, normCount)
            == FaceIndex(0, texCount - 1, normCount - 1)
  {
    assert Split("1", '/') == ["1"];
    assert ParseInt("1") == Some(1);
  }

  /** The evidently intended resolution: given components resolve as `makeAbsolute`
      does, omitted ones stay -1 ("none"). */
  function Resolve(f: FaceRef, posCount: nat, texCount: nat, normCount: nat): (r: FaceIndex)
    ensures f.position.None? ==> r.position == -1
    ensures f.texCoord.None? ==> r.texCoord == -1
    ensures f.normal.None? ==> r.normal == -1
    ensures f.position.Some? ==> r.position == ResolveIndex(f.position.value, posCount)
    ensures f.texCoord.Some? ==> r.texCoord == ResolveIndex(f.texCoord.value, texCount)
    ensures f.normal.Some? ==> r.normal == ResolveIndex(f.normal.value, normCount)
  {
    FaceIndex(
      if f.position.Some? then ResolveIndex(f.position.value, posCount) else -1,
      if f.texCoord.Some? then ResolveIndex(f.texCoord.value, texCount) else -1,
      if f.normal.Some? then ResolveIndex(f.normal.value, normCount) else -1)
  }

  /** The corrected resolution agrees with `makeAbsolute` on every reference that
      gives all three components. */
  lemma ResolveAgreesWhenComplete(f: FaceRef, pc: nat, tc: nat, nc: nat)
    requires f.position.Some? && f.texCoord.Some? && f.normal.Some?
    ensures Resolve(f, pc, tc, nc)
            == MakeAbsolute(FaceIndex(f.position.value, f.texCoord.value, f.normal.value), pc, tc, nc)
  {
  }

  /** `getKey`: the three resolved indices in decimal, separated by '/'. */
  function GetKey(f: FaceIndex): string {
    IntToString(f.position) + "/" + IntToString(f.texCoord) + "/" + IntToString(f.normal)
  }

  /** A key splits back into the decimal forms of its three indices. */
  lemma {:induction false} GetKeySplits(f: FaceIndex)
    ensures Split(GetKey(f), '/') == [IntToString(f.position), IntToString(f.texCoord), IntToString(f.normal)]
  {
    var a, b, c := IntToString(f.position), IntToString(f.texCoord), IntToString(f.normal);
    JoinThree(a, b, c, '/');
    SplitJoinWith([a, b, c], '/');
  }

  /** Distinct references have distinct keys, so deduplication never merges two of them. */
  lemma {:induction false} GetKeyInjective(a: FaceIndex, b: FaceIndex)
    ensures GetKey(a) == GetKey(b) ==> a == b
  {
    if GetKey(a) == GetKey(b) {
      GetKeySplits(a);
      GetKeySplits(b);
      IntToStringInjective(a.position, b.position);
      IntToStringInjective(a.texCoord, b.texCoord);
      IntToStringInjective(a.normal, b.normal);
    }
  }

  /** The indices triangles 0, i-1, i (for i = 2 .. n-1) contribute for the first n
      corners of a polygon. */
  function FanUpTo<T>(ids: seq<T>, n: nat): (r: seq<T>)
    requires 2 <= n <= |ids|
    ensures |r| == 3 * (n - 2)
    decreases n
  {
    if n == 2 then [] else FanUpTo(ids, n - 1) + [ids[0], ids[n - 2], ids[n - 1]]
  }

  /** Triangle t of the first n corners is (0, t+1, t+2). */
  lemma {:induction false} FanUpToCorners<T>(ids: seq<T>, n: nat)
    requires 2 <= n <= |ids|
    ensures var r := FanUpTo(ids, n);
      forall t :: 0 <= t < n - 2 ==>
        r[3 * t] == ids[0] && r[3 * t + 1] == ids[t + 1] && r[3 * t + 2] == ids[t + 2]
    decreases n
  {
    if n > 2 {
      FanUpToCorners(ids, n - 1);
    }
  }

  /** Fan triangulation of a polygon: n - 2 triangles (0, i-1, i); nothing for fewer
      than three corners. */
  function Fan<T>(ids: seq<T>): (r: seq<T>)
    ensures |ids| < 3 ==> r == []
    ensures |ids| >= 3 ==> |r| == 3 * (|ids| - 2)
  {
    if |ids| < 3 then [] else FanUpTo(ids, |ids|)
  }

  /** Triangle t of the fan is (0, t+1, t+2). */
  lemma FanCorners<T>(ids: seq<T>)
    ensures var r := Fan(ids);
      forall t :: 0 <= t < |ids| - 2 ==>
        r[3 * t] == ids[0] && r[3 * t + 1] == ids[t + 1] && r[3 * t + 2] == ids[t + 2]
  {
    if |ids| >= 3 {
      FanUpToCorners(ids, |ids|);
    }
  }

  /** The fan of a polygon depends only on its first n corners. */
  lemma {:induction false} FanUpToPrefix<T>(a: seq<T>, b: seq<T>, n: nat)
    requires 2 <= n <= |a| && n <= |b| && a[..n] == b[..n]
    ensures FanUpTo(a, n) == FanUpTo(b, n)
    decreases n
  {
    if n > 2 {
      assert a[..n - 1] == a[..n][..n - 1] && b[..n - 1] == b[..n][..n - 1];
      FanUpToPrefix(a, b, n - 1);
      assert a[0] == a[..n][0] && a[n - 2] == a[..n][n - 2] && a[n - 1] == a[..n][n - 1];
      assert b[0] == b[..n][0] && b[n - 2] == b[..n][n - 2] && b[n - 1] == b[..n][n - 1];
    }
  }

  /** A quad a b c d becomes the triangles a b c and a c d. */
  lemma QuadFan(a: nat, b: nat, c: nat, d: nat)
    ensures Fan([a, b, c, d]) == [a, b, c, a, c, d]
  {
    var r := Fan([a, b, c, d]);
    FanCorners([a, b, c, d]);
    assert |r| == 6;
    assert r[3 * 0] == a && r[3 * 0 + 1] == b && r[3 * 0 + 2] == c;
    assert r[3 * 1] == a && r[3 * 1 + 1] == c && r[3 * 1 + 2] == d;
  }

  /** The name `finalizeMesh` gives a mesh: the current object name, or "Mesh_<k>" with
      k one more than the meshes already in the model. */
  function MeshName(objectName: string, meshCount: nat): (r: string)
    ensures r != []
    ensures objectName != [] ==> r == objectName
  {
    if objectName == [] then "Mesh_" + NatToString(meshCount + 1) else objectName
  }
}
