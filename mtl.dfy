/** Material libraries (the MTL half of ModelLoader.cpp): recognising well-known
    material names, reading `newmtl` and property lines, and loading a whole `.mtl`
    file into named, freshly allocated materials. */
module Mtl {
  import opened Wrappers
  import opened Text
  import opened Geometry
  import opened Materials
  import ObjSyntax

  /** The preset a material name selects. */
  datatype Preset =
    | GlassPreset
    | MetalPreset(color: Vec3)
    | LightPreset(emission: Vec3)
    | PlasticPreset

  predicate Mentions(lower: string, a: string, b: string) {
    Contains(lower, a) || Contains(lower, b)
  }

  predicate IsGlassName(lower: string) { Mentions(lower, "glass", "vidro") }
  predicate IsMetalName(lower: string) { Mentions(lower, "metal", "steel") }
  predicate IsLightName(lower: string) { Mentions(lower, "light", "lamp") }
  predicate IsPlasticName(lower: string) {
    Mentions(lower, "plastic", "plastico") || Mentions(lower, "rubber", "borracha")
  }

  /** The metal colour a (lower-cased) name picks: copper, brass, gold, else grey. */
  function MetalColor(lower: string): Vec3 {
    if Mentions(lower, "copper", "cobre") then Vec3(0.72, 0.45, 0.20)
    else if Contains(lower, "brass") then Vec3(0.71, 0.65, 0.26)
    else if Mentions(lower, "gold", "ouro") then Vec3(1.0, 0.84, 0.0)
    else Vec3(0.7, 0.7, 0.7)
  }

  /** The emission a (lower-cased) light name picks: red, blue, green, else warm white. */
  function LightColor(lower: string): Vec3 {
    if Mentions(lower, "red", "vermelho") then Vec3(1.0, 0.2, 0.2)
    else if Mentions(lower, "blue", "azul") then Vec3(0.2, 0.2, 1.0)
    else if Mentions(lower, "green", "verde") then Vec3(0.2, 1.0, 0.2)
    else Vec3(1.0, 1.0, 0.8)
  }

  /** `detectMaterialFromName`'s decision: the keywords are searched in the lower-cased
      name, glass first, then metal, light and plastic; None when none occurs. */
  function DetectPreset(name: string): (r: Option<Preset>)
    ensures r == Some(GlassPreset) <==> IsGlassName(ToLower(name))
    ensures r.Some? && r.value.MetalPreset? <==> !IsGlassName(ToLower(name)) && IsMetalName(ToLower(name))
    ensures r.Some? && r.value.LightPreset? <==>
      !IsGlassName(ToLower(name)) && !IsMetalName(ToLower(name)) && IsLightName(ToLower(name))
    ensures r.None? <==>
      !IsGlassName(ToLower(name)) && !IsMetalName(ToLower(name)) && !IsLightName(ToLower(name))
      && !IsPlasticName(ToLower(name))
  {
    var lower := ToLower(name);
    if IsGlassName(lower) then Some(GlassPreset)
    else if IsMetalName(lower) then Some(MetalPreset(MetalColor(lower)))
    else if IsLightName(lower) then Some(LightPreset(LightColor(lower)))
    else if IsPlasticName(lower) then Some(PlasticPreset)
    else None
  }

  /** Detection ignores case: a name and its lower-cased form select the same preset. */
  lemma {:induction false} DetectPresetIgnoresCase(name: string)
    ensures DetectPreset(ToLower(name)) == DetectPreset(name)
  {
    ToLowerIdempotent(name);
  }

  /** The light preset: an emissive material keeping the given name, light albedo. */
  function LightData(name: string, emission: Vec3): (r: MaterialData)
    ensures r.name == name && r.kind == Emissive && r.emissive == emission
    ensures r.IsEmissive() && !r.IsTransparent()
  {
    TypedData(Emissive, name).(emissive := emission, albedo := Vec3(0.9, 0.9, 0.8))
  }

  /** The material a preset makes: glass at opacity 0.4 with a cool tint, metal of
      shininess 64, the light, or light-grey plastic. Only the light keeps the name it
      was detected from; the others carry the factory's name. */
  function PresetData(p: Preset, name: string): (r: MaterialData)
    ensures r.IsTransparent() <==> p == GlassPreset
    ensures r.IsEmissive() <==> p.LightPreset?
    ensures p.LightPreset? ==> r.name == name
    ensures p == GlassPreset ==> r.alpha == 0.4 && r.name == "Glass Material"
    ensures p.MetalPreset? ==> r.specular == p.color && r.name == "Metal Material"
    ensures p == PlasticPreset ==> r.name == "Plastic Material"
  {
    match p
    case GlassPreset => GlassData(0.4, Vec3(0.9, 0.95, 1.0))
    case MetalPreset(c) => MetalData(c, 64.0)
    case LightPreset(e) => LightData(name, e)
    case PlasticPreset => PlasticData(Vec3(0.8, 0.8, 0.8))
  }

  /** The material a `newmtl name` line defines: the detected preset, else the defaults
      under that name. */
  function NewMaterialData(name: string): (r: MaterialData)
    ensures DetectPreset(name).None? ==> r == DefaultData(name)
    ensures r.IsTransparent() <==> DetectPreset(name) == Some(GlassPreset)
  {
    match DetectPreset(name)
    case None => DefaultData(name)
    case Some(p) => PresetData(p, name)
  }

  /** A glass material is the only kind a name alone makes transparent: every other
      name yields an opaque material. */
  lemma {:induction false} OnlyGlassNamesAreTransparent(name: string)
    ensures NewMaterialData(name).IsTransparent() <==> IsGlassName(ToLower(name))
  {
    assert DetectPreset(name) == Some(GlassPreset) <==> IsGlassName(ToLower(name));
  }

  /** The single number after a directive, if there is one. */
  function ReadScalar(toks: seq<string>): (r: Option<real>)
    ensures r.Some? ==> |toks| >= 2 && ParseReal(toks[1]) == r
  {
    if |toks| >= 2 then ParseReal(toks[1]) else None
  }

  /** What a property line sets: `Kd`, `Ks`, `Ke` the diffuse, specular and emissive
      colours, `Ns` the shininess, `Ni` the index of refraction, `d` the opacity and
      `Tr` the opacity as one minus the transparency. */
  datatype Property =
    | Diffuse(color: Vec3)
    | Specular(color: Vec3)
    | Emission(color: Vec3)
    | Shininess(value: real)
    | Opacity(value: real)
    | Refraction(value: real)
    | NoChange

  /** The property a (non-empty) token line sets. Any directive other than the seven
      known ones, and a known one whose value is missing or malformed, sets nothing;
      only `d` and `Tr` touch the opacity, and `Tr` inverts its value. */
  function ReadProperty(toks: seq<string>): (p: Property)
    requires toks != []
    ensures toks[0] !in {"Kd", "Ks", "Ke", "Ns", "d", "Tr", "Ni"} ==> p == NoChange
    ensures toks[0] in {"Kd", "Ks", "Ke"} && ObjSyntax.ReadVec3(toks).None? ==> p == NoChange
    ensures toks[0] in {"Ns", "d", "Tr", "Ni"} && ReadScalar(toks).None? ==> p == NoChange
    ensures p.Opacity? <==> toks[0] in {"d", "Tr"} && ReadScalar(toks).Some?
    ensures toks[0] == "Tr" && ReadScalar(toks).Some? ==> p == Opacity(1.0 - ReadScalar(toks).value)
  {
    var key := toks[0];
    if key == "Kd" || key == "Ks" || key == "Ke" then
      match ObjSyntax.ReadVec3(toks)
      case None => NoChange
      case Some(c) => if key == "Kd" then Diffuse(c) else if key == "Ks" then Specular(c) else Emission(c)
    else if key == "Ns" || key == "d" || key == "Tr" || key == "Ni" then
      match ReadScalar(toks)
      case None => NoChange
      case Some(x) =>
        if key == "Ns" then Shininess(x)
        else if key == "d" then Opacity(x)
        else if key == "Tr" then Opacity(1.0 - x)
        else Refraction(x)
    else NoChange
  }

  /** A material's state with one property set: the name is kept, and every field
      other than the one the property names is left as it was (the opacity also
      fixes whether the material is transparent). */
  function SetProperty(d: MaterialData, p: Property): (r: MaterialData)
    ensures r.name == d.name
    ensures p == NoChange ==> r == d
    ensures p.Diffuse? ==> r.albedo == p.color && r.(albedo := d.albedo) == d
    ensures p.Specular? ==> r.specular == p.color && r.(specular := d.specular) == d
    ensures p.Emission? ==> r.emissive == p.color && r.(emissive := d.emissive) == d
    ensures p.Shininess? ==> r.shininess == p.value && r.(shininess := d.shininess) == d
    ensures p.Refraction? ==> r.ior == p.value && r.(ior := d.ior) == d
    ensures !p.Opacity? ==> r.alpha == d.alpha && r.kind == d.kind
  {
    match p
    case Diffuse(c) => d.(albedo := c)
    case Specular(c) => d.(specular := c)
    case Emission(c) => d.(emissive := c)
    case Shininess(x) => d.(shininess := x)
    case Opacity(a) => WithAlpha(d, a)
    case Refraction(x) => d.(ior := x)
    case NoChange => d
  }

  /** Tokens of an MTL line after trimming; none for blank and '#' lines. */
  function MtlTokens(line: string): (toks: seq<string>)
    ensures Trim(line) == [] || Trim(line)[0] == '#' ==> toks == []
  {
    var t := Trim(line);
    if t == [] || t[0] == '#' then [] else Tokens(t)
  }

  /** What one line of an MTL file says. */
  datatype MtlLine =
    | Skip                        // blank, comment, or `newmtl` with no name after it
    | NewMtl(name: string)
    | PropertyLine(property: Property)

  /** Reads one line: `newmtl` with a name defines a material; any other directive
      is a property line for the current material. */
  function ReadMtlLine(line: string): (r: MtlLine)
    ensures r.NewMtl? <==> |MtlTokens(line)| >= 2 && MtlTokens(line)[0] == "newmtl"
    ensures r.NewMtl? ==> r.name == MtlTokens(line)[1]
    ensures r == Skip <==> MtlTokens(line) == [] || MtlTokens(line) == ["newmtl"]
  {
    var toks := MtlTokens(line);
    if toks == [] then Skip
    else if toks[0] == "newmtl" then (if |toks| >= 2 then NewMtl(toks[1]) else Skip)
    else PropertyLine(ReadProperty(toks))
  }

  /** The materials read so far, as values, and the name of the one being defined. */
  datatype MtlState = MtlState(mats: map<string, MaterialData>, current: string)

  /** One line of an MTL file: `newmtl` (re)defines a material and makes it current;
      a property line adjusts the current material, if there is one. No line renames
      a material it does not define. */
  function MtlStep(st: MtlState, l: MtlLine): (r: MtlState)
    ensures l.NewMtl? ==> r.current == l.name && r.mats.Keys == st.mats.Keys + {l.name}
    ensures !l.NewMtl? ==> r.current == st.current && r.mats.Keys == st.mats.Keys
    ensures forall k :: k in st.mats && !(l.NewMtl? && k == l.name) ==> r.mats[k].name == st.mats[k].name
  {
    match l
    case Skip => st
    case NewMtl(n) => MtlState(st.mats[n := NewMaterialData(n)], n)
    case PropertyLine(p) =>
      if st.current != [] && st.current in st.mats then
        MtlState(st.mats[st.current := SetProperty(st.mats[st.current], p)], st.current)
      else st
  }

  /** The lines of a file, read. */
  function MtlLines(lines: seq<string>): (r: seq<MtlLine>)
    ensures |r| == |lines|
  {
    if lines == [] then [] else MtlLines(lines[..|lines| - 1]) + [ReadMtlLine(lines[|lines| - 1])]
  }

  lemma {:induction false} MtlLineAt(lines: seq<string>, j: nat)
    requires j < |lines|
    ensures MtlLines(lines)[j] == ReadMtlLine(lines[j])
    decreases |lines|
  {
    if j < |lines| - 1 {
      var init := lines[..|lines| - 1];
      assert init[j] == lines[j];
      MtlLineAt(init, j);
    }
  }

  /** The state after the first `n` read lines. */
  function MtlUpTo(ls: seq<MtlLine>, n: nat): MtlState
    requires n <= |ls|
  {
    if n == 0 then MtlState(map[], "") else MtlStep(MtlUpTo(ls, n - 1), ls[n - 1])
  }

  /** The materials an MTL file defines. */
  function MtlSpec(lines: seq<string>): map<string, MaterialData> {
    var ls := MtlLines(lines);
    MtlUpTo(ls, |ls|).mats
  }

  /** Line `j` is a `newmtl` line defining `k`. */
  predicate Defines(ls: seq<MtlLine>, j: int, k: string) {
    0 <= j < |ls| && ls[j] == NewMtl(k)
  }

  /** The materials of a file are exactly the names its `newmtl` lines give, and the
      current name is always empty or one of them (so the membership test before a
      property line never fails once a material has been defined). */
  lemma {:induction false} MtlKeys(ls: seq<MtlLine>, n: nat)
    requires n <= |ls|
    ensures forall k :: k in MtlUpTo(ls, n).mats <==> exists j :: j < n && Defines(ls, j, k)
    ensures MtlUpTo(ls, n).current == [] || MtlUpTo(ls, n).current in MtlUpTo(ls, n).mats
  {
    if n > 0 {
      MtlKeys(ls, n - 1);
      var prev := MtlUpTo(ls, n - 1);
      var cur := MtlUpTo(ls, n);
      assert cur == MtlStep(prev, ls[n - 1]);
      forall k
        ensures k in cur.mats <==> exists j :: j < n && Defines(ls, j, k)
      {
        if k in cur.mats {
          if k in prev.mats {
            var j :| j < n - 1 && Defines(ls, j, k);
            assert j < n && Defines(ls, j, k);
          } else {
            assert Defines(ls, n - 1, k);
          }
        }
        if exists j :: j < n && Defines(ls, j, k) {
          var j :| j < n && Defines(ls, j, k);
          if j < n - 1 {
            assert k in prev.mats;
          }
        }
      }
    }
  }

  /** Property lines never rename: each material carries the name its definition gave it. */
  lemma {:induction false} MtlNames(ls: seq<MtlLine>, n: nat)
    requires n <= |ls|
    ensures forall k :: k in MtlUpTo(ls, n).mats ==>
      MtlUpTo(ls, n).mats[k].name == NewMaterialData(k).name
  {
    if n > 0 {
      MtlNames(ls, n - 1);
      var prev := MtlUpTo(ls, n - 1);
      assert MtlUpTo(ls, n) == MtlStep(prev, ls[n - 1]);
    }
  }

  /** No two names share one material object. */
  predicate Distinct(mats: map<string, Material>) {
    forall a, b :: a in mats && b in mats && a != b ==> mats[a] != mats[b]
  }

  /** The materials' current states. */
  function DataOf(mats: map<string, Material>): (r: map<string, MaterialData>)
    reads mats.Values
    ensures r.Keys == mats.Keys
    ensures forall k :: k in mats ==> r[k] == mats[k].Data()
  {
    map k | k in mats :: mats[k].Data()
  }

  /** `createDefaultMaterial`: the defaults under the given name. */
  method CreateDefaultMaterial(name: string) returns (m: Material)
    ensures fresh(m) && m.Data() == DefaultData(name)
  {
    m := new Material(name);
  }

  /** `detectMaterialFromName`: a fresh material built from the preset the name selects,
      or null. */
  method DetectMaterialFromName(name: string) returns (m: Material?)
    ensures m == null <==> DetectPreset(name).None?
    ensures m != null ==> fresh(m) && m.Data() == PresetData(DetectPreset(name).value, name)
  {
    var lower := ToLower(name);
    if Contains(lower, "glass") || Contains(lower, "vidro") {
      m := Material.CreateGlass(0.4, Vec3(0.9, 0.95, 1.0));
      return;
    }
    if Contains(lower, "metal") || Contains(lower, "steel") {
      var color := Vec3(0.7, 0.7, 0.7);
      if Contains(lower, "copper") || Contains(lower, "cobre") {
        color := Vec3(0.72, 0.45, 0.20);
      } else if Contains(lower, "brass") {
        color := Vec3(0.71, 0.65, 0.26);
      } else if Contains(lower, "gold") || Contains(lower, "ouro") {
        color := Vec3(1.0, 0.84, 0.0);
      }
      m := Material.CreateMetal(color);
      return;
    }
    if Contains(lower, "light") || Contains(lower, "lamp") {
      var light := new Material.OfType(Emissive, name);
      if Contains(lower, "red") || Contains(lower, "vermelho") {
        light.SetEmissive(Vec3(1.0, 0.2, 0.2));
      } else if Contains(lower, "blue") || Contains(lower, "azul") {
        light.SetEmissive(Vec3(0.2, 0.2, 1.0));
      } else if Contains(lower, "green") || Contains(lower, "verde") {
        light.SetEmissive(Vec3(0.2, 1.0, 0.2));
      } else {
        light.SetEmissive(Vec3(1.0, 1.0, 0.8));
      }
      light.SetAlbedo(Vec3(0.9, 0.9, 0.8));
      m := light;
      return;
    }
    if Contains(lower, "plastic") || Contains(lower, "plastico")
       || Contains(lower, "rubber") || Contains(lower, "borracha") {
      m := Material.CreatePlastic(Vec3(0.8, 0.8, 0.8));
      return;
    }
    m := null;
  }

  /** The `newmtl` branch: the detected preset, else a default material of that name. */
  method NewMaterial(name: string) returns (m: Material)
    ensures fresh(m) && m.Data() == NewMaterialData(name)
  {
    var detected := DetectMaterialFromName(name);
    if detected == null {
      m := new Material(name);
    } else {
      m := detected;
    }
  }

  /** Sets one property of a material in place. */
  method SetPropertyOf(m: Material, p: Property)
    modifies m
    ensures m.Data() == SetProperty(old(m.Data()), p)
  {
    match p
    case Diffuse(c) => m.SetAlbedo(c);
    case Specular(c) => m.SetSpecular(c);
    case Emission(c) => m.SetEmissive(c);
    case Shininess(x) => m.SetShininess(x);
    case Opacity(a) => m.SetAlpha(a);
    case Refraction(x) => m.SetIndexOfRefraction(x);
    case NoChange =>
  }

  /** `parseMaterialLine`: one MTL line against the materials read so far. */
  method ParseMaterialLine(line: string, mats: map<string, Material>, current: string)
    returns (mats': map<string, Material>, current': string)
    requires Distinct(mats)
    modifies mats.Values
    ensures Distinct(mats')
    ensures forall k :: k in mats' ==> (k in mats && mats'[k] == mats[k]) || fresh(mats'[k])
    ensures MtlState(DataOf(mats'), current') == MtlStep(MtlState(old(DataOf(mats)), current), ReadMtlLine(line))
  {
    mats', current' := ApplyMtlLine(ReadMtlLine(line), mats, current);
  }

  /** The body of `parseMaterialLine` once the line is read. */
  method ApplyMtlLine(l: MtlLine, mats: map<string, Material>, current: string)
    returns (mats': map<string, Material>, current': string)
    requires Distinct(mats)
    modifies mats.Values
    ensures Distinct(mats')
    ensures forall k :: k in mats' ==> (k in mats && mats'[k] == mats[k]) || fresh(mats'[k])
    ensures MtlState(DataOf(mats'), current') == MtlStep(MtlState(old(DataOf(mats)), current), l)
  {
    mats', current' := mats, current;
    match l
    case Skip =>
    case NewMtl(n) =>
      mats' := DefineMaterial(n, mats);
      current' := n;
    case PropertyLine(p) =>
      if current != [] && current in mats {
        AdjustMaterial(mats, current, p);
      }
  }

  /** A `newmtl` line: a fresh material under that name, replacing any earlier one. */
  method DefineMaterial(name: string, mats: map<string, Material>) returns (mats': map<string, Material>)
    requires Distinct(mats)
    ensures Distinct(mats')
    ensures forall k :: k in mats' ==> (k in mats && mats'[k] == mats[k]) || fresh(mats'[k])
    ensures DataOf(mats') == DataOf(mats)[name := NewMaterialData(name)]
  {
    var m := NewMaterial(name);
    mats' := mats[name := m];
  }

  /** A property line while `current` names a material: only that material changes. */
  method AdjustMaterial(mats: map<string, Material>, current: string, p: Property)
    requires Distinct(mats) && current in mats
    modifies mats[current]
    ensures DataOf(mats) == old(DataOf(mats))[current := SetProperty(old(mats[current].Data()), p)]
  {
    var m := mats[current];
    SetPropertyOf(m, p);
    assert forall k :: k in mats && k != current ==> mats[k] != m;
  }

  /** `loadMaterials`: the materials of the file at `path` in `fs` (none when it cannot be
      opened), each a fresh object of its own, with exactly the states the file defines. */
  method LoadMaterials(fs: map<string, seq<string>>, path: string) returns (mats: map<string, Material>)
    ensures path !in fs ==> mats == map[]
    ensures path in fs ==> DataOf(mats) == MtlSpec(fs[path])
    ensures Distinct(mats) && forall k :: k in mats ==> fresh(mats[k])
  {
    mats := map[];
    if path !in fs {
      return;
    }
    var lines := fs[path];
    ghost var ls := MtlLines(lines);
    var current := "";
    for i := 0 to |lines|
      invariant Distinct(mats) && forall k :: k in mats ==> fresh(mats[k])
      invariant MtlState(DataOf(mats), current) == MtlUpTo(ls, i)
    {
      MtlLineAt(lines, i);
      mats, current := ParseMaterialLine(lines[i], mats, current);
    }
  }
}
