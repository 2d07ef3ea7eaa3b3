/** Surface materials (Material.h / Material.cpp): a name, a type, Phong colours,
    opacity, emission and index of refraction, with the presets the viewer offers. */
module Materials {
  import opened Geometry

  datatype MaterialType = Opaque | Transparent | Emissive

  /** The state of one material, as a value. */
  datatype MaterialData = MaterialData(
    name: string,
    kind: MaterialType,
    albedo: Vec3,
    specular: Vec3,
    shininess: real,
    alpha: real,
    emissive: Vec3,
    ior: real)
  {
    /** `isTransparent`: flagged transparent, or not fully opaque. */
    predicate IsTransparent() {
      kind == Transparent || alpha < 1.0
    }

    /** `isEmissive`: flagged emissive, or with a non-zero emission colour. */
    predicate IsEmissive() {
      kind == Emissive || emissive != Zero3
    }
  }

  /** `std::clamp(a, 0, 1)`. */
  function Clamp01(a: real): (r: real)
    ensures 0.0 <= r <= 1.0
    ensures 0.0 <= a <= 1.0 ==> r == a
    ensures a < 0.0 ==> r == 0.0
    ensures a > 1.0 ==> r == 1.0
  {
    if a < 0.0 then 0.0 else if a > 1.0 then 1.0 else a
  }

  /** The type `setAlpha` leaves behind once the clamped opacity is `alpha`: opaque and
      transparent follow the opacity, emissive stays emissive. */
  function KindAfterAlpha(kind: MaterialType, alpha: real): (r: MaterialType)
    ensures kind == Emissive <==> r == Emissive
    ensures kind != Emissive ==> (r == Transparent <==> alpha < 1.0)
  {
    match kind
    case Opaque => if alpha < 1.0 then Transparent else Opaque
    case Transparent => if alpha >= 1.0 then Opaque else Transparent
    case Emissive => Emissive
  }

  /** The state after `setAlpha(a)`. */
  function WithAlpha(d: MaterialData, a: real): (r: MaterialData)
    ensures r.alpha == Clamp01(a)
    ensures r.IsTransparent() <==> Clamp01(a) < 1.0
    ensures r.(alpha := d.alpha, kind := d.kind) == d
  {
    var alpha := Clamp01(a);
    d.(alpha := alpha, kind := KindAfterAlpha(d.kind, alpha))
  }

  const DefaultAlbedo := Vec3(0.8, 0.8, 0.8)

  /** `Material(name)`: an opaque material with every property at its default. */
  function DefaultData(name: string): (r: MaterialData)
    ensures r.name == name && !r.IsTransparent() && !r.IsEmissive()
  {
    MaterialData(name, Opaque, DefaultAlbedo, One3, 32.0, 1.0, Zero3, 1.5)
  }

  /** `Material(type, name)`: the defaults, adjusted for the type. */
  function TypedData(kind: MaterialType, name: string): (r: MaterialData)
    ensures r.kind == kind && r.name == name
    ensures r.IsTransparent() <==> kind == Transparent
    ensures r.IsEmissive() <==> kind == Emissive
  {
    match kind
    case Opaque => DefaultData(name)
    case Transparent => DefaultData(name).(kind := Transparent, alpha := 0.5, ior := 1.5)
    case Emissive => DefaultData(name).(kind := Emissive, emissive := One3)
  }

  /** `createGlass(alpha, tint)`: tinted, highly specular glass of index 1.52, transparent
      exactly when the clamped opacity is below one. */
  function GlassData(alpha: real, tint: Vec3): (r: MaterialData)
    ensures r.alpha == Clamp01(alpha) && r.albedo == tint && r.ior == 1.52
    ensures r.kind == (if Clamp01(alpha) < 1.0 then Transparent else Opaque)
    ensures r.IsTransparent() <==> Clamp01(alpha) < 1.0
    ensures !r.IsEmissive()
  {
    WithAlpha(TypedData(Transparent, "Glass Material").(albedo := tint), alpha)
      .(specular := One3, shininess := 128.0, ior := 1.52)
  }

  /** `createMetal(color, shininess)`: dim diffuse (30% of the colour), the colour as
      specular reflection, opaque. */
  function MetalData(color: Vec3, shininess: real): (r: MaterialData)
    ensures r.albedo == Scaled(color, 0.3) && r.specular == color && r.shininess == shininess
    ensures !r.IsTransparent() && !r.IsEmissive()
  {
    TypedData(Opaque, "Metal Material").(albedo := Scaled(color, 0.3), specular := color,
                                         shininess := shininess)
  }

  /** `createPlastic(color)`: the colour, moderate grey specular, broad highlight. */
  function PlasticData(color: Vec3): (r: MaterialData)
    ensures r.albedo == color && r.shininess == 16.0
    ensures !r.IsTransparent() && !r.IsEmissive()
  {
    TypedData(Opaque, "Plastic Material").(albedo := color, specular := Vec3(0.5, 0.5, 0.5),
                                           shininess := 16.0)
  }

  class Material {
    var name: string
    var kind: MaterialType
    var albedo: Vec3
    var specular: Vec3
    var shininess: real
    var alpha: real
    var emissive: Vec3
    var ior: real

    function Data(): MaterialData
      reads this
    {
      MaterialData(name, kind, albedo, specular, shininess, alpha, emissive, ior)
    }

    predicate IsTransparent()
      reads this
    {
      Data().IsTransparent()
    }

    predicate IsEmissive()
      reads this
    {
      Data().IsEmissive()
    }

    constructor (name: string := "Default Material")
      ensures Data() == DefaultData(name)
    {
      this.name := name;
      kind := Opaque;
      albedo := DefaultAlbedo;
      specular := One3;
      shininess := 32.0;
      alpha := 1.0;
      emissive := Zero3;
      ior := 1.5;
    }

    constructor OfType(kind: MaterialType, name: string := "Material")
      ensures Data() == TypedData(kind, name)
    {
      this.name := name;
      this.kind := kind;
      albedo := DefaultAlbedo;
      specular := One3;
      shininess := 32.0;
      alpha := 1.0;
      emissive := Zero3;
      ior := 1.5;
      match kind {
        case Transparent =>
          alpha := 0.5;
          ior := 1.5;
        case Emissive =>
          emissive := One3;
        case Opaque =>
      }
    }

    method SetAlbedo(color: Vec3)
      modifies this`albedo
      ensures albedo == color
    {
      albedo := color;
    }

    method SetSpecular(color: Vec3)
      modifies this`specular
      ensures specular == color
    {
      specular := color;
    }

    method SetShininess(s: real)
      modifies this`shininess
      ensures shininess == s
    {
      shininess := s;
    }

    method SetEmissive(color: Vec3)
      modifies this`emissive
      ensures emissive == color
    {
      emissive := color;
    }

    method SetIndexOfRefraction(i: real)
      modifies this`ior
      ensures ior == i
    {
      ior := i;
    }

    /** Clamps the opacity and lets opaque/transparent follow it. */
    method SetAlpha(a: real)
      modifies this`alpha, this`kind
      ensures Data() == WithAlpha(old(Data()), a)
    {
      alpha := if a < 0.0 then 0.0 else if a > 1.0 then 1.0 else a;
      if alpha < 1.0 && kind == Opaque {
        kind := Transparent;
      } else if alpha >= 1.0 && kind == Transparent {
        kind := Opaque;
      }
    }

    static method CreateGlass(alpha: real := 0.3, tint: Vec3 := Vec3(0.9, 0.95, 1.0))
      returns (glass: Material)
      ensures fresh(glass) && glass.Data() == GlassData(alpha, tint)
    {
      glass := new Material.OfType(Transparent, "Glass Material");
      glass.SetAlbedo(tint);
      glass.SetAlpha(alpha);
      glass.SetSpecular(One3);
      glass.SetShininess(128.0);
      glass.SetIndexOfRefraction(1.52);
    }

    static method CreateMetal(color: Vec3, shininess: real := 64.0) returns (metal: Material)
      ensures fresh(metal) && metal.Data() == MetalData(color, shininess)
    {
      metal := new Material.OfType(Opaque, "Metal Material");
      metal.SetAlbedo(Scaled(color, 0.3));
      metal.SetSpecular(color);
      metal.SetShininess(shininess);
    }

    static method CreatePlastic(color: Vec3) returns (plastic: Material)
      ensures fresh(plastic) && plastic.Data() == PlasticData(color)
    {
      plastic := new Material.OfType(Opaque, "Plastic Material");
      plastic.SetAlbedo(color);
      plastic.SetSpecular(Vec3(0.5, 0.5, 0.5));
      plastic.SetShininess(16.0);
    }
  }
}
