/** The slice of the OpenGL context the viewer relies on: object names handed out by
    `glGen*`, the pipeline state the renderer toggles, the program and uniforms in
    force, and a log of the calls whose order matters. Each draw records the state
    it was issued under. */
module Gl {
  import opened Geometry

  /** The two shader programs meshes are drawn with, or none bound. */
  datatype Program = NoProgram | BasicProgram | TransparentProgram

  /** The per-draw uniform values a program reads: the basic program an object
      colour, the transparent program colour, alpha, shininess and specular colour. */
  datatype Shading =
    | Solid(color: Vec3)
    | Blended(color: Vec3, alpha: real, shininess: real, specular: Vec3)

  datatype ObjectKind = VertexArray | Buffer

  /** The global switches `setupRenderState` applies. */
  datatype RenderSettings = RenderSettings(
    wireframe: bool,
    enableCulling: bool,
    enableDepthTest: bool,
    clearColor: Vec4)

  datatype GlEvent =
    | Generated(kind: ObjectKind, name: nat)
    | Deleted(kind: ObjectKind, name: nat)
    | StateApplied(settings: RenderSettings)
    | Cleared(color: Vec4, depth: bool)
    | BlendSet(on: bool)
    | DepthWriteSet(on: bool)
    | Drawn(vao: nat, count: nat, program: Program, transform: Mat4, shading: Shading,
            blend: bool, depthWrite: bool)
    | BufferFilled(buffer: nat, data: seq<real>)
    | LinesDrawn(vao: nat, first: nat, count: nat)

  class GlDevice {
    /** The next name `glGen*` hands out; names start at 1, 0 meaning "no object". */
    var nextName: nat
    var blend: bool
    var depthWrite: bool
    var program: Program
    var transform: Mat4
    var shading: Shading
    ghost var log: seq<GlEvent>

    ghost predicate Valid()
      reads this
    {
      nextName >= 1
    }

    /** A fresh context: blending off, depth writes on, nothing bound. */
    constructor ()
      ensures Valid() && nextName == 1 && log == []
      ensures !blend && depthWrite && program == NoProgram
    {
      nextName := 1;
      blend := false;
      depthWrite := true;
      program := NoProgram;
      transform := Identity;
      shading := Solid(Zero3);
      log := [];
    }

    /** `glGenVertexArrays(1, ..)` / `glGenBuffers(1, ..)`: a name never handed out before. */
    method Gen(kind: ObjectKind) returns (name: nat)
      requires Valid()
      modifies this`nextName, this`log
      ensures Valid()
      ensures name == old(nextName) && name >= 1 && nextName == name + 1
      ensures log == old(log) + [Generated(kind, name)]
    {
      name := nextName;
      nextName := nextName + 1;
      log := log + [Generated(kind, name)];
    }

    /** `glDeleteVertexArrays` / `glDeleteBuffers` of one name. */
    method Delete(kind: ObjectKind, name: nat)
      modifies this`log
      ensures log == old(log) + [Deleted(kind, name)]
    {
      log := log + [Deleted(kind, name)];
    }

    method ApplySettings(settings: RenderSettings)
      modifies this`log
      ensures log == old(log) + [StateApplied(settings)]
    {
      log := log + [StateApplied(settings)];
    }

    /** `glClearColor` then `glClear` of the colour buffer, and of the depth buffer when asked. */
    method Clear(color: Vec4, depth: bool)
      modifies this`log
      ensures log == old(log) + [Cleared(color, depth)]
    {
      log := log + [Cleared(color, depth)];
    }

    method SetBlend(on: bool)
      modifies this`blend, this`log
      ensures blend == on && log == old(log) + [BlendSet(on)]
    {
      blend := on;
      log := log + [BlendSet(on)];
    }

    /** `glDepthMask`. */
    method SetDepthWrite(on: bool)
      modifies this`depthWrite, this`log
      ensures depthWrite == on && log == old(log) + [DepthWriteSet(on)]
    {
      depthWrite := on;
      log := log + [DepthWriteSet(on)];
    }

    /** `Shader::bind` / `Shader::unbind`. */
    method UseProgram(p: Program)
      modifies this`program
      ensures program == p
    {
      program := p;
    }

    /** Setting the `uModel` uniform. */
    method SetTransform(m: Mat4)
      modifies this`transform
      ensures transform == m
    {
      transform := m;
    }

    /** Setting the material uniforms of the bound program. */
    method SetShading(s: Shading)
      modifies this`shading
      ensures shading == s
    {
      shading := s;
    }

    /** `glDrawElements(GL_TRIANGLES, count, ..)` with vertex array `vao` bound. */
    method DrawElements(vao: nat, count: nat)
      modifies this`log
      ensures log == old(log) + [Drawn(vao, count, program, transform, shading, blend, depthWrite)]
    {
      log := log + [Drawn(vao, count, program, transform, shading, blend, depthWrite)];
    }

    /** `glBufferData` on the array buffer `buffer`: its contents become `data`. */
    method FillBuffer(buffer: nat, data: seq<real>)
      modifies this`log
      ensures log == old(log) + [BufferFilled(buffer, data)]
    {
      log := log + [BufferFilled(buffer, data)];
    }

    /** `glDrawArrays(GL_LINES, first, count)` with vertex array `vao` bound. */
    method DrawLines(vao: nat, first: nat, count: nat)
      modifies this`log
      ensures log == old(log) + [LinesDrawn(vao, first, count)]
    {
      log := log + [LinesDrawn(vao, first, count)];
    }
  }
}
