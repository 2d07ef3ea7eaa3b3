/** Triangle meshes (Mesh.h / Mesh.cpp): vertex and index arrays, an optional shared
    material, a local transform, and the three GL objects holding the uploaded data. */
module Meshes {
  import opened Geometry
  import opened Gl
  import opened Materials

  datatype Vertex = Vertex(position: Vec3, normal: Normal, texCoords: Vec2)

  /** `Vertex()`: everything zero. */
  const DefaultVertex := Vertex(Zero3, NoNormal, Zero2)

  /** The deletions `cleanup` issues for the names still held: element buffer, then
      vertex buffer, then vertex array, skipping names that are 0. */
  function Releases(vao: nat, vbo: nat, ebo: nat): (r: seq<GlEvent>)
    ensures r == [] <==> vao == 0 && vbo == 0 && ebo == 0
    ensures forall k :: 0 <= k < |r| ==> r[k].Deleted? && r[k].name != 0
    ensures Deleted(VertexArray, vao) in r <==> vao != 0
    ensures |r| <= 3
  {
    (if ebo != 0 then [Deleted(Buffer, ebo)] else [])
    + (if vbo != 0 then [Deleted(Buffer, vbo)] else [])
    + (if vao != 0 then [Deleted(VertexArray, vao)] else [])
  }

  class Mesh {
    var vertices: seq<Vertex>
    /** Flat triangle list: indices 3t, 3t+1, 3t+2 form triangle t. */
    var indices: seq<nat>
    var name: string
    var material: Material?
    var localTransform: Mat4
    var vao: nat
    var vbo: nat
    var ebo: nat

    /** Indices come in whole triangles and each names a vertex of the mesh. */
    ghost predicate WellFormed()
      reads this
    {
      |indices| % 3 == 0 && forall k :: 0 <= k < |indices| ==> indices[k] < |vertices|
    }

    /** Stores the geometry and the material and generates the vertex array, vertex
        buffer and element buffer, in that order (`setupMesh`). */
    constructor (gl: GlDevice, vertices: seq<Vertex>, indices: seq<nat>, name: string := "",
                 material: Material? := null)
      requires gl.Valid()
      modifies gl`nextName, gl`log
      ensures this.vertices == vertices && this.indices == indices && this.name == name
      ensures this.material == material && localTransform == Identity
      ensures gl.Valid() && vao == old(gl.nextName) && vbo == vao + 1 && ebo == vao + 2
      ensures gl.nextName == ebo + 1
      ensures gl.log == old(gl.log) + [Generated(VertexArray, vao), Generated(Buffer, vbo),
                                        Generated(Buffer, ebo)]
    {
      this.vertices := vertices;
      this.indices := indices;
      this.name := name;
      this.material := material;
      localTransform := Identity;
      var a := gl.Gen(VertexArray);
      var v := gl.Gen(Buffer);
      var e := gl.Gen(Buffer);
      vao, vbo, ebo := a, v, e;
    }

    /** Move construction: takes the other mesh's data and GL names and leaves it
        empty and holding no names, so that only one of the two ever deletes them. */
    constructor MoveFrom(other: Mesh)
      modifies other
      ensures vertices == old(other.vertices) && indices == old(other.indices)
      ensures name == old(other.name) && material == old(other.material)
      ensures vao == old(other.vao) && vbo == old(other.vbo) && ebo == old(other.ebo)
      ensures localTransform == Identity
      ensures other.vao == 0 && other.vbo == 0 && other.ebo == 0
      ensures other.vertices == [] && other.indices == [] && other.name == [] && other.material == null
      ensures other.localTransform == old(other.localTransform)
    {
      vertices := other.vertices;
      indices := other.indices;
      name := other.name;
      material := other.material;
      localTransform := Identity;
      vao := other.vao;
      vbo := other.vbo;
      ebo := other.ebo;
      new;
      other.vertices := [];
      other.indices := [];
      other.name := [];
      other.material := null;
      other.vao := 0;
      other.vbo := 0;
      other.ebo := 0;
    }

    /** `triangles = indices.size() / 3`, rounded down. */
    function TriangleCount(): (r: nat)
      reads this
      ensures 3 * r <= |indices| < 3 * r + 3
    {
      |indices| / 3
    }

    /** Drawn in the transparent pass: it has a material and that material is transparent. */
    predicate IsTransparent()
      reads this, material
    {
      material != null && material.IsTransparent()
    }

    /** Binds the vertex array and draws all of its indices as triangles. */
    method Draw(gl: GlDevice)
      modifies gl`log
      ensures gl.log == old(gl.log) + [Drawn(vao, |indices|, gl.program, gl.transform, gl.shading,
                                             gl.blend, gl.depthWrite)]
    {
      gl.DrawElements(vao, |indices|);
    }

    /** Deletes the GL objects still held and forgets their names; a second call
        deletes nothing. */
    method Cleanup(gl: GlDevice)
      modifies this`vao, this`vbo, this`ebo, gl`log
      ensures vao == 0 && vbo == 0 && ebo == 0
      ensures gl.log == old(gl.log) + Releases(old(vao), old(vbo), old(ebo))
    {
      if ebo != 0 {
        gl.Delete(Buffer, ebo);
        ebo := 0;
      }
      if vbo != 0 {
        gl.Delete(Buffer, vbo);
        vbo := 0;
      }
      if vao != 0 {
        gl.Delete(VertexArray, vao);
        vao := 0;
      }
    }

    /** Move assignment: a no-op onto itself; otherwise releases this mesh's GL
        objects, takes the other's data and names, and leaves the other holding none. */
    method MoveAssign(other: Mesh, gl: GlDevice)
      modifies this, other, gl`log
      ensures other == this ==> unchanged(this) && gl.log == old(gl.log)
      ensures other != this ==>
        gl.log == old(gl.log) + Releases(old(vao), old(vbo), old(ebo))
        && vertices == old(other.vertices) && indices == old(other.indices)
        && name == old(other.name) && material == old(other.material)
        && vao == old(other.vao) && vbo == old(other.vbo) && ebo == old(other.ebo)
        && localTransform == old(localTransform)
        && other.vao == 0 && other.vbo == 0 && other.ebo == 0
        && other.vertices == [] && other.indices == [] && other.name == [] && other.material == null
    {
      if other != this {
        Cleanup(gl);
        vertices := other.vertices;
        indices := other.indices;
        name := other.name;
        material := other.material;
        vao := other.vao;
        vbo := other.vbo;
        ebo := other.ebo;
        other.vertices := [];
        other.indices := [];
        other.name := [];
        other.material := null;
        other.vao := 0;
        other.vbo := 0;
        other.ebo := 0;
      }
    }
  }
}
