/** The reference grid drawn under the scene: line segments on the XZ plane (y = 0),
    two for every integer from -halfExtent to halfExtent, uploaded once to a vertex
    buffer and drawn as `GL_LINES`. */
module Grids {
  import opened Wrappers
  import opened Geometry
  import opened Gl

  /** The four points the constructor appends for the integer `i`: the segment
      parallel to Z at x = i, then the segment parallel to X at z = i. */
  function StepPoints(i: int, h: int): seq<Vec3> {
    [Vec3(i as real, 0.0, -h as real), Vec3(i as real, 0.0, h as real),
     Vec3(-h as real, 0.0, i as real), Vec3(h as real, 0.0, i as real)]
  }

  /** The points appended for the integers `lo` up to but excluding `hi`, in order. */
  function Span(lo: int, hi: int, h: int): (r: seq<Vec3>)
    ensures |r| == if hi <= lo then 0 else 4 * (hi - lo)
    decreases hi - lo
  {
    if hi <= lo then [] else Span(lo, hi - 1, h) + StepPoints(hi - 1, h)
  }

  /** The points of the grid of half extent `h`. */
  function GridPoints(h: int): seq<Vec3> {
    Span(-h, h + 1, h)
  }

  /** A pair of points is a whole grid line: both on the plane y = 0, and either
      parallel to Z from z = -h to z = h or parallel to X from x = -h to x = h. */
  predicate FullLine(a: Vec3, b: Vec3, h: int) {
    && a.y == 0.0 && b.y == 0.0
    && ((a.x == b.x && a.z == -h as real && b.z == h as real)
        || (a.z == b.z && a.x == -h as real && b.x == h as real))
  }

  /** The point in the square of half extent `h` on the plane y = 0. */
  predicate InSquare(p: Vec3, h: int) {
    p.y == 0.0 && -h as real <= p.x <= h as real && -h as real <= p.z <= h as real
  }

  /** The floats of the points, three per point, as the vertex buffer holds them. */
  function Flatten(ps: seq<Vec3>): (r: seq<real>)
    ensures |r| == 3 * |ps|
    ensures forall k :: 0 <= k < |ps| ==>
      r[3 * k] == ps[k].x && r[3 * k + 1] == ps[k].y && r[3 * k + 2] == ps[k].z
  {
    if ps == [] then []
    else
      var last := ps[|ps| - 1];
      Flatten(ps[..|ps| - 1]) + [last.x, last.y, last.z]
  }

  /** Flattening distributes over concatenation. */
  lemma {:induction false} FlattenAppend(a: seq<Vec3>, b: seq<Vec3>)
    ensures Flatten(a + b) == Flatten(a) + Flatten(b)
  {
    if b == [] {
      assert a + b == a;
    } else {
      var init, last := b[..|b| - 1], b[|b| - 1];
      assert (a + b)[..|a + b| - 1] == a + init;
      assert (a + b)[|a + b| - 1] == last;
      FlattenAppend(a, init);
      AppendAssoc(Flatten(a), Flatten(init), [last.x, last.y, last.z]);
    }
  }

  /** The twelve floats of the points of one integer, in the order they are pushed. */
  lemma FlattenStep(i: int, h: int)
    ensures Flatten(StepPoints(i, h)) ==
      [i as real, 0.0, -h as real] + [i as real, 0.0, h as real]
      + [-h as real, 0.0, i as real] + [h as real, 0.0, i as real]
  {
    var ps := StepPoints(i, h);
    assert ps[..3][..2][..1][..0] == [];
    assert Flatten(ps[..3][..2][..1]) == [i as real, 0.0, -h as real];
    assert Flatten(ps[..3][..2]) == Flatten(ps[..3][..2][..1]) + [i as real, 0.0, h as real];
    assert Flatten(ps[..3]) == Flatten(ps[..3][..2]) + [-h as real, 0.0, i as real];
  }

  /** The four points of the integer `i` sit at positions 4(i - lo) to 4(i - lo) + 3. */
  lemma {:induction false} SpanAt(lo: int, hi: int, h: int, i: int)
    requires lo <= i < hi
    ensures Span(lo, hi, h)[4 * (i - lo) .. 4 * (i - lo) + 4] == StepPoints(i, h)
    decreases hi - lo
  {
    var init := Span(lo, hi - 1, h);
    if i < hi - 1 {
      SpanAt(lo, hi - 1, h, i);
      assert Span(lo, hi, h)[4 * (i - lo) .. 4 * (i - lo) + 4] == init[4 * (i - lo) .. 4 * (i - lo) + 4];
    } else {
      assert Span(lo, hi, h)[4 * (i - lo) .. 4 * (i - lo) + 4] == Span(lo, hi, h)[|init|..];
    }
  }

  /** For every integer `i` from -h to h the grid holds the line parallel to Z at
      x = i and the line parallel to X at z = i, as consecutive pairs of points. */
  lemma GridLinesAt(h: int, i: int)
    requires -h <= i <= h
    ensures var ps := GridPoints(h); var k := 4 * (i + h);
      && ps[k] == Vec3(i as real, 0.0, -h as real) && ps[k + 1] == Vec3(i as real, 0.0, h as real)
      && ps[k + 2] == Vec3(-h as real, 0.0, i as real) && ps[k + 3] == Vec3(h as real, 0.0, i as real)
  {
    SpanAt(-h, h + 1, h, i);
    var ps, k := GridPoints(h), 4 * (i + h);
    var window := ps[k .. k + 4];
    assert window == StepPoints(i, h);
    assert ps[k] == window[0] && ps[k + 1] == window[1];
    assert ps[k + 2] == window[2] && ps[k + 3] == window[3];
  }

  /** Every point of the grid lies in the square of half extent `h` on the plane y = 0. */
  lemma {:induction false} SpanInSquare(lo: int, hi: int, h: int)
    requires -h <= lo
    requires hi <= h + 1
    ensures forall k :: 0 <= k < |Span(lo, hi, h)| ==> InSquare(Span(lo, hi, h)[k], h)
    decreases hi - lo
  {
    if lo < hi {
      SpanInSquare(lo, hi - 1, h);
      var init := Span(lo, hi - 1, h);
      var step := StepPoints(hi - 1, h);
      forall k | 0 <= k < |Span(lo, hi, h)|
        ensures InSquare(Span(lo, hi, h)[k], h)
      {
        if k >= |init| {
          assert Span(lo, hi, h)[k] == step[k - |init|];
        }
      }
    }
  }

  /** Each consecutive pair of points, the unit `GL_LINES` draws, is a whole grid line. */
  lemma {:induction false} SpanLines(lo: int, hi: int, h: int)
    ensures forall k :: 0 <= k < |Span(lo, hi, h)| / 2 ==>
      FullLine(Span(lo, hi, h)[2 * k], Span(lo, hi, h)[2 * k + 1], h)
    decreases hi - lo
  {
    if lo < hi {
      SpanLines(lo, hi - 1, h);
      var init := Span(lo, hi - 1, h);
      var step := StepPoints(hi - 1, h);
      forall k | 0 <= k < |Span(lo, hi, h)| / 2
        ensures FullLine(Span(lo, hi, h)[2 * k], Span(lo, hi, h)[2 * k + 1], h)
      {
        if 2 * k >= |init| {
          var j := 2 * k - |init|;
          assert j == 0 || j == 2;
          assert Span(lo, hi, h)[2 * k] == step[j];
          assert Span(lo, hi, h)[2 * k + 1] == step[j + 1];
        }
      }
    }
  }

  /** The grid's points lie in its square and pair up into whole grid lines. */
  lemma GridShape(h: int)
    ensures forall k :: 0 <= k < |GridPoints(h)| ==> InSquare(GridPoints(h)[k], h)
    ensures forall k :: 0 <= k < |GridPoints(h)| / 2 ==>
      FullLine(GridPoints(h)[2 * k], GridPoints(h)[2 * k + 1], h)
  {
    SpanInSquare(-h, h + 1, h);
    SpanLines(-h, h + 1, h);
  }

  /** The vertex loop of the constructor: for `i` from -halfExtent to halfExtent, the
      twelve floats of the two lines of `i`. */
  method BuildVertices(halfExtent: int) returns (verts: seq<real>)
    ensures verts == Flatten(GridPoints(halfExtent))
  {
    var h := halfExtent;
    verts := [];
    var i := -h;
    while i <= h
      invariant -h <= i && (i <= h + 1 || i == -h)
      invariant verts == Flatten(Span(-h, i, h))
      decreases h - i + 1
    {
      ghost var before := Span(-h, i, h);
      ghost var start := verts;
      verts := verts + [i as real, 0.0, -h as real];
      verts := verts + [i as real, 0.0, h as real];
      verts := verts + [-h as real, 0.0, i as real];
      verts := verts + [h as real, 0.0, i as real];
      FlattenStep(i, h);
      assert verts == start + Flatten(StepPoints(i, h));
      FlattenAppend(before, StepPoints(i, h));
      assert Span(-h, i + 1, h) == before + StepPoints(i, h);
      i := i + 1;
    }
  }

  /** The deletions the destructor issues: the buffer, then the vertex array, each
      only when its name is not 0. */
  function GridReleases(vao: nat, vbo: nat): (r: seq<GlEvent>)
    ensures r == [] <==> vao == 0 && vbo == 0
    ensures forall k :: 0 <= k < |r| ==> r[k].Deleted? && r[k].name != 0
    ensures Deleted(Buffer, vbo) in r <==> vbo != 0
    ensures Deleted(VertexArray, vao) in r <==> vao != 0
  {
    (if vbo != 0 then [Deleted(Buffer, vbo)] else [])
    + (if vao != 0 then [Deleted(VertexArray, vao)] else [])
  }

  class Grid {
    var vao: nat
    var vbo: nat
    /** The number of points drawn, three floats each. */
    var vertexCount: nat

    /** Builds the points, takes a vertex array and then a buffer name, and fills the
        buffer with the points; the vertex count is the number of points. */
    constructor (gl: GlDevice, halfExtent: int := 50)
      requires gl.Valid()
      modifies gl`nextName, gl`log
      ensures gl.Valid()
      ensures vao == old(gl.nextName) && vbo == vao + 1 && gl.nextName == vbo + 1
      ensures vertexCount == |GridPoints(halfExtent)|
      ensures vertexCount == if halfExtent >= 0 then 4 * (2 * halfExtent + 1) else 0
      ensures gl.log == old(gl.log) + [Generated(VertexArray, vao), Generated(Buffer, vbo),
                                       BufferFilled(vbo, Flatten(GridPoints(halfExtent)))]
    {
      var verts := BuildVertices(halfExtent);
      vertexCount := |verts| / 3;
      var a := gl.Gen(VertexArray);
      var b := gl.Gen(Buffer);
      vao, vbo := a, b;
      gl.FillBuffer(b, verts);
    }

    /** Draws all the points as lines from the grid's vertex array. */
    method Draw(gl: GlDevice)
      modifies gl`log
      ensures gl.log == old(gl.log) + [LinesDrawn(vao, 0, vertexCount)]
    {
      gl.DrawLines(vao, 0, vertexCount);
    }

    /** The destructor: deletes the buffer and the vertex array it holds. */
    method Release(gl: GlDevice)
      modifies gl`log
      ensures gl.log == old(gl.log) + GridReleases(vao, vbo)
    {
      if vbo != 0 {
        gl.Delete(Buffer, vbo);
      }
      if vao != 0 {
        gl.Delete(VertexArray, vao);
      }
    }
  }
}
