/**
 * The faces the XModel dumper gives each surface's object: one per triangle,
 * with the triangle's surface-local vertex indices moved to model-wide ones.
 */
module XModelFaces {
  import opened XModelData
  import opened XModelWeights

  /** The triangle index array is readable for triCount triangles. */
  predicate TrisReadable(s: Surface)
  {
    s.triCount <= |s.triIndices|
  }

  /** The face of triangle k: each of its indices plus the surface's baseVertIndex. */
  function RebasedFace(s: Surface, k: nat): Face
    requires k < |s.triIndices|
  {
    var tri := s.triIndices[k];
    Face(tri.i0 + s.baseVertIndex, tri.i1 + s.baseVertIndex, tri.i2 + s.baseVertIndex)
  }

  /** The faces of one surface, in triangle order. */
  function SurfaceFaces(s: Surface): (r: seq<Face>)
    requires TrisReadable(s)
    ensures |r| == s.triCount
  {
    seq(s.triCount, k requires 0 <= k < s.triCount => RebasedFace(s, k))
  }

  /** Taking baseVertIndex off a face's indices gives back its triangle. */
  lemma UnrebaseFace(s: Surface, k: nat)
    requires TrisReadable(s) && k < s.triCount
    ensures
      var f := SurfaceFaces(s)[k];
      && f.v0 >= s.baseVertIndex && f.v1 >= s.baseVertIndex && f.v2 >= s.baseVertIndex
      && Tri(f.v0 - s.baseVertIndex, f.v1 - s.baseVertIndex, f.v2 - s.baseVertIndex) == s.triIndices[k]
  {
  }

  /** Every triangle of the surface names vertices of the surface. */
  predicate TrisInSurface(s: Surface)
    requires TrisReadable(s)
  {
    forall k :: 0 <= k < s.triCount ==>
      var tri := s.triIndices[k];
      tri.i0 < s.vertCount && tri.i1 < s.vertCount && tri.i2 < s.vertCount
  }

  /** Then every face names a vertex of the run [baseVertIndex, baseVertIndex + vertCount). */
  lemma FacesStayInSurface(s: Surface, k: nat)
    requires TrisReadable(s) && TrisInSurface(s) && k < s.triCount
    ensures
      var f, lo, hi := SurfaceFaces(s)[k], s.baseVertIndex, s.baseVertIndex + s.vertCount;
      lo <= f.v0 < hi && lo <= f.v1 < hi && lo <= f.v2 < hi
  {
  }

  lemma {:induction false} VertexCountPrefix(ss: seq<Surface>, i: nat)
    requires i <= |ss|
    ensures VertexCount(ss[..i]) <= VertexCount(ss)
    decreases |ss| - i
  {
    if i < |ss| {
      VertexCountPrefix(ss, i + 1);
      assert ss[..i + 1][..i] == ss[..i];
    } else {
      assert ss[..i] == ss;
    }
  }

  /** Each surface's vertices start where the previous surfaces' vertices end. */
  predicate PackedVertices(ss: seq<Surface>)
  {
    forall i :: 0 <= i < |ss| ==> ss[i].baseVertIndex == VertexCount(ss[..i])
  }

  /**
   * With surfaces packed that way, the faces of surface i name only the
   * vertices AddXModelVertices added for surface i, and so never a vertex
   * beyond the ones added for the level of detail.
   */
  lemma FacesIndexOwnVertices(ss: seq<Surface>, i: nat, k: nat)
    requires PackedVertices(ss) && i < |ss| && TrisReadable(ss[i]) && TrisInSurface(ss[i]) && k < ss[i].triCount
    ensures
      var f, lo, hi := SurfaceFaces(ss[i])[k], VertexCount(ss[..i]), VertexCount(ss[..i + 1]);
      && lo <= f.v0 < hi && lo <= f.v1 < hi && lo <= f.v2 < hi
      && hi <= VertexCount(ss)
  {
    assert ss[..i + 1][..i] == ss[..i];
    FacesStayInSurface(ss[i], k);
    VertexCountPrefix(ss, i + 1);
  }
}
