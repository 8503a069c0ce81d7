/**
 * The parts of an XModel asset and of the exporter's XModelCommon that the
 * dumper's bookkeeping reads and writes: counts, indices, offsets and names.
 * Floating-point payloads (positions, normals, weights, rotations) are not
 * part of these types.
 */
module XModelData {

  datatype Option<T> = None | Some(value: T)

  /** XRigidVertList: one bone driving a run of vertices (its collision tree is not part of the model). */
  datatype VertList = VertList(boneOffset: nat, vertCount: nat, triOffset: nat, triCount: nat)

  /**
   * XSurfaceVertexInfo: how many vertices are driven by 1, 2, 3 and 4 bones,
   * and the packed vertsBlend array (per vertex: a bone offset, then a bone
   * offset and a 16-bit weight for each further bone).
   */
  datatype VertInfo = VertInfo(
    vertCount0: nat, vertCount1: nat, vertCount2: nat, vertCount3: nat,
    vertsBlend: Option<seq<nat>>)

  /** A triangle of surface-local vertex indices. */
  datatype Tri = Tri(i0: nat, i1: nat, i2: nat)

  /** XSurface. vertList is the pointer and vertListCount the count stored beside it. */
  datatype Surface = Surface(
    vertCount: nat, triCount: nat, baseVertIndex: nat,
    triIndices: seq<Tri>,
    vertListCount: nat, vertList: Option<seq<VertList>>,
    vertInfo: VertInfo)

  /** XModelLodInfo: the run of surfaces a level of detail uses. */
  datatype LodInfo = LodInfo(surfIndex: nat, numsurfs: nat)

  /** XModel. parentList[b - numRootBones] is how many bones back bone b's parent is. */
  datatype XModel = XModel(
    name: string,
    numBones: nat, numRootBones: nat,
    boneNames: seq<nat>, parentList: seq<nat>,
    surfs: Option<seq<Surface>>,
    lodInfo: seq<LodInfo>)

  /**
   * `&model->surfs[lodInfo[lod].surfIndex]` is a valid address: a level of
   * detail inside the table, and a run of surfaces inside the surface array
   * (or index 0 of a missing one, which gives the null pointer the dumper checks).
   */
  predicate LodInRange(model: XModel, lod: nat)
  {
    && lod < |model.lodInfo|
    && var info := model.lodInfo[lod];
    && (model.surfs.None? ==> info.surfIndex == 0)
    && (model.surfs.Some? ==> info.surfIndex + info.numsurfs <= |model.surfs.value|)
  }

  /** The surfaces of a level of detail, or None when the model has no surface array. */
  function LodSurfaces(model: XModel, lod: nat): (r: Option<seq<Surface>>)
    requires LodInRange(model, lod)
    ensures r.None? <==> model.surfs.None?
    ensures r.Some? ==> |r.value| == model.lodInfo[lod].numsurfs
    ensures r.Some? ==> forall i :: 0 <= i < |r.value| ==>
      r.value[i] == model.surfs.value[model.lodInfo[lod].surfIndex + i]
  {
    match model.surfs
    case None => None
    case Some(all) =>
      var info := model.lodInfo[lod];
      Some(all[info.surfIndex..info.surfIndex + info.numsurfs])
  }

  /** The vertex-list pointer is readable for vertListCount entries. */
  predicate VertListsReadable(s: Surface)
  {
    s.vertList.Some? ==> s.vertListCount <= |s.vertList.value|
  }

  /** How many vertsBlend entries the four blend groups use: 1, 3, 5 and 7 per vertex. */
  function BlendLength(vi: VertInfo): nat
  {
    vi.vertCount0 + 3 * vi.vertCount1 + 5 * vi.vertCount2 + 7 * vi.vertCount3
  }

  /** The vertsBlend pointer is readable for every entry the blend groups use. */
  predicate BlendReadable(s: Surface)
  {
    s.vertInfo.vertsBlend.Some? ==> BlendLength(s.vertInfo) <= |s.vertInfo.vertsBlend.value|
  }

  /** std::vector::resize: cut to n elements, or grow to n with copies of fill. */
  function Resize<T>(v: seq<T>, n: nat, fill: T): (r: seq<T>)
    ensures |r| == n
    ensures forall i :: 0 <= i < n && i < |v| ==> r[i] == v[i]
    ensures forall i :: |v| <= i < n ==> r[i] == fill
  {
    if n <= |v| then v[..n] else v + seq(n - |v|, _ => fill)
  }

  /** v with the elements from index at on replaced by data, written one at a time. */
  function Overwrite<T>(v: seq<T>, at: nat, data: seq<T>): (r: seq<T>)
    requires at + |data| <= |v|
    ensures |r| == |v|
    decreases |data|
  {
    if |data| == 0 then v else Overwrite(v[at := data[0]], at + 1, data[1..])
  }

  /** Overwrite replaces exactly the run [at, at + |data|) by data and keeps the rest of v. */
  lemma {:induction false} OverwriteAt<T>(v: seq<T>, at: nat, data: seq<T>)
    requires at + |data| <= |v|
    ensures forall i :: 0 <= i < |v| ==> Overwrite(v, at, data)[i] == if at <= i < at + |data| then data[i - at] else v[i]
    decreases |data|
  {
    if data != [] {
      OverwriteAt(v[at := data[0]], at + 1, data[1..]);
    }
  }

  /** Writing one more element after a run extends the run. */
  lemma {:induction false} OverwriteExtend<T>(v: seq<T>, at: nat, data: seq<T>, x: T)
    requires at + |data| < |v|
    ensures Overwrite(v, at, data)[at + |data| := x] == Overwrite(v, at, data + [x])
    decreases |data|
  {
    if data == [] {
      assert Overwrite(v[at := x], at + 1, []) == v[at := x];
      assert ([] + [x])[1..] == [];
    } else {
      OverwriteExtend(v[at := data[0]], at + 1, data[1..], x);
      assert (data + [x])[1..] == data[1..] + [x];
    }
  }

  /** Writing a run right where another one ended writes their concatenation. */
  lemma {:induction false} OverwriteConcat<T>(v: seq<T>, at: nat, mid: nat, d1: seq<T>, d2: seq<T>)
    requires mid == at + |d1| && mid + |d2| <= |v|
    ensures Overwrite(Overwrite(v, at, d1), mid, d2) == Overwrite(v, at, d1 + d2)
    decreases |d1|
  {
    if |d1| == 0 {
      assert d1 + d2 == d2;
    } else {
      OverwriteConcat(v[at := d1[0]], at + 1, mid, d1[1..], d2);
      assert (d1 + d2)[1..] == d1[1..] + d2;
      assert (d1 + d2)[0] == d1[0];
    }
  }

  /** Appending is associative. */
  lemma AppendAssoc<T>(a: seq<T>, b: seq<T>, c: seq<T>)
    ensures a + b + c == a + (b + c)
  {
  }

  /** n copies of x. */
  function Repeat<T>(x: T, n: nat): (r: seq<T>)
    ensures |r| == n
  {
    if n == 0 then [] else Repeat(x, n - 1) + [x]
  }

  lemma {:induction false} RepeatAt<T>(x: T, n: nat)
    ensures forall i :: 0 <= i < n ==> Repeat(x, n)[i] == x
  {
    if n > 0 {
      RepeatAt(x, n - 1);
    }
  }

  /** Writing a run as long as the sequence from its start replaces the whole sequence. */
  lemma OverwriteAll<T>(v: seq<T>, data: seq<T>)
    requires |data| == |v|
    ensures Overwrite(v, 0, data) == data
  {
    OverwriteAt(v, 0, data);
    assert Overwrite(v, 0, data) == data;
  }

  /** XModelBone, without its offsets, rotations and scale. */
  datatype Bone = Bone(name: string, parentIndex: Option<int>)

  /** XModelVertexBoneWeights: the run of weight slots one vertex uses. */
  datatype VertexWeights = VertexWeights(weightOffset: nat, weightCount: nat)

  /** XModelFace: three model-wide vertex indices. */
  datatype Face = Face(v0: nat, v1: nat, v2: nat)

  /** XModelObject. */
  datatype XModelObject = XModelObject(name: string, materialIndex: int, faces: seq<Face>)

  /** XModelVertex; its coordinates, normal, colour and texture coordinates are floats. */
  datatype Vertex = Vertex

  /**
   * XModelCommon, the exporter-neutral model the dumper fills. weights holds the
   * bone index of each slot of m_bone_weight_data.weights.
   */
  class XModelCommon {
    var name: string
    var bones: seq<Bone>
    var weights: seq<nat>
    var vertexBoneWeights: seq<VertexWeights>
    var vertices: seq<Vertex>
    var objects: seq<XModelObject>

    constructor ()
      ensures name == [] && bones == [] && weights == [] && vertexBoneWeights == []
      ensures vertices == [] && objects == []
    {
      name := [];
      bones := [];
      weights := [];
      vertexBoneWeights := [];
      vertices := [];
      objects := [];
    }
  }
}
