/**
 * The XModel dumper's bookkeeping: filling XModelCommon's bones, weight slots,
 * per-vertex weight entries, vertices and faces for one level of detail.
 */
module XModelDumper {
  import opened XModelData
  import opened XModelWeights
  import opened XModelNames
  import opened XModelFill
  import opened XModelFaces

  /** The dumper reads vertList[0] of a surface that has a single rigid list and no blend data. */
  predicate ArmatureReadable(s: Surface)
  {
    s.vertListCount == 1 && s.vertInfo.vertsBlend.None? ==> s.vertList.Some? && |s.vertList.value| >= 1
  }

  /** A surface the default armature explains: one rigid list on bone 0 covering all of it. */
  predicate DefaultSurface(s: Surface)
    requires ArmatureReadable(s)
  {
    && s.vertListCount == 1 && s.vertInfo.vertsBlend.None?
    && var vertList := s.vertList.value[0];
    && vertList.boneOffset == 0 && vertList.triOffset == 0
    && vertList.triCount == s.triCount && vertList.vertCount == s.vertCount
  }

  /** The surface loop of HasDefaultArmature from surface i on: false at the first surface that fails. */
  function AllDefaultFrom(ss: seq<Surface>, i: nat): (r: bool)
    requires i <= |ss| && forall j :: 0 <= j < |ss| ==> ArmatureReadable(ss[j])
    ensures r <==> forall j :: i <= j < |ss| ==> DefaultSurface(ss[j])
    decreases |ss| - i
  {
    if i == |ss| then true
    else if !(ss[i].vertListCount == 1 && ss[i].vertInfo.vertsBlend.None?) then false
    else
      assert ArmatureReadable(ss[i]);
      var vertList := ss[i].vertList.value[0];
      if vertList.boneOffset != 0 || vertList.triOffset != 0
        || vertList.triCount != ss[i].triCount || vertList.vertCount != ss[i].vertCount
      then false
      else AllDefaultFrom(ss, i + 1)
  }

  /**
   * HasDefaultArmature: a model with one bone, which is its only root, whose
   * level of detail is made only of surfaces the default armature explains
   * (or has no surface array).
   */
  function HasDefaultArmature(model: XModel, lod: nat): (r: bool)
    requires LodInRange(model, lod)
    requires LodSurfaces(model, lod).Some? ==>
      forall j :: 0 <= j < |LodSurfaces(model, lod).value| ==> ArmatureReadable(LodSurfaces(model, lod).value[j])
    ensures r <==> (
      && model.numRootBones == 1 && model.numBones == 1
      && (LodSurfaces(model, lod).Some? ==>
            forall j :: 0 <= j < |LodSurfaces(model, lod).value| ==> DefaultSurface(LodSurfaces(model, lod).value[j])))
  {
    if model.numRootBones != 1 || model.numBones != 1 then false
    else
      var surfs := LodSurfaces(model, lod);
      if surfs.None? then true else AllDefaultFrom(surfs.value, 0)
  }

  /** OmitDefaultArmature: no bones, no weight slots, and one empty entry per vertex. */
  method OmitDefaultArmature(out: XModelCommon)
    modifies out`bones, out`weights, out`vertexBoneWeights
    ensures out.bones == [] && out.weights == []
    ensures out.vertexBoneWeights == seq(|out.vertices|, _ => VertexWeights(0, 0))
  {
    out.bones := [];
    out.weights := [];
    out.vertexBoneWeights := Resize(out.vertexBoneWeights, |out.vertices|, VertexWeights(0, 0));
    var i := 0;
    while i < |out.vertexBoneWeights|
      invariant out.bones == [] && out.weights == []
      invariant i <= |out.vertexBoneWeights| == |out.vertices|
      invariant forall j :: 0 <= j < i ==> out.vertexBoneWeights[j] == VertexWeights(0, 0)
    {
      out.vertexBoneWeights := out.vertexBoneWeights[i := VertexWeights(0, 0)];
      i := i + 1;
    }
  }

  /** The bone AddXModelBones makes for bone number b. */
  function BoneFor(model: XModel, scriptStrings: seq<string>, b: nat): Bone
    requires b < |model.boneNames|
    requires b >= model.numRootBones ==> b - model.numRootBones < |model.parentList|
  {
    var name := if model.boneNames[b] < |scriptStrings| then scriptStrings[model.boneNames[b]] else "INVALID_BONE_NAME";
    var parent := if b >= model.numRootBones then Some(b - model.parentList[b - model.numRootBones]) else None;
    Bone(name, parent)
  }

  /** The bone arrays cover every bone the model declares. */
  predicate BonesReadable(model: XModel)
  {
    && model.numBones <= |model.boneNames|
    && (model.numBones > model.numRootBones ==> model.numBones - model.numRootBones <= |model.parentList|)
  }

  /** The bones AddXModelBones appends, in bone order. */
  function ModelBones(model: XModel, scriptStrings: seq<string>): (r: seq<Bone>)
    requires BonesReadable(model)
    ensures |r| == model.numBones
  {
    seq(model.numBones, b requires 0 <= b < model.numBones => BoneFor(model, scriptStrings, b))
  }

  /** Every non-root bone's parent distance (parentList[k] for bone numRootBones + k) is at least 1 and at most its own number. */
  predicate ParentDistancesInRange(model: XModel)
    requires BonesReadable(model)
  {
    forall k :: 0 <= k < |model.parentList| && model.numRootBones + k < model.numBones ==>
      1 <= model.parentList[k] <= model.numRootBones + k
  }

  /** Every bone with a parent comes after it: the bones form a forest listed parents first. */
  predicate ParentsPrecede(bones: seq<Bone>)
  {
    forall b :: 0 <= b < |bones| && bones[b].parentIndex.Some? ==> 0 <= bones[b].parentIndex.value < b
  }

  /** The parentless bone that bone b's chain of parents ends at. */
  function RootOf(bones: seq<Bone>, b: nat): (r: nat)
    requires ParentsPrecede(bones) && b < |bones|
    ensures r <= b && bones[r].parentIndex.None?
    decreases b
  {
    match bones[b].parentIndex
    case None => b
    case Some(p) => RootOf(bones, p)
  }

  /**
   * The bones AddXModelBones makes: exactly the first numRootBones have no
   * parent, and each name is the bone's script string, or
   * "INVALID_BONE_NAME" when its index is outside the zone's table.
   */
  lemma {:induction false} ModelBonesShape(model: XModel, scriptStrings: seq<string>, b: nat)
    requires BonesReadable(model) && b < model.numBones
    ensures var bone := ModelBones(model, scriptStrings)[b];
      && (bone.parentIndex.None? <==> b < model.numRootBones)
      && (model.boneNames[b] < |scriptStrings| ==> bone.name == scriptStrings[model.boneNames[b]])
      && (model.boneNames[b] >= |scriptStrings| ==> bone.name == "INVALID_BONE_NAME")
      && (bone.name in scriptStrings || bone.name == "INVALID_BONE_NAME")
  {
    var bone := ModelBones(model, scriptStrings)[b];
    assert bone == BoneFor(model, scriptStrings, b);
  }

  /** The appended bones list every parent before its children exactly when every parent distance is in range. */
  lemma {:induction false} ParentsPrecedeIffInRange(model: XModel, scriptStrings: seq<string>)
    requires BonesReadable(model)
    ensures ParentsPrecede(ModelBones(model, scriptStrings)) <==> ParentDistancesInRange(model)
  {
    var bones := ModelBones(model, scriptStrings);
    if ParentsPrecede(bones) {
      forall k | 0 <= k < |model.parentList| && model.numRootBones + k < model.numBones
        ensures 1 <= model.parentList[k] <= model.numRootBones + k
      {
        var b := model.numRootBones + k;
        assert bones[b] == BoneFor(model, scriptStrings, b);
      }
    }
    if ParentDistancesInRange(model) {
      forall b | 0 <= b < |bones| && bones[b].parentIndex.Some?
        ensures 0 <= bones[b].parentIndex.value < b
      {
        assert bones[b] == BoneFor(model, scriptStrings, b);
        assert model.numRootBones <= b < model.numBones;
      }
    }
  }

  /** With every parent distance in range, each bone's chain of parents ends at one of the root bones. */
  lemma {:induction false} EveryBoneReachesRoot(model: XModel, scriptStrings: seq<string>, b: nat)
    requires BonesReadable(model) && ParentDistancesInRange(model) && b < model.numBones
    ensures ParentsPrecede(ModelBones(model, scriptStrings))
    ensures RootOf(ModelBones(model, scriptStrings), b) < model.numRootBones
  {
    ParentsPrecedeIffInRange(model, scriptStrings);
    ModelBonesShape(model, scriptStrings, RootOf(ModelBones(model, scriptStrings), b));
  }

  /** AddXModelBones: one bone per model bone, appended in bone order. */
  method AddXModelBones(out: XModelCommon, scriptStrings: seq<string>, model: XModel)
    requires BonesReadable(model)
    modifies out`bones
    ensures out.bones == old(out.bones) + ModelBones(model, scriptStrings)
  {
    var boneNum := 0;
    while boneNum < model.numBones
      invariant boneNum <= model.numBones
      invariant |out.bones| == |old(out.bones)| + boneNum
      invariant out.bones[..|old(out.bones)|] == old(out.bones)
      invariant forall b :: 0 <= b < boneNum ==> out.bones[|old(out.bones)| + b] == BoneFor(model, scriptStrings, b)
    {
      var name := if model.boneNames[boneNum] < |scriptStrings| then scriptStrings[model.boneNames[boneNum]]
        else "INVALID_BONE_NAME";
      var parentIndex := if boneNum >= model.numRootBones
        then Some(boneNum - model.parentList[boneNum - model.numRootBones]) else None;
      out.bones := out.bones + [Bone(name, parentIndex)];
      boneNum := boneNum + 1;
    }
    assert out.bones == old(out.bones) + ModelBones(model, scriptStrings);
  }

  lemma {:induction false} TotalWeightCountPrefix(ss: seq<Surface>, i: nat)
    requires i <= |ss|
    ensures TotalWeightCount(ss[..i]) <= TotalWeightCount(ss)
    decreases |ss| - i
  {
    if i < |ss| {
      TotalWeightCountPrefix(ss, i + 1);
      assert ss[..i + 1][..i] == ss[..i];
    } else {
      assert ss[..i] == ss;
    }
  }

  /** One more surface of a level of detail: its slots start where the previous surfaces' slots end. */
  lemma LodStep(w: seq<nat>, e: seq<VertexWeights>, ss: seq<Surface>, k: nat, skelMatSize: nat)
    requires k < |ss| && SurfacesReadable(ss) && TotalWeightCount(ss) <= |w| && skelMatSize > 0
    ensures SurfacesReadable(ss[..k + 1])
    ensures TotalWeightCount(ss[..k]) + SurfaceWeightCount(ss[k]) == TotalWeightCount(ss[..k + 1]) <= TotalWeightCount(ss)
    ensures WriteLod(w, ss[..k + 1], skelMatSize)
      == WriteSurface(WriteLod(w, ss[..k], skelMatSize), ss[k], TotalWeightCount(ss[..k]), skelMatSize)
    ensures AppendLod(e, ss[..k + 1]) == AppendSurface(AppendLod(e, ss[..k]), ss[k], TotalWeightCount(ss[..k]))
  {
    TotalWeightCountPrefix(ss, k + 1);
    assert ss[..k + 1][..k] == ss[..k];
  }

  /** AllocateXModelBoneWeights: resizes the weight slots to exactly the count of the level of detail. */
  method AllocateXModelBoneWeights(model: XModel, lod: nat, out: XModelCommon)
    requires LodInRange(model, lod)
    modifies out`weights
    ensures LodSurfaces(model, lod).None? ==> out.weights == old(out.weights)
    ensures LodSurfaces(model, lod).Some? ==>
      out.weights == Resize(old(out.weights), TotalWeightCount(LodSurfaces(model, lod).value), 0)
  {
    var surfs := LodSurfaces(model, lod);
    if surfs.None? {
      return;
    }
    var ss := surfs.value;
    var totalWeightCount := 0;
    var surfIndex := 0;
    while surfIndex < |ss|
      invariant surfIndex <= |ss|
      invariant totalWeightCount == TotalWeightCount(ss[..surfIndex])
    {
      var surface := ss[surfIndex];
      if surface.vertList.Some? {
        totalWeightCount := totalWeightCount + surface.vertListCount;
      }
      if surface.vertInfo.vertsBlend.Some? {
        totalWeightCount := totalWeightCount + surface.vertInfo.vertCount0 * 1;
        totalWeightCount := totalWeightCount + surface.vertInfo.vertCount1 * 2;
        totalWeightCount := totalWeightCount + surface.vertInfo.vertCount2 * 3;
        totalWeightCount := totalWeightCount + surface.vertInfo.vertCount3 * 4;
      }
      assert ss[..surfIndex + 1][..surfIndex] == ss[..surfIndex];
      surfIndex := surfIndex + 1;
    }
    assert ss[..|ss|] == ss;
    out.weights := Resize(out.weights, totalWeightCount, 0);
  }

  /** AddXModelVertices, as far as counts go: one vertex per vertex of every surface. */
  method AddXModelVertices(out: XModelCommon, model: XModel, lod: nat)
    requires LodInRange(model, lod)
    modifies out`vertices
    ensures LodSurfaces(model, lod).None? ==> out.vertices == old(out.vertices)
    ensures LodSurfaces(model, lod).Some? ==>
      out.vertices == old(out.vertices) + seq(VertexCount(LodSurfaces(model, lod).value), _ => Vertex)
  {
    var surfs := LodSurfaces(model, lod);
    if surfs.None? {
      return;
    }
    var ss := surfs.value;
    var surfIndex := 0;
    while surfIndex < |ss|
      invariant surfIndex <= |ss|
      invariant out.vertices == old(out.vertices) + seq(VertexCount(ss[..surfIndex]), _ => Vertex)
    {
      var vertexIndex := 0;
      while vertexIndex < ss[surfIndex].vertCount
        invariant vertexIndex <= ss[surfIndex].vertCount
        invariant out.vertices == old(out.vertices) + seq(VertexCount(ss[..surfIndex]) + vertexIndex, _ => Vertex)
      {
        out.vertices := out.vertices + [Vertex];
        vertexIndex := vertexIndex + 1;
      }
      assert ss[..surfIndex + 1][..surfIndex] == ss[..surfIndex];
      surfIndex := surfIndex + 1;
    }
    assert ss[..|ss|] == ss;
  }

  /** The slots of one blend vertex: its g bone offsets, at positions 0, 1, 3, 5 of its vertsBlend run. */
  method WriteBlendVertex(out: XModelCommon, blend: seq<nat>, at: nat, g: nat, skelMatSize: nat, weightOffset: nat)
    returns (nextWeight: nat)
    requires 1 <= g && at + 2 * g - 1 <= |blend| && skelMatSize > 0
    requires weightOffset + g <= |out.weights|
    modifies out`weights
    ensures nextWeight == weightOffset + g
    ensures out.weights == Overwrite(old(out.weights), weightOffset, VertexBones(blend, at, g, skelMatSize))
  {
    nextWeight := weightOffset;
    var k := 0;
    while k < g
      invariant k <= g && nextWeight == weightOffset + k
      invariant out.weights == Overwrite(old(out.weights), weightOffset, VertexBones(blend, at, g, skelMatSize)[..k])
    {
      ghost var vertex := VertexBones(blend, at, g, skelMatSize);
      OverwriteExtend(old(out.weights), weightOffset, vertex[..k], vertex[k]);
      assert vertex[..k] + [vertex[k]] == vertex[..k + 1];
      out.weights := out.weights[nextWeight := BoneIndex(blend[at + BonePos(k)], skelMatSize)];
      nextWeight := nextWeight + 1;
      k := k + 1;
    }
    assert VertexBones(blend, at, g, skelMatSize)[..g] == VertexBones(blend, at, g, skelMatSize);
  }

  /**
   * One blend-group loop of AddXModelVertexBoneWeights: n vertices of g bones
   * each, whose vertsBlend runs start at blendOffset and whose slots start at
   * weightOffset. Each vertex writes its g slots and appends one entry for them.
   */
  method AddBlendGroup(out: XModelCommon, blend: seq<nat>, g: nat, n: nat, skelMatSize: nat,
                       weightOffset: nat, blendOffset: nat)
    returns (nextWeight: nat, nextBlend: nat)
    requires 1 <= g && BlendEnd(blendOffset, g, n) <= |blend| && skelMatSize > 0
    requires GroupEnd(weightOffset, g, n) <= |out.weights|
    modifies out`weights, out`vertexBoneWeights
    ensures nextWeight == GroupEnd(weightOffset, g, n) && nextBlend == BlendEnd(blendOffset, g, n)
    ensures out.weights == WriteGroup(old(out.weights), weightOffset, blend, blendOffset, g, n, skelMatSize)
    ensures out.vertexBoneWeights == AppendGroup(old(out.vertexBoneWeights), weightOffset, g, n)
  {
    nextWeight, nextBlend := weightOffset, blendOffset;
    var vertIndex := 0;
    while vertIndex < n
      invariant vertIndex <= n
      invariant GroupEnd(weightOffset, g, vertIndex) <= GroupEnd(weightOffset, g, n)
      invariant BlendEnd(blendOffset, g, vertIndex) <= BlendEnd(blendOffset, g, n)
      invariant nextWeight == GroupEnd(weightOffset, g, vertIndex)
      invariant nextBlend == BlendEnd(blendOffset, g, vertIndex)
      invariant out.weights == WriteGroup(old(out.weights), weightOffset, blend, blendOffset, g, vertIndex, skelMatSize)
      invariant out.vertexBoneWeights == AppendGroup(old(out.vertexBoneWeights), weightOffset, g, vertIndex)
    {
      GroupStep(weightOffset, blendOffset, g, vertIndex, n);
      var boneWeightOffset := nextWeight;
      nextWeight := WriteBlendVertex(out, blend, nextBlend, g, skelMatSize, nextWeight);
      nextBlend := nextBlend + (2 * g - 1);
      out.vertexBoneWeights := out.vertexBoneWeights + [VertexWeights(boneWeightOffset, g)];
      vertIndex := vertIndex + 1;
    }
  }

  /**
   * The rigid part of AddXModelVertexBoneWeights' surface loop: one slot per
   * vertex list, shared by one entry per vertex the list drives.
   */
  method AddRigidWeights(out: XModelCommon, lists: seq<VertList>, count: nat, skelMatSize: nat, weightOffset: nat)
    returns (nextWeight: nat, handledVertices: nat)
    requires count <= |lists| && skelMatSize > 0 && weightOffset + count <= |out.weights|
    modifies out`weights, out`vertexBoneWeights
    ensures nextWeight == weightOffset + count && handledVertices == RigidVertices(lists, count)
    ensures out.weights == WriteRigid(old(out.weights), lists, count, weightOffset, skelMatSize)
    ensures out.vertexBoneWeights == AppendRigid(old(out.vertexBoneWeights), lists, count, weightOffset)
  {
    nextWeight, handledVertices := weightOffset, 0;
    var vertListIndex := 0;
    while vertListIndex < count
      invariant vertListIndex <= count
      invariant nextWeight == weightOffset + vertListIndex
      invariant out.weights == WriteRigid(old(out.weights), lists, vertListIndex, weightOffset, skelMatSize)
      invariant out.vertexBoneWeights == AppendRigid(old(out.vertexBoneWeights), lists, vertListIndex, weightOffset)
      invariant handledVertices == RigidVertices(lists, vertListIndex)
    {
      var vertList := lists[vertListIndex];
      var boneWeightOffset := nextWeight;
      out.weights := out.weights[nextWeight := BoneIndex(vertList.boneOffset, skelMatSize)];
      nextWeight := nextWeight + 1;
      ghost var written := out.weights;
      ghost var entries := out.vertexBoneWeights;
      var vertListVertexOffset := 0;
      while vertListVertexOffset < vertList.vertCount
        invariant vertListVertexOffset <= vertList.vertCount
        invariant out.weights == written
        invariant out.vertexBoneWeights == AppendCopies(entries, VertexWeights(boneWeightOffset, 1), vertListVertexOffset)
      {
        out.vertexBoneWeights := out.vertexBoneWeights + [VertexWeights(boneWeightOffset, 1)];
        vertListVertexOffset := vertListVertexOffset + 1;
      }
      handledVertices := handledVertices + vertList.vertCount;
      vertListIndex := vertListIndex + 1;
    }
  }

  /** The blend part of AddXModelVertexBoneWeights' surface loop: the four groups in turn. */
  method AddBlendWeights(out: XModelCommon, blend: seq<nat>, vi: VertInfo, skelMatSize: nat, weightOffset: nat)
    returns (nextWeight: nat)
    requires BlendLength(vi) <= |blend| && skelMatSize > 0
    requires weightOffset + vi.vertCount0 + 2 * vi.vertCount1 + 3 * vi.vertCount2 + 4 * vi.vertCount3 <= |out.weights|
    modifies out`weights, out`vertexBoneWeights
    ensures nextWeight == weightOffset + vi.vertCount0 + 2 * vi.vertCount1 + 3 * vi.vertCount2 + 4 * vi.vertCount3
    ensures out.weights == WriteBlend(old(out.weights), weightOffset, blend, vi, skelMatSize)
    ensures out.vertexBoneWeights == AppendBlend(old(out.vertexBoneWeights), vi, weightOffset)
  {
    var c0, c1, c2, c3 := vi.vertCount0, vi.vertCount1, vi.vertCount2, vi.vertCount3;
    BlendEnds(vi, weightOffset);
    BlendEnds(vi, 0);
    var vertsBlendOffset := 0;
    nextWeight := weightOffset;
    nextWeight, vertsBlendOffset := AddBlendGroup(out, blend, 1, c0, skelMatSize, nextWeight, vertsBlendOffset);
    nextWeight, vertsBlendOffset := AddBlendGroup(out, blend, 2, c1, skelMatSize, nextWeight, vertsBlendOffset);
    nextWeight, vertsBlendOffset := AddBlendGroup(out, blend, 3, c2, skelMatSize, nextWeight, vertsBlendOffset);
    nextWeight, vertsBlendOffset := AddBlendGroup(out, blend, 4, c3, skelMatSize, nextWeight, vertsBlendOffset);
  }

  /**
   * The body of AddXModelVertexBoneWeights' surface loop: rigid lists, then
   * the four blend groups, then padding up to the surface's vertex count.
   */
  method AddSurfaceWeights(out: XModelCommon, surface: Surface, skelMatSize: nat, weightOffset: nat)
    returns (nextWeight: nat)
    requires VertListsReadable(surface) && BlendReadable(surface) && skelMatSize > 0
    requires weightOffset + SurfaceWeightCount(surface) <= |out.weights|
    modifies out`weights, out`vertexBoneWeights
    ensures nextWeight == weightOffset + SurfaceWeightCount(surface)
    ensures out.weights == WriteSurface(old(out.weights), surface, weightOffset, skelMatSize)
    ensures out.vertexBoneWeights == AppendSurface(old(out.vertexBoneWeights), surface, weightOffset)
  {
    var rigidHandled, blendHandled;
    nextWeight, rigidHandled := AddRigidPart(out, surface, skelMatSize, weightOffset);
    nextWeight, blendHandled := AddBlendPart(out, surface, skelMatSize, nextWeight);
    AddPadding(out, rigidHandled + blendHandled, surface.vertCount);
  }

  /** The rigid lists of one surface, if it has any, their slots from weightOffset on. */
  method AddRigidPart(out: XModelCommon, surface: Surface, skelMatSize: nat, weightOffset: nat)
    returns (nextWeight: nat, handledVertices: nat)
    requires VertListsReadable(surface) && skelMatSize > 0
    requires RigidEnd(surface, weightOffset) <= |out.weights|
    modifies out`weights, out`vertexBoneWeights
    ensures nextWeight == RigidEnd(surface, weightOffset)
    ensures handledVertices == if surface.vertList.Some? then RigidVertices(surface.vertList.value, surface.vertListCount) else 0
    ensures out.weights == WriteRigidPart(old(out.weights), surface, weightOffset, skelMatSize)
    ensures out.vertexBoneWeights == AppendRigidPart(old(out.vertexBoneWeights), surface, weightOffset)
  {
    nextWeight, handledVertices := weightOffset, 0;
    if surface.vertList.Some? {
      nextWeight, handledVertices := AddRigidWeights(out, surface.vertList.value, surface.vertListCount, skelMatSize, nextWeight);
    }
  }

  /** The blend groups of one surface, if it has any, their slots from weightOffset on. */
  method AddBlendPart(out: XModelCommon, surface: Surface, skelMatSize: nat, weightOffset: nat)
    returns (nextWeight: nat, handledVertices: nat)
    requires BlendReadable(surface) && skelMatSize > 0
    requires weightOffset + SurfaceWeightCount(surface) - RigidEnd(surface, 0) <= |out.weights|
    modifies out`weights, out`vertexBoneWeights
    ensures nextWeight == weightOffset + SurfaceWeightCount(surface) - RigidEnd(surface, 0)
    ensures handledVertices == if surface.vertInfo.vertsBlend.Some? then
      var vi := surface.vertInfo; vi.vertCount0 + vi.vertCount1 + vi.vertCount2 + vi.vertCount3 else 0
    ensures out.weights == WriteBlendPart(old(out.weights), surface, weightOffset, skelMatSize)
    ensures out.vertexBoneWeights == AppendBlendPart(old(out.vertexBoneWeights), surface, weightOffset)
  {
    nextWeight, handledVertices := weightOffset, 0;
    var vi := surface.vertInfo;
    if vi.vertsBlend.Some? {
      nextWeight := AddBlendWeights(out, vi.vertsBlend.value, vi, skelMatSize, nextWeight);
      handledVertices := vi.vertCount0 + vi.vertCount1 + vi.vertCount2 + vi.vertCount3;
    }
  }

  /** The padding loop of AddXModelVertexBoneWeights: a (0, 0) entry for each vertex no list or group handled. */
  method AddPadding(out: XModelCommon, handled: nat, vertCount: nat)
    modifies out`vertexBoneWeights
    ensures out.vertexBoneWeights
      == AppendCopies(old(out.vertexBoneWeights), VertexWeights(0, 0), if handled < vertCount then vertCount - handled else 0)
  {
    var handledVertices := handled;
    while handledVertices < vertCount
      invariant handled <= handledVertices
      invariant handled < vertCount ==> handledVertices <= vertCount
      invariant handled >= vertCount ==> handledVertices == handled
      invariant out.vertexBoneWeights == AppendCopies(old(out.vertexBoneWeights), VertexWeights(0, 0), handledVertices - handled)
    {
      out.vertexBoneWeights := out.vertexBoneWeights + [VertexWeights(0, 0)];
      handledVertices := handledVertices + 1;
    }
  }

  /**
   * AddXModelVertexBoneWeights: nothing without a surface array; otherwise every
   * surface of the level of detail in turn, its slots following the previous
   * surface's.
   */
  method AddXModelVertexBoneWeights(out: XModelCommon, model: XModel, lod: nat, skelMatSize: nat)
    requires LodInRange(model, lod) && skelMatSize > 0
    requires LodSurfaces(model, lod).Some? ==>
      SurfacesReadable(LodSurfaces(model, lod).value) && TotalWeightCount(LodSurfaces(model, lod).value) <= |out.weights|
    modifies out`weights, out`vertexBoneWeights
    ensures LodSurfaces(model, lod).None? ==>
      out.weights == old(out.weights) && out.vertexBoneWeights == old(out.vertexBoneWeights)
    ensures LodSurfaces(model, lod).Some? ==>
      && out.weights == WriteLod(old(out.weights), LodSurfaces(model, lod).value, skelMatSize)
      && out.vertexBoneWeights == AppendLod(old(out.vertexBoneWeights), LodSurfaces(model, lod).value)
  {
    var surfs := LodSurfaces(model, lod);
    if surfs.Some? {
      AddLodWeights(out, surfs.value, skelMatSize);
    }
  }

  /** The surface loop of AddXModelVertexBoneWeights: each surface's slots follow the previous surface's. */
  method AddLodWeights(out: XModelCommon, ss: seq<Surface>, skelMatSize: nat)
    requires SurfacesReadable(ss) && TotalWeightCount(ss) <= |out.weights| && skelMatSize > 0
    modifies out`weights, out`vertexBoneWeights
    ensures out.weights == WriteLod(old(out.weights), ss, skelMatSize)
    ensures out.vertexBoneWeights == AppendLod(old(out.vertexBoneWeights), ss)
  {
    var weightOffset := 0;
    var surfIndex := 0;
    while surfIndex < |ss|
      invariant surfIndex <= |ss|
      invariant SurfacesReadable(ss[..surfIndex])
      invariant weightOffset == TotalWeightCount(ss[..surfIndex]) <= TotalWeightCount(ss)
      invariant out.weights == WriteLod(old(out.weights), ss[..surfIndex], skelMatSize)
      invariant out.vertexBoneWeights == AppendLod(old(out.vertexBoneWeights), ss[..surfIndex])
    {
      LodStep(old(out.weights), old(out.vertexBoneWeights), ss, surfIndex, skelMatSize);
      weightOffset := AddSurfaceWeights(out, ss[surfIndex], skelMatSize, weightOffset);
      surfIndex := surfIndex + 1;
    }
    assert ss[..|ss|] == ss;
  }

  /** The name AddXModelObjects gives the object of the i-th surface of a level of detail. */
  function ObjectName(i: nat): (r: string)
    ensures |r| > 4 && r[..4] == "surf" && IsDigits(r[4..]) && DecimalValue(r[4..]) == i
  {
    DecimalRoundTrip(i);
    assert ("surf" + Decimal(i))[4..] == Decimal(i);
    "surf" + Decimal(i)
  }

  /** Different surfaces of a level of detail get differently named objects. */
  lemma ObjectNamesDistinct(a: nat, b: nat)
    requires ObjectName(a) == ObjectName(b)
    ensures a == b
  {
    assert Decimal(a) == ObjectName(a)[4..];
    assert Decimal(b) == ObjectName(b)[4..];
    DecimalRoundTrip(a);
    DecimalRoundTrip(b);
  }

  /**
   * AddXModelObjects: one object per surface of the level of detail, surf0,
   * surf1, ..., with no faces yet. materialPositions[j] is the position the
   * material mapper gives the material of model surface j.
   */
  method AddXModelObjects(out: XModelCommon, model: XModel, lod: nat, materialPositions: seq<int>)
    requires lod < |model.lodInfo|
    requires model.lodInfo[lod].surfIndex + model.lodInfo[lod].numsurfs <= |materialPositions|
    modifies out`objects
    ensures |out.objects| == |old(out.objects)| + model.lodInfo[lod].numsurfs
    ensures out.objects[..|old(out.objects)|] == old(out.objects)
    ensures forall i :: 0 <= i < model.lodInfo[lod].numsurfs ==>
      out.objects[|old(out.objects)| + i]
        == XModelObject(ObjectName(i), materialPositions[model.lodInfo[lod].surfIndex + i], [])
  {
    var surfCount := model.lodInfo[lod].numsurfs;
    var baseSurfaceIndex := model.lodInfo[lod].surfIndex;
    var surfIndex := 0;
    while surfIndex < surfCount
      invariant surfIndex <= surfCount
      invariant |out.objects| == |old(out.objects)| + surfIndex
      invariant out.objects[..|old(out.objects)|] == old(out.objects)
      invariant forall i :: 0 <= i < surfIndex ==>
        out.objects[|old(out.objects)| + i] == XModelObject(ObjectName(i), materialPositions[baseSurfaceIndex + i], [])
    {
      var xObject := XModelObject("surf" + Decimal(surfIndex), materialPositions[surfIndex + baseSurfaceIndex], []);
      out.objects := out.objects + [xObject];
      surfIndex := surfIndex + 1;
    }
  }

  /** Every surface of the level of detail has a readable triangle array. */
  predicate FacesReadable(ss: seq<Surface>)
  {
    forall i :: 0 <= i < |ss| ==> TrisReadable(ss[i])
  }

  /** The objects after the first n surfaces appended their faces to objects[0..n). */
  function WithFaces(objects: seq<XModelObject>, ss: seq<Surface>, n: nat): (r: seq<XModelObject>)
    requires n <= |ss| <= |objects| && FacesReadable(ss)
    ensures |r| == |objects|
  {
    if n == 0 then objects
    else
      var before := WithFaces(objects, ss, n - 1);
      before[n - 1 := before[n - 1].(faces := before[n - 1].faces + SurfaceFaces(ss[n - 1]))]
  }

  /**
   * Object i gets exactly the faces of surface i after its own, for every
   * surface of the level of detail; it keeps its name and material, and
   * objects past the surfaces are untouched.
   */
  lemma {:induction false} WithFacesObjects(objects: seq<XModelObject>, ss: seq<Surface>, n: nat)
    requires n <= |ss| <= |objects| && FacesReadable(ss)
    ensures forall i :: 0 <= i < |objects| ==>
      WithFaces(objects, ss, n)[i] == if i < n then objects[i].(faces := objects[i].faces + SurfaceFaces(ss[i])) else objects[i]
  {
    if n > 0 {
      WithFacesObjects(objects, ss, n - 1);
    }
  }

  /**
   * AddXModelFaces: nothing without a surface array; otherwise the object of
   * surface i, out.m_objects[i], gets one face per triangle of surface i.
   */
  method AddXModelFaces(out: XModelCommon, model: XModel, lod: nat)
    requires LodInRange(model, lod)
    requires LodSurfaces(model, lod).Some? ==>
      FacesReadable(LodSurfaces(model, lod).value) && model.lodInfo[lod].numsurfs <= |out.objects|
    modifies out`objects
    ensures LodSurfaces(model, lod).None? ==> out.objects == old(out.objects)
    ensures LodSurfaces(model, lod).Some? ==>
      out.objects == WithFaces(old(out.objects), LodSurfaces(model, lod).value, |LodSurfaces(model, lod).value|)
  {
    var surfs := LodSurfaces(model, lod);
    if surfs.None? {
      return;
    }
    var ss := surfs.value;
    var surfIndex := 0;
    while surfIndex < |ss|
      invariant surfIndex <= |ss|
      invariant out.objects == WithFaces(old(out.objects), ss, surfIndex)
    {
      var surface := ss[surfIndex];
      var xObject := out.objects[surfIndex];
      ghost var faces0 := xObject.faces;
      var triIndex := 0;
      while triIndex < surface.triCount
        invariant triIndex <= surface.triCount
        invariant xObject == out.objects[surfIndex].(faces := faces0 + SurfaceFaces(surface)[..triIndex])
      {
        var tri := surface.triIndices[triIndex];
        var face := Face(tri.i0 + surface.baseVertIndex, tri.i1 + surface.baseVertIndex, tri.i2 + surface.baseVertIndex);
        assert SurfaceFaces(surface)[..triIndex + 1] == SurfaceFaces(surface)[..triIndex] + [face];
        xObject := xObject.(faces := xObject.faces + [face]);
        triIndex := triIndex + 1;
      }
      assert SurfaceFaces(surface)[..surface.triCount] == SurfaceFaces(surface);
      out.objects := out.objects[surfIndex := xObject];
      surfIndex := surfIndex + 1;
    }
  }

  /** What PopulateXModelWriter reads of a level of detail's surfaces. */
  predicate LodReadable(model: XModel, lod: nat)
    requires LodInRange(model, lod)
  {
    LodSurfaces(model, lod).Some? ==>
      var ss := LodSurfaces(model, lod).value;
      && SurfacesReadable(ss) && FacesReadable(ss)
      && forall j :: 0 <= j < |ss| ==> ArmatureReadable(ss[j])
  }

  /**
   * The armature a level of detail ends up with, from bones0, weights0 and
   * entries0 before it was added: either the omitted default armature (no
   * bones, no weight slots, an empty entry per vertex), or every bone
   * appended, exactly the slots of the surfaces in fill order and their
   * entries appended.
   */
  ghost predicate ArmatureAdded(out: XModelCommon, scriptStrings: seq<string>, lod: nat, model: XModel, skelMatSize: nat,
                                bones0: seq<Bone>, weights0: seq<nat>, entries0: seq<VertexWeights>)
    reads out
    requires LodInRange(model, lod) && LodReadable(model, lod) && BonesReadable(model) && skelMatSize > 0
  {
    && (HasDefaultArmature(model, lod) ==>
          && out.bones == [] && out.weights == []
          && out.vertexBoneWeights == seq(|out.vertices|, _ => VertexWeights(0, 0)))
    && (!HasDefaultArmature(model, lod) ==>
          out.bones == bones0 + ModelBones(model, scriptStrings))
    && (!HasDefaultArmature(model, lod) && LodSurfaces(model, lod).Some? ==>
          && out.weights == LodBones(LodSurfaces(model, lod).value, skelMatSize)
          && out.vertexBoneWeights == entries0 + LodEntries(LodSurfaces(model, lod).value))
    && (!HasDefaultArmature(model, lod) && LodSurfaces(model, lod).None? ==>
          out.weights == weights0 && out.vertexBoneWeights == entries0)
  }

  /** The armature part of PopulateXModelWriter, once the weight slots are allocated. */
  method AddArmature(out: XModelCommon, scriptStrings: seq<string>, lod: nat, model: XModel, skelMatSize: nat)
    requires LodInRange(model, lod) && LodReadable(model, lod) && BonesReadable(model) && skelMatSize > 0
    requires LodSurfaces(model, lod).Some? ==> |out.weights| == TotalWeightCount(LodSurfaces(model, lod).value)
    modifies out`bones, out`weights, out`vertexBoneWeights
    ensures ArmatureAdded(out, scriptStrings, lod, model, skelMatSize,
                          old(out.bones), old(out.weights), old(out.vertexBoneWeights))
  {
    if !HasDefaultArmature(model, lod) {
      AddXModelBones(out, scriptStrings, model);
      ghost var sized, entries := out.weights, out.vertexBoneWeights;
      AddXModelVertexBoneWeights(out, model, lod, skelMatSize);
      var surfs := LodSurfaces(model, lod);
      if surfs.Some? {
        WriteLodBones(sized, surfs.value, skelMatSize);
        OverwriteAll(sized, LodBones(surfs.value, skelMatSize));
        AppendLodEntries(entries, surfs.value);
      }
    } else {
      OmitDefaultArmature(out);
    }
  }

  /**
   * PopulateXModelWriter: the exporter-neutral model of one level of detail.
   * It is named `{name}_lod{lod}`, gets the level's vertices and one object
   * per surface, and the armature ArmatureAdded describes.
   */
  method PopulateXModelWriter(out: XModelCommon, scriptStrings: seq<string>, lod: nat, model: XModel,
                              materialPositions: seq<int>, skelMatSize: nat)
    requires LodInRange(model, lod) && LodReadable(model, lod) && BonesReadable(model) && skelMatSize > 0
    requires model.lodInfo[lod].surfIndex + model.lodInfo[lod].numsurfs <= |materialPositions|
    modifies out
    ensures out.name == model.name + "_lod" + Decimal(lod)
    ensures LodSurfaces(model, lod).Some? ==>
      out.vertices == old(out.vertices) + seq(VertexCount(LodSurfaces(model, lod).value), _ => Vertex)
    ensures LodSurfaces(model, lod).None? ==> out.vertices == old(out.vertices)
    ensures |out.objects| == |old(out.objects)| + model.lodInfo[lod].numsurfs
    ensures ArmatureAdded(out, scriptStrings, lod, model, skelMatSize,
                          old(out.bones), old(out.weights), old(out.vertexBoneWeights))
  {
    AllocateXModelBoneWeights(model, lod, out);
    out.name := model.name + "_lod" + Decimal(lod);
    AddXModelObjects(out, model, lod, materialPositions);
    AddXModelVertices(out, model, lod);
    AddXModelFaces(out, model, lod);
    AddArmature(out, scriptStrings, lod, model, skelMatSize);
  }
}
