/**
 * The fill of AddXModelVertexBoneWeights step by step, as functions of the
 * state before it: WriteX gives the weight slots after part X has written
 * its bone indices starting at a slot, AppendX the per-vertex entries after
 * part X has appended its own. Each is tied by a lemma to the value it
 * produces in XModelWeights: WriteX(w, ...) overwrites w with XBones from
 * that slot on, and AppendX(e, ...) is e followed by XEntries.
 */
module XModelFill {
  import opened XModelData
  import opened XModelWeights

  /** Overwriting with nothing changes nothing. */
  lemma OverwriteNothing<T>(v: seq<T>, at: nat)
    requires at <= |v|
    ensures Overwrite(v, at, []) == v
  {
  }

  /** Slots after the first n rigid lists each wrote their bone, from slot at on. */
  function WriteRigid(w: seq<nat>, lists: seq<VertList>, n: nat, at: nat, skelMatSize: nat): (r: seq<nat>)
    requires n <= |lists| && at + n <= |w| && skelMatSize > 0
    ensures |r| == |w|
  {
    if n == 0 then w
    else WriteRigid(w, lists, n - 1, at, skelMatSize)[at + n - 1 := BoneIndex(lists[n - 1].boneOffset, skelMatSize)]
  }

  lemma {:induction false} WriteRigidBones(w: seq<nat>, lists: seq<VertList>, n: nat, at: nat, skelMatSize: nat)
    requires n <= |lists| && at + n <= |w| && skelMatSize > 0
    ensures WriteRigid(w, lists, n, at, skelMatSize) == Overwrite(w, at, RigidBones(lists, n, skelMatSize))
  {
    if n > 0 {
      WriteRigidBones(w, lists, n - 1, at, skelMatSize);
      OverwriteExtend(w, at, RigidBones(lists, n - 1, skelMatSize), BoneIndex(lists[n - 1].boneOffset, skelMatSize));
    }
  }

  /** Slots after the first n vertices of blend group g wrote theirs, each its g bones. */
  function WriteGroup(w: seq<nat>, at: nat, blend: seq<nat>, start: nat, g: nat, n: nat, skelMatSize: nat): (r: seq<nat>)
    requires 1 <= g && GroupEnd(at, g, n) <= |w| && BlendEnd(start, g, n) <= |blend| && skelMatSize > 0
    ensures |r| == |w|
  {
    if n == 0 then w
    else
      TimesMonotonic(n - 1, n, g);
      TimesMonotonic(n - 1, n, 2 * g - 1);
      Overwrite(WriteGroup(w, at, blend, start, g, n - 1, skelMatSize),
                GroupEnd(at, g, n - 1), VertexBones(blend, BlendEnd(start, g, n - 1), g, skelMatSize))
  }

  lemma {:induction false} WriteGroupBones(w: seq<nat>, at: nat, blend: seq<nat>, start: nat, g: nat, n: nat, skelMatSize: nat)
    requires 1 <= g && GroupEnd(at, g, n) <= |w| && BlendEnd(start, g, n) <= |blend| && skelMatSize > 0
    ensures WriteGroup(w, at, blend, start, g, n, skelMatSize) == Overwrite(w, at, GroupBones(blend, start, g, n, skelMatSize))
  {
    if n > 0 {
      TimesMonotonic(n - 1, n, g);
      TimesMonotonic(n - 1, n, 2 * g - 1);
      var before := GroupBones(blend, start, g, n - 1, skelMatSize);
      var vertex := VertexBones(blend, BlendEnd(start, g, n - 1), g, skelMatSize);
      WriteGroupBones(w, at, blend, start, g, n - 1, skelMatSize);
      OverwriteConcat(w, at, GroupEnd(at, g, n - 1), before, vertex);
    }
  }

  /** A group written where an earlier run ended extends that run by the group's bones. */
  lemma WriteGroupAfter(w: seq<nat>, prior: seq<nat>, at: nat, mid: nat, blend: seq<nat>, start: nat, g: nat, n: nat,
                        skelMatSize: nat)
    requires 1 <= g && mid == at + |prior| && GroupEnd(mid, g, n) <= |w| && BlendEnd(start, g, n) <= |blend|
    requires skelMatSize > 0
    ensures WriteGroup(Overwrite(w, at, prior), mid, blend, start, g, n, skelMatSize)
            == Overwrite(w, at, prior + GroupBones(blend, start, g, n, skelMatSize))
  {
    WriteGroupBones(Overwrite(w, at, prior), mid, blend, start, g, n, skelMatSize);
    OverwriteConcat(w, at, mid, prior, GroupBones(blend, start, g, n, skelMatSize));
  }

  /** Slots after four groups wrote theirs one after the other, each from the slot where the previous one ended. */
  function WriteFour(w: seq<nat>, blend: seq<nat>, skelMatSize: nat,
                     a1: nat, s1: nat, g1: nat, n1: nat, a2: nat, s2: nat, g2: nat, n2: nat,
                     a3: nat, s3: nat, g3: nat, n3: nat, a4: nat, s4: nat, g4: nat, n4: nat): (r: seq<nat>)
    requires skelMatSize > 0 && 1 <= g1 && 1 <= g2 && 1 <= g3 && 1 <= g4
    requires a2 == GroupEnd(a1, g1, n1) && a3 == GroupEnd(a2, g2, n2) && a4 == GroupEnd(a3, g3, n3)
    requires GroupEnd(a4, g4, n4) <= |w|
    requires BlendEnd(s1, g1, n1) <= |blend| && BlendEnd(s2, g2, n2) <= |blend|
    requires BlendEnd(s3, g3, n3) <= |blend| && BlendEnd(s4, g4, n4) <= |blend|
    ensures |r| == |w|
  {
    WriteGroup(WriteGroup(WriteGroup(WriteGroup(w, a1, blend, s1, g1, n1, skelMatSize),
                                     a2, blend, s2, g2, n2, skelMatSize),
                          a3, blend, s3, g3, n3, skelMatSize),
               a4, blend, s4, g4, n4, skelMatSize)
  }

  lemma WriteFourGroups(w: seq<nat>, blend: seq<nat>, skelMatSize: nat,
                        a1: nat, s1: nat, g1: nat, n1: nat, a2: nat, s2: nat, g2: nat, n2: nat,
                        a3: nat, s3: nat, g3: nat, n3: nat, a4: nat, s4: nat, g4: nat, n4: nat)
    requires skelMatSize > 0 && 1 <= g1 && 1 <= g2 && 1 <= g3 && 1 <= g4
    requires a2 == GroupEnd(a1, g1, n1) && a3 == GroupEnd(a2, g2, n2) && a4 == GroupEnd(a3, g3, n3)
    requires GroupEnd(a4, g4, n4) <= |w|
    requires BlendEnd(s1, g1, n1) <= |blend| && BlendEnd(s2, g2, n2) <= |blend|
    requires BlendEnd(s3, g3, n3) <= |blend| && BlendEnd(s4, g4, n4) <= |blend|
    ensures WriteFour(w, blend, skelMatSize, a1, s1, g1, n1, a2, s2, g2, n2, a3, s3, g3, n3, a4, s4, g4, n4)
            == Overwrite(w, a1, FourGroupBones(blend, skelMatSize, s1, g1, n1, s2, g2, n2, s3, g3, n3, s4, g4, n4))
  {
    var b1 := GroupBones(blend, s1, g1, n1, skelMatSize);
    var b2 := GroupBones(blend, s2, g2, n2, skelMatSize);
    var b3 := GroupBones(blend, s3, g3, n3, skelMatSize);
    WriteGroupBones(w, a1, blend, s1, g1, n1, skelMatSize);
    WriteGroupAfter(w, b1, a1, a2, blend, s2, g2, n2, skelMatSize);
    WriteGroupAfter(w, b1 + b2, a1, a3, blend, s3, g3, n3, skelMatSize);
    WriteGroupAfter(w, b1 + b2 + b3, a1, a4, blend, s4, g4, n4, skelMatSize);
  }

  /** Slots after the four blend groups wrote theirs, the first from slot at on. */
  function WriteBlend(w: seq<nat>, at: nat, blend: seq<nat>, vi: VertInfo, skelMatSize: nat): (r: seq<nat>)
    requires BlendLength(vi) <= |blend| && skelMatSize > 0
    requires at + vi.vertCount0 + 2 * vi.vertCount1 + 3 * vi.vertCount2 + 4 * vi.vertCount3 <= |w|
    ensures |r| == |w|
  {
    var c0, c1, c2, c3 := vi.vertCount0, vi.vertCount1, vi.vertCount2, vi.vertCount3;
    BlendEnds(vi, at);
    BlendEnds(vi, 0);
    var a2 := GroupEnd(at, 1, c0);
    var a3 := GroupEnd(a2, 2, c1);
    var a4 := GroupEnd(a3, 3, c2);
    var s2 := BlendEnd(0, 1, c0);
    var s3 := BlendEnd(s2, 2, c1);
    var s4 := BlendEnd(s3, 3, c2);
    WriteFour(w, blend, skelMatSize, at, 0, 1, c0, a2, s2, 2, c1, a3, s3, 3, c2, a4, s4, 4, c3)
  }

  lemma WriteBlendBones(w: seq<nat>, at: nat, blend: seq<nat>, vi: VertInfo, skelMatSize: nat)
    requires BlendLength(vi) <= |blend| && skelMatSize > 0
    requires at + vi.vertCount0 + 2 * vi.vertCount1 + 3 * vi.vertCount2 + 4 * vi.vertCount3 <= |w|
    ensures WriteBlend(w, at, blend, vi, skelMatSize) == Overwrite(w, at, BlendBones(blend, vi, skelMatSize))
  {
    var c0, c1, c2, c3 := vi.vertCount0, vi.vertCount1, vi.vertCount2, vi.vertCount3;
    BlendEnds(vi, at);
    BlendEnds(vi, 0);
    var a2 := GroupEnd(at, 1, c0);
    var a3 := GroupEnd(a2, 2, c1);
    var a4 := GroupEnd(a3, 3, c2);
    var s2 := BlendEnd(0, 1, c0);
    var s3 := BlendEnd(s2, 2, c1);
    var s4 := BlendEnd(s3, 3, c2);
    WriteFourGroups(w, blend, skelMatSize, at, 0, 1, c0, a2, s2, 2, c1, a3, s3, 3, c2, a4, s4, 4, c3);
  }

  /** Slots after a surface's rigid lists (if it has any) wrote theirs from slot at on. */
  function WriteRigidPart(w: seq<nat>, s: Surface, at: nat, skelMatSize: nat): (r: seq<nat>)
    requires VertListsReadable(s) && skelMatSize > 0 && RigidEnd(s, at) <= |w|
    ensures |r| == |w|
  {
    if s.vertList.Some? then WriteRigid(w, s.vertList.value, s.vertListCount, at, skelMatSize) else w
  }

  lemma WriteRigidPartBones(w: seq<nat>, s: Surface, at: nat, skelMatSize: nat)
    requires VertListsReadable(s) && skelMatSize > 0 && RigidEnd(s, at) <= |w|
    ensures WriteRigidPart(w, s, at, skelMatSize) == Overwrite(w, at, SurfaceRigidBones(s, skelMatSize))
  {
    if s.vertList.Some? {
      WriteRigidBones(w, s.vertList.value, s.vertListCount, at, skelMatSize);
    } else {
      OverwriteNothing(w, at);
    }
  }

  /** Slots after a surface's blend groups (if it has any) wrote theirs from slot at on. */
  function WriteBlendPart(w: seq<nat>, s: Surface, at: nat, skelMatSize: nat): (r: seq<nat>)
    requires BlendReadable(s) && skelMatSize > 0 && at + SurfaceWeightCount(s) - RigidEnd(s, 0) <= |w|
    ensures |r| == |w|
  {
    if s.vertInfo.vertsBlend.Some? then WriteBlend(w, at, s.vertInfo.vertsBlend.value, s.vertInfo, skelMatSize) else w
  }

  lemma WriteBlendPartBones(w: seq<nat>, s: Surface, at: nat, skelMatSize: nat)
    requires BlendReadable(s) && skelMatSize > 0 && at + SurfaceWeightCount(s) - RigidEnd(s, 0) <= |w|
    ensures WriteBlendPart(w, s, at, skelMatSize) == Overwrite(w, at, SurfaceBlendBones(s, skelMatSize))
  {
    if s.vertInfo.vertsBlend.Some? {
      WriteBlendBones(w, at, s.vertInfo.vertsBlend.value, s.vertInfo, skelMatSize);
    } else {
      OverwriteNothing(w, at);
    }
  }

  /** Slots after one surface wrote its rigid lists' and then its blend groups' bones from slot at on. */
  function WriteSurface(w: seq<nat>, s: Surface, at: nat, skelMatSize: nat): (r: seq<nat>)
    requires VertListsReadable(s) && BlendReadable(s) && skelMatSize > 0
    requires at + SurfaceWeightCount(s) <= |w|
    ensures |r| == |w|
  {
    WriteBlendPart(WriteRigidPart(w, s, at, skelMatSize), s, RigidEnd(s, at), skelMatSize)
  }

  lemma WriteSurfaceBones(w: seq<nat>, s: Surface, at: nat, skelMatSize: nat)
    requires VertListsReadable(s) && BlendReadable(s) && skelMatSize > 0
    requires at + SurfaceWeightCount(s) <= |w|
    ensures WriteSurface(w, s, at, skelMatSize) == Overwrite(w, at, SurfaceBones(s, skelMatSize))
  {
    var rigid, blendBones := SurfaceRigidBones(s, skelMatSize), SurfaceBlendBones(s, skelMatSize);
    WriteRigidPartBones(w, s, at, skelMatSize);
    WriteBlendPartBones(Overwrite(w, at, rigid), s, RigidEnd(s, at), skelMatSize);
    OverwriteConcat(w, at, RigidEnd(s, at), rigid, blendBones);
  }

  /** Slots after every surface of a level of detail wrote its bones, each from where the previous one stopped. */
  function WriteLod(w: seq<nat>, ss: seq<Surface>, skelMatSize: nat): (r: seq<nat>)
    requires SurfacesReadable(ss) && TotalWeightCount(ss) <= |w| && skelMatSize > 0
    ensures |r| == |w|
  {
    if ss == [] then w
    else WriteSurface(WriteLod(w, ss[..|ss| - 1], skelMatSize), ss[|ss| - 1], TotalWeightCount(ss[..|ss| - 1]), skelMatSize)
  }

  lemma {:induction false} WriteLodBones(w: seq<nat>, ss: seq<Surface>, skelMatSize: nat)
    requires SurfacesReadable(ss) && TotalWeightCount(ss) <= |w| && skelMatSize > 0
    ensures WriteLod(w, ss, skelMatSize) == Overwrite(w, 0, LodBones(ss, skelMatSize))
  {
    if ss != [] {
      var prefix := ss[..|ss| - 1];
      WriteLodBones(w, prefix, skelMatSize);
      WriteSurfaceBones(WriteLod(w, prefix, skelMatSize), ss[|ss| - 1], TotalWeightCount(prefix), skelMatSize);
      OverwriteConcat(w, 0, TotalWeightCount(prefix), LodBones(prefix, skelMatSize), SurfaceBones(ss[|ss| - 1], skelMatSize));
    }
  }

  /** e followed by k copies of x. */
  function AppendCopies(e: seq<VertexWeights>, x: VertexWeights, k: nat): (r: seq<VertexWeights>)
    ensures |r| == |e| + k
  {
    if k == 0 then e else AppendCopies(e, x, k - 1) + [x]
  }

  lemma {:induction false} AppendCopiesRepeat(e: seq<VertexWeights>, x: VertexWeights, k: nat)
    ensures AppendCopies(e, x, k) == e + Repeat(x, k)
  {
    if k > 0 {
      AppendCopiesRepeat(e, x, k - 1);
      AppendAssoc(e, Repeat(x, k - 1), [x]);
    }
  }

  /** Entries after the first n rigid lists appended one per vertex they drive. */
  function AppendRigid(e: seq<VertexWeights>, lists: seq<VertList>, n: nat, base: nat): seq<VertexWeights>
    requires n <= |lists|
  {
    if n == 0 then e
    else AppendCopies(AppendRigid(e, lists, n - 1, base), VertexWeights(base + n - 1, 1), lists[n - 1].vertCount)
  }

  lemma {:induction false} AppendRigidEntries(e: seq<VertexWeights>, lists: seq<VertList>, n: nat, base: nat)
    requires n <= |lists|
    ensures AppendRigid(e, lists, n, base) == e + RigidEntries(lists, n, base)
  {
    if n > 0 {
      var x := VertexWeights(base + n - 1, 1);
      AppendRigidEntries(e, lists, n - 1, base);
      AppendCopiesRepeat(AppendRigid(e, lists, n - 1, base), x, lists[n - 1].vertCount);
      AppendAssoc(e, RigidEntries(lists, n - 1, base), Repeat(x, lists[n - 1].vertCount));
    }
  }

  /** Entries after the first n vertices of blend group g appended theirs. */
  function AppendGroup(e: seq<VertexWeights>, base: nat, g: nat, n: nat): seq<VertexWeights>
  {
    if n == 0 then e else AppendGroup(e, base, g, n - 1) + [VertexWeights(GroupEnd(base, g, n - 1), g)]
  }

  lemma {:induction false} AppendGroupEntries(e: seq<VertexWeights>, base: nat, g: nat, n: nat)
    ensures AppendGroup(e, base, g, n) == e + GroupEntries(base, g, n)
  {
    if n > 0 {
      AppendGroupEntries(e, base, g, n - 1);
      AppendAssoc(e, GroupEntries(base, g, n - 1), [VertexWeights(GroupEnd(base, g, n - 1), g)]);
    }
  }

  /** Entries after the four blend groups appended theirs, the first group's slots starting at base. */
  function AppendBlend(e: seq<VertexWeights>, vi: VertInfo, base: nat): seq<VertexWeights>
  {
    var a2 := GroupEnd(base, 1, vi.vertCount0);
    var a3 := GroupEnd(a2, 2, vi.vertCount1);
    var a4 := GroupEnd(a3, 3, vi.vertCount2);
    AppendGroup(AppendGroup(AppendGroup(AppendGroup(e, base, 1, vi.vertCount0), a2, 2, vi.vertCount1), a3, 3, vi.vertCount2),
                a4, 4, vi.vertCount3)
  }

  lemma AppendBlendEntries(e: seq<VertexWeights>, vi: VertInfo, base: nat)
    ensures AppendBlend(e, vi, base) == e + BlendEntries(vi, base)
  {
    var a2 := GroupEnd(base, 1, vi.vertCount0);
    var a3 := GroupEnd(a2, 2, vi.vertCount1);
    var a4 := GroupEnd(a3, 3, vi.vertCount2);
    var g1 := GroupEntries(base, 1, vi.vertCount0);
    var g2 := GroupEntries(a2, 2, vi.vertCount1);
    var g3 := GroupEntries(a3, 3, vi.vertCount2);
    var g4 := GroupEntries(a4, 4, vi.vertCount3);
    AppendGroupEntries(e, base, 1, vi.vertCount0);
    AppendGroupEntries(e + g1, a2, 2, vi.vertCount1);
    AppendGroupEntries(e + g1 + g2, a3, 3, vi.vertCount2);
    AppendGroupEntries(e + g1 + g2 + g3, a4, 4, vi.vertCount3);
    AppendAssoc(e, g1, g2);
    AppendAssoc(e, g1 + g2, g3);
    AppendAssoc(e, g1 + g2 + g3, g4);
  }

  /** Entries after a surface's rigid lists (if it has any) appended theirs; their slots start at base. */
  function AppendRigidPart(e: seq<VertexWeights>, s: Surface, base: nat): seq<VertexWeights>
    requires VertListsReadable(s)
  {
    if s.vertList.Some? then AppendRigid(e, s.vertList.value, s.vertListCount, base) else e
  }

  lemma AppendRigidPartEntries(e: seq<VertexWeights>, s: Surface, base: nat)
    requires VertListsReadable(s)
    ensures AppendRigidPart(e, s, base) == e + SurfaceRigidEntries(s, base)
  {
    if s.vertList.Some? {
      AppendRigidEntries(e, s.vertList.value, s.vertListCount, base);
    } else {
      assert e + [] == e;
    }
  }

  /** Entries after a surface's blend groups (if it has any) appended theirs; their slots start at base. */
  function AppendBlendPart(e: seq<VertexWeights>, s: Surface, base: nat): seq<VertexWeights>
  {
    if s.vertInfo.vertsBlend.Some? then AppendBlend(e, s.vertInfo, base) else e
  }

  lemma AppendBlendPartEntries(e: seq<VertexWeights>, s: Surface, base: nat)
    ensures AppendBlendPart(e, s, base) == e + SurfaceBlendEntries(s, base)
  {
    if s.vertInfo.vertsBlend.Some? {
      AppendBlendEntries(e, s.vertInfo, base);
    } else {
      assert e + [] == e;
    }
  }

  /** How many (0, 0) entries pad surface s. */
  function PaddingCount(s: Surface): nat
    requires VertListsReadable(s)
  {
    if HandledVertices(s) < s.vertCount then s.vertCount - HandledVertices(s) else 0
  }

  /** Entries after one surface appended its rigid, blend and padding entries; its slots start at base. */
  function AppendSurface(e: seq<VertexWeights>, s: Surface, base: nat): seq<VertexWeights>
    requires VertListsReadable(s)
  {
    AppendCopies(AppendBlendPart(AppendRigidPart(e, s, base), s, RigidEnd(s, base)), VertexWeights(0, 0), PaddingCount(s))
  }

  lemma AppendSurfaceEntries(e: seq<VertexWeights>, s: Surface, base: nat)
    requires VertListsReadable(s)
    ensures AppendSurface(e, s, base) == e + SurfaceEntries(s, base)
  {
    var rigid, blendEntries := SurfaceRigidEntries(s, base), SurfaceBlendEntries(s, RigidEnd(s, base));
    var padding := Padding(HandledVertices(s), s.vertCount);
    AppendRigidPartEntries(e, s, base);
    AppendBlendPartEntries(e + rigid, s, RigidEnd(s, base));
    AppendCopiesRepeat(e + rigid + blendEntries, VertexWeights(0, 0), PaddingCount(s));
    assert Repeat(VertexWeights(0, 0), PaddingCount(s)) == padding;
    AppendAssoc(e + rigid, blendEntries, padding);
    AppendAssoc(e, rigid, blendEntries + padding);
    AppendAssoc(rigid, blendEntries, padding);
  }

  /** Entries after every surface of a level of detail appended theirs. */
  function AppendLod(e: seq<VertexWeights>, ss: seq<Surface>): seq<VertexWeights>
    requires SurfacesReadable(ss)
  {
    if ss == [] then e
    else AppendSurface(AppendLod(e, ss[..|ss| - 1]), ss[|ss| - 1], TotalWeightCount(ss[..|ss| - 1]))
  }

  lemma {:induction false} AppendLodEntries(e: seq<VertexWeights>, ss: seq<Surface>)
    requires SurfacesReadable(ss)
    ensures AppendLod(e, ss) == e + LodEntries(ss)
  {
    if ss != [] {
      var prefix := ss[..|ss| - 1];
      AppendLodEntries(e, prefix);
      AppendSurfaceEntries(AppendLod(e, prefix), ss[|ss| - 1], TotalWeightCount(prefix));
      AppendAssoc(e, LodEntries(prefix), SurfaceEntries(ss[|ss| - 1], TotalWeightCount(prefix)));
    }
  }
}
