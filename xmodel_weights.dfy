/**
 * The bone-weight budget of one level of detail, as specification functions.
 *
 * AllocateXModelBoneWeights counts one weight slot per rigid vertex list and
 * g slots per vertex of blend group g (g = 1..4). AddXModelVertexBoneWeights
 * then fills the slots in that order with one running offset, and appends
 * one (offset, count) entry per vertex: every vertex of rigid list i shares
 * that list's single slot, a vertex of group g owns g consecutive slots,
 * and (0, 0) entries pad each surface up to its vertex count.
 */
module XModelWeights {
  import opened XModelData
  import BlockCodec

  /** The slots AllocateXModelBoneWeights counts for one surface. */
  function SurfaceWeightCount(s: Surface): (r: nat)
    ensures s.vertList.Some? ==> r >= s.vertListCount
    ensures s.vertInfo.vertsBlend.Some? ==>
      r >= s.vertInfo.vertCount0 + s.vertInfo.vertCount1 + s.vertInfo.vertCount2 + s.vertInfo.vertCount3
    ensures s.vertList.None? && s.vertInfo.vertsBlend.None? ==> r == 0
  {
    var vi := s.vertInfo;
    (if s.vertList.Some? then s.vertListCount else 0)
    + (if vi.vertsBlend.Some? then vi.vertCount0 + 2 * vi.vertCount1 + 3 * vi.vertCount2 + 4 * vi.vertCount3 else 0)
  }

  /** totalWeightCount after the surfaces ss. */
  function TotalWeightCount(ss: seq<Surface>): (r: nat)
    ensures ss == [] ==> r == 0
    ensures forall i :: 0 <= i < |ss| ==> SurfaceWeightCount(ss[i]) <= r
  {
    if ss == [] then 0 else TotalWeightCount(ss[..|ss| - 1]) + SurfaceWeightCount(ss[|ss| - 1])
  }

  /**
   * The bone a byte offset into the skeleton matrices names: offset / sizeof(DObjSkelMat),
   * counted out by repeated subtraction.
   */
  function BoneIndex(offset: nat, skelMatSize: nat): (r: nat)
    requires skelMatSize > 0
    ensures r * skelMatSize <= offset < r * skelMatSize + skelMatSize
    decreases offset
  {
    if offset < skelMatSize then 0
    else
      var q := BoneIndex(offset - skelMatSize, skelMatSize);
      BlockCodec.MulSucc(q, skelMatSize);
      1 + q
  }

  lemma {:induction false} BoneIndexDivides(offset: nat, skelMatSize: nat)
    requires skelMatSize > 0
    ensures BoneIndex(offset, skelMatSize) == offset / skelMatSize
    decreases offset
  {
    if offset >= skelMatSize {
      var rest := offset - skelMatSize;
      BoneIndexDivides(rest, skelMatSize);
      BlockCodec.DivMod(rest, skelMatSize);
      BlockCodec.MulSucc(rest / skelMatSize, skelMatSize);
      BlockCodec.DivModUnique(offset, skelMatSize, rest / skelMatSize + 1, rest % skelMatSize);
    } else {
      BlockCodec.DivModUnique(offset, skelMatSize, 0, offset);
    }
  }

  /** The bone index of each of the first n rigid lists' slots. */
  function RigidBones(lists: seq<VertList>, n: nat, skelMatSize: nat): (r: seq<nat>)
    requires n <= |lists| && skelMatSize > 0
    ensures |r| == n
  {
    if n == 0 then [] else RigidBones(lists, n - 1, skelMatSize) + [BoneIndex(lists[n - 1].boneOffset, skelMatSize)]
  }

  /** How many vertices the first n rigid lists drive. */
  function RigidVertices(lists: seq<VertList>, n: nat): nat
    requires n <= |lists|
  {
    if n == 0 then 0 else RigidVertices(lists, n - 1) + lists[n - 1].vertCount
  }

  /** The entries of the first n rigid lists, whose slots start at base. */
  function RigidEntries(lists: seq<VertList>, n: nat, base: nat): (r: seq<VertexWeights>)
    requires n <= |lists|
    ensures |r| == RigidVertices(lists, n)
  {
    if n == 0 then []
    else RigidEntries(lists, n - 1, base) + Repeat(VertexWeights(base + n - 1, 1), lists[n - 1].vertCount)
  }

  /** Every rigid entry names one slot, and it is one of the lists' slots. */
  lemma {:induction false} RigidEntriesBounds(lists: seq<VertList>, n: nat, base: nat)
    requires n <= |lists|
    ensures forall i :: 0 <= i < |RigidEntries(lists, n, base)| ==>
      RigidEntries(lists, n, base)[i].weightCount == 1 && base <= RigidEntries(lists, n, base)[i].weightOffset < base + n
  {
    if n > 0 {
      RigidEntriesBounds(lists, n - 1, base);
      RepeatAt(VertexWeights(base + n - 1, 1), lists[n - 1].vertCount);
    }
  }

  /** Where the k-th bone offset of a blend vertex sits in its vertsBlend run: 0, 1, 3, 5. */
  function BonePos(k: nat): nat
  {
    if k == 0 then 0 else 2 * k - 1
  }

  /** The bone indices of one vertex of blend group g, whose run starts at vertsBlend[at]. */
  function VertexBones(blend: seq<nat>, at: nat, g: nat, skelMatSize: nat): (r: seq<nat>)
    requires 1 <= g && at + 2 * g - 1 <= |blend| && skelMatSize > 0
    ensures |r| == g
  {
    seq(g, k requires 0 <= k < g => BoneIndex(blend[at + BonePos(k)], skelMatSize))
  }

  /** n * m as n additions of m, which keeps the solver's group arithmetic linear. */
  function Times(n: nat, m: nat): nat
  {
    if n == 0 then 0 else Times(n - 1, m) + m
  }

  lemma {:induction false} TimesIsProduct(n: nat, m: nat)
    ensures Times(n, m) == n * m
  {
    if n > 0 {
      TimesIsProduct(n - 1, m);
      assert n * m == (n - 1) * m + m;
    }
  }

  lemma {:induction false} TimesMonotonic(a: nat, b: nat, m: nat)
    requires a <= b
    ensures Times(a, m) <= Times(b, m)
    decreases b - a
  {
    if a < b {
      TimesMonotonic(a, b - 1, m);
    }
  }

  /** The slot after the first n vertices of group g, whose slots start at at: g slots per vertex. */
  function GroupEnd(at: nat, g: nat, n: nat): nat
  {
    at + Times(n, g)
  }

  /** The vertsBlend entry after the first n vertices of group g, whose runs start at start: 2g - 1 entries per vertex. */
  function BlendEnd(start: nat, g: nat, n: nat): nat
    requires 1 <= g
  {
    start + Times(n, 2 * g - 1)
  }

  /** One more vertex of group g moves both ends by its size, and stays inside a group of n vertices. */
  lemma GroupStep(at: nat, start: nat, g: nat, k: nat, n: nat)
    requires 1 <= g && k < n
    ensures GroupEnd(at, g, k + 1) == GroupEnd(at, g, k) + g <= GroupEnd(at, g, n)
    ensures BlendEnd(start, g, k + 1) == BlendEnd(start, g, k) + (2 * g - 1) <= BlendEnd(start, g, n)
  {
    TimesMonotonic(k + 1, n, g);
    TimesMonotonic(k + 1, n, 2 * g - 1);
  }

  /** The four groups use 1, 2, 3 and 4 slots per vertex, and 1, 3, 5 and 7 vertsBlend entries. */
  lemma BlendEnds(vi: VertInfo, at: nat)
    ensures GroupEnd(at, 1, vi.vertCount0) == at + vi.vertCount0
    ensures GroupEnd(GroupEnd(at, 1, vi.vertCount0), 2, vi.vertCount1) == at + vi.vertCount0 + 2 * vi.vertCount1
    ensures GroupEnd(GroupEnd(GroupEnd(at, 1, vi.vertCount0), 2, vi.vertCount1), 3, vi.vertCount2)
            == at + vi.vertCount0 + 2 * vi.vertCount1 + 3 * vi.vertCount2
    ensures GroupEnd(GroupEnd(GroupEnd(GroupEnd(at, 1, vi.vertCount0), 2, vi.vertCount1), 3, vi.vertCount2), 4, vi.vertCount3)
            == at + vi.vertCount0 + 2 * vi.vertCount1 + 3 * vi.vertCount2 + 4 * vi.vertCount3
    ensures BlendEnd(BlendEnd(BlendEnd(BlendEnd(0, 1, vi.vertCount0), 2, vi.vertCount1), 3, vi.vertCount2), 4, vi.vertCount3)
            == BlendLength(vi)
  {
    TimesIsProduct(vi.vertCount0, 1);
    TimesIsProduct(vi.vertCount1, 2);
    TimesIsProduct(vi.vertCount1, 3);
    TimesIsProduct(vi.vertCount2, 3);
    TimesIsProduct(vi.vertCount2, 5);
    TimesIsProduct(vi.vertCount3, 4);
    TimesIsProduct(vi.vertCount3, 7);
  }

  /** The bone indices of the first n vertices of group g, whose runs start at vertsBlend[start]. */
  function GroupBones(blend: seq<nat>, start: nat, g: nat, n: nat, skelMatSize: nat): (r: seq<nat>)
    requires 1 <= g && BlendEnd(start, g, n) <= |blend| && skelMatSize > 0
    ensures |r| == Times(n, g)
  {
    if n == 0 then []
    else GroupBones(blend, start, g, n - 1, skelMatSize) + VertexBones(blend, BlendEnd(start, g, n - 1), g, skelMatSize)
  }

  /** The entries of the first n vertices of group g, whose slots start at base. */
  function GroupEntries(base: nat, g: nat, n: nat): (r: seq<VertexWeights>)
    ensures |r| == n
  {
    if n == 0 then []
    else GroupEntries(base, g, n - 1) + [VertexWeights(GroupEnd(base, g, n - 1), g)]
  }

  /** Every entry of group g names g slots, inside the group's n times g slots. */
  lemma {:induction false} GroupEntriesBounds(base: nat, g: nat, n: nat)
    ensures forall i :: 0 <= i < n ==>
      GroupEntries(base, g, n)[i].weightCount == g && base <= GroupEntries(base, g, n)[i].weightOffset
      && GroupEntries(base, g, n)[i].weightOffset + g <= GroupEnd(base, g, n)
  {
    if n > 0 {
      GroupEntriesBounds(base, g, n - 1);
    }
  }

  /** The bone indices of four groups, in order: group i has n_i vertices of g_i bones whose runs start at s_i. */
  function FourGroupBones(blend: seq<nat>, skelMatSize: nat,
                          s1: nat, g1: nat, n1: nat, s2: nat, g2: nat, n2: nat,
                          s3: nat, g3: nat, n3: nat, s4: nat, g4: nat, n4: nat): (r: seq<nat>)
    requires skelMatSize > 0 && 1 <= g1 && 1 <= g2 && 1 <= g3 && 1 <= g4
    requires BlendEnd(s1, g1, n1) <= |blend| && BlendEnd(s2, g2, n2) <= |blend|
    requires BlendEnd(s3, g3, n3) <= |blend| && BlendEnd(s4, g4, n4) <= |blend|
    ensures |r| == Times(n1, g1) + Times(n2, g2) + Times(n3, g3) + Times(n4, g4)
  {
    GroupBones(blend, s1, g1, n1, skelMatSize) + GroupBones(blend, s2, g2, n2, skelMatSize)
    + GroupBones(blend, s3, g3, n3, skelMatSize) + GroupBones(blend, s4, g4, n4, skelMatSize)
  }

  /** The bone indices of all four blend groups, in the order the dumper writes them. */
  function BlendBones(blend: seq<nat>, vi: VertInfo, skelMatSize: nat): (r: seq<nat>)
    requires BlendLength(vi) <= |blend| && skelMatSize > 0
    ensures |r| == vi.vertCount0 + 2 * vi.vertCount1 + 3 * vi.vertCount2 + 4 * vi.vertCount3
  {
    var c0, c1, c2, c3 := vi.vertCount0, vi.vertCount1, vi.vertCount2, vi.vertCount3;
    BlendEnds(vi, 0);
    var s2 := BlendEnd(0, 1, c0);
    var s3 := BlendEnd(s2, 2, c1);
    var s4 := BlendEnd(s3, 3, c2);
    FourGroupBones(blend, skelMatSize, 0, 1, c0, s2, 2, c1, s3, 3, c2, s4, 4, c3)
  }

  /** The entries of all four blend groups, whose slots start at base. */
  function BlendEntries(vi: VertInfo, base: nat): (r: seq<VertexWeights>)
    ensures |r| == vi.vertCount0 + vi.vertCount1 + vi.vertCount2 + vi.vertCount3
  {
    var a2 := GroupEnd(base, 1, vi.vertCount0);
    var a3 := GroupEnd(a2, 2, vi.vertCount1);
    var a4 := GroupEnd(a3, 3, vi.vertCount2);
    GroupEntries(base, 1, vi.vertCount0) + GroupEntries(a2, 2, vi.vertCount1)
    + GroupEntries(a3, 3, vi.vertCount2) + GroupEntries(a4, 4, vi.vertCount3)
  }

  /** Every blend entry names slots inside the blend groups' slots. */
  lemma BlendEntriesBounds(vi: VertInfo, base: nat)
    ensures forall i :: 0 <= i < |BlendEntries(vi, base)| ==> (
      && base <= BlendEntries(vi, base)[i].weightOffset
      && BlendEntries(vi, base)[i].weightOffset + BlendEntries(vi, base)[i].weightCount
         <= base + vi.vertCount0 + 2 * vi.vertCount1 + 3 * vi.vertCount2 + 4 * vi.vertCount3)
  {
    var a2 := GroupEnd(base, 1, vi.vertCount0);
    var a3 := GroupEnd(a2, 2, vi.vertCount1);
    var a4 := GroupEnd(a3, 3, vi.vertCount2);
    BlendEnds(vi, base);
    GroupEntriesBounds(base, 1, vi.vertCount0);
    GroupEntriesBounds(a2, 2, vi.vertCount1);
    GroupEntriesBounds(a3, 3, vi.vertCount2);
    GroupEntriesBounds(a4, 4, vi.vertCount3);
  }

  /** handledVertices once a surface's rigid lists and blend groups are done. */
  function HandledVertices(s: Surface): nat
    requires VertListsReadable(s)
  {
    var vi := s.vertInfo;
    (if s.vertList.Some? then RigidVertices(s.vertList.value, s.vertListCount) else 0)
    + (if vi.vertsBlend.Some? then vi.vertCount0 + vi.vertCount1 + vi.vertCount2 + vi.vertCount3 else 0)
  }

  /** The slot after a surface's rigid lists, their slots starting at at: one per list. */
  function RigidEnd(s: Surface, at: nat): nat
  {
    if s.vertList.Some? then at + s.vertListCount else at
  }

  /** The slots of a surface's rigid lists. */
  function SurfaceRigidBones(s: Surface, skelMatSize: nat): (r: seq<nat>)
    requires VertListsReadable(s) && skelMatSize > 0
    ensures |r| == RigidEnd(s, 0)
  {
    if s.vertList.Some? then RigidBones(s.vertList.value, s.vertListCount, skelMatSize) else []
  }

  /** The slots of a surface's blend groups. */
  function SurfaceBlendBones(s: Surface, skelMatSize: nat): (r: seq<nat>)
    requires BlendReadable(s) && skelMatSize > 0
    ensures |r| == SurfaceWeightCount(s) - RigidEnd(s, 0)
  {
    if s.vertInfo.vertsBlend.Some? then BlendBones(s.vertInfo.vertsBlend.value, s.vertInfo, skelMatSize) else []
  }

  /** The slots of one surface, in the order they are filled. */
  function SurfaceBones(s: Surface, skelMatSize: nat): (r: seq<nat>)
    requires VertListsReadable(s) && BlendReadable(s) && skelMatSize > 0
    ensures |r| == SurfaceWeightCount(s)
  {
    SurfaceRigidBones(s, skelMatSize) + SurfaceBlendBones(s, skelMatSize)
  }

  /** The entries of a surface's rigid lists, whose slots start at base. */
  function SurfaceRigidEntries(s: Surface, base: nat): seq<VertexWeights>
    requires VertListsReadable(s)
  {
    if s.vertList.Some? then RigidEntries(s.vertList.value, s.vertListCount, base) else []
  }

  /** The entries of a surface's blend groups, whose slots start at base. */
  function SurfaceBlendEntries(s: Surface, base: nat): seq<VertexWeights>
  {
    if s.vertInfo.vertsBlend.Some? then BlendEntries(s.vertInfo, base) else []
  }

  /** The (0, 0) entries that pad a surface up to its vertex count. */
  function Padding(handled: nat, vertCount: nat): (r: seq<VertexWeights>)
    ensures |r| == if handled < vertCount then vertCount - handled else 0
  {
    Repeat(VertexWeights(0, 0), if handled < vertCount then vertCount - handled else 0)
  }

  /**
   * The entries of one surface whose slots start at base: one per handled
   * vertex, then padding up to vertCount.
   */
  function SurfaceEntries(s: Surface, base: nat): (r: seq<VertexWeights>)
    requires VertListsReadable(s)
    ensures |r| == if HandledVertices(s) < s.vertCount then s.vertCount else HandledVertices(s)
  {
    SurfaceRigidEntries(s, base) + SurfaceBlendEntries(s, RigidEnd(s, base)) + Padding(HandledVertices(s), s.vertCount)
  }

  /** Each entry of a surface is padding or names slots inside the surface's own slots. */
  lemma SurfaceEntriesBounds(s: Surface, base: nat)
    requires VertListsReadable(s)
    ensures forall i :: 0 <= i < |SurfaceEntries(s, base)| ==> (
      || SurfaceEntries(s, base)[i] == VertexWeights(0, 0)
      || (&& base <= SurfaceEntries(s, base)[i].weightOffset
          && SurfaceEntries(s, base)[i].weightOffset + SurfaceEntries(s, base)[i].weightCount
             <= base + SurfaceWeightCount(s)))
  {
    if s.vertList.Some? {
      RigidEntriesBounds(s.vertList.value, s.vertListCount, base);
    }
    BlendEntriesBounds(s.vertInfo, RigidEnd(s, base));
    RepeatAt(VertexWeights(0, 0), |Padding(HandledVertices(s), s.vertCount)|);
  }

  predicate SurfacesReadable(ss: seq<Surface>)
  {
    forall i :: 0 <= i < |ss| ==> VertListsReadable(ss[i]) && BlendReadable(ss[i])
  }

  /** Every slot of a level of detail, in fill order: exactly as many as were counted. */
  function LodBones(ss: seq<Surface>, skelMatSize: nat): (r: seq<nat>)
    requires SurfacesReadable(ss) && skelMatSize > 0
    ensures |r| == TotalWeightCount(ss)
  {
    if ss == [] then []
    else LodBones(ss[..|ss| - 1], skelMatSize) + SurfaceBones(ss[|ss| - 1], skelMatSize)
  }

  /** Every entry of a level of detail; each surface's slots start after the previous surfaces' slots. */
  function LodEntries(ss: seq<Surface>): seq<VertexWeights>
    requires SurfacesReadable(ss)
  {
    if ss == [] then []
    else LodEntries(ss[..|ss| - 1]) + SurfaceEntries(ss[|ss| - 1], TotalWeightCount(ss[..|ss| - 1]))
  }

  /** Every entry's slots lie inside the counted slots: the fill never reads past the allocation. */
  lemma {:induction false} EntriesWithinBudget(ss: seq<Surface>)
    requires SurfacesReadable(ss)
    ensures forall i :: 0 <= i < |LodEntries(ss)| ==>
      LodEntries(ss)[i].weightOffset + LodEntries(ss)[i].weightCount <= TotalWeightCount(ss)
  {
    if ss != [] {
      var prefix := ss[..|ss| - 1];
      assert SurfacesReadable(prefix) by {
        forall i | 0 <= i < |prefix| ensures VertListsReadable(prefix[i]) && BlendReadable(prefix[i]) {
          assert prefix[i] == ss[i];
        }
      }
      EntriesWithinBudget(prefix);
      var before := LodEntries(prefix);
      var last := SurfaceEntries(ss[|ss| - 1], TotalWeightCount(prefix));
      SurfaceEntriesBounds(ss[|ss| - 1], TotalWeightCount(prefix));
      assert LodEntries(ss) == before + last;
      forall i | 0 <= i < |LodEntries(ss)|
        ensures LodEntries(ss)[i].weightOffset + LodEntries(ss)[i].weightCount <= TotalWeightCount(ss)
      {
        if i >= |before| {
          assert LodEntries(ss)[i] == last[i - |before|];
        }
      }
    }
  }

  /** The vertices AddXModelVertices appends for the surfaces ss. */
  function VertexCount(ss: seq<Surface>): nat
  {
    if ss == [] then 0 else VertexCount(ss[..|ss| - 1]) + ss[|ss| - 1].vertCount
  }

  /**
   * When no surface's weight lists name more vertices than it has, there is
   * exactly one entry per vertex of the level of detail.
   */
  lemma {:induction false} OneEntryPerVertex(ss: seq<Surface>)
    requires SurfacesReadable(ss)
    requires forall i :: 0 <= i < |ss| ==> HandledVertices(ss[i]) <= ss[i].vertCount
    ensures |LodEntries(ss)| == VertexCount(ss)
  {
    if ss != [] {
      var prefix := ss[..|ss| - 1];
      assert forall i :: 0 <= i < |prefix| ==> prefix[i] == ss[i];
      OneEntryPerVertex(prefix);
    }
  }
}
