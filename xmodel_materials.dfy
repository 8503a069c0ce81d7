/**
 * Which texture of a material the dumper exports as its colour, normal and
 * specular map (GetMaterialColorMap, GetMaterialNormalMap, GetMaterialSpecularMap).
 *
 * Each keeps the texture definitions whose semantic fits the map, in table
 * order. No candidate gives no image and a single candidate is taken as it is.
 * Among several, the colour map prefers the first whose (nameStart, nameEnd)
 * pair is ('c','p'), then ('r','k'), then ('d','p'), ignoring case; the normal
 * map prefers ('n','p') and the specular map ('s','p'), with case. Without a
 * preferred pair the first candidate wins.
 */
module XModelMaterials {
  import opened XModelData

  datatype GfxImage = GfxImage(name: Option<string>)

  /** MaterialTextureDef: the first and last character of the texture's name, its semantic and its image. */
  datatype TextureDef = TextureDef(semantic: nat, nameStart: char, nameEnd: char, image: Option<GfxImage>)

  /** Material; textureCount is the length of the table. */
  datatype Material = Material(name: Option<string>, textureTable: seq<TextureDef>)

  /** The game's TS_COLOR_MAP, TS_COLOR0_MAP, TS_COLOR15_MAP, TS_NORMAL_MAP and TS_SPECULAR_MAP values. */
  datatype SemanticCodes = SemanticCodes(colorMap: nat, color0Map: nat, color15Map: nat, normalMap: nat, specularMap: nat)

  datatype MapKind = ColorMap | NormalMap | SpecularMap

  /** The semantics each map looks at. */
  predicate Considers(kind: MapKind, codes: SemanticCodes, semantic: nat)
  {
    match kind
    case ColorMap => semantic == codes.colorMap || codes.color0Map <= semantic <= codes.color15Map
    case NormalMap => semantic == codes.normalMap
    case SpecularMap => semantic == codes.specularMap
  }

  /** potentialTextureDefs: the definitions a map considers, in table order. */
  function Candidates(table: seq<TextureDef>, kind: MapKind, codes: SemanticCodes): (r: seq<TextureDef>)
    ensures |r| <= |table|
    ensures forall d :: d in r ==> d in table && Considers(kind, codes, d.semantic)
    ensures forall i :: 0 <= i < |table| && Considers(kind, codes, table[i].semantic) ==> table[i] in r
  {
    if table == [] then []
    else
      var last := table[|table| - 1];
      Candidates(table[..|table| - 1], kind, codes) + if Considers(kind, codes, last.semantic) then [last] else []
  }

  /** Filtering keeps table order: the candidates of a split table are those of its halves, in turn. */
  lemma {:induction false} CandidatesAppend(a: seq<TextureDef>, b: seq<TextureDef>, kind: MapKind, codes: SemanticCodes)
    ensures Candidates(a + b, kind, codes) == Candidates(a, kind, codes) + Candidates(b, kind, codes)
    decreases |b|
  {
    if b == [] {
      assert a + b == a;
    } else {
      var b' := b[..|b| - 1];
      assert (a + b)[..|a + b| - 1] == a + b';
      CandidatesAppend(a, b', kind, codes);
    }
  }

  /** tolower in the C locale. */
  function ToLower(c: char): (r: char)
    ensures 'A' <= c <= 'Z' ==> 'a' <= r <= 'z' && r as int == c as int + 32
    ensures !('A' <= c <= 'Z') ==> r == c
  {
    if 'A' <= c <= 'Z' then (c as int + 32) as char else c
  }

  /** The definition's name pair is (s, e), with or without folding case. */
  predicate NamedAs(d: TextureDef, s: char, e: char, foldCase: bool)
  {
    if foldCase then ToLower(d.nameStart) == s && ToLower(d.nameEnd) == e
    else d.nameStart == s && d.nameEnd == e
  }

  /** The index of the first candidate from i on named (s, e), if any: one priority loop. */
  function FirstNamed(c: seq<TextureDef>, i: nat, s: char, e: char, foldCase: bool): (r: Option<nat>)
    requires i <= |c|
    ensures r.Some? ==> i <= r.value < |c| && NamedAs(c[r.value], s, e, foldCase)
    ensures r.Some? ==> forall j :: i <= j < r.value ==> !NamedAs(c[j], s, e, foldCase)
    ensures r.None? ==> forall j :: i <= j < |c| ==> !NamedAs(c[j], s, e, foldCase)
    decreases |c| - i
  {
    if i == |c| then None
    else if NamedAs(c[i], s, e, foldCase) then Some(i)
    else FirstNamed(c, i + 1, s, e, foldCase)
  }

  /** The definition a map picks among its candidates, in the order the dumper tries them. */
  function SelectDef(c: seq<TextureDef>, kind: MapKind): (r: Option<TextureDef>)
    ensures r.None? <==> |c| == 0
    ensures r.Some? ==> r.value in c
  {
    if |c| == 0 then None
    else if |c| == 1 then Some(c[0])
    else
      match kind
      case ColorMap =>
        var cp := FirstNamed(c, 0, 'c', 'p', true);
        if cp.Some? then Some(c[cp.value]) else
        var rk := FirstNamed(c, 0, 'r', 'k', true);
        if rk.Some? then Some(c[rk.value]) else
        var dp := FirstNamed(c, 0, 'd', 'p', true);
        if dp.Some? then Some(c[dp.value]) else Some(c[0])
      case NormalMap =>
        var np := FirstNamed(c, 0, 'n', 'p', false);
        if np.Some? then Some(c[np.value]) else Some(c[0])
      case SpecularMap =>
        var sp := FirstNamed(c, 0, 's', 'p', false);
        if sp.Some? then Some(c[sp.value]) else Some(c[0])
  }

  /** How strongly a map prefers a definition: 0 is best. */
  function Rank(kind: MapKind, d: TextureDef): nat
  {
    match kind
    case ColorMap =>
      if NamedAs(d, 'c', 'p', true) then 0
      else if NamedAs(d, 'r', 'k', true) then 1
      else if NamedAs(d, 'd', 'p', true) then 2
      else 3
    case NormalMap => if NamedAs(d, 'n', 'p', false) then 0 else 1
    case SpecularMap => if NamedAs(d, 's', 'p', false) then 0 else 1
  }

  /**
   * The priority loops pick the earliest candidate of the best rank: no
   * candidate ranks better, and every earlier one ranks worse.
   */
  lemma SelectIsEarliestBest(c: seq<TextureDef>, kind: MapKind)
    requires |c| > 0
    ensures exists k :: (
      && 0 <= k < |c| && SelectDef(c, kind) == Some(c[k])
      && (forall j :: 0 <= j < |c| ==> Rank(kind, c[k]) <= Rank(kind, c[j]))
      && (forall j :: 0 <= j < k ==> Rank(kind, c[k]) < Rank(kind, c[j])))
  {
    if |c| == 1 {
      assert SelectDef(c, kind) == Some(c[0]);
    } else {
      match kind
      case ColorMap =>
        var cp := FirstNamed(c, 0, 'c', 'p', true);
        var rk := FirstNamed(c, 0, 'r', 'k', true);
        var dp := FirstNamed(c, 0, 'd', 'p', true);
        if cp.Some? {
          assert SelectDef(c, kind) == Some(c[cp.value]);
        } else if rk.Some? {
          assert SelectDef(c, kind) == Some(c[rk.value]);
        } else if dp.Some? {
          assert SelectDef(c, kind) == Some(c[dp.value]);
        } else {
          assert SelectDef(c, kind) == Some(c[0]);
        }
      case NormalMap =>
        var np := FirstNamed(c, 0, 'n', 'p', false);
        if np.Some? {
          assert SelectDef(c, kind) == Some(c[np.value]);
        } else {
          assert SelectDef(c, kind) == Some(c[0]);
        }
      case SpecularMap =>
        var sp := FirstNamed(c, 0, 's', 'p', false);
        if sp.Some? {
          assert SelectDef(c, kind) == Some(c[sp.value]);
        } else {
          assert SelectDef(c, kind) == Some(c[0]);
        }
    }
  }

  /**
   * The texture definition a material's map comes from: none exactly when no
   * definition has a fitting semantic, the only one when there is one, and
   * otherwise a fitting definition of the table.
   */
  function MapDef(m: Material, kind: MapKind, codes: SemanticCodes): (r: Option<TextureDef>)
    ensures r.None? <==> forall i :: 0 <= i < |m.textureTable| ==> !Considers(kind, codes, m.textureTable[i].semantic)
    ensures r.Some? ==> r.value in m.textureTable && Considers(kind, codes, r.value.semantic)
    ensures |Candidates(m.textureTable, kind, codes)| == 1 ==> r == Some(Candidates(m.textureTable, kind, codes)[0])
  {
    SelectDef(Candidates(m.textureTable, kind, codes), kind)
  }

  /** GetImageFromTextureDef: the image the definition points to (T6 and the other games store it differently). */
  function GetImageFromTextureDef(d: TextureDef): Option<GfxImage>
  {
    d.image
  }

  function MapImage(def: Option<TextureDef>): Option<GfxImage>
  {
    match def
    case None => None
    case Some(d) => GetImageFromTextureDef(d)
  }

  function GetMaterialColorMap(m: Material, codes: SemanticCodes): (r: Option<GfxImage>)
    ensures (forall i :: 0 <= i < |m.textureTable| ==> !Considers(ColorMap, codes, m.textureTable[i].semantic)) ==> r.None?
    ensures r.Some? ==> exists i :: (
      0 <= i < |m.textureTable| && Considers(ColorMap, codes, m.textureTable[i].semantic) && r == m.textureTable[i].image)
  {
    MapImage(MapDef(m, ColorMap, codes))
  }

  function GetMaterialNormalMap(m: Material, codes: SemanticCodes): (r: Option<GfxImage>)
    ensures (forall i :: 0 <= i < |m.textureTable| ==> !Considers(NormalMap, codes, m.textureTable[i].semantic)) ==> r.None?
    ensures r.Some? ==> exists i :: (
      0 <= i < |m.textureTable| && Considers(NormalMap, codes, m.textureTable[i].semantic) && r == m.textureTable[i].image)
  {
    MapImage(MapDef(m, NormalMap, codes))
  }

  function GetMaterialSpecularMap(m: Material, codes: SemanticCodes): (r: Option<GfxImage>)
    ensures (forall i :: 0 <= i < |m.textureTable| ==> !Considers(SpecularMap, codes, m.textureTable[i].semantic)) ==> r.None?
    ensures r.Some? ==> exists i :: (
      0 <= i < |m.textureTable| && Considers(SpecularMap, codes, m.textureTable[i].semantic) && r == m.textureTable[i].image)
  {
    MapImage(MapDef(m, SpecularMap, codes))
  }
}
