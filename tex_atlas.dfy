/**
 * The integer and array steps of `NodeTexCreator::process`: material
 * remapping and chart detection over the faces, per-chart UV bounding
 * boxes, dropping boxes of untextured materials, clamping each box's pixel
 * rectangle, the packing retry loop and the UV rewrite of vertices.
 *
 * The rectangle packer and the atlas' texture lookups are oracles (function
 * parameters); the floating-point padding, floor and ceil of a box enter the
 * clamping step as integer inputs.
 */
module TexAtlas {
  import opened Bits
  import opened TexRounding
  import opened Components

  /** A triangle: its material id and the indices of its three vertices. */
  datatype Face = Face(tex: int, v0: nat, v1: nat, v2: nat)

  /** A texture coordinate (`vcg::Point2f`), on exact reals. */
  datatype UV = UV(u: real, v: real)

  /**
   * `vcg::Box2f`: a default-constructed box is null (min (1,1), max
   * (-1,-1)); adding the first point makes it the degenerate box at that
   * point, later points widen it.
   */
  datatype Box2 = Box2(min: UV, max: UV)

  const NullBox := Box2(UV(1.0, 1.0), UV(-1.0, -1.0))

  predicate InFace(f: Face, v: int)
  {
    v == f.v0 || v == f.v1 || v == f.v2
  }

  /** Every face refers to vertices below nvert. */
  predicate FacesIn(faces: seq<Face>, nvert: nat)
  {
    forall f :: 0 <= f < |faces| ==> faces[f].v0 < nvert && faces[f].v1 < nvert && faces[f].v2 < nvert
  }

  // ---------------------------------------------------------------------
  // Steps 1 and 2: material remapping and connected components
  // ---------------------------------------------------------------------

  /** The component labels after linking every face's v0-v1 and v0-v2, in face order. */
  function LinkAll(roots: seq<nat>, faces: seq<Face>): (r: seq<nat>)
    requires FacesIn(faces, |roots|)
    ensures |r| == |roots|
    decreases |faces|
  {
    if faces == [] then roots
    else
      var f := faces[|faces| - 1];
      var r0 := LinkAll(roots, faces[..|faces| - 1]);
      Merge(Merge(r0, f.v0, f.v1), f.v0, f.v2)
  }

  /** Merging never separates two elements that already share a label. */
  lemma MergeKeepsJoined(roots: seq<nat>, a: nat, b: nat, i: nat, j: nat)
    requires a < |roots| && b < |roots| && i < |roots| && j < |roots|
    requires roots[i] == roots[j]
    ensures Merge(roots, a, b)[i] == Merge(roots, a, b)[j]
  {
  }

  /** After all faces are linked, the three vertices of every face share a component. */
  lemma {:induction false} LinkAllJoinsFaces(roots: seq<nat>, faces: seq<Face>)
    requires FacesIn(faces, |roots|)
    ensures forall f :: 0 <= f < |faces| ==>
      LinkAll(roots, faces)[faces[f].v0] == LinkAll(roots, faces)[faces[f].v1] &&
      LinkAll(roots, faces)[faces[f].v0] == LinkAll(roots, faces)[faces[f].v2]
  {
    if faces != [] {
      var pre := faces[..|faces| - 1];
      var g := faces[|faces| - 1];
      LinkAllJoinsFaces(roots, pre);
      var r0 := LinkAll(roots, pre);
      var r1 := Merge(r0, g.v0, g.v1);
      var r2 := Merge(r1, g.v0, g.v2);
      forall f | 0 <= f < |faces|
        ensures r2[faces[f].v0] == r2[faces[f].v1] && r2[faces[f].v0] == r2[faces[f].v2]
      {
        if f < |faces| - 1 {
          assert faces[f] == pre[f];
          MergeKeepsJoined(r0, g.v0, g.v1, faces[f].v0, faces[f].v1);
          MergeKeepsJoined(r0, g.v0, g.v1, faces[f].v0, faces[f].v2);
          MergeKeepsJoined(r1, g.v0, g.v2, faces[f].v0, faces[f].v1);
          MergeKeepsJoined(r1, g.v0, g.v2, faces[f].v0, faces[f].v2);
        } else {
          MergeKeepsJoined(r1, g.v0, g.v2, g.v0, g.v1);
        }
      }
    }
  }

  /** Two triangles on disjoint vertices form two components. */
  lemma TwoDisjointTrianglesTwoComponents()
    ensures |Values(LinkAll(seq(6, i => i), [Face(0, 0, 1, 2), Face(0, 3, 4, 5)]))| == 2
  {
    var faces := [Face(0, 0, 1, 2), Face(0, 3, 4, 5)];
    var id: seq<nat> := seq(6, i => i);
    assert faces[..1] == [Face(0, 0, 1, 2)] && faces[..1][..0] == [];
    assert LinkAll(id, faces[..1]) == Merge(Merge(id, 0, 1), 0, 2);
    assert Merge(Merge(id, 0, 1), 0, 2) == [0, 0, 0, 3, 4, 5];
    assert Merge(Merge([0, 0, 0, 3, 4, 5], 3, 4), 3, 5) == [0, 0, 0, 3, 3, 3];
    var r := LinkAll(id, faces);
    assert r == [0, 0, 0, 3, 3, 3];
    assert Values(r) == {0, 3} by {
      assert r[0] == 0 && r[3] == 3;
    }
  }

  /** A strip of two triangles sharing an edge forms one component. */
  lemma TriangleStripOneComponent()
    ensures |Values(LinkAll(seq(4, i => i), [Face(0, 0, 1, 2), Face(0, 1, 2, 3)]))| == 1
  {
    var faces := [Face(0, 0, 1, 2), Face(0, 1, 2, 3)];
    var id: seq<nat> := seq(4, i => i);
    assert faces[..1] == [Face(0, 0, 1, 2)] && faces[..1][..0] == [];
    assert LinkAll(id, faces[..1]) == Merge(Merge(id, 0, 1), 0, 2);
    assert Merge(Merge(id, 0, 1), 0, 2) == [0, 0, 0, 3];
    assert Merge(Merge([0, 0, 0, 3], 1, 2), 1, 3) == [0, 0, 0, 0];
    var r := LinkAll(id, faces);
    assert r == [0, 0, 0, 0];
    assert Values(r) == {0} by {
      assert r[0] == 0;
    }
  }

  /** The material of the last face that uses vertex v, or -1 if none does. */
  function LastTex(faces: seq<Face>, v: int): int
    decreases |faces|
  {
    if faces == [] then -1
    else if InFace(faces[|faces| - 1], v) then faces[|faces| - 1].tex
    else LastTex(faces[..|faces| - 1], v)
  }

  /** LastTex is -1 exactly for unused vertices, when no material id is -1. */
  lemma {:induction false} LastTexUnused(faces: seq<Face>, v: nat)
    requires forall f :: 0 <= f < |faces| ==> faces[f].tex != -1
    ensures LastTex(faces, v) == -1 <==> forall f :: 0 <= f < |faces| ==> !InFace(faces[f], v)
  {
    if faces != [] {
      var pre := faces[..|faces| - 1];
      LastTexUnused(pre, v);
      assert forall f :: 0 <= f < |pre| ==> pre[f] == faces[f];
    }
  }

  /** The set of material ids used by the faces. */
  function UsedMaterials(faces: seq<Face>): (r: set<int>)
    ensures forall f :: 0 <= f < |faces| ==> faces[f].tex in r
    ensures forall t :: t in r ==> exists f :: 0 <= f < |faces| && faces[f].tex == t
  {
    set f | 0 <= f < |faces| :: faces[f].tex
  }

  /** Stamping one face's material on its three vertices. */
  function StampFace(vtm: seq<int>, face: Face): (r: seq<int>)
    requires face.v0 < |vtm| && face.v1 < |vtm| && face.v2 < |vtm|
    ensures |r| == |vtm|
  {
    vtm[face.v0 := face.tex][face.v1 := face.tex][face.v2 := face.tex]
  }

  /** Stamping face after face keeps every vertex at its last face's material. */
  lemma StampFaceStep(vtm: seq<int>, done: seq<Face>, face: Face)
    requires face.v0 < |vtm| && face.v1 < |vtm| && face.v2 < |vtm|
    requires forall v :: 0 <= v < |vtm| ==> vtm[v] == LastTex(done, v)
    ensures forall v :: 0 <= v < |vtm| ==> StampFace(vtm, face)[v] == LastTex(done + [face], v)
  {
    assert (done + [face])[..|done|] == done;
  }

  lemma UsedMaterialsStep(done: seq<Face>, face: Face)
    ensures UsedMaterials(done + [face]) == UsedMaterials(done) + {face.tex}
  {
    var all := done + [face];
    assert all[|done|] == face;
    forall t | t in UsedMaterials(done)
      ensures t in UsedMaterials(all)
    {
      var f :| 0 <= f < |done| && done[f].tex == t;
      assert all[f] == done[f];
    }
  }

  /** Links one face's vertices: v0 with v1, then v0 with v2. */
  method LinkFace(uf: UnionFind, face: Face)
    requires uf.Valid()
    requires face.v0 < |uf.parents| && face.v1 < |uf.parents| && face.v2 < |uf.parents|
    modifies uf
    ensures uf.Valid() && |uf.parents| == old(|uf.parents|)
    ensures uf.roots == Merge(Merge(old(uf.roots), face.v0, face.v1), face.v0, face.v2)
  {
    uf.Link(face.v0, face.v1);
    uf.Link(face.v0, face.v2);
  }

  /** The faces with their material ids passed through the material map. */
  function RemapTex(faces: seq<Face>, materialMap: seq<int>): (r: seq<Face>)
    requires forall f :: 0 <= f < |faces| ==> 0 <= faces[f].tex < |materialMap|
    ensures |r| == |faces|
    ensures forall f :: 0 <= f < |faces| ==> r[f] == faces[f].(tex := materialMap[faces[f].tex])
  {
    seq(|faces|, f requires 0 <= f < |faces| => faces[f].(tex := materialMap[faces[f].tex]))
  }

  /**
   * The first pass's bookkeeping after the first k (remapped) faces: the
   * union-find labels, each vertex's last material and the used materials.
   */
  ghost predicate FirstPassUpTo(target: seq<Face>, k: nat, roots0: seq<nat>, roots: seq<nat>,
                                vtm: seq<int>, materialSet: set<int>)
  {
    k <= |target| && FacesIn(target, |roots0|) &&
    roots == LinkAll(roots0, target[..k]) &&
    |vtm| == |roots0| &&
    (forall v :: 0 <= v < |vtm| ==> vtm[v] == LastTex(target[..k], v)) &&
    materialSet == UsedMaterials(target[..k])
  }

  lemma FirstPassStep(target: seq<Face>, k: nat, roots0: seq<nat>, roots: seq<nat>,
                      vtm: seq<int>, materialSet: set<int>)
    requires FirstPassUpTo(target, k, roots0, roots, vtm, materialSet) && k < |target|
    ensures var face := target[k];
      FirstPassUpTo(target, k + 1, roots0, Merge(Merge(roots, face.v0, face.v1), face.v0, face.v2),
                    StampFace(vtm, face), materialSet + {face.tex})
  {
    var face := target[k];
    assert target[..k + 1] == target[..k] + [face];
    assert (target[..k + 1])[..k] == target[..k];
    StampFaceStep(vtm, target[..k], face);
    UsedMaterialsStep(target[..k], face);
  }

  /** One iteration of the first pass: remap face k, stamp its vertices, collect, link. */
  method FirstPassFace(faces: array<Face>, k: nat, materialMap: seq<int>, uf: UnionFind,
                       vtm: seq<int>, materialSet: set<int>, ghost target: seq<Face>, ghost roots0: seq<nat>)
    returns (vtm': seq<int>, materialSet': set<int>)
    requires k < faces.Length == |target| && 0 <= faces[k].tex < |materialMap|
    requires target[k] == faces[k].(tex := materialMap[faces[k].tex])
    requires uf.Valid() && |uf.parents| == |roots0|
    requires FirstPassUpTo(target, k, roots0, uf.roots, vtm, materialSet)
    modifies faces, uf
    ensures uf.Valid() && |uf.parents| == |roots0|
    ensures faces[..] == old(faces[..])[k := target[k]]
    ensures FirstPassUpTo(target, k + 1, roots0, uf.roots, vtm', materialSet')
  {
    var face := faces[k];
    face := face.(tex := materialMap[face.tex]);
    faces[k] := face;
    FirstPassStep(target, k, roots0, uf.roots, vtm, materialSet);
    vtm' := StampFace(vtm, face);
    materialSet' := materialSet + {face.tex};
    LinkFace(uf, face);
  }

  /** A vertex used by some face gets the material of one of the faces. */
  lemma {:induction false} LastTexOfUsedVertex(faces: seq<Face>, v: nat)
    requires exists f :: 0 <= f < |faces| && InFace(faces[f], v)
    ensures exists f :: 0 <= f < |faces| && faces[f].tex == LastTex(faces, v)
  {
    var pre := faces[..|faces| - 1];
    if !InFace(faces[|faces| - 1], v) {
      var f :| 0 <= f < |faces| && InFace(faces[f], v);
      assert pre[f] == faces[f];
      LastTexOfUsedVertex(pre, v);
      var g :| 0 <= g < |pre| && pre[g].tex == LastTex(pre, v);
      assert faces[g] == pre[g];
    }
  }

  /**
   * The first pass over the faces (lines 115-139 of the source): each face's
   * material id is replaced through `material_map`, every vertex records the
   * material of the last face using it, the used materials are collected,
   * and the face's vertices are linked in the union-find.
   */
  method LinkFaces(faces: array<Face>, materialMap: seq<int>, uf: UnionFind)
    returns (vertexToMaterial: seq<int>, materialSet: set<int>)
    requires uf.Valid()
    requires forall f :: 0 <= f < faces.Length ==> 0 <= faces[f].tex < |materialMap|
    requires FacesIn(faces[..], |uf.parents|)
    modifies faces, uf
    ensures uf.Valid() && |uf.parents| == old(|uf.parents|)
    ensures faces[..] == RemapTex(old(faces[..]), materialMap)
    ensures FacesIn(faces[..], |uf.parents|)
    ensures uf.roots == LinkAll(old(uf.roots), faces[..])
    ensures |vertexToMaterial| == |uf.parents|
    ensures forall v :: 0 <= v < |vertexToMaterial| ==> vertexToMaterial[v] == LastTex(faces[..], v)
    ensures materialSet == UsedMaterials(faces[..])
  {
    ghost var roots0 := uf.roots;
    ghost var target := RemapTex(faces[..], materialMap);
    vertexToMaterial := seq(|uf.parents|, _ => -1);
    materialSet := {};
    var k := 0;
    while k < faces.Length
      invariant 0 <= k <= faces.Length
      invariant uf.Valid() && |uf.parents| == |roots0|
      invariant forall f :: 0 <= f < k ==> faces[f] == target[f]
      invariant forall f :: k <= f < faces.Length ==> faces[f] == old(faces[f])
      invariant FirstPassUpTo(target, k, roots0, uf.roots, vertexToMaterial, materialSet)
    {
      vertexToMaterial, materialSet := FirstPassFace(faces, k, materialMap, uf, vertexToMaterial, materialSet, target, roots0);
      k := k + 1;
    }
    assert target[..k] == target;
    assert faces[..] == target;
  }

  /**
   * The second pass over the faces (lines 142-147): every used vertex gets
   * the material of the last face using it again.
   */
  method RecordVertexMaterials(faces: seq<Face>, vertexToMaterial: seq<int>) returns (vtm: seq<int>)
    requires FacesIn(faces, |vertexToMaterial|)
    ensures |vtm| == |vertexToMaterial|
    ensures forall v :: 0 <= v < |vtm| ==>
      vtm[v] == if exists f :: 0 <= f < |faces| && InFace(faces[f], v) then LastTex(faces, v) else vertexToMaterial[v]
  {
    vtm := vertexToMaterial;
    var k := 0;
    while k < |faces|
      invariant 0 <= k <= |faces| && |vtm| == |vertexToMaterial|
      invariant forall v :: 0 <= v < |vtm| ==>
        vtm[v] == if exists f :: 0 <= f < k && InFace(faces[f], v) then LastTex(faces[..k], v) else vertexToMaterial[v]
    {
      var face := faces[k];
      vtm := vtm[face.v0 := face.tex];
      vtm := vtm[face.v1 := face.tex];
      vtm := vtm[face.v2 := face.tex];
      assert faces[..k + 1][..k] == faces[..k];
      k := k + 1;
    }
    assert faces[..k] == faces;
  }

  /**
   * Given the first pass's result, the second pass changes nothing: the
   * recorded materials already are those of the last face using each vertex.
   */
  lemma SecondPassIsIdentity(faces: seq<Face>, vtm: seq<int>, v: nat)
    requires v < |vtm|
    requires forall f :: 0 <= f < |faces| ==> faces[f].tex != -1
    requires vtm[v] == LastTex(faces, v)
    ensures (if exists f :: 0 <= f < |faces| && InFace(faces[f], v) then LastTex(faces, v) else vtm[v]) == vtm[v]
  {
  }

  // ---------------------------------------------------------------------
  // Step 3: one UV bounding box per component
  // ---------------------------------------------------------------------

  predicate IsNull(b: Box2)
  {
    b.min.u > b.max.u || b.min.v > b.max.v
  }

  function MinR(a: real, b: real): real { if a < b then a else b }
  function MaxR(a: real, b: real): real { if a < b then b else a }

  /** `Box2f::Add`: a null box becomes the point, otherwise it is widened. */
  function Add(b: Box2, p: UV): Box2
  {
    if IsNull(b) then Box2(p, p)
    else Box2(UV(MinR(b.min.u, p.u), MinR(b.min.v, p.v)), UV(MaxR(b.max.u, p.u), MaxR(b.max.v, p.v)))
  }

  /** The box obtained by adding the points one by one to a null box. */
  function Hull(pts: seq<UV>): Box2
  {
    if pts == [] then NullBox else Add(Hull(pts[..|pts| - 1]), pts[|pts| - 1])
  }

  predicate Inside(p: UV, b: Box2)
  {
    b.min.u <= p.u <= b.max.u && b.min.v <= p.v <= b.max.v
  }

  /** The hull is null exactly when no point was added. */
  lemma {:induction false} HullNullIffEmpty(pts: seq<UV>)
    ensures IsNull(Hull(pts)) <==> pts == []
  {
    if pts != [] {
      HullNullIffEmpty(pts[..|pts| - 1]);
    }
  }

  /** Every added point lies inside the hull. */
  lemma {:induction false} HullContains(pts: seq<UV>)
    ensures forall k :: 0 <= k < |pts| ==> Inside(pts[k], Hull(pts))
  {
    if pts != [] {
      var pre := pts[..|pts| - 1];
      HullContains(pre);
      HullNullIffEmpty(pre);
      assert forall k :: 0 <= k < |pre| ==> pts[k] == pre[k];
    }
  }

  /** The hull lies inside every non-null box that contains all the points. */
  lemma {:induction false} HullIsSmallest(pts: seq<UV>, b: Box2)
    requires pts != [] && !IsNull(b)
    requires forall k :: 0 <= k < |pts| ==> Inside(pts[k], b)
    ensures b.min.u <= Hull(pts).min.u && Hull(pts).max.u <= b.max.u
    ensures b.min.v <= Hull(pts).min.v && Hull(pts).max.v <= b.max.v
  {
    var pre := pts[..|pts| - 1];
    assert Inside(pts[|pts| - 1], b);
    if pre != [] {
      assert forall k :: 0 <= k < |pre| ==> pre[k] == pts[k];
      HullIsSmallest(pre, b);
      HullNullIffEmpty(pre);
    }
  }

  /** `std::min(1.0f, std::max(0.0f, x))`. */
  function Clamp01(x: real): (r: real)
    ensures 0.0 <= r <= 1.0
    ensures 0.0 <= x <= 1.0 ==> r == x
  {
    if x < 0.0 then 0.0 else if x > 1.0 then 1.0 else x
  }

  function ClampUV(t: UV): UV
  {
    UV(Clamp01(t.u), Clamp01(t.v))
  }

  const UnitBox := Box2(UV(0.0, 0.0), UV(1.0, 1.0))

  /**
   * The clamped UVs, among the first n vertices, that are added to box b:
   * assigned vertices of component b whose clamped UV is not the origin.
   */
  function ChartPoints(uvs: seq<UV>, vertexToBox: seq<int>, vertexToMaterial: seq<int>, b: int, n: nat): (r: seq<UV>)
    requires n <= |uvs| && n <= |vertexToBox| && n <= |vertexToMaterial|
    ensures forall k :: 0 <= k < |r| ==> Inside(r[k], UnitBox) && r[k] != UV(0.0, 0.0)
  {
    if n == 0 then []
    else
      var rest := ChartPoints(uvs, vertexToBox, vertexToMaterial, b, n - 1);
      var t := ClampUV(uvs[n - 1]);
      if vertexToMaterial[n - 1] >= 0 && vertexToBox[n - 1] == b && t != UV(0.0, 0.0) then rest + [t] else rest
  }

  /** A vertex that is added to its box appears among that box's points. */
  lemma {:induction false} ChartPointsHas(uvs: seq<UV>, vertexToBox: seq<int>, vertexToMaterial: seq<int>, n: nat, i: nat)
    requires n <= |uvs| && n <= |vertexToBox| && n <= |vertexToMaterial|
    requires i < n && vertexToMaterial[i] >= 0 && ClampUV(uvs[i]) != UV(0.0, 0.0)
    ensures ClampUV(uvs[i]) in ChartPoints(uvs, vertexToBox, vertexToMaterial, vertexToBox[i], n)
  {
    if i < n - 1 {
      ChartPointsHas(uvs, vertexToBox, vertexToMaterial, n - 1, i);
    }
  }

  /** A null box, or a box inside the unit square. */
  predicate NullOrInUnit(b: Box2)
  {
    IsNull(b) || (0.0 <= b.min.u <= b.max.u <= 1.0 && 0.0 <= b.min.v <= b.max.v <= 1.0)
  }

  /** Every computed box is either null or a box inside the unit square. */
  lemma ChartBoxInUnitSquare(pts: seq<UV>)
    requires forall k :: 0 <= k < |pts| ==> Inside(pts[k], UnitBox)
    ensures NullOrInUnit(Hull(pts))
  {
    HullNullIffEmpty(pts);
    if pts != [] {
      HullIsSmallest(pts, UnitBox);
    }
  }

  /** The material of the last assigned vertex (among the first n) of component b, or -1. */
  function BoxMaterial(vertexToBox: seq<int>, vertexToMaterial: seq<int>, b: int, n: nat): int
    requires n <= |vertexToBox| && n <= |vertexToMaterial|
  {
    if n == 0 then -1
    else if vertexToMaterial[n - 1] >= 0 && vertexToBox[n - 1] == b then vertexToMaterial[n - 1]
    else BoxMaterial(vertexToBox, vertexToMaterial, b, n - 1)
  }

  /** A box gets a material exactly when one of its vertices is assigned one. */
  lemma {:induction false} BoxMaterialAssigned(vertexToBox: seq<int>, vertexToMaterial: seq<int>, b: int, n: nat)
    requires n <= |vertexToBox| && n <= |vertexToMaterial|
    ensures BoxMaterial(vertexToBox, vertexToMaterial, b, n) >= 0 <==>
      exists i :: 0 <= i < n && vertexToMaterial[i] >= 0 && vertexToBox[i] == b
    ensures BoxMaterial(vertexToBox, vertexToMaterial, b, n) < 0 ==> BoxMaterial(vertexToBox, vertexToMaterial, b, n) == -1
  {
    if n > 0 {
      BoxMaterialAssigned(vertexToBox, vertexToMaterial, b, n - 1);
    }
  }

  /** A box's material is the material of one of its vertices. */
  lemma {:induction false} BoxMaterialFromVertex(vertexToBox: seq<int>, vertexToMaterial: seq<int>, b: int, n: nat)
    requires n <= |vertexToBox| && n <= |vertexToMaterial|
    ensures BoxMaterial(vertexToBox, vertexToMaterial, b, n) == -1 ||
      exists i :: 0 <= i < n && vertexToBox[i] == b && vertexToMaterial[i] == BoxMaterial(vertexToBox, vertexToMaterial, b, n)
  {
    if n > 0 {
      BoxMaterialFromVertex(vertexToBox, vertexToMaterial, b, n - 1);
    }
  }

  /**
   * The box loop (lines 150-167): for every vertex with a material, clamp
   * its UV into [0,1], record the material on its component's box and add
   * the clamped UV to that box unless it is the origin.
   */
  method ComputeBoxes(uvs: array<UV>, vertexToBox: seq<int>, vertexToMaterial: seq<int>, nBoxes: nat)
    returns (boxes: seq<Box2>, boxTexture: seq<int>)
    requires uvs.Length == |vertexToBox| == |vertexToMaterial|
    requires forall i :: 0 <= i < |vertexToBox| ==> 0 <= vertexToBox[i] < nBoxes
    modifies uvs
    ensures |boxes| == nBoxes && |boxTexture| == nBoxes
    ensures forall i :: 0 <= i < uvs.Length ==>
      uvs[i] == if vertexToMaterial[i] < 0 then old(uvs[i]) else ClampUV(old(uvs[i]))
    ensures forall b :: 0 <= b < nBoxes ==>
      boxes[b] == Hull(ChartPoints(old(uvs[..]), vertexToBox, vertexToMaterial, b, uvs.Length))
    ensures forall b :: 0 <= b < nBoxes ==>
      boxTexture[b] == BoxMaterial(vertexToBox, vertexToMaterial, b, uvs.Length)
  {
    ghost var uv0 := uvs[..];
    boxes := seq(nBoxes, _ => NullBox);
    boxTexture := seq(nBoxes, _ => -1);
    for i := 0 to uvs.Length
      invariant |boxes| == nBoxes && |boxTexture| == nBoxes
      invariant forall j :: 0 <= j < i ==> uvs[j] == if vertexToMaterial[j] < 0 then uv0[j] else ClampUV(uv0[j])
      invariant forall j :: i <= j < uvs.Length ==> uvs[j] == uv0[j]
      invariant forall b :: 0 <= b < nBoxes ==> boxes[b] == Hull(ChartPoints(uv0, vertexToBox, vertexToMaterial, b, i))
      invariant forall b :: 0 <= b < nBoxes ==> boxTexture[b] == BoxMaterial(vertexToBox, vertexToMaterial, b, i)
    {
      var b := vertexToBox[i];
      var tex := vertexToMaterial[i];
      if tex < 0 {
        continue;
      }
      boxTexture := boxTexture[b := tex];
      var t := ClampUV(uvs[i]);
      uvs[i] := t;
      if t != UV(0.0, 0.0) {
        ghost var pts := ChartPoints(uv0, vertexToBox, vertexToMaterial, b, i);
        assert (pts + [t])[..|pts|] == pts;
        boxes := boxes[b := Add(boxes[b], t)];
      }
    }
  }

  // ---------------------------------------------------------------------
  // Step 3b: drop boxes whose material has no texture maps
  // ---------------------------------------------------------------------

  /** The indices below n of boxes whose material has maps, in increasing order. */
  function Kept(boxTexture: seq<int>, nmaps: seq<nat>, n: nat): (r: seq<nat>)
    requires n <= |boxTexture| && MaterialsIn(boxTexture, nmaps)
    ensures |r| <= n
    ensures forall k :: 0 <= k < |r| ==> r[k] < n
  {
    if n == 0 then []
    else Kept(boxTexture, nmaps, n - 1) + (if nmaps[boxTexture[n - 1]] != 0 then [n - 1] else [])
  }

  /** The new index of box i after filtering, or -1 if it is dropped. */
  function NewIndex(boxTexture: seq<int>, nmaps: seq<nat>, i: nat): int
    requires i < |boxTexture| && MaterialsIn(boxTexture, nmaps)
  {
    if nmaps[boxTexture[i]] != 0 then |Kept(boxTexture, nmaps, i)| else -1
  }

  /**
   * The kept boxes are exactly those whose material has maps, listed in
   * increasing (original) order.
   */
  lemma {:induction false} KeptExactly(boxTexture: seq<int>, nmaps: seq<nat>, n: nat)
    requires n <= |boxTexture| && MaterialsIn(boxTexture, nmaps)
    ensures forall i :: 0 <= i < |boxTexture| ==> (i in Kept(boxTexture, nmaps, n) <==> i < n && nmaps[boxTexture[i]] != 0)
    ensures forall k, l :: 0 <= k < l < |Kept(boxTexture, nmaps, n)| ==> Kept(boxTexture, nmaps, n)[k] < Kept(boxTexture, nmaps, n)[l]
  {
    if n > 0 {
      KeptExactly(boxTexture, nmaps, n - 1);
    }
  }

  /** Kept boxes map to their position in the kept list, and back. */
  lemma {:induction false} NewIndexInverse(boxTexture: seq<int>, nmaps: seq<nat>, i: nat)
    requires i < |boxTexture| && MaterialsIn(boxTexture, nmaps)
    ensures NewIndex(boxTexture, nmaps, i) == -1 <==> nmaps[boxTexture[i]] == 0
    ensures NewIndex(boxTexture, nmaps, i) >= 0 ==>
      NewIndex(boxTexture, nmaps, i) < |Kept(boxTexture, nmaps, |boxTexture|)| &&
      Kept(boxTexture, nmaps, |boxTexture|)[NewIndex(boxTexture, nmaps, i)] == i
  {
    if nmaps[boxTexture[i]] != 0 {
      KeptPrefix(boxTexture, nmaps, i + 1, |boxTexture|);
      assert Kept(boxTexture, nmaps, i + 1)[|Kept(boxTexture, nmaps, i)|] == i;
    }
  }

  /** The kept list of a shorter prefix is a prefix of the kept list. */
  lemma {:induction false} KeptPrefix(boxTexture: seq<int>, nmaps: seq<nat>, m: nat, n: nat)
    requires m <= n <= |boxTexture| && MaterialsIn(boxTexture, nmaps)
    ensures Kept(boxTexture, nmaps, m) <= Kept(boxTexture, nmaps, n)
  {
    if m < n {
      KeptPrefix(boxTexture, nmaps, m, n - 1);
    }
  }

  /** Every box has a material id within the material table. */
  predicate MaterialsIn(boxTexture: seq<int>, nmaps: seq<nat>)
  {
    forall i :: 0 <= i < |boxTexture| ==> 0 <= boxTexture[i] < |nmaps|
  }

  /**
   * The compaction state after boxes [0, i): the kept boxes and materials
   * sit at the front in order, the rest of the arrays is untouched from i
   * on, and remap holds the new index of every visited box.
   */
  ghost predicate CompactedBoxesUpTo(b0: seq<Box2>, bt0: seq<int>, nmaps: seq<nat>, i: nat,
                                     bs: seq<Box2>, bt: seq<int>, remap: seq<int>, kept: seq<nat>)
  {
    |b0| == |bt0| == |bs| == |bt| && i <= |b0| <= |remap| && MaterialsIn(bt0, nmaps) &&
    kept == Kept(bt0, nmaps, i) && |kept| <= i &&
    (forall k :: 0 <= k < |kept| ==> bs[k] == b0[kept[k]] && bt[k] == bt0[kept[k]]) &&
    (forall k :: i <= k < |b0| ==> bs[k] == b0[k] && bt[k] == bt0[k]) &&
    (forall j :: 0 <= j < i ==> remap[j] == NewIndex(bt0, nmaps, j)) &&
    (forall j :: i <= j < |remap| ==> remap[j] == -1)
  }

  lemma CompactKeep(b0: seq<Box2>, bt0: seq<int>, nmaps: seq<nat>, i: nat,
                    bs: seq<Box2>, bt: seq<int>, remap: seq<int>, kept: seq<nat>)
    requires CompactedBoxesUpTo(b0, bt0, nmaps, i, bs, bt, remap, kept)
    requires i < |b0| && nmaps[bt0[i]] != 0
    ensures CompactedBoxesUpTo(b0, bt0, nmaps, i + 1, bs[|kept| := bs[i]], bt[|kept| := bt[i]],
                               remap[i := |kept|], kept + [i])
  {
  }

  lemma CompactSkip(b0: seq<Box2>, bt0: seq<int>, nmaps: seq<nat>, i: nat,
                    bs: seq<Box2>, bt: seq<int>, remap: seq<int>, kept: seq<nat>)
    requires CompactedBoxesUpTo(b0, bt0, nmaps, i, bs, bt, remap, kept)
    requires i < |b0| && nmaps[bt0[i]] == 0
    ensures CompactedBoxesUpTo(b0, bt0, nmaps, i + 1, bs, bt, remap, kept)
  {
    assert Kept(bt0, nmaps, i + 1) == kept + [];
  }

  /** One kept box of the compaction loop: box i moves to slot `count`. */
  method MoveBox(boxes: array<Box2>, boxTexture: array<int>, remap: array<int>, i: nat, count: nat)
    requires count <= i < boxes.Length == boxTexture.Length <= remap.Length && boxTexture != remap
    modifies boxes, boxTexture, remap
    ensures boxes[..] == old(boxes[..])[count := old(boxes[i])]
    ensures boxTexture[..] == old(boxTexture[..])[count := old(boxTexture[i])]
    ensures remap[..] == old(remap[..])[i := count]
  {
    boxes[count] := boxes[i];
    boxTexture[count] := boxTexture[i];
    remap[i] := count;
  }

  /**
   * The compaction loop (lines 169-181): boxes and their materials are moved
   * in place onto the front of the arrays, keeping those whose material has
   * maps; `remap` records each box's new index (-1 for a dropped box).
   */
  method CompactBoxes(boxes: array<Box2>, boxTexture: array<int>, nmaps: seq<nat>, nvert: nat)
    returns (count: nat, remap: array<int>)
    requires boxes.Length == boxTexture.Length <= nvert
    requires MaterialsIn(boxTexture[..], nmaps)
    modifies boxes, boxTexture
    ensures fresh(remap) && remap.Length == nvert
    ensures count == |Kept(old(boxTexture[..]), nmaps, boxes.Length)|
    ensures forall k :: 0 <= k < count ==>
      boxes[k] == old(boxes[..])[Kept(old(boxTexture[..]), nmaps, boxes.Length)[k]]
    ensures forall k :: 0 <= k < count ==>
      boxTexture[k] == old(boxTexture[..])[Kept(old(boxTexture[..]), nmaps, boxes.Length)[k]]
    ensures forall j :: 0 <= j < boxes.Length ==> remap[j] == NewIndex(old(boxTexture[..]), nmaps, j)
  {
    ghost var bt0 := boxTexture[..];
    ghost var b0 := boxes[..];
    var n := boxes.Length;
    remap := new int[nvert](_ => -1);
    count := 0;
    ghost var kept: seq<nat> := [];
    for i := 0 to n
      invariant CompactedBoxesUpTo(b0, bt0, nmaps, i, boxes[..], boxTexture[..], remap[..], kept)
      invariant count == |kept|
    {
      var tex := boxTexture[i];
      if nmaps[tex] == 0 {
        CompactSkip(b0, bt0, nmaps, i, boxes[..], boxTexture[..], remap[..], kept);
        continue;
      }
      CompactKeep(b0, bt0, nmaps, i, boxes[..], boxTexture[..], remap[..], kept);
      MoveBox(boxes, boxTexture, remap, i, count);
      count := count + 1;
      kept := kept + [i];
    }
  }

  /** The renumbering loop (lines 184-185): every vertex's box goes through remap. */
  method RemapVertexBoxes(vertexToBox: array<int>, remap: array<int>)
    requires vertexToBox != remap
    requires forall v :: 0 <= v < vertexToBox.Length ==> 0 <= vertexToBox[v] < remap.Length
    modifies vertexToBox
    ensures forall v :: 0 <= v < vertexToBox.Length ==> vertexToBox[v] == remap[old(vertexToBox[v])]
  {
    for v := 0 to vertexToBox.Length
      invariant forall u :: 0 <= u < v ==> vertexToBox[u] == remap[old(vertexToBox[u])]
      invariant forall u :: v <= u < vertexToBox.Length ==> vertexToBox[u] == old(vertexToBox[u])
    {
      vertexToBox[v] := remap[vertexToBox[v]];
    }
  }

  /**
   * Box filtering (lines 169-185): keeps exactly the boxes whose material
   * has maps, in their original order, and renumbers every vertex's box
   * (-1 for a dropped box). The vectors are then cut to the returned count.
   */
  method FilterBoxes(boxes: array<Box2>, boxTexture: array<int>, vertexToBox: array<int>, nmaps: seq<nat>)
    returns (count: nat)
    requires boxes.Length == boxTexture.Length <= vertexToBox.Length && boxTexture != vertexToBox
    requires MaterialsIn(boxTexture[..], nmaps)
    requires forall v :: 0 <= v < vertexToBox.Length ==> 0 <= vertexToBox[v] < boxes.Length
    modifies boxes, boxTexture, vertexToBox
    ensures count == |Kept(old(boxTexture[..]), nmaps, boxes.Length)|
    ensures forall k :: 0 <= k < count ==>
      boxes[k] == old(boxes[..])[Kept(old(boxTexture[..]), nmaps, boxes.Length)[k]]
    ensures forall k :: 0 <= k < count ==>
      boxTexture[k] == old(boxTexture[..])[Kept(old(boxTexture[..]), nmaps, boxes.Length)[k]]
    ensures forall v :: 0 <= v < vertexToBox.Length ==>
      vertexToBox[v] == NewIndex(old(boxTexture[..]), nmaps, old(vertexToBox[v]))
  {
    var remap;
    count, remap := CompactBoxes(boxes, boxTexture, nmaps, vertexToBox.Length);
    RemapVertexBoxes(vertexToBox, remap);
  }
  // ---------------------------------------------------------------------
  // Step 4: pixel rectangle of every box in its source texture
  // ---------------------------------------------------------------------

  /**
   * What the atlas and the float arithmetic give for one box (lines
   * 194-208): the source texture's size at this level, and per axis
   * floor(min/px) and ceil(max/px) of the box padded by one pixel.
   */
  datatype PixelSpan = PixelSpan(texSize: Point2i, floorMin: Point2i, ceilMax: Point2i)

  /**
   * One axis of a box's pixel rectangle (lines 206-214): the origin is
   * max(0, floorMin) pulled back to w-1 when it reaches w; the size runs to
   * min(w, ceilMax) and is at least one pixel.
   */
  function ClampAxis(floorMin: int, ceilMax: int, w: int): (r: (int, int))
    ensures r.1 >= 1
    ensures w >= 1 ==> 0 <= r.0 < w && r.0 + r.1 <= w
    ensures r.0 <= (if 0 < floorMin then floorMin else 0)
    ensures r.0 + r.1 >= (if ceilMax < w then ceilMax else w)
    ensures 0 <= floorMin < ceilMax <= w ==> r == (floorMin, ceilMax - floorMin)
  {
    var origin := if 0 < floorMin then floorMin else 0;
    var origin' := if origin >= w then w - 1 else origin;
    var size := (if ceilMax < w then ceilMax else w) - origin';
    (origin', if size <= 0 then 1 else size)
  }

  /** The origin and size of one box's pixel rectangle, axis by axis. */
  function PixelRect(sp: PixelSpan): (Point2i, Point2i)
  {
    var x := ClampAxis(sp.floorMin.x, sp.ceilMax.x, sp.texSize.x);
    var y := ClampAxis(sp.floorMin.y, sp.ceilMax.y, sp.texSize.y);
    (Point2i(x.0, y.0), Point2i(x.1, y.1))
  }

  /** The `origins` vector of `process`: one rectangle origin per box. */
  function PixelOrigins(boxes: seq<Box2>, boxTexture: seq<int>, snap: (Box2, int) -> PixelSpan): seq<Point2i>
    requires |boxes| == |boxTexture|
  {
    seq(|boxes|, b requires 0 <= b < |boxes| => PixelRect(snap(boxes[b], boxTexture[b])).0)
  }

  /** The `sizes` vector of `process`: one rectangle size per box. */
  function PixelSizes(boxes: seq<Box2>, boxTexture: seq<int>, snap: (Box2, int) -> PixelSpan): seq<Point2i>
    requires |boxes| == |boxTexture|
  {
    seq(|boxes|, b requires 0 <= b < |boxes| => PixelRect(snap(boxes[b], boxTexture[b])).1)
  }

  /**
   * The rectangle loop (lines 188-215): every kept box gets its origin and
   * size in its source texture, axis by axis.
   */
  method PixelRects(boxes: seq<Box2>, boxTexture: seq<int>, snap: (Box2, int) -> PixelSpan)
    returns (origins: seq<Point2i>, sizes: seq<Point2i>)
    requires |boxes| == |boxTexture|
    ensures origins == PixelOrigins(boxes, boxTexture, snap) && sizes == PixelSizes(boxes, boxTexture, snap)
    ensures |origins| == |boxes| && |sizes| == |boxes|
    ensures forall b :: 0 <= b < |boxes| ==>
      var sp := snap(boxes[b], boxTexture[b]);
      var x := ClampAxis(sp.floorMin.x, sp.ceilMax.x, sp.texSize.x);
      var y := ClampAxis(sp.floorMin.y, sp.ceilMax.y, sp.texSize.y);
      origins[b] == Point2i(x.0, y.0) && sizes[b] == Point2i(x.1, y.1)
    ensures forall b :: 0 <= b < |boxes| ==> sizes[b].x >= 1 && sizes[b].y >= 1
  {
    origins := [];
    sizes := [];
    for b := 0 to |boxes|
      invariant |origins| == b && |sizes| == b
      invariant forall c :: 0 <= c < b ==>
        var sp := snap(boxes[c], boxTexture[c]);
        var x := ClampAxis(sp.floorMin.x, sp.ceilMax.x, sp.texSize.x);
        var y := ClampAxis(sp.floorMin.y, sp.ceilMax.y, sp.texSize.y);
        origins[c] == Point2i(x.0, y.0) && sizes[c] == Point2i(x.1, y.1)
    {
      var sp := snap(boxes[b], boxTexture[b]);
      var x := ClampAxis(sp.floorMin.x, sp.ceilMax.x, sp.texSize.x);
      var y := ClampAxis(sp.floorMin.y, sp.ceilMax.y, sp.texSize.y);
      origins := origins + [Point2i(x.0, y.0)];
      sizes := sizes + [Point2i(x.1, y.1)];
    }
  }

  // ---------------------------------------------------------------------
  // Step 5: packing with growing canvases
  // ---------------------------------------------------------------------

  /** What the rectangle packer reports: failure, or a placement and the used size. */
  datatype Packing = PackFailed | Packed(mapping: seq<Point2i>, packedSize: Point2i)

  /** The canvas of attempt i: 4096 doubled i times on each side. */
  function Canvas(i: nat): Point2i
  {
    Point2i(4096 * Pow2(i), 4096 * Pow2(i))
  }

  lemma CanvasSizes()
    ensures Canvas(0) == Point2i(4096, 4096)
    ensures Canvas(4) == Point2i(65536, 65536)
    ensures forall i :: 0 <= i < 4 ==> Canvas(i + 1) == Point2i(2 * Canvas(i).x, 2 * Canvas(i).y)
  {
    assert Pow2(4) == 16 by {
      Pow2Table();
    }
  }

  /** Some box is wider or taller than the canvas. */
  predicate TooLarge(sizes: seq<Point2i>, canvas: Point2i)
  {
    exists k :: 0 <= k < |sizes| && (sizes[k].x > canvas.x || sizes[k].y > canvas.y)
  }

  /** Attempt i is tried and the packer succeeds on it. */
  predicate Accepts(sizes: seq<Point2i>, packer: (seq<Point2i>, Point2i) -> Packing, i: nat)
  {
    !TooLarge(sizes, Canvas(i)) && packer(sizes, Canvas(i)).Packed?
  }

  /** The outcome of the attempts i..4: the first canvas that fits and packs. */
  function PackFrom(sizes: seq<Point2i>, packer: (seq<Point2i>, Point2i) -> Packing, i: nat): Packing
    decreases 5 - i
  {
    if i >= 5 then PackFailed
    else if Accepts(sizes, packer, i) then packer(sizes, Canvas(i))
    else PackFrom(sizes, packer, i + 1)
  }

  /**
   * Packing succeeds iff some attempt is accepted, and then the result is
   * the packer's answer on the first accepted canvas.
   */
  lemma {:induction false} PackFromFirstAccepted(sizes: seq<Point2i>, packer: (seq<Point2i>, Point2i) -> Packing, i: nat)
    requires i <= 5
    ensures PackFrom(sizes, packer, i).Packed? <==> exists j :: i <= j < 5 && Accepts(sizes, packer, j)
    ensures forall j :: i <= j < 5 && Accepts(sizes, packer, j) && (forall l :: i <= l < j ==> !Accepts(sizes, packer, l)) ==>
      PackFrom(sizes, packer, i) == packer(sizes, Canvas(j))
    ensures PackFrom(sizes, packer, i).Packed? ==>
      exists j :: i <= j < 5 && PackFrom(sizes, packer, i) == packer(sizes, Canvas(j))
    decreases 5 - i
  {
    if i < 5 {
      PackFromFirstAccepted(sizes, packer, i + 1);
    }
  }

  /**
   * The packing loop (lines 224-255): with no boxes the size is (1, 1);
   * otherwise canvases 4096, 8192, ... are tried in turn, skipping those
   * some box does not fit, until the packer succeeds. Running out of
   * attempts is the error the source ends the program on.
   */
  method PackBoxes(sizes: seq<Point2i>, packer: (seq<Point2i>, Point2i) -> Packing) returns (r: Packing)
    ensures |sizes| == 0 ==> r == Packed([], Point2i(1, 1))
    ensures |sizes| > 0 ==> r == PackFrom(sizes, packer, 0)
  {
    var mapping: seq<Point2i> := [];
    var maxSize := Point2i(4096, 4096);
    var packedSize := Point2i(0, 0);
    var success := false;
    var i := 0;
    while i < 5
      invariant 0 <= i <= 5 && maxSize == Canvas(i) && !success && mapping == []
      invariant |sizes| > 0 ==> PackFrom(sizes, packer, 0) == PackFrom(sizes, packer, i)
      invariant |sizes| == 0 ==> i == 0
    {
      if |sizes| == 0 {
        packedSize := Point2i(1, 1);
        success := true;
        break;
      }
      var tooLarge := false;
      for k := 0 to |sizes|
        invariant tooLarge <==> exists j :: 0 <= j < k && (sizes[j].x > maxSize.x || sizes[j].y > maxSize.y)
      {
        if sizes[k].x > maxSize.x || sizes[k].y > maxSize.y {
          tooLarge := true;
        }
      }
      if !tooLarge {
        mapping := [];
        var attempt := packer(sizes, maxSize);
        if attempt.Packed? {
          mapping, packedSize := attempt.mapping, attempt.packedSize;
          success := true;
          break;
        }
      }
      i, maxSize := i + 1, Point2i(maxSize.x * 2, maxSize.y * 2);
    }
    if !success {
      return PackFailed;
    }
    r := Packed(mapping, packedSize);
  }

  // ---------------------------------------------------------------------
  // Final material and UV rewrite
  // ---------------------------------------------------------------------

  /** The materials the used materials unify to through `texture_map` (lines 217-220). */
  function FinalMaterials(materialSet: set<int>, textureMap: seq<int>): (r: set<int>)
    requires forall m :: m in materialSet ==> 0 <= m < |textureMap|
    ensures forall m :: m in materialSet ==> textureMap[m] in r
    ensures forall t :: t in r ==> exists m :: m in materialSet && textureMap[m] == t
  {
    set m | m in materialSet :: textureMap[m]
  }

  /** A non-empty finite set of integers has a least element (`std::set::begin`). */
  lemma {:induction false} HasLeast(s: set<int>)
    requires s != {}
    ensures exists m :: m in s && forall x :: x in s ==> m <= x
    decreases |s|
  {
    var y: int;
    if forall z :: z !in s {
      assert false;
    } else {
      y :| y in s;
    }
    var rest := s - {y};
    assert s == rest + {y};
    if rest == {} {
      assert s == {y};
    } else {
      HasLeast(rest);
      var m :| m in rest && forall x :: x in rest ==> m <= x;
      var least := if y < m then y else m;
      forall x | x in s
        ensures least <= x
      {
        if x != y {
          assert x in rest;
        }
      }
    }
  }

  /**
   * The UV loop (lines 288-322): a vertex without a box gets UV (0, 0);
   * the others go through the float remapping into the packed texture,
   * given here as the `remapUV` oracle of the vertex's UV and box.
   */
  method AssignUVs(uvs: array<UV>, vertexToBox: seq<int>, remapUV: (UV, int) -> UV)
    requires uvs.Length == |vertexToBox|
    modifies uvs
    ensures forall i :: 0 <= i < uvs.Length ==>
      uvs[i] == if vertexToBox[i] == -1 then UV(0.0, 0.0) else remapUV(old(uvs[i]), vertexToBox[i])
  {
    for i := 0 to uvs.Length
      invariant forall j :: 0 <= j < i ==>
        uvs[j] == if vertexToBox[j] == -1 then UV(0.0, 0.0) else remapUV(old(uvs[j]), vertexToBox[j])
      invariant forall j :: i <= j < uvs.Length ==> uvs[j] == old(uvs[j])
    {
      var b := vertexToBox[i];
      if b == -1 {
        uvs[i] := UV(0.0, 0.0);
        continue;
      }
      uvs[i] := remapUV(uvs[i], b);
    }
  }

  // ---------------------------------------------------------------------
  // The whole bookkeeping of `process`
  // ---------------------------------------------------------------------

  /**
   * The material tables: `material_map` unifies identical materials,
   * `texture_map` groups materials that differ only by texture, and
   * `nmaps` is the number of texture maps of each material.
   */
  datatype MaterialTable = MaterialTable(materialMap: seq<int>, textureMap: seq<int>, nmaps: seq<nat>)

  predicate WellFormedTable(t: MaterialTable)
  {
    (forall i :: 0 <= i < |t.materialMap| ==> 0 <= t.materialMap[i] < |t.nmaps|) &&
    |t.textureMap| == |t.nmaps| &&
    (forall i :: 0 <= i < |t.textureMap| ==> 0 <= t.textureMap[i] < |t.nmaps|)
  }

  /** Vertex v is used by one of the faces. */
  predicate Used(faces: seq<Face>, v: nat)
  {
    exists f :: 0 <= f < |faces| && InFace(faces[f], v)
  }

  /** The packer never reports a size that does not fit `int32_t`. */
  ghost predicate PackerSizesFit(packer: (seq<Point2i>, Point2i) -> Packing)
  {
    forall sizes, canvas :: packer(sizes, canvas).Packed? ==>
      0 <= packer(sizes, canvas).packedSize.x < I32 && 0 <= packer(sizes, canvas).packedSize.y < I32
  }

  /** The material `process` records for each vertex: that of the last face using it. */
  function VertexMaterials(faces: seq<Face>, nvert: nat): (vtm: seq<int>)
    ensures |vtm| == nvert
  {
    seq(nvert, v => LastTex(faces, v))
  }

  /** The component id of every vertex, as `compact` numbers them. */
  ghost function ComponentIds(faces: seq<Face>, nvert: nat): (ids: seq<int>)
    requires FacesIn(faces, nvert)
    ensures |ids| == nvert
  {
    Compacted(LinkAll(seq(nvert, i => i), faces))
  }

  /** The number of charts: the distinct components the faces link the vertices into. */
  ghost function ChartCount(faces: seq<Face>, nvert: nat): nat
    requires FacesIn(faces, nvert)
  {
    |Values(LinkAll(seq(nvert, i => i), faces))|
  }

  /** One box per chart: the hull of the chart's clamped UVs other than the origin. */
  ghost function ChartBoxes(faces: seq<Face>, uv0: seq<UV>): seq<Box2>
    requires FacesIn(faces, |uv0|)
  {
    var ids := ComponentIds(faces, |uv0|);
    var vtm := VertexMaterials(faces, |uv0|);
    seq(ChartCount(faces, |uv0|), b => Hull(ChartPoints(uv0, ids, vtm, b, |uv0|)))
  }

  /** One material per chart: that of its last vertex with a material. */
  ghost function ChartTextures(faces: seq<Face>, nvert: nat): seq<int>
    requires FacesIn(faces, nvert)
  {
    var ids := ComponentIds(faces, nvert);
    var vtm := VertexMaterials(faces, nvert);
    seq(ChartCount(faces, nvert), b => BoxMaterial(ids, vtm, b, nvert))
  }

  /** The material of vertex i's chart: that of the last assigned vertex of its component. */
  ghost function ChartMaterial(faces: seq<Face>, nvert: nat, i: nat): int
    requires FacesIn(faces, nvert) && i < nvert
  {
    var ids := ComponentIds(faces, nvert);
    BoxMaterial(ids, VertexMaterials(faces, nvert), ids[i], nvert)
  }

  /** The texture group `process` builds (the images themselves are not modelled). */
  datatype TextureGroup = TextureGroup(material: int, nmaps: nat, boxes: seq<Box2>, boxTexture: seq<int>,
                                       origins: seq<Point2i>, sizes: seq<Point2i>, mapping: seq<Point2i>,
                                       packedSize: Point2i, finalSize: Point2i)

  datatype Outcome = PackingFailed(sizes: seq<Point2i>) | Built(group: TextureGroup)

  /** Every face's material is an index into the material table. */
  predicate TexturedFaces(faces: seq<Face>, table: MaterialTable)
  {
    forall f :: 0 <= f < |faces| ==> 0 <= faces[f].tex < |table.nmaps|
  }

  /**
   * The group's material is the least of the used materials unified by
   * `texture_map`, and the group has one image per map of that material.
   */
  ghost predicate GroupMaterialChosen(g: TextureGroup, used: set<int>, table: MaterialTable)
    requires WellFormedTable(table) && forall m :: m in used ==> 0 <= m < |table.textureMap|
  {
    var finals := FinalMaterials(used, table.textureMap);
    g.material in finals && (forall m :: m in finals ==> g.material <= m) &&
    0 <= g.material < |table.nmaps| && g.nmaps == table.nmaps[g.material]
  }

  /**
   * Every kept box belongs to a material with maps, lies in the unit
   * square (or is null), and gets its clamped pixel rectangle, of at least
   * one pixel and inside its source texture.
   */
  ghost predicate BoxesKept(g: TextureGroup, table: MaterialTable, snap: (Box2, int) -> PixelSpan)
  {
    |g.boxTexture| == |g.boxes| && |g.origins| == |g.boxes| && |g.sizes| == |g.boxes| &&
    g.origins == PixelOrigins(g.boxes, g.boxTexture, snap) && g.sizes == PixelSizes(g.boxes, g.boxTexture, snap) &&
    forall b :: 0 <= b < |g.boxes| ==>
      0 <= g.boxTexture[b] < |table.nmaps| && table.nmaps[g.boxTexture[b]] != 0 &&
      NullOrInUnit(g.boxes[b]) &&
      g.sizes[b].x >= 1 && g.sizes[b].y >= 1 &&
      (snap(g.boxes[b], g.boxTexture[b]).texSize.x >= 1 ==>
        0 <= g.origins[b].x && g.origins[b].x + g.sizes[b].x <= snap(g.boxes[b], g.boxTexture[b]).texSize.x) &&
      (snap(g.boxes[b], g.boxTexture[b]).texSize.y >= 1 ==>
        0 <= g.origins[b].y && g.origins[b].y + g.sizes[b].y <= snap(g.boxes[b], g.boxTexture[b]).texSize.y)
  }

  /**
   * No boxes give a 1x1 texture; otherwise the placement is the packer's
   * answer on the first canvas that fits and packs. The final size is the
   * packed size, rounded per axis when power-of-two textures are asked for.
   */
  ghost predicate PackingRecorded(g: TextureGroup, packer: (seq<Point2i>, Point2i) -> Packing, createPowTwoTex: bool)
  {
    (|g.sizes| == 0 ==> g.packedSize == Point2i(1, 1) && g.mapping == []) &&
    (|g.sizes| > 0 ==> Packed(g.mapping, g.packedSize) == PackFrom(g.sizes, packer, 0)) &&
    (if createPowTwoTex
     then 0 <= g.packedSize.x < I32 && 0 <= g.packedSize.y < I32 &&
          g.finalSize == Point2i(ClosestPow2(g.packedSize.x), ClosestPow2(g.packedSize.y))
     else g.finalSize == g.packedSize)
  }

  /**
   * Every vertex ends in a kept box exactly when its chart's material has
   * maps; a vertex without a box gets UV (0, 0), the others the remapped
   * clamped UV, and a clamped UV other than the origin lies in its box.
   */
  ghost predicate VerticesPlaced(g: TextureGroup, faces: seq<Face>, uv0: seq<UV>, uvs: seq<UV>,
                                 vertexToBox: seq<int>, table: MaterialTable, remapUV: (UV, int) -> UV)
    requires FacesIn(faces, |uv0|)
  {
    |uvs| == |uv0| && |vertexToBox| == |uv0| &&
    forall i :: 0 <= i < |uv0| ==>
      -1 <= vertexToBox[i] < |g.boxes| &&
      0 <= ChartMaterial(faces, |uv0|, i) < |table.nmaps| &&
      (vertexToBox[i] == -1 <==> table.nmaps[ChartMaterial(faces, |uv0|, i)] == 0) &&
      uvs[i] == (if vertexToBox[i] == -1 then UV(0.0, 0.0) else remapUV(ClampUV(uv0[i]), vertexToBox[i])) &&
      (vertexToBox[i] >= 0 && ClampUV(uv0[i]) != UV(0.0, 0.0) ==> Inside(ClampUV(uv0[i]), g.boxes[vertexToBox[i]]))
  }

  /** Remapping materials keeps every face's vertices, so used vertices stay used. */
  lemma UsedAfterRemap(faces0: seq<Face>, faces: seq<Face>, materialMap: seq<int>, nvert: nat)
    requires forall f :: 0 <= f < |faces0| ==> 0 <= faces0[f].tex < |materialMap|
    requires faces == RemapTex(faces0, materialMap)
    requires forall v :: 0 <= v < nvert ==> Used(faces0, v)
    ensures forall v :: 0 <= v < nvert ==> Used(faces, v)
  {
    forall v | 0 <= v < nvert
      ensures Used(faces, v)
    {
      assert Used(faces0, v);
      var f :| 0 <= f < |faces0| && InFace(faces0[f], v);
      assert InFace(faces[f], v);
    }
  }

  /**
   * When every vertex is used and every component has a vertex, every
   * box gets a material from the table.
   */
  lemma ChartMaterialsIn(faces: seq<Face>, nvert: nat, ids: seq<int>, nBoxes: nat, vtm: seq<int>, m: nat)
    requires forall f :: 0 <= f < |faces| ==> 0 <= faces[f].tex < m
    requires forall v :: 0 <= v < nvert ==> Used(faces, v)
    requires |ids| == nvert && |vtm| == nvert
    requires forall v :: 0 <= v < nvert ==> vtm[v] == LastTex(faces, v)
    requires forall b :: 0 <= b < nBoxes ==> IdUsed(ids, b)
    ensures forall v :: 0 <= v < nvert ==> 0 <= vtm[v] < m
    ensures forall b :: 0 <= b < nBoxes ==> 0 <= BoxMaterial(ids, vtm, b, nvert) < m
  {
    forall v | 0 <= v < nvert
      ensures 0 <= vtm[v] < m
    {
      assert Used(faces, v);
      LastTexOfUsedVertex(faces, v);
    }
    forall b | 0 <= b < nBoxes
      ensures 0 <= BoxMaterial(ids, vtm, b, nvert) < m
    {
      assert IdUsed(ids, b);
      var i :| 0 <= i < |ids| && ids[i] == b;
      BoxMaterialAssigned(ids, vtm, b, nvert);
      BoxMaterialFromVertex(ids, vtm, b, nvert);
    }
  }

  /**
   * What steps 1 to 3 of `process` leave behind: the component id and the
   * material of every vertex, the clamped UVs, and one box per component
   * holding its clamped UVs, with the material of its last assigned vertex.
   */
  ghost predicate ChartsFound(faces: seq<Face>, uv0: seq<UV>, clamped: seq<UV>, ids: seq<int>, vtm: seq<int>,
                              boxes: seq<Box2>, boxTexture: seq<int>, nmaps: seq<nat>)
  {
    FacesIn(faces, |uv0|) && |clamped| == |uv0| &&
    ids == ComponentIds(faces, |uv0|) && vtm == VertexMaterials(faces, |uv0|) &&
    |boxes| == ChartCount(faces, |uv0|) <= |uv0| && |boxTexture| == |boxes| && MaterialsIn(boxTexture, nmaps) &&
    (forall v :: 0 <= v < |uv0| ==> 0 <= vtm[v] && 0 <= ids[v] < |boxes| && clamped[v] == ClampUV(uv0[v])) &&
    (forall b :: 0 <= b < |boxes| ==> boxes[b] == Hull(ChartPoints(uv0, ids, vtm, b, |uv0|))) &&
    (forall b :: 0 <= b < |boxes| ==> NullOrInUnit(boxes[b])) &&
    (forall b :: 0 <= b < |boxes| ==> boxTexture[b] == BoxMaterial(ids, vtm, b, |uv0|))
  }

  /** The boxes kept by filtering, in order, with their materials. */
  predicate BoxesFiltered(boxes: seq<Box2>, boxTexture: seq<int>, nmaps: seq<nat>, kept: seq<Box2>, keptTex: seq<int>)
    requires |boxTexture| == |boxes| && MaterialsIn(boxTexture, nmaps)
  {
    |kept| == |keptTex| == |Kept(boxTexture, nmaps, |boxes|)| &&
    forall k :: 0 <= k < |kept| ==>
      kept[k] == boxes[Kept(boxTexture, nmaps, |boxes|)[k]] && keptTex[k] == boxTexture[Kept(boxTexture, nmaps, |boxes|)[k]]
  }

  /** The boxes whose material has maps, in order. */
  function KeptBoxes(boxes: seq<Box2>, boxTexture: seq<int>, nmaps: seq<nat>): seq<Box2>
    requires |boxTexture| == |boxes| && MaterialsIn(boxTexture, nmaps)
  {
    var ks := Kept(boxTexture, nmaps, |boxes|);
    seq(|ks|, k requires 0 <= k < |ks| => boxes[ks[k]])
  }

  /** The materials of the boxes whose material has maps, in order. */
  function KeptTextures(boxTexture: seq<int>, nmaps: seq<nat>): seq<int>
    requires MaterialsIn(boxTexture, nmaps)
  {
    var ks := Kept(boxTexture, nmaps, |boxTexture|);
    seq(|ks|, k requires 0 <= k < |ks| => boxTexture[ks[k]])
  }

  /** Filtering leaves exactly the kept boxes and their materials. */
  lemma FilteredAreKept(boxes: seq<Box2>, boxTexture: seq<int>, nmaps: seq<nat>, kept: seq<Box2>, keptTex: seq<int>)
    requires |boxTexture| == |boxes| && MaterialsIn(boxTexture, nmaps)
    requires BoxesFiltered(boxes, boxTexture, nmaps, kept, keptTex)
    ensures kept == KeptBoxes(boxes, boxTexture, nmaps) && keptTex == KeptTextures(boxTexture, nmaps)
  {
  }

  /** The boxes and materials of steps 1 to 3 are those of the charts. */
  lemma ChartsFoundAreCharts(faces: seq<Face>, uv0: seq<UV>, clamped: seq<UV>, ids: seq<int>, vtm: seq<int>,
                             boxes: seq<Box2>, boxTexture: seq<int>, nmaps: seq<nat>)
    requires ChartsFound(faces, uv0, clamped, ids, vtm, boxes, boxTexture, nmaps)
    ensures boxes == ChartBoxes(faces, uv0) && boxTexture == ChartTextures(faces, |uv0|)
  {
  }

  /**
   * The outcome of `process` in terms of its charts: every vertex points
   * at its chart's box among the kept ones (or -1), a built group holds
   * exactly the kept chart boxes and their materials, and a failed packing
   * reports the pixel sizes of those boxes.
   */
  ghost predicate OutcomeOfCharts(r: Outcome, vertexToBox: seq<int>, faces: seq<Face>, uv0: seq<UV>,
                                  nmaps: seq<nat>, snap: (Box2, int) -> PixelSpan)
    requires FacesIn(faces, |uv0|)
  {
    var cb := ChartBoxes(faces, uv0);
    var ct := ChartTextures(faces, |uv0|);
    var ids := ComponentIds(faces, |uv0|);
    |ct| == |cb| && MaterialsIn(ct, nmaps) &&
    |vertexToBox| == |uv0| && (forall i :: 0 <= i < |uv0| ==> vertexToBox[i] == NewIndex(ct, nmaps, ids[i])) &&
    (r.PackingFailed? ==> r.sizes == PixelSizes(KeptBoxes(cb, ct, nmaps), KeptTextures(ct, nmaps), snap)) &&
    (r.Built? ==> r.group.boxes == KeptBoxes(cb, ct, nmaps) && r.group.boxTexture == KeptTextures(ct, nmaps))
  }

  /** The outcome of steps 4 to 8, stated on the charts of steps 1 to 3. */
  lemma OutcomeFromCharts(r: Outcome, vertexToBox: seq<int>, faces: seq<Face>, uv0: seq<UV>, clamped: seq<UV>,
                          ids: seq<int>, vtm: seq<int>, boxes: seq<Box2>, boxTexture: seq<int>,
                          nmaps: seq<nat>, snap: (Box2, int) -> PixelSpan)
    requires ChartsFound(faces, uv0, clamped, ids, vtm, boxes, boxTexture, nmaps)
    requires |vertexToBox| == |uv0| && forall i :: 0 <= i < |uv0| ==> vertexToBox[i] == NewIndex(boxTexture, nmaps, ids[i])
    requires r.PackingFailed? ==> r.sizes == PixelSizes(KeptBoxes(boxes, boxTexture, nmaps), KeptTextures(boxTexture, nmaps), snap)
    requires r.Built? ==> r.group.boxes == KeptBoxes(boxes, boxTexture, nmaps) && r.group.boxTexture == KeptTextures(boxTexture, nmaps)
    ensures OutcomeOfCharts(r, vertexToBox, faces, uv0, nmaps, snap)
  {
    ChartsFoundAreCharts(faces, uv0, clamped, ids, vtm, boxes, boxTexture, nmaps);
  }

  /** The boxes that survive filtering are textured and still inside the unit square. */
  lemma KeptBoxesTextured(boxes: seq<Box2>, boxTexture: seq<int>, nmaps: seq<nat>, kept: seq<Box2>, keptTex: seq<int>)
    requires |boxes| == |boxTexture| && MaterialsIn(boxTexture, nmaps)
    requires forall b :: 0 <= b < |boxes| ==> NullOrInUnit(boxes[b])
    requires BoxesFiltered(boxes, boxTexture, nmaps, kept, keptTex)
    ensures forall k :: 0 <= k < |kept| ==> 0 <= keptTex[k] < |nmaps| && nmaps[keptTex[k]] != 0 && NullOrInUnit(kept[k])
  {
    var ks := Kept(boxTexture, nmaps, |boxes|);
    KeptExactly(boxTexture, nmaps, |boxes|);
    forall k | 0 <= k < |kept|
      ensures 0 <= keptTex[k] < |nmaps| && nmaps[keptTex[k]] != 0
    {
      assert ks[k] in ks;
    }
  }

  /** The vertex half of the result of `process`, from the results of its steps. */
  lemma VerticesPlacedFromSteps(g: TextureGroup, faces: seq<Face>, uv0: seq<UV>, clamped: seq<UV>, uvs: seq<UV>,
                                vertexToBox: seq<int>, table: MaterialTable, remapUV: (UV, int) -> UV,
                                ids: seq<int>, vtm: seq<int>, boxes: seq<Box2>, boxTexture: seq<int>)
    requires ChartsFound(faces, uv0, clamped, ids, vtm, boxes, boxTexture, table.nmaps)
    requires BoxesFiltered(boxes, boxTexture, table.nmaps, g.boxes, g.boxTexture)
    requires |vertexToBox| == |uv0| && |uvs| == |uv0|
    requires forall i :: 0 <= i < |uv0| ==> vertexToBox[i] == NewIndex(boxTexture, table.nmaps, ids[i])
    requires forall i :: 0 <= i < |uv0| ==>
      uvs[i] == if vertexToBox[i] == -1 then UV(0.0, 0.0) else remapUV(clamped[i], vertexToBox[i])
    ensures VerticesPlaced(g, faces, uv0, uvs, vertexToBox, table, remapUV)
  {
    var n := |uv0|;
    forall i | 0 <= i < n
      ensures -1 <= vertexToBox[i] < |g.boxes|
      ensures 0 <= ChartMaterial(faces, n, i) < |table.nmaps|
      ensures vertexToBox[i] == -1 <==> table.nmaps[ChartMaterial(faces, n, i)] == 0
      ensures vertexToBox[i] >= 0 && ClampUV(uv0[i]) != UV(0.0, 0.0) ==> Inside(ClampUV(uv0[i]), g.boxes[vertexToBox[i]])
    {
      var b := ids[i];
      NewIndexInverse(boxTexture, table.nmaps, b);
      assert ChartMaterial(faces, n, i) == boxTexture[b];
      if vertexToBox[i] >= 0 && ClampUV(uv0[i]) != UV(0.0, 0.0) {
        var pts := ChartPoints(uv0, ids, vtm, b, n);
        ChartPointsHas(uv0, ids, vtm, n, i);
        HullContains(pts);
        var k :| 0 <= k < |pts| && pts[k] == ClampUV(uv0[i]);
      }
    }
  }

  /** Compacting the linked labels numbers the charts 0 .. ChartCount - 1, each in use. */
  lemma ChartIdsOfRoots(faces: seq<Face>, nvert: nat, roots: seq<nat>, ids: seq<int>, count: int)
    requires FacesIn(faces, nvert) && roots == LinkAll(seq(nvert, i => i), faces)
    requires ids == Compacted(roots) && count == |Values(roots)|
    ensures ids == ComponentIds(faces, nvert) && count == ChartCount(faces, nvert) <= nvert
    ensures forall v :: 0 <= v < nvert ==> 0 <= ids[v] < count
    ensures forall b :: 0 <= b < count ==> IdUsed(ids, b)
  {
    CompactedIsPartition(roots);
    CompactedOnto(roots);
    ValuesAtMostLength(roots);
  }

  /** The `compact` call of `process` (line 140), on the labels of the linked faces. */
  method NumberCharts(uf: UnionFind, ghost faces: seq<Face>) returns (ids: seq<int>, count: nat)
    requires uf.Valid() && FacesIn(faces, |uf.parents|)
    requires uf.roots == LinkAll(seq(|uf.parents|, i => i), faces)
    modifies uf
    ensures ids == ComponentIds(faces, old(|uf.parents|)) && count == ChartCount(faces, old(|uf.parents|)) <= old(|uf.parents|)
    ensures forall v :: 0 <= v < old(|uf.parents|) ==> 0 <= ids[v] < count
    ensures forall b :: 0 <= b < count ==> IdUsed(ids, b)
  {
    ghost var roots := uf.roots;
    var c;
    ids, c := uf.Compact();
    ChartIdsOfRoots(faces, |uf.parents|, roots, ids, c);
    count := c;
  }

  /**
   * Steps 1 and 2 of `process` (lines 111-158): remap the face materials,
   * union each face's vertices, number the components and record each
   * vertex's material.
   */
  method LinkCharts(faces: array<Face>, nvert: nat, materialMap: seq<int>)
    returns (materialSet: set<int>, ids: seq<int>, vtm: seq<int>, nBoxes: nat)
    requires forall f :: 0 <= f < faces.Length ==> 0 <= faces[f].tex < |materialMap|
    requires FacesIn(faces[..], nvert)
    modifies faces
    ensures faces[..] == RemapTex(old(faces[..]), materialMap)
    ensures materialSet == UsedMaterials(faces[..])
    ensures ids == ComponentIds(faces[..], nvert) && vtm == VertexMaterials(faces[..], nvert)
    ensures nBoxes == ChartCount(faces[..], nvert) <= nvert
    ensures forall v :: 0 <= v < nvert ==> 0 <= ids[v] < nBoxes
    ensures forall b :: 0 <= b < nBoxes ==> IdUsed(ids, b)
  {
    var uf := new UnionFind();
    uf.Init(nvert);
    vtm, materialSet := LinkFaces(faces, materialMap, uf);
    ids, nBoxes := NumberCharts(uf, faces[..]);
    vtm := RecordVertexMaterials(faces[..], vtm);
    assert vtm == VertexMaterials(faces[..], nvert);
  }

  /**
   * Steps 1 to 3 of `process` (lines 111-167): the charts of
   * `LinkCharts`, then the UVs clamped and one box per component.
   */
  method FindCharts(faces: array<Face>, uvs: array<UV>, table: MaterialTable)
    returns (materialSet: set<int>, ids: seq<int>, vtm: seq<int>, boxes: seq<Box2>, boxTexture: seq<int>)
    requires WellFormedTable(table)
    requires forall f :: 0 <= f < faces.Length ==> 0 <= faces[f].tex < |table.materialMap|
    requires FacesIn(faces[..], uvs.Length)
    requires forall v :: 0 <= v < uvs.Length ==> Used(faces[..], v)
    modifies faces, uvs
    ensures faces[..] == RemapTex(old(faces[..]), table.materialMap)
    ensures TexturedFaces(faces[..], table)
    ensures materialSet == UsedMaterials(faces[..])
    ensures ChartsFound(faces[..], old(uvs[..]), uvs[..], ids, vtm, boxes, boxTexture, table.nmaps)
  {
    var nvert := uvs.Length;
    var nBoxes;
    materialSet, ids, vtm, nBoxes := LinkCharts(faces, nvert, table.materialMap);
    ghost var fs := faces[..];
    UsedAfterRemap(old(faces[..]), fs, table.materialMap, nvert);
    ChartMaterialsIn(fs, nvert, ids, nBoxes, vtm, |table.nmaps|);
    ghost var uv0 := uvs[..];
    boxes, boxTexture := ComputeBoxes(uvs, ids, vtm, nBoxes);
    forall b | 0 <= b < nBoxes
      ensures NullOrInUnit(boxes[b])
    {
      ChartBoxInUnitSquare(ChartPoints(uv0, ids, vtm, b, nvert));
    }
  }

  /**
   * Box filtering on the vectors of `process` (lines 169-185): copies the
   * boxes, their materials and the vertex-to-box table into arrays, filters
   * them in place and cuts them to the kept count.
   */
  method KeepTexturedBoxes(boxes: seq<Box2>, boxTexture: seq<int>, ids: seq<int>, nmaps: seq<nat>)
    returns (kept: seq<Box2>, keptTex: seq<int>, vertexToBox: seq<int>)
    requires |boxes| == |boxTexture| <= |ids| && MaterialsIn(boxTexture, nmaps)
    requires forall v :: 0 <= v < |ids| ==> 0 <= ids[v] < |boxes|
    ensures BoxesFiltered(boxes, boxTexture, nmaps, kept, keptTex)
    ensures |vertexToBox| == |ids|
    ensures forall v :: 0 <= v < |ids| ==> vertexToBox[v] == NewIndex(boxTexture, nmaps, ids[v])
  {
    var boxArr := new Box2[|boxes|](i requires 0 <= i < |boxes| => boxes[i]);
    var texArr := new int[|boxes|](i requires 0 <= i < |boxTexture| => boxTexture[i]);
    var v2bArr := new int[|ids|](i requires 0 <= i < |ids| => ids[i]);
    assert texArr[..] == boxTexture && boxArr[..] == boxes && v2bArr[..] == ids;
    var count := FilterBoxes(boxArr, texArr, v2bArr, nmaps);
    kept, keptTex, vertexToBox := boxArr[..count], texArr[..count], v2bArr[..];
  }

  /**
   * Steps 5 to 7 of `process` (lines 187-272): size each kept box's pixel
   * rectangle, pick the group material, and pack the rectangles.
   */
  method BuildGroup(kept: seq<Box2>, keptTex: seq<int>, used: set<int>, table: MaterialTable,
                    snap: (Box2, int) -> PixelSpan, packer: (seq<Point2i>, Point2i) -> Packing,
                    createPowTwoTex: bool)
    returns (r: Outcome)
    requires WellFormedTable(table) && used != {}
    requires forall m :: m in used ==> 0 <= m < |table.textureMap|
    requires |kept| == |keptTex|
    requires forall k :: 0 <= k < |kept| ==>
      0 <= keptTex[k] < |table.nmaps| && table.nmaps[keptTex[k]] != 0 && NullOrInUnit(kept[k])
    requires createPowTwoTex ==> PackerSizesFit(packer)
    ensures r.PackingFailed? ==> r.sizes == PixelSizes(kept, keptTex, snap)
    ensures r.PackingFailed? ==> |r.sizes| > 0 && forall j :: 0 <= j < 5 ==> !Accepts(r.sizes, packer, j)
    ensures r.Built? ==> r.group.boxes == kept && r.group.boxTexture == keptTex
    ensures r.Built? ==> GroupMaterialChosen(r.group, used, table)
    ensures r.Built? ==> BoxesKept(r.group, table, snap)
    ensures r.Built? ==> PackingRecorded(r.group, packer, createPowTwoTex)
  {
    var origins, sizes := PixelRects(kept, keptTex, snap);
    var finals := FinalMaterials(used, table.textureMap);
    var m0 :| m0 in used;
    assert table.textureMap[m0] in finals;
    HasLeast(finals);
    var materialId :| materialId in finals && forall m :: m in finals ==> materialId <= m;

    var packing := PackBoxes(sizes, packer);
    PackFromFirstAccepted(sizes, packer, 0);
    if packing.PackFailed? {
      return PackingFailed(sizes);
    }
    var finalSize := packing.packedSize;
    if createPowTwoTex {
      finalSize := ClosestPowerOf2Point(finalSize);
    }
    r := Built(TextureGroup(materialId, table.nmaps[materialId], kept, keptTex, origins, sizes,
                            packing.mapping, packing.packedSize, finalSize));
  }

  /**
   * Step 8 of `process` (lines 288-322): the UV loop, with the proof that
   * every vertex lands in the box of its chart or at (0, 0).
   */
  method PlaceVertices(uvs: array<UV>, vertexToBox: seq<int>, remapUV: (UV, int) -> UV, g: TextureGroup,
                       ghost faces: seq<Face>, ghost uv0: seq<UV>, ghost table: MaterialTable,
                       ghost ids: seq<int>, ghost vtm: seq<int>, ghost boxes: seq<Box2>, ghost boxTexture: seq<int>)
    requires ChartsFound(faces, uv0, uvs[..], ids, vtm, boxes, boxTexture, table.nmaps)
    requires BoxesFiltered(boxes, boxTexture, table.nmaps, g.boxes, g.boxTexture)
    requires |vertexToBox| == |uv0|
    requires forall i :: 0 <= i < |uv0| ==> vertexToBox[i] == NewIndex(boxTexture, table.nmaps, ids[i])
    modifies uvs
    ensures FacesIn(faces, |uv0|)
    ensures VerticesPlaced(g, faces, uv0, uvs[..], vertexToBox, table, remapUV)
  {
    ghost var clamped := uvs[..];
    AssignUVs(uvs, vertexToBox, remapUV);
    VerticesPlacedFromSteps(g, faces, uv0, clamped, uvs[..], vertexToBox, table, remapUV, ids, vtm, boxes, boxTexture);
  }

  /**
   * Steps 4 to 8 of `process` (lines 169-322), from the charts of
   * `FindCharts`: filter the boxes, build the group and place the vertices.
   */
  method FinishGroup(uvs: array<UV>, table: MaterialTable, materialSet: set<int>,
                     ids: seq<int>, boxes: seq<Box2>, boxTexture: seq<int>,
                     snap: (Box2, int) -> PixelSpan, packer: (seq<Point2i>, Point2i) -> Packing,
                     remapUV: (UV, int) -> UV, createPowTwoTex: bool,
                     ghost faces: seq<Face>, ghost uv0: seq<UV>, ghost vtm: seq<int>)
    returns (r: Outcome, vertexToBox: seq<int>)
    requires WellFormedTable(table) && TexturedFaces(faces, table)
    requires |faces| >= 1 && materialSet == UsedMaterials(faces)
    requires ChartsFound(faces, uv0, uvs[..], ids, vtm, boxes, boxTexture, table.nmaps)
    requires createPowTwoTex ==> PackerSizesFit(packer)
    modifies uvs
    ensures FacesIn(faces, |uv0|) && OutcomeOfCharts(r, vertexToBox, faces, uv0, table.nmaps, snap)
    ensures r.PackingFailed? ==> uvs[..] == old(uvs[..])
    ensures r.PackingFailed? ==> |r.sizes| > 0 && forall j :: 0 <= j < 5 ==> !Accepts(r.sizes, packer, j)
    ensures r.Built? ==> GroupMaterialChosen(r.group, materialSet, table)
    ensures r.Built? ==> BoxesKept(r.group, table, snap)
    ensures r.Built? ==> PackingRecorded(r.group, packer, createPowTwoTex)
    ensures r.Built? ==> FacesIn(faces, |uv0|) && VerticesPlaced(r.group, faces, uv0, uvs[..], vertexToBox, table, remapUV)
  {
    var kept, keptTex;
    kept, keptTex, vertexToBox := KeepTexturedBoxes(boxes, boxTexture, ids, table.nmaps);
    KeptBoxesTextured(boxes, boxTexture, table.nmaps, kept, keptTex);
    FilteredAreKept(boxes, boxTexture, table.nmaps, kept, keptTex);
    assert faces[0].tex in materialSet;
    r := BuildGroup(kept, keptTex, materialSet, table, snap, packer, createPowTwoTex);
    OutcomeFromCharts(r, vertexToBox, faces, uv0, uvs[..], ids, vtm, boxes, boxTexture, table.nmaps, snap);
    if r.PackingFailed? {
      return;
    }
    PlaceVertices(uvs, vertexToBox, remapUV, r.group, faces, uv0, table, ids, vtm, boxes, boxTexture);
  }

  /**
   * `NodeTexCreator::process` without its float metrics and image work:
   * remap face materials, find the charts, box them, drop untextured
   * ones, size their pixel rectangles, pack them, pick the group material
   * and rewrite every vertex UV. Running out of packing attempts is an
   * error result, and then the UVs are left clamped.
   */
  method Process(faces: array<Face>, uvs: array<UV>, table: MaterialTable,
                 snap: (Box2, int) -> PixelSpan, packer: (seq<Point2i>, Point2i) -> Packing,
                 remapUV: (UV, int) -> UV, createPowTwoTex: bool)
    returns (r: Outcome, vertexToBox: seq<int>)
    requires faces.Length >= 1 && WellFormedTable(table)
    requires forall f :: 0 <= f < faces.Length ==> 0 <= faces[f].tex < |table.materialMap|
    requires FacesIn(faces[..], uvs.Length)
    requires forall v :: 0 <= v < uvs.Length ==> Used(faces[..], v)
    requires createPowTwoTex ==> PackerSizesFit(packer)
    modifies faces, uvs
    ensures faces[..] == RemapTex(old(faces[..]), table.materialMap)
    ensures FacesIn(faces[..], uvs.Length) && TexturedFaces(faces[..], table)
    ensures OutcomeOfCharts(r, vertexToBox, faces[..], old(uvs[..]), table.nmaps, snap)
    ensures r.PackingFailed? ==> forall i :: 0 <= i < uvs.Length ==> uvs[i] == ClampUV(old(uvs[i]))
    ensures r.PackingFailed? ==> |r.sizes| > 0 && forall j :: 0 <= j < 5 ==> !Accepts(r.sizes, packer, j)
    ensures r.Built? ==> GroupMaterialChosen(r.group, UsedMaterials(faces[..]), table)
    ensures r.Built? ==> BoxesKept(r.group, table, snap)
    ensures r.Built? ==> PackingRecorded(r.group, packer, createPowTwoTex)
    ensures r.Built? ==> VerticesPlaced(r.group, faces[..], old(uvs[..]), uvs[..], vertexToBox, table, remapUV)
  {
    ghost var uv0 := uvs[..];
    var materialSet, ids, vtm, boxes, boxTexture := FindCharts(faces, uvs, table);
    ghost var fs := faces[..];
    r, vertexToBox := FinishGroup(uvs, table, materialSet, ids, boxes, boxTexture, snap, packer, remapUV,
                                  createPowTwoTex, fs, uv0, vtm);
    assert faces[..] == fs;
  }
}
