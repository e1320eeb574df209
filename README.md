# Nexus texture atlas and GPU residency, in Dafny

This project models two parts of Nexus, a library for multiresolution
meshes. In a Nexus model, every node of the level-of-detail graph carries
vertices, faces and textured patches.

**Texture-atlas construction (`src/nxsbuild/nodetexcreator.cpp`).** This
is the integer and array bookkeeping of `NodeTexCreator::process`:

1. Face materials are remapped through `material_map`.
2. A union-find (`UnionFind`: `init`, `root` with path halving, `link`,
   `compact`) splits the vertices into UV charts.
3. Each vertex records the material of the last face that uses it.
4. Every chart gets the bounding box of its clamped UVs.
5. Boxes whose material has no texture maps are dropped, and the
   vertex-to-box table is renumbered.
6. Each box gets a pixel rectangle, clamped to its source texture.
7. The rectangles are packed on canvases of 4096, 8192, ... pixels, with
   five attempts. The packed size can be rounded to a power of two
   (`nextPowerOf2`, `closestPowerOf2`).
8. The group material is the least of the unified materials.
9. Every vertex UV is rewritten.

**GPU residency accounting (`src/common/nexus.cpp`).** This part covers:

- `Nexus::loadGpu`: creates a vertex buffer and, for a node with faces, a
  face buffer. It creates a texture for every map of every textured patch
  that is not yet resident. The minification filter depends on
  `isPowerOfTwo` of both sides. It returns the bytes this puts on the GPU.
- `Nexus::dropGpu`.
- `Nexus::initIndex`.
- The URI prefix handling of `Nexus::open`.
- The signed copy of `nextPowerOf2`.

The model takes the source's own form:

- `UnionFind` and `Nexus` are classes whose methods update their fields.
- The passes of `process` are methods with loops over arrays.
- Each method is proved against specification functions:
  - `Merge` and `Compacted` for the partition;
  - `LinkAll`, `LastTex`, `Hull`, `Kept` and `PackFrom` for the atlas;
  - `LoadedUpTo` and `NewBytes` for the GPU state and the byte count.
- Properties relating several calls are lemmas about those functions.

OpenGL is modelled as two name allocators, one for buffers and one for
textures. Each hands out fresh non-zero names. The minification filter is
recorded on each texture map.

Points where the code does something other than what its names or
messages suggest; the model follows the code:

- **Reference count.** `loadGpu` increments `count_gpu` on a local copy
  of the texture group (nexus.cpp:175-176), so the stored count never
  changes.
- **Power-of-two test.** `isPowerOfTwo` (nexus.cpp:138-140) also accepts
  0, so a zero-sized side still selects mipmaps
  (`GpuResidency.FilterForMipmapsPowers`).
- **Packing limit.** The failure message puts the limit at 16K
  (nodetexcreator.cpp:252). The loop starts at 4096 and doubles five
  times (nodetexcreator.cpp:229-232), so it tries canvases up to 65536
  (`TexAtlas.CanvasSizes`).
- **Empty charts.** A UV at the origin is never added to its box
  (nodetexcreator.cpp:167-168), so a chart whose UVs all sit there keeps
  a null box and is not dropped.
- **Packing failure.** The code prints a message and calls `exit(0)`
  (nodetexcreator.cpp:251-255). The model returns `PackingFailed` with the
  sizes that did not pack.

## Model

| member | source | states |
|---|---|---|
| Bits.Dec32 | src/common/nexus.cpp:139 | `x - 1` on an unsigned operand is the predecessor, and wraps to 2^32-1 at zero |
| Bits.BitLengthBounds | src/nxsbuild/nodetexcreator.cpp:19-22 | the number of right shifts that bring n to zero puts n between 2^(count-1) and 2^count |
| Bits.ClearLowestBit | src/nxsbuild/nodetexcreator.cpp:16 | for n >= 1, `n & (n - 1)` is zero iff n is a power of two |
| TexRounding.Int32 | src/nxsbuild/nodetexcreator.cpp:28 | storing an unsigned result in `int32_t` gives a value in the int32 range that is congruent to it mod 2^32 |
| TexRounding.NextPow2IsLeastPow2 | src/nxsbuild/nodetexcreator.cpp:11-25 | the rounding is the least power of two at least n: 1 for 0, n itself for a power of two, otherwise strictly between n and 2n |
| TexRounding.NextPowerOf2 | src/nxsbuild/nodetexcreator.cpp:11-25 | the early return on powers of two and the shift-count loop together return that least power of two, which fits 32 bits |
| TexRounding.NextPow2Of | src/nxsbuild/nodetexcreator.cpp:11-25 | a non-power between 2^(k-1) and 2^k rounds to 2^k |
| TexRounding.ClosestPowerOf2 | src/nxsbuild/nodetexcreator.cpp:27-32 | p becomes its rounding, halved when that exceeds p by more than the factor 1.40, decided exactly; this is the float test of the source for p below 23967451 |
| TexRounding.ClosestPowerOf2Point | src/nxsbuild/nodetexcreator.cpp:35-38 | each axis of the point is rounded on its own by `ClosestPow2` (so with the same float-test range as `ClosestPowerOf2`); the code after the `return` is never reached |
| TexRounding.ClosestPow2Bounds | src/nxsbuild/nodetexcreator.cpp:27-32 | for 1 <= p <= 2^30 the exact-test result q is a power of two with 0.7p < q <= 1.4p, below p exactly when the rounding was halved; for the source's float test this holds for p below 23967451 |
| TexRounding.ClosestPow2AtFloatLimit | src/nxsbuild/nodetexcreator.cpp:28-29 | at p = 23967451, the first size where the exact and float tests part, the rounding is 2^25 and the model halves it to 2^24 |
| TexRounding.ClosestPow2OfZero | src/nxsbuild/nodetexcreator.cpp:29-30 | at p = 0 the ratio is infinite, so 1 is halved to 0 |
| TexRounding.ClosestPow2Examples | src/nxsbuild/nodetexcreator.cpp:27-32 | 1000 stays at 1024, 300 halves to 256, and the threshold lies between 731 (to 512) and 732 (to 1024) |
| TexRounding.ClosestPow2WrapsAbove2To30 | src/nxsbuild/nodetexcreator.cpp:28-31 | for every p strictly between 2^30 and 2^31 the rounding 2^31 wraps to INT32_MIN in `int32_t`, the ratio test fails, and p becomes INT32_MIN |
| Components.MergeJoinsTwoClasses | src/nxsbuild/nodetexcreator.cpp:65-69 | after a link, p0 and p1 share a class; two elements share a class iff they did before, or each was in the class of p0 or of p1 |
| Components.MergeWithinClass | src/nxsbuild/nodetexcreator.cpp:65-69 | linking two elements of one class changes no representative |
| Components.RemapOf | src/nxsbuild/nodetexcreator.cpp:72-78 | the keys of the `remap` map are the roots met; its values are distinct and lie in [0, size) |
| Components.RemapOfStep | src/nxsbuild/nodetexcreator.cpp:78 | `emplace(root, remap.size())` adds a new root with the next id and leaves a known root's id alone |
| Components.RemapOfPrefix | src/nxsbuild/nodetexcreator.cpp:73-79 | later elements never renumber a root already in the map |
| Components.RemapOfOnto | src/nxsbuild/nodetexcreator.cpp:78 | every id below the map's size is given to some root |
| Components.CompactedFromMap | src/nxsbuild/nodetexcreator.cpp:73-80 | ids read from the final map are the compacted ids, and the map has one key per distinct root |
| Components.CompactedIsPartition | src/nxsbuild/nodetexcreator.cpp:70-80 | the component ids lie in [0, number of components), and two elements share an id iff they share a root |
| Components.CompactedOnto | src/nxsbuild/nodetexcreator.cpp:70-80 | every id below the returned count is used by some element, so the numbering is dense |
| Components.CompactedFirstOccurrence | src/nxsbuild/nodetexcreator.cpp:73-78 | components are numbered in the order their first element is met |
| Components.ValuesAtMostLength | src/nxsbuild/nodetexcreator.cpp:80 | there are at most as many components as elements |
| Components.SingletonsFormForest | src/nxsbuild/nodetexcreator.cpp:54-58 | the identity parent vector is a forest in which every element is its own root |
| Components.HalveKeepsForest | src/nxsbuild/nodetexcreator.cpp:61-62 | re-pointing an element at its grandparent keeps the forest and every representative |
| Components.RepointKeepsForest | src/nxsbuild/nodetexcreator.cpp:77 | pointing an element straight at its root keeps the forest |
| Components.LinkKeepsForest | src/nxsbuild/nodetexcreator.cpp:65-69 | hanging one root under another keeps an acyclic forest whose representatives are the merged classes |
| Components.LinkKeepsParentLinks | src/nxsbuild/nodetexcreator.cpp:68 | after the link every parent is in range, shares its child's representative and has a higher rank |
| Components.LinkKeepsRootLinks | src/nxsbuild/nodetexcreator.cpp:68 | after the link every representative is a root with a rank above its non-root members |
| Components.CompactStep | src/nxsbuild/nodetexcreator.cpp:73-79 | one iteration of the `compact` loop extends its invariant by one element |
| Components.CompactDone | src/nxsbuild/nodetexcreator.cpp:73-80 | at loop exit the ids are the compacted ids, the map size is the number of components, and every parent is the root |
| Components.UnionFind.Find | src/nxsbuild/nodetexcreator.cpp:60-63 | following parent links from an element ends at an element in range |
| Components.UnionFind.RootsFollowParents | src/nxsbuild/nodetexcreator.cpp:60-63 | the recorded representative of every element is where following its parents ends |
| Components.UnionFind.constructor | src/nxsbuild/nodetexcreator.cpp:53 | a new union-find is empty and consistent |
| Components.UnionFind.Init | src/nxsbuild/nodetexcreator.cpp:54-58 | `init(size)` leaves `size` elements, each its own parent and its own root |
| Components.UnionFind.Root | src/nxsbuild/nodetexcreator.cpp:60-64 | `root(p)` returns p's representative; path halving changes each parent at most to its grandparent and keeps every representative |
| Components.UnionFind.Link | src/nxsbuild/nodetexcreator.cpp:65-69 | `link(p0, p1)` merges the class of p1 into the class of p0 and keeps the forest |
| Components.UnionFind.Climb | src/nxsbuild/nodetexcreator.cpp:74-76 | the inner loop of `compact` reaches the root of i without changing anything |
| Components.UnionFind.Compact | src/nxsbuild/nodetexcreator.cpp:70-81 | every element points straight at its root, `node_component` is the dense first-occurrence numbering of the classes, and the result is the number of classes |
| TexAtlas.MergeKeepsJoined | src/nxsbuild/nodetexcreator.cpp:136-137 | a link never separates two elements of one class |
| TexAtlas.LinkAllJoinsFaces | src/nxsbuild/nodetexcreator.cpp:136-138 | after the first pass, the three vertices of every face share a component, which is the assertion at line 138 |
| TexAtlas.TwoDisjointTrianglesTwoComponents | src/nxsbuild/nodetexcreator.cpp:115-140 | two triangles on disjoint vertices give two charts |
| TexAtlas.TriangleStripOneComponent | src/nxsbuild/nodetexcreator.cpp:115-140 | two triangles sharing an edge give one chart |
| TexAtlas.LastTexUnused | src/nxsbuild/nodetexcreator.cpp:130-133 | a vertex keeps material -1 iff no face uses it |
| TexAtlas.LastTexOfUsedVertex | src/nxsbuild/nodetexcreator.cpp:130-133 | a used vertex records the material of one of the faces |
| TexAtlas.UsedMaterials | src/nxsbuild/nodetexcreator.cpp:134 | `material_set` holds the material of every face and nothing else |
| TexAtlas.StampFaceStep | src/nxsbuild/nodetexcreator.cpp:130-133 | stamping one more face keeps every vertex at the material of the last face that uses it |
| TexAtlas.UsedMaterialsStep | src/nxsbuild/nodetexcreator.cpp:134 | one more face adds its material to the set |
| TexAtlas.RemapTex | src/nxsbuild/nodetexcreator.cpp:117-118 | every face keeps its vertices and takes the material `material_map` gives its old material |
| TexAtlas.UsedAfterRemap | src/nxsbuild/nodetexcreator.cpp:117-118 | remapping materials keeps every used vertex used |
| TexAtlas.LinkFace | src/nxsbuild/nodetexcreator.cpp:136-137 | a face's vertices are linked v0 with v1, then v0 with v2 |
| TexAtlas.FirstPassStep | src/nxsbuild/nodetexcreator.cpp:115-139 | one face of the first pass extends the pass's invariant |
| TexAtlas.FirstPassFace | src/nxsbuild/nodetexcreator.cpp:115-139 | the body of the first pass remaps face k in place and extends the labels, the vertex materials and the material set by that face |
| TexAtlas.LinkFaces | src/nxsbuild/nodetexcreator.cpp:115-139 | after the first pass the faces carry remapped materials, the union-find holds the partition of all face links, every vertex holds the material of the last face using it, and the set holds the used materials |
| TexAtlas.RecordVertexMaterials | src/nxsbuild/nodetexcreator.cpp:142-147 | the second pass gives every used vertex the material of the last face using it and leaves unused vertices alone |
| TexAtlas.SecondPassIsIdentity | src/nxsbuild/nodetexcreator.cpp:142-147 | after the first pass the second pass changes nothing |
| TexAtlas.HullNullIffEmpty | src/nxsbuild/nodetexcreator.cpp:158-168 | a chart's box stays null exactly when no point was added |
| TexAtlas.HullContains | src/nxsbuild/nodetexcreator.cpp:167-168 | every added UV lies in its chart's box |
| TexAtlas.HullIsSmallest | src/nxsbuild/nodetexcreator.cpp:167-168 | the box lies inside every box that contains the added UVs |
| TexAtlas.Clamp01 | src/nxsbuild/nodetexcreator.cpp:161-162 | the clamped coordinate lies in [0, 1] and equals the input when the input is already there |
| TexAtlas.ChartPoints | src/nxsbuild/nodetexcreator.cpp:153-168 | the points added to a box lie in the unit square and are not the origin |
| TexAtlas.ChartPointsHas | src/nxsbuild/nodetexcreator.cpp:153-168 | an assigned vertex whose clamped UV is not the origin is among its box's points |
| TexAtlas.ChartBoxInUnitSquare | src/nxsbuild/nodetexcreator.cpp:161-168 | every box is null or lies inside the unit square |
| TexAtlas.BoxMaterialAssigned | src/nxsbuild/nodetexcreator.cpp:152-159 | a box gets a material iff one of its vertices has one; otherwise it keeps -1 |
| TexAtlas.BoxMaterialFromVertex | src/nxsbuild/nodetexcreator.cpp:153-159 | a box's material is that of one of its vertices |
| TexAtlas.ComputeBoxes | src/nxsbuild/nodetexcreator.cpp:150-169 | assigned vertices get clamped UVs and the others keep theirs; each box is the hull of its clamped non-origin UVs, with the material of its last assigned vertex |
| TexAtlas.Kept | src/nxsbuild/nodetexcreator.cpp:173-181 | the kept boxes are indices of existing boxes, no more than there are boxes |
| TexAtlas.KeptExactly | src/nxsbuild/nodetexcreator.cpp:173-181 | a box is kept iff its material has maps, and the kept boxes stay in their original order |
| TexAtlas.KeptPrefix | src/nxsbuild/nodetexcreator.cpp:173-181 | the boxes kept from a prefix are a prefix of the boxes kept |
| TexAtlas.NewIndexInverse | src/nxsbuild/nodetexcreator.cpp:173-185 | a box is remapped to -1 iff it is dropped; a kept box is remapped to its position in the kept list |
| TexAtlas.CompactKeep | src/nxsbuild/nodetexcreator.cpp:178-180 | moving a kept box to the front extends the compaction invariant |
| TexAtlas.CompactSkip | src/nxsbuild/nodetexcreator.cpp:175-176 | skipping an untextured box keeps the compaction invariant |
| TexAtlas.MoveBox | src/nxsbuild/nodetexcreator.cpp:178-180 | box i and its material move to slot `count`, and `remap[i]` becomes `count` |
| TexAtlas.CompactBoxes | src/nxsbuild/nodetexcreator.cpp:171-183 | the front of the arrays holds the textured boxes and their materials in original order; `remap` holds each box's new index, or -1 |
| TexAtlas.RemapVertexBoxes | src/nxsbuild/nodetexcreator.cpp:184-185 | every vertex's box goes through `remap` |
| TexAtlas.FilterBoxes | src/nxsbuild/nodetexcreator.cpp:170-185 | filtering keeps exactly the textured boxes in order and renumbers every vertex's box to its new index, or -1 |
| TexAtlas.ClampAxis | src/nxsbuild/nodetexcreator.cpp:206-214 | the size is at least one pixel; in a non-empty texture the rectangle lies inside the texture; it covers the snapped span, and an in-range span is kept as it is |
| TexAtlas.PixelRects | src/nxsbuild/nodetexcreator.cpp:188-215 | the origins and sizes are exactly each box's per-axis clamped rectangle (`PixelOrigins`, `PixelSizes`), each size at least one pixel |
| TexAtlas.CanvasSizes | src/nxsbuild/nodetexcreator.cpp:229-232 | the canvases are 4096, doubled per attempt, up to 65536 on the fifth |
| TexAtlas.PackFromFirstAccepted | src/nxsbuild/nodetexcreator.cpp:228-250 | packing succeeds iff some canvas fits every box and the packer accepts it; the result is the packer's answer on the first such canvas |
| TexAtlas.PackBoxes | src/nxsbuild/nodetexcreator.cpp:228-255 | no boxes give a 1x1 texture; otherwise the retry loop returns the first accepted packing, or fails after five attempts |
| TexAtlas.FinalMaterials | src/nxsbuild/nodetexcreator.cpp:217-220 | `final_materials` is the image of the used materials under `texture_map` |
| TexAtlas.HasLeast | src/nxsbuild/nodetexcreator.cpp:272 | a non-empty set of materials has a least element, the one `begin()` returns |
| TexAtlas.AssignUVs | src/nxsbuild/nodetexcreator.cpp:288-323 | a vertex without a box gets UV (0, 0); every other vertex gets the remapped UV of its box |
| TexAtlas.ChartMaterialsIn | src/nxsbuild/nodetexcreator.cpp:153-175 | when every vertex is used, every vertex and every box has a material inside the table that `materials->at` indexes |
| TexAtlas.KeptBoxesTextured | src/nxsbuild/nodetexcreator.cpp:170-185 | every box that survives filtering has a material with maps and lies in the unit square |
| TexAtlas.VerticesPlacedFromSteps | src/nxsbuild/nodetexcreator.cpp:288-295 | a vertex has no box iff its chart's material has no maps; its UV is then (0, 0), otherwise the remapped UV, and its clamped UV lies in its box |
| TexAtlas.LinkCharts | src/nxsbuild/nodetexcreator.cpp:111-147 | after the two face passes the faces are remapped, the ids are the dense component numbering of the face links, the box count is the number of components, each vertex has the material of its last face, and every component id is used |
| TexAtlas.NumberCharts | src/nxsbuild/nodetexcreator.cpp:140 | `compact` on the linked labels gives each vertex its component number, with as many numbers as components, all in use |
| TexAtlas.ChartIdsOfRoots | src/nxsbuild/nodetexcreator.cpp:112-140 | the compacted labels of the face links are the component ids, below the component count, each one used |
| TexAtlas.FindCharts | src/nxsbuild/nodetexcreator.cpp:111-169 | after the face passes and the box loop, each chart has its box of clamped UVs and the material of its last assigned vertex |
| TexAtlas.KeepTexturedBoxes | src/nxsbuild/nodetexcreator.cpp:170-185 | the vectors are cut to the textured boxes in order, and every vertex gets its box's new index, or -1 |
| TexAtlas.BuildGroup | src/nxsbuild/nodetexcreator.cpp:187-272 | a failure reports the kept boxes' clamped pixel sizes, which no canvas accepts; a built group holds the kept boxes with their clamped rectangles, the least unified material, the first accepted packing, and the power-of-two rounding when asked for |
| TexAtlas.PlaceVertices | src/nxsbuild/nodetexcreator.cpp:288-323 | after the UV loop every vertex sits at (0, 0) or at the remapped UV of its chart's kept box |
| TexAtlas.FinishGroup | src/nxsbuild/nodetexcreator.cpp:170-323 | from the chart boxes, every vertex points at its chart's box among the textured ones (or -1); a built group holds exactly the textured chart boxes, a failure their pixel sizes and leaves the UVs alone; plus the group and vertex placement that `Process` promises |
| TexAtlas.Process | src/nxsbuild/nodetexcreator.cpp:115-323 | faces get remapped materials; every vertex points at its chart's box among the textured charts (`OutcomeOfCharts`); the result is a packing failure on the pixel sizes of the textured chart boxes, which no canvas accepts, with UVs left clamped, or a group of exactly those boxes with the least unified material, clamped rectangles, first-fit packing and every vertex placed |
| TexAtlas.OutcomeFromCharts | src/nxsbuild/nodetexcreator.cpp:112-185 | the boxes and vertex table after filtering, stated on the boxes of steps 1 to 3, are the kept chart boxes and the renumbered chart ids of the input faces |
| TexAtlas.ChartsFoundAreCharts | src/nxsbuild/nodetexcreator.cpp:150-168 | the boxes and materials of steps 1 to 3 are one hull and one material per component of the face links |
| TexAtlas.FilteredAreKept | src/nxsbuild/nodetexcreator.cpp:169-185 | the filtered boxes and materials are exactly those whose material has maps, in order |
| GpuResidency.IsPowerOfTwoExactly | src/common/nexus.cpp:138-140 | `isPowerOfTwo(x)` holds iff x is zero or a power of two |
| GpuResidency.FilterForMipmapsPowers | src/common/nexus.cpp:187-191 | mipmapped minification is chosen iff each side is zero or a power of two; some filter is always set |
| GpuResidency.ShrOfNegativeNeverZero | src/common/nexus.cpp:131-134 | shifting a negative int right never reaches zero, so the loop does not end for negative n |
| GpuResidency.NextPowerOf2Int | src/common/nexus.cpp:125-136 | up to 2^30 the signed rounding is the least power of two at least n; above that, it is `1 << 31`, which is INT32_MIN |
| GpuResidency.NewBytesIsSetSum | src/common/nexus.cpp:169-198 | the bytes charged are the sum of `width * height * 3` over the set of visited maps that were not resident, so a shared map is charged once |
| GpuResidency.NewBytesOfResident | src/common/nexus.cpp:180 | maps that are all resident cost nothing |
| GpuResidency.LoadedNothing | src/common/nexus.cpp:169 | visiting no map changes no texture |
| GpuResidency.LoadedAreResident | src/common/nexus.cpp:180-182 | after a visit every visited map has a texture name |
| GpuResidency.LoadMap | src/common/nexus.cpp:182-197 | a map that is not resident gets the next texture name and its filter, and is charged its bytes |
| GpuResidency.SkipMap | src/common/nexus.cpp:180 | a resident map is skipped: no state changes and nothing is charged |
| GpuResidency.LoadedThen | src/common/nexus.cpp:170-201 | two visits in a row are one visit of both map lists |
| GpuResidency.NewBytesThen | src/common/nexus.cpp:170-201 | the bytes of two visits add up; a map the first visit made resident costs nothing in the second |
| GpuResidency.Nexus.constructor | src/common/nexus.cpp:52-53 | from a consistent index with no GL name in use, a new model holds that index, streams nothing, starts both allocators at 1 and is `Valid` |
| GpuResidency.Nexus.Open | src/common/nexus.cpp:59-71 | `filename` is the URI; an `http://` URI without a controller throws, one with a controller sets `http_stream`; `url` loses a leading `file://` |
| GpuResidency.LocalPath | src/common/nexus.cpp:70-71 | `url` is the URI without a leading `file://` and otherwise the URI |
| GpuResidency.LocalPathRoundTrip | src/common/nexus.cpp:64-71 | stripping `file://` from `file://` + path gives back the path, and an http URI is kept whole |
| GpuResidency.Nexus.InitIndex | src/common/nexus.cpp:102-107 | a fresh token array with one token per node, token i bound to this model and node i |
| GpuResidency.Nexus.LoadTexture | src/common/nexus.cpp:178-197 | the map loop's body skips a resident map and otherwise gives it the next name and its filter and adds its bytes |
| GpuResidency.Nexus.LoadMaps | src/common/nexus.cpp:177-198 | the map loop over a group's maps makes each non-resident map resident with a fresh name and adds exactly their bytes |
| GpuResidency.Nexus.LoadPatch | src/common/nexus.cpp:171-201 | the patch loop's body skips a patch without a texture and otherwise loads its group's maps; the group's `count_gpu` stays unchanged |
| GpuResidency.Nexus.LoadPatches | src/common/nexus.cpp:170-201 | the patch loop over `[first_patch, last_patch())` makes every map of every textured patch resident and adds the bytes of those that were not |
| GpuResidency.Nexus.AllocateBuffers | src/common/nexus.cpp:158-166 | the node gets a fresh vertex buffer name and, when it has faces, a second fresh face buffer name; no other node changes |
| GpuResidency.Nexus.LoadGpu | src/common/nexus.cpp:142-206 | the result is vertex bytes + face bytes + the bytes of newly resident maps; buffers are fresh, other nodes unchanged, every visited map resident, and a second load would charge no texture bytes |
| GpuResidency.Nexus.DropGpu | src/common/nexus.cpp:208-242 | the node's buffer names become 0 and no other node changes; without textures it returns the vertex and face bytes, with textures it throws "Texture groups" |

## Left out

- OpenGL calls are replaced by the two name allocators. This leaves out buffer and texture contents, the magnification filter, mipmap generation and `glCheckError`. Qt images, `qDebug` and `cerr` output are also left out.
- Floating-point numerics of `process`:
  - The one-pixel padding, `floor` and `ceil` of a box enter `TexAtlas.ClampAxis` as integer inputs (the `snap` parameter).
  - The UV remapping into the packed texture (lines 296-320) is the `remapUV` parameter.
  - UVs are exact reals.
  - The error and pixel-per-edge metrics (lines 325 on) are not modelled.
- The rectangle packer `vcg::RectPacker::PackInt` and the atlas' texture lookups are parameters. The texture images of the group are not built.
- The unreachable code after the `return` in `closestPowerOf2(Point2i&)` (lines 39-48) is not modelled.
- The commented-out texture release in `dropGpu` (lines 226-239) is dead code and is not modelled.
- The vertex-replication diagnostic (lines 131-132) only prints and is not modelled.
- TexRounding.NextPowerOf2: requires n <= 2^31. Above that, the C shift `1 << 32` is undefined.
- TexRounding.ClosestPowerOf2: requires 0 <= p < 2^31. The int-to-unsigned conversion of a negative p is not modelled.
- TexRounding.ClosestPowerOf2: the float test `n/(float)p > 1.40` (lines 28-29) is modelled as the exact test `5n > 7p`. By float32 rounding analysis the two agree for every p below 23967451 and first disagree at 23967451, where `(float)p` rounds up and the float quotient falls just under 1.40, so the source keeps 2^25 and the model gives 2^24 (`TexRounding.ClosestPow2AtFloatLimit`). Further disagreements lie near 47934902, 95869804, 191739608 and 383479216. IEEE float32 arithmetic is not modelled. The packed sizes `process` rounds are at most 65536 (lines 229-232), far below the first disagreement.
- TexRounding.ClosestPowerOf2Point: rounds each axis with the same exact test, so it matches the source only for axes below 23967451.
- TexRounding.ClosestPow2Bounds: proved of the exact test up to 2^30. For the source's float test it holds only for p below 23967451; at 23967451 the source gives 2^25, more than 1.4p.
- GpuResidency.NextPowerOf2Int: requires n >= 0. For a negative n the loop never ends (`GpuResidency.ShrOfNegativeNeverZero`).
- TexAtlas.Process: requires the following of its inputs:
  - at least one face, since `*final_materials.begin()` on an empty set is undefined;
  - every vertex used by a face, since an unused vertex forms a box with material -1, and `materials->at(-1)` is out of range;
  - every material id inside `material_map`, which is the assertion at line 117.
- GpuResidency.Nexus.LoadGpu: the byte count is an unbounded `nat`. The 32-bit products `nvert * size` and `width * height * 3`, and their `int` sum, may wrap in the source; that is not modelled.
- GpuResidency.Nexus.DropGpu: the freed byte count is an unbounded `nat`. The source computes the same 32-bit products and `int` sum (nexus.cpp:220-222) and returns that `int` as `uint64_t`, so a wrap or a negative sum would change the result; that is not modelled.
- GpuResidency.Nexus.LoadPatch: `count_gpu` is incremented on a copy, as the source does, so the stored reference count never changes. A model that increments the stored count is not given.
- The index tables (header, nodes, patches, texture groups) are fixed fields set by the constructor. `loadHeader`, `loadIndex`, `NexusData::initIndex` and the file and controller I/O of `open` are not part of this model.
- GpuResidency.Nexus.constructor: stands for the state after `loadHeader` and `loadIndex`, so it requires a consistent index (`IndexConsistent`) and no buffer or texture name in use (`NoGlNames`). The source constructor (nexus.cpp:52-53) only sets the controller and the `loaded` and `http_stream` flags; reading the index from a file is not part of this model.
- `Node::last_patch()` is taken to be the next node's `first_patch`, as in the index layout. Its definition is not part of this model.
- `Nexus::flush`, `close`, `isReady` and the token cache are not part of this model.
