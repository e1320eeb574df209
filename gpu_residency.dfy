/**
 * GPU residency accounting of a Nexus multiresolution model
 * (`Nexus::loadGpu`, `Nexus::dropGpu`, `Nexus::initIndex`, the URI prefix
 * handling of `Nexus::open`, and the free helpers `nextPowerOf2` and
 * `isPowerOfTwo` of src/common/nexus.cpp).
 *
 * OpenGL is replaced by two handle allocators (buffers and textures live
 * in separate GL name spaces) that hand out fresh non-zero names, and by
 * the minification filter recorded on each texture map.
 */
module GpuResidency {
  import opened Bits
  import TexRounding

  /** The `patch.texture` value of a patch without a texture group. */
  const Sentinel: nat := 0xffff_ffff

  /** Bytes per vertex and per face (`sig.vertex.size()`, `sig.face.size()`). */
  datatype Signature = Signature(vertexSize: nat, faceSize: nat)

  datatype Header = Header(nNodes: nat, nTextures: nat, signature: Signature)

  /** A node of the index; its patches end where the next node's begin (`last_patch()`). */
  datatype Node = Node(nvert: nat, nface: nat, firstPatch: nat)

  datatype Patch = Patch(texture: nat)

  /** One texture group: `ntex` maps starting at `firstTextureData`. */
  datatype TextureGroupData = TextureGroupData(ntex: nat, firstTextureData: nat, countGpu: int)

  /** Whether the node's bytes are in memory, and its vertex and face buffer names (0: none). */
  datatype NodeData = NodeData(memory: bool, vbo: nat, fbo: nat)

  /** The minification filter a texture map was created with. */
  datatype MinFilter = Unset | Linear | LinearMipmapLinear

  /** An `unsigned int` value. */
  type Uint32 = x: nat | x < U32

  /** One texture map: its size, its texture name (0: not resident) and its filter. */
  datatype TextureData = TextureData(width: Uint32, height: Uint32, tex: nat, minFilter: MinFilter)

  /** A cache token bound to one node of one model. */
  datatype Token = Token(nexus: Nexus?, node: nat)

  datatype Status = Ok | Thrown(message: string)

  datatype Drop = Freed(bytes: nat) | DropThrown(message: string)

  // ---------------------------------------------------------------------
  // Free helpers
  // ---------------------------------------------------------------------

  /** `isPowerOfTwo(unsigned x)`: `(x & (x - 1)) == 0` on 32-bit operands. */
  function IsPowerOfTwo(x: Uint32): bool
  {
    BitAnd(x, Dec32(x)) == 0
  }

  /** The test accepts zero and the powers of two, and nothing else. */
  lemma IsPowerOfTwoExactly(x: Uint32)
    ensures IsPowerOfTwo(x) <==> x == 0 || IsPow2(x)
  {
    if x >= 1 {
      ClearLowestBit(x);
    }
  }

  /** The filter `loadGpu` picks: mipmaps only when both sides pass `isPowerOfTwo`. */
  function FilterFor(width: Uint32, height: Uint32): MinFilter
  {
    if IsPowerOfTwo(width) && IsPowerOfTwo(height) then LinearMipmapLinear else Linear
  }

  /** Mipmapping is chosen exactly when each side is zero or a power of two. */
  lemma FilterForMipmapsPowers(width: Uint32, height: Uint32)
    ensures FilterFor(width, height) == LinearMipmapLinear <==>
      (width == 0 || IsPow2(width)) && (height == 0 || IsPow2(height))
    ensures FilterFor(width, height) != Unset
  {
    IsPowerOfTwoExactly(width);
    IsPowerOfTwoExactly(height);
  }

  /** `n >>= 1` on a signed int: an arithmetic shift, which rounds toward minus infinity. */
  function Shr(n: int, k: nat): int
  {
    if k == 0 then n else Shr(n, k - 1) / 2
  }

  /** A negative n stays negative under any number of shifts, so the loop of `nextPowerOf2(int)` never ends. */
  lemma {:induction false} ShrOfNegativeNeverZero(n: int, k: nat)
    requires n < 0
    ensures Shr(n, k) < 0
  {
    if k > 0 {
      ShrOfNegativeNeverZero(n, k - 1);
    }
  }

  /**
   * `nextPowerOf2(int n)`: the signed copy of the rounding. For n >= 0 it
   * loops like the unsigned one, so up to 2^30 it returns the same power of
   * two; above, the count reaches 31 and `1 << 31` lands on INT32_MIN. A
   * negative n is outside the model: its loop would not end.
   */
  method NextPowerOf2Int(n: int) returns (r: int)
    requires 0 <= n < I32
    ensures n <= I32 / 2 ==> r == TexRounding.NextPow2(n)
    ensures n > I32 / 2 ==> TexRounding.NextPow2(n) == I32 && r == -(I32 as int)
  {
    Pow2Table();
    TexRounding.NextPow2IsLeastPow2(n);
    if n != 0 && BitAnd(n, n - 1) == 0 {
      ClearLowestBit(n);
      if n > I32 / 2 {
        Pow2IsPow2(31);
        Pow2Gap(I32, n);
        assert false;
      }
      return n;
    }
    if n != 0 {
      ClearLowestBit(n);
    }
    var m := n;
    var count: nat := 0;
    while m != 0
      invariant 0 <= m
      invariant BitLength(n) == count + BitLength(m)
      decreases m
    {
      m := m / 2;
      count := count + 1;
    }
    if n <= I32 / 2 {
      if n != 0 {
        NotPow2Below(n, 30);
      }
      BitLengthAtMost(n, 30);
      Pow2Monotone(count, 30);
      r := Pow2(count);
    } else {
      BitLengthBounds(n);
      BitLengthAtMost(n, 31);
      if count < 31 {
        Pow2Monotone(count, 30);
      }
      TexRounding.NextPow2Of(n, 31);
      r := TexRounding.Int32(Pow2(count));
    }
  }

  // ---------------------------------------------------------------------
  // Texture bytes charged by loadGpu
  // ---------------------------------------------------------------------

  /** `width * height * 3`: the bytes of one RGB texture map. */
  function MapBytes(d: TextureData): nat
  {
    d.width * d.height * 3
  }

  /**
   * The bytes charged while visiting the maps ks in order: a map counts
   * when it was not resident before the call and has not been visited yet.
   */
  function NewBytes(ks: seq<nat>, td: seq<TextureData>): nat
    requires forall j :: 0 <= j < |ks| ==> ks[j] < |td|
  {
    if ks == [] then 0
    else
      var k := ks[|ks| - 1];
      NewBytes(ks[..|ks| - 1], td) + (if td[k].tex == 0 && k !in ks[..|ks| - 1] then MapBytes(td[k]) else 0)
  }

  /** The maps among ks that were not resident. */
  function NewMaps(ks: seq<nat>, td: seq<TextureData>): set<nat>
    requires forall j :: 0 <= j < |ks| ==> ks[j] < |td|
  {
    set k | k in ks && td[k].tex == 0
  }

  /** Sum of `MapBytes` over a set of maps. */
  ghost function SetBytes(s: set<nat>, td: seq<TextureData>): nat
    requires forall k :: k in s ==> k < |td|
    decreases s
  {
    if s == {} then 0 else var k :| k in s; MapBytes(td[k]) + SetBytes(s - {k}, td)
  }

  lemma {:induction false} SetBytesRemove(s: set<nat>, td: seq<TextureData>, y: nat)
    requires forall k :: k in s ==> k < |td|
    requires y in s
    ensures SetBytes(s, td) == MapBytes(td[y]) + SetBytes(s - {y}, td)
    decreases |s|
  {
    var x :| x in s && SetBytes(s, td) == MapBytes(td[x]) + SetBytes(s - {x}, td);
    if y != x {
      assert s - {x} - {y} == s - {y} - {x};
      SetBytesRemove(s - {x}, td, y);
      SetBytesRemove(s - {y}, td, x);
    }
  }

  /**
   * The bytes charged are the sum over the SET of maps that were not
   * resident: a map reached through several patches is charged once.
   */
  lemma {:induction false} NewBytesIsSetSum(ks: seq<nat>, td: seq<TextureData>)
    requires forall j :: 0 <= j < |ks| ==> ks[j] < |td|
    ensures NewBytes(ks, td) == SetBytes(NewMaps(ks, td), td)
  {
    if ks != [] {
      var pre := ks[..|ks| - 1];
      var k := ks[|ks| - 1];
      NewBytesIsSetSum(pre, td);
      assert ks == pre + [k];
      if td[k].tex == 0 && k !in pre {
        assert NewMaps(ks, td) == NewMaps(pre, td) + {k};
        assert NewMaps(ks, td) - {k} == NewMaps(pre, td);
        SetBytesRemove(NewMaps(ks, td), td, k);
      } else {
        assert NewMaps(ks, td) == NewMaps(pre, td);
      }
    }
  }

  /** Maps that are all resident cost nothing. */
  lemma {:induction false} NewBytesOfResident(ks: seq<nat>, td: seq<TextureData>)
    requires forall j :: 0 <= j < |ks| ==> ks[j] < |td|
    requires forall j :: 0 <= j < |ks| ==> td[ks[j]].tex != 0
    ensures NewBytes(ks, td) == 0
  {
    if ks != [] {
      NewBytesOfResident(ks[..|ks| - 1], td);
    }
  }

  /**
   * The texture table after visiting ks from td0: every map first found
   * not resident got a texture name from [next0, next) and the filter for
   * its size; every other map is as it was.
   */
  ghost predicate LoadedUpTo(td0: seq<TextureData>, td: seq<TextureData>, ks: seq<nat>, next0: nat, next: nat)
  {
    |td| == |td0| && 1 <= next0 <= next &&
    (forall j :: 0 <= j < |ks| ==> ks[j] < |td0|) &&
    forall k: nat :: k < |td| ==> LoadedAt(td0, td, ks, next0, next, k)
  }

  /** Map k after visiting ks from td0, as `LoadedUpTo` describes it. */
  ghost predicate LoadedAt(td0: seq<TextureData>, td: seq<TextureData>, ks: seq<nat>, next0: nat, next: nat, k: nat)
    requires k < |td0| && k < |td|
  {
    if k in ks && td0[k].tex == 0
    then td[k] == td0[k].(tex := td[k].tex, minFilter := FilterFor(td0[k].width, td0[k].height)) &&
         next0 <= td[k].tex < next
    else td[k] == td0[k]
  }

  /** The consecutive map indices lo, lo + 1, ..., hi - 1. */
  function Range(lo: nat, hi: nat): (r: seq<nat>)
    ensures |r| == if lo <= hi then hi - lo else 0
    ensures forall x :: x in r ==> lo <= x < hi
    decreases hi
  {
    if hi <= lo then [] else Range(lo, hi - 1) + [hi - 1]
  }

  /** Visiting no map changes nothing. */
  lemma LoadedNothing(td: seq<TextureData>, next: nat)
    requires next >= 1
    ensures LoadedUpTo(td, td, [], next, next)
  {
  }

  /** After a visit every visited map is resident. */
  lemma LoadedAreResident(td0: seq<TextureData>, td: seq<TextureData>, ks: seq<nat>, next0: nat, next: nat)
    requires LoadedUpTo(td0, td, ks, next0, next)
    ensures forall j :: 0 <= j < |ks| ==> td[ks[j]].tex != 0
  {
    forall j | 0 <= j < |ks|
      ensures td[ks[j]].tex != 0
    {
      assert ks[j] in ks && LoadedAt(td0, td, ks, next0, next, ks[j]);
    }
  }

  /** Texture names stay below the allocator and no name is shared by two maps. */
  predicate TexNamesFresh(td: seq<TextureData>, next: nat)
  {
    (forall k :: 0 <= k < |td| ==> td[k].tex < next) &&
    (forall j, k :: 0 <= j < |td| && 0 <= k < |td| && j != k && td[j].tex != 0 ==> td[j].tex != td[k].tex)
  }

  /** Visiting one more map k that is not resident: it gets the next name and is charged. */
  lemma LoadMap(td0: seq<TextureData>, td: seq<TextureData>, td': seq<TextureData>,
                 ks: seq<nat>, next0: nat, next: nat, k: nat)
    requires LoadedUpTo(td0, td, ks, next0, next) && TexNamesFresh(td, next) && k < |td| && td[k].tex == 0
    requires td' == td[k := td[k].(tex := next, minFilter := FilterFor(td[k].width, td[k].height))]
    ensures LoadedUpTo(td0, td', ks + [k], next0, next + 1)
    ensures TexNamesFresh(td', next + 1)
    ensures NewBytes(ks + [k], td0) == NewBytes(ks, td0) + MapBytes(td[k])
  {
    assert LoadedAt(td0, td, ks, next0, next, k);
    assert (ks + [k])[..|ks|] == ks;
    assert k !in ks && td0[k].tex == 0;
    var next' := next + 1;
    forall x: nat | x < |td'|
      ensures LoadedAt(td0, td', ks + [k], next0, next', x)
    {
      assert LoadedAt(td0, td, ks, next0, next, x);
      assert x in ks + [k] <==> x in ks || x == k;
    }
  }

  /** Visiting one more map k that is already resident changes nothing. */
  lemma SkipMap(td0: seq<TextureData>, td: seq<TextureData>, ks: seq<nat>, next0: nat, next: nat, k: nat)
    requires LoadedUpTo(td0, td, ks, next0, next) && k < |td| && td[k].tex != 0
    ensures LoadedUpTo(td0, td, ks + [k], next0, next)
    ensures NewBytes(ks + [k], td0) == NewBytes(ks, td0)
  {
    assert LoadedAt(td0, td, ks, next0, next, k);
    assert (ks + [k])[..|ks|] == ks;
    assert k in ks || td0[k].tex != 0;
    forall x: nat | x < |td|
      ensures LoadedAt(td0, td, ks + [k], next0, next, x)
    {
      assert LoadedAt(td0, td, ks, next0, next, x);
      assert x in ks + [k] <==> x in ks || x == k;
    }
  }

  /** Two visits in a row are one visit of both map lists. */
  lemma LoadedThen(td0: seq<TextureData>, td1: seq<TextureData>, td2: seq<TextureData>,
                   ks1: seq<nat>, ks2: seq<nat>, next0: nat, next1: nat, next2: nat)
    requires LoadedUpTo(td0, td1, ks1, next0, next1) && LoadedUpTo(td1, td2, ks2, next1, next2)
    ensures LoadedUpTo(td0, td2, ks1 + ks2, next0, next2)
  {
    var ks := ks1 + ks2;
    forall k: nat | k < |td2|
      ensures LoadedAt(td0, td2, ks, next0, next2, k)
    {
      assert LoadedAt(td0, td1, ks1, next0, next1, k);
      assert LoadedAt(td1, td2, ks2, next1, next2, k);
      assert k in ks <==> k in ks1 || k in ks2;
      if k in ks1 && td0[k].tex == 0 {
        assert td1[k].tex != 0;
      } else if k in ks2 && td1[k].tex == 0 {
        assert td1[k] == td0[k];
      }
    }
    forall j | 0 <= j < |ks|
      ensures ks[j] < |td0|
    {
      if j >= |ks1| {
        assert ks[j] == ks2[j - |ks1|];
      }
    }
  }

  /**
   * The bytes of two visits in a row add up; a map the first visit made
   * resident costs nothing in the second.
   */
  lemma {:induction false} NewBytesThen(td0: seq<TextureData>, td1: seq<TextureData>,
                                        ks1: seq<nat>, ks2: seq<nat>, next0: nat, next1: nat)
    requires LoadedUpTo(td0, td1, ks1, next0, next1)
    requires forall j :: 0 <= j < |ks2| ==> ks2[j] < |td0|
    ensures forall j :: 0 <= j < |ks1 + ks2| ==> (ks1 + ks2)[j] < |td0|
    ensures NewBytes(ks1 + ks2, td0) == NewBytes(ks1, td0) + NewBytes(ks2, td1)
    decreases |ks2|
  {
    if ks2 == [] {
      assert ks1 + ks2 == ks1;
    } else {
      var pre := ks2[..|ks2| - 1];
      var k := ks2[|ks2| - 1];
      NewBytesThen(td0, td1, ks1, pre, next0, next1);
      assert (ks1 + ks2)[..|ks1 + ks2| - 1] == ks1 + pre;
      assert (ks1 + ks2)[|ks1 + ks2| - 1] == k;
      assert k in ks1 + pre <==> k in ks1 || k in pre;
      assert LoadedAt(td0, td1, ks1, next0, next1, k);
      assert MapBytes(td1[k]) == MapBytes(td0[k]);
    }
  }

  // ---------------------------------------------------------------------
  // The index
  // ---------------------------------------------------------------------

  /** Node n's patches `[first_patch, last_patch())` lie inside a table of npatches patches. */
  predicate PatchRangeIn(nodes: seq<Node>, npatches: nat, n: nat)
  {
    n + 1 < |nodes| && nodes[n].firstPatch <= nodes[n + 1].firstPatch <= npatches
  }

  /** Patch p has no texture, or its group and the group's maps (of ntexdata) exist. */
  predicate TextureIn(patches: seq<Patch>, texturegroupdata: seq<TextureGroupData>, ntexdata: nat, p: nat)
    requires p < |patches|
  {
    var t := patches[p].texture;
    t == Sentinel ||
    (t < |texturegroupdata| && texturegroupdata[t].firstTextureData + texturegroupdata[t].ntex <= ntexdata)
  }

  /**
   * A loaded index is consistent: one node entry per node data plus the
   * closing entry that `last_patch()` reads, patch ranges ordered and
   * inside the patch table, and, when there are textures, every textured
   * patch naming a group whose maps exist.
   */
  predicate IndexConsistent(header: Header, nodes: seq<Node>, patches: seq<Patch>,
                            texturegroupdata: seq<TextureGroupData>, nnodedata: nat, ntexdata: nat)
  {
    header.nNodes == nnodedata && |nodes| == nnodedata + 1 &&
    (forall n :: 0 <= n < nnodedata ==> PatchRangeIn(nodes, |patches|, n)) &&
    (header.nTextures != 0 ==> forall p :: 0 <= p < |patches| ==> TextureIn(patches, texturegroupdata, ntexdata, p))
  }

  /** No node holds a buffer and no map holds a texture name. */
  predicate NoGlNames(nodedata: seq<NodeData>, texturedata: seq<TextureData>)
  {
    (forall n :: 0 <= n < |nodedata| ==> nodedata[n].vbo == 0 && nodedata[n].fbo == 0) &&
    (forall k :: 0 <= k < |texturedata| ==> texturedata[k].tex == 0)
  }

  // ---------------------------------------------------------------------
  // The model
  // ---------------------------------------------------------------------

  class Nexus {
    // The header and index tables are fixed once the file is loaded:
    // `loadGpu` and `dropGpu` only change the per-node and per-map GL state.
    const header: Header
    const nodes: seq<Node>
    const patches: seq<Patch>
    const texturegroupdata: seq<TextureGroupData>
    const nodedata: array<NodeData>
    const texturedata: array<TextureData>
    var tokens: array<Token>

    /** A controller is attached (`controller != nullptr`). */
    const hasController: bool
    var filename: string
    var url: string
    var httpStream: bool

    /** The next buffer and texture names the GL would hand out. */
    var nextBuffer: nat
    var nextTexture: nat

    /**
     * The index is consistent: `nodes` ends with the closing entry that
     * `last_patch()` reads, patch ranges are ordered and inside the patch
     * table, textured patches name a group whose maps exist, and GL names
     * are fresh below the allocators.
     */
    predicate Valid()
      reads this, nodedata, texturedata
    {
      nextBuffer >= 1 && nextTexture >= 1 &&
      IndexConsistent(header, nodes, patches, texturegroupdata, nodedata.Length, texturedata.Length) &&
      (forall n :: 0 <= n < nodedata.Length ==> nodedata[n].vbo < nextBuffer && nodedata[n].fbo < nextBuffer) &&
      TexNamesFresh(texturedata[..], nextTexture)
    }

    /** Node n's patches `[first_patch, last_patch())` lie inside the patch table. */
    predicate NodeInRange(n: nat)
    {
      PatchRangeIn(nodes, |patches|, n)
    }

    /** Patch p has no texture, or its group and the group's maps exist. */
    predicate PatchResolves(p: nat)
      requires p < |patches|
    {
      TextureIn(patches, texturegroupdata, texturedata.Length, p)
    }

    /** The maps of patch p, in the order `loadGpu` visits them. */
    function PatchMaps(p: nat): (ks: seq<nat>)
      requires p < |patches| && PatchResolves(p)
      ensures forall j :: 0 <= j < |ks| ==> ks[j] < texturedata.Length
    {
      var t := patches[p].texture;
      if t == Sentinel then []
      else
        var g := texturegroupdata[t];
        var r := Range(g.firstTextureData, g.firstTextureData + g.ntex);
        assert forall j :: 0 <= j < |r| ==> r[j] in r;
        r
    }

    /** The maps of patches lo .. hi-1, in visiting order. */
    function MapsBetween(lo: nat, hi: nat): (ks: seq<nat>)
      requires lo <= hi <= |patches| && forall p :: lo <= p < hi ==> PatchResolves(p)
      ensures forall j :: 0 <= j < |ks| ==> ks[j] < texturedata.Length
      decreases hi
    {
      if hi == lo then [] else MapsBetween(lo, hi - 1) + PatchMaps(hi - 1)
    }

    /** One more patch extends the visited maps by that patch's maps. */
    lemma MapsBetweenStep(lo: nat, hi: nat)
      requires lo <= hi < |patches| && forall p :: lo <= p <= hi ==> PatchResolves(p)
      ensures MapsBetween(lo, hi + 1) == MapsBetween(lo, hi) + PatchMaps(hi)
    {
    }

    /** When the model has textures, every patch resolves. */
    predicate TexturesResolve()
    {
      header.nTextures != 0 ==> forall p :: 0 <= p < |patches| ==> PatchResolves(p)
    }

    /** Every map `loadGpu(n)` visits (none when the model has no textures). */
    function NodeMaps(n: nat): (ks: seq<nat>)
      requires NodeInRange(n) && TexturesResolve()
      ensures forall j :: 0 <= j < |ks| ==> ks[j] < texturedata.Length
    {
      if header.nTextures == 0 then [] else MapsBetween(nodes[n].firstPatch, nodes[n + 1].firstPatch)
    }

    /** `vertex_size` of node n. */
    function VertexBytes(n: nat): nat
      requires n < |nodes|
    {
      nodes[n].nvert * header.signature.vertexSize
    }

    /** `face_size` of node n. */
    function FaceBytes(n: nat): nat
      requires n < |nodes|
    {
      nodes[n].nface * header.signature.faceSize
    }

    /**
     * The index tables as `loadHeader`/`loadIndex` leave them; no GL name
     * is in use yet, and the model starts consistent.
     */
    constructor(hasController: bool, header: Header, nodes: seq<Node>, patches: seq<Patch>,
                texturegroupdata: seq<TextureGroupData>, nodedata: seq<NodeData>, texturedata: seq<TextureData>)
      requires IndexConsistent(header, nodes, patches, texturegroupdata, |nodedata|, |texturedata|)
      requires NoGlNames(nodedata, texturedata)
      ensures Valid()
      ensures this.hasController == hasController && this.header == header && this.nodes == nodes
      ensures this.patches == patches && this.texturegroupdata == texturegroupdata
      ensures this.nodedata[..] == nodedata && this.texturedata[..] == texturedata
      ensures !httpStream && nextBuffer == 1 && nextTexture == 1
      ensures fresh(this.nodedata) && fresh(this.texturedata)
    {
      this.hasController := hasController;
      this.header := header;
      this.nodes := nodes;
      this.patches := patches;
      this.texturegroupdata := texturegroupdata;
      this.nodedata := new NodeData[|nodedata|](i requires 0 <= i < |nodedata| => nodedata[i]);
      this.texturedata := new TextureData[|texturedata|](i requires 0 <= i < |texturedata| => texturedata[i]);
      this.tokens := new Token[0];
      filename := "";
      url := "";
      httpStream := false;
      nextBuffer := 1;
      nextTexture := 1;
    }

    /**
     * The URI handling of `Nexus::open`: an `http://` URI needs a
     * controller, otherwise it throws; a `file://` prefix is stripped from
     * `url`. Opening the file and loading the index are not modelled.
     */
    method Open(uri: string) returns (s: Status)
      modifies this`filename, this`url, this`httpStream
      ensures filename == uri
      ensures IsHttp(uri) && !hasController ==>
        s == Thrown("No controller, no http streaming") && url == uri && httpStream == old(httpStream)
      ensures !(IsHttp(uri) && !hasController) ==>
        s == Ok && url == LocalPath(uri) && httpStream == (old(httpStream) || IsHttp(uri))
    {
      filename := uri;
      url := uri;
      if |url| >= 7 && url[..7] == "http://" {
        if !hasController {
          return Thrown("No controller, no http streaming");
        }
        httpStream := true;
      }
      if |url| >= 7 && url[..7] == "file://" {
        url := url[7..];
      }
      s := Ok;
    }

    /** `initIndex`: one token per node, bound to this model and to the node's index. */
    method InitIndex()
      modifies this`tokens
      ensures fresh(tokens) && tokens.Length == header.nNodes
      ensures forall i :: 0 <= i < tokens.Length ==> tokens[i] == Token(this, i)
    {
      var ts := new Token[header.nNodes];
      for i := 0 to header.nNodes
        invariant forall j :: 0 <= j < i ==> ts[j] == Token(this, j)
      {
        ts[i] := Token(this, i);
      }
      tokens := ts;
    }

    /**
     * The body of the map loop of `loadGpu` for map k: a resident map is
     * skipped; otherwise it gets the next texture name, the filter its size
     * calls for, and its bytes are added.
     */
    method LoadTexture(k: nat, size: nat, ghost base: nat, ghost ks: seq<nat>,
                       ghost td0: seq<TextureData>, ghost next0: nat)
      returns (size': nat)
      requires k < texturedata.Length
      requires LoadedUpTo(td0, texturedata[..], ks, next0, nextTexture) && TexNamesFresh(texturedata[..], nextTexture)
      requires size == base + NewBytes(ks, td0)
      modifies texturedata, this`nextTexture
      ensures LoadedUpTo(td0, texturedata[..], ks + [k], next0, nextTexture)
      ensures TexNamesFresh(texturedata[..], nextTexture)
      ensures size' == base + NewBytes(ks + [k], td0)
    {
      var data := texturedata[k];
      if data.tex != 0 {
        SkipMap(td0, texturedata[..], ks, next0, nextTexture, k);
        return size;
      }
      ghost var before := texturedata[..];
      var filter := if IsPowerOfTwo(data.width) && IsPowerOfTwo(data.height) then LinearMipmapLinear else Linear;
      texturedata[k] := data.(tex := nextTexture, minFilter := filter);
      assert texturedata[..] == before[k := data.(tex := nextTexture, minFilter := filter)];
      LoadMap(td0, before, texturedata[..], ks, next0, nextTexture, k);
      nextTexture := nextTexture + 1;
      size' := size + MapBytes(data);
    }

    /** The map loop of `loadGpu` over a group's maps `[first, first + count)`. */
    method LoadMaps(first: nat, count: nat, size: nat) returns (size': nat)
      requires first + count <= texturedata.Length
      requires nextTexture >= 1 && TexNamesFresh(texturedata[..], nextTexture)
      modifies texturedata, this`nextTexture
      ensures LoadedUpTo(old(texturedata[..]), texturedata[..], Range(first, first + count), old(nextTexture), nextTexture)
      ensures TexNamesFresh(texturedata[..], nextTexture)
      ensures size' == size + NewBytes(Range(first, first + count), old(texturedata[..]))
    {
      ghost var td0 := texturedata[..];
      LoadedNothing(td0, nextTexture);
      size' := size;
      ghost var done: seq<nat> := [];
      for i := 0 to count
        invariant done == Range(first, first + i)
        invariant LoadedUpTo(td0, texturedata[..], done, old(nextTexture), nextTexture)
        invariant TexNamesFresh(texturedata[..], nextTexture)
        invariant size' == size + NewBytes(done, td0)
      {
        size' := LoadTexture(first + i, size', size, done, td0, old(nextTexture));
        done := done + [first + i];
      }
    }

    /**
     * The body of the patch loop of `loadGpu` for patch p: a patch without
     * texture is skipped, otherwise its group's maps go through `LoadMaps`.
     * The group is copied by value, so its `count_gpu` increment is lost.
     */
    method LoadPatch(p: nat, size: nat, ghost base: nat, ghost visited: seq<nat>,
                     ghost td0: seq<TextureData>, ghost next0: nat)
      returns (size': nat)
      requires p < |patches| && PatchResolves(p)
      requires LoadedUpTo(td0, texturedata[..], visited, next0, nextTexture) && TexNamesFresh(texturedata[..], nextTexture)
      requires size == base + NewBytes(visited, td0)
      modifies texturedata, this`nextTexture
      ensures LoadedUpTo(td0, texturedata[..], visited + PatchMaps(p), next0, nextTexture)
      ensures TexNamesFresh(texturedata[..], nextTexture)
      ensures size' == base + NewBytes(visited + PatchMaps(p), td0)
    {
      ghost var td1 := texturedata[..];
      ghost var next1 := nextTexture;
      ghost var maps := PatchMaps(p);
      if patches[p].texture == Sentinel {
        assert maps == [] && visited + maps == visited;
        return size;
      }
      var group := texturegroupdata[patches[p].texture];
      var first, count := group.firstTextureData, group.ntex;
      assert maps == Range(first, first + count);
      group := group.(countGpu := group.countGpu + 1);
      size' := LoadMaps(first, count, size);
      LoadedThen(td0, td1, texturedata[..], visited, maps, next0, next1, nextTexture);
      NewBytesThen(td0, td1, visited, maps, next0, next1);
    }

    /** The patch loop of `loadGpu` over `[first, last)`. */
    method LoadPatches(first: nat, last: nat, size: nat) returns (size': nat)
      requires first <= last <= |patches| && forall p :: first <= p < last ==> PatchResolves(p)
      requires nextTexture >= 1 && TexNamesFresh(texturedata[..], nextTexture)
      modifies texturedata, this`nextTexture
      ensures LoadedUpTo(old(texturedata[..]), texturedata[..], MapsBetween(first, last), old(nextTexture), nextTexture)
      ensures TexNamesFresh(texturedata[..], nextTexture)
      ensures size' == size + NewBytes(MapsBetween(first, last), old(texturedata[..]))
    {
      ghost var td0 := texturedata[..];
      LoadedNothing(td0, nextTexture);
      size' := size;
      ghost var visited: seq<nat> := [];
      for p := first to last
        invariant visited == MapsBetween(first, p)
        invariant LoadedUpTo(td0, texturedata[..], visited, old(nextTexture), nextTexture)
        invariant TexNamesFresh(texturedata[..], nextTexture)
        invariant size' == size + NewBytes(visited, td0)
      {
        MapsBetweenStep(first, p);
        size' := LoadPatch(p, size', size, visited, td0, old(nextTexture));
        visited := visited + PatchMaps(p);
      }
    }

    /**
     * The buffer half of `loadGpu`: a vertex buffer, then a face buffer
     * when the node has faces, each under the next free buffer name.
     */
    method AllocateBuffers(n: nat)
      requires n < nodedata.Length && |nodes| == nodedata.Length + 1
      modifies nodedata, this`nextBuffer
      ensures nodedata[n] == old(nodedata[n]).(vbo := old(nextBuffer),
                fbo := if nodes[n].nface != 0 then old(nextBuffer) + 1 else old(nodedata[n].fbo))
      ensures nextBuffer == old(nextBuffer) + if nodes[n].nface != 0 then 2 else 1
      ensures forall m :: 0 <= m < nodedata.Length && m != n ==> nodedata[m] == old(nodedata[m])
    {
      nodedata[n] := nodedata[n].(vbo := nextBuffer);
      nextBuffer := nextBuffer + 1;
      if nodes[n].nface != 0 {
        nodedata[n] := nodedata[n].(fbo := nextBuffer);
        nextBuffer := nextBuffer + 1;
      }
    }

    /**
     * `loadGpu(n)`: creates the vertex buffer, the face buffer when the
     * node has faces, and a texture for every map of every textured patch
     * that is not yet resident; returns the bytes this puts on the GPU.
     */
    method LoadGpu(n: nat) returns (size: nat)
      requires Valid() && n < nodedata.Length
      requires nodedata[n].memory && nodedata[n].vbo == 0
      modifies nodedata, texturedata, this`nextBuffer, this`nextTexture
      ensures Valid()
      ensures size == VertexBytes(n) + FaceBytes(n) + NewBytes(NodeMaps(n), old(texturedata[..]))
      ensures nodedata[n].memory && old(nextBuffer) <= nodedata[n].vbo
      ensures nodes[n].nface > 0 ==> old(nextBuffer) <= nodedata[n].fbo && nodedata[n].fbo != nodedata[n].vbo
      ensures nodes[n].nface == 0 ==> nodedata[n].fbo == old(nodedata[n].fbo)
      ensures forall m :: 0 <= m < nodedata.Length && m != n ==> nodedata[m] == old(nodedata[m])
      ensures LoadedUpTo(old(texturedata[..]), texturedata[..], NodeMaps(n), old(nextTexture), nextTexture)
      ensures forall j :: 0 <= j < |NodeMaps(n)| ==> texturedata[NodeMaps(n)[j]].tex != 0
      ensures NewBytes(NodeMaps(n), texturedata[..]) == 0
    {
      assert NodeInRange(n);
      ghost var maps := NodeMaps(n);
      ghost var td0 := texturedata[..];
      var node := nodes[n];
      var vertexSize := node.nvert * header.signature.vertexSize;
      var faceSize := node.nface * header.signature.faceSize;

      AllocateBuffers(n);
      size := vertexSize + faceSize;
      assert texturedata[..] == td0;
      if header.nTextures != 0 {
        size := LoadPatches(node.firstPatch, nodes[n + 1].firstPatch, size);
        assert MapsBetween(node.firstPatch, nodes[n + 1].firstPatch) == maps;
      } else {
        LoadedNothing(texturedata[..], nextTexture);
      }
      assert NodeMaps(n) == maps;
      LoadedAreResident(td0, texturedata[..], maps, old(nextTexture), nextTexture);
      NewBytesOfResident(maps, texturedata[..]);
    }

    /**
     * `dropGpu(n)`: zeroes the node's buffer names and returns its vertex
     * and face bytes; with textures it throws after the names are zeroed.
     */
    method DropGpu(n: nat) returns (r: Drop)
      requires Valid() && n < nodedata.Length
      modifies nodedata
      ensures Valid()
      ensures nodedata[n] == old(nodedata[n]).(vbo := 0, fbo := 0)
      ensures forall m :: 0 <= m < nodedata.Length && m != n ==> nodedata[m] == old(nodedata[m])
      ensures header.nTextures == 0 ==> r == Freed(VertexBytes(n) + FaceBytes(n))
      ensures header.nTextures != 0 ==> r == DropThrown("Texture groups")
    {
      var node := nodes[n];
      nodedata[n] := nodedata[n].(vbo := 0, fbo := 0);
      var vertexSize := node.nvert * header.signature.vertexSize;
      var faceSize := node.nface * header.signature.faceSize;
      var size := vertexSize + faceSize;
      if header.nTextures != 0 {
        return DropThrown("Texture groups");
      }
      r := Freed(size);
    }
  }

  /** The URI starts with `http://`. */
  predicate IsHttp(uri: string)
  {
    |uri| >= 7 && uri[..7] == "http://"
  }

  /** `url` after `open`: the URI without a leading `file://`. */
  function LocalPath(uri: string): (path: string)
    ensures |uri| >= 7 && uri[..7] == "file://" ==> uri == "file://" + path
    ensures !(|uri| >= 7 && uri[..7] == "file://") ==> path == uri
  {
    if |uri| >= 7 && uri[..7] == "file://" then uri[7..] else uri
  }

  /** Stripping the file prefix recovers the path, and an http URI is kept whole. */
  lemma LocalPathRoundTrip(path: string)
    ensures LocalPath("file://" + path) == path
    ensures IsHttp(path) ==> LocalPath(path) == path
  {
    assert ("file://" + path)[..7] == "file://";
    if IsHttp(path) {
      assert path[..7] != "file://" by {
        assert path[0..7][0] == 'h';
      }
    }
  }
}
