/**
 * The SMAA (Enhanced Subpixel Morphological Antialiasing) pass of the EEVEE
 * engine: a three-slot shader cache filled on demand, the lookup textures
 * created once, the wiring of the edge, blend-weight and resolve passes, the
 * draw order and the ping-pong exchange of the colour and reveal textures.
 *
 * GPU objects (shaders, textures, framebuffers) are opaque handles. The GPU
 * module is the class `Gpu`: it hands out handles that were never handed out
 * before and records, in `log`, the calls whose order the engine fixes.
 */
module EeveeAntialiasing {
  import opened StdVector

  /** An opaque GPU object: shader, texture or framebuffer. */
  type Handle = nat

  /** Number of SMAA stages: 0 edge detection, 1 blend weight, 2 resolve. */
  const STAGES: nat := 3

  /** Size of the buffer the stage define is printed into. */
  const STAGE_DEFINE_BUFFER: nat := 32

  /** A piece of shader source: literal text or one of the linked-in GLSL files. */
  datatype Chunk = Text(text: string) | CommonSmaaLib | AntialiasingVert | AntialiasingFrag

  /** The vertex, fragment and define lists handed to the shader compiler. */
  datatype ShaderSources = ShaderSources(vert: seq<Chunk>, frag: seq<Chunk>, defs: seq<Chunk>)

  /** The two lookup textures created from the static SMAA tables. */
  datatype LookupTexture = SearchTex | AreaTex

  /** A texture bound to a named sampler of a shading group; the texture may be null. */
  datatype Sampler = Sampler(name: string, tex: Option<Handle>)

  /**
   * A pass holding one shading group: its shader, its texture samplers,
   * whether it clears its colour target first and how many procedural
   * triangles it draws.
   */
  datatype Pass = Pass(shader: Option<Handle>, samplers: seq<Sampler>, clearsTarget: bool, triangles: nat)

  /** A framebuffer with its colour attachment (no depth attachment is used here). */
  datatype Framebuffer = Framebuffer(id: Handle, color: Option<Handle>)

  /** GPU calls whose order the engine determines. */
  datatype GpuCall =
    | CompileShader(sources: ShaderSources, result: Option<Handle>)
    | CreateLookupTexture(kind: LookupTexture, tex: Handle)
    | EnableFilter(tex: Handle)
    | CreateFramebuffer(fb: Handle)
    | FreeShader(shader: Handle)
    | BindFramebuffer(fb: Handle)
    | DrawPass(pass: Pass)

  /** `txl`: the textures that persist across frames. */
  datatype TextureList = TextureList(smaaSearchTx: Option<Handle>, smaaAreaTx: Option<Handle>)

  /** `g_data`: the per-viewport private textures. */
  datatype PrivateData = PrivateData(
    colorTx: Option<Handle>, colorLayerTx: Option<Handle>,
    revealTx: Option<Handle>, revealLayerTx: Option<Handle>,
    smaaEdgeTx: Option<Handle>, smaaWeightTx: Option<Handle>)

  /** `fbl`: the framebuffers the passes render into. */
  datatype FramebufferList = FramebufferList(
    smaaEdgeFb: Option<Framebuffer>, smaaWeightFb: Option<Framebuffer>, layerFb: Option<Framebuffer>)

  /** `psl`: the three SMAA passes. */
  datatype PassList = PassList(smaaEdgePs: Option<Pass>, smaaWeightPs: Option<Pass>, smaaResolvePs: Option<Pass>)

  /** The host GPU module: a source of new handles and a record of calls. */
  class Gpu {
    var next: nat
    var log: seq<GpuCall>

    constructor()
      ensures next == 0 && log == []
    {
      next := 0;
      log := [];
    }

    /** Creates a GPU object; its handle differs from every handle created before. */
    method NewHandle() returns (h: Handle)
      modifies this`next
      ensures h == old(next) && next == old(next) + 1
    {
      h := next;
      next := next + 1;
    }

    /**
     * `GPU_shader_create_from_arrays`: compiles a shader from `src`. The
     * compiler may reject the sources, and then the result is null.
     */
    method Compile(src: ShaderSources) returns (h: Option<Handle>)
      modifies this
      ensures h.Some? ==> h.value == old(next) && next == old(next) + 1
      ensures h.None? ==> next == old(next)
      ensures log == old(log) + [CompileShader(src, h)]
    {
      if * {
        var n := NewHandle();
        h := Some(n);
      } else {
        h := None;
      }
      log := log + [CompileShader(src, h)];
    }
  }

  /** `BLI_snprintf` into a buffer of `size` bytes: at most `size - 1` characters are kept. */
  function Snprintf(size: nat, s: string): (r: string)
    requires size > 0
    ensures |r| < size && r <= s
    ensures |s| < size ==> r == s
  {
    if |s| < size then s else s[..size - 1]
  }

  /** The `SMAA_STAGE` define of a stage, printed into its 32-byte buffer. */
  function StageDefine(stage: nat): string
    requires stage < STAGES
  {
    Snprintf(STAGE_DEFINE_BUFFER, "#define SMAA_STAGE " + [DigitChar(stage)] + "\n")
  }

  /** The define never overflows its buffer, and different stages get different defines. */
  lemma StageDefineExact(stage: nat, other: nat)
    requires stage < STAGES && other < STAGES
    ensures StageDefine(stage) == "#define SMAA_STAGE " + [DigitChar(stage)] + "\n"
    ensures |StageDefine(stage)| < STAGE_DEFINE_BUFFER
    ensures StageDefine(stage) == StageDefine(other) <==> stage == other
  {
    var s := "#define SMAA_STAGE " + [DigitChar(stage)] + "\n";
    var o := "#define SMAA_STAGE " + [DigitChar(other)] + "\n";
    assert |s| == 21 && |o| == 21;
    if stage != other {
      assert s[19] != o[19];
    }
  }

  /** The sources compiled for a stage: shared library plus the stage's own file, with the stage define last. */
  function SourcesFor(stage: nat): ShaderSources
    requires stage < STAGES
  {
    ShaderSources(
      [Text("#define SMAA_INCLUDE_VS 1\n"), Text("#define SMAA_INCLUDE_PS 0\n"),
       Text("uniform vec4 viewportMetrics;\n"), CommonSmaaLib, AntialiasingVert],
      [Text("#define SMAA_INCLUDE_VS 0\n"), Text("#define SMAA_INCLUDE_PS 1\n"),
       Text("uniform vec4 viewportMetrics;\n"), CommonSmaaLib, AntialiasingFrag],
      [Text("#define SMAA_GLSL_3\n"), Text("#define SMAA_RT_METRICS viewportMetrics\n"),
       Text("#define SMAA_PRESET_ULTRA\n"), Text(StageDefine(stage))])
  }

  /** Different stages are compiled from different sources. */
  lemma SourcesDistinct(stage: nat, other: nat)
    requires stage < STAGES && other < STAGES
    ensures SourcesFor(stage) == SourcesFor(other) <==> stage == other
  {
    StageDefineExact(stage, other);
    if SourcesFor(stage) == SourcesFor(other) {
      assert SourcesFor(stage).defs[3] == SourcesFor(other).defs[3];
    }
  }

  /** The frees `EEVEE_antialiasing_free` issues for the slots `s`, in slot order. */
  function FreeCalls(s: seq<Option<Handle>>): seq<GpuCall>
  {
    if s == [] then []
    else FreeCalls(s[..|s| - 1]) + (match s[|s| - 1] case None => [] case Some(h) => [FreeShader(h)])
  }

  /** The compile `CreatePasses` issues for `stage`: one when its slot was empty, giving the slot's new value. */
  function CompileIfEmpty(stage: nat, before: Option<Handle>, after: Option<Handle>): seq<GpuCall>
    requires stage < STAGES
  {
    if before.None? then [CompileShader(SourcesFor(stage), after)] else []
  }

  /** The lookup-texture calls of an init: when the search texture was null, both tables are created, as `first` and `first + 1`, and filtered. */
  function LookupCalls(before: Option<Handle>, first: Handle): seq<GpuCall>
  {
    if before.None? then
      [CreateLookupTexture(SearchTex, first), CreateLookupTexture(AreaTex, first + 1),
       EnableFilter(first), EnableFilter(first + 1)]
    else []
  }

  /** The creation call of a framebuffer configured by an init: one when it was null, none otherwise. */
  function FramebufferIfNull(before: Option<Framebuffer>, after: Framebuffer): seq<GpuCall>
  {
    if before.None? then [CreateFramebuffer(after.id)] else []
  }

  /** The samplers of the edge-detection pass, as the source wires them. */
  function EdgePass(sh: Option<Handle>, g: PrivateData): Pass
  {
    Pass(sh, [Sampler("colorTex", g.smaaEdgeTx), Sampler("revealTex", g.smaaWeightTx)], true, 1)
  }

  /** The samplers of the blend-weight pass. */
  function WeightPass(sh: Option<Handle>, g: PrivateData, t: TextureList): Pass
  {
    Pass(sh, [Sampler("edgesTex", g.smaaEdgeTx), Sampler("areaTex", t.smaaAreaTx),
              Sampler("searchTex", t.smaaSearchTx)], true, 1)
  }

  /** The samplers of the resolve pass; it blends into its target without clearing it. */
  function ResolvePass(sh: Option<Handle>, g: PrivateData): Pass
  {
    Pass(sh, [Sampler("blendTex", g.smaaWeightTx), Sampler("colorTex", g.colorTx),
              Sampler("revealTex", g.revealTx)], false, 1)
  }

  /** The textures a pass samples. */
  function Sampled(p: Pass): set<Option<Handle>>
  {
    set k | 0 <= k < |p.samplers| :: p.samplers[k].tex
  }

  /**
   * The wiring: the edge pass samples the edge and weight targets, the weight
   * pass the edge target and both lookup textures, the resolve pass the
   * weight target and the current colour and reveal textures; only the first
   * two clear their target, and each draws one triangle with its own shader.
   */
  lemma PassWiring(sh0: Option<Handle>, sh1: Option<Handle>, sh2: Option<Handle>, g: PrivateData, t: TextureList)
    ensures Sampled(EdgePass(sh0, g)) == {g.smaaEdgeTx, g.smaaWeightTx}
    ensures Sampled(WeightPass(sh1, g, t)) == {g.smaaEdgeTx, t.smaaAreaTx, t.smaaSearchTx}
    ensures Sampled(ResolvePass(sh2, g)) == {g.smaaWeightTx, g.colorTx, g.revealTx}
    ensures EdgePass(sh0, g).clearsTarget && WeightPass(sh1, g, t).clearsTarget
    ensures !ResolvePass(sh2, g).clearsTarget
    ensures EdgePass(sh0, g).shader == sh0 && WeightPass(sh1, g, t).shader == sh1
    ensures ResolvePass(sh2, g).shader == sh2
  {
    var e, w, r := EdgePass(sh0, g), WeightPass(sh1, g, t), ResolvePass(sh2, g);
    assert e.samplers[0].tex == g.smaaEdgeTx && e.samplers[1].tex == g.smaaWeightTx;
    assert w.samplers[0].tex == g.smaaEdgeTx && w.samplers[1].tex == t.smaaAreaTx;
    assert w.samplers[2].tex == t.smaaSearchTx;
    assert r.samplers[0].tex == g.smaaWeightTx && r.samplers[1].tex == g.colorTx;
    assert r.samplers[2].tex == g.revealTx;
  }

  /** The exchange done after every draw: current and layer textures of each pair trade places. */
  function SwapPingPong(g: PrivateData): (r: PrivateData)
    ensures r.colorTx == g.colorLayerTx && r.colorLayerTx == g.colorTx
    ensures r.revealTx == g.revealLayerTx && r.revealLayerTx == g.revealTx
    ensures r.smaaEdgeTx == g.smaaEdgeTx && r.smaaWeightTx == g.smaaWeightTx
  {
    g.(colorTx := g.colorLayerTx, colorLayerTx := g.colorTx,
       revealTx := g.revealLayerTx, revealLayerTx := g.revealTx)
  }

  /** Two exchanges restore the original assignment. */
  lemma SwapTwiceRestores(g: PrivateData)
    ensures SwapPingPong(SwapPingPong(g)) == g
  {
  }

  /** `e_data.antialiasing_sh`: one shader slot per stage, shared by all viewports. */
  class ShaderCache {
    var sh: array<Option<Handle>>

    ghost predicate Valid()
      reads this
    {
      sh.Length == STAGES
    }

    /** The static initialiser `{NULL}`: every slot empty. */
    constructor()
      ensures Valid() && fresh(sh)
      ensures sh[..] == [None, None, None]
    {
      sh := new Option<Handle>[STAGES](_ => None);
    }

    /**
     * `eevee_create_shader_antialiasing`: a filled slot is returned as it is,
     * without compiling and without touching the other slots; an empty slot
     * receives whatever compiling that stage's sources gives, so a rejected
     * compile leaves it empty and the next request compiles again.
     */
    method GetShader(stage: nat, gpu: Gpu) returns (s: Option<Handle>)
      requires Valid() && stage < STAGES
      modifies sh, gpu
      ensures Valid()
      ensures s == sh[stage]
      ensures forall k :: 0 <= k < STAGES && k != stage ==> sh[k] == old(sh[k])
      ensures old(sh[stage]).Some? ==> s == old(sh[stage]) && unchanged(gpu)
      ensures old(sh[stage]).None? ==>
        && gpu.log == old(gpu.log) + [CompileShader(SourcesFor(stage), s)]
        && (s.Some? ==> s.value == old(gpu.next) && gpu.next == old(gpu.next) + 1)
        && (s.None? ==> gpu.next == old(gpu.next))
    {
      if sh[stage].None? {
        sh[stage] := gpu.Compile(SourcesFor(stage));
      }
      s := sh[stage];
    }

    /** `EEVEE_antialiasing_free`: frees every filled slot, in slot order, and leaves all three empty. */
    method Free(gpu: Gpu)
      requires Valid()
      modifies sh, gpu`log
      ensures Valid()
      ensures sh[..] == [None, None, None]
      ensures gpu.log == old(gpu.log) + FreeCalls(old(sh[..]))
    {
      ghost var before := sh[..];
      for i := 0 to STAGES
        invariant forall k :: 0 <= k < i ==> sh[k] == None
        invariant forall k :: i <= k < STAGES ==> sh[k] == before[k]
        invariant gpu.log == old(gpu.log) + FreeCalls(before[..i])
      {
        assert before[..i + 1][..i] == before[..i];
        if sh[i].Some? {
          gpu.log := gpu.log + [FreeShader(sh[i].value)];
          sh[i] := None;
        }
      }
      assert before[..STAGES] == before;
    }
  }

  /** `EEVEE_Data`: the texture, private-data, framebuffer and pass lists of one viewport. */
  class EeveeData {
    var txl: TextureList
    var gData: PrivateData
    var fbl: FramebufferList
    var psl: PassList

    /** The lookup textures are created together, so the area texture exists whenever the search texture does. */
    ghost predicate Valid()
      reads this
    {
      txl.smaaSearchTx.Some? ==> txl.smaaAreaTx.Some?
    }

    /** Every pass and framebuffer the draw uses exists. */
    predicate Ready()
      reads this
    {
      && fbl.smaaEdgeFb.Some? && fbl.smaaWeightFb.Some? && fbl.layerFb.Some?
      && psl.smaaEdgePs.Some? && psl.smaaWeightPs.Some? && psl.smaaResolvePs.Some?
    }

    /** The draw sequence: bind the edge, weight and layer framebuffers, each followed by its pass. */
    function DrawCalls(): seq<GpuCall>
      reads this
      requires Ready()
    {
      [BindFramebuffer(fbl.smaaEdgeFb.value.id), DrawPass(psl.smaaEdgePs.value),
       BindFramebuffer(fbl.smaaWeightFb.value.id), DrawPass(psl.smaaWeightPs.value),
       BindFramebuffer(fbl.layerFb.value.id), DrawPass(psl.smaaResolvePs.value)]
    }

    /** A viewport's data as the engine hands it over: the colour and reveal textures and the layer framebuffer. */
    constructor(colorTx: Option<Handle>, colorLayerTx: Option<Handle>,
                revealTx: Option<Handle>, revealLayerTx: Option<Handle>, layerFb: Option<Framebuffer>)
      ensures Valid()
      ensures txl == TextureList(None, None)
      ensures gData == PrivateData(colorTx, colorLayerTx, revealTx, revealLayerTx, None, None)
      ensures fbl == FramebufferList(None, None, layerFb)
      ensures psl == PassList(None, None, None)
    {
      txl := TextureList(None, None);
      gData := PrivateData(colorTx, colorLayerTx, revealTx, revealLayerTx, None, None);
      fbl := FramebufferList(None, None, layerFb);
      psl := PassList(None, None, None);
    }

    /** `GPU_framebuffer_ensure_config` with one colour attachment: creates the framebuffer only when it is null. */
    static method EnsureFramebuffer(fb: Option<Framebuffer>, tex: Handle, gpu: Gpu) returns (r: Framebuffer)
      modifies gpu
      ensures r.color == Some(tex)
      ensures fb.Some? ==> r.id == fb.value.id && unchanged(gpu)
      ensures fb.None? ==>
        && r.id == old(gpu.next) && gpu.next == old(gpu.next) + 1
        && gpu.log == old(gpu.log) + [CreateFramebuffer(r.id)]
    {
      if fb.Some? {
        r := Framebuffer(fb.value.id, Some(tex));
      } else {
        var id := gpu.NewHandle();
        gpu.log := gpu.log + [CreateFramebuffer(id)];
        r := Framebuffer(id, Some(tex));
      }
    }

    /**
     * The guard of `EEVEE_antialiasing_init`: the search and area textures
     * are created, and their filtering turned on, only when the search
     * texture is null; otherwise nothing happens.
     */
    method EnsureLookupTextures(gpu: Gpu)
      requires Valid()
      modifies this`txl, gpu
      ensures Valid() && txl.smaaSearchTx.Some? && txl.smaaAreaTx.Some?
      ensures old(txl.smaaSearchTx).Some? ==> txl == old(txl) && unchanged(gpu)
      ensures old(txl.smaaSearchTx).None? ==>
        var search, area := old(gpu.next), old(gpu.next) + 1;
        && txl == TextureList(Some(search), Some(area))
        && gpu.next == old(gpu.next) + 2
        && gpu.log == old(gpu.log) + [CreateLookupTexture(SearchTex, search), CreateLookupTexture(AreaTex, area),
                                      EnableFilter(search), EnableFilter(area)]
    {
      if txl.smaaSearchTx.None? {
        var search := gpu.NewHandle();
        gpu.log := gpu.log + [CreateLookupTexture(SearchTex, search)];
        var area := gpu.NewHandle();
        gpu.log := gpu.log + [CreateLookupTexture(AreaTex, area)];
        gpu.log := gpu.log + [EnableFilter(search), EnableFilter(area)];
        txl := TextureList(Some(search), Some(area));
      }
    }

    /** The edge and weight targets are the textures the pool returns; the two SMAA framebuffers are configured on them. */
    method SetupTargets(gpu: Gpu, poolEdgeTx: Handle, poolWeightTx: Handle)
      modifies this`gData, this`fbl, gpu
      ensures gData == old(gData).(smaaEdgeTx := Some(poolEdgeTx), smaaWeightTx := Some(poolWeightTx))
      ensures fbl.layerFb == old(fbl.layerFb)
      ensures fbl.smaaEdgeFb.Some? && fbl.smaaEdgeFb.value.color == Some(poolEdgeTx)
      ensures fbl.smaaWeightFb.Some? && fbl.smaaWeightFb.value.color == Some(poolWeightTx)
      ensures old(fbl.smaaEdgeFb).Some? ==> fbl.smaaEdgeFb.value.id == old(fbl.smaaEdgeFb.value.id)
      ensures old(fbl.smaaWeightFb).Some? ==> fbl.smaaWeightFb.value.id == old(fbl.smaaWeightFb.value.id)
      ensures gpu.log == old(gpu.log) + FramebufferIfNull(old(fbl.smaaEdgeFb), fbl.smaaEdgeFb.value)
                                      + FramebufferIfNull(old(fbl.smaaWeightFb), fbl.smaaWeightFb.value)
    {
      gData := gData.(smaaEdgeTx := Some(poolEdgeTx), smaaWeightTx := Some(poolWeightTx));
      var edgeFb := EnsureFramebuffer(fbl.smaaEdgeFb, poolEdgeTx, gpu);
      var weightFb := EnsureFramebuffer(fbl.smaaWeightFb, poolWeightTx, gpu);
      fbl := fbl.(smaaEdgeFb := Some(edgeFb), smaaWeightFb := Some(weightFb));
    }

    /**
     * The three passes are rebuilt on the shaders of stages 0, 1 and 2: a
     * cached shader is reused, an empty slot is compiled in stage order, and a
     * pass whose compile was rejected is built on the null shader.
     */
    method CreatePasses(cache: ShaderCache, gpu: Gpu)
      requires cache.Valid()
      modifies this`psl, cache.sh, gpu
      ensures cache.Valid()
      ensures forall k :: 0 <= k < STAGES && old(cache.sh[k]).Some? ==> cache.sh[k] == old(cache.sh[k])
      ensures gpu.log == old(gpu.log) + CompileIfEmpty(0, old(cache.sh[0]), cache.sh[0])
                                      + CompileIfEmpty(1, old(cache.sh[1]), cache.sh[1])
                                      + CompileIfEmpty(2, old(cache.sh[2]), cache.sh[2])
      ensures psl == PassList(Some(EdgePass(cache.sh[0], gData)),
                              Some(WeightPass(cache.sh[1], gData, txl)),
                              Some(ResolvePass(cache.sh[2], gData)))
    {
      ghost var log0 := gpu.log;
      var sh0 := cache.GetShader(0, gpu);
      ghost var log1 := gpu.log;
      var sh1 := cache.GetShader(1, gpu);
      ghost var log2 := gpu.log;
      assert cache.sh[0] == sh0;
      var sh2 := cache.GetShader(2, gpu);
      assert cache.sh[0] == sh0 && cache.sh[1] == sh1 && cache.sh[2] == sh2;
      assert log1 == log0 + CompileIfEmpty(0, old(cache.sh[0]), sh0);
      assert log2 == log1 + CompileIfEmpty(1, old(cache.sh[1]), sh1);
      assert gpu.log == log2 + CompileIfEmpty(2, old(cache.sh[2]), sh2);
      psl := PassList(Some(EdgePass(sh0, gData)), Some(WeightPass(sh1, gData, txl)),
                      Some(ResolvePass(sh2, gData)));
    }

    /**
     * `EEVEE_antialiasing_init`: the lookup textures are created once, the
     * targets and framebuffers are set up for the pool's textures, and the
     * three passes are rebuilt with the cached shaders, compiling the empty
     * slots. An init that finds everything already made issues no GPU call.
     */
    method Init(cache: ShaderCache, gpu: Gpu, poolEdgeTx: Handle, poolWeightTx: Handle)
      requires Valid() && cache.Valid()
      requires gData.colorLayerTx.Some? && gData.revealLayerTx.Some?
      modifies this, cache.sh, gpu
      ensures Valid() && cache.Valid()
      ensures txl.smaaSearchTx.Some? && txl.smaaAreaTx.Some?
      ensures old(txl.smaaSearchTx).Some? ==> txl == old(txl)
      ensures old(txl.smaaSearchTx).None? ==>
        txl == TextureList(Some(old(gpu.next)), Some(old(gpu.next) + 1))
      ensures gData == old(gData).(smaaEdgeTx := Some(poolEdgeTx), smaaWeightTx := Some(poolWeightTx))
      ensures fbl.layerFb == old(fbl.layerFb)
      ensures fbl.smaaEdgeFb.Some? && fbl.smaaEdgeFb.value.color == Some(poolEdgeTx)
      ensures fbl.smaaWeightFb.Some? && fbl.smaaWeightFb.value.color == Some(poolWeightTx)
      ensures old(fbl.smaaEdgeFb).Some? ==> fbl.smaaEdgeFb.value.id == old(fbl.smaaEdgeFb.value.id)
      ensures old(fbl.smaaWeightFb).Some? ==> fbl.smaaWeightFb.value.id == old(fbl.smaaWeightFb.value.id)
      ensures forall k :: 0 <= k < STAGES && old(cache.sh[k]).Some? ==> cache.sh[k] == old(cache.sh[k])
      ensures psl == PassList(Some(EdgePass(cache.sh[0], gData)),
                              Some(WeightPass(cache.sh[1], gData, txl)),
                              Some(ResolvePass(cache.sh[2], gData)))
      ensures old(fbl.layerFb).Some? ==> Ready()
      ensures gpu.log == old(gpu.log) + LookupCalls(old(txl.smaaSearchTx), old(gpu.next))
                                      + FramebufferIfNull(old(fbl.smaaEdgeFb), fbl.smaaEdgeFb.value)
                                      + FramebufferIfNull(old(fbl.smaaWeightFb), fbl.smaaWeightFb.value)
                                      + CompileIfEmpty(0, old(cache.sh[0]), cache.sh[0])
                                      + CompileIfEmpty(1, old(cache.sh[1]), cache.sh[1])
                                      + CompileIfEmpty(2, old(cache.sh[2]), cache.sh[2])
      ensures (&& old(txl.smaaSearchTx).Some? && old(fbl.smaaEdgeFb).Some? && old(fbl.smaaWeightFb).Some?
               && forall k :: 0 <= k < STAGES ==> old(cache.sh[k]).Some?)
              ==> gpu.log == old(gpu.log)
    {
      ghost var log0 := gpu.log;
      EnsureLookupTextures(gpu);
      ghost var log1 := gpu.log;
      assert log1 == log0 + LookupCalls(old(txl.smaaSearchTx), old(gpu.next));
      SetupTargets(gpu, poolEdgeTx, poolWeightTx);
      CreatePasses(cache, gpu);
    }

    /**
     * `EEVEE_antialiasing_draw`: the three passes, each after binding its
     * framebuffer, in the fixed order edge, weight, resolve; then the colour
     * and reveal pairs are exchanged and nothing else changes.
     */
    method Draw(gpu: Gpu)
      requires Ready()
      modifies this`gData, gpu`log
      ensures gpu.log == old(gpu.log) + DrawCalls()
      ensures gData == SwapPingPong(old(gData))
    {
      gpu.log := gpu.log + [BindFramebuffer(fbl.smaaEdgeFb.value.id), DrawPass(psl.smaaEdgePs.value)];
      gpu.log := gpu.log + [BindFramebuffer(fbl.smaaWeightFb.value.id), DrawPass(psl.smaaWeightPs.value)];
      gpu.log := gpu.log + [BindFramebuffer(fbl.layerFb.value.id), DrawPass(psl.smaaResolvePs.value)];
      gData := gData.(colorTx := gData.colorLayerTx, colorLayerTx := gData.colorTx);
      gData := gData.(revealTx := gData.revealLayerTx, revealLayerTx := gData.revealTx);
    }
  }

  /** Two draws leave the colour and reveal assignment as it was and issue the same six calls twice. */
  method DrawTwiceRestores(e: EeveeData, gpu: Gpu)
    requires e.Ready()
    modifies e`gData, gpu`log
    ensures e.gData == old(e.gData)
    ensures gpu.log == old(gpu.log) + e.DrawCalls() + e.DrawCalls()
  {
    e.Draw(gpu);
    e.Draw(gpu);
    SwapTwiceRestores(old(e.gData));
  }

  /**
   * Two requests for a stage: when the first one gives a shader, the second
   * returns it without compiling; when the first compile is rejected, the
   * second request compiles the same sources again.
   */
  method RequestTwice(cache: ShaderCache, gpu: Gpu, stage: nat) returns (first: Option<Handle>, again: Option<Handle>)
    requires cache.Valid() && stage < STAGES
    modifies cache.sh, gpu
    ensures cache.Valid() && cache.sh[stage] == again
    ensures first.Some? ==> again == first
    ensures old(cache.sh[stage]).Some? ==> gpu.log == old(gpu.log)
    ensures first.Some? && old(cache.sh[stage]).None? ==>
      gpu.log == old(gpu.log) + [CompileShader(SourcesFor(stage), first)]
    ensures first.None? ==>
      gpu.log == old(gpu.log) + [CompileShader(SourcesFor(stage), None), CompileShader(SourcesFor(stage), again)]
  {
    first := cache.GetShader(stage, gpu);
    again := cache.GetShader(stage, gpu);
  }

  /** After a free, the next request for a stage compiles its sources again, and a shader it gives is a new one. */
  method FreeThenRebuild(cache: ShaderCache, gpu: Gpu, stage: nat) returns (before: Option<Handle>, rebuilt: Option<Handle>)
    requires cache.Valid() && stage < STAGES
    requires forall k :: 0 <= k < STAGES && cache.sh[k].Some? ==> cache.sh[k].value < gpu.next
    modifies cache.sh, gpu
    ensures cache.Valid() && cache.sh[stage] == rebuilt
    ensures forall k :: 0 <= k < STAGES && k != stage ==> cache.sh[k] == None
    ensures before.Some? && rebuilt.Some? ==> rebuilt.value != before.value
    ensures |gpu.log| > 0 && gpu.log[|gpu.log| - 1] == CompileShader(SourcesFor(stage), rebuilt)
  {
    before := cache.sh[stage];
    cache.Free(gpu);
    rebuilt := cache.GetShader(stage, gpu);
  }
}
