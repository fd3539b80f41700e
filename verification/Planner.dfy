/** The GPU capacity planner: which weight format, tensor-parallel size, context
    length and concurrency a node can serve a model with. Sizes are in bytes;
    the planner's float constants are exact ratios rounded down. */
module Planner {
  import opened Options
  import opened Arithmetic

  // ----- Hardware and model -----

  datatype Gpu = Gpu(name: string, vram: nat)

  datatype Cuda = Cuda(major: int, minor: int)

  datatype Node = Node(gpus: seq<Gpu>, ram: nat, diskFree: nat,
                       driver: Option<Cuda>, torch: Option<Cuda>)

  datatype Arch = Arch(name: string, bf16: bool, fp8: bool, fp8Weights: bool,
                       nvfp4: bool, int4: bool, crippledFp16: bool, fp8Kv: bool)

  datatype Info = Info(params: nat, checkpointBytes: nat, published: Option<Format>,
                       numLayers: nat, fullAttentionLayers: nat, numKvHeads: nat,
                       headDim: nat, maxPositions: int,
                       isMla: bool, isMoe: bool, isHybrid: bool)

  datatype Blocker = CudaTooOld | FormatUnsupported | WeightsOverflow | StreamExperts
                   | UseSmallerFormat | DiskTooSmall | HostRamTooSmall

  datatype Plan = Plan(quantization: Option<Format>, fromCheckpoint: bool, kvFp8: bool,
                       tensorParallel: nat, maxModelLen: nat, maxNumSeqs: nat,
                       weightBytes: nat, kvPerToken: nat, kvBudget: int, diskBytes: nat,
                       needsQuantized: bool, canStreamExperts: bool,
                       runnableQuants: seq<Format>, blockers: seq<Blocker>,
                       fits: bool, viable: bool)

  predicate OlderThan(a: Option<Cuda>, b: Option<Cuda>) {
    a.Some? && b.Some?
    && if a.value.major != b.value.major then a.value.major < b.value.major
       else a.value.minor < b.value.minor
  }

  function TotalVram(gpus: seq<Gpu>): nat {
    if gpus == [] then 0 else gpus[0].vram + TotalVram(gpus[1..])
  }

  // ----- Weight formats -----

  /** Checkpoint format names, as a checkpoint's configuration spells them. */
  datatype Format = Fp32 | Float32 | Bf16 | Fp16 | Float16 | Bfloat16
                  | Fp8 | FbgemmFp8 | Int8
                  | Awq | AwqMarlin | Gptq | GptqMarlin | Int4
                  | Nvfp4 | ModeloptFp4 | Mxfp4 | Fp4
                  | Q4KM | Q80 | CompressedTensors | Other(name: string)

  /** Bytes per hundred parameters. */
  function QuantPercent(quant: Format): nat {
    match quant
    case Fp32 | Float32 => 400
    case Bf16 | Fp16 | Float16 | Bfloat16 => 200
    case Fp8 | Int8 => 100
    case Awq | Gptq | Int4 | Nvfp4 | Fp4 => 60
    case Q4KM => 58
    case Q80 => 106
    case _ => 200
  }

  function CanonicalQuant(published: Format): Format {
    match published
    case Fp8 | FbgemmFp8 => Fp8
    case Awq | AwqMarlin => Awq
    case Gptq | GptqMarlin => Gptq
    case ModeloptFp4 | Nvfp4 | Mxfp4 => Nvfp4
    case _ => published
  }

  predicate CanRun(a: Arch, quant: Format) {
    match quant
    case Fp8 | CompressedTensors => a.fp8 || a.fp8Weights
    case Awq | Gptq => a.int4
    case Nvfp4 => a.nvfp4
    case Bf16 => a.bf16
    case _ => true
  }

  function NativePrecision(a: Arch): Format {
    if a.crippledFp16 then Fp32 else if a.bf16 then Bf16 else Fp16
  }

  function FormatOf(info: Info, a: Arch): Format {
    if info.published.Some? then CanonicalQuant(info.published.value) else NativePrecision(a)
  }

  function SizeAt(params: nat, quant: Format): nat {
    params * QuantPercent(quant) / 100
  }

  function WeightBytes(info: Info, quant: Format, asPublished: bool): nat {
    if asPublished && info.checkpointBytes > 0 then info.checkpointBytes
    else SizeAt(info.params, quant)
  }

  function DownloadBytes(info: Info, quant: Format): nat {
    SizeAt(info.params, quant) + 0x8000_0000
  }

  function KvBytesPerToken(info: Info): nat {
    if info.numLayers == 0 || info.numKvHeads == 0 || info.headDim == 0 then 0
    else
      var layers := if info.fullAttentionLayers == 0 then info.numLayers else info.fullAttentionLayers;
      4 * layers * info.numKvHeads * info.headDim
  }

  predicate KnownGeometry(info: Info) {
    info.numLayers > 0 && info.numKvHeads > 0 && info.headDim > 0
  }

  /** What one cached token costs, at fp8 where the hardware stores the cache so. */
  function KvCost(info: Info, a: Arch): nat {
    if a.fp8Kv && !info.isHybrid then KvBytesPerToken(info) / 2 else KvBytesPerToken(info)
  }

  lemma ProductIsPositive(a: nat, b: nat, c: nat)
    requires a > 0 && b > 0 && c > 0
    ensures a * b * c > 0
  {
    assert a * b > 0;
  }

  /** A token costs nothing exactly when the attention geometry is unknown. */
  lemma KvCostIsZeroIff(info: Info, a: Arch)
    ensures KvCost(info, a) == 0 <==> !KnownGeometry(info)
  {
    if KnownGeometry(info) {
      var layers := if info.fullAttentionLayers == 0 then info.numLayers else info.fullAttentionLayers;
      ProductIsPositive(layers, info.numKvHeads, info.headDim);
      assert 4 * layers * info.numKvHeads * info.headDim == 4 * (layers * info.numKvHeads * info.headDim);
    }
  }

  /** `n` times `c`, added up. */
  function Repeat(n: nat, c: nat): nat {
    if n == 0 then 0 else Repeat(n - 1, c) + c
  }

  lemma RepeatIsProduct(n: nat, c: nat)
    ensures Repeat(n, c) == n * c
  {
    if n > 0 {
      RepeatIsProduct(n - 1, c);
      assert n * c == (n - 1) * c + c;
    }
  }

  /** The layers that keep a growing cache: all of them unless a number is given. */
  function CachingLayers(info: Info): nat {
    if info.fullAttentionLayers > 0 then info.fullAttentionLayers else info.numLayers
  }

  /** What one cached token takes at `width` bytes an element: for each caching layer, each KV head and
      each of its positions, a key and a value. */
  function TokenBytes(info: Info, width: nat): nat {
    Repeat(CachingLayers(info), Repeat(info.numKvHeads, Repeat(info.headDim, width + width)))
  }

  lemma MulAssoc(a: nat, b: nat, c: nat)
    ensures a * (b * c) == (a * b) * c
  {
  }

  lemma TokenBytesProduct(layers: nat, heads: nat, dim: nat, c: nat)
    ensures Repeat(layers, Repeat(heads, Repeat(dim, c))) == (layers * heads * dim) * c
  {
    RepeatIsProduct(dim, c);
    RepeatIsProduct(heads, dim * c);
    RepeatIsProduct(layers, heads * (dim * c));
    MulAssoc(heads, dim, c);
    MulAssoc(layers, heads * dim, c);
    MulAssoc(layers, heads, dim);
  }

  lemma KvBytesProduct(layers: nat, heads: nat, dim: nat)
    ensures 4 * layers * heads * dim == 4 * (layers * heads * dim)
  {
  }

  /** Where the geometry is known, a token costs a key and a value of two bytes an element, or of one
      byte where the cache is stored at fp8. */
  lemma KvCostIsSum(info: Info, a: Arch)
    requires KnownGeometry(info)
    ensures KvCost(info, a) == TokenBytes(info, if a.fp8Kv && !info.isHybrid then 1 else 2)
  {
    var layers := CachingLayers(info);
    TokenBytesProduct(layers, info.numKvHeads, info.headDim, 4);
    TokenBytesProduct(layers, info.numKvHeads, info.headDim, 2);
    KvBytesProduct(layers, info.numKvHeads, info.headDim);
  }

  /** What a hundred parameters weigh in each format: four, two and one bytes each, and for the packed
      formats their bits with the scales. */
  lemma FormatSizes(n: nat)
    ensures SizeAt(n, Fp32) == SizeAt(n, Float32) == 4 * n
    ensures SizeAt(n, Bf16) == SizeAt(n, Fp16) == SizeAt(n, Float16) == SizeAt(n, Bfloat16) == 2 * n
    ensures SizeAt(n, Fp8) == SizeAt(n, Int8) == n
    ensures SizeAt(100 * n, Awq) == SizeAt(100 * n, Gptq) == SizeAt(100 * n, Int4) == 60 * n
    ensures SizeAt(100 * n, Nvfp4) == SizeAt(100 * n, Fp4) == 60 * n
    ensures SizeAt(100 * n, Q4KM) == 58 * n && SizeAt(100 * n, Q80) == 106 * n
    ensures SizeAt(n, CompressedTensors) == 2 * n && forall name :: SizeAt(n, Other(name)) == 2 * n
  {
  }

  /** Canonical names stay as they are, and only spellings of one format are identified. */
  lemma CanonicalNames(f: Format)
    ensures CanonicalQuant(CanonicalQuant(f)) == CanonicalQuant(f)
    ensures CanonicalQuant(f) == Fp8 <==> f in {Fp8, FbgemmFp8}
    ensures CanonicalQuant(f) == Awq <==> f in {Awq, AwqMarlin}
    ensures CanonicalQuant(f) == Gptq <==> f in {Gptq, GptqMarlin}
    ensures CanonicalQuant(f) == Nvfp4 <==> f in {Nvfp4, ModeloptFp4, Mxfp4}
    ensures f !in {FbgemmFp8, AwqMarlin, GptqMarlin, ModeloptFp4, Mxfp4} ==> CanonicalQuant(f) == f
  {
  }

  /** A measured checkpoint weighs what was measured; any other is sized by its parameters. */
  lemma WeightsMean(info: Info, quant: Format, asPublished: bool)
    ensures asPublished && info.checkpointBytes > 0 ==> WeightBytes(info, quant, asPublished) == info.checkpointBytes
    ensures !asPublished || info.checkpointBytes == 0 ==>
              100 * WeightBytes(info, quant, asPublished) <= info.params * QuantPercent(quant)
              < 100 * WeightBytes(info, quant, asPublished) + 100
  {
  }

  /** A known driver is too old for a known build exactly when its version is lower, major number
      first; an unknown version never is. */
  lemma OlderMeans(a: Option<Cuda>, b: Option<Cuda>)
    ensures OlderThan(a, b) <==>
            a.Some? && b.Some? && (a.value.major < b.value.major || (a.value.major == b.value.major && a.value.minor < b.value.minor))
    ensures OlderThan(a, b) ==> !OlderThan(b, a)
  {
  }

  /** An unquantized checkpoint is always in a format its hardware runs. */
  lemma NativeAlwaysRuns(a: Arch)
    ensures CanRun(a, NativePrecision(a))
  {
  }

  // ----- Tensor parallelism -----

  /** `tp` cards can share the model: it divides the GPU count and the KV heads
      (no KV-head rule when `kvHeads` is 0). */
  predicate Splits(gpus: nat, kvHeads: nat, tp: nat) {
    tp > 0 && gpus % tp == 0 && (kvHeads == 0 || kvHeads % tp == 0)
  }

  ghost predicate IsLargestSplit(gpus: nat, kvHeads: nat, tp: nat) {
    Splits(gpus, kvHeads, tp) && tp <= gpus
    && forall t: nat :: Splits(gpus, kvHeads, t) && t <= gpus ==> t <= tp
  }

  method LargestValidTP(gpus: nat, kvHeads: nat) returns (tp: nat)
    requires gpus > 0
    ensures IsLargestSplit(gpus, kvHeads, tp)
    ensures tp == TpSize(gpus, kvHeads)
  {
    tp := 1;
    if gpus > 1 {
      var t := gpus;
      while t > 1
        invariant 1 <= t <= gpus
        invariant forall u: nat :: t < u <= gpus ==> !Splits(gpus, kvHeads, u)
      {
        if gpus % t == 0 && (kvHeads == 0 || kvHeads % t == 0) {
          tp := t;
          break;
        }
        t := t - 1;
      }
      assert Splits(gpus, kvHeads, tp);
    }
  }

  ghost function TpSize(gpus: nat, kvHeads: nat): (tp: nat)
    requires gpus > 0
    ensures IsLargestSplit(gpus, kvHeads, tp)
  {
    LargestSplitExists(gpus, kvHeads, gpus);
    var tp: nat :| IsLargestSplit(gpus, kvHeads, tp);
    tp
  }

  lemma LargestSplitExists(gpus: nat, kvHeads: nat, bound: nat)
    requires 1 <= bound <= gpus
    requires forall u: nat :: bound < u <= gpus ==> !Splits(gpus, kvHeads, u)
    ensures exists tp: nat :: IsLargestSplit(gpus, kvHeads, tp)
  {
    if Splits(gpus, kvHeads, bound) {
      assert IsLargestSplit(gpus, kvHeads, bound);
    } else {
      assert Splits(gpus, kvHeads, 1);
      LargestSplitExists(gpus, kvHeads, bound - 1);
    }
  }

  /** Latent attention has no KV-head rule: every card of the node is used. */
  lemma LatentAttentionUsesEveryGpu(gpus: nat)
    requires gpus > 0
    ensures TpSize(gpus, 0) == gpus
  {
    assert Splits(gpus, 0, gpus);
  }

  // ----- Folding a node's cards -----

  datatype Feature = HasBf16 | HasFp8 | LoadsFp8 | HasNvfp4 | HasInt4 | FullRateFp16 | CachesFp8

  predicate Has(a: Arch, f: Feature) {
    match f
    case HasBf16 => a.bf16
    case HasFp8 => a.fp8
    case LoadsFp8 => a.fp8Weights
    case HasNvfp4 => a.nvfp4
    case HasInt4 => a.int4
    case FullRateFp16 => !a.crippledFp16
    case CachesFp8 => a.fp8Kv
  }

  ghost predicate AllHave(gpus: seq<Gpu>, archOf: string -> Arch, f: Feature) {
    forall g :: g in gpus ==> Has(archOf(g.name), f)
  }

  ghost predicate AllNamed(gpus: seq<Gpu>, archOf: string -> Arch, name: string) {
    forall g :: g in gpus ==> archOf(g.name).name == name
  }

  lemma AllHaveOneMore(gpus: seq<Gpu>, g: Gpu, archOf: string -> Arch, f: Feature)
    ensures AllHave(gpus + [g], archOf, f) <==> AllHave(gpus, archOf, f) && Has(archOf(g.name), f)
  {
    assert g in gpus + [g];
    assert forall x :: x in gpus ==> x in gpus + [g];
  }

  lemma AllNamedOneMore(gpus: seq<Gpu>, g: Gpu, archOf: string -> Arch, name: string)
    ensures AllNamed(gpus + [g], archOf, name) <==> AllNamed(gpus, archOf, name) && archOf(g.name).name == name
  {
    assert g in gpus + [g];
    assert forall x :: x in gpus ==> x in gpus + [g];
  }

  function Weaken(out: Arch, a: Arch): Arch {
    Arch(if a.name != out.name then "mixed" else out.name,
         out.bf16 && a.bf16, out.fp8 && a.fp8, out.fp8Weights && a.fp8Weights,
         out.nvfp4 && a.nvfp4, out.int4 && a.int4,
         out.crippledFp16 || a.crippledFp16, out.fp8Kv && a.fp8Kv)
  }

  function NodeArch(gpus: seq<Gpu>, archOf: string -> Arch): (a: Arch)
    requires |gpus| > 0
  {
    var n := |gpus| - 1;
    if n == 0 then archOf(gpus[0].name) else Weaken(NodeArch(gpus[..n], archOf), archOf(gpus[n].name))
  }

  /** A node has a feature exactly when all its cards have it, so one card with
      crippled fp16 cripples the node; cards of different generations are "mixed". */
  lemma {:induction false} NodeArchIsWeakestCard(gpus: seq<Gpu>, archOf: string -> Arch)
    requires |gpus| > 0
    ensures forall f :: Has(NodeArch(gpus, archOf), f) <==> AllHave(gpus, archOf, f)
    ensures var first := archOf(gpus[0].name).name;
            NodeArch(gpus, archOf).name == if AllNamed(gpus, archOf, first) then first else "mixed"
  {
    var n := |gpus| - 1;
    var init, last := gpus[..n], gpus[n];
    assert gpus == init + [last];
    if n == 0 {
      assert forall x :: x in gpus <==> x == last;
    } else {
      NodeArchIsWeakestCard(init, archOf);
      AllNamedOneMore(init, last, archOf, archOf(gpus[0].name).name);
      forall f ensures Has(NodeArch(gpus, archOf), f) <==> AllHave(gpus, archOf, f) {
        AllHaveOneMore(init, last, archOf, f);
      }
    }
  }

  /** Which feature of an architecture each format needs. */
  lemma RunsIff(a: Arch, f: Format)
    ensures f == Fp8 || f == CompressedTensors ==> (CanRun(a, f) <==> Has(a, HasFp8) || Has(a, LoadsFp8))
    ensures f == Awq || f == Gptq ==> (CanRun(a, f) <==> Has(a, HasInt4))
    ensures f == Nvfp4 ==> (CanRun(a, f) <==> Has(a, HasNvfp4))
    ensures f == Bf16 ==> (CanRun(a, f) <==> Has(a, HasBf16))
    ensures f !in {Fp8, CompressedTensors, Awq, Gptq, Nvfp4, Bf16} ==> CanRun(a, f)
  {
  }

  /** So a node runs a format exactly when all its cards have the kernels for it. */
  lemma NodeRunsIff(gpus: seq<Gpu>, archOf: string -> Arch)
    requires |gpus| > 0
    ensures var a := NodeArch(gpus, archOf);
            && (CanRun(a, Fp8) <==> AllHave(gpus, archOf, HasFp8) || AllHave(gpus, archOf, LoadsFp8))
            && (CanRun(a, Awq) <==> AllHave(gpus, archOf, HasInt4))
            && (CanRun(a, Nvfp4) <==> AllHave(gpus, archOf, HasNvfp4))
            && (CanRun(a, Bf16) <==> AllHave(gpus, archOf, HasBf16))
  {
    NodeArchIsWeakestCard(gpus, archOf);
    var a := NodeArch(gpus, archOf);
    RunsIff(a, Fp8);
    RunsIff(a, Awq);
    RunsIff(a, Nvfp4);
    RunsIff(a, Bf16);
  }

  /** A full-precision checkpoint is served at fp32 on a node with a card of crippled fp16, else at bf16
      where all cards have it, else at fp16. */
  lemma NativeIs(gpus: seq<Gpu>, archOf: string -> Arch)
    requires |gpus| > 0
    ensures NativePrecision(NodeArch(gpus, archOf)) ==
            if !AllHave(gpus, archOf, FullRateFp16) then Fp32
            else if AllHave(gpus, archOf, HasBf16) then Bf16 else Fp16
  {
    NodeArchIsWeakestCard(gpus, archOf);
    var a := NodeArch(gpus, archOf);
    assert Has(a, FullRateFp16) == !a.crippledFp16 && Has(a, HasBf16) == a.bf16;
  }

  method FoldArch(gpus: seq<Gpu>, archOf: string -> Arch) returns (out: Arch)
    requires |gpus| > 0
    ensures out == NodeArch(gpus, archOf)
    ensures forall f :: Has(out, f) <==> AllHave(gpus, archOf, f)
  {
    out := archOf(gpus[0].name);
    for i := 1 to |gpus|
      invariant out == NodeArch(gpus[..i], archOf)
    {
      assert gpus[..i + 1][..i] == gpus[..i];
      out := Weaken(out, archOf(gpus[i].name));
    }
    assert gpus[..|gpus|] == gpus;
    NodeArchIsWeakestCard(gpus, archOf);
  }

  /** What the scan over the cards computes: zero is its "nothing seen yet", so a
      card reporting no memory makes it start over. */
  function Smallest(gpus: seq<Gpu>): (m: nat)
  {
    if gpus == [] then 0
    else
      var before := Smallest(gpus[..|gpus| - 1]);
      var v := gpus[|gpus| - 1].vram;
      if before == 0 || v < before then v else before
  }

  method PerGpuVram(gpus: seq<Gpu>) returns (m: nat)
    ensures m == Smallest(gpus)
  {
    m := 0;
    for i := 0 to |gpus|
      invariant m == Smallest(gpus[..i])
    {
      assert gpus[..i + 1][..i] == gpus[..i];
      if m == 0 || gpus[i].vram < m {
        m := gpus[i].vram;
      }
    }
    assert gpus[..|gpus|] == gpus;
  }

  ghost predicate AllReport(gpus: seq<Gpu>) {
    forall i :: 0 <= i < |gpus| ==> gpus[i].vram > 0
  }

  ghost predicate IsMinimum(gpus: seq<Gpu>, m: nat) {
    (exists i :: 0 <= i < |gpus| && gpus[i].vram == m)
    && forall i :: 0 <= i < |gpus| ==> m <= gpus[i].vram
  }

  /** The scan finds the smallest card exactly when every card reports some memory,
      or the last card reports none. */
  lemma {:induction false} SmallestIsMinimumIff(gpus: seq<Gpu>)
    requires |gpus| > 0
    ensures IsMinimum(gpus, Smallest(gpus)) <==> AllReport(gpus) || gpus[|gpus| - 1].vram == 0
    ensures AllReport(gpus) ==> Smallest(gpus) > 0
  {
    var n := |gpus| - 1;
    var init, last := gpus[..n], gpus[n];
    if n > 0 {
      SmallestIsMinimumIff(init);
      if AllReport(gpus) {
        assert AllReport(init);
        assert IsMinimum(init, Smallest(init));
        var i :| 0 <= i < n && init[i].vram == Smallest(init);
        assert gpus[i] == init[i] && gpus[n] == last;
        assert forall k :: 0 <= k < n ==> init[k] == gpus[k];
      } else if last.vram > 0 {
        var i :| 0 <= i < |gpus| && gpus[i].vram == 0;
        assert init[i] == gpus[i];
        assert Smallest(gpus) > 0;
      } else {
        assert Smallest(gpus) == 0;
      }
    } else {
      assert Smallest(gpus) == last.vram;
      assert gpus[0] == last;
    }
  }

  lemma {:induction false} TotalCovers(gpus: seq<Gpu>, m: nat)
    requires forall i :: 0 <= i < |gpus| ==> m <= gpus[i].vram
    ensures |gpus| * m <= TotalVram(gpus)
  {
    if gpus != [] {
      assert forall i :: 0 <= i < |gpus| - 1 ==> gpus[1..][i] == gpus[i + 1];
      TotalCovers(gpus[1..], m);
      assert |gpus| * m == m + (|gpus| - 1) * m;
    }
  }

  // ----- Memory the engine may use -----

  ghost function TpOf(info: Info, node: Node): (tp: nat)
    requires |node.gpus| > 0
    ensures 1 <= tp <= |node.gpus|
  {
    TpSize(|node.gpus|, if info.isMla then 0 else info.numKvHeads)
  }

  ghost function Usable(info: Info, node: Node): nat
    requires |node.gpus| > 0
  {
    Smallest(node.gpus) * TpOf(info, node) * 9 / 10
  }

  /** Where every card reports its memory, the planner's budget is nine tenths of
      the shards' memory and the node really has it. */
  lemma BudgetIsReal(info: Info, node: Node)
    requires |node.gpus| > 0 && AllReport(node.gpus)
    ensures IsMinimum(node.gpus, Smallest(node.gpus))
    ensures 10 * Usable(info, node) <= 9 * (Smallest(node.gpus) * TpOf(info, node)) < 10 * Usable(info, node) + 10
    ensures Usable(info, node) <= TotalVram(node.gpus)
  {
    var m, tp, n := Smallest(node.gpus), TpOf(info, node), |node.gpus|;
    SmallestIsMinimumIff(node.gpus);
    TotalCovers(node.gpus, m);
    MulLe(tp, n, m);
    assert m * tp == tp * m;
  }

  /** A two-card node whose first card reports nothing is credited with more memory
      than it has. */
  lemma SilentCardInflatesBudget(info: Info, v: nat)
    requires v >= 2 && info.isMla
    ensures var node := Node([Gpu("a", 0), Gpu("b", v)], 0, 0, None, None);
            Usable(info, node) > TotalVram(node.gpus)
  {
    var gpus := [Gpu("a", 0), Gpu("b", v)];
    LatentAttentionUsesEveryGpu(2);
    assert gpus[..1] == [Gpu("a", 0)];
    assert gpus[..1][..0] == [];
    assert Smallest(gpus[..1]) == 0;
    assert Smallest(gpus) == v;
    assert gpus[1..] == [Gpu("b", v)] && gpus[1..][1..] == [];
    assert TotalVram(gpus[1..]) == v;
  }

  // ----- Context length -----

  function ChooseContext(info: Info, want: int): (len: nat)
    ensures len > 0
  {
    if want > 0 then (if info.maxPositions > 0 && want > info.maxPositions then info.maxPositions else want)
    else if info.maxPositions > 0 then info.maxPositions
    else 8192
  }

  /** The context after `k` halvings. */
  function Halved(len: nat, k: nat): nat {
    if k == 0 then len else Halved(len, k - 1) / 2
  }

  predicate Acceptable(tokens: nat, floor: nat, len: nat) {
    len <= floor || tokens / len >= 8
  }

  /** `len` is the first of `start`, `start/2`, `start/4`, … that is no longer than
      the floor or leaves room for eight sequences. */
  ghost predicate FirstAcceptable(start: nat, tokens: nat, floor: nat, len: nat) {
    exists k: nat :: IsFirst(start, tokens, floor, k) && len == Halved(start, k)
  }

  ghost predicate IsFirst(start: nat, tokens: nat, floor: nat, k: nat) {
    Acceptable(tokens, floor, Halved(start, k))
    && forall j :: 0 <= j < k ==> !Acceptable(tokens, floor, Halved(start, j))
  }

  function Trim(tokens: nat, floor: nat, len: nat): (r: nat)
    requires floor > 0 && len > 0
    ensures 0 < r <= len
    decreases len
  {
    if len > floor && tokens / len < 8 then Trim(tokens, floor, len / 2) else len
  }

  lemma HalvedShift(len: nat, k: nat)
    ensures Halved(len, k + 1) == Halved(len / 2, k)
  {
    if k > 0 {
      HalvedShift(len, k - 1);
    }
  }

  lemma {:induction false} TrimIsFirstAcceptable(tokens: nat, floor: nat, len: nat)
    requires floor > 0 && len > 0
    ensures FirstAcceptable(len, tokens, floor, Trim(tokens, floor, len))
    decreases len
  {
    if Acceptable(tokens, floor, len) {
      assert Halved(len, 0) == len;
      assert IsFirst(len, tokens, floor, 0);
    } else {
      TrimIsFirstAcceptable(tokens, floor, len / 2);
      var k: nat :| IsFirst(len / 2, tokens, floor, k)
                    && Trim(tokens, floor, len / 2) == Halved(len / 2, k);
      HalvedShift(len, k);
      forall j | 0 <= j < k + 1 ensures !Acceptable(tokens, floor, Halved(len, j)) {
        if j > 0 {
          HalvedShift(len, j - 1);
        }
      }
      assert IsFirst(len, tokens, floor, k + 1);
    }
  }

  /** More room for cached tokens never shortens the trimmed context. */
  lemma {:induction false} TrimMonotone(t: nat, u: nat, floor: nat, len: nat)
    requires t <= u && floor > 0 && len > 0
    ensures Trim(t, floor, len) <= Trim(u, floor, len)
    decreases len
  {
    DivMonotone(t, u, len);
    if len > floor && u / len < 8 {
      TrimMonotone(t, u, floor, len / 2);
    }
  }

  function FloorOf(info: Info, want: int): (f: nat)
    ensures f > 0
  {
    if want > 0 then ChooseContext(info, want) else 8192
  }

  function Context(info: Info, want: int, tokens: nat): (len: nat)
    ensures len > 0
  {
    Trim(tokens, FloorOf(info, want), ChooseContext(info, want))
  }

  function Sequences(tokens: nat, len: nat): nat
    requires len > 0
  {
    var s := tokens / len;
    if s < 256 then (if s > 1 then s else 1) else 256
  }

  lemma SequencesMonotone(t: nat, u: nat, len: nat)
    requires t <= u && len > 0
    ensures Sequences(t, len) <= Sequences(u, len)
  {
    DivMonotone(t, u, len);
  }

  // ----- The plan -----

  ghost predicate FormatRuns(info: Info, node: Node, archOf: string -> Arch)
    requires |node.gpus| > 0
  {
    var a := NodeArch(node.gpus, archOf);
    CanRun(a, FormatOf(info, a))
  }

  ghost function Weights(info: Info, node: Node, archOf: string -> Arch): nat
    requires |node.gpus| > 0
  {
    WeightBytes(info, FormatOf(info, NodeArch(node.gpus, archOf)), info.published.Some?)
  }

  ghost predicate WeightsFit(info: Info, node: Node, archOf: string -> Arch)
    requires |node.gpus| > 0
  {
    Weights(info, node, archOf) < Usable(info, node)
  }

  /** A smaller publication in format `f` is worth advising. */
  predicate Advisable(info: Info, a: Arch, quant: Format, usable: nat, f: Format) {
    QuantPercent(f) < QuantPercent(quant) && CanRun(a, f) && SizeAt(info.params, f) < usable
  }

  predicate StreamsExperts(info: Info, node: Node, a: Arch, usable: nat, weights: nat) {
    info.isMoe && a.name != "unknown" && weights < usable + node.ram * 3 / 4
  }

  function Runnable(a: Arch, formats: seq<Format>): seq<Format> {
    if formats == [] then []
    else (if CanRun(a, formats[0]) then [formats[0]] else []) + Runnable(a, formats[1..])
  }

  lemma RunnableIs(a: Arch, formats: seq<Format>, f: Format)
    ensures f in Runnable(a, formats) <==> f in formats && CanRun(a, f)
  {
    if formats != [] {
      RunnableIs(a, formats[1..], f);
      assert formats == [formats[0]] + formats[1..];
    }
  }

  function Blocked(tp: nat, quant: Option<Format>, fromCheckpoint: bool, weights: nat, why: seq<Blocker>): Plan {
    Plan(quant, fromCheckpoint, false, tp, 0, 0, weights, 0, 0, 0, false, false, [], why, false, false)
  }

  function Overflow(info: Info, node: Node, a: Arch, tp: nat, usable: nat, quant: Format, weights: nat): Plan {
    var smaller := Advisable(info, a, quant, usable, Fp8) || Advisable(info, a, quant, usable, Awq);
    var streams := StreamsExperts(info, node, a, usable, weights);
    Blocked(tp, Some(quant), info.published.Some?, weights,
            [WeightsOverflow] + (if streams then [StreamExperts] else [])
            + (if smaller then [UseSmallerFormat] else []))
    .(needsQuantized := smaller, canStreamExperts := streams,
      runnableQuants := if smaller then Runnable(a, [Fp8, Awq, Gptq, Nvfp4]) else [])
  }

  function HostBlockers(node: Node, disk: nat, weights: nat): seq<Blocker> {
    (if 0 < node.diskFree < disk then [DiskTooSmall] else [])
    + (if node.ram > 0 && node.ram * 3 < weights then [HostRamTooSmall] else [])
  }

  function LengthAt(info: Info, want: int, budget: nat, kv: nat): (len: nat)
    ensures len > 0
  {
    if kv == 0 then ChooseContext(info, want) else Context(info, want, budget / kv)
  }

  function SequencesAt(len: nat, budget: nat, kv: nat): (seqs: nat)
    requires len > 0
  {
    if kv == 0 then 1 else Sequences(budget / kv, len)
  }

  function Serving(info: Info, node: Node, fp8: bool, kv: nat, tp: nat, want: int,
                   quant: Format, weights: nat, disk: nat, budget: nat): Plan
  {
    var len := LengthAt(info, want, budget, kv);
    var seqs := SequencesAt(len, budget, kv);
    var why := HostBlockers(node, disk, weights);
    Plan(Some(quant), info.published.Some?, fp8, tp, len, seqs,
         weights, kv, budget, disk, false, false, [], why, why == [], why == [] && seqs >= 4)
  }

  /** The plan, by cases on what stops it first. */
  function Decide(info: Info, node: Node, want: int, a: Arch, tp: nat, usable: nat,
                  quant: Format, weights: nat, kv: nat, disk: nat): (p: Plan)
  {
    if OlderThan(node.driver, node.torch) then Blocked(tp, None, false, 0, [CudaTooOld])
    else if !CanRun(a, quant) then Blocked(tp, Some(quant), info.published.Some?, 0, [FormatUnsupported])
    else if usable <= weights then Overflow(info, node, a, tp, usable, quant, weights)
    else Serving(info, node, a.fp8Kv && !info.isHybrid, kv, tp, want, quant, weights, disk, usable - weights)
  }

  ghost function PlanOf(info: Info, node: Node, want: int, archOf: string -> Arch): (p: Plan)
    requires |node.gpus| > 0
  {
    var a := NodeArch(node.gpus, archOf);
    Decide(info, node, want, a, TpOf(info, node), Usable(info, node), FormatOf(info, a),
           Weights(info, node, archOf), KvCost(info, a), DownloadBytes(info, FormatOf(info, a)))
  }

  method TrimContext(tokens: nat, floor: nat, start: nat) returns (len: nat)
    requires floor > 0 && start > 0
    ensures len == Trim(tokens, floor, start)
    ensures FirstAcceptable(start, tokens, floor, len)
  {
    len := start;
    while len > floor && tokens / len < 8
      invariant len > 0
      invariant Trim(tokens, floor, len) == Trim(tokens, floor, start)
    {
      len := len / 2;
    }
    TrimIsFirstAcceptable(tokens, floor, start);
  }

  method CollectRunnable(a: Arch, formats: seq<Format>) returns (out: seq<Format>)
    ensures out == Runnable(a, formats)
  {
    out := [];
    for i := 0 to |formats|
      invariant out + Runnable(a, formats[i..]) == Runnable(a, formats)
    {
      assert formats[i..][1..] == formats[i + 1..];
      if CanRun(a, formats[i]) {
        out := out + [formats[i]];
      }
    }
  }

  method AdviseSmaller(info: Info, a: Arch, quant: Format, usable: nat) returns (smaller: seq<Format>)
    ensures forall f :: f in smaller <==> f in [Fp8, Awq] && Advisable(info, a, quant, usable, f)
  {
    smaller := [];
    var formats := [Fp8, Awq];
    for i := 0 to |formats|
      invariant forall f :: f in smaller <==> f in formats[..i] && Advisable(info, a, quant, usable, f)
    {
      var f := formats[i];
      if QuantPercent(f) >= QuantPercent(quant) {
        continue;
      }
      if !CanRun(a, f) {
        continue;
      }
      if SizeAt(info.params, f) >= usable {
        continue;
      }
      smaller := smaller + [f];
    }
    assert formats[..|formats|] == formats;
  }

  method PlanGpu(info: Info, node: Node, want: int, archOf: string -> Arch) returns (p: Plan)
    requires |node.gpus| > 0
    ensures p == PlanOf(info, node, want, archOf)
  {
    var kvHeads := if info.isMla then 0 else info.numKvHeads;
    var tp := LargestValidTP(|node.gpus|, kvHeads);
    var a := FoldArch(node.gpus, archOf);
    var quant := NativePrecision(a);
    if info.published.Some? {
      quant := CanonicalQuant(info.published.value);
    }
    var perGpu := PerGpuVram(node.gpus);
    var usable := perGpu * tp * 9 / 10;
    var kv := KvBytesPerToken(info);
    if a.fp8Kv && !info.isHybrid {
      kv := kv / 2;
    }
    assert quant == FormatOf(info, a) && usable == Usable(info, node) && kv == KvCost(info, a);
    p := PlanSized(info, node, want, a, tp, usable, quant, WeightBytes(info, quant, info.published.Some?),
                   kv, DownloadBytes(info, quant));
  }

  method PlanSized(info: Info, node: Node, want: int, a: Arch, tp: nat, usable: nat,
                   quant: Format, weights: nat, kv: nat, disk: nat) returns (p: Plan)
    ensures p == Decide(info, node, want, a, tp, usable, quant, weights, kv, disk)
  {
    p := Blocked(tp, None, false, 0, []);
    if OlderThan(node.driver, node.torch) {
      p := p.(blockers := [CudaTooOld]);
      return;
    }
    p := Blocked(tp, Some(quant), info.published.Some?, 0, []);
    if !CanRun(a, quant) {
      p := p.(blockers := [FormatUnsupported]);
      return;
    }
    if usable <= weights {
      p := PlanOverflow(info, node, a, tp, usable, quant, weights);
      return;
    }
    var budget: nat := usable - weights;
    var len, seqs := SizeCache(info, want, budget, kv);
    var why := CheckHost(node, disk, weights);
    var fp8 := a.fp8Kv && !info.isHybrid;
    p := Plan(Some(quant), info.published.Some?, fp8, tp, len, seqs, weights, kv, budget, disk,
              false, false, [], why, |why| == 0, |why| == 0 && seqs >= 4);
  }

  method PlanOverflow(info: Info, node: Node, a: Arch, tp: nat, usable: nat, quant: Format, weights: nat)
    returns (p: Plan)
    ensures p == Overflow(info, node, a, tp, usable, quant, weights)
  {
    p := Blocked(tp, Some(quant), info.published.Some?, weights, [WeightsOverflow]);
    var smaller := AdviseSmaller(info, a, quant, usable);
    if info.isMoe && a.name != "unknown" {
      var pool := usable + node.ram * 3 / 4;
      if weights < pool {
        p := p.(canStreamExperts := true, blockers := p.blockers + [StreamExperts]);
      }
    }
    ghost var advised := Advisable(info, a, quant, usable, Fp8)
                         || Advisable(info, a, quant, usable, Awq);
    assert Fp8 in [Fp8, Awq] && Awq in [Fp8, Awq];
    assert advised <==> |smaller| > 0 by {
      if |smaller| > 0 {
        assert smaller[0] in smaller;
      }
    }
    if |smaller| > 0 {
      var quants := CollectRunnable(a, [Fp8, Awq, Gptq, Nvfp4]);
      p := p.(needsQuantized := true, runnableQuants := quants, blockers := p.blockers + [UseSmallerFormat]);
    }
  }

  method SizeCache(info: Info, want: int, budget: nat, kv: nat) returns (len: nat, seqs: nat)
    ensures len == LengthAt(info, want, budget, kv)
    ensures seqs == SequencesAt(len, budget, kv)
  {
    len, seqs := ChooseContext(info, want), 256;
    if kv == 0 {
      seqs := 1;
    }
    if kv > 0 {
      var tokens := budget / kv;
      var floor := 8192;
      if want > 0 {
        floor := len;
      }
      len := TrimContext(tokens, floor, len);
      var fit := tokens / len;
      if fit < seqs {
        seqs := if 1 > fit then 1 else fit;
      }
    }
  }

  method CheckHost(node: Node, disk: nat, weights: nat) returns (why: seq<Blocker>)
    ensures why == HostBlockers(node, disk, weights)
  {
    why := [];
    if node.diskFree > 0 && node.diskFree < disk {
      why := why + [DiskTooSmall];
    }
    if node.ram > 0 && node.ram < weights {
      if node.ram * 3 < weights {
        why := why + [HostRamTooSmall];
      }
    }
  }

  // ----- What a plan promises -----

  /** What the engine holds when every sequence fills its window. */
  function PeakBytes(p: Plan): nat {
    p.weightBytes + p.maxNumSeqs * p.maxModelLen * p.kvPerToken
  }

  lemma SequencesFit(budget: nat, kv: nat, len: nat)
    requires kv > 0 && len > 0
    ensures Sequences(budget / kv, len) * len * kv <= budget <==> budget / kv >= len
  {
    var tokens := budget / kv;
    var s := Sequences(tokens, len);
    assert budget == tokens * kv + budget % kv;
    if tokens >= len {
      DivMonotone(len, tokens, len);
      assert s <= tokens / len;
      assert tokens == tokens / len * len + tokens % len;
      MulLe(s, tokens / len, len);
      MulLe(s * len, tokens, kv);
    } else {
      assert tokens / len == 0;
      assert s * len == len;
      MulLe(tokens + 1, len, kv);
      assert (tokens + 1) * kv == tokens * kv + kv;
    }
  }

  /** The figures of a plan that serves, whatever else it says. */
  ghost predicate Serves(p: Plan, info: Info, want: int, kv: nat, usable: nat) {
    && p.kvPerToken == kv && p.kvBudget > 0 && p.weightBytes + p.kvBudget == usable
    && p.maxModelLen == LengthAt(info, want, p.kvBudget, kv)
    && p.maxNumSeqs == SequencesAt(p.maxModelLen, p.kvBudget, kv)
  }

  ghost predicate ServesIfFits(p: Plan, info: Info, want: int, kv: nat, usable: nat, tp: nat) {
    && (p.fits ==> Serves(p, info, want, kv, usable) && p.tensorParallel == tp)
    && (p.viable ==> p.fits && p.maxNumSeqs >= 4)
    && (kv == 0 ==> p.maxNumSeqs <= 1 && !p.viable)
  }

  lemma ServingServes(info: Info, node: Node, fp8: bool, kv: nat, tp: nat, want: int,
                      quant: Format, weights: nat, disk: nat, budget: nat)
    requires budget > 0
    ensures ServesIfFits(Serving(info, node, fp8, kv, tp, want, quant, weights, disk, budget),
                         info, want, kv, weights + budget, tp)
  {
  }

  lemma DecideServes(info: Info, node: Node, want: int, a: Arch, tp: nat, usable: nat,
                     quant: Format, weights: nat, kv: nat, disk: nat)
    ensures ServesIfFits(Decide(info, node, want, a, tp, usable, quant, weights, kv, disk),
                         info, want, kv, usable, tp)
  {
    var p := Decide(info, node, want, a, tp, usable, quant, weights, kv, disk);
    if OlderThan(node.driver, node.torch) || !CanRun(a, quant) || usable <= weights {
      assert !p.fits && !p.viable && p.maxNumSeqs == 0;
    } else {
      ServingServes(info, node, a.fp8Kv && !info.isHybrid, kv, tp, want, quant, weights, disk, usable - weights);
    }
  }

  lemma FittingServes(info: Info, node: Node, want: int, archOf: string -> Arch, p: Plan)
    requires |node.gpus| > 0
    requires p == PlanOf(info, node, want, archOf)
    ensures ServesIfFits(p, info, want, KvCost(info, NodeArch(node.gpus, archOf)), Usable(info, node), TpOf(info, node))
  {
    var a := NodeArch(node.gpus, archOf);
    DecideServes(info, node, want, a, TpOf(info, node), Usable(info, node), FormatOf(info, a),
                 Weights(info, node, archOf), KvCost(info, a), DownloadBytes(info, FormatOf(info, a)));
  }

  lemma NoRoomMeansOne(tokens: nat, len: nat)
    requires tokens < len
    ensures Sequences(tokens, len) == 1
  {
    assert tokens / len == 0;
  }

  lemma ServingIsSafeIff(p: Plan, info: Info, want: int, kv: nat, usable: nat)
    requires kv > 0 && Serves(p, info, want, kv, usable)
    ensures PeakBytes(p) <= usable <==> p.kvBudget / kv >= p.maxModelLen
    ensures p.maxNumSeqs >= 2 ==> PeakBytes(p) <= usable
  {
    var len, s := p.maxModelLen, p.maxNumSeqs;
    assert s == Sequences(p.kvBudget / kv, len);
    SequencesFit(p.kvBudget, kv, len);
    if p.kvBudget / kv < len {
      NoRoomMeansOne(p.kvBudget / kv, len);
    }
  }

  /** The shortest window trimming can end at: the first halving no longer than the floor. */
  function FirstAtMost(len: nat, floor: nat): (w: nat)
    requires len > 0 && floor > 0
    ensures 0 < w <= floor
    decreases len
  {
    if len <= floor then len else FirstAtMost(len / 2, floor)
  }

  function ShortestWindow(info: Info, want: int): (w: nat)
    ensures w > 0
    ensures want > 0 ==> w == ChooseContext(info, want)
    ensures want <= 0 && info.maxPositions <= 8192 ==> w == ChooseContext(info, want)
  {
    FirstAtMost(ChooseContext(info, want), FloorOf(info, want))
  }

  /** Trimming ends at that window, or earlier because eight windows fit. */
  lemma {:induction false} TrimEndsAt(tokens: nat, floor: nat, len: nat)
    requires floor > 0 && len > 0
    ensures var r := Trim(tokens, floor, len);
            FirstAtMost(len, floor) <= r && (r == FirstAtMost(len, floor) || (r > floor && tokens / r >= 8))
    decreases len
  {
    if len > floor && tokens / len < 8 {
      TrimEndsAt(tokens, floor, len / 2);
    }
  }

  /** The trimmed window fits into the cache exactly when the shortest one does. */
  lemma WindowFitsIff(info: Info, want: int, tokens: nat)
    ensures tokens >= Context(info, want, tokens) <==> tokens >= ShortestWindow(info, want)
  {
    var len := Context(info, want, tokens);
    TrimEndsAt(tokens, FloorOf(info, want), ChooseContext(info, want));
    QuotientAtLeast(tokens, len, 8);
  }

  /** A plan that fits a model of known geometry stays within the budget exactly when
      the memory left by the weights caches one shortest window. */
  lemma SafeIffOneWindowFits(info: Info, node: Node, want: int, archOf: string -> Arch, p: Plan)
    requires |node.gpus| > 0 && KnownGeometry(info)
    requires p == PlanOf(info, node, want, archOf) && p.fits
    ensures KvCost(info, NodeArch(node.gpus, archOf)) > 0
    ensures PeakBytes(p) <= Usable(info, node) <==>
            (Usable(info, node) - Weights(info, node, archOf)) / KvCost(info, NodeArch(node.gpus, archOf))
            >= ShortestWindow(info, want)
  {
    var a := NodeArch(node.gpus, archOf);
    KvCostIsZeroIff(info, a);
    FittingServes(info, node, want, archOf, p);
    FittingWeights(info, node, want, archOf, p);
    ServingIsSafeIff(p, info, want, KvCost(info, a), Usable(info, node));
    WindowFitsIff(info, want, p.kvBudget / KvCost(info, a));
  }

  lemma FittingWeights(info: Info, node: Node, want: int, archOf: string -> Arch, p: Plan)
    requires |node.gpus| > 0
    requires p == PlanOf(info, node, want, archOf) && p.fits
    ensures p.weightBytes == Weights(info, node, archOf)
  {
  }

  /** Fitting plans that overrun: one card of `v` bytes, a model of `params` parameters whose
      token costs four bytes, and a named context the rest of the card cannot cache. */
  lemma FittingPlanCanOverrun(v: nat, params: nat, want: int)
    requires params > 0 && 2 * params < 9 * v / 10 < 2 * params + 4 * want
    ensures var info := Info(params, 0, None, 1, 1, 1, 1, 0, false, false, false);
            var node := Node([Gpu("a", v)], 0, 0, None, None);
            var archOf := (name: string) => Arch("a", true, false, false, false, false, false, false);
            var p := PlanOf(info, node, want, archOf);
            p.fits && PeakBytes(p) > Usable(info, node)
  {
    var info := Info(params, 0, None, 1, 1, 1, 1, 0, false, false, false);
    var node := Node([Gpu("a", v)], 0, 0, None, None);
    var archOf := (name: string) => Arch("a", true, false, false, false, false, false, false);
    OneCard("a", v);
    assert Usable(info, node) == 9 * v / 10;
    assert Weights(info, node, archOf) == 2 * params;
    var p := PlanOf(info, node, want, archOf);
    assert p.fits;
    assert KvCost(info, NodeArch(node.gpus, archOf)) == 4;
    SafeIffOneWindowFits(info, node, want, archOf, p);
  }

  lemma OneCard(name: string, v: nat)
    ensures Smallest([Gpu(name, v)]) == v
    ensures TpSize(1, 1) == 1
  {
    assert [Gpu(name, v)][..0] == [];
  }

  /** What the engine holds when every sequence fills its window, from the model's own figures. */
  ghost function PeakOf(info: Info, node: Node, archOf: string -> Arch, p: Plan): nat
    requires |node.gpus| > 0
  {
    Weights(info, node, archOf)
    + p.maxNumSeqs * p.maxModelLen * TokenBytes(info, if Fp8Cache(info, node, archOf) then 1 else 2)
  }

  /** The cache is stored at fp8 where every card can and the model is not hybrid. */
  ghost predicate Fp8Cache(info: Info, node: Node, archOf: string -> Arch) {
    AllHave(node.gpus, archOf, CachesFp8) && !info.isHybrid
  }

  lemma Fp8CacheIs(info: Info, node: Node, archOf: string -> Arch)
    requires |node.gpus| > 0
    ensures Fp8Cache(info, node, archOf) <==> NodeArch(node.gpus, archOf).fp8Kv && !info.isHybrid
  {
    NodeArchIsWeakestCard(node.gpus, archOf);
    assert Has(NodeArch(node.gpus, archOf), CachesFp8) == NodeArch(node.gpus, archOf).fp8Kv;
  }

  /** Every viable plan is memory-safe, and its model's geometry is known. */
  lemma ViableIsSafe(info: Info, node: Node, want: int, archOf: string -> Arch, p: Plan)
    requires |node.gpus| > 0
    requires p == PlanOf(info, node, want, archOf) && p.viable
    ensures KnownGeometry(info)
    ensures IsLargestSplit(|node.gpus|, if info.isMla then 0 else info.numKvHeads, p.tensorParallel)
    ensures PeakBytes(p) == PeakOf(info, node, archOf, p)
    ensures 10 * PeakOf(info, node, archOf, p) <= 9 * (Smallest(node.gpus) * p.tensorParallel)
    ensures AllReport(node.gpus) ==>
              IsMinimum(node.gpus, Smallest(node.gpus)) && PeakOf(info, node, archOf, p) <= TotalVram(node.gpus)
  {
    var a := NodeArch(node.gpus, archOf);
    FittingServes(info, node, want, archOf, p);
    KvCostIsZeroIff(info, a);
    assert KvCost(info, a) > 0;
    FittingWeights(info, node, want, archOf, p);
    Fp8CacheIs(info, node, archOf);
    KvCostIsSum(info, a);
    ServingIsSafeIff(p, info, want, KvCost(info, a), Usable(info, node));
    if AllReport(node.gpus) {
      BudgetIsReal(info, node);
    }
  }

  /** A plan fits exactly when the driver is new enough, the format runs, the weights leave memory over,
      the disk is unknown or holds the download, and the host's memory is unknown or at least a third
      of the weights. */
  lemma FitsIff(info: Info, node: Node, want: int, archOf: string -> Arch)
    requires |node.gpus| > 0
    ensures PlanOf(info, node, want, archOf).fits <==>
            && !OlderThan(node.driver, node.torch) && FormatRuns(info, node, archOf) && WeightsFit(info, node, archOf)
            && (node.diskFree == 0
                || node.diskFree >= SizeAt(info.params, FormatOf(info, NodeArch(node.gpus, archOf))) + 2_147_483_648)
            && (node.ram == 0 || 3 * node.ram >= Weights(info, node, archOf))
  {
    var a := NodeArch(node.gpus, archOf);
    DecideFitsIff(info, node, want, a, TpOf(info, node), Usable(info, node), FormatOf(info, a),
                  Weights(info, node, archOf), KvCost(info, a), DownloadBytes(info, FormatOf(info, a)));
  }

  lemma DecideFitsIff(info: Info, node: Node, want: int, a: Arch, tp: nat, usable: nat,
                      quant: Format, weights: nat, kv: nat, disk: nat)
    ensures Decide(info, node, want, a, tp, usable, quant, weights, kv, disk).fits <==>
            && !OlderThan(node.driver, node.torch) && CanRun(a, quant) && weights < usable
            && (node.diskFree == 0 || node.diskFree >= disk) && (node.ram == 0 || 3 * node.ram >= weights)
  {
    if GoesOn(node, a, usable, quant, weights) {
      DecideGoesOn(info, node, want, a, tp, usable, quant, weights, kv, disk);
    } else {
      DecideRefuses(info, node, want, a, tp, usable, quant, weights, kv, disk);
    }
  }

  /** Nothing before the host's own memory and disk stops the plan. */
  predicate GoesOn(node: Node, a: Arch, usable: nat, quant: Format, weights: nat) {
    !OlderThan(node.driver, node.torch) && CanRun(a, quant) && weights < usable
  }

  lemma DecideGoesOn(info: Info, node: Node, want: int, a: Arch, tp: nat, usable: nat,
                     quant: Format, weights: nat, kv: nat, disk: nat)
    requires GoesOn(node, a, usable, quant, weights)
    ensures Decide(info, node, want, a, tp, usable, quant, weights, kv, disk)
         == Serving(info, node, a.fp8Kv && !info.isHybrid, kv, tp, want, quant, weights, disk, usable - weights)
  {
  }

  lemma DecideRefuses(info: Info, node: Node, want: int, a: Arch, tp: nat, usable: nat,
                      quant: Format, weights: nat, kv: nat, disk: nat)
    requires !GoesOn(node, a, usable, quant, weights)
    ensures var p := Decide(info, node, want, a, tp, usable, quant, weights, kv, disk);
            !p.fits && !p.viable && p.maxModelLen == p.maxNumSeqs == 0
  {
  }

  /** The concurrency of a fitting plan is the largest number up to 256 of full windows that the cache
      holds, and one where it does not hold even one. */
  lemma SequencesAreMost(tokens: nat, len: nat, s: nat)
    requires len > 0 && 1 <= s <= 256
    ensures s <= Sequences(tokens, len) <==> s == 1 || s * len <= tokens
    ensures 1 <= Sequences(tokens, len) <= 256
  {
    QuotientAtLeast(tokens, len, s);
  }

  /** The other fields of a plan that serves: the format of the checkpoint or the native one, whether it
      was read from the checkpoint, and the cache's format. */
  lemma FittingPlanReads(info: Info, node: Node, want: int, archOf: string -> Arch, p: Plan)
    requires |node.gpus| > 0 && p == PlanOf(info, node, want, archOf) && p.fits
    ensures p.quantization == Some(FormatOf(info, NodeArch(node.gpus, archOf))) && p.fromCheckpoint == info.published.Some?
    ensures p.kvFp8 <==> Fp8Cache(info, node, archOf)
    ensures p.viable <==> p.maxNumSeqs >= 4
    ensures p.diskBytes == SizeAt(info.params, FormatOf(info, NodeArch(node.gpus, archOf))) + 2_147_483_648
    ensures p.blockers == [] && !p.needsQuantized && !p.canStreamExperts
  {
    Fp8CacheIs(info, node, archOf);
  }

  /** Streaming experts is offered exactly when the weights of a mixture-of-experts model overflow the
      cards but not the cards and three quarters of the host's memory, and the cards are known. */
  lemma StreamsIff(info: Info, node: Node, want: int, archOf: string -> Arch)
    requires |node.gpus| > 0
    ensures PlanOf(info, node, want, archOf).canStreamExperts <==>
            && !OlderThan(node.driver, node.torch) && FormatRuns(info, node, archOf) && !WeightsFit(info, node, archOf)
            && info.isMoe && NodeArch(node.gpus, archOf).name != "unknown"
            && 4 * (Weights(info, node, archOf) - Usable(info, node) + 1) <= 3 * node.ram
  {
    var a := NodeArch(node.gpus, archOf);
    DecideStreamsIff(info, node, want, a, TpOf(info, node), Usable(info, node), FormatOf(info, a),
                     Weights(info, node, archOf), KvCost(info, a), DownloadBytes(info, FormatOf(info, a)));
  }

  lemma DecideStreamsIff(info: Info, node: Node, want: int, a: Arch, tp: nat, usable: nat,
                         quant: Format, weights: nat, kv: nat, disk: nat)
    ensures Decide(info, node, want, a, tp, usable, quant, weights, kv, disk).canStreamExperts <==>
            && !OlderThan(node.driver, node.torch) && CanRun(a, quant) && usable <= weights
            && info.isMoe && a.name != "unknown" && 4 * (weights - usable + 1) <= 3 * node.ram
  {
  }

  /** A model whose geometry could not be read is never called viable. */
  lemma UnknownGeometryNotViable(info: Info, node: Node, want: int, archOf: string -> Arch)
    requires |node.gpus| > 0 && !KnownGeometry(info)
    ensures !PlanOf(info, node, want, archOf).viable
    ensures PlanOf(info, node, want, archOf).maxNumSeqs <= 1
  {
    KvCostIsZeroIff(info, NodeArch(node.gpus, archOf));
    FittingServes(info, node, want, archOf, PlanOf(info, node, want, archOf));
  }

  /** A context the operator names is only ever capped at the model's own maximum. */
  lemma ExplicitContextIsKept(info: Info, node: Node, want: int, archOf: string -> Arch, p: Plan)
    requires |node.gpus| > 0 && want > 0
    requires p == PlanOf(info, node, want, archOf) && p.fits
    ensures p.maxModelLen == if 0 < info.maxPositions < want then info.maxPositions else want
  {
    FittingServes(info, node, want, archOf, p);
  }

  ghost predicate ContextIsFirst(p: Plan, start: nat) {
    p.kvPerToken > 0 && p.kvBudget > 0
    && FirstAcceptable(start, p.kvBudget / p.kvPerToken, 8192, p.maxModelLen)
  }

  /** The default context of a fitting plan is the first halving of the model's
      maximum that is at most 8192 or leaves room for eight requests. */
  lemma DefaultContextIsFirstAcceptable(info: Info, node: Node, want: int, archOf: string -> Arch, p: Plan)
    requires |node.gpus| > 0 && want <= 0 && KnownGeometry(info)
    requires p == PlanOf(info, node, want, archOf) && p.fits
    ensures ContextIsFirst(p, if info.maxPositions > 0 then info.maxPositions else 8192)
  {
    var a := NodeArch(node.gpus, archOf);
    KvCostIsZeroIff(info, a);
    FittingServes(info, node, want, archOf, p);
    ServedContextIsFirst(p, info, want, KvCost(info, a), Usable(info, node));
  }

  lemma ServedContextIsFirst(p: Plan, info: Info, want: int, kv: nat, usable: nat)
    requires kv > 0 && want <= 0 && Serves(p, info, want, kv, usable)
    ensures ContextIsFirst(p, ChooseContext(info, want))
  {
    TrimIsFirstAcceptable(p.kvBudget / kv, 8192, ChooseContext(info, want));
  }

  // ----- More memory never hurts -----

  function Uniform(n: nat, name: string, vram: nat): seq<Gpu> {
    seq(n, i => Gpu(name, vram))
  }

  lemma SmallestOfUniform(n: nat, name: string, vram: nat)
    requires n > 0
    ensures Smallest(Uniform(n, name, vram)) == vram
  {
    var gpus := Uniform(n, name, vram);
    assert gpus[..n - 1] == Uniform(n - 1, name, vram);
    if n > 1 {
      SmallestOfUniform(n - 1, name, vram);
    }
  }

  lemma UniformArch(n: nat, name: string, v: nat, archOf: string -> Arch)
    requires n > 0
    ensures NodeArch(Uniform(n, name, v), archOf) == archOf(name)
  {
    if n > 1 {
      assert Uniform(n, name, v)[..n - 1] == Uniform(n - 1, name, v);
      UniformArch(n - 1, name, v, archOf);
    }
  }

  lemma ArchOfUniform(n: nat, name: string, v: nat, w: nat, archOf: string -> Arch)
    requires n > 0
    ensures NodeArch(Uniform(n, name, v), archOf) == NodeArch(Uniform(n, name, w), archOf)
  {
    UniformArch(n, name, v, archOf);
    UniformArch(n, name, w, archOf);
  }

  lemma UsableGrows(info: Info, small: Node, big: Node, n: nat, name: string, v: nat, w: nat)
    requires n > 0 && v <= w
    requires small.gpus == Uniform(n, name, v) && big.gpus == Uniform(n, name, w)
    ensures Usable(info, small) <= Usable(info, big)
  {
    SmallestOfUniform(n, name, v);
    SmallestOfUniform(n, name, w);
    var tp := TpOf(info, small);
    assert tp == TpOf(info, big);
    MulLe(v, w, tp);
  }

  /** On a node of identical cards, giving each card more memory keeps a fitting plan
      fitting and a viable one viable, never shortens the context, and never lowers
      the concurrency where the context is steady. */
  lemma MoreMemoryNeverHurts(info: Info, node: Node, n: nat, name: string, v: nat, w: nat,
                             want: int, archOf: string -> Arch)
    requires n > 0 && v <= w
    ensures NoWorse(PlanOf(info, node.(gpus := Uniform(n, name, v)), want, archOf),
                    PlanOf(info, node.(gpus := Uniform(n, name, w)), want, archOf), info, want)
  {
    var small, big := node.(gpus := Uniform(n, name, v)), node.(gpus := Uniform(n, name, w));
    ArchOfUniform(n, name, v, w, archOf);
    UsableGrows(info, small, big, n, name, v, w);
    var a := NodeArch(small.gpus, archOf);
    assert TpOf(info, small) == TpOf(info, big);
    DecideGrows(info, small, big, want, a, TpOf(info, small), Usable(info, small), Usable(info, big),
                FormatOf(info, a), Weights(info, small, archOf), KvCost(info, a),
                DownloadBytes(info, FormatOf(info, a)));
  }

  lemma DecideGrows(info: Info, x: Node, y: Node, want: int, a: Arch, tp: nat, u: nat, v: nat,
                    quant: Format, weights: nat, kv: nat, disk: nat)
    requires u <= v && y == x.(gpus := y.gpus)
    ensures NoWorse(Decide(info, x, want, a, tp, u, quant, weights, kv, disk),
                    Decide(info, y, want, a, tp, v, quant, weights, kv, disk), info, want)
  {
    if GoesOn(x, a, u, quant, weights) {
      DecideGoesOn(info, x, want, a, tp, u, quant, weights, kv, disk);
      DecideGoesOn(info, y, want, a, tp, v, quant, weights, kv, disk);
      ServingGrows(info, x, y, a.fp8Kv && !info.isHybrid, kv, tp, want, quant, weights, disk,
                   u - weights, v - weights);
    } else {
      DecideRefuses(info, x, want, a, tp, u, quant, weights, kv, disk);
    }
  }

  /** The context does not depend on how much memory there is. */
  predicate SteadyContext(info: Info, want: int) {
    want > 0 || ChooseContext(info, want) <= 8192
  }

  ghost predicate NoWorse(p: Plan, q: Plan, info: Info, want: int) {
    && (p.fits ==> q.fits)
    && (p.viable ==> q.viable)
    && p.maxModelLen <= q.maxModelLen
    && (SteadyContext(info, want) ==> p.maxNumSeqs <= q.maxNumSeqs)
  }

  lemma SteadyContextStays(info: Info, want: int, tokens: nat)
    requires SteadyContext(info, want)
    ensures Context(info, want, tokens) == ChooseContext(info, want)
  {
  }

  /** A longer trimmed context still leaves room for eight sequences. */
  lemma EnoughStaysEnough(info: Info, want: int, t: nat, u: nat)
    requires t <= u && Sequences(t, Context(info, want, t)) >= 4
    ensures Sequences(u, Context(info, want, u)) >= 4
  {
    var floor, start := FloorOf(info, want), ChooseContext(info, want);
    TrimMonotone(t, u, floor, start);
    TrimEndsAt(t, floor, start);
    TrimEndsAt(u, floor, start);
    if Context(info, want, u) == Context(info, want, t) {
      SequencesMonotone(t, u, Context(info, want, t));
    }
  }

  lemma ServingGrows(info: Info, x: Node, y: Node, fp8: bool, kv: nat, tp: nat, want: int,
                     quant: Format, weights: nat, disk: nat, b: nat, c: nat)
    requires b <= c && x.diskFree == y.diskFree && x.ram == y.ram
    ensures NoWorse(Serving(info, x, fp8, kv, tp, want, quant, weights, disk, b),
                    Serving(info, y, fp8, kv, tp, want, quant, weights, disk, c), info, want)
  {
    if kv > 0 {
      DivMonotone(b, c, kv);
      var t, u := b / kv, c / kv;
      TrimMonotone(t, u, FloorOf(info, want), ChooseContext(info, want));
      if SteadyContext(info, want) {
        SteadyContextStays(info, want, t);
        SteadyContextStays(info, want, u);
        SequencesMonotone(t, u, ChooseContext(info, want));
      }
      if Sequences(t, Context(info, want, t)) >= 4 {
        EnoughStaysEnough(info, want, t, u);
      }
    }
  }

  ghost predicate SequencesGrow(info: Info, want: int) {
    forall t: nat, u: nat | t <= u ::
      Sequences(t, Context(info, want, t)) <= Sequences(u, Context(info, want, u))
  }

  /** A cache one token short of eight full windows halves the context and so admits
      at least fifteen sequences; one more token, and it admits eight full ones. */
  lemma OneTokenMoreFewerSequences(info: Info, want: int)
    requires !SteadyContext(info, want)
    ensures var m := ChooseContext(info, want);
            && Sequences(8 * m, Context(info, want, 8 * m)) == 8
            && Sequences(8 * m - 1, Context(info, want, 8 * m - 1)) >= 15
  {
    var m := ChooseContext(info, want);
    var h := m / 2;
    QuotientAtLeast(8 * m, m, 8);
    QuotientAtLeast(8 * m, m, 9);
    QuotientAtLeast(8 * m - 1, m, 8);
    QuotientAtLeast(8 * m - 1, h, 15);
    assert Context(info, want, 8 * m) == m;
    assert Trim(8 * m - 1, 8192, h) == h;
  }

  /** More cache never lowers the concurrency exactly when the operator named the
      context or the model's maximum is at most 8192. */
  lemma ConcurrencyGrowsIff(info: Info, want: int)
    ensures SequencesGrow(info, want) <==> SteadyContext(info, want)
  {
    if SteadyContext(info, want) {
      forall t: nat, u: nat | t <= u
        ensures Sequences(t, Context(info, want, t)) <= Sequences(u, Context(info, want, u))
      {
        SteadyContextStays(info, want, t);
        SteadyContextStays(info, want, u);
        SequencesMonotone(t, u, ChooseContext(info, want));
      }
    } else {
      OneTokenMoreFewerSequences(info, want);
      var m := ChooseContext(info, want);
      assert !(Sequences(8 * m - 1, Context(info, want, 8 * m - 1)) <= Sequences(8 * m, Context(info, want, 8 * m)));
    }
  }

  // In terms of memory

  ghost function PlanOn(info: Info, node: Node, n: nat, name: string, v: nat, want: int, archOf: string -> Arch): Plan
    requires n > 0
  {
    PlanOf(info, node.(gpus := Uniform(n, name, v)), want, archOf)
  }

  /** On nodes of identical cards, more memory never lowers the planned concurrency. */
  ghost predicate MemoryPays(info: Info, node: Node, name: string, want: int, archOf: string -> Arch) {
    forall n: nat, v: nat, w: nat | n > 0 && v <= w ::
      PlanOn(info, node, n, name, v, want, archOf).maxNumSeqs <= PlanOn(info, node, n, name, w, want, archOf).maxNumSeqs
  }

  /** The engine starts on such nodes and runs the model's format. */
  predicate Starts(info: Info, node: Node, name: string, archOf: string -> Arch) {
    !OlderThan(node.driver, node.torch) && CanRun(archOf(name), FormatOf(info, archOf(name)))
  }

  /** The card of a one-card node with `u` usable bytes. */
  function CardFor(u: nat): nat { (10 * u + 8) / 9 }

  lemma OneCardUsable(info: Info, node: Node, name: string, u: nat)
    ensures Usable(info, node.(gpus := Uniform(1, name, CardFor(u)))) == u
  {
    var big := node.(gpus := Uniform(1, name, CardFor(u)));
    SmallestOfUniform(1, name, CardFor(u));
    assert TpOf(info, big) == 1;
  }

  /** The plan of a one-card node whose weights, `w` bytes, leave `b` bytes. */
  lemma OneCardSequences(info: Info, node: Node, name: string, want: int, archOf: string -> Arch, w: nat, b: nat, v: nat, kv: nat, t: nat)
    requires b > 0 && kv > 0 && Starts(info, node, name, archOf) && kv == KvCost(info, archOf(name))
    requires w == WeightBytes(info, FormatOf(info, archOf(name)), info.published.Some?)
    requires v == CardFor(w + b) && t == b / kv
    ensures PlanOn(info, node, 1, name, v, want, archOf).maxNumSeqs == Sequences(t, Context(info, want, t))
  {
    var a, big := archOf(name), node.(gpus := Uniform(1, name, v));
    OneCardUsable(info, node, name, w + b);
    UniformArch(1, name, v, archOf);
    DecideSequences(info, big, want, a, TpOf(info, big), w, b, FormatOf(info, a), kv, DownloadBytes(info, FormatOf(info, a)));
  }

  lemma OneCardTokens(info: Info, node: Node, name: string, want: int, archOf: string -> Arch, w: nat, t: nat, kv: nat)
    requires t > 0 && kv > 0 && Starts(info, node, name, archOf) && kv == KvCost(info, archOf(name))
    requires w == WeightBytes(info, FormatOf(info, archOf(name)), info.published.Some?)
    ensures PlanOn(info, node, 1, name, CardFor(w + t * kv), want, archOf).maxNumSeqs
            == Sequences(t, Context(info, want, t))
  {
    MulLe(1, t, kv);
    DivIs(t * kv, t, 0, kv);
    OneCardSequences(info, node, name, want, archOf, w, t * kv, CardFor(w + t * kv), kv, t);
  }

  lemma CardGrows(w: nat, t: nat, u: nat, kv: nat)
    requires t <= u
    ensures CardFor(w + t * kv) <= CardFor(w + u * kv)
  {
    MulLe(t, u, kv);
  }

  lemma DecideSequences(info: Info, node: Node, want: int, a: Arch, tp: nat, w: nat, b: nat, quant: Format, kv: nat, disk: nat)
    requires b > 0 && kv > 0 && !OlderThan(node.driver, node.torch) && CanRun(a, quant)
    ensures Decide(info, node, want, a, tp, w + b, quant, w, kv, disk).maxNumSeqs
         == Sequences(b / kv, Context(info, want, b / kv))
  {
  }

  /** Two sizes of one card that lower it: the larger caches one token more. */
  lemma MoreMemoryFewerSequences(info: Info, node: Node, name: string, want: int, archOf: string -> Arch)
    requires Starts(info, node, name, archOf) && KnownGeometry(info) && !SteadyContext(info, want)
    ensures !MemoryPays(info, node, name, want, archOf)
  {
    var kv := KvCost(info, archOf(name));
    var w := WeightBytes(info, FormatOf(info, archOf(name)), info.published.Some?);
    KvCostIsZeroIff(info, archOf(name));
    LongerPaysLess(info, node, name, want, archOf, w, kv);
  }

  lemma LongerPaysLess(info: Info, node: Node, name: string, want: int, archOf: string -> Arch, w: nat, kv: nat)
    requires kv > 0 && Starts(info, node, name, archOf) && kv == KvCost(info, archOf(name)) && !SteadyContext(info, want)
    requires w == WeightBytes(info, FormatOf(info, archOf(name)), info.published.Some?)
    ensures !MemoryPays(info, node, name, want, archOf)
  {
    var m := ChooseContext(info, want);
    var t: nat, u: nat := 8 * m - 1, 8 * m;
    var v1, v2 := CardFor(w + t * kv), CardFor(w + u * kv);
    CardGrows(w, t, u, kv);
    OneCardTokens(info, node, name, want, archOf, w, t, kv);
    OneCardTokens(info, node, name, want, archOf, w, u, kv);
    OneTokenMoreFewerSequences(info, want);
    NotPaying(info, node, name, want, archOf, v1, v2);
  }

  lemma NotPaying(info: Info, node: Node, name: string, want: int, archOf: string -> Arch, v: nat, w: nat)
    requires v <= w
    requires PlanOn(info, node, 1, name, v, want, archOf).maxNumSeqs > PlanOn(info, node, 1, name, w, want, archOf).maxNumSeqs
    ensures !MemoryPays(info, node, name, want, archOf)
  {
  }

  lemma FewSequencesGrow(info: Info, node: Node, n: nat, name: string, v: nat, w: nat, want: int, archOf: string -> Arch)
    requires n > 0 && v <= w && (!Starts(info, node, name, archOf) || !KnownGeometry(info))
    ensures PlanOn(info, node, n, name, v, want, archOf).maxNumSeqs <= PlanOn(info, node, n, name, w, want, archOf).maxNumSeqs
  {
    var small, big := node.(gpus := Uniform(n, name, v)), node.(gpus := Uniform(n, name, w));
    UniformArch(n, name, v, archOf);
    UniformArch(n, name, w, archOf);
    UsableGrows(info, small, big, n, name, v, w);
    KvCostIsZeroIff(info, archOf(name));
    var a := archOf(name);
    FewDecided(info, small, big, want, a, TpOf(info, small), Usable(info, small), Usable(info, big), FormatOf(info, a),
               Weights(info, small, archOf), KvCost(info, a), DownloadBytes(info, FormatOf(info, a)));
  }

  lemma FewDecided(info: Info, x: Node, y: Node, want: int, a: Arch, tp: nat, u: nat, v: nat,
                   quant: Format, weights: nat, kv: nat, disk: nat)
    requires u <= v && y == x.(gpus := y.gpus)
    requires OlderThan(x.driver, x.torch) || !CanRun(a, quant) || kv == 0
    ensures Decide(info, x, want, a, tp, u, quant, weights, kv, disk).maxNumSeqs
         <= Decide(info, y, want, a, tp, v, quant, weights, kv, disk).maxNumSeqs
  {
  }

  /** More memory never lowers the planned concurrency exactly when the operator named the context, the
      model's maximum is at most 8192, its geometry is unknown, or the engine cannot start anyway. */
  lemma MemoryPaysIff(info: Info, node: Node, name: string, want: int, archOf: string -> Arch)
    ensures MemoryPays(info, node, name, want, archOf)
       <==> SteadyContext(info, want) || !KnownGeometry(info) || !Starts(info, node, name, archOf)
  {
    if SteadyContext(info, want) {
      forall n: nat, v: nat, w: nat | n > 0 && v <= w
        ensures PlanOn(info, node, n, name, v, want, archOf).maxNumSeqs <= PlanOn(info, node, n, name, w, want, archOf).maxNumSeqs
      {
        MoreMemoryNeverHurts(info, node, n, name, v, w, want, archOf);
      }
    } else if !KnownGeometry(info) || !Starts(info, node, name, archOf) {
      forall n: nat, v: nat, w: nat | n > 0 && v <= w
        ensures PlanOn(info, node, n, name, v, want, archOf).maxNumSeqs <= PlanOn(info, node, n, name, w, want, archOf).maxNumSeqs
      {
        FewSequencesGrow(info, node, n, name, v, w, want, archOf);
      }
    } else {
      MoreMemoryFewerSequences(info, node, name, want, archOf);
    }
  }

  // ----- Advice survives replanning -----

  /** The same model as if published in format `f`, with no measured size. */
  function Republished(info: Info, f: Format): Info {
    info.(published := Some(f), checkpointBytes := 0)
  }

  predicate Stopped(p: Plan) {
    FormatUnsupported in p.blockers || WeightsOverflow in p.blockers
  }

  lemma StoppedIff(info: Info, node: Node, want: int, archOf: string -> Arch)
    requires |node.gpus| > 0 && !OlderThan(node.driver, node.torch)
    ensures Stopped(PlanOf(info, node, want, archOf))
       <==> !(FormatRuns(info, node, archOf) && WeightsFit(info, node, archOf))
  {
    var p := PlanOf(info, node, want, archOf);
    if !FormatRuns(info, node, archOf) {
      assert p.blockers == [FormatUnsupported];
    } else if !WeightsFit(info, node, archOf) {
      assert p.blockers[0] == WeightsOverflow;
    }
  }

  lemma AdvisableIffReplans(info: Info, node: Node, want: int, archOf: string -> Arch, f: Format)
    requires |node.gpus| > 0 && !OlderThan(node.driver, node.torch)
    requires CanonicalQuant(f) == f
    ensures var a := NodeArch(node.gpus, archOf);
            Advisable(info, a, FormatOf(info, a), Usable(info, node), f)
            <==> QuantPercent(f) < QuantPercent(FormatOf(info, a))
                 && !Stopped(PlanOf(Republished(info, f), node, want, archOf))
  {
    var again := Republished(info, f);
    StoppedIff(again, node, want, archOf);
    assert TpOf(again, node) == TpOf(info, node);
  }

  /** When the weights overflow, the plan recommends a pre-quantized publication
      exactly when some smaller format, planned again on the same node, passes both
      the format and the weight check. */
  lemma AdviceIsSoundAndComplete(info: Info, node: Node, want: int, archOf: string -> Arch)
    requires |node.gpus| > 0 && !OlderThan(node.driver, node.torch)
    requires FormatRuns(info, node, archOf) && !WeightsFit(info, node, archOf)
    ensures var current := QuantPercent(FormatOf(info, NodeArch(node.gpus, archOf)));
            PlanOf(info, node, want, archOf).needsQuantized
            <==> exists f :: f in [Fp8, Awq] && QuantPercent(f) < current
                             && !Stopped(PlanOf(Republished(info, f), node, want, archOf))
  {
    AdvisableIffReplans(info, node, want, archOf, Fp8);
    AdvisableIffReplans(info, node, want, archOf, Awq);
    assert Fp8 in [Fp8, Awq] && Awq in [Fp8, Awq];
  }
}
