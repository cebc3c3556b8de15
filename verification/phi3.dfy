/**
 * The Phi-3 model for MLX: its configuration as decoded from config.json,
 * the shapes its attention layers are built with, the choice of output
 * head, and the chunked prefill that feeds a long prompt to the model one
 * window at a time. The tensor arithmetic of the forward pass is not
 * modelled: a forward call is recorded by the tokens it is given.
 */
module Phi3 {
  import opened Wrappers
  import opened LanguageModels

  /** The "rope_scaling" object; every field may be missing. */
  datatype RopeScaling = RopeScaling(
    longFactor: Option<seq<real>>, shortFactor: Option<seq<real>>, factor: Option<real>,
    scalingType: Option<string>, longMScale: Option<real>, shortMScale: Option<real>)

  datatype Phi3Configuration = Phi3Configuration(
    hiddenSize: int, hiddenLayers: int, intermediateSize: int, attentionHeads: int, rmsNormEps: real,
    vocabularySize: int, kvHeads: int, ropeTheta: real, ropeTraditional: bool, ropeScaling: Option<RopeScaling>,
    partialRotaryFactor: real, maxPositionEmbeddings: int, originalMaxPositionEmbeddings: int,
    tieWordEmbeddings: bool)

  /** A JSON array of numbers. */
  function AsFloats(j: Json): (r: Option<seq<real>>)
    ensures r.Some? <==> j.JArray? && forall i :: 0 <= i < |j.items| ==> j.items[i].JNumber?
    ensures r.Some? ==> |r.value| == |j.items| && forall i :: 0 <= i < |j.items| ==> j.items[i] == JNumber(r.value[i])
  {
    if j.JArray? && forall i :: 0 <= i < |j.items| ==> j.items[i].JNumber? then
      Some(seq(|j.items|, i requires 0 <= i < |j.items| && j.items[i].JNumber? => j.items[i].n))
    else None
  }

  function DecodeRopeScaling(j: Json): (r: Option<RopeScaling>)
    ensures r.Some? ==> j.JObject?
  {
    if !j.JObject? then None
    else
      var f := j.fields;
      var longFactor := DecodeIfPresent(f, "long_factor", AsFloats);
      var shortFactor := DecodeIfPresent(f, "short_factor", AsFloats);
      var factor := DecodeIfPresent(f, "factor", AsFloat);
      var scalingType := DecodeIfPresent(f, "type", AsString);
      var longMScale := DecodeIfPresent(f, "long_mscale", AsFloat);
      var shortMScale := DecodeIfPresent(f, "short_mscale", AsFloat);
      if longFactor.Ok? && shortFactor.Ok? && factor.Ok? && scalingType.Ok? && longMScale.Ok? && shortMScale.Ok? then
        Some(RopeScaling(longFactor.value, shortFactor.value, factor.value, scalingType.value, longMScale.value, shortMScale.value))
      else None
  }

  /** True when `key` is missing from the object or null, so `decodeIfPresent` gives nil. */
  predicate Absent(f: map<string, Json>, key: string)
  {
    key !in f || f[key].JNull?
  }

  /** An integral JSON number under `key`. */
  predicate IsIntNumber(f: map<string, Json>, key: string)
  {
    key in f && AsInt(f[key]).Some?
  }

  /** An optional key that is missing, null, or holds a value `read` accepts. */
  predicate DecodesIfPresent<T>(f: map<string, Json>, key: string, read: Json -> Option<T>)
  {
    Absent(f, key) || read(f[key]).Some?
  }

  /** The seven sizes the decoder reads first, all required. */
  datatype Sizes = Sizes(
    hiddenSize: int, hiddenLayers: int, intermediateSize: int, attentionHeads: int, rmsNormEps: real,
    vocabularySize: int, kvHeads: int)

  /** When the leading sizes decode: each is an integral number, and the norm epsilon a number. */
  predicate SizesDecode(f: map<string, Json>)
  {
    IsIntNumber(f, "hidden_size") && IsIntNumber(f, "num_hidden_layers") &&
    IsIntNumber(f, "intermediate_size") && IsIntNumber(f, "num_attention_heads") &&
    "rms_norm_eps" in f && f["rms_norm_eps"].JNumber? &&
    IsIntNumber(f, "vocab_size") && IsIntNumber(f, "num_key_value_heads")
  }

  function DecodeSizes(f: map<string, Json>): (r: Result<Sizes, DecodeError>)
    ensures r.Ok? <==> SizesDecode(f)
    ensures "hidden_size" !in f ==> r == Err(KeyNotFound("hidden_size"))
    ensures r.Ok? ==>
      f["hidden_size"] == JNumber(r.value.hiddenSize as real) &&
      f["num_hidden_layers"] == JNumber(r.value.hiddenLayers as real) &&
      f["intermediate_size"] == JNumber(r.value.intermediateSize as real) &&
      f["num_attention_heads"] == JNumber(r.value.attentionHeads as real) &&
      f["rms_norm_eps"] == JNumber(r.value.rmsNormEps) &&
      f["vocab_size"] == JNumber(r.value.vocabularySize as real) &&
      f["num_key_value_heads"] == JNumber(r.value.kvHeads as real)
  {
    var hiddenSize :- Decode(f, "hidden_size", AsInt);
    var hiddenLayers :- Decode(f, "num_hidden_layers", AsInt);
    var intermediateSize :- Decode(f, "intermediate_size", AsInt);
    var attentionHeads :- Decode(f, "num_attention_heads", AsInt);
    var rmsNormEps :- Decode(f, "rms_norm_eps", AsFloat);
    var vocabularySize :- Decode(f, "vocab_size", AsInt);
    var kvHeads :- Decode(f, "num_key_value_heads", AsInt);
    Ok(Sizes(hiddenSize, hiddenLayers, intermediateSize, attentionHeads, rmsNormEps, vocabularySize, kvHeads))
  }

  /** The four optional rope settings the decoder reads next, `None` where absent. */
  datatype RopeSettings = RopeSettings(
    theta: Option<real>, traditional: Option<bool>, scaling: Option<RopeScaling>, partialRotaryFactor: Option<real>)

  predicate RopeSettingsDecode(f: map<string, Json>)
  {
    DecodesIfPresent(f, "rope_theta", AsFloat) && DecodesIfPresent(f, "rope_traditional", AsBool) &&
    DecodesIfPresent(f, "rope_scaling", DecodeRopeScaling) && DecodesIfPresent(f, "partial_rotary_factor", AsFloat)
  }

  function DecodeRopeSettings(f: map<string, Json>): (r: Result<RopeSettings, DecodeError>)
    ensures r.Ok? <==> RopeSettingsDecode(f)
    ensures r.Ok? ==>
      (r.value.theta.None? <==> Absent(f, "rope_theta")) &&
      (r.value.traditional.None? <==> Absent(f, "rope_traditional")) &&
      (r.value.scaling.None? <==> Absent(f, "rope_scaling")) &&
      (r.value.partialRotaryFactor.None? <==> Absent(f, "partial_rotary_factor"))
    ensures r.Ok? ==>
      (r.value.theta.Some? ==> f["rope_theta"] == JNumber(r.value.theta.value)) &&
      (r.value.traditional.Some? ==> f["rope_traditional"] == JBool(r.value.traditional.value)) &&
      (r.value.scaling.Some? ==> r.value.scaling == DecodeRopeScaling(f["rope_scaling"])) &&
      (r.value.partialRotaryFactor.Some? ==> f["partial_rotary_factor"] == JNumber(r.value.partialRotaryFactor.value))
  {
    var theta :- DecodeIfPresent(f, "rope_theta", AsFloat);
    var traditional :- DecodeIfPresent(f, "rope_traditional", AsBool);
    var scaling :- DecodeIfPresent(f, "rope_scaling", DecodeRopeScaling);
    var partialRotaryFactor :- DecodeIfPresent(f, "partial_rotary_factor", AsFloat);
    Ok(RopeSettings(theta, traditional, scaling, partialRotaryFactor))
  }

  /** The two position limits, required, and the optional tying flag the decoder reads last. */
  datatype Positions = Positions(maxPositionEmbeddings: int, originalMaxPositionEmbeddings: int, tieWordEmbeddings: Option<bool>)

  predicate PositionsDecode(f: map<string, Json>)
  {
    IsIntNumber(f, "max_position_embeddings") && IsIntNumber(f, "original_max_position_embeddings") &&
    DecodesIfPresent(f, "tie_word_embeddings", AsBool)
  }

  function DecodePositions(f: map<string, Json>): (r: Result<Positions, DecodeError>)
    ensures r.Ok? <==> PositionsDecode(f)
    ensures r.Ok? ==>
      f["max_position_embeddings"] == JNumber(r.value.maxPositionEmbeddings as real) &&
      f["original_max_position_embeddings"] == JNumber(r.value.originalMaxPositionEmbeddings as real) &&
      (r.value.tieWordEmbeddings.None? <==> Absent(f, "tie_word_embeddings")) &&
      (r.value.tieWordEmbeddings.Some? ==> f["tie_word_embeddings"] == JBool(r.value.tieWordEmbeddings.value))
  {
    var maxPositionEmbeddings :- Decode(f, "max_position_embeddings", AsInt);
    var originalMaxPositionEmbeddings :- Decode(f, "original_max_position_embeddings", AsInt);
    var tieWordEmbeddings :- DecodeIfPresent(f, "tie_word_embeddings", AsBool);
    Ok(Positions(maxPositionEmbeddings, originalMaxPositionEmbeddings, tieWordEmbeddings))
  }

  /** When the configuration decodes: an object whose three runs of keys each decode. */
  predicate Phi3Decodes(j: Json)
  {
    j.JObject? && SizesDecode(j.fields) && RopeSettingsDecode(j.fields) && PositionsDecode(j.fields)
  }

  /**
   * The configuration's decoder: the sizes are required, and a missing
   * rope base, rope style, rotary fraction or tying flag takes its default.
   * Keys are decoded in declaration order and the first failure is reported.
   */
  function DecodePhi3Configuration(j: Json): (r: Result<Phi3Configuration, DecodeError>)
    ensures !j.JObject? ==> r == Err(NotAnObject)
    ensures j.JObject? && "hidden_size" !in j.fields ==> r == Err(KeyNotFound("hidden_size"))
    ensures r.Ok? ==> j.JObject?
    ensures r.Ok? ==> Absent(j.fields, "rope_theta") ==> r.value.ropeTheta == 10000.0
    ensures r.Ok? ==> Absent(j.fields, "rope_traditional") ==> !r.value.ropeTraditional
    ensures r.Ok? ==> Absent(j.fields, "partial_rotary_factor") ==> r.value.partialRotaryFactor == 1.0
    ensures r.Ok? ==> Absent(j.fields, "tie_word_embeddings") ==> !r.value.tieWordEmbeddings
    ensures r.Ok? ==> (r.value.ropeScaling.None? <==> Absent(j.fields, "rope_scaling"))
    ensures r.Ok? ==> "vocab_size" in j.fields && j.fields["vocab_size"] == JNumber(r.value.vocabularySize as real)
    ensures r.Ok? ==> "num_hidden_layers" in j.fields && j.fields["num_hidden_layers"] == JNumber(r.value.hiddenLayers as real)
    ensures r.Ok? ==> "num_key_value_heads" in j.fields && j.fields["num_key_value_heads"] == JNumber(r.value.kvHeads as real)
    ensures r.Ok? <==> Phi3Decodes(j)
  {
    if !j.JObject? then Err(NotAnObject)
    else
      var sizes :- DecodeSizes(j.fields);
      var rope :- DecodeRopeSettings(j.fields);
      var positions :- DecodePositions(j.fields);
      Ok(Phi3Configuration(
        sizes.hiddenSize, sizes.hiddenLayers, sizes.intermediateSize, sizes.attentionHeads, sizes.rmsNormEps,
        sizes.vocabularySize, sizes.kvHeads, rope.theta.GetOr(10000.0), rope.traditional.GetOr(false),
        rope.scaling, rope.partialRotaryFactor.GetOr(1.0), positions.maxPositionEmbeddings,
        positions.originalMaxPositionEmbeddings, positions.tieWordEmbeddings.GetOr(false)))
  }

  /**
   * Every field of a decoded configuration is the value under its key:
   * the required sizes always, the optional settings whenever their key
   * is given.
   */
  lemma DecodedConfigurationCarriesKeys(j: Json)
    requires DecodePhi3Configuration(j).Ok?
    ensures var c, f := DecodePhi3Configuration(j).value, j.fields;
      f["hidden_size"] == JNumber(c.hiddenSize as real) &&
      f["num_hidden_layers"] == JNumber(c.hiddenLayers as real) &&
      f["intermediate_size"] == JNumber(c.intermediateSize as real) &&
      f["num_attention_heads"] == JNumber(c.attentionHeads as real) &&
      f["rms_norm_eps"] == JNumber(c.rmsNormEps) &&
      f["vocab_size"] == JNumber(c.vocabularySize as real) &&
      f["num_key_value_heads"] == JNumber(c.kvHeads as real) &&
      f["max_position_embeddings"] == JNumber(c.maxPositionEmbeddings as real) &&
      f["original_max_position_embeddings"] == JNumber(c.originalMaxPositionEmbeddings as real)
    ensures var c, f := DecodePhi3Configuration(j).value, j.fields;
      (!Absent(f, "rope_theta") ==> f["rope_theta"] == JNumber(c.ropeTheta)) &&
      (!Absent(f, "rope_traditional") ==> f["rope_traditional"] == JBool(c.ropeTraditional)) &&
      (!Absent(f, "rope_scaling") ==> c.ropeScaling == DecodeRopeScaling(f["rope_scaling"])) &&
      (!Absent(f, "partial_rotary_factor") ==> f["partial_rotary_factor"] == JNumber(c.partialRotaryFactor)) &&
      (!Absent(f, "tie_word_embeddings") ==> f["tie_word_embeddings"] == JBool(c.tieWordEmbeddings))
  {
  }

  /**
   * A configuration that gives every required size as a number and none of
   * the optional keys decodes, with every default in place.
   */
  lemma RequiredKeysSuffice(f: map<string, Json>)
    requires IsIntNumber(f, "hidden_size") && IsIntNumber(f, "num_hidden_layers")
    requires IsIntNumber(f, "intermediate_size") && IsIntNumber(f, "num_attention_heads")
    requires "rms_norm_eps" in f && f["rms_norm_eps"].JNumber?
    requires IsIntNumber(f, "vocab_size") && IsIntNumber(f, "num_key_value_heads")
    requires IsIntNumber(f, "max_position_embeddings") && IsIntNumber(f, "original_max_position_embeddings")
    requires Absent(f, "rope_theta") && Absent(f, "rope_traditional") && Absent(f, "rope_scaling")
    requires Absent(f, "partial_rotary_factor") && Absent(f, "tie_word_embeddings")
    ensures var r := DecodePhi3Configuration(JObject(f));
      r.Ok? && r.value.ropeTheta == 10000.0 && !r.value.ropeTraditional && r.value.ropeScaling.None? &&
      r.value.partialRotaryFactor == 1.0 && !r.value.tieWordEmbeddings &&
      r.value.hiddenSize as real == f["hidden_size"].n && r.value.attentionHeads as real == f["num_attention_heads"].n
  {
  }

  /** `Int(x)` of a float: the integer part, rounding toward zero. */
  function TruncateToInt(x: real): (r: int)
    ensures x >= 0.0 ==> r as real <= x < r as real + 1.0
    ensures x < 0.0 ==> r as real - 1.0 < x <= r as real
  {
    if x >= 0.0 then x.Floor else -((-x).Floor)
  }

  /**
   * The shapes one attention layer is built with: the head width, the
   * rotary width, and the fused query/key/value projection with the two
   * points where it is split into queries, keys and values.
   */
  datatype AttentionShape = AttentionShape(headDim: int, ropeDim: int, qkvWidth: int, queryEnd: int, keyEnd: int, outputWidth: int)

  function AttentionShapeOf(args: Phi3Configuration): (s: AttentionShape)
    requires args.attentionHeads > 0 && args.hiddenSize >= 0 && args.kvHeads >= 0
    ensures s.headDim * args.attentionHeads <= args.hiddenSize < (s.headDim + 1) * args.attentionHeads
    ensures s.queryEnd == args.attentionHeads * s.headDim
    ensures s.keyEnd - s.queryEnd == args.kvHeads * s.headDim
    ensures s.qkvWidth - s.keyEnd == args.kvHeads * s.headDim
    ensures 0 <= s.queryEnd <= s.keyEnd <= s.qkvWidth
    ensures s.outputWidth == s.queryEnd
  {
    var headDim := args.hiddenSize / args.attentionHeads;
    var queryPos := args.attentionHeads * headDim;
    AttentionShape(headDim, TruncateToInt(headDim as real * args.partialRotaryFactor),
      (args.attentionHeads + 2 * args.kvHeads) * headDim, queryPos, queryPos + args.kvHeads * headDim,
      args.attentionHeads * headDim)
  }

  /** A linear layer without bias, by its input and output widths. */
  datatype Linear = Linear(inputDimensions: int, outputDimensions: int)

  /** What turns the final hidden states into logits. */
  datatype Head = TiedEmbedding | Projection(linear: Linear)

  /**
   * The head choice of the forward pass: the embedding table when
   * embeddings are tied, else the separate `lm_head`; with neither the
   * program stops.
   */
  function HeadFor(tieWordEmbeddings: bool, lmHead: Option<Linear>): (r: Outcome<Head>)
    ensures r.Fatal? <==> !tieWordEmbeddings && lmHead.None?
    ensures r == Done(TiedEmbedding) <==> tieWordEmbeddings
    ensures r.Done? && r.value.Projection? ==> lmHead == Some(r.value.linear)
  {
    if tieWordEmbeddings then Done(TiedEmbedding)
    else if lmHead.Some? then Done(Projection(lmHead.value))
    else Fatal("Model configuration error: Neither tied embeddings nor lm_head is available")
  }

  /** The window `prepare` uses: the one asked for, or 512. */
  function PrefillStepSize(windowSize: Option<int>): int
  {
    windowSize.GetOr(512)
  }

  /** The windows the prefill loop feeds to the model, in order. */
  function Chunks(y: seq<int>, w: nat): seq<seq<int>>
    requires w > 0
    decreases |y|
  {
    if |y| > w then [y[..w]] + Chunks(y[w..], w) else []
  }

  /** What the prefill loop leaves for the caller to evaluate. */
  function Remainder(y: seq<int>, w: nat): seq<int>
    requires w > 0
    decreases |y|
  {
    if |y| > w then Remainder(y[w..], w) else y
  }

  function Flatten(parts: seq<seq<int>>): seq<int>
  {
    if parts == [] then [] else parts[0] + Flatten(parts[1..])
  }

  /**
   * The remainder is at most one window, the loop takes a window exactly
   * while more than one window is left, and a short input is returned as
   * it is without calling the model.
   */
  lemma {:induction false} RemainderFitsWindow(y: seq<int>, w: nat)
    requires w > 0
    ensures |Remainder(y, w)| <= w
    ensures Chunks(y, w) == [] <==> |y| <= w
    ensures |y| <= w ==> Remainder(y, w) == y
    ensures |y| > 0 ==> |Remainder(y, w)| > 0
    decreases |y|
  {
    if |y| > w {
      RemainderFitsWindow(y[w..], w);
    }
  }

  /** Every chunk is one full window. */
  lemma {:induction false} ChunksAreWindows(y: seq<int>, w: nat)
    requires w > 0
    ensures forall i :: 0 <= i < |Chunks(y, w)| ==> |Chunks(y, w)[i]| == w
    decreases |y|
  {
    if |y| > w {
      ChunksAreWindows(y[w..], w);
      assert Chunks(y, w)[1..] == Chunks(y[w..], w);
    }
  }

  /** The chunks followed by the remainder give back the input. */
  lemma {:induction false} ChunksRebuildInput(y: seq<int>, w: nat)
    requires w > 0
    ensures Flatten(Chunks(y, w)) + Remainder(y, w) == y
    decreases |y|
  {
    if |y| > w {
      var head, rest := y[..w], y[w..];
      ChunksRebuildInput(rest, w);
      assert Chunks(y, w) == [head] + Chunks(rest, w);
      FlattenCons(head, Chunks(rest, w));
      assert head + rest == y;
      Regroup(head, Flatten(Chunks(rest, w)), Remainder(rest, w));
    }
  }

  lemma FlattenCons(head: seq<int>, parts: seq<seq<int>>)
    ensures Flatten([head] + parts) == head + Flatten(parts)
  {
    assert ([head] + parts)[1..] == parts;
  }

  lemma Regroup(a: seq<int>, b: seq<int>, c: seq<int>)
    ensures (a + b) + c == a + (b + c)
  {
  }

  /** The input's length is the chunks' windows plus the remainder. */
  lemma {:induction false} ChunkCount(y: seq<int>, w: nat)
    requires w > 0
    ensures |y| == |Chunks(y, w)| * w + |Remainder(y, w)|
    decreases |y|
  {
    if |y| > w {
      ChunkCount(y[w..], w);
      var k := |Chunks(y[w..], w)|;
      assert |Chunks(y, w)| == k + 1;
      assert (k + 1) * w == k * w + w;
    }
  }

  /** Chunk `i` is the `i`-th window of the input: tokens `i * w` up to `(i + 1) * w`. */
  lemma {:induction false} ChunkIsNextWindow(y: seq<int>, w: nat, i: nat)
    requires w > 0 && i < |Chunks(y, w)|
    ensures (i + 1) * w <= |y|
    ensures Chunks(y, w)[i] == y[i * w..(i + 1) * w]
    decreases |y|
  {
    assert |y| > w;
    if i > 0 {
      var rest := y[w..];
      assert Chunks(y, w)[i] == Chunks(rest, w)[i - 1];
      ChunkIsNextWindow(rest, w, i - 1);
      assert (i - 1) * w + w == i * w;
      assert i * w + w == (i + 1) * w;
      assert rest[(i - 1) * w..i * w] == y[i * w..(i + 1) * w];
    }
  }

  /** Sending the next window moves it from the chunks still to come to the calls made. */
  lemma PrefillStep(done: seq<seq<int>>, y: seq<int>, w: nat)
    requires w > 0 && |y| > w
    ensures done + Chunks(y, w) == (done + [y[..w]]) + Chunks(y[w..], w)
    ensures Remainder(y, w) == Remainder(y[w..], w)
  {
  }

  /** With the default window, a prompt of at most 512 tokens is left whole and no chunk is sent. */
  lemma DefaultWindowLeavesShortPrompt(input: seq<int>)
    requires |input| <= 512
    ensures PrefillStepSize(None) == 512
    ensures Remainder(input, 512) == input && Chunks(input, 512) == []
  {
    RemainderFitsWindow(input, 512);
  }

  class Phi3Model {
    const vocabularySize: int
    /** The key/value head count of each layer. */
    const kvHeads: seq<int>
    const args: Phi3Configuration
    /** The separate output projection, built only when embeddings are not tied. */
    const lmHead: Option<Linear>
    /** The inputs of every forward call so far, in order; they are what the caches have absorbed. */
    ghost var forwardInputs: seq<seq<int>>

    /** The model's layout as the initializer builds it. */
    ghost predicate Valid()
    {
      |kvHeads| == args.hiddenLayers &&
      (forall i :: 0 <= i < |kvHeads| ==> kvHeads[i] == args.kvHeads) &&
      (lmHead.Some? <==> !args.tieWordEmbeddings) &&
      (lmHead.Some? ==> lmHead.value == Linear(args.hiddenSize, args.vocabularySize)) &&
      vocabularySize == args.vocabularySize
    }

    /** The initializer traps on an empty vocabulary or a negative layer count. */
    constructor(args: Phi3Configuration)
      requires args.vocabularySize > 0 && args.hiddenLayers >= 0
      ensures this.args == args && Valid()
      ensures forwardInputs == []
    {
      vocabularySize := args.vocabularySize;
      kvHeads := seq(args.hiddenLayers, _ => args.kvHeads);
      this.args := args;
      lmHead := if !args.tieWordEmbeddings then Some(Linear(args.hiddenSize, args.vocabularySize)) else None;
      forwardInputs := [];
    }

    /** The forward pass: records what it is given and says which head makes the logits. */
    method CallAsFunction(inputs: seq<int>) returns (r: Outcome<Head>)
      modifies this`forwardInputs
      ensures forwardInputs == old(forwardInputs) + [inputs]
      ensures r == HeadFor(args.tieWordEmbeddings, lmHead)
    {
      forwardInputs := forwardInputs + [inputs];
      r := HeadFor(args.tieWordEmbeddings, lmHead);
    }

    /**
     * `prepare`: while more than a window of tokens is left, the next
     * window goes through the model and is dropped; what is left is
     * returned. The source's loop never throws, and on a model the
     * initializer built no forward call reaches the fatal head choice.
     */
    method Prepare(input: seq<int>, windowSize: Option<int>) returns (y: seq<int>)
      requires Valid()
      requires PrefillStepSize(windowSize) > 0
      modifies this`forwardInputs
      ensures y == Remainder(input, PrefillStepSize(windowSize))
      ensures forwardInputs == old(forwardInputs) + Chunks(input, PrefillStepSize(windowSize))
    {
      var prefillStepSize := PrefillStepSize(windowSize);
      y := input;
      while |y| > prefillStepSize
        invariant Remainder(y, prefillStepSize) == Remainder(input, prefillStepSize)
        invariant old(forwardInputs) + Chunks(input, prefillStepSize) == forwardInputs + Chunks(y, prefillStepSize)
        decreases |y|
      {
        var inputChunk := y[..prefillStepSize];
        PrefillStep(forwardInputs, y, prefillStepSize);
        var head := CallAsFunction(inputChunk);
        assert head.Done? by { ConstructedModelHasHead(this); }
        y := y[prefillStepSize..];
      }
      RemainderFitsWindow(y, prefillStepSize);
    }
  }

  /** A model built by the initializer never reaches the fatal branch, and its head produces one logit per vocabulary entry. */
  lemma ConstructedModelHasHead(m: Phi3Model)
    requires m.Valid()
    ensures HeadFor(m.args.tieWordEmbeddings, m.lmHead).Done?
    ensures HeadFor(m.args.tieWordEmbeddings, m.lmHead).value.Projection? ==>
      HeadFor(m.args.tieWordEmbeddings, m.lmHead).value.linear == Linear(m.args.hiddenSize, m.vocabularySize)
  {
  }
}
