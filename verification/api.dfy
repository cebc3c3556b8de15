/**
 * The C entry points of the MLX language-model library: creating a model
 * and its key/value caches behind opaque retained pointers, predicting the
 * next token, and releasing the pointers again. A pointer is a reference to
 * a `Retained` box that records what it points at and the Swift retain
 * count the pointer holds.
 */
module MlxApi {
  import opened Wrappers
  import opened LanguageModels
  import opened Phi3

  /** The two model families the library can load. */
  datatype ModelFamily = LlamaFamily | Phi3Family

  /** ASCII lower-casing of one character. */
  function LowerChar(c: char): (r: char)
    ensures 'A' <= c <= 'Z' ==> r as int == c as int + 32
    ensures !('A' <= c <= 'Z') ==> r == c
    ensures !('A' <= r <= 'Z')
  {
    if 'A' <= c <= 'Z' then (c as int + 32) as char else c
  }

  function ToLower(s: string): (r: string)
    ensures |r| == |s| && forall i :: 0 <= i < |s| ==> r[i] == LowerChar(s[i])
  {
    seq(|s|, i requires 0 <= i < |s| => LowerChar(s[i]))
  }

  /**
   * The family a model name selects, ignoring case: "llama2" and "llama3"
   * are Llama models, "phi3.5" and "phi4" are Phi-3 models, any other
   * name is unsupported.
   */
  function FamilyOf(modelName: string): (r: Option<ModelFamily>)
    ensures r == Some(LlamaFamily) <==> ToLower(modelName) in {"llama2", "llama3"}
    ensures r == Some(Phi3Family) <==> ToLower(modelName) in {"phi3.5", "phi4"}
    ensures r.None? <==> ToLower(modelName) !in {"llama2", "llama3", "phi3.5", "phi4"}
  {
    var name := ToLower(modelName);
    if name == "llama2" || name == "llama3" then Some(LlamaFamily)
    else if name == "phi3.5" || name == "phi4" then Some(Phi3Family)
    else None
  }

  /** Lower-casing twice changes nothing more, so a name selects the same family as its lower-cased form. */
  lemma FamilyIgnoresCase(modelName: string)
    ensures ToLower(ToLower(modelName)) == ToLower(modelName)
    ensures FamilyOf(ToLower(modelName)) == FamilyOf(modelName)
  {
    assert ToLower(ToLower(modelName)) == ToLower(modelName);
  }

  /** What a pointer handed to the C++ side points at. */
  datatype Payload =
    | LlamaModel(kvHeads: seq<int>)
    | Phi3Payload(model: Phi3Model)
    | CacheArray(caches: seq<KVCacheSimple>)

  function FamilyOfPayload(p: Payload): Option<ModelFamily>
  {
    match p
    case LlamaModel(_) => Some(LlamaFamily)
    case Phi3Payload(_) => Some(Phi3Family)
    case CacheArray(_) => None
  }

  /** An object passed out with `passRetained`, with the retain count the C++ side owns. */
  class Retained {
    const payload: Payload
    var retainCount: nat

    constructor(payload: Payload)
      ensures this.payload == payload && retainCount == 1
    {
      this.payload := payload;
      retainCount := 1;
    }
  }

  /** A model pointer that a name is about to reinterpret as that name's model type. */
  predicate PointsAtFamily(ptr: Retained?, modelName: Option<string>)
  {
    ptr != null && modelName.Some? && FamilyOf(modelName.value).Some? ==>
      FamilyOfPayload(ptr.payload) == FamilyOf(modelName.value)
  }

  /** The device the library computes on: the CPU when asked for by name, the GPU otherwise. */
  datatype Device = Cpu | Gpu

  function DeviceFor(deviceType: string): (d: Device)
    ensures d == Cpu <==> deviceType == "CPU"
  {
    if deviceType == "CPU" then Cpu else Gpu
  }

  /**
   * A Phi-3 configuration the model's initializer stops the program on: no
   * vocabulary, a negative layer count, or layers whose attention has no
   * heads to divide the hidden size among.
   */
  predicate InitializerTraps(args: Phi3Configuration)
  {
    args.vocabularySize <= 0 || args.hiddenLayers < 0 || (args.hiddenLayers > 0 && args.attentionHeads == 0)
  }

  /** Every argument of `llm_create` is given and the configuration file could be read. */
  predicate AllGiven(configPath: Option<string>, weightsDir: Option<string>, modelName: Option<string>,
                     deviceType: Option<string>, configFile: Option<Json>)
  {
    configPath.Some? && weightsDir.Some? && modelName.Some? && deviceType.Some? && configFile.Some?
  }

  /** The shared configuration decodes and the weights load with its quantization. */
  predicate WeightsLoad(configFile: Json, loadWeights: Option<Quantization> -> bool)
  {
    DecodeBaseConfiguration(configFile).Ok? && loadWeights(DecodeBaseConfiguration(configFile).value.quantization)
  }

  /**
   * `llm_create`. The configuration file's parsed contents (`None` when it
   * cannot be read), the Llama configuration's decoding (Llama.swift is not
   * part of this model) and the weight loading are parameters. Any nil
   * argument or unsupported name gives a nil pointer, as does every error
   * the function catches; a configuration the model's initializer rejects
   * stops the program.
   */
  method Create(configPath: Option<string>, weightsDir: Option<string>, modelName: Option<string>,
                deviceType: Option<string>, configFile: Option<Json>,
                llamaKvHeads: Json -> Option<seq<int>>, loadWeights: Option<Quantization> -> bool)
    returns (r: Outcome<Retained?>, device: Option<Device>)
    ensures configPath.None? || weightsDir.None? || modelName.None? || deviceType.None? ==>
      r == Done(null) && device.None?
    ensures configPath.Some? && weightsDir.Some? && modelName.Some? && deviceType.Some? ==>
      device == Some(DeviceFor(deviceType.value))
    ensures modelName.Some? && FamilyOf(modelName.value).None? ==> r == Done(null)
    ensures configFile.None? ==> r == Done(null)
    ensures r.Done? && r.value != null ==>
      fresh(r.value) && r.value.retainCount == 1 && modelName.Some? && configFile.Some? &&
      FamilyOfPayload(r.value.payload) == FamilyOf(modelName.value) &&
      DecodeBaseConfiguration(configFile.value).Ok? &&
      loadWeights(DecodeBaseConfiguration(configFile.value).value.quantization)
    ensures r.Done? && r.value != null && r.value.payload.Phi3Payload? ==>
      fresh(r.value.payload.model) && r.value.payload.model.Valid() &&
      DecodePhi3Configuration(configFile.value) == Ok(r.value.payload.model.args)
    ensures (AllGiven(configPath, weightsDir, modelName, deviceType, configFile) &&
             FamilyOf(modelName.value) == Some(LlamaFamily)) ==>
      r.Done? &&
      (r.value != null <==> llamaKvHeads(configFile.value).Some? && WeightsLoad(configFile.value, loadWeights)) &&
      (r.value != null ==> r.value.payload == LlamaModel(llamaKvHeads(configFile.value).value))
    ensures (AllGiven(configPath, weightsDir, modelName, deviceType, configFile) &&
             FamilyOf(modelName.value) == Some(Phi3Family)) ==>
      (r.Done? && r.value != null <==>
        DecodePhi3Configuration(configFile.value).Ok? && !InitializerTraps(DecodePhi3Configuration(configFile.value).value) &&
        WeightsLoad(configFile.value, loadWeights))
    ensures r.Fatal? <==>
      AllGiven(configPath, weightsDir, modelName, deviceType, configFile) &&
      FamilyOf(modelName.value) == Some(Phi3Family) &&
      DecodePhi3Configuration(configFile.value).Ok? && InitializerTraps(DecodePhi3Configuration(configFile.value).value)
  {
    if configPath.None? || weightsDir.None? || modelName.None? || deviceType.None? {
      return Done(null), None;
    }
    device := Some(DeviceFor(deviceType.value));
    if configFile.None? {
      return Done(null), device;
    }
    var data := configFile.value;
    var family := FamilyOf(modelName.value);
    if family == Some(LlamaFamily) {
      var kvHeads := llamaKvHeads(data);
      if kvHeads.None? {
        return Done(null), device;
      }
      var baseConfig := DecodeBaseConfiguration(data);
      if baseConfig.Err? || !loadWeights(baseConfig.value.quantization) {
        return Done(null), device;
      }
      var handle := new Retained(LlamaModel(kvHeads.value));
      return Done(handle), device;
    } else if family == Some(Phi3Family) {
      var config := DecodePhi3Configuration(data);
      if config.Err? {
        return Done(null), device;
      }
      var args := config.value;
      if InitializerTraps(args) {
        return Fatal("precondition failed while building the model"), device;
      }
      var model := new Phi3Model(args);
      var baseConfig := DecodeBaseConfiguration(data);
      if baseConfig.Err? || !loadWeights(baseConfig.value.quantization) {
        return Done(null), device;
      }
      var handle := new Retained(Phi3Payload(model));
      return Done(handle), device;
    } else {
      return Done(null), device;
    }
  }

  /** The key/value head counts of the model behind a pointer. */
  function KvHeadsOf(p: Payload): seq<int>
  {
    match p
    case LlamaModel(kvHeads) => kvHeads
    case Phi3Payload(model) => model.kvHeads
    case CacheArray(_) => []
  }

  /**
   * `llm_create_kvcache`: nil for a nil pointer or name or an unsupported
   * name; otherwise a new retained array of fresh caches, one per layer of
   * the model.
   */
  method CreateKvCache(llmPtr: Retained?, modelName: Option<string>) returns (r: Retained?)
    requires PointsAtFamily(llmPtr, modelName)
    ensures r == null <==> llmPtr == null || modelName.None? || FamilyOf(modelName.value).None?
    ensures r != null ==> (
      fresh(r) && r.retainCount == 1 && r.payload.CacheArray? &&
      |r.payload.caches| == |KvHeadsOf(llmPtr.payload)| &&
      (forall i :: 0 <= i < |r.payload.caches| ==> fresh(r.payload.caches[i])) &&
      (forall i, j :: 0 <= i < j < |r.payload.caches| ==> r.payload.caches[i] != r.payload.caches[j]))
  {
    if llmPtr == null || modelName.None? || FamilyOf(modelName.value).None? {
      return null;
    }
    var caches := NewCache(KvHeadsOf(llmPtr.payload));
    r := new Retained(CacheArray(caches));
  }

  /**
   * The index of the largest logit, the first one on a tie.
   */
  function ArgMax(row: seq<real>): (r: nat)
    requires |row| > 0
    ensures r < |row|
    ensures forall k :: 0 <= k < |row| ==> row[k] <= row[r]
    ensures forall k :: 0 <= k < r ==> row[k] < row[r]
    decreases |row|
  {
    if |row| == 1 then 0
    else
      var m := ArgMax(row[..|row| - 1]);
      if row[|row| - 1] > row[m] then |row| - 1 else m
  }

  /**
   * The token chosen from the logits of the last forward call: with greedy
   * search the arg-max of the last position's row, with any other search
   * -1. Indexing the last position of an empty result stops the program.
   */
  function PickToken(logits: seq<seq<real>>, searchType: string): (r: Outcome<int>)
    ensures searchType != "greedy" ==> r == Done(-1)
    ensures searchType == "greedy" && r.Done? ==>
      |logits| > 0 && var last := logits[|logits| - 1];
      0 <= r.value < |last| && forall k :: 0 <= k < |last| ==> last[k] <= last[r.value]
    ensures searchType == "greedy" && r.Fatal? <==> searchType == "greedy" && (|logits| == 0 || |logits[|logits| - 1]| == 0)
  {
    if searchType != "greedy" then Done(-1)
    else if |logits| == 0 || |logits[|logits| - 1]| == 0 then Fatal("index out of range")
    else Done(ArgMax(logits[|logits| - 1]))
  }

  /**
   * `llm_predict`. The forward pass's logits for the tokens finally given
   * to the model (one row per position) are the parameter `logitsOf`; the
   * Llama model's `prepare` is `llamaPrepare` (Llama.swift is not part of
   * this model), `None` when it throws. With `prepare` set, the input first
   * goes through the model's prefill with a window of 512; a prefill that
   * throws makes the prediction -1.
   */
  method Predict(llmPtr: Retained?, data: Option<seq<int>>, cachePtr: Retained?, modelName: Option<string>,
                 searchType: string, prepare: bool,
                 logitsOf: seq<int> -> seq<seq<real>>, llamaPrepare: seq<int> -> Option<seq<int>>)
    returns (r: Outcome<int>)
    requires PointsAtFamily(llmPtr, modelName)
    requires llmPtr != null && llmPtr.payload.Phi3Payload? ==> llmPtr.payload.model.Valid()
    modifies if llmPtr != null && llmPtr.payload.Phi3Payload? then {llmPtr.payload.model} else {}
    ensures llmPtr == null || data.None? || cachePtr == null || modelName.None? || FamilyOf(modelName.value).None? ==>
      r == Done(-1)
    ensures (llmPtr != null && data.Some? && cachePtr != null && modelName.Some? &&
      FamilyOf(modelName.value) == Some(Phi3Family)) ==>
      var model := llmPtr.payload.model;
      model.forwardInputs == old(model.forwardInputs) + PrefillCalls(data.value, prepare) &&
      r == Phi3Token(model, data.value, prepare, searchType, logitsOf)
    ensures (llmPtr != null && data.Some? && cachePtr != null && modelName.Some? &&
      FamilyOf(modelName.value) == Some(LlamaFamily)) ==>
      r == if prepare && llamaPrepare(data.value).None? then Done(-1)
           else PickToken(logitsOf(if prepare then llamaPrepare(data.value).value else data.value), searchType)
  {
    if llmPtr == null || data.None? || cachePtr == null || modelName.None? {
      return Done(-1);
    }
    var family := FamilyOf(modelName.value);
    if family == Some(LlamaFamily) {
      var input := data.value;
      if prepare {
        var prepared := llamaPrepare(data.value);
        if prepared.None? {
          return Done(-1);
        }
        input := prepared.value;
      }
      r := PickToken(logitsOf(input), searchType);
    } else if family == Some(Phi3Family) {
      r := PredictPhi3(llmPtr.payload.model, data.value, prepare, searchType, logitsOf);
    } else {
      r := Done(-1);
    }
  }

  /** The tokens a Phi-3 model is finally given: what the prefill leaves when `prepare` is set, else the whole input. */
  function GivenTokens(input: seq<int>, prepare: bool): seq<int>
  {
    if prepare then Remainder(input, 512) else input
  }

  /** The forward calls one prediction makes: the prefill windows, then the tokens left. */
  function PrefillCalls(input: seq<int>, prepare: bool): seq<seq<int>>
  {
    (if prepare then Chunks(input, 512) else []) + [GivenTokens(input, prepare)]
  }

  /** The outcome of a Phi-3 prediction: the head's fatal error, or the token picked from the logits. */
  function Phi3Token(model: Phi3Model, input: seq<int>, prepare: bool, searchType: string,
                     logitsOf: seq<int> -> seq<seq<real>>): Outcome<int>
  {
    var head := HeadFor(model.args.tieWordEmbeddings, model.lmHead);
    if head.Fatal? then Fatal(head.message) else PickToken(logitsOf(GivenTokens(input, prepare)), searchType)
  }

  /** The Phi-3 branch of `llm_predict`. */
  method PredictPhi3(model: Phi3Model, input: seq<int>, prepare: bool, searchType: string,
                     logitsOf: seq<int> -> seq<seq<real>>) returns (r: Outcome<int>)
    requires model.Valid()
    modifies model`forwardInputs
    ensures model.forwardInputs == old(model.forwardInputs) + PrefillCalls(input, prepare)
    ensures r == Phi3Token(model, input, prepare, searchType, logitsOf)
  {
    var given := input;
    if prepare {
      given := model.Prepare(input, Some(512));
    }
    assert given == GivenTokens(input, prepare);
    var head := model.CallAsFunction(given);
    assert head.Done? by { ConstructedModelHasHead(model); }
    r := PickToken(logitsOf(given), searchType);
  }

  /** A Phi-3 model built by `llm_create` never stops the program in `llm_predict` once the logits have a last row. */
  lemma ConstructedPhi3Predicts(model: Phi3Model, input: seq<int>, prepare: bool,
                                logitsOf: seq<int> -> seq<seq<real>>)
    requires model.Valid()
    requires |logitsOf(GivenTokens(input, prepare))| > 0
    requires var rows := logitsOf(GivenTokens(input, prepare)); |rows[|rows| - 1]| > 0
    ensures Phi3Token(model, input, prepare, "greedy", logitsOf).Done?
    ensures Phi3Token(model, input, prepare, "top_k", logitsOf) == Done(-1)
  {
    ConstructedModelHasHead(model);
  }

  /** With `prepare` set, at most 512 tokens reach the final forward call, and a prompt of at most 512 tokens is not split. */
  lemma PreparedInputFitsWindow(input: seq<int>)
    ensures |GivenTokens(input, true)| <= 512
    ensures |input| <= 512 ==> PrefillCalls(input, true) == [input]
  {
    RemainderFitsWindow(input, 512);
  }

  /**
   * `llm_free_model`: releases the model's retain when both arguments are
   * given and the name is supported; otherwise nothing happens, so a model
   * freed under an unsupported name stays allocated.
   */
  method FreeModel(llmPtr: Retained?, modelName: Option<string>)
    requires PointsAtFamily(llmPtr, modelName)
    requires llmPtr != null ==> llmPtr.retainCount >= 1
    modifies llmPtr
    ensures llmPtr != null && modelName.Some? && FamilyOf(modelName.value).Some? ==>
      llmPtr.retainCount == old(llmPtr.retainCount) - 1
    ensures llmPtr != null && (modelName.None? || FamilyOf(modelName.value).None?) ==>
      llmPtr.retainCount == old(llmPtr.retainCount)
  {
    if llmPtr == null || modelName.None? {
      return;
    }
    if FamilyOf(modelName.value).Some? {
      llmPtr.retainCount := llmPtr.retainCount - 1;
    }
  }

  /** `llm_free_kvcache`: releases the cache array's retain; nothing for nil. */
  method FreeKvCache(cachesPtr: Retained?)
    requires cachesPtr != null ==> cachesPtr.retainCount >= 1
    modifies cachesPtr
    ensures cachesPtr != null ==> cachesPtr.retainCount == old(cachesPtr.retainCount) - 1
  {
    if cachesPtr == null {
      return;
    }
    cachesPtr.retainCount := cachesPtr.retainCount - 1;
  }
}
