/**
 * The configuration of the ONNX Llama 2 pipeline: model dimensions and
 * tensor names, and the search (decoding) settings, loaded from the
 * parsed JSON configuration over the built-in defaults.
 */
module LlamaConfiguration {
  import opened Wrappers

  datatype ModelConfig = ModelConfig(
    bosTokenId: int, contextLength: int, eosTokenId: int, padTokenId: int, vocabSize: int,
    headSize: int, hiddenSize: int,
    inputNames: map<string, string>, outputNames: map<string, string>,
    numAttentionHeads: int, numHiddenLayers: int, numKeyValueHeads: int)

  datatype SearchMethod = Greedy | TopK | TopP | BeamSearch

  datatype SearchConfig = SearchConfig(
    searchMethod: SearchMethod, topK: int, topP: real, numBeams: int, temperature: real,
    stopOnEos: bool, maxLength: int, maxTotalLength: int, lengthPenalty: real, seed: int)

  /** The "model" object of the JSON file, with its "decoder" fields flattened. */
  datatype ModelJson = ModelJson(
    bosTokenId: int, contextLength: int, eosTokenId: int, padTokenId: int, vocabSize: int,
    headSize: int, hiddenSize: int, numAttentionHeads: int, numHiddenLayers: int, numKeyValueHeads: int,
    inputs: map<string, string>, outputs: map<string, string>)

  /** The "search" object of the JSON file. */
  datatype SearchJson = SearchJson(
    methodName: string, topK: int, topP: real, numBeams: int, temperature: real,
    stopOnEos: bool, maxLength: int, maxTotalLength: int)

  function DefaultModelConfig(): ModelConfig
  {
    ModelConfig(1, 4096, 2, 0, 32000, 128, 4096,
      map["input_ids" := "input_ids", "attention_mask" := "attention_mask", "position_ids" := "position_ids",
          "past_key_names" := "past_key_values.%d.key", "past_value_names" := "past_key_values.%d.value"],
      map["logits" := "logits", "present_key_names" := "present.%d.key", "present_value_names" := "present.%d.value"],
      32, 32, 32)
  }

  function DefaultSearchConfig(): SearchConfig
  {
    SearchConfig(Greedy, 1, 0.9, 1, 0.6, true, 1024, 2048, 0.75, 0)
  }

  /** The defaults form a loadable configuration: one beam, and room for a prompt before the generated text. */
  lemma DefaultsAreConsistent()
    ensures DefaultSearchConfig().maxTotalLength > DefaultSearchConfig().maxLength
    ensures DefaultSearchConfig().numBeams == 1 && DefaultSearchConfig().searchMethod == Greedy
    ensures "input_ids" in DefaultModelConfig().inputNames && "logits" in DefaultModelConfig().outputNames
  {
  }

  /** The model section over the previous model configuration: the names given are added or replaced, the others kept. */
  function LoadModel(previous: ModelConfig, j: ModelJson): (m: ModelConfig)
    ensures m.inputNames.Keys == previous.inputNames.Keys + j.inputs.Keys
    ensures forall k :: k in m.inputNames ==> m.inputNames[k] == if k in j.inputs then j.inputs[k] else previous.inputNames[k]
    ensures m.outputNames.Keys == previous.outputNames.Keys + j.outputs.Keys
    ensures forall k :: k in m.outputNames ==> m.outputNames[k] == if k in j.outputs then j.outputs[k] else previous.outputNames[k]
    ensures m.bosTokenId == j.bosTokenId && m.contextLength == j.contextLength
    ensures m.eosTokenId == j.eosTokenId && m.padTokenId == j.padTokenId
    ensures m.vocabSize == j.vocabSize && m.headSize == j.headSize && m.hiddenSize == j.hiddenSize
    ensures m.numAttentionHeads == j.numAttentionHeads
    ensures m.numHiddenLayers == j.numHiddenLayers && m.numKeyValueHeads == j.numKeyValueHeads
  {
    ModelConfig(j.bosTokenId, j.contextLength, j.eosTokenId, j.padTokenId, j.vocabSize, j.headSize, j.hiddenSize,
      previous.inputNames + j.inputs, previous.outputNames + j.outputs,
      j.numAttentionHeads, j.numHiddenLayers, j.numKeyValueHeads)
  }

  /** The search method a name selects. */
  function MethodNamed(name: string): Option<SearchMethod>
  {
    if name == "greedy" then Some(Greedy)
    else if name == "top_k" then Some(TopK)
    else if name == "top_p" then Some(TopP)
    else if name == "beam_search" then Some(BeamSearch)
    else None
  }

  /**
   * The search section over the previous search configuration, or `None`
   * for an unknown method. Only beam search reads "num_beams"; the other
   * methods set one beam, and read only the parameters they use.
   */
  function LoadSearch(previous: SearchConfig, j: SearchJson): (r: Option<SearchConfig>)
    ensures r.None? <==> MethodNamed(j.methodName).None?
    ensures r.Some? ==> r.value.searchMethod == MethodNamed(j.methodName).value
    ensures r.Some? ==> (r.value.numBeams == if r.value.searchMethod == BeamSearch then j.numBeams else 1)
    ensures r.Some? ==> (r.value.topK == if r.value.searchMethod in {TopK, BeamSearch} then j.topK else previous.topK)
    ensures r.Some? ==> (r.value.topP == if r.value.searchMethod in {TopP, BeamSearch} then j.topP else previous.topP)
    ensures r.Some? ==> r.value.maxLength == j.maxLength && r.value.maxTotalLength == j.maxTotalLength
    ensures r.Some? ==> r.value.temperature == j.temperature && r.value.stopOnEos == j.stopOnEos
    ensures r.Some? ==> r.value.lengthPenalty == previous.lengthPenalty && r.value.seed == previous.seed
  {
    var methodParams :=
      if j.methodName == "greedy" then Some(previous.(searchMethod := Greedy, numBeams := 1))
      else if j.methodName == "top_k" then Some(previous.(searchMethod := TopK, topK := j.topK, numBeams := 1))
      else if j.methodName == "top_p" then Some(previous.(searchMethod := TopP, topP := j.topP, numBeams := 1))
      else if j.methodName == "beam_search" then
        Some(previous.(searchMethod := BeamSearch, topK := j.topK, topP := j.topP, numBeams := j.numBeams))
      else None;
    match methodParams
    case None => None
    case Some(s) => Some(s.(temperature := j.temperature, stopOnEos := j.stopOnEos,
                             maxLength := j.maxLength, maxTotalLength := j.maxTotalLength))
  }

  /** The method names accepted are exactly the four search methods. */
  lemma MethodNames(name: string)
    ensures MethodNamed(name).Some? <==> name in {"greedy", "top_k", "top_p", "beam_search"}
  {
  }

  class LlamaConfig {
    var batchSize: int
    var model: ModelConfig
    var search: SearchConfig

    constructor()
      ensures batchSize == 1 && model == DefaultModelConfig() && search == DefaultSearchConfig()
    {
      batchSize := 1;
      model := DefaultModelConfig();
      search := DefaultSearchConfig();
    }

    /**
     * `LoadFromJson`: the model section always replaces the model fields;
     * an unknown search method fails with the search settings untouched;
     * otherwise the search settings are replaced, and loading fails when
     * the total length does not exceed the generation length.
     */
    method LoadFromJson(modelJson: ModelJson, searchJson: SearchJson) returns (ok: bool)
      modifies this`model, this`search
      ensures model == LoadModel(old(model), modelJson)
      ensures search == LoadSearch(old(search), searchJson).GetOr(old(search))
      ensures ok <==> MethodNamed(searchJson.methodName).Some? && searchJson.maxTotalLength > searchJson.maxLength
    {
      model := LoadModel(model, modelJson);
      var loaded := LoadSearch(search, searchJson);
      if loaded.None? {
        return false;
      }
      search := loaded.value;
      if search.maxTotalLength <= search.maxLength {
        return false;
      }
      return true;
    }
  }

  /**
   * What a successful load leaves: room beyond the generation length, and
   * at least one beam unless beam search is given a beam count below one,
   * which is taken unchecked.
   */
  lemma LoadedSearchIsUsable(previous: SearchConfig, j: SearchJson)
    requires LoadSearch(previous, j).Some? && j.maxTotalLength > j.maxLength
    ensures var s := LoadSearch(previous, j).value;
      s.maxTotalLength > s.maxLength && (s.searchMethod != BeamSearch ==> s.numBeams == 1)
    ensures var s := LoadSearch(previous, j).value;
      s.numBeams >= 1 <==> s.searchMethod != BeamSearch || j.numBeams >= 1
  {
  }
}
