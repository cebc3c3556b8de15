/**
 * What every MLX language model shares: the per-layer key/value caches it
 * creates, the fatal default of its forward pass, and the base
 * configuration read from a model's config.json to pick its type and
 * quantization.
 */
module LanguageModels {
  import opened Wrappers

  /**
   * A simple key/value cache for one layer. Its tensors are not modelled
   * (KVCache.swift is not part of this model); what matters here is its
   * identity.
   */
  class KVCacheSimple {
    constructor()
    {
    }
  }

  /**
   * `newCache` for a model that lists its key/value head counts: one new
   * cache per entry of `kvHeads`, in order, no two the same object.
   */
  method NewCache(kvHeads: seq<int>) returns (caches: seq<KVCacheSimple>)
    ensures |caches| == |kvHeads|
    ensures forall i :: 0 <= i < |caches| ==> fresh(caches[i])
    ensures forall i, j :: 0 <= i < j < |caches| ==> caches[i] != caches[j]
  {
    caches := [];
    for k := 0 to |kvHeads|
      invariant |caches| == k
      invariant forall i :: 0 <= i < k ==> fresh(caches[i])
      invariant forall i, j :: 0 <= i < j < k ==> caches[i] != caches[j]
    {
      var cache := new KVCacheSimple();
      caches := caches + [cache];
    }
  }

  /** What a call that may end the process gives: its value, or the fatal error that stops the program. */
  datatype Outcome<T> = Done(value: T) | Fatal(message: string)

  /**
   * The protocol's default forward pass: a model that does not provide its
   * own stops the program, whatever the input.
   */
  function DefaultCallAsFunction(typeName: string, inputs: seq<int>): (r: Outcome<seq<seq<real>>>)
    ensures r.Fatal?
    ensures |r.message| > |typeName|
  {
    Fatal("callAsFunction(inputs:cache:) not implemented for " + typeName)
  }

  /** A parsed JSON value. */
  datatype Json =
    | JNull
    | JBool(b: bool)
    | JNumber(n: real)
    | JString(s: string)
    | JArray(items: seq<Json>)
    | JObject(fields: map<string, Json>)

  /** Why decoding a configuration fails, as the JSON decoder reports it. */
  datatype DecodeError = NotAnObject | KeyNotFound(key: string) | ValueNotFound(key: string) | TypeMismatch(key: string)

  function AsInt(j: Json): (r: Option<int>)
    ensures r.Some? <==> j.JNumber? && j.n == j.n.Floor as real
    ensures r.Some? ==> r.value as real == j.n
  {
    if j.JNumber? && j.n == j.n.Floor as real then Some(j.n.Floor) else None
  }

  function AsFloat(j: Json): (r: Option<real>)
    ensures r.Some? <==> j.JNumber?
  {
    if j.JNumber? then Some(j.n) else None
  }

  function AsBool(j: Json): (r: Option<bool>)
    ensures r.Some? <==> j.JBool?
  {
    if j.JBool? then Some(j.b) else None
  }

  function AsString(j: Json): (r: Option<string>)
    ensures r.Some? <==> j.JString?
  {
    if j.JString? then Some(j.s) else None
  }

  /** Decoding a required key: it must be present, not null, and of the right type. */
  function Decode<T>(fields: map<string, Json>, key: string, read: Json -> Option<T>): (r: Result<T, DecodeError>)
    ensures r.Ok? <==> key in fields && read(fields[key]).Some?
    ensures r.Ok? ==> r.value == read(fields[key]).value
    ensures key !in fields ==> r == Err(KeyNotFound(key))
  {
    if key !in fields then Err(KeyNotFound(key))
    else if fields[key].JNull? && read(JNull).None? then Err(ValueNotFound(key))
    else match read(fields[key])
      case None => Err(TypeMismatch(key))
      case Some(v) => Ok(v)
  }

  /** Decoding an optional key: absent or null gives `None`; a value of the wrong type is an error. */
  function DecodeIfPresent<T>(fields: map<string, Json>, key: string, read: Json -> Option<T>): (r: Result<Option<T>, DecodeError>)
    ensures key !in fields || fields[key].JNull? ==> r == Ok(None)
    ensures key in fields && !fields[key].JNull? ==>
      (r.Ok? <==> read(fields[key]).Some?) && (r.Ok? ==> r.value == read(fields[key]))
  {
    if key !in fields || fields[key].JNull? then Ok(None)
    else match read(fields[key])
      case None => Err(TypeMismatch(key))
      case Some(v) => Ok(Some(v))
  }

  /** The weight quantization a model was saved with. */
  datatype Quantization = Quantization(groupSize: int, bits: int)

  /** `BaseConfiguration`: the model type, and the quantization when the model is quantized. */
  datatype BaseConfiguration = BaseConfiguration(modelType: string, quantization: Option<Quantization>)

  function DecodeQuantization(j: Json): (r: Option<Quantization>)
    ensures r.Some? <==> j.JObject? && Decode(j.fields, "group_size", AsInt).Ok? && Decode(j.fields, "bits", AsInt).Ok?
  {
    if !j.JObject? then None
    else match (Decode(j.fields, "group_size", AsInt), Decode(j.fields, "bits", AsInt))
      case (Ok(g), Ok(b)) => Some(Quantization(g, b))
      case _ => None
  }

  /**
   * Decoding the base configuration: "model_type" is required;
   * "quantization" may be absent or null, and otherwise needs both
   * "group_size" and "bits".
   */
  function DecodeBaseConfiguration(j: Json): (r: Result<BaseConfiguration, DecodeError>)
    ensures !j.JObject? ==> r == Err(NotAnObject)
    ensures j.JObject? && "model_type" !in j.fields ==> r == Err(KeyNotFound("model_type"))
    ensures r.Ok? ==> j.JObject? && j.fields["model_type"] == JString(r.value.modelType)
    ensures r.Ok? ==> (r.value.quantization.None? <==> "quantization" !in j.fields || j.fields["quantization"].JNull?)
  {
    if !j.JObject? then Err(NotAnObject)
    else
      match Decode(j.fields, "model_type", AsString)
      case Err(e) => Err(e)
      case Ok(modelType) =>
        match DecodeIfPresent(j.fields, "quantization", DecodeQuantization)
        case Err(e) => Err(e)
        case Ok(q) => Ok(BaseConfiguration(modelType, q))
  }

  /** The JSON the configuration encodes to: a nil quantization is left out. */
  function EncodeBaseConfiguration(c: BaseConfiguration): (j: Json)
    ensures j.JObject? && "model_type" in j.fields
  {
    var base := map["model_type" := JString(c.modelType)];
    match c.quantization
    case None => JObject(base)
    case Some(q) =>
      JObject(base["quantization" := JObject(map["group_size" := JNumber(q.groupSize as real), "bits" := JNumber(q.bits as real)])])
  }

  /** Every base configuration decodes back from its encoding. */
  lemma BaseConfigurationRoundTrip(c: BaseConfiguration)
    ensures DecodeBaseConfiguration(EncodeBaseConfiguration(c)) == Ok(c)
  {
    var j := EncodeBaseConfiguration(c);
    assert j.fields["model_type"] == JString(c.modelType);
    if c.quantization.Some? {
      var qj := j.fields["quantization"];
      assert qj.fields["group_size"] == JNumber(c.quantization.value.groupSize as real);
      assert qj.fields["bits"] == JNumber(c.quantization.value.bits as real);
      assert DecodeQuantization(qj) == c.quantization;
    }
  }
}
