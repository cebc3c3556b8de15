/**
 * The C++ driver of the MLX backend: it prepares a key/value cache for a
 * prompt, runs the greedy decode loop through `llm_predict` and frees the
 * model and the cache. `llm_predict` keeps state between calls (the
 * cache), so here it is a function of every call made so far in the run.
 */
module MlxInference {
  import opened Wrappers
  import opened LlamaConfiguration
  import opened MlxApi

  /** One call of `llm_predict`: the tokens passed and the `prepare` flag. */
  datatype PredictCall = PredictCall(tokens: seq<int>, prepare: bool)

  /** What a decode loop produced: the tokens kept, the calls made, and whether a call failed. */
  datatype Generation = Generation(tokens: seq<int>, calls: seq<PredictCall>, failed: bool)

  const SizeMax: int := 0x1_0000_0000_0000_0000

  /** An `int32_t` token stored as `uint32_t`. */
  function ToUInt32(t: int): (r: int)
    ensures 0 <= r < 0x1_0000_0000
    ensures 0 <= t < 0x1_0000_0000 ==> r == t
  {
    t % 0x1_0000_0000
  }

  /**
   * The loop's bound `n_all_tokens`: the input size plus `max_length`,
   * computed in `size_t`, so a negative `max_length` wraps around.
   */
  function AllTokens(inputSize: nat, maxLength: int): (r: int)
    ensures 0 <= r < SizeMax
    ensures 0 <= inputSize + maxLength < SizeMax ==> r == inputSize + maxLength
  {
    (inputSize + maxLength) % SizeMax
  }

  /** `max_total_length` as the `size_t` it is compared with. */
  function SizeT(n: int): int
  {
    n % SizeMax
  }

  /**
   * The decode loop as a specification: `remaining` more calls are due;
   * `predict` answers a call given every call of the run so far; -1 stops
   * the loop, any other answer is kept and becomes the next call's single
   * input token.
   */
  function Generate(predict: seq<PredictCall> -> int, history: seq<PredictCall>, next: PredictCall, remaining: nat): Generation
    decreases remaining
  {
    if remaining == 0 then Generation([], [], false)
    else
      var t := predict(history + [next]);
      if t == -1 then Generation([], [next], true)
      else
        var g := Generate(predict, history + [next], PredictCall([ToUInt32(t)], false), remaining - 1);
        Generation([ToUInt32(t)] + g.tokens, [next] + g.calls, g.failed)
  }

  /**
   * At most `remaining` tokens are produced, exactly that many unless a call
   * fails; there is one call per token plus the failing one; the first call
   * is `next`, and every later call passes just the previous token, never
   * with `prepare`.
   */
  lemma {:induction false} GenerateShape(predict: seq<PredictCall> -> int, history: seq<PredictCall>, next: PredictCall, remaining: nat)
    ensures var g := Generate(predict, history, next, remaining);
      |g.tokens| <= remaining &&
      (!g.failed ==> |g.tokens| == remaining) &&
      |g.calls| == |g.tokens| + (if g.failed then 1 else 0) &&
      (remaining > 0 ==> g.calls[0] == next) &&
      (forall i :: 0 < i < |g.calls| ==> g.calls[i] == PredictCall([g.tokens[i - 1]], false))
    decreases remaining
  {
    if remaining > 0 {
      var t := predict(history + [next]);
      if t != -1 {
        var g' := Generate(predict, history + [next], PredictCall([ToUInt32(t)], false), remaining - 1);
        GenerateShape(predict, history + [next], PredictCall([ToUInt32(t)], false), remaining - 1);
        var g := Generate(predict, history, next, remaining);
        assert g.tokens == [ToUInt32(t)] + g'.tokens && g.calls == [next] + g'.calls;
        forall i | 0 < i < |g.calls|
          ensures g.calls[i] == PredictCall([g.tokens[i - 1]], false)
        {
          if i == 1 {
            if |g'.calls| > 0 {
              assert g'.calls[0] == PredictCall([ToUInt32(t)], false);
            }
          } else {
            assert g.calls[i] == g'.calls[i - 1];
            assert g.tokens[i - 1] == g'.tokens[i - 2];
          }
        }
      }
    }
  }

  /** A run's later part `g`, after the tokens and calls already made. */
  function After(produced: seq<int>, calls: seq<PredictCall>, g: Generation): Generation
  {
    Generation(produced + g.tokens, calls + g.calls, g.failed)
  }

  /** Nothing before a run leaves it as it is; a run after a run after a prefix is a run after both. */
  lemma AfterComposes(produced: seq<int>, calls: seq<PredictCall>, produced': seq<int>, calls': seq<PredictCall>, g: Generation)
    ensures After([], [], g) == g
    ensures After(produced, calls, After(produced', calls', g)) == After(produced + produced', calls + calls', g)
  {
    assert [] + g.tokens == g.tokens;
    assert [] + g.calls == g.calls;
    assert produced + (produced' + g.tokens) == (produced + produced') + g.tokens;
    assert calls + (calls' + g.calls) == (calls + calls') + g.calls;
  }

  /** One step of the loop: the first call, then the rest of the run from its answer. */
  lemma GenerateStep(predict: seq<PredictCall> -> int, history: seq<PredictCall>, next: PredictCall, remaining: nat)
    requires remaining > 0
    ensures var t := predict(history + [next]);
      Generate(predict, history, next, remaining) ==
        if t == -1 then Generation([], [next], true)
        else After([ToUInt32(t)], [next], Generate(predict, history + [next], PredictCall([ToUInt32(t)], false), remaining - 1))
  {
  }

  /**
   * Each kept token of `g` is what `predict` answered to the calls up to
   * it, and a failed run ends with a call answered by -1.
   */
  predicate Answered(predict: seq<PredictCall> -> int, history: seq<PredictCall>, g: Generation)
  {
    |g.tokens| <= |g.calls| &&
    (forall i :: 0 <= i < |g.tokens| ==> TokenAnswered(predict, history, g, i)) &&
    (g.failed ==> |g.calls| > 0 && predict(history + g.calls) == -1)
  }

  /** Token `i` of `g` is the answer, other than -1, to the calls up to and including call `i`. */
  predicate TokenAnswered(predict: seq<PredictCall> -> int, history: seq<PredictCall>, g: Generation, i: int)
  {
    0 <= i < |g.tokens| && i < |g.calls| &&
    predict(history + g.calls[..i + 1]) != -1 && g.tokens[i] == ToUInt32(predict(history + g.calls[..i + 1]))
  }

  /** A call answered by `t` other than -1, followed by a run that answers its calls, answers its calls. */
  lemma {:induction false} AnsweredExtend(predict: seq<PredictCall> -> int, history: seq<PredictCall>, next: PredictCall, g': Generation)
    requires predict(history + [next]) != -1
    requires Answered(predict, history + [next], g')
    ensures Answered(predict, history, After([ToUInt32(predict(history + [next]))], [next], g'))
  {
    var h := history + [next];
    var g := After([ToUInt32(predict(h))], [next], g');
    forall i | 0 <= i < |g.tokens|
      ensures TokenAnswered(predict, history, g, i)
    {
      if i == 0 {
        assert g.calls[..1] == [next];
      } else {
        assert TokenAnswered(predict, h, g', i - 1);
        assert g.tokens[i] == g'.tokens[i - 1];
        assert history + g.calls[..i + 1] == h + g'.calls[..(i - 1) + 1];
      }
    }
    assert g.calls == [next] + g'.calls && g.failed == g'.failed;
    if g.failed {
      assert history + g.calls == h + g'.calls;
      assert predict(history + g.calls) == -1;
    }
  }

  /** Every token the loop keeps answers the calls before it, and a failure is a -1 answer. */
  lemma {:induction false} GenerateAnswers(predict: seq<PredictCall> -> int, history: seq<PredictCall>, next: PredictCall, remaining: nat)
    ensures Answered(predict, history, Generate(predict, history, next, remaining))
    decreases remaining
  {
    if remaining > 0 {
      var t := predict(history + [next]);
      GenerateStep(predict, history, next, remaining);
      if t == -1 {
        assert (history + [next])[..|history| + 1] == history + [next];
      } else {
        GenerateAnswers(predict, history + [next], PredictCall([ToUInt32(t)], false), remaining - 1);
        AnsweredExtend(predict, history, next, Generate(predict, history + [next], PredictCall([ToUInt32(t)], false), remaining - 1));
      }
    }
  }

  /** The number of calls the loop has room for. */
  function Budget(inputSize: nat, maxLength: int): nat
  {
    var nAll := AllTokens(inputSize, maxLength);
    if nAll > inputSize then nAll - inputSize else 0
  }

  /** Does the input leave room for `max_length` more tokens? */
  predicate Fits(inputSize: nat, search: SearchConfig)
  {
    AllTokens(inputSize, search.maxLength) <= SizeT(search.maxTotalLength)
  }

  /** The run a greedy search makes on `input`. */
  function RunOf(input: seq<int>, search: SearchConfig, predict: seq<PredictCall> -> int): Generation
  {
    Generate(predict, [], PredictCall(input, true), Budget(|input|, search.maxLength))
  }

  /**
   * With a non-negative `max_length` that fits in `size_t`, a greedy run
   * keeps at most `max_length` tokens, exactly that many unless a call
   * fails; only its first call passes the whole input with `prepare`, and
   * every later call passes just the token before it.
   */
  lemma RunShape(input: seq<int>, search: SearchConfig, predict: seq<PredictCall> -> int)
    requires 0 <= search.maxLength && |input| + search.maxLength < SizeMax
    ensures var g := RunOf(input, search, predict);
      |g.tokens| <= search.maxLength &&
      (!g.failed ==> |g.tokens| == search.maxLength) &&
      |g.calls| == |g.tokens| + (if g.failed then 1 else 0) &&
      (search.maxLength > 0 ==> g.calls[0] == PredictCall(input, true)) &&
      (forall i :: 0 < i < |g.calls| ==> g.calls[i] == PredictCall([g.tokens[i - 1]], false))
  {
    assert Budget(|input|, search.maxLength) == search.maxLength;
    GenerateShape(predict, [], PredictCall(input, true), search.maxLength);
  }

  class LLMInference {
    const modelName: string
    /** The search settings of the loaded configuration. */
    var search: SearchConfig
    var inference: Retained?
    var kvCache: Retained?
    /** The tokens of the current run; `Run` returns a view of them. */
    var outputData: seq<int>
    var errorMessage: string

    constructor(modelName: string, search: SearchConfig, inference: Retained?)
      ensures this.modelName == modelName && this.search == search && this.inference == inference
      ensures kvCache == null && outputData == [] && errorMessage == ""
    {
      this.modelName := modelName;
      this.search := search;
      this.inference := inference;
      kvCache := null;
      outputData := [];
      errorMessage := "";
    }

    /** The model pointer is the model the name stands for. */
    predicate Consistent()
      reads this
    {
      PointsAtFamily(inference, Some(modelName))
    }

    /** `Prepare`: clears the output and creates a fresh cache for the model. */
    method Prepare()
      requires Consistent()
      modifies this`outputData, this`kvCache
      ensures outputData == []
      ensures kvCache == null <==> inference == null || FamilyOf(modelName).None?
      ensures kvCache != null ==> fresh(kvCache) && kvCache.retainCount == 1 && kvCache.payload.CacheArray?
    {
      outputData := [];
      kvCache := CreateKvCache(inference, Some(modelName));
    }

    /**
     * `Run`: refuses an input that leaves no room for `max_length` tokens
     * and any search but greedy, without calling the model; otherwise
     * decodes, appending every token produced, and stops with an error at
     * the first -1. `predict` stands for `llm_predict` on this model and
     * cache, answering each call given the calls of the run so far.
     */
    method Run(input: seq<int>, predict: seq<PredictCall> -> int) returns (output: seq<int>, calls: seq<PredictCall>)
      modifies this`outputData, this`errorMessage
      ensures output == outputData
      ensures !Fits(|input|, search) ==>
        outputData == old(outputData) && calls == [] && errorMessage == "Input tokens + max_length exceeds max_total_length"
      ensures Fits(|input|, search) && search.searchMethod != Greedy ==>
        outputData == old(outputData) && calls == [] && errorMessage == "Search method is not implemented"
      ensures Fits(|input|, search) && search.searchMethod == Greedy ==>
        var g := RunOf(input, search, predict);
        outputData == old(outputData) + g.tokens && calls == g.calls &&
        errorMessage == (if g.failed then "Failed to retrieve next token" else "")
    {
      calls := [];
      var nAllTokens := AllTokens(|input|, search.maxLength);
      if nAllTokens > SizeT(search.maxTotalLength) {
        errorMessage := "Input tokens + max_length exceeds max_total_length";
        return outputData, calls;
      }
      if search.searchMethod != Greedy {
        errorMessage := "Search method is not implemented";
        return outputData, calls;
      }
      calls := Decode(input, nAllTokens, predict);
      output := outputData;
    }

    /**
     * The greedy decode loop of `Run`: it calls `predict` until
     * `nAllTokens` tokens are reached or a call answers -1.
     */
    method Decode(input: seq<int>, nAllTokens: int, predict: seq<PredictCall> -> int) returns (calls: seq<PredictCall>)
      modifies this`outputData, this`errorMessage
      ensures var g := Generate(predict, [], PredictCall(input, true), if nAllTokens > |input| then nAllTokens - |input| else 0);
        outputData == old(outputData) + g.tokens && calls == g.calls &&
        errorMessage == (if g.failed then "Failed to retrieve next token" else "")
    {
      calls := [];
      var modelInput := input;
      var firstIteration := true;
      ghost var produced: seq<int> := [];
      ghost var left: nat := if nAllTokens > |input| then nAllTokens - |input| else 0;
      ghost var run := Generate(predict, [], PredictCall(input, true), left);
      var nCur := |input|;
      AfterComposes([], [], [], [], run);
      while nCur < nAllTokens
        invariant left == if nAllTokens > nCur then nAllTokens - nCur else 0
        invariant outputData == old(outputData) + produced
        invariant run == After(produced, calls, Generate(predict, calls, PredictCall(modelInput, firstIteration), left))
        decreases nAllTokens - nCur
      {
        var call := PredictCall(modelInput, firstIteration);
        var nextToken := predict(calls + [call]);
        GenerateStep(predict, calls, call, left);
        ghost var rest := Generate(predict, calls + [call], PredictCall([ToUInt32(nextToken)], false), left - 1);
        AfterComposes(produced, calls, [ToUInt32(nextToken)], [call], rest);
        AfterComposes(produced, calls, [], [call], Generation([], [], true));
        calls := calls + [call];
        firstIteration := false;
        if nextToken == -1 {
          errorMessage := "Failed to retrieve next token";
          return;
        }
        outputData := outputData + [ToUInt32(nextToken)];
        produced := produced + [ToUInt32(nextToken)];
        modelInput := [ToUInt32(nextToken)];
        nCur := nCur + 1;
        left := left - 1;
      }
      errorMessage := "";
    }

    /** `Reset`: releases the cache and forgets it. */
    method Reset()
      requires kvCache != null ==> kvCache.retainCount >= 1
      modifies this`kvCache, kvCache
      ensures kvCache == null
      ensures old(kvCache) != null ==> old(kvCache).retainCount == old(kvCache.retainCount) - 1
    {
      if kvCache != null {
        FreeKvCache(kvCache);
        kvCache := null;
      }
    }

    /**
     * `Deinit`: releases the model and the cache and clears the error. The
     * cache pointer is reset but the model pointer is kept, so the model's
     * retain can be released only once: a second `Deinit` needs the
     * released model to be alive again.
     */
    method Deinit()
      requires Consistent()
      requires inference != null ==> inference.retainCount >= 1
      requires kvCache != null ==> kvCache.retainCount >= 1
      requires inference == null || kvCache != inference
      modifies this`kvCache, this`errorMessage, inference, kvCache
      ensures inference == old(inference) && kvCache == null && errorMessage == ""
      ensures inference != null && FamilyOf(modelName).Some? ==> inference.retainCount == old(inference.retainCount) - 1
      ensures inference != null && FamilyOf(modelName).None? ==> inference.retainCount == old(inference.retainCount)
      ensures old(kvCache) != null ==> old(kvCache).retainCount == old(kvCache.retainCount) - 1
    {
      if inference != null {
        FreeModel(inference, Some(modelName));
      }
      if kvCache != null {
        FreeKvCache(kvCache);
        kvCache := null;
      }
      errorMessage := "";
    }
  }
}
