/**
 * The string-level logic of the byte-level BPE tokenizer: the GPT-2 byte
 * table, the model-type classification and the BOS/EOS policy it implies,
 * the Latin lower-casing and space collapsing of the normaliser, the
 * find-and-replace used when decoding SentencePiece pieces, and the token
 * budget of the tiktoken-style encoder.
 *
 * Code points are `nat`s. The vocabulary lookup (`GetTokenId`) and the BPE
 * merge are black boxes: the vocabulary is a function from token text to id.
 */
module TokenBpe {
  import opened Wrappers
  import Gpt2Bytes
  import opened Utils

  datatype BpeModelType = GPT2 | SPM | CLIP | TKTM

  /** The model names the tokenizer recognises. */
  predicate IsSupportedModel(name: string)
  {
    name in ["GPT2", "Roberta", "CLIP", "CodeGen", "Llama", "Gemma", "Llama3"]
  }

  /**
   * Llama and Gemma are SentencePiece models, CLIP is CLIP, Llama3 uses the
   * tiktoken scheme, and every other name is treated as GPT-2.
   */
  function ModelTypeOf(name: string): BpeModelType
  {
    if name == "Llama" || name == "Gemma" then SPM
    else if name == "CLIP" then CLIP
    else if name == "Llama3" then TKTM
    else GPT2
  }

  /** Among the supported models, exactly GPT2, Roberta and CodeGen get the GPT-2 treatment. */
  lemma SupportedModelTypes(name: string)
    requires IsSupportedModel(name)
    ensures ModelTypeOf(name) == GPT2 <==> name in ["GPT2", "Roberta", "CodeGen"]
  {
  }

  /** The tokenizer's special-token switches. */
  datatype Flags = Flags(addDummyPrefix: bool, addBos: bool, addEos: bool)

  /**
   * The BOS/EOS policy of a model: Llama adds a dummy prefix; every
   * non-GPT-2 type adds BOS; CLIP also adds EOS while SentencePiece and
   * tiktoken models do not; GPT-2 leaves both switches as they were.
   */
  function ApplyModelPolicy(isLlama: bool, modelType: BpeModelType, f: Flags): (r: Flags)
    ensures r.addDummyPrefix == (f.addDummyPrefix || isLlama)
    ensures modelType.GPT2? ==> r.addBos == f.addBos && r.addEos == f.addEos
    ensures !modelType.GPT2? ==> r.addBos && (r.addEos <==> modelType.CLIP?)
  {
    var dummy := if isLlama then true else f.addDummyPrefix;
    var bos := if modelType != GPT2 then true else f.addBos;
    var eos := if modelType != GPT2 then true else f.addEos;
    var eos' := if modelType == SPM then false else eos;
    var bos'' := if modelType == TKTM then true else bos;
    var eos'' := if modelType == TKTM then false else eos';
    Flags(dummy, bos'', eos'')
  }

  /** A token's text and the text the tokenizer configuration gives for it. */
  datatype TokenConfig = TokenConfig(unkToken: string, bosToken: string, eosToken: string, padToken: string)

  /** `std::map::emplace`: inserts only when the key is absent. */
  function Emplace(m: map<int, string>, k: int, v: string): map<int, string>
  {
    map[k := v] + m
  }

  lemma UnionUpdate<K, V>(a: map<K, V>, b: map<K, V>, k: K, v: V)
    ensures (a + b)[k := v] == a + b[k := v]
  {
  }

  /** The single-code-point text whose vocabulary id stands for a byte. */
  function CharText(cp: nat): string
    requires cp < 0xD800
  {
    [cp as char]
  }

  class BpeTokenizer {
    /** The vocabulary lookup of the underlying BPE encoder (a black box). */
    const vocab: string -> int
    var modelName: string
    var byteEncoder: map<nat, int>
    var byteDecoder: map<nat, nat>
    var unkTokenId: int
    var bosTokenId: int
    var eosTokenId: int
    var padTokenId: int
    var addedTokens: map<int, string>
    var allSpecialIds: set<int>
    var addDummyPrefix: bool
    var addBosToken: bool
    var addEosToken: bool

    constructor (vocab: string -> int, modelName: string)
      ensures this.vocab == vocab && this.modelName == modelName
      ensures byteEncoder == map[] && byteDecoder == map[] && addedTokens == map[] && allSpecialIds == {}
      ensures !addDummyPrefix && !addBosToken && !addEosToken
    {
      this.vocab := vocab;
      this.modelName := modelName;
      byteEncoder, byteDecoder := map[], map[];
      unkTokenId, bosTokenId, eosTokenId, padTokenId := 0, 0, 0, 0;
      addedTokens, allSpecialIds := map[], {};
      addDummyPrefix, addBosToken, addEosToken := false, false, false;
    }

    function ModelType(): (t: BpeModelType)
      reads this
      ensures t == ModelTypeOf(modelName)
    {
      ModelTypeOf(modelName)
    }

    /** The encoder entries of the bytes below `n`: the vocabulary id of each byte's code point. */
    ghost function EncoderBelow(n: nat): map<nat, int>
      requires n <= 256
    {
      if n == 0 then map[] else EncoderBelow(n - 1)[n - 1 := vocab(CharText(Gpt2Bytes.CodePoint(n - 1)))]
    }

    /** Each byte below `n` is encoded as the vocabulary id of its code point, and no other key is present. */
    lemma {:induction false} EncoderBelowEncodes(n: nat)
      requires n <= 256
      ensures forall b :: 0 <= b < n ==> b in EncoderBelow(n) && EncoderBelow(n)[b] == vocab(CharText(Gpt2Bytes.CodePoint(b)))
      ensures forall b :: b in EncoderBelow(n) ==> b < n
    {
      if n > 0 {
        EncoderBelowEncodes(n - 1);
      }
    }

    /**
     * Fills both byte tables: every byte is encoded as the vocabulary id of its
     * GPT-2 code point, and the decoder maps that code point back to the byte.
     * Entries already present are overwritten, others are kept.
     */
    method CreateByteEncoder()
      modifies this`byteEncoder, this`byteDecoder
      ensures byteDecoder == old(byteDecoder) + Gpt2Bytes.Decoder()
      ensures byteEncoder == old(byteEncoder) + EncoderBelow(256)
    {
      var index: nat := 256;
      var i: nat := 0;
      while i < 256
        invariant i <= 256
        invariant TablesBelow(old(byteDecoder), old(byteEncoder), byteDecoder, byteEncoder, index, i)
      {
        TablesStep(old(byteDecoder), old(byteEncoder), byteDecoder, byteEncoder, index, i);
        if i < 33 || (127 <= i < 161) || i == 173 {
          byteDecoder := byteDecoder[index := i];
          byteEncoder := byteEncoder[i := vocab(CharText(index))];
          index := index + 1;
        } else {
          byteEncoder := byteEncoder[i := vocab(CharText(i))];
          byteDecoder := byteDecoder[i := i];
        }
        i := i + 1;
      }
    }

    /** Both byte tables once the bytes below `i` are done, over the entries they started with. */
    ghost predicate TablesBelow(decoder0: map<nat, nat>, encoder0: map<nat, int>,
                                decoder: map<nat, nat>, encoder: map<nat, int>, index: nat, i: nat)
    {
      i <= 256 && index == 256 + Gpt2Bytes.RemappedBelow(i) &&
      decoder == decoder0 + Gpt2Bytes.DecoderBelow(i) &&
      encoder == encoder0 + EncoderBelow(i)
    }

    /** One pass of the table loop: byte `i` gets its code point, `index` for a remapped byte. */
    lemma TablesStep(decoder0: map<nat, nat>, encoder0: map<nat, int>,
                     decoder: map<nat, nat>, encoder: map<nat, int>, index: nat, i: nat)
      requires i < 256 && TablesBelow(decoder0, encoder0, decoder, encoder, index, i)
      ensures Gpt2Bytes.IsRemapped(i) ==>
        index < 324 &&
        TablesBelow(decoder0, encoder0, decoder[index := i], encoder[i := vocab(CharText(index))], index + 1, i + 1)
      ensures !Gpt2Bytes.IsRemapped(i) ==>
        TablesBelow(decoder0, encoder0, decoder[i := i], encoder[i := vocab(CharText(i))], index, i + 1)
    {
      Gpt2Bytes.CodePointRange(i);
      var cp := Gpt2Bytes.CodePoint(i);
      UnionUpdate(decoder0, Gpt2Bytes.DecoderBelow(i), cp, i);
      UnionUpdate(encoder0, EncoderBelow(i), i, vocab(CharText(cp)));
    }

    /**
     * Registers the four special tokens (an id that already has an added token
     * keeps it) and applies the BOS/EOS policy of the model type.
     */
    method LoadPredefinedTokens(config: TokenConfig)
      modifies this`unkTokenId, this`bosTokenId, this`eosTokenId, this`padTokenId
      modifies this`addedTokens, this`allSpecialIds, this`addDummyPrefix, this`addBosToken, this`addEosToken
      ensures unkTokenId == vocab(config.unkToken) && bosTokenId == vocab(config.bosToken)
      ensures eosTokenId == vocab(config.eosToken) && padTokenId == vocab(config.padToken)
      ensures addedTokens == Emplace(Emplace(Emplace(Emplace(old(addedTokens),
        unkTokenId, config.unkToken), bosTokenId, config.bosToken), eosTokenId, config.eosToken), padTokenId, config.padToken)
      ensures allSpecialIds == old(allSpecialIds) + {unkTokenId, bosTokenId, eosTokenId, padTokenId}
      ensures Flags(addDummyPrefix, addBosToken, addEosToken) ==
        ApplyModelPolicy(modelName == "Llama", ModelTypeOf(modelName), Flags(old(addDummyPrefix), old(addBosToken), old(addEosToken)))
    {
      RegisterSpecialTokens(config);
      SetSpecialTokenFlags();
    }

    /** The first half of LoadPredefinedTokens: the ids, the added tokens and the special-id set. */
    method RegisterSpecialTokens(config: TokenConfig)
      modifies this`unkTokenId, this`bosTokenId, this`eosTokenId, this`padTokenId, this`addedTokens, this`allSpecialIds
      ensures unkTokenId == vocab(config.unkToken) && bosTokenId == vocab(config.bosToken)
      ensures eosTokenId == vocab(config.eosToken) && padTokenId == vocab(config.padToken)
      ensures addedTokens == Emplace(Emplace(Emplace(Emplace(old(addedTokens),
        unkTokenId, config.unkToken), bosTokenId, config.bosToken), eosTokenId, config.eosToken), padTokenId, config.padToken)
      ensures allSpecialIds == old(allSpecialIds) + {unkTokenId, bosTokenId, eosTokenId, padTokenId}
    {
      unkTokenId := vocab(config.unkToken);
      bosTokenId := vocab(config.bosToken);
      eosTokenId := vocab(config.eosToken);
      padTokenId := vocab(config.padToken);
      addedTokens := Emplace(addedTokens, unkTokenId, config.unkToken);
      addedTokens := Emplace(addedTokens, bosTokenId, config.bosToken);
      addedTokens := Emplace(addedTokens, eosTokenId, config.eosToken);
      addedTokens := Emplace(addedTokens, padTokenId, config.padToken);
      allSpecialIds := allSpecialIds + {unkTokenId, bosTokenId, eosTokenId, padTokenId};
    }

    /** The second half of LoadPredefinedTokens: the switches set by the model name and type. */
    method SetSpecialTokenFlags()
      modifies this`addDummyPrefix, this`addBosToken, this`addEosToken
      ensures Flags(addDummyPrefix, addBosToken, addEosToken) ==
        ApplyModelPolicy(modelName == "Llama", ModelTypeOf(modelName), Flags(old(addDummyPrefix), old(addBosToken), old(addEosToken)))
    {
      var modelType := ModelTypeOf(modelName);
      if modelName == "Llama" {
        addDummyPrefix := true;
      }
      if modelType != GPT2 {
        addBosToken := true;
        addEosToken := true;
      }
      if modelType == SPM {
        addEosToken := false;
      }
      if modelType == TKTM {
        addBosToken := true;
        addEosToken := false;
      }
    }
  }

  /** The code points the normaliser treats as white space. */
  const UnicodeSpaces: set<nat> := {
    0x09, 0x0A, 0x0B, 0x0C, 0x0D, 0x1C, 0x1D, 0x1E, 0x1F, 0x20, 0x85, 0xA0, 0x1680,
    0x2000, 0x2001, 0x2002, 0x2003, 0x2004, 0x2005, 0x2006, 0x2007, 0x2008, 0x2009, 0x200A,
    0x2028, 0x2029, 0x202F, 0x205F, 0x3000}

  predicate IsUnicodeSpace(c: nat)
  {
    c in UnicodeSpaces
  }

  predicate IsUpperLatin(c: nat)
  {
    ('A' as nat <= c <= 'Z' as nat) || (0xC0 <= c <= 0xDF)
  }

  /**
   * Latin-only lower-casing: A-Z and U+00C0..U+00DF are shifted up by 0x20
   * (which also moves U+00D7 and U+00DF, as the code does); everything else
   * is unchanged.
   */
  function ToLower(c: nat): (r: nat)
    ensures IsUpperLatin(c) ==> r == c + 0x20
    ensures !IsUpperLatin(c) ==> r == c
    ensures !IsUpperLatin(r)
  {
    if 'A' as nat <= c <= 'Z' as nat then c + ('a' as nat - 'A' as nat)
    else if 0xC0 <= c <= 0xDF then c + (0xE0 - 0xC0)
    else c
  }

  lemma ToLowerIdempotent(c: nat)
    ensures ToLower(ToLower(c)) == ToLower(c)
  {
  }

  /**
   * The reference for space collapsing: a white-space character is kept only
   * when the character before it in the input is not white space.
   */
  function Collapse(s: seq<nat>): seq<nat>
  {
    if s == [] then []
    else
      var init, last := s[..|s| - 1], s[|s| - 1];
      if IsUnicodeSpace(last) && |init| > 0 && IsUnicodeSpace(init[|init| - 1]) then Collapse(init)
      else Collapse(init) + [last]
  }

  /** Scans the input keeping one white-space character out of each run. */
  method RemoveConsecutiveSpaces(input: seq<nat>) returns (result: seq<nat>)
    ensures result == Collapse(input)
  {
    result := [];
    var lastWasSpace := false;
    var k := 0;
    while k < |input|
      invariant 0 <= k <= |input|
      invariant result == Collapse(input[..k])
      invariant lastWasSpace <==> (k > 0 && IsUnicodeSpace(input[k - 1]))
    {
      var ch := input[k];
      assert input[..k + 1][..k] == input[..k];
      if IsUnicodeSpace(ch) {
        if !lastWasSpace {
          result := result + [ch];
        }
        lastWasSpace := true;
      } else {
        result := result + [ch];
        lastWasSpace := false;
      }
      k := k + 1;
    }
    assert input[..k] == input;
  }

  /** The characters that are not white space. */
  function NonSpaces(s: seq<nat>): seq<nat>
  {
    if s == [] then []
    else NonSpaces(s[..|s| - 1]) + (if IsUnicodeSpace(s[|s| - 1]) then [] else [s[|s| - 1]])
  }

  predicate NoAdjacentSpaces(s: seq<nat>)
  {
    forall i :: 0 < i < |s| ==> !(IsUnicodeSpace(s[i - 1]) && IsUnicodeSpace(s[i]))
  }

  /**
   * Collapsing leaves no two adjacent white-space characters, keeps every
   * other character in order, and ends in white space exactly when the input does.
   */
  lemma {:induction false} CollapseProperties(s: seq<nat>)
    ensures NoAdjacentSpaces(Collapse(s))
    ensures NonSpaces(Collapse(s)) == NonSpaces(s)
    ensures |Collapse(s)| > 0 <==> |s| > 0
    ensures |s| > 0 ==> (IsUnicodeSpace(Collapse(s)[|Collapse(s)| - 1]) <==> IsUnicodeSpace(s[|s| - 1]))
  {
    if s != [] {
      var init, last := s[..|s| - 1], s[|s| - 1];
      CollapseProperties(init);
      var c := Collapse(init);
      if IsUnicodeSpace(last) && |init| > 0 && IsUnicodeSpace(init[|init| - 1]) {
        assert Collapse(s) == c;
      } else {
        assert Collapse(s) == c + [last];
        assert (c + [last])[..|c + [last]| - 1] == c;
      }
    }
  }

  /** Every occurrence of `search` from `pos` on, scanned left to right without overlap, replaced by `replace`. */
  function ReplaceFrom(s: string, search: string, replace: string, pos: nat): string
    requires |search| > 0 && pos <= |s|
    decreases |s| - pos
  {
    match Find(s, search, pos)
    case None => s[pos..]
    case Some(p) => s[pos..p] + replace + ReplaceFrom(s, search, replace, p + |search|)
  }

  /**
   * Appends the text up to each occurrence and then the replacement, resuming
   * after the occurrence; the rest of the input is appended once no occurrence
   * is left. The search text is never empty where it is used (it is the
   * SentencePiece word marker); with an empty one the scan would not advance.
   */
  method ReplaceAll(s: string, search: string, replace: string) returns (result: string)
    requires |search| > 0
    ensures result == ReplaceFrom(s, search, replace, 0)
  {
    result := [];
    var pos := 0;
    var done := false;
    while !done
      invariant pos <= |s|
      invariant !done ==> result + ReplaceFrom(s, search, replace, pos) == ReplaceFrom(s, search, replace, 0)
      invariant done ==> result == ReplaceFrom(s, search, replace, 0)
      decreases |s| - pos, !done
    {
      var newPos := Find(s, search, pos);
      ReplaceFromStep(result, s, search, replace, pos);
      if newPos.None? {
        result := result + s[pos..];
        done := true;
      } else {
        result := result + s[pos..newPos.value] + replace;
        pos := newPos.value + |search|;
      }
    }
  }

  /** One step of the scan: the text before the next occurrence, then the replacement, then the rest. */
  lemma ReplaceFromStep(done: string, s: string, search: string, replace: string, pos: nat)
    requires |search| > 0 && pos <= |s|
    ensures Find(s, search, pos).None? ==>
      done + ReplaceFrom(s, search, replace, pos) == done + s[pos..]
    ensures Find(s, search, pos).Some? ==>
      var p := Find(s, search, pos).value;
      done + ReplaceFrom(s, search, replace, pos) == (done + s[pos..p] + replace) + ReplaceFrom(s, search, replace, p + |search|)
  {
  }

  /** When `search` does not occur at or after `pos`, the rest of the text is returned unchanged. */
  lemma ReplaceWithoutOccurrence(s: string, search: string, replace: string)
    requires |search| > 0
    requires forall j :: !OccursAt(s, search, j)
    ensures ReplaceFrom(s, search, replace, 0) == s
  {
    match Find(s, search, 0)
    case None =>
    case Some(p) => assert false;
  }

  /**
   * What the pre-tokeniser and the BPE merge make of the input: special tokens
   * split out with their id, and text segments as the id lists of their
   * regex tokens, in order.
   */
  datatype Segment = Special(id: int) | Text(pieces: seq<seq<int>>)

  function Concat(pieces: seq<seq<int>>): seq<int>
  {
    if pieces == [] then [] else Concat(pieces[..|pieces| - 1]) + pieces[|pieces| - 1]
  }

  /** The ids one segment produces without a length limit. */
  function SegmentIds(segment: Segment): seq<int>
  {
    match segment
    case Special(id) => [id]
    case Text(pieces) => Concat(pieces)
  }

  /** All ids the segments would produce without a length limit. */
  function Flatten(segments: seq<Segment>): seq<int>
  {
    if segments == [] then []
    else Flatten(segments[..|segments| - 1]) + SegmentIds(segments[|segments| - 1])
  }

  /** The first `n` elements, or all of them, or none when `n` is not positive. */
  function Take(s: seq<int>, n: int): seq<int>
  {
    if n <= 0 then [] else if n >= |s| then s else s[..n]
  }

  /** Taking from a concatenation: first from `a`, then whatever room is left from `b`. */
  lemma TakeAppend(a: seq<int>, b: seq<int>, n: int)
    ensures Take(a + b, n) == Take(a, n) + Take(b, n - |Take(a, n)|)
  {
    if 0 < n < |a| {
      assert (a + b)[..n] == a[..n];
    } else if n >= |a| && n > 0 {
      if n - |a| < |b| {
        assert (a + b)[..n] == a + b[..n - |a|];
      }
    }
  }

  /** Once `n` elements have been taken from a prefix, extending it changes nothing. */
  lemma TakeSaturated(a: seq<int>, b: seq<int>, n: int)
    requires |Take(a, n)| >= n
    ensures Take(a + b, n) == Take(a, n)
  {
    TakeAppend(a, b, n);
  }

  lemma FlattenStep(segments: seq<Segment>, i: nat)
    requires i < |segments|
    ensures Flatten(segments[..i + 1]) == Flatten(segments[..i]) + SegmentIds(segments[i])
  {
    assert segments[..i + 1][..i] == segments[..i];
  }

  lemma ConcatStep(pieces: seq<seq<int>>, j: nat)
    requires j < |pieces|
    ensures Concat(pieces[..j + 1]) == Concat(pieces[..j]) + pieces[j]
  {
    assert pieces[..j + 1][..j] == pieces[..j];
  }

  /**
   * Appending what fits of `more` to a budgeted prefix of `done` is the same as
   * budgeting their concatenation.
   */
  lemma BudgetStep(head: seq<int>, done: seq<int>, more: seq<int>, maxLength: int)
    ensures var res := head + Take(done, maxLength - |head|);
      res + Take(more, maxLength - |res|) == head + Take(done + more, maxLength - |head|)
  {
    TakeAppend(done, more, maxLength - |head|);
  }

  /** Once the budget is used up by the first `i` segments, the later ones add nothing. */
  lemma {:induction false} FlattenSaturated(segments: seq<Segment>, i: nat, n: int)
    requires i <= |segments|
    requires |Take(Flatten(segments[..i]), n)| >= n
    ensures Take(Flatten(segments), n) == Take(Flatten(segments[..i]), n)
    decreases |segments| - i
  {
    if i == |segments| {
      assert segments[..i] == segments;
    } else {
      FlattenStep(segments, i);
      TakeSaturated(Flatten(segments[..i]), SegmentIds(segments[i]), n);
      FlattenSaturated(segments, i + 1, n);
    }
  }

  /** Once the budget is used up by the first `j` pieces, the later ones add nothing. */
  lemma {:induction false} ConcatSaturated(pieces: seq<seq<int>>, j: nat, n: int)
    requires j <= |pieces|
    requires |Take(Concat(pieces[..j]), n)| >= n
    ensures Take(Concat(pieces), n) == Take(Concat(pieces[..j]), n)
    decreases |pieces| - j
  {
    if j == |pieces| {
      assert pieces[..j] == pieces;
    } else {
      ConcatStep(pieces, j);
      TakeSaturated(Concat(pieces[..j]), pieces[j], n);
      ConcatSaturated(pieces, j + 1, n);
    }
  }

  /**
   * The tiktoken-style encoder's budget: an empty input gives no ids; otherwise
   * BOS (when enabled) comes first, then the segment ids in order for as long
   * as fewer than `maxLength` ids have been produced, then EOS (when enabled)
   * only if the output is still shorter than `maxLength`.
   */
  method TktmEncode(input: string, segments: seq<Segment>, maxLength: int,
                    addBos: bool, bosId: int, addEos: bool, eosId: int) returns (res: seq<int>)
    ensures input == [] ==> res == []
    ensures input != [] ==>
      var head := if addBos then [bosId] else [];
      var body := head + Take(Flatten(segments), maxLength - |head|);
      res == body + (if addEos && |body| < maxLength then [eosId] else [])
  {
    if input == [] {
      return [];
    }
    var head := if addBos then [bosId] else [];
    res := EmitSegments(head, segments, maxLength);
    if addEos && |res| < maxLength {
      res := res + [eosId];
    }
  }

  /** The segment loop: after `head`, the ids of the segments in order while fewer than `maxLength` are out. */
  method EmitSegments(head: seq<int>, segments: seq<Segment>, maxLength: int) returns (res: seq<int>)
    ensures res == head + Take(Flatten(segments), maxLength - |head|)
  {
    res := head;
    var i := 0;
    while i < |segments|
      invariant 0 <= i <= |segments|
      invariant Budgeted(res, head, Flatten(segments[..i]), maxLength)
    {
      if |res| >= maxLength {
        FlattenSaturated(segments, i, maxLength - |head|);
        assert Budgeted(res, head, Flatten(segments), maxLength);
        return;
      }
      SegmentsStep(res, head, segments, i, maxLength);
      res := EmitSegment(res, segments[i], maxLength);
      i := i + 1;
    }
    assert segments[..i] == segments;
  }

  /** `res` is `head` followed by as many of `ids` as fit in `maxLength`. */
  predicate Budgeted(res: seq<int>, head: seq<int>, ids: seq<int>, maxLength: int)
  {
    res == head + Take(ids, maxLength - |head|)
  }

  /** One pass of the segment loop keeps the output the budgeted prefix of the segments so far. */
  lemma SegmentsStep(res: seq<int>, head: seq<int>, segments: seq<Segment>, i: nat, maxLength: int)
    requires i < |segments| && Budgeted(res, head, Flatten(segments[..i]), maxLength)
    ensures Budgeted(res + Take(SegmentIds(segments[i]), maxLength - |res|), head, Flatten(segments[..i + 1]), maxLength)
  {
    BudgetStep(head, Flatten(segments[..i]), SegmentIds(segments[i]), maxLength);
    FlattenStep(segments, i);
  }

  /** Pushes the ids of one segment while the output is shorter than `maxLength`. */
  method EmitSegment(res: seq<int>, segment: Segment, maxLength: int) returns (out: seq<int>)
    requires |res| < maxLength
    ensures out == res + Take(SegmentIds(segment), maxLength - |res|)
  {
    match segment {
      case Special(id) =>
        out := res + [id];
      case Text(pieces) =>
        out := res;
        var j := 0;
        while |out| < maxLength
          invariant 0 <= j <= |pieces|
          invariant out == res + Take(Concat(pieces[..j]), maxLength - |res|)
          decreases |pieces| - j
        {
          if j == |pieces| {
            break;
          }
          out := EmitPiece(out, pieces[j], maxLength);
          BudgetStep(res, Concat(pieces[..j]), pieces[j], maxLength);
          ConcatStep(pieces, j);
          j := j + 1;
        }
        if j < |pieces| {
          ConcatSaturated(pieces, j, maxLength - |res|);
        } else {
          assert pieces[..j] == pieces;
        }
    }
  }

  /** Pushes the ids of one BPE'd regex token while the output is shorter than `maxLength`. */
  method EmitPiece(res: seq<int>, piece: seq<int>, maxLength: int) returns (out: seq<int>)
    ensures out == res + Take(piece, maxLength - |res|)
  {
    out := res;
    var k := 0;
    while k < |piece|
      invariant 0 <= k <= |piece|
      invariant out == res + piece[..k]
      invariant k > 0 ==> |res| + k <= maxLength
      invariant k < |piece| && |out| >= maxLength ==> Take(piece, maxLength - |res|) == piece[..k]
    {
      if |out| >= maxLength {
        break;
      }
      out := out + [piece[k]];
      k := k + 1;
    }
    assert k == |piece| ==> piece[..k] == piece;
  }
}
