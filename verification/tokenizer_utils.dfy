/**
 * The pure helpers of the MMLU tokenizer wrapper: the class-level GPT-2 byte
 * decoder of the BPE streaming detokenizer, the leading-space trimming of the
 * detokenizer, the structural JSON comparison used to recognise decoder
 * descriptions, and the stripping of BOS/EOS ids from a token list.
 */
module TokenizerUtils {
  import opened Wrappers
  import Gpt2Bytes

  /** The range boundaries the detokenizer walks: remapped and printable ranges alternate. */
  const Limits: seq<nat> := [0, 33, 127, 161, 173, 174, 256]

  /** Even-numbered ranges hold exactly the remapped bytes, odd-numbered ones the printable bytes. */
  lemma LimitsRanges(i: nat)
    requires i < |Limits| - 1
    ensures Limits[i] <= Limits[i + 1] <= 256
    ensures Uniform(Limits[i], Limits[i + 1], i % 2 == 0)
  {
  }

  /** Every byte of `start..stop` is remapped exactly when `remapped` says so. */
  predicate Uniform(start: nat, stop: nat, remapped: bool)
  {
    forall b :: start <= b < stop ==> (Gpt2Bytes.IsRemapped(b) <==> remapped)
  }

  /** The decoder and the remap counter as they stand once the bytes below `k` are done. */
  predicate BuiltBelow(charToBytes: map<nat, nat>, n: nat, k: nat)
  {
    k <= 256 && n == Gpt2Bytes.RemappedBelow(k) && charToBytes == Gpt2Bytes.DecoderBelow(k)
  }

  /** The class attribute holding the byte decoder once it has been built. */
  class DetokenizerClass {
    var byteDecoder: Option<map<nat, nat>>

    constructor ()
      ensures byteDecoder == None
    {
      byteDecoder := None;
    }

    /**
     * Builds the decoder once: an already built decoder is left alone; otherwise
     * the even-numbered ranges map `256 + n` (n counting up) to their bytes and
     * the odd-numbered ranges map each byte to itself. The result is the GPT-2
     * reference table.
     */
    method MakeByteDecoder()
      modifies this
      ensures old(byteDecoder).Some? ==> byteDecoder == old(byteDecoder)
      ensures old(byteDecoder).None? ==> byteDecoder == Some(Gpt2Bytes.Decoder())
    {
      if byteDecoder.Some? {
        return;
      }
      var charToBytes := BuildDecoder();
      byteDecoder := Some(charToBytes);
    }
  }

  /** The walk over the limits: range by range, the decoder grows to the reference table. */
  method BuildDecoder() returns (charToBytes: map<nat, nat>)
    ensures charToBytes == Gpt2Bytes.Decoder()
  {
    charToBytes := map[];
    var n: nat := 0;
    for i := 0 to |Limits| - 1
      invariant BuiltBelow(charToBytes, n, Limits[i])
    {
      LimitsRanges(i);
      charToBytes, n := FillRange(charToBytes, n, Limits[i], Limits[i + 1], i % 2 == 0);
    }
    BuiltAll(charToBytes, n);
  }

  lemma BuiltAll(charToBytes: map<nat, nat>, n: nat)
    requires BuiltBelow(charToBytes, n, Limits[|Limits| - 1])
    ensures charToBytes == Gpt2Bytes.Decoder()
  {
  }

  /**
   * One range of the detokenizer's walk: a remapped range maps `256 + n` to
   * each byte, counting `n` up; a printable range maps each byte to itself.
   * Either way the decoder grows by the reference entries of the range.
   */
  method FillRange(charToBytes: map<nat, nat>, n: nat, start: nat, stop: nat, remapped: bool)
    returns (charToBytes': map<nat, nat>, n': nat)
    requires start <= stop <= 256 && Uniform(start, stop, remapped)
    requires BuiltBelow(charToBytes, n, start)
    ensures BuiltBelow(charToBytes', n', stop)
  {
    charToBytes', n' := charToBytes, n;
    var b := start;
    while b < stop
      invariant start <= b <= stop
      invariant n' == Gpt2Bytes.RemappedBelow(b)
      invariant charToBytes' == Gpt2Bytes.DecoderBelow(b)
    {
      if remapped {
        charToBytes' := charToBytes'[256 + n' := b];
        n' := n' + 1;
      } else {
        charToBytes' := charToBytes'[b := b];
      }
      b := b + 1;
    }
  }

  /**
   * `_maybe_trim_space`: the leading space of a piece of decoded text is dropped
   * when nothing has been emitted yet, or when space cleaning is on and the text
   * after the space starts with one of the punctuation marks in `spaceMatches`.
   */
  function MaybeTrimSpace(currentText: string, emitted: string, cleanSpaces: bool, spaceMatches: seq<string>): (r: string)
    ensures r == currentText || (|currentText| > 0 && r == currentText[1..])
    ensures r != currentText <==>
      (|currentText| > 0 && currentText[0] == ' ' &&
       (emitted == [] || (cleanSpaces && StartsWithAny(currentText[1..], spaceMatches))))
  {
    if |currentText| == 0 then currentText
    else if currentText[0] != ' ' then currentText
    else if emitted == [] then currentText[1..]
    else if cleanSpaces && StartsWithAny(currentText[1..], spaceMatches) then currentText[1..]
    else currentText
  }

  /** Python's `str.startswith` with a tuple of prefixes. */
  predicate StartsWithAny(s: string, prefixes: seq<string>)
  {
    exists i :: 0 <= i < |prefixes| && prefixes[i] <= s
  }

  /** A value produced by the JSON reader: Python's dict, list, str, int, float, bool and None. */
  datatype Json =
    | JNull
    | JBool(b: bool)
    | JInt(i: int)
    | JFloat(f: real)
    | JStr(s: string)
    | JList(items: seq<Json>)
    | JObject(fields: map<string, Json>)

  /** Python's `type(a) != type(b)` test: the same constructor. */
  predicate SameType(a: Json, b: Json)
  {
    match (a, b)
    case (JNull, JNull) => true
    case (JBool(_), JBool(_)) => true
    case (JInt(_), JInt(_)) => true
    case (JFloat(_), JFloat(_)) => true
    case (JStr(_), JStr(_)) => true
    case (JList(_), JList(_)) => true
    case (JObject(_), JObject(_)) => true
    case _ => false
  }

  /**
   * `_match`: values of different types never match; dictionaries match when
   * they have the same size and every key of `a` is in `b` with a matching
   * value; lists match when they have the same length and match element-wise;
   * anything else is compared with `==`.
   */
  predicate Match(a: Json, b: Json)
    decreases a
  {
    if !SameType(a, b) then false
    else if a.JObject? then
      |a.fields| == |b.fields| &&
      forall k :: k in a.fields ==> k in b.fields && Match(a.fields[k], b.fields[k])
    else if a.JList? then
      |a.items| == |b.items| &&
      forall i :: 0 <= i < |a.items| ==> Match(a.items[i], b.items[i])
    else a == b
  }

  lemma SubsetOfSameSize<T>(x: set<T>, y: set<T>)
    requires x <= y && |x| == |y|
    ensures x == y
  {
    if x != y {
      var e :| e in y && e !in x;
      assert x <= y - {e};
      SubsetSize(x, y - {e});
    }
  }

  lemma {:induction false} SubsetSize<T>(x: set<T>, y: set<T>)
    requires x <= y
    ensures |x| <= |y|
    decreases |y|
  {
    if x != {} {
      var e :| e in x;
      SubsetSize(x - {e}, y - {e});
    }
  }

  /** `_match` is structural equality: it holds exactly when the two values are equal. */
  lemma MatchIsEquality(a: Json, b: Json)
    ensures Match(a, b) <==> a == b
  {
    if a == b {
      MatchReflexive(a);
    } else if Match(a, b) {
      MatchSound(a, b);
    }
  }

  lemma {:induction false} MatchSound(a: Json, b: Json)
    requires Match(a, b)
    ensures a == b
    decreases a
  {
      match a
      case JObject(fa) =>
        var fb := b.fields;
        forall k | k in fa ensures k in fb && fa[k] == fb[k] {
          MatchSound(fa[k], fb[k]);
        }
        SubsetOfSameSize(fa.Keys, fb.Keys);
        assert fa == fb;
      case JList(la) =>
        var lb := b.items;
        forall i | 0 <= i < |la| ensures la[i] == lb[i] {
          MatchSound(la[i], lb[i]);
        }
        assert la == lb;
      case _ =>
  }

  lemma {:induction false} MatchReflexive(a: Json)
    ensures Match(a, a)
    decreases a
  {
    match a
    case JObject(fa) =>
      forall k | k in fa ensures Match(fa[k], fa[k]) {
        MatchReflexive(fa[k]);
      }
    case JList(la) =>
      forall i | 0 <= i < |la| ensures Match(la[i], la[i]) {
        MatchReflexive(la[i]);
      }
    case _ =>
  }

  /**
   * `no_bos_or_eos`: drops one leading `bos` and then one trailing `eos`.
   * Python raises IndexError on an empty list, and also on `[bos]`, whose
   * remainder is empty when its last element is read; both give None.
   */
  function NoBosOrEos(sequence: seq<int>, bos: int, eos: int): (r: Option<seq<int>>)
    ensures r.None? <==> (sequence == [] || sequence == [bos])
    ensures r.Some? ==> |sequence| - 2 <= |r.value| <= |sequence|
  {
    if |sequence| == 0 then None
    else
      var removedBos := if sequence[0] != bos then sequence else sequence[1..];
      if |removedBos| == 0 then None
      else if removedBos[|removedBos| - 1] == eos then Some(removedBos[..|removedBos| - 1])
      else Some(removedBos)
  }

  /** Framing a body with bos and eos and stripping it again gives the body back. */
  lemma NoBosOrEosStripsFrame(body: seq<int>, bos: int, eos: int)
    ensures NoBosOrEos([bos] + body + [eos], bos, eos) == Some(body)
  {
    var s := [bos] + body + [eos];
    assert s[1..] == body + [eos];
    assert (body + [eos])[..|body|] == body;
  }

  /** A list that neither starts with bos nor ends with eos is returned unchanged. */
  lemma NoBosOrEosKeepsUnframed(sequence: seq<int>, bos: int, eos: int)
    requires |sequence| > 0 && sequence[0] != bos && sequence[|sequence| - 1] != eos
    ensures NoBosOrEos(sequence, bos, eos) == Some(sequence)
  {
  }

  /** Whatever is returned is a contiguous piece of the input: only the ends are removed. */
  lemma NoBosOrEosIsInfix(sequence: seq<int>, bos: int, eos: int)
    requires NoBosOrEos(sequence, bos, eos).Some?
    ensures var r := NoBosOrEos(sequence, bos, eos).value;
      (|r| <= |sequence| && sequence[..|r|] == r) || (1 + |r| <= |sequence| && sequence[1..1 + |r|] == r)
  {
  }
}
