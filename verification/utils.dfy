/**
 * String helpers shared by the client: UTF-8 validation and sanitising,
 * path normalisation, ASCII lower-casing, character replacement, trimming,
 * the `find` searches several components share, and the HH:MM:SS duration
 * format.
 *
 * A `std::string` is a sequence of bytes: the UTF-8 helpers work on
 * `seq<Byte>`; the others, which never look past the ASCII range, work on
 * `string`.
 */
module Utils {
  import Wrappers

  type Byte = bv8

  // ---------------------------------------------------------------------
  // UTF-8

  /** Length of the sequence a lead byte announces, or 0 for a byte that cannot open one. */
  function SequenceLength(c: Byte): (n: nat)
    ensures n <= 4
    ensures n == 1 <==> c < 0x80
    ensures n == 0 <==> ((c & 0xC0) == 0x80 || c >= 0xF8)
  {
    if c < 0x80 then 1
    else if (c & 0xE0) == 0xC0 then 2
    else if (c & 0xF0) == 0xE0 then 3
    else if (c & 0xF8) == 0xF0 then 4
    else 0
  }

  predicate IsContinuation(c: Byte)
  {
    (c & 0xC0) == 0x80
  }

  /** The `n - 1` bytes after the lead byte at `i` are present and are all continuation bytes. */
  predicate ContinuationsFollow(s: seq<Byte>, i: nat, n: nat)
  {
    i + n <= |s| && forall j :: i < j < i + n ==> IsContinuation(s[j])
  }

  /** The bytes split into whole sequences, each opened by a valid lead byte. */
  predicate IsUtf8(s: seq<Byte>)
    decreases |s|
  {
    s == [] ||
    (var n := SequenceLength(s[0]);
     n > 0 && ContinuationsFollow(s, 0, n) && IsUtf8(s[n..]))
  }

  /** ASCII text is valid UTF-8. */
  lemma {:induction false} AsciiIsUtf8(s: seq<Byte>)
    requires forall i :: 0 <= i < |s| ==> s[i] < 0x80
    ensures IsUtf8(s)
    decreases |s|
  {
    if s != [] {
      AsciiIsUtf8(s[1..]);
    }
  }

  /** Two valid texts concatenate into a valid text. */
  lemma {:induction false} Utf8Concat(a: seq<Byte>, b: seq<Byte>)
    requires IsUtf8(a) && IsUtf8(b)
    ensures IsUtf8(a + b)
    decreases |a|
  {
    if a != [] {
      var ab := a + b;
      var n := SequenceLength(a[0]);
      assert n > 0 && ContinuationsFollow(a, 0, n);
      assert ab[0] == a[0];
      assert forall j :: 0 < j < n ==> ab[j] == a[j];
      assert ContinuationsFollow(ab, 0, n);
      assert ab[n..] == a[n..] + b;
      assert IsUtf8(a[n..]);
      Utf8Concat(a[n..], b);
      assert IsUtf8(ab[n..]);
      assert SequenceLength(ab[0]) == n;
    } else {
      assert a + b == b;
    }
  }

  /** A text is valid exactly when its remaining part from a sequence boundary is. */
  lemma Utf8Step(s: seq<Byte>, i: nat, n: nat)
    requires i < |s| && n == SequenceLength(s[i])
    ensures n > 0 && ContinuationsFollow(s, i, n) ==> IsUtf8(s[i..]) == IsUtf8(s[i + n..])
    ensures !(n > 0 && ContinuationsFollow(s, i, n)) ==> !IsUtf8(s[i..])
  {
    var t := s[i..];
    assert t[0] == s[i];
    assert forall j :: 0 < j < n && i + j < |s| ==> t[j] == s[i + j];
    if n > 0 && ContinuationsFollow(s, i, n) {
      assert t[n..] == s[i + n..];
    }
  }

  /** `IsUtf8`: walks the text sequence by sequence, rejecting at the first defect. */
  method CheckUtf8(str: seq<Byte>) returns (ok: bool)
    ensures ok == IsUtf8(str)
  {
    var i := 0;
    while i < |str|
      invariant 0 <= i <= |str|
      invariant IsUtf8(str) == IsUtf8(str[i..])
    {
      var c := str[i];
      var bytes := 0;
      if c < 0x80 {
        bytes := 1;
      } else if (c & 0xE0) == 0xC0 {
        bytes := 2;
      } else if (c & 0xF0) == 0xE0 {
        bytes := 3;
      } else if (c & 0xF8) == 0xF0 {
        bytes := 4;
      } else {
        Utf8Step(str, i, 0);
        return false;
      }
      Utf8Step(str, i, bytes);
      var j := 1;
      while j < bytes
        invariant 1 <= j <= bytes
        invariant i + j <= |str|
        invariant forall k :: i < k < i + j ==> IsContinuation(str[k])
      {
        if i + j >= |str| {
          return false;
        }
        c := str[i + j];
        if (c & 0xC0) != 0x80 {
          return false;
        }
        j := j + 1;
      }
      assert ContinuationsFollow(str, i, bytes);
      i := i + bytes;
    }
    assert str[i..] == [];
    return true;
  }

  /**
   * `SanitizeToUtf8` as the loop is written: a byte that cannot open a
   * sequence is dropped, but the checks of the continuation bytes end in a
   * `continue` of the inner loop only, so the announced number of bytes (or
   * whatever is left of the text) is copied whether or not they are valid.
   */
  function SanitizeAsWritten(s: seq<Byte>): (r: seq<Byte>)
    decreases |s|
  {
    if s == [] then []
    else
      var n := SequenceLength(s[0]);
      if n == 0 then SanitizeAsWritten(s[1..])
      else
        var k := if n <= |s| then n else |s|;
        s[..k] + SanitizeAsWritten(s[k..])
  }

  /** As written, the output is never longer than the input. */
  lemma {:induction false} SanitizeAsWrittenShorter(s: seq<Byte>)
    ensures |SanitizeAsWritten(s)| <= |s|
    decreases |s|
  {
    if s != [] {
      var n := SequenceLength(s[0]);
      if n == 0 {
        SanitizeAsWrittenShorter(s[1..]);
      } else {
        var k := if n <= |s| then n else |s|;
        SanitizeAsWrittenShorter(s[k..]);
      }
    }
  }

  /** As written, valid text comes back unchanged. */
  lemma {:induction false} SanitizeAsWrittenKeepsValid(s: seq<Byte>)
    requires IsUtf8(s)
    ensures SanitizeAsWritten(s) == s
    decreases |s|
  {
    if s != [] {
      var n := SequenceLength(s[0]);
      SanitizeAsWrittenKeepsValid(s[n..]);
      assert s[..n] + s[n..] == s;
    }
  }

  /** As written, a two-byte lead followed by an ASCII letter is let through: the output is not UTF-8. */
  lemma SanitizeAsWrittenLetsInvalidThrough()
    ensures var s: seq<Byte> := [0xC3, 0x41];
      !IsUtf8(s) && SanitizeAsWritten(s) == s && !IsUtf8(SanitizeAsWritten(s))
  {
    var s: seq<Byte> := [0xC3, 0x41];
    assert SequenceLength(s[0]) == 2;
    assert !IsContinuation(s[1]);
    assert s[2..] == [];
    assert s[..2] == s;
  }

  /**
   * The evident intent of `SanitizeToUtf8`: a sequence whose lead byte and
   * continuation bytes are all valid is copied whole; otherwise the byte at
   * the front is dropped and the scan goes on from the next one.
   */
  function Sanitized(s: seq<Byte>): (r: seq<Byte>)
    decreases |s|
  {
    if s == [] then []
    else
      var n := SequenceLength(s[0]);
      if n > 0 && ContinuationsFollow(s, 0, n) then s[..n] + Sanitized(s[n..])
      else Sanitized(s[1..])
  }

  /** The sanitised text is always valid UTF-8, and never longer than the input. */
  lemma {:induction false} SanitizedIsUtf8(s: seq<Byte>)
    ensures IsUtf8(Sanitized(s))
    ensures |Sanitized(s)| <= |s|
    decreases |s|
  {
    if s != [] {
      var n := SequenceLength(s[0]);
      if n > 0 && ContinuationsFollow(s, 0, n) {
        SanitizedIsUtf8(s[n..]);
        var h := s[..n];
        assert h[0] == s[0];
        assert forall j :: 0 < j < n ==> h[j] == s[j];
        assert h[n..] == [];
        assert IsUtf8(h);
        Utf8Concat(h, Sanitized(s[n..]));
      } else {
        SanitizedIsUtf8(s[1..]);
      }
    }
  }

  /** Valid text comes back unchanged. */
  lemma {:induction false} SanitizedKeepsValid(s: seq<Byte>)
    requires IsUtf8(s)
    ensures Sanitized(s) == s
    decreases |s|
  {
    if s != [] {
      var n := SequenceLength(s[0]);
      SanitizedKeepsValid(s[n..]);
      assert s[..n] + s[n..] == s;
    }
  }

  /** One step of the sanitising scan from position `i`. */
  lemma SanitizedStep(s: seq<Byte>, i: nat, n: nat)
    requires i < |s| && n == SequenceLength(s[i])
    ensures n > 0 && ContinuationsFollow(s, i, n) ==> Sanitized(s[i..]) == s[i..i + n] + Sanitized(s[i + n..])
    ensures !(n > 0 && ContinuationsFollow(s, i, n)) ==> Sanitized(s[i..]) == Sanitized(s[i + 1..])
  {
    var t := s[i..];
    assert t[0] == s[i];
    assert forall j :: 0 < j < n && i + j < |s| ==> t[j] == s[i + j];
    assert t[1..] == s[i + 1..];
    if n > 0 && ContinuationsFollow(s, i, n) {
      assert t[n..] == s[i + n..];
      assert t[..n] == s[i..i + n];
    }
  }

  /** `SanitizeToUtf8` with the defect removed: a bad sequence loses its lead byte and nothing else. */
  method SanitizeToUtf8(str: seq<Byte>) returns (sanitized: seq<Byte>)
    ensures sanitized == Sanitized(str)
  {
    sanitized := [];
    var i := 0;
    while i < |str|
      invariant 0 <= i <= |str|
      invariant sanitized + Sanitized(str[i..]) == Sanitized(str)
    {
      var c := str[i];
      var bytes := SequenceLength(c);
      SanitizedStep(str, i, bytes);
      var valid := ContinuationsValid(str, i, bytes);
      if valid {
        assert sanitized + Sanitized(str[i..]) == (sanitized + str[i..i + bytes]) + Sanitized(str[i + bytes..]);
        sanitized := sanitized + str[i..i + bytes];
        i := i + bytes;
      } else {
        i := i + 1;
      }
    }
    assert str[i..] == [];
  }

  /** The inner check of `SanitizeToUtf8`: a lead byte, then the continuation bytes it announces. */
  method ContinuationsValid(str: seq<Byte>, i: nat, bytes: nat) returns (valid: bool)
    requires i < |str|
    ensures valid == (bytes > 0 && ContinuationsFollow(str, i, bytes))
  {
    valid := bytes > 0;
    var j := 1;
    while valid && j < bytes
      invariant 1 <= j <= bytes + 1
      invariant valid ==> j <= bytes && i + j <= |str|
      invariant valid ==> forall k :: i < k < i + j ==> IsContinuation(str[k])
      invariant !valid ==> !(bytes > 0 && ContinuationsFollow(str, i, bytes))
      decreases bytes + 1 - j, valid
    {
      if i + j >= |str| || !IsContinuation(str[i + j]) {
        valid := false;
      } else {
        j := j + 1;
      }
    }
  }

  // ---------------------------------------------------------------------
  // Paths and characters

  /** The control characters `NormalizePath` spells out, each with the letter of its escape. */
  const EscapeLetters: map<char, char> :=
    map[7 as char := 'a', 8 as char := 'b', 12 as char := 'f', '\n' := 'n',
        '\r' := 'r', '\t' := 't', 11 as char := 'v']

  function EscapeChar(c: char): string
  {
    if c in EscapeLetters then ['\\', EscapeLetters[c]] else [c]
  }

  /** Every character of `path` in turn, control characters replaced by their escape. */
  function EscapeAll(path: string): string
  {
    if path == [] then [] else EscapeAll(path[..|path| - 1]) + EscapeChar(path[|path| - 1])
  }

  /** `StringReplaceChar`: each `find` becomes `replace`, every other character stays. */
  function ReplaceChar(s: string, find: char, replace: char): (r: string)
    ensures |r| == |s|
    ensures forall i :: 0 <= i < |s| ==> (s[i] == find ==> r[i] == replace) && (s[i] != find ==> r[i] == s[i])
    ensures find != replace ==> find !in r
  {
    seq(|s|, i requires 0 <= i < |s| => if s[i] == find then replace else s[i])
  }

  /** Replacing back restores the text when the replacement did not already occur in it. */
  lemma ReplaceCharInverse(s: string, find: char, replace: char)
    requires replace !in s
    ensures ReplaceChar(ReplaceChar(s, find, replace), replace, find) == s
  {
  }

  /** What `NormalizePath` returns: the escaped text with every backslash turned into '/'. */
  function NormalizedPath(path: string): string
  {
    ReplaceChar(EscapeAll(path), '\\', '/')
  }

  /** No escaped control character survives the escaping. */
  lemma {:induction false} EscapeAllHasNoControls(path: string)
    ensures forall c :: c in EscapeAll(path) ==> c !in EscapeLetters
    decreases |path|
  {
    if path != [] {
      EscapeAllHasNoControls(path[..|path| - 1]);
    }
  }

  /** A normalised path holds no backslash and none of the seven control characters. */
  lemma NormalizedPathIsClean(path: string)
    ensures '\\' !in NormalizedPath(path)
    ensures forall c :: c in NormalizedPath(path) ==> c !in EscapeLetters
  {
    EscapeAllHasNoControls(path);
    var e := EscapeAll(path);
    var r := NormalizedPath(path);
    forall c | c in r
      ensures c !in EscapeLetters
    {
      var i :| 0 <= i < |r| && r[i] == c;
      assert r[i] == e[i] || r[i] == '/';
    }
  }

  /** A path with no control character and no backslash is returned unchanged. */
  lemma {:induction false} NormalizedPathKeepsPlainPath(path: string)
    requires '\\' !in path
    requires forall c :: c in path ==> c !in EscapeLetters
    ensures NormalizedPath(path) == path
  {
    EscapeAllOfPlain(path);
  }

  lemma {:induction false} EscapeAllOfPlain(path: string)
    requires forall i :: 0 <= i < |path| ==> path[i] !in EscapeLetters
    ensures EscapeAll(path) == path
    decreases |path|
  {
    if path != [] {
      var p := path[..|path| - 1];
      EscapeAllOfPlain(p);
      assert p + [path[|path| - 1]] == path;
    }
  }

  /** `NormalizePath`: escapes character by character, then flips backslashes. */
  method NormalizePath(path: string) returns (normalized: string)
    ensures normalized == NormalizedPath(path)
  {
    normalized := [];
    for i := 0 to |path|
      invariant normalized == EscapeAll(path[..i])
    {
      assert path[..i + 1][..i] == path[..i];
      normalized := normalized + EscapeChar(path[i]);
    }
    assert path[..|path|] == path;
    normalized := ReplaceChar(normalized, '\\', '/');
  }

  predicate IsUpperAscii(c: char)
  {
    'A' <= c <= 'Z'
  }

  /** `std::tolower` in the C locale: only A-Z change, each by 0x20. */
  function LowerAscii(c: char): (r: char)
    ensures !IsUpperAscii(r)
    ensures IsUpperAscii(c) ==> r as int == c as int + 0x20
    ensures !IsUpperAscii(c) ==> r == c
  {
    if IsUpperAscii(c) then (c as int + 0x20) as char else c
  }

  /** `StringToLowerCase`: same length, no upper-case letter left, everything else untouched. */
  function StringToLowerCase(s: string): (r: string)
    ensures |r| == |s|
    ensures forall i :: 0 <= i < |r| ==> !IsUpperAscii(r[i])
    ensures forall i :: 0 <= i < |s| && !IsUpperAscii(s[i]) ==> r[i] == s[i]
  {
    seq(|s|, i requires 0 <= i < |s| => LowerAscii(s[i]))
  }

  lemma StringToLowerCaseIdempotent(s: string)
    ensures StringToLowerCase(StringToLowerCase(s)) == StringToLowerCase(s)
  {
  }

  /** The whitespace of `std::isspace` in the C locale. */
  predicate IsCSpace(c: char)
  {
    c == ' ' || c == '\t' || c == '\n' || c == 11 as char || c == 12 as char || c == '\r'
  }

  /** `std::find_if_not(…, is_space)` from position `i`: the first non-space at or after `i`, or the end. */
  function FirstNonSpace(s: string, i: nat): (k: nat)
    requires i <= |s|
    ensures i <= k <= |s| && (k == |s| || !IsCSpace(s[k]))
    ensures forall j :: i <= j < k ==> IsCSpace(s[j])
    decreases |s| - i
  {
    if i < |s| && IsCSpace(s[i]) then FirstNonSpace(s, i + 1) else i
  }

  /** The reverse search: the end of the text once the whitespace before position `j` is dropped. */
  function EndOfNonSpace(s: string, j: nat): (k: nat)
    requires j <= |s|
    ensures k <= j && (k == 0 || !IsCSpace(s[k - 1]))
    ensures forall i :: k <= i < j ==> IsCSpace(s[i])
    decreases j
  {
    if j > 0 && IsCSpace(s[j - 1]) then EndOfNonSpace(s, j - 1) else j
  }

  /** Drops the leading whitespace. */
  function TrimLeft(s: string): (r: string)
    ensures |r| <= |s| && r == s[|s| - |r|..]
    ensures r == [] || !IsCSpace(r[0])
    ensures forall i :: 0 <= i < |s| - |r| ==> IsCSpace(s[i])
  {
    s[FirstNonSpace(s, 0)..]
  }

  /** Drops the trailing whitespace. */
  function TrimRight(s: string): (r: string)
    ensures |r| <= |s| && r == s[..|r|]
    ensures r == [] || !IsCSpace(r[|r| - 1])
    ensures forall i :: |r| <= i < |s| ==> IsCSpace(s[i])
  {
    s[..EndOfNonSpace(s, |s|)]
  }

  /** `CleanAndTrimString`: NULs become spaces, then the whitespace at both ends goes. */
  function CleanAndTrimString(s: string): string
  {
    TrimRight(TrimLeft(ReplaceChar(s, '\0', ' ')))
  }

  /** The result holds no NUL and no whitespace at either end. */
  lemma CleanAndTrimStringIsClean(s: string)
    ensures var r := CleanAndTrimString(s);
      '\0' !in r && (r == [] || (!IsCSpace(r[0]) && !IsCSpace(r[|r| - 1])))
  {
    TrimBothIsClean(ReplaceChar(s, '\0', ' '));
  }

  lemma TrimBothIsClean(c: string)
    ensures var r := TrimRight(TrimLeft(c));
      (forall x :: x in r ==> x in c) && (r == [] || (!IsCSpace(r[0]) && !IsCSpace(r[|r| - 1])))
  {
    var l := TrimLeft(c);
    var r := TrimRight(l);
    assert forall x :: x in r ==> x in l;
    assert forall x :: x in l ==> x in c;
    if r != [] {
      assert r[0] == l[0];
    }
  }

  /** `r` sits in `c` at offset `k`, with only whitespace before and after it. */
  predicate TrimmedAt(c: string, r: string, k: int)
  {
    0 <= k && k + |r| <= |c| && c[k..k + |r|] == r &&
    (forall i :: 0 <= i < k ==> IsCSpace(c[i])) &&
    (forall i :: k + |r| <= i < |c| ==> IsCSpace(c[i]))
  }

  /**
   * The result is the cleaned text with only whitespace taken off its two
   * ends: it sits at the offset where the leading whitespace ends.
   */
  lemma CleanAndTrimStringIsInfix(s: string)
    ensures var c := ReplaceChar(s, '\0', ' ');
      TrimmedAt(c, CleanAndTrimString(s), |c| - |TrimLeft(c)|)
  {
    TrimBothIsInfix(ReplaceChar(s, '\0', ' '));
  }

  lemma TrimBothIsInfix(c: string)
    ensures TrimmedAt(c, TrimRight(TrimLeft(c)), |c| - |TrimLeft(c)|)
  {
    var l := TrimLeft(c);
    var r := TrimRight(l);
    var k := |c| - |l|;
    assert c[k..k + |r|] == l[..|r|];
    forall i | k + |r| <= i < |c|
      ensures IsCSpace(c[i])
    {
      assert c[i] == l[i - k];
    }
  }

  lemma CleanAndTrimStringIdempotent(s: string)
    ensures CleanAndTrimString(CleanAndTrimString(s)) == CleanAndTrimString(s)
  {
    var r := CleanAndTrimString(s);
    CleanAndTrimStringIsClean(s);
    assert ReplaceChar(r, '\0', ' ') == r;
  }

  // ---------------------------------------------------------------------
  // Searching

  /** `pat` occurs in `s` starting at index `k`. */
  predicate OccursAt(s: string, pat: string, k: nat)
  {
    k + |pat| <= |s| && s[k..k + |pat|] == pat
  }

  /** `std::string::find`: the first position at or after `from` where `pat` occurs in `s`. */
  function Find(s: string, pat: string, from: nat): (r: Wrappers.Option<nat>)
    ensures r.Some? ==> from <= r.value && OccursAt(s, pat, r.value)
    ensures r.Some? ==> forall k :: from <= k < r.value ==> !OccursAt(s, pat, k)
    ensures r.None? ==> forall k :: from <= k ==> !OccursAt(s, pat, k)
    decreases |s| - from
  {
    if from + |pat| > |s| then Wrappers.None
    else if OccursAt(s, pat, from) then Wrappers.Some(from)
    else Find(s, pat, from + 1)
  }

  /** `std::find` on a sequence of strings: the position of the first occurrence of `x`. */
  function FirstIndex(s: seq<string>, x: string): (r: nat)
    requires x in s
    ensures r < |s| && s[r] == x && x !in s[..r]
  {
    if s[0] == x then 0
    else
      var j := FirstIndex(s[1..], x);
      assert s[..j + 1] == [s[0]] + s[1..][..j];
      j + 1
  }

  // ---------------------------------------------------------------------
  // Durations

  /** Decimal digits of `n`, without leading zeros. */
  function Digits(n: nat): (r: string)
    ensures |r| >= 1
    ensures forall i :: 0 <= i < |r| ==> '0' <= r[i] <= '9'
    decreases n
  {
    if n < 10 then [('0' as int + n) as char]
    else Digits(n / 10) + [('0' as int + n % 10) as char]
  }

  predicate AllDigits(s: string)
  {
    forall i :: 0 <= i < |s| ==> '0' <= s[i] <= '9'
  }

  /** The number a string of decimal digits denotes. */
  function DecimalValue(s: string): nat
    requires AllDigits(s)
  {
    if s == [] then 0 else DecimalValue(s[..|s| - 1]) * 10 + (s[|s| - 1] as int - '0' as int)
  }

  lemma {:induction false} DecimalValueOfDigits(n: nat)
    ensures DecimalValue(Digits(n)) == n
    decreases n
  {
    if n >= 10 {
      DecimalValueOfDigits(n / 10);
      var d := Digits(n);
      assert d[..|d| - 1] == Digits(n / 10);
    }
  }

  function Zeros(k: nat): (r: string)
    ensures |r| == k && AllDigits(r)
  {
    seq(k, _ => '0')
  }

  /** Leading zeros do not change the value. */
  lemma {:induction false} DecimalValueLeadingZeros(k: nat, s: string)
    requires AllDigits(s)
    ensures AllDigits(Zeros(k) + s) && DecimalValue(Zeros(k) + s) == DecimalValue(s)
    decreases |s|
  {
    var z := Zeros(k) + s;
    if s == [] {
      assert z == Zeros(k);
      ZerosValue(k);
    } else {
      assert z[..|z| - 1] == Zeros(k) + s[..|s| - 1];
      DecimalValueLeadingZeros(k, s[..|s| - 1]);
    }
  }

  lemma {:induction false} ZerosValue(k: nat)
    ensures DecimalValue(Zeros(k)) == 0
    decreases k
  {
    if k > 0 {
      assert Zeros(k)[..k - 1] == Zeros(k - 1);
      ZerosValue(k - 1);
    }
  }

  function Pow10(w: nat): nat
  {
    if w == 0 then 1 else 10 * Pow10(w - 1)
  }

  lemma {:induction false} DigitsLength(n: nat, w: nat)
    requires 1 <= w && n < Pow10(w)
    ensures |Digits(n)| <= w
    decreases w
  {
    if n >= 10 {
      DigitsLength(n / 10, w - 1);
    }
  }

  /** `std::setw(width)` with `std::setfill('0')`: zeros in front up to `width` characters. */
  function Pad(n: nat, width: nat): string
  {
    var d := Digits(n);
    Zeros(if |d| < width then width - |d| else 0) + d
  }

  /** A padded number is `width` long when it fits, and reads back as the number. */
  lemma PadReadsBack(n: nat, width: nat)
    requires 1 <= width && n < Pow10(width)
    ensures |Pad(n, width)| == width
    ensures AllDigits(Pad(n, width)) && DecimalValue(Pad(n, width)) == n
  {
    DigitsLength(n, width);
    var d := Digits(n);
    DecimalValueLeadingZeros(width - |d|, d);
    DecimalValueOfDigits(n);
  }

  datatype Clock = Clock(hours: nat, minutes: nat, seconds: nat, millis: nat)

  const NanosPerMilli := 1_000_000
  const NanosPerSecond := 1_000_000_000
  const NanosPerMinute := 60_000_000_000
  const NanosPerHour := 3_600_000_000_000

  /** The truncating casts of `FormatDuration`, applied to a non-negative count of nanoseconds. */
  function ClockFields(ns: nat): (c: Clock)
    ensures c.minutes < 60 && c.seconds < 60 && c.millis < 1000
    ensures ((c.hours * 60 + c.minutes) * 60 + c.seconds) * 1000 + c.millis == ns / NanosPerMilli
  {
    var hours := ns / NanosPerHour;
    var minutes := (ns - hours * NanosPerHour) / NanosPerMinute;
    var seconds := (ns - hours * NanosPerHour - minutes * NanosPerMinute) / NanosPerSecond;
    var millis := (ns - hours * NanosPerHour - minutes * NanosPerMinute - seconds * NanosPerSecond) / NanosPerMilli;
    Clock(hours, minutes, seconds, millis)
  }

  /** The text of a clock: HH:MM:SS, then `.mmm` when milliseconds are asked for. */
  function ClockText(c: Clock, withMillis: bool): string
  {
    Pad(c.hours, 2) + ":" + Pad(c.minutes, 2) + ":" + Pad(c.seconds, 2) +
    (if withMillis then "." + Pad(c.millis, 3) else "")
  }

  /** `FormatDuration`: the clock text of the truncated fields of the duration. */
  function FormatDuration(ns: nat, withMillis: bool): string
  {
    ClockText(ClockFields(ns), withMillis)
  }

  /** `field` is all digits and reads back as `v`. */
  predicate ReadsAs(field: string, v: nat)
  {
    AllDigits(field) && DecimalValue(field) == v
  }

  /** `r` is HH:MM:SS, then `.mmm` exactly when asked for, with each field reading back as the clock's. */
  predicate ClockReadsBack(r: string, c: Clock, withMillis: bool)
  {
    |r| == (if withMillis then 12 else 8) && r[2] == ':' && r[5] == ':' &&
    ReadsAs(r[0..2], c.hours) && ReadsAs(r[3..5], c.minutes) && ReadsAs(r[6..8], c.seconds) &&
    (withMillis ==> r[8] == '.' && ReadsAs(r[9..12], c.millis))
  }

  /**
   * Under a hundred hours the text is exactly HH:MM:SS or HH:MM:SS.mmm, and
   * each field reads back as the corresponding part of the clock.
   */
  lemma ClockTextReadsBack(c: Clock, withMillis: bool)
    requires c.hours < 100 && c.minutes < 60 && c.seconds < 60 && c.millis < 1000
    ensures ClockReadsBack(ClockText(c, withMillis), c, withMillis)
  {
    assert Pow10(2) == 100 && Pow10(3) == 1000;
    PadReadsBack(c.hours, 2);
    PadReadsBack(c.minutes, 2);
    PadReadsBack(c.seconds, 2);
    PadReadsBack(c.millis, 3);
    ClockLayout(Pad(c.hours, 2), Pad(c.minutes, 2), Pad(c.seconds, 2), Pad(c.millis, 3), c, withMillis);
  }

  /** Fields that read back as the clock's, laid out as HH:MM:SS[.mmm], still read back in place. */
  lemma ClockLayout(hh: string, mm: string, ss: string, mmm: string, c: Clock, withMillis: bool)
    requires |hh| == 2 && |mm| == 2 && |ss| == 2 && |mmm| == 3
    requires ReadsAs(hh, c.hours) && ReadsAs(mm, c.minutes) && ReadsAs(ss, c.seconds) && ReadsAs(mmm, c.millis)
    ensures ClockReadsBack(hh + ":" + mm + ":" + ss + (if withMillis then "." + mmm else ""), c, withMillis)
  {
    var tail := if withMillis then "." + mmm else "";
    var r := hh + ":" + mm + ":" + ss + tail;
    assert r[0] == hh[0] && r[1] == hh[1] && r[2] == ':';
    assert r[3] == mm[0] && r[4] == mm[1] && r[5] == ':';
    assert r[6] == ss[0] && r[7] == ss[1];
    Field2At(r, hh, 0);
    Field2At(r, mm, 3);
    Field2At(r, ss, 6);
    if withMillis {
      assert r[8] == '.' && r[9] == mmm[0] && r[10] == mmm[1] && r[11] == mmm[2];
      Field3At(r, mmm, 9);
    }
  }

  /** Two characters of `r` matching `f` from position `i` form the slice `f`. */
  lemma Field2At(r: string, f: string, i: nat)
    requires |f| == 2 && i + 2 <= |r| && r[i] == f[0] && r[i + 1] == f[1]
    ensures r[i..i + 2] == f
  {
    assert r[i..i + 2] == [f[0], f[1]];
  }

  /** Three characters of `r` matching `f` from position `i` form the slice `f`. */
  lemma Field3At(r: string, f: string, i: nat)
    requires |f| == 3 && i + 3 <= |r| && r[i] == f[0] && r[i + 1] == f[1] && r[i + 2] == f[2]
    ensures r[i..i + 3] == f
  {
    assert r[i..i + 3] == [f[0], f[1], f[2]];
  }

  /** `FormatDuration` under a hundred hours: fixed layout, fields reading back as the duration's parts. */
  lemma FormatDurationReadsBack(ns: nat, withMillis: bool)
    requires ClockFields(ns).hours < 100
    ensures ClockReadsBack(FormatDuration(ns, withMillis), ClockFields(ns), withMillis)
  {
    ClockTextReadsBack(ClockFields(ns), withMillis);
  }
}
