/**
 * The command-line parser: options are registered under a long name and an
 * optional one-character short name; `Process` scans the arguments, records
 * the value of each recognised option, collects the arguments it does not
 * recognise, and fails on an invalid value or a missing required option.
 */
module CommandParsing {
  import opened Wrappers
  import opened CommandOptions
  import Utils

  /** The short name of an option registered without one. */
  const NoShortName: char := '\0'

  /**
   * The option an argument names, if it is registered: "--name" names
   * `name`; a two-character "-x" names the long name registered for `x`.
   */
  function Lookup(shortOptions: map<char, string>, longOptions: map<string, CommandOption>, arg: string): (r: Option<string>)
    ensures r.Some? ==> r.value in longOptions
    ensures |arg| >= 2 && arg[..2] == "--" ==> (r.Some? <==> arg[2..] in longOptions)
    ensures r.Some? && |arg| >= 2 && arg[..2] == "--" ==> r.value == arg[2..]
    ensures !(|arg| >= 2 && arg[..2] == "--") && !(|arg| == 2 && arg[0] == '-') ==> r.None?
  {
    if |arg| >= 2 && arg[..2] == "--" then
      var name := arg[2..];
      if name in longOptions then Some(name) else None
    else if |arg| == 2 && arg[0] == '-' then
      if arg[1] in shortOptions && shortOptions[arg[1]] in longOptions then Some(shortOptions[arg[1]]) else None
    else None
  }

  /** The next argument is taken as the value when there is one and it does not start with '-'. */
  predicate TakesValue(argv: seq<string>, i: nat)
  {
    i + 1 < |argv| && (argv[i + 1] == "" || argv[i + 1][0] != '-')
  }

  datatype ScanOutcome = ScanOutcome(ok: bool, values: map<string, string>, unknown: seq<string>)

  /**
   * The argument loop of `Process`, from position `i`: unrecognised
   * arguments are collected and skipped; a recognised option takes the
   * next argument as its value when `TakesValue` allows, and an invalid
   * value ends the scan with failure.
   */
  function Scan(shortOptions: map<char, string>, longOptions: map<string, CommandOption>, argv: seq<string>,
                i: nat, values: map<string, string>, unknown: seq<string>): ScanOutcome
    decreases |argv| - i
  {
    if i >= |argv| then ScanOutcome(true, values, unknown)
    else
      match Lookup(shortOptions, longOptions, argv[i])
      case None => Scan(shortOptions, longOptions, argv, i + 1, values, unknown + [argv[i]])
      case Some(name) =>
        var value := if TakesValue(argv, i) then argv[i + 1] else "";
        var next := if TakesValue(argv, i) then i + 2 else i + 1;
        if longOptions[name].ValidateValue(value) then
          Scan(shortOptions, longOptions, argv, next, values[name := value], unknown)
        else ScanOutcome(false, values, unknown)
  }

  /** Every recorded value belongs to a registered option and is valid for it. */
  ghost predicate ValuesValid(longOptions: map<string, CommandOption>, values: map<string, string>)
  {
    forall n :: n in values ==> n in longOptions && longOptions[n].ValidateValue(values[n])
  }

  /** The scan only records valid values, and only adds to the unknown list. */
  lemma {:induction false} ScanKeepsValuesValid(shortOptions: map<char, string>, longOptions: map<string, CommandOption>,
                                                argv: seq<string>, i: nat, values: map<string, string>, unknown: seq<string>)
    requires ValuesValid(longOptions, values)
    ensures var out := Scan(shortOptions, longOptions, argv, i, values, unknown);
      ValuesValid(longOptions, out.values) && unknown <= out.unknown
    decreases |argv| - i
  {
    if i < |argv| {
      match Lookup(shortOptions, longOptions, argv[i])
      case None =>
        ScanKeepsValuesValid(shortOptions, longOptions, argv, i + 1, values, unknown + [argv[i]]);
      case Some(name) =>
        var value := if TakesValue(argv, i) then argv[i + 1] else "";
        var next := if TakesValue(argv, i) then i + 2 else i + 1;
        if longOptions[name].ValidateValue(value) {
          ScanKeepsValuesValid(shortOptions, longOptions, argv, next, values[name := value], unknown);
        }
    }
  }

  /** With no option registered, every argument is unknown and the scan succeeds without recording anything. */
  lemma {:induction false} ScanWithoutOptions(shortOptions: map<char, string>, argv: seq<string>, i: nat, unknown: seq<string>)
    requires i <= |argv|
    ensures Scan(shortOptions, map[], argv, i, map[], unknown) == ScanOutcome(true, map[], unknown + argv[i..])
    decreases |argv| - i
  {
    if i < |argv| {
      ScanWithoutOptions(shortOptions, argv, i + 1, unknown + [argv[i]]);
      assert argv[i..] == [argv[i]] + argv[i + 1..];
    } else {
      assert argv[i..] == [];
    }
  }

  /** An option given with an invalid value makes the scan fail at once. */
  lemma ScanStopsOnInvalidValue(shortOptions: map<char, string>, longOptions: map<string, CommandOption>,
                                argv: seq<string>, i: nat, values: map<string, string>, unknown: seq<string>)
    requires i < |argv| && Lookup(shortOptions, longOptions, argv[i]).Some?
    requires var name := Lookup(shortOptions, longOptions, argv[i]).value;
      !longOptions[name].ValidateValue(if TakesValue(argv, i) then argv[i + 1] else "")
    ensures !Scan(shortOptions, longOptions, argv, i, values, unknown).ok
  {
  }

  /** Every required option has a recorded value. */
  ghost predicate RequiredPresent(longOptions: map<string, CommandOption>, values: map<string, string>)
  {
    forall n :: n in longOptions && longOptions[n].required ==> n in values
  }

  /** One step of `Scan`, exposed for the loop of `Process`. */
  lemma ScanStep(shortOptions: map<char, string>, longOptions: map<string, CommandOption>, argv: seq<string>,
                 i: nat, values: map<string, string>, unknown: seq<string>)
    requires i < |argv|
    ensures Lookup(shortOptions, longOptions, argv[i]).None? ==>
      Scan(shortOptions, longOptions, argv, i, values, unknown) ==
      Scan(shortOptions, longOptions, argv, i + 1, values, unknown + [argv[i]])
  {
  }

  class CommandParser {
    var shortOptions: map<char, string>
    var longOptions: map<string, CommandOption>
    var longValues: map<string, string>
    var unknownOptions: seq<string>
    var displayOrder: seq<string>

    constructor()
      ensures shortOptions == map[] && longOptions == map[] && longValues == map[]
      ensures unknownOptions == [] && displayOrder == []
    {
      shortOptions := map[];
      longOptions := map[];
      longValues := map[];
      unknownOptions := [];
      displayOrder := [];
    }

    /** `AddOption`: registers the option under its long name, and under its short name when it has one. */
    method AddOption(option: CommandOption)
      modifies this`shortOptions, this`longOptions
      ensures longOptions == old(longOptions)[option.longName := option]
      ensures shortOptions == if option.shortName != NoShortName
        then old(shortOptions)[option.shortName := option.longName] else old(shortOptions)
    {
      if option.shortName != NoShortName {
        shortOptions := shortOptions[option.shortName := option.longName];
      }
      longOptions := longOptions[option.longName := option];
    }

    method AddFlag(option: CommandOption)
      modifies this`shortOptions, this`longOptions
      ensures longOptions == old(longOptions)[option.longName := option.SetFlag(true)]
      ensures shortOptions == if option.shortName != NoShortName
        then old(shortOptions)[option.shortName := option.longName] else old(shortOptions)
    {
      AddOption(option.SetFlag(true));
    }

    method AddBooleanOption(option: CommandOption)
      modifies this`shortOptions, this`longOptions
      ensures longOptions == old(longOptions)[option.longName := option.SetValidValues(["true", "false"])]
      ensures shortOptions == if option.shortName != NoShortName
        then old(shortOptions)[option.shortName := option.longName] else old(shortOptions)
    {
      AddOption(option.SetValidValues(["true", "false"]));
    }

    method AddEnumOption(option: CommandOption, validValues: seq<string>)
      modifies this`shortOptions, this`longOptions
      ensures longOptions == old(longOptions)[option.longName := option.SetValidValues(validValues)]
      ensures shortOptions == if option.shortName != NoShortName
        then old(shortOptions)[option.shortName := option.longName] else old(shortOptions)
    {
      AddOption(option.SetValidValues(validValues));
    }

    /**
     * `Process`: the argument loop (argument 0, the program name, is
     * skipped), then the check that every required option was given; on
     * success, the display order is filled in when none was set.
     */
    method Process(argv: seq<string>) returns (ok: bool)
      modifies this`longValues, this`unknownOptions, this`displayOrder
      ensures var out := Scan(shortOptions, longOptions, argv, 1, old(longValues), old(unknownOptions));
        longValues == out.values && unknownOptions == out.unknown &&
        (ok <==> out.ok && RequiredPresent(longOptions, out.values))
      ensures ok && old(displayOrder) == [] ==>
        (forall n :: n in displayOrder <==> n in longOptions) &&
        (forall a, b :: 0 <= a < b < |displayOrder| ==> displayOrder[a] != displayOrder[b])
      ensures !(ok && old(displayOrder) == []) ==> displayOrder == old(displayOrder)
    {
      var scanned := ScanArguments(argv);
      if !scanned {
        return false;
      }
      ok := CheckRequired();
      if ok {
        ConfigureDisplayOptionOrder();
      }
    }

    /** The argument loop of `Process`. */
    method ScanArguments(argv: seq<string>) returns (ok: bool)
      modifies this`longValues, this`unknownOptions
      ensures var out := Scan(shortOptions, longOptions, argv, 1, old(longValues), old(unknownOptions));
        longValues == out.values && unknownOptions == out.unknown && ok == out.ok
    {
      ghost var target := Scan(shortOptions, longOptions, argv, 1, longValues, unknownOptions);
      var i := 1;
      while i < |argv|
        invariant i >= 1
        invariant Scan(shortOptions, longOptions, argv, i, longValues, unknownOptions) == target
        decreases |argv| - i
      {
        var arg := argv[i];
        var name: string;
        if |arg| >= 2 && arg[..2] == "--" {
          name := arg[2..];
        } else if |arg| == 2 && arg[0] == '-' {
          var shortName := arg[1];
          if shortName !in shortOptions {
            unknownOptions := unknownOptions + [arg];
            i := i + 1;
            continue;
          }
          name := shortOptions[shortName];
        } else {
          unknownOptions := unknownOptions + [arg];
          i := i + 1;
          continue;
        }
        if name !in longOptions {
          unknownOptions := unknownOptions + [arg];
          i := i + 1;
          continue;
        }
        var value := "";
        if i + 1 < |argv| && (argv[i + 1] == "" || argv[i + 1][0] != '-') {
          i := i + 1;
          value := argv[i];
        }
        if longOptions[name].ValidateValue(value) {
          longValues := longValues[name := value];
          i := i + 1;
          continue;
        }
        return false;
      }
      return true;
    }

    /** The second loop of `Process`: fails at the first required option without a value. */
    method CheckRequired() returns (ok: bool)
      ensures ok <==> RequiredPresent(longOptions, longValues)
    {
      var pending := longOptions.Keys;
      while pending != {}
        invariant pending <= longOptions.Keys
        invariant forall n :: n in longOptions && n !in pending && longOptions[n].required ==> n in longValues
        decreases pending
      {
        var name :| name in pending;
        if longOptions[name].required && name !in longValues {
          return false;
        }
        pending := pending - {name};
      }
      return true;
    }

    /** `SetDisplayOptionOrder`: the order options are listed in the help. */
    method SetDisplayOptionOrder(order: seq<string>)
      modifies this`displayOrder
      ensures displayOrder == order
    {
      displayOrder := order;
    }

    /** `ConfigureDisplayOptionOrder`: with no order set, every registered option once. */
    method ConfigureDisplayOptionOrder()
      modifies this`displayOrder
      ensures old(displayOrder) == [] ==>
        (forall n :: n in displayOrder <==> n in longOptions) &&
        (forall a, b :: 0 <= a < b < |displayOrder| ==> displayOrder[a] != displayOrder[b])
      ensures old(displayOrder) != [] ==> displayOrder == old(displayOrder)
    {
      if displayOrder == [] {
        var pending := longOptions.Keys;
        while pending != {}
          invariant pending <= longOptions.Keys
          invariant forall n :: n in displayOrder <==> n in longOptions && n !in pending
          invariant forall a, b :: 0 <= a < b < |displayOrder| ==> displayOrder[a] != displayOrder[b]
          decreases pending
        {
          var name :| name in pending;
          displayOrder := displayOrder + [name];
          pending := pending - {name};
        }
      }
    }

    /** `OptionPassed`: whether the option was given a value. */
    predicate OptionPassed(longName: string)
      reads this
    {
      longName in longValues
    }

    /**
     * `GetOptionValue`: the value given, else the option's default; `None`
     * stands for the exception thrown for a name that was neither passed
     * nor registered.
     */
    function GetOptionValue(longName: string): (r: Option<string>)
      reads this
      ensures longName in longValues ==> r == Some(longValues[longName])
      ensures longName !in longValues && longName in longOptions ==> r == Some(longOptions[longName].GetDefaultValue())
      ensures r.None? <==> longName !in longValues && longName !in longOptions
    {
      if longName !in longValues then
        if longName in longOptions then Some(longOptions[longName].GetDefaultValue()) else None
      else Some(longValues[longName])
    }

    /** `GetOption`: the value given, or nothing when the option was not passed. */
    function GetOption(longName: string): (r: Option<string>)
      reads this
      ensures r.None? <==> !OptionPassed(longName)
      ensures r.Some? ==> r.value == longValues[longName]
    {
      if longName !in longValues then None else Some(longValues[longName])
    }

    /** A passed option reads the same through both accessors; a registered one not passed falls back to its default. */
    lemma AccessorsAgree(longName: string)
      ensures GetOption(longName).Some? ==> GetOptionValue(longName) == GetOption(longName)
      ensures GetOption(longName).None? && longName in longOptions ==>
        GetOptionValue(longName) == Some(longOptions[longName].GetDefaultValue())
    {
    }
  }

  // ---------------------------------------------------------------------
  // Help text wrapping

  /** The words `>>` extracts from a stream: maximal runs of non-whitespace. */
  function Words(s: string): (r: seq<string>)
  {
    if s == [] then []
    else
      var init, c := s[..|s| - 1], s[|s| - 1];
      if Utils.IsCSpace(c) then Words(init)
      else if init == [] || Utils.IsCSpace(init[|init| - 1]) then Words(init) + [[c]]
      else Extend(Words(init), c)
  }

  /** `c` added to the end of the last word. */
  function Extend(w: seq<string>, c: char): seq<string>
  {
    if w == [] then [[c]] else w[..|w| - 1] + [w[|w| - 1] + [c]]
  }

  lemma ExtendAppend(wa: seq<string>, wb: seq<string>, c: char)
    requires wb != []
    ensures Extend(wa + wb, c) == wa + Extend(wb, c)
  {
    assert (wa + wb)[..|wa + wb| - 1] == wa + wb[..|wb| - 1];
  }

  predicate AllSpaces(s: string)
  {
    forall i :: 0 <= i < |s| ==> Utils.IsCSpace(s[i])
  }

  predicate NoSpaces(s: string)
  {
    forall i :: 0 <= i < |s| ==> !Utils.IsCSpace(s[i])
  }

  /** Text ending in a non-space character has at least one word. */
  lemma {:induction false} WordsNonEmpty(s: string)
    requires s != [] && !Utils.IsCSpace(s[|s| - 1])
    ensures Words(s) != []
  {
  }

  /** Whitespace alone has no words. */
  lemma {:induction false} WordsOfSpaces(s: string)
    requires AllSpaces(s)
    ensures Words(s) == []
    decreases |s|
  {
    if s != [] {
      WordsOfSpaces(s[..|s| - 1]);
    }
  }

  /** What one more character does to the words of a text. */
  lemma WordsSnoc(s: string, c: char)
    ensures Words(s + [c]) ==
      if Utils.IsCSpace(c) then Words(s)
      else if s == [] || Utils.IsCSpace(s[|s| - 1]) then Words(s) + [[c]]
      else Extend(Words(s), c)
  {
    var t := s + [c];
    assert t[..|t| - 1] == s;
    if Utils.IsCSpace(c) {
      assert Words(t) == Words(s);
    } else if s == [] || Utils.IsCSpace(s[|s| - 1]) {
      assert Words(t) == Words(s) + [[c]];
    } else {
      assert Words(t) == Extend(Words(s), c);
    }
  }

  /** Text ending in whitespace (or empty) ends its last word: what follows starts new words. */
  lemma {:induction false} WordsJoin(a: string, b: string)
    requires a == [] || Utils.IsCSpace(a[|a| - 1])
    ensures Words(a + b) == Words(a) + Words(b)
    decreases |b|
  {
    if b == [] {
      assert a + b == a;
    } else {
      var b', c := b[..|b| - 1], b[|b| - 1];
      WordsJoin(a, b');
      JoinSnoc(a, b', c);
      SnocSplit(a, b);
    }
  }

  /** A text is its last character appended to the rest, also after a prefix. */
  lemma SnocSplit(a: string, b: string)
    requires b != []
    ensures b[..|b| - 1] + [b[|b| - 1]] == b
    ensures (a + b[..|b| - 1]) + [b[|b| - 1]] == a + b
  {
  }

  /** One more character keeps the words of a text after whitespace those of its two parts. */
  lemma JoinSnoc(a: string, b: string, c: char)
    requires a == [] || Utils.IsCSpace(a[|a| - 1])
    requires Words(a + b) == Words(a) + Words(b)
    ensures Words((a + b) + [c]) == Words(a) + Words(b + [c])
  {
    WordsSnoc(a + b, c);
    WordsSnoc(b, c);
    if b == [] {
      assert a + b == a;
    } else {
      var ab := a + b;
      assert ab[|ab| - 1] == b[|b| - 1];
      if !Utils.IsCSpace(c) && !Utils.IsCSpace(b[|b| - 1]) {
        WordsNonEmpty(b);
        ExtendAppend(Words(a), Words(b), c);
      }
    }
  }

  /** Trailing whitespace adds no word. */
  lemma {:induction false} WordsAfterSpaces(a: string, sep: string)
    requires AllSpaces(sep)
    ensures Words(a + sep) == Words(a)
    decreases |sep|
  {
    if sep == [] {
      assert a + sep == a;
    } else {
      var sep' := sep[..|sep| - 1];
      WordsAfterSpaces(a, sep');
      assert (a + sep)[..|a + sep| - 1] == a + sep';
    }
  }

  /** A single word on its own. */
  lemma {:induction false} WordsOfWord(w: string)
    requires w != [] && NoSpaces(w)
    ensures Words(w) == [w]
    decreases |w|
  {
    if |w| > 1 {
      var init := w[..|w| - 1];
      WordsOfWord(init);
      assert init + [w[|w| - 1]] == w;
    } else {
      assert w[..0] == [];
      assert [w[0]] == w;
    }
  }

  /** The words of any text are non-empty and hold no whitespace. */
  lemma {:induction false} WordsAreWords(s: string)
    ensures forall k :: 0 <= k < |Words(s)| ==> Words(s)[k] != [] && NoSpaces(Words(s)[k])
    decreases |s|
  {
    if s != [] {
      WordsAreWords(s[..|s| - 1]);
    }
  }

  /** Appending a separator and a word to a line appends that word to its words. */
  lemma AppendWord(line: string, sep: string, word: string)
    requires sep != [] && AllSpaces(sep) && word != [] && NoSpaces(word)
    ensures Words(line + sep + word) == Words(line) + [word]
  {
    WordsAfterSpaces(line, sep);
    WordsJoin(line + sep, word);
    WordsOfWord(word);
  }

  /** The greedy layout of a list of words: the lines closed so far, and the line still open. */
  datatype Layout = Layout(closed: seq<string>, line: string)

  /**
   * Words placed one after another: a word goes on the open line, after a
   * space unless the line is empty, while the line plus a space plus the
   * word fits `width`; otherwise the open line is closed and the word
   * opens the next one. An empty open line is closed like any other.
   */
  function Greedy(words: seq<string>, width: nat): Layout
    decreases |words|
  {
    if words == [] then Layout([], "")
    else
      var prev := Greedy(words[..|words| - 1], width);
      var word := words[|words| - 1];
      if |prev.line| + |word| + 1 > width then Layout(prev.closed + [prev.line], word)
      else Layout(prev.closed, (if prev.line != "" then prev.line + " " else prev.line) + word)
  }

  /** Closed lines, each followed by its line break. */
  function ClosedText(closed: seq<string>, sep: string): string
  {
    if closed == [] then "" else ClosedText(closed[..|closed| - 1], sep) + closed[|closed| - 1] + sep
  }

  /** The wrapped text: the closed lines, each ended by a newline and the padding, then the open line. */
  function WrappedText(words: seq<string>, width: nat, padding: nat): string
  {
    ClosedText(Greedy(words, width).closed, LineBreak(padding)) + Greedy(words, width).line
  }

  /**
   * `WrapText`: words go on the current line, separated by single spaces,
   * until the next one would make it longer than `width`; then the line is
   * closed with a newline and `padding` spaces, and the word starts the
   * next line. The result is the greedy layout of the text's words, and
   * it keeps those words, in order.
   */
  method WrapText(text: string, width: nat, padding: nat) returns (wrapped: string)
    ensures wrapped == WrappedText(Words(text), width, padding)
    ensures Words(wrapped) == Words(text)
  {
    var words := Words(text);
    WordsAreWords(text);
    wrapped := "";
    var line := "";
    var sep := LineBreak(padding);
    for k := 0 to |words|
      invariant WrapInvariant(wrapped, line, words[..k])
      invariant LaidOut(wrapped, line, words[..k], width, sep)
    {
      var word := words[k];
      assert words[..k + 1] == words[..k] + [word];
      WrapStep(wrapped, line, sep, word, words[..k]);
      LaidOutStep(wrapped, line, words[..k], word, width, sep);
      if |line| + |word| + 1 > width {
        wrapped := wrapped + line + sep;
        line := word;
      } else {
        line := (if line != "" then line + " " else line) + word;
      }
    }
    assert words[..|words|] == words;
    assert WrapInvariant(wrapped, line, words);
    assert LaidOut(wrapped, line, words, width, sep);
    WordsJoin(wrapped, line);
    wrapped := wrapped + line;
  }

  /** The text wrapped so far and the open line are the greedy layout of the words read so far. */
  predicate LaidOut(wrapped: string, line: string, sofar: seq<string>, width: nat, sep: string)
  {
    wrapped == ClosedText(Greedy(sofar, width).closed, sep) && line == Greedy(sofar, width).line
  }

  /** Either way the loop goes, it follows the greedy layout one word further. */
  lemma LaidOutStep(wrapped: string, line: string, sofar: seq<string>, word: string, width: nat, sep: string)
    requires LaidOut(wrapped, line, sofar, width, sep)
    ensures |line| + |word| + 1 > width ==> LaidOut(wrapped + line + sep, word, sofar + [word], width, sep)
    ensures |line| + |word| + 1 <= width ==>
      LaidOut(wrapped, (if line != "" then line + " " else line) + word, sofar + [word], width, sep)
  {
    assert (sofar + [word])[..|sofar|] == sofar;
    ClosedTextSnoc(Greedy(sofar, width).closed, line, sep);
  }

  /** Closing one more line appends it and its line break. */
  lemma ClosedTextSnoc(closed: seq<string>, line: string, sep: string)
    ensures ClosedText(closed + [line], sep) == ClosedText(closed, sep) + line + sep
  {
    assert (closed + [line])[..|closed|] == closed;
  }

  /** A line is within `width`, or holds no space and so at most one word. */
  predicate FitsOrSingle(line: string, width: nat)
  {
    |line| <= width || NoSpaces(line)
  }

  /**
   * Every line of the layout, closed or open, is at most `width` long
   * unless it is a single word: a line of two or more words always fits.
   */
  lemma {:induction false} GreedyLinesFit(words: seq<string>, width: nat)
    requires forall k :: 0 <= k < |words| ==> NoSpaces(words[k])
    ensures forall i :: 0 <= i < |Greedy(words, width).closed| ==> FitsOrSingle(Greedy(words, width).closed[i], width)
    ensures FitsOrSingle(Greedy(words, width).line, width)
    decreases |words|
  {
    if words != [] {
      GreedyLinesFit(words[..|words| - 1], width);
    }
  }

  /** A first word that does not fit beside a space closes the empty line, which stays the first closed line. */
  lemma {:induction false} GreedyFirstLineEmpty(words: seq<string>, width: nat)
    requires words != [] && |words[0]| + 1 > width
    ensures Greedy(words, width).closed != [] && Greedy(words, width).closed[0] == ""
    decreases |words|
  {
    if |words| > 1 {
      var init := words[..|words| - 1];
      assert init[0] == words[0];
      GreedyFirstLineEmpty(init, width);
    } else {
      assert words[..0] == [];
    }
  }

  /** Closed text begins with its first line and that line's break. */
  lemma {:induction false} ClosedTextStartsWithFirst(closed: seq<string>, sep: string)
    requires closed != []
    ensures |ClosedText(closed, sep)| >= |closed[0]| + |sep|
    ensures ClosedText(closed, sep)[..|closed[0]| + |sep|] == closed[0] + sep
    decreases |closed|
  {
    if |closed| > 1 {
      var init := closed[..|closed| - 1];
      ClosedTextStartsWithFirst(init, sep);
      var t := ClosedText(init, sep);
      assert ClosedText(closed, sep) == t + closed[|closed| - 1] + sep;
      assert (t + closed[|closed| - 1] + sep)[..|closed[0]| + |sep|] == t[..|closed[0]| + |sep|];
    } else {
      assert closed[..0] == [];
    }
  }

  /**
   * The source's quirk: a first word that does not fit beside a space
   * closes the empty line it would have joined, so the wrapped text starts
   * with a newline and the padding.
   */
  lemma LongFirstWordOpensEmptyLine(words: seq<string>, width: nat, padding: nat)
    requires words != [] && |words[0]| + 1 > width
    ensures |WrappedText(words, width, padding)| > padding
    ensures WrappedText(words, width, padding)[..padding + 1] == LineBreak(padding)
  {
    var layout := Greedy(words, width);
    GreedyFirstLineEmpty(words, width);
    ClosedTextStartsWithFirst(layout.closed, LineBreak(padding));
    assert layout.closed[0] + LineBreak(padding) == LineBreak(padding);
  }

  /** What closes a line: a newline, then `padding` spaces. */
  function LineBreak(padding: nat): (sep: string)
    ensures |sep| == padding + 1 && sep[0] == '\n' && AllSpaces(sep)
  {
    var pad := seq(padding, _ => ' ');
    assert forall i :: 0 < i < padding + 1 ==> ("\n" + pad)[i] == pad[i - 1];
    "\n" + pad
  }

  /** The text wrapped so far ends in whitespace, and with the current line it holds the words read so far. */
  predicate WrapInvariant(wrapped: string, line: string, sofar: seq<string>)
  {
    Words(wrapped) + Words(line) == sofar && (wrapped == [] || Utils.IsCSpace(wrapped[|wrapped| - 1]))
  }

  /** Either way the loop goes, the text so far and the current line keep the words read so far, in order. */
  lemma WrapStep(wrapped: string, line: string, sep: string, word: string, sofar: seq<string>)
    requires WrapInvariant(wrapped, line, sofar)
    requires sep != [] && AllSpaces(sep) && word != [] && NoSpaces(word)
    ensures WrapInvariant(wrapped + line + sep, word, sofar + [word])
    ensures WrapInvariant(wrapped, (if line != "" then line + " " else line) + word, sofar + [word])
  {
    CloseLine(wrapped, line, sep);
    WordsOfWord(word);
    GrowLine(line, word);
  }

  /** Closing a line with a newline and padding keeps its words and leaves the text ending in whitespace. */
  lemma CloseLine(wrapped: string, line: string, sep: string)
    requires wrapped == [] || Utils.IsCSpace(wrapped[|wrapped| - 1])
    requires sep != [] && AllSpaces(sep)
    ensures Words(wrapped + line + sep) == Words(wrapped) + Words(line)
    ensures Utils.IsCSpace((wrapped + line + sep)[|wrapped + line + sep| - 1])
  {
    WordsJoin(wrapped, line);
    WordsAfterSpaces(wrapped + line, sep);
  }

  /** Adding a word to a line, after a space unless the line is empty, adds exactly that word. */
  lemma GrowLine(line: string, word: string)
    requires word != [] && NoSpaces(word)
    ensures Words((if line != "" then line + " " else line) + word) == Words(line) + [word]
  {
    if line != "" {
      AppendWord(line, " ", word);
    } else {
      WordsOfWord(word);
      assert line + word == word;
    }
  }
}
