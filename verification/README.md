# MLPerf Client core, modelled in Dafny

This project models the logic at the centre of the MLPerf Client benchmark
and proves properties of that model. The centre is its on-device LLM
driver for Apple MLX, which has two sides:

- the Swift side: Phi-3's chunked prefill, its output-head choice, its
  configuration decoding, and the C entry points `llm_create`,
  `llm_create_kvcache`, `llm_predict` and the free functions;
- the C++ side: the caller's greedy decode loop in `LLMInference::Run`.

Around the driver sit self-contained pieces of the benchmark, each modelled
in its own module:

- UTF-8 validation and sanitising, path normalisation and trimming;
- the GPT-2 byte/code-point bijection and the string helpers of the BPE
  tokenizer, in its C++ and Python forms;
- the execution-provider (EP) name tables, and transitive EP-dependency
  resolution with cycle detection;
- the command-line option parser;
- the stage runner;
- SMC four-character codes;
- the HTTP range-chunk partition of the downloader;
- search-configuration loading;
- the URL cache.

The model takes the source's own form, one module per source file:

- Code that updates objects in place is a `class`. Its methods are proved
  against specification functions: the URL cache, the parser, the runner,
  the dependency walk, `LLMInference`, `Phi3Model`, and the retained
  pointers of the MLX API.
- Code that computes values is made of functions and lemmas.

| file | module |
|---|---|
| wrappers.dfy | `Wrappers`: `Option`, `Result` |
| utils.dfy | `Utils` |
| gpt2_bytes.dfy | `Gpt2Bytes`: the byte/code-point table shared by the two tokenizers |
| token_bpe.dfy | `TokenBpe` |
| tokenizer_utils.dfy | `TokenizerUtils` |
| execution_provider.dfy | `ExecutionProvider` |
| ep_dependencies.dfy | `EpDependencies` |
| command_option.dfy | `CommandOptions` |
| command_parser.dfy | `CommandParsing` |
| runner.dfy | `BenchmarkRunning` |
| smc_reader.dfy | `SmcReader` |
| downloader.dfy | `Downloader` |
| llama_config.dfy | `LlamaConfiguration` |
| url_cache_manager.dfy | `UrlCache` |
| language_model.dfy | `LanguageModels` |
| phi3.dfy | `Phi3` |
| api.dfy | `MlxApi` |
| llm_inference.dfy | `MlxInference` |

Some parts of the source are passed to the model as parameters:

- The forward pass of a model is a parameter `logitsOf` that maps the
  tokens given to the logits rows.
- `llm_predict` keeps state in the key/value cache between calls, so the
  decode loop takes it as a function of every call made so far in the run.
- Callbacks, the SMC call, the hardware concurrency, the vocabulary lookup
  of the BPE encoder and each HTTP attempt's success are parameters as
  well.
- A Swift `fatalError` or `precondition` failure is the `Fatal` case of
  `LanguageModels.Outcome`.
- A C++ throw becomes an `Err` or `None` result.
- Undefined behaviour that callers avoid becomes a `requires`, listed under
  "Left out".

## Model

| member | source | states |
|---|---|---|
| Utils.SequenceLength | src/CIL/utils.cpp:503-515 | A lead byte below 0x80 opens a one-byte sequence. A continuation byte or a byte from 0xF8 up opens none. No sequence is longer than 4 bytes. |
| Utils.CheckUtf8 | src/CIL/utils.cpp:498-529 | `IsUtf8` returns true exactly when the text splits into whole sequences, each opened by a valid lead byte and followed by the continuation bytes it announces. |
| Utils.Utf8Step | src/CIL/utils.cpp:517-527 | A sequence with all its continuation bytes present and valid can be skipped without changing validity. Any other sequence makes the text invalid. |
| Utils.AsciiIsUtf8 | src/CIL/utils.cpp:498-506 | Every all-ASCII text is valid UTF-8, the empty text included. |
| Utils.Utf8Concat | src/CIL/utils.cpp:498-529 | Two valid texts concatenate into a valid text. |
| Utils.SanitizeAsWrittenShorter | src/CIL/utils.cpp:531-568 | As written, the sanitised text is never longer than the input. |
| Utils.SanitizeAsWrittenKeepsValid | src/CIL/utils.cpp:531-568 | As written, valid UTF-8 comes back unchanged. |
| Utils.SanitizeAsWrittenLetsInvalidThrough | src/CIL/utils.cpp:552-566 | As written, the bytes C3 41 come back unchanged, and they are not UTF-8. |
| Utils.SanitizeToUtf8 | src/CIL/utils.cpp:531-568 | The corrected loop computes `Sanitized`. A sequence whose bytes are all valid is copied whole. Otherwise only its lead byte is dropped. |
| Utils.ContinuationsValid | src/CIL/utils.cpp:552-563 | The inner check holds exactly when the announced continuation bytes are present and valid. |
| Utils.SanitizedIsUtf8 | src/CIL/utils.cpp:531-568 | The corrected output is always valid UTF-8 and never longer than the input. |
| Utils.SanitizedKeepsValid | src/CIL/utils.cpp:531-568 | The corrected sanitiser returns valid text unchanged. |
| Utils.SanitizedStep | src/CIL/utils.cpp:536-566 | One step of the corrected scan: either a whole valid sequence is copied, or the front byte is dropped. |
| Utils.ReplaceChar | src/CIL/utils.cpp:489-496 | `StringReplaceChar` keeps the length and maps each `find` to `replace`, leaving every other character as it is. When `find != replace`, no `find` is left. |
| Utils.ReplaceCharInverse | src/CIL/utils.cpp:489-496 | Replacing back restores a text in which the replacement did not already occur. |
| Utils.EscapeAllHasNoControls | src/CIL/utils.cpp:449-475 | After escaping, none of `\a \b \f \n \r \t \v` is left. |
| Utils.NormalizedPathIsClean | src/CIL/utils.cpp:446-479 | A normalised path holds no backslash and none of the seven control characters. |
| Utils.NormalizedPathKeepsPlainPath | src/CIL/utils.cpp:446-479 | A path with no control character and no backslash is returned unchanged. |
| Utils.EscapeAllOfPlain | src/CIL/utils.cpp:449-475 | Escaping leaves a text without control characters unchanged. |
| Utils.NormalizePath | src/CIL/utils.cpp:446-479 | The loop escapes each control character, then turns every backslash into '/'. The result equals the specification `NormalizedPath`. |
| Utils.LowerAscii | src/CIL/utils.cpp:481-487 | `tolower` in the C locale changes only A-Z, each moved by 0x20. |
| Utils.StringToLowerCase | src/CIL/utils.cpp:481-487 | Keeps the length, leaves no upper-case ASCII letter, and leaves every other character untouched. |
| Utils.StringToLowerCaseIdempotent | src/CIL/utils.cpp:481-487 | Lower-casing twice gives the same as once. |
| Utils.TrimLeft | src/CIL/utils.cpp:704 | The leading-whitespace erase: a suffix that starts with a non-space character, with only spaces dropped before it. |
| Utils.TrimRight | src/CIL/utils.cpp:705-706 | The trailing-whitespace erase: a prefix that ends with a non-space character, with only spaces dropped after it. |
| Utils.CleanAndTrimStringIsClean | src/CIL/utils.cpp:701-708 | The result holds no NUL and has no whitespace at either end. |
| Utils.TrimBothIsClean | src/CIL/utils.cpp:704-706 | Trimming both ends leaves no whitespace at either end. |
| Utils.CleanAndTrimStringIsInfix | src/CIL/utils.cpp:701-708 | The result is the NUL-cleaned text with only whitespace removed from its two ends. |
| Utils.TrimBothIsInfix | src/CIL/utils.cpp:704-706 | Trimming removes only whitespace, and only from the ends. |
| Utils.CleanAndTrimStringIdempotent | src/CIL/utils.cpp:701-708 | Cleaning twice gives the same as once. |
| Utils.Digits | src/CIL/utils.cpp:692-694 | A count is written as at least one decimal digit. |
| Utils.DecimalValueOfDigits | src/CIL/utils.cpp:692-694 | The digits of a count read back as the count. |
| Utils.DecimalValueLeadingZeros | src/CIL/utils.cpp:692-697 | The zero fill of `setw`/`setfill('0')` does not change the value. |
| Utils.PadReadsBack | src/CIL/utils.cpp:692-697 | A padded field that fits is exactly `width` digits long and reads back as the number. |
| Utils.ClockFields | src/CIL/utils.cpp:683-689 | The truncating casts split a duration into hours, minutes under 60, seconds under 60 and milliseconds under 1000, which add back up to the whole milliseconds. |
| Utils.ClockTextReadsBack | src/CIL/utils.cpp:691-697 | Under 100 hours the text is HH:MM:SS, with `.mmm` appended exactly when asked for, and each field reads back as its part. |
| Utils.FormatDurationReadsBack | src/CIL/utils.cpp:681-699 | `FormatDuration` under 100 hours has the fixed layout, and its fields read back as the duration's hours, minutes, seconds and milliseconds. |
| Gpt2Bytes.RemappedBelow | deps/gen-ai/tokenizer/token_bpe.cc:32-34 | The count of remapped bytes below `b` is at most `b`. |
| Gpt2Bytes.RemappedBelowBounds | deps/gen-ai/tokenizer/token_bpe.cc:24-40 | Exactly 68 bytes are remapped, so their code points run from 256 to 323. |
| Gpt2Bytes.RemappedBelowLandmarks | deps/gen-ai/tokenizer/token_bpe.cc:32 | The running count at 33, 127, 161, 173, 174 and 256, the edges of the table's ranges. |
| Gpt2Bytes.RemappedBelowMonotone | deps/gen-ai/tokenizer/token_bpe.cc:32-34 | Remapped bytes get strictly increasing code points: `index++` in byte order. |
| Gpt2Bytes.CodePointInjective | deps/gen-ai/tokenizer/token_bpe.cc:24-40 | Two distinct bytes never share a code point. |
| Gpt2Bytes.CodePointRange | deps/gen-ai/tokenizer/token_bpe.cc:32-37 | A printable byte stands for itself. A remapped byte gets a code point in 256..323. |
| Gpt2Bytes.CodePointsDistinct | deps/gen-ai/tokenizer/token_bpe.cc:24-40 | The 256 code points are pairwise distinct. |
| Gpt2Bytes.CodePointsBelowSize | deps/gen-ai/tokenizer/token_bpe.cc:24-40 | The bytes below `n` have `n` distinct code points. |
| Gpt2Bytes.DecoderBelowInverts | deps/gen-ai/tokenizer/token_bpe.cc:24-40 | After the first `n` bytes, each of them decodes from its own code point, every value decodes back to its key, and the keys are exactly those code points. |
| Gpt2Bytes.DecoderInvertsCodePoint | deps/gen-ai/tokenizer/token_bpe.cc:24-40 | The decoder inverts the encoder. It has 256 entries, maps each byte's code point back to the byte, and every key is such a code point. |
| TokenBpe.SupportedModelTypes | deps/gen-ai/tokenizer/token_bpe.cc:18-22 | Among the supported model names, exactly GPT2, Roberta and CodeGen get the GPT-2 model type. |
| TokenBpe.BpeTokenizer.ModelType | deps/gen-ai/tokenizer/token_bpe.cc:48-61 | Llama and Gemma give SPM, CLIP gives CLIP, Llama3 gives TKTM, and every other name gives GPT2. |
| TokenBpe.ApplyModelPolicy | deps/gen-ai/tokenizer/token_bpe.cc:84-103 | Llama adds a dummy prefix. GPT2 leaves bos and eos as configured. Every other type sets bos, and sets eos only for CLIP. |
| TokenBpe.BpeTokenizer.CreateByteEncoder | deps/gen-ai/tokenizer/token_bpe.cc:24-40 | The loop fills the byte decoder with the whole reference table `Gpt2Bytes.Decoder`. The encoder maps each byte to the vocabulary id of its code point. |
| TokenBpe.BpeTokenizer.EncoderBelowEncodes | deps/gen-ai/tokenizer/token_bpe.cc:24-40 | After the first `n` bytes, each of them is encoded as the vocabulary id of its code point, and no other byte has an entry. |
| TokenBpe.BpeTokenizer.LoadPredefinedTokens | deps/gen-ai/tokenizer/token_bpe.cc:63-103 | It looks up the four special ids and emplaces them without overwriting. It adds them to the special-id set and sets the switches by `ApplyModelPolicy`. |
| TokenBpe.BpeTokenizer.RegisterSpecialTokens | deps/gen-ai/tokenizer/token_bpe.cc:69-82 | The ids, the added tokens and the special-id set, as `LoadPredefinedTokens` states them. |
| TokenBpe.BpeTokenizer.SetSpecialTokenFlags | deps/gen-ai/tokenizer/token_bpe.cc:84-103 | The switches equal `ApplyModelPolicy` of the model name and type. |
| TokenBpe.ToLower | deps/gen-ai/tokenizer/token_bpe.cc:220-227 | Only A-Z and U+00C0..U+00DF change, each by +0x20, and no such upper-case character is left. |
| TokenBpe.ToLowerIdempotent | deps/gen-ai/tokenizer/token_bpe.cc:220-227 | Lower-casing twice gives the same as once. |
| TokenBpe.RemoveConsecutiveSpaces | deps/gen-ai/tokenizer/token_bpe.cc:233-251 | The accumulator loop computes `Collapse`. |
| TokenBpe.CollapseProperties | deps/gen-ai/tokenizer/token_bpe.cc:233-251 | No two white-space characters end up adjacent, and the non-space characters are kept in order. The output is empty only for empty input and ends in a space exactly when the input does. |
| Utils.Find | deps/gen-ai/tokenizer/token_bpe.cc:410 | `std::string::find`, shared by the tokenizer's replace-all and the downloader's URL split: the first occurrence at or after the start position, with no occurrence before it; `None` exactly when there is no occurrence from the start on. |
| TokenBpe.ReplaceAll | deps/gen-ai/tokenizer/token_bpe.cc:407-421 | The loop computes `ReplaceFrom`, a left-to-right replacement of non-overlapping occurrences. |
| TokenBpe.ReplaceFromStep | deps/gen-ai/tokenizer/token_bpe.cc:409-418 | One pass copies the text before the next occurrence, then the replacement, then resumes after the occurrence. With no occurrence it copies the rest. |
| TokenBpe.ReplaceWithoutOccurrence | deps/gen-ai/tokenizer/token_bpe.cc:410-413 | A text in which `search` does not occur is returned unchanged. |
| TokenBpe.TktmEncode | deps/gen-ai/tokenizer/token_bpe.cc:643-727 | Empty input gives no ids. Otherwise the output is bos (when set), then the segments' ids cut at `max_length`, then eos (only when set and there is still room). |
| TokenBpe.EmitSegments | deps/gen-ai/tokenizer/token_bpe.cc:671-712 | After the prefix, the segments' ids are pushed in order. Pushing stops once `max_length` ids are out, so the result is the prefix plus the ids that fit. |
| TokenBpe.EmitSegment | deps/gen-ai/tokenizer/token_bpe.cc:671-712 | One segment adds its ids while the output is shorter than `max_length`. |
| TokenBpe.EmitPiece | deps/gen-ai/tokenizer/token_bpe.cc:702-711 | One BPE piece adds its ids while the output is shorter than `max_length`. |
| TokenBpe.FlattenSaturated | deps/gen-ai/tokenizer/token_bpe.cc:671-674 | Once `max_length` is reached, later segments add nothing, because the loop breaks. |
| TokenizerUtils.LimitsRanges | tools/mmlu/tokenizer_utils.py:227-240 | The even-numbered ranges between the limits hold exactly the remapped bytes, and the odd-numbered ranges the printable bytes. |
| TokenizerUtils.DetokenizerClass.MakeByteDecoder | tools/mmlu/tokenizer_utils.py:225-250 | A decoder already built is kept. Otherwise the nested loops build exactly `Gpt2Bytes.Decoder`, the same 256-entry bijection as the C++ tokenizer. |
| TokenizerUtils.BuildDecoder | tools/mmlu/tokenizer_utils.py:231-249 | The walk over the limits yields exactly the reference decoder `Gpt2Bytes.Decoder`. |
| TokenizerUtils.FillRange | tools/mmlu/tokenizer_utils.py:243-248 | One range adds the reference entries of its bytes, remapped to `256 + n` or kept as themselves. The remap counter keeps counting. |
| TokenizerUtils.MaybeTrimSpace | tools/mmlu/tokenizer_utils.py:192-201 | Either the text is kept or exactly its leading space is dropped. The space is dropped exactly when the text starts with a space and either nothing has been emitted yet or cleaning is on and punctuation follows. |
| TokenizerUtils.MatchIsEquality | tools/mmlu/tokenizer_utils.py:305-313 | `_match` holds exactly when the two JSON values are equal. NaN is not represented. |
| TokenizerUtils.MatchSound | tools/mmlu/tokenizer_utils.py:305-313 | Values that match are equal: a type mismatch is false, and dicts and lists must agree in size and element by element. |
| TokenizerUtils.MatchReflexive | tools/mmlu/tokenizer_utils.py:305-313 | Every value the model represents matches itself. NaN is not represented. |
| TokenizerUtils.NoBosOrEos | tools/mmlu/tokenizer_utils.py:375-377 | Fails (the `IndexError`) exactly on `[]` and `[bos]`. Otherwise at most two elements are removed. |
| TokenizerUtils.NoBosOrEosStripsFrame | tools/mmlu/tokenizer_utils.py:375-377 | Framing a body with bos and eos and stripping the frame gives the body back. |
| TokenizerUtils.NoBosOrEosKeepsUnframed | tools/mmlu/tokenizer_utils.py:375-377 | A list that neither starts with bos nor ends with eos is kept as it is. |
| TokenizerUtils.NoBosOrEosIsInfix | tools/mmlu/tokenizer_utils.py:375-377 | What is returned is a contiguous piece of the input: one leading bos and one trailing eos are dropped, and nothing else. |
| ExecutionProvider.NameToEPMatchesTable | src/CIL/execution_provider.h:45-61 | The if-chain accepts exactly the names of the table, each giving its EP. Any other name gives Unknown. |
| ExecutionProvider.NameToEPInvertsEPToString | src/CIL/execution_provider.h:20-61 | `NameToEP(EPToString(e)) == e` for every EP, Unknown included. |
| ExecutionProvider.EPToStringInjective | src/CIL/execution_provider.h:20-41 | Distinct EPs have distinct canonical names. |
| ExecutionProvider.BareNamesAccepted | src/CIL/execution_provider.h:45-59 | Each EP's name without the "IHV " prefix is accepted too. |
| ExecutionProvider.CanonicalNameIsPrefixedBareName | src/CIL/execution_provider.h:20-41 | Apart from NativeQNN, the RyzenAI EP and Unknown, a canonical name is "IHV " followed by the bare name. |
| ExecutionProvider.IsValidEPName | src/CIL/execution_provider.h:100-104 | A name is valid exactly when `NameToEP` knows it, that is, when it does not give Unknown. |
| ExecutionProvider.IsEPFromGGML | src/CIL/execution_provider.h:85-94 | True exactly for Metal, Vulkan and CUDA. |
| ExecutionProvider.GetEPDependencySubdirPath | src/CIL/execution_provider.h:106-129 | The directory is empty exactly for Unknown. |
| ExecutionProvider.GgmlSharesOneDirectory | src/CIL/execution_provider.h:85-129 | The GGML EPs are exactly those under "IHV/GGML". Two distinct EPs share a directory only when both are GGML EPs. |
| ExecutionProvider.LongNameRange | src/CIL/execution_provider.h:63-77 | A name is either left alone or turned into one of the long names. |
| ExecutionProvider.DisplayNameIsFixedPoint | src/CIL/execution_provider.h:79-83 | A display name is its own display name. |
| ExecutionProvider.DisplayNameAgreesWithLongName | src/CIL/execution_provider.h:63-83 | Where the display name changes a name, the long name changes it in the same way. |
| EpDependencies.SamePaths | src/CIL/ep_dependencies_config.cpp:86-99 | Dependency paths depend only on the dependency sets, so adding files keeps them. |
| EpDependencies.DependencyFinishesEarlier | src/CIL/ep_dependencies_config.cpp:84-104 | An EP finishes its walk only after every dependency has finished. |
| EpDependencies.FinishedHasNoCycle | src/CIL/ep_dependencies_config.cpp:72-76 | No dependency path from an EP that finished leads back to it: a successful walk never passes through a cycle. |
| EpDependencies.Collection.Collect | src/CIL/ep_dependencies_config.cpp:65-107 | An EP on the recursion stack fails (the cycle). A visited EP succeeds without adding anything. An EP not in the configuration fails. On success the EP has finished after all its dependencies and the stack is restored. |
| EpDependencies.Loaded | src/CIL/ep_dependencies_config.cpp:41-50 | The loaded map holds the previous EP names plus every parsed name. |
| EpDependencies.WalkResolves | src/CIL/ep_dependencies_config.cpp:54-61 | After a successful walk, the EP's files include those of every EP reachable from it, and every reachable EP is configured and differs from the start. |
| EpDependencies.WalkStep | src/CIL/ep_dependencies_config.cpp:52-63 | Adding one EP's gathered files keeps the earlier EPs resolved and resolves this one. |
| EpDependencies.ResolvedStable | src/CIL/ep_dependencies_config.cpp:60 | `AddExtraFiles` only adds files, so a resolved EP stays resolved. |
| EpDependencies.ResolvedDependenciesExist | src/CIL/ep_dependencies_config.cpp:94-98 | A resolved EP has every dependency configured, and none of them is itself. |
| EpDependencies.DependenciesConfig.FromJson | src/CIL/ep_dependencies_config.cpp:39-64 | The dependency sets are kept and the files only grow. When `dependencies_resolved_` stays true, every EP carries the files of all its transitive dependencies. |
| EpDependencies.DependenciesConfig.LoadEntries | src/CIL/ep_dependencies_config.cpp:41-50 | The first loop stores each parsed entry under its EP name. |
| EpDependencies.DependenciesConfig.ResolveAll | src/CIL/ep_dependencies_config.cpp:52-63 | The second loop walks every EP and stops at the first failure. Success resolves every EP. |
| CommandOptions.CommandOption.SetDefaultValue | src/CIL/command_option.cpp:29-30 | Sets the default, which is then reported, and changes nothing else. |
| CommandOptions.CommandOption.SetValidValues | src/CIL/command_option.cpp:39-42 | Sets the valid values and changes nothing else. |
| CommandOptions.CommandOption.SetFlag | src/CIL/command_option.cpp:48 | Sets the flag bit and changes nothing else. |
| CommandOptions.CommandOption.SetCustomErrorMessage | src/CIL/command_option.cpp:64-66 | Sets the message and changes nothing else. |
| CommandOptions.CommandOption.SetOptionTypeHint | src/CIL/command_option.cpp:72-74 | Sets the hint and changes nothing else. |
| CommandOptions.CommandOption.GetDefaultValue | src/CIL/command_option.cpp:32-37 | The default, or "" when none was set. |
| CommandOptions.NewOption | src/CIL/command_option.cpp:3-13 | A new option has no default, no valid values, no flag and no hint. |
| CommandOptions.NewOptionAcceptsNonEmpty | src/CIL/command_option.cpp:52-62 | A new option accepts exactly the non-empty values. |
| CommandOptions.CommandOption.ValidateValue | src/CIL/command_option.cpp:52-62 | An empty value is refused unless the option is a flag. With no valid-value list, any other value is accepted. Otherwise the value is accepted exactly when some entry of the list equals it. |
| CommandOptions.ValidateValueCases | src/CIL/command_option.cpp:52-62 | An empty value is invalid unless the option is a flag. With no valid-value list, every other value is accepted. With a list, only its members are accepted. |
| CommandOptions.BooleanOptionValues | src/CIL/command_option.cpp:52-62 | A boolean option accepts exactly "true" and "false". |
| CommandOptions.JoinTrailingIsJoin | src/CIL/command_option.cpp:84-89 | Removing the last ", " from the trailing form gives the values separated by ", ". |
| CommandOptions.TypeHintDisplayCases | src/CIL/command_option.cpp:80-96 | A hint shows as `<hint>`. With no hint, the valid values joined by ", " are shown in brackets. With neither, the display is empty. |
| CommandOptions.GetOptionTypeHintDisplay | src/CIL/command_option.cpp:80-96 | The loop that appends and trims computes `TypeHintDisplay`. |
| CommandParsing.Lookup | src/CIL/command_parser.cpp:46-64 | `--name` resolves exactly when `name` is registered. A two-character `-c` goes through the short map. Anything else is unknown. |
| CommandParsing.ScanKeepsValuesValid | src/CIL/command_parser.cpp:46-78 | Only registered options with valid values get recorded, and the unknown list only grows. |
| CommandParsing.ScanWithoutOptions | src/CIL/command_parser.cpp:46-64 | With nothing registered, every argument goes to the unknown list and parsing succeeds. |
| CommandParsing.ScanStopsOnInvalidValue | src/CIL/command_parser.cpp:70-76 | An invalid value makes `Process` fail at once. |
| CommandParsing.ScanStep | src/CIL/command_parser.cpp:46-79 | One argument of the loop: it is unknown, or its value is taken only when the next argument does not start with '-'. |
| CommandParsing.CommandParser.constructor | src/CIL/command_parser.cpp:13-17 | A new parser has no options, no values, no unknown arguments and an empty display order. |
| CommandParsing.CommandParser.AddOption | src/CIL/command_parser.cpp:19-24 | Registers the option under its long name, and under its short name when it has one. |
| CommandParsing.CommandParser.AddFlag | src/CIL/command_parser.cpp:26-29 | Registers the option as a flag. |
| CommandParsing.CommandParser.AddBooleanOption | src/CIL/command_parser.cpp:31-34 | Registers the option with the valid values "true" and "false". |
| CommandParsing.CommandParser.AddEnumOption | src/CIL/command_parser.cpp:36-40 | Registers the option with the given valid values. |
| CommandParsing.CommandParser.Process | src/CIL/command_parser.cpp:42-95 | The state equals `Scan` from argument 1. The result is true exactly when the scan succeeds and every required option has a value. On success, an unset display order lists every option. |
| CommandParsing.CommandParser.ScanArguments | src/CIL/command_parser.cpp:44-80 | The argument loop computes `Scan`. |
| CommandParsing.CommandParser.CheckRequired | src/CIL/command_parser.cpp:82-89 | Succeeds exactly when every required option has a value. |
| CommandParsing.CommandParser.SetDisplayOptionOrder | src/CIL/command_parser.cpp:225-228 | Stores the order. |
| CommandParsing.CommandParser.ConfigureDisplayOptionOrder | src/CIL/command_parser.cpp:230-236 | With no order set, lists every registered option once. Otherwise keeps the order. |
| CommandParsing.CommandParser.GetOptionValue | src/CIL/command_parser.cpp:109-114 | The value given, else the registered default. `None` is the `at()` throw for an unregistered name. |
| CommandParsing.CommandParser.GetOption | src/CIL/command_parser.cpp:116-120 | Empty exactly when the option was not passed, otherwise the value given. |
| CommandParsing.CommandParser.AccessorsAgree | src/CIL/command_parser.cpp:105-120 | A passed option reads the same through both accessors. A registered option that was not passed falls back to its default. |
| CommandParsing.WordsJoin | src/CIL/command_parser.cpp:126-145 | Text that ends in whitespace ends its last word, so the words of a concatenation are the words of each part. |
| CommandParsing.WordsAfterSpaces | src/CIL/command_parser.cpp:126-145 | Trailing whitespace adds no word. |
| CommandParsing.WordsOfWord | src/CIL/command_parser.cpp:128-131 | A single word read from the stream is itself. |
| CommandParsing.WordsAreWords | src/CIL/command_parser.cpp:128-131 | Each word `>>` extracts is non-empty and holds no whitespace. |
| CommandParsing.AppendWord | src/CIL/command_parser.cpp:132-141 | Appending a separator and a word adds exactly that word. |
| CommandParsing.WrapText | src/CIL/command_parser.cpp:126-145 | The loop produces `WrappedText`: the greedy layout `Greedy` of the input's words, with closed lines each ended by a newline and `padding` spaces, then the open line. The wrapped text has the same words as the input, in the same order. |
| CommandParsing.LaidOutStep | src/CIL/command_parser.cpp:133-141 | Each pass of the loop, closing the line or growing it, follows `Greedy` one word further. |
| CommandParsing.ClosedTextSnoc | src/CIL/command_parser.cpp:134 | Closing a line appends the line and its line break to the text. |
| CommandParsing.GreedyLinesFit | src/CIL/command_parser.cpp:133-141 | Every line of the layout is at most `width` long unless it holds no space, so a line of two or more words always fits. |
| CommandParsing.GreedyFirstLineEmpty | src/CIL/command_parser.cpp:133-135 | When the first word plus one exceeds `width`, the first closed line is the empty line. |
| CommandParsing.ClosedTextStartsWithFirst | src/CIL/command_parser.cpp:134 | The closed text starts with its first line and that line's break. |
| CommandParsing.LongFirstWordOpensEmptyLine | src/CIL/command_parser.cpp:133-135 | When the first word plus one exceeds `width`, the wrapped text starts with a newline and the padding. |
| BenchmarkRunning.BuiltInStages | src/CIL/benchmark/runner.cpp:39-60 | Download and Preparation always get a stage object. DataVerification and Benchmark get one exactly when not enumerating. |
| BenchmarkRunning.BenchmarkRunner.Create | src/CIL/benchmark/runner.cpp:12-66 | Fails exactly when a collaborator is missing, naming the first missing one in the order the constructor checks. Otherwise the order is Download, Preparation, DataVerification, Benchmark, and the stage objects are the built-in ones. Every stage is entered and no failure is tolerated. Enumeration sets the download behaviour to "deps_only_enumeration"; otherwise the configured one is kept. |
| BenchmarkRunning.BenchmarkRunner.constructor | src/CIL/benchmark/runner.cpp:35-65 | Past the null checks: enumeration sets the download behaviour to "deps_only_enumeration", the built-in stages are created, the order is the default one, and the default callbacks enter every stage and tolerate no failure. |
| BenchmarkRunning.ScenarioEndInRange | src/CIL/benchmark/runner.cpp:139-150 | A scenario that stops does so at a real position of the stage order. |
| BenchmarkRunning.RunSucceedsIff | src/CIL/benchmark/runner.cpp:126-153 | Without null stages, `Run` is true exactly when every scenario passes all its stages. |
| BenchmarkRunning.DefaultCallbacksNeedEveryStage | src/CIL/benchmark/runner.cpp:64-65 | With the default callbacks, a scenario completes exactly when every stage runs successfully. |
| BenchmarkRunning.ToleratedFailuresNeverStop | src/CIL/benchmark/runner.cpp:141-149 | A failure callback that tolerates everything lets every entered stage through. |
| Utils.FirstIndex | src/CIL/benchmark/runner.cpp:169 | `std::find` gives the first occurrence. |
| BenchmarkRunning.InsertAfterPlacesStage | src/CIL/benchmark/runner.cpp:165-175 | The new stage sits directly after `last_stage`, or at the end when that is empty, and every other stage keeps its relative order. |
| BenchmarkRunning.BenchmarkRunner.SetOnFailedStageCallback | src/CIL/benchmark/runner.cpp:116-119 | Stores the callback. |
| BenchmarkRunning.BenchmarkRunner.SetOnEnterStageCallback | src/CIL/benchmark/runner.cpp:121-124 | Stores the callback. |
| BenchmarkRunning.BenchmarkRunner.AddCustomStage | src/CIL/benchmark/runner.cpp:165-175 | Registers the stage and places it by `InsertAfter`. |
| BenchmarkRunning.BenchmarkRunner.Run | src/CIL/benchmark/runner.cpp:126-153 | The nested loops compute `RunFrom`. |
| BenchmarkRunning.BenchmarkRunner.RunScenario | src/CIL/benchmark/runner.cpp:139-150 | The inner loop computes `ScenarioFrom`. It stops at a refused entry, or at a failure the callback does not tolerate. |
| SmcReader.SignExtend | src/CIL/smc_reader.cpp:11-14 | A signed `char` widened to 32 bits: bytes from 0x80 up fill the top bytes with ones. |
| SmcReader.FourCharCodeToString | src/CIL/smc_reader.cpp:17-21 | The code unpacks into four bytes. |
| SmcReader.FourCharCodeIsBigEndian | src/CIL/smc_reader.cpp:12-14 | With unsigned bytes, byte `k` of the key lands in byte `3 - k` of the word. |
| SmcReader.KeyRoundTrip | src/CIL/smc_reader.cpp:10-21 | With unsigned bytes, every four-byte key survives the round trip through its code. |
| SmcReader.CodeRoundTrip | src/CIL/smc_reader.cpp:10-21 | Every code survives the round trip through its four bytes. |
| SmcReader.AsWrittenAgreesOnAscii | src/CIL/smc_reader.cpp:10-15 | As written, the code agrees with the unsigned packing on ASCII keys. |
| SmcReader.AsWrittenBreaksRoundTrip | src/CIL/smc_reader.cpp:10-15 | As written, "A\x80AA" packs to 0xFF804141, which does not unpack to the key. |
| SmcReader.BigEndian | src/CIL/smc_reader.cpp:23-29 | The big-endian value of `n` bytes is below 256^n. |
| SmcReader.BigEndianStep | src/CIL/smc_reader.cpp:25-27 | Each pass adds one byte, shifted by its place from the end. |
| SmcReader.BytesToUInt32 | src/CIL/smc_reader.cpp:23-29 | The accumulator loop gives the big-endian value of the first `size` bytes, which fits in 32 bits. |
| SmcReader.DataTypeFromString | src/CIL/smc_reader.cpp:33-34 | The type code is packed as written, with signed characters. A four-byte name of plain ASCII unpacks back to the name, and the size is stored. |
| SmcReader.CachedKeyInfoIsStable | src/CIL/smc_reader.cpp:65-82 | After a successful lookup, asking again returns the same value without calling the SMC. |
| SmcReader.FailedKeyInfoIsNotCached | src/CIL/smc_reader.cpp:72-80 | A throwing SMC call leaves the cache unchanged. A success adds exactly the key. |
| SmcReader.SmcKeyReader.GetKeyInfo | src/CIL/smc_reader.cpp:65-82 | Returns the cached value on a hit. Only on a miss does it ask the SMC, with the key packed as written, as `KeyInfoStep` states. |
| Downloader.NumThreads | src/CIL/downloader.cpp:262-265 | The hardware concurrency clamped to 1..4. |
| Downloader.SingleStreamCases | src/CIL/downloader.cpp:140 | A file is split exactly when there are several threads and it holds at least 1 MiB. |
| Downloader.ChunkRanges | src/CIL/downloader.cpp:161-166 | One range per thread. The ranges are contiguous, do not overlap, and cover 0..size-1. Each holds `size / n` bytes, and the last also takes the remainder. |
| Downloader.SlicesAt | src/CIL/downloader.cpp:161-170 | Part file `i` holds the bytes of range `i`. |
| Downloader.RangesInBounds | src/CIL/downloader.cpp:161-166 | Every range of a tiling lies inside the file. |
| Downloader.TilesTail | src/CIL/downloader.cpp:161-166 | The ranges after the first tile the rest of the file. |
| Downloader.SlicesTile | src/CIL/downloader.cpp:200-227 | The parts of a tiling, merged in order, are the file. |
| Downloader.ChunksRebuildFile | src/CIL/downloader.cpp:159-227 | When every chunk was fetched correctly, merging the parts gives back the file. |
| Downloader.MergeParts | src/CIL/downloader.cpp:200-227 | The merge succeeds exactly when every part file is there, and yields their concatenation. |
| Downloader.FirstSuccess | src/CIL/downloader.cpp:50-96 | The first attempt of the retry loop that succeeds, if any. |
| Downloader.ChunkAsWrittenHidesFailure | src/CIL/downloader.cpp:48-100 | As written, five failing attempts still leave `has_failed` down. |
| Downloader.ChunkAsWrittenNeverFails | src/CIL/downloader.cpp:48-100 | As written, the loop never raises the flag for a positive retry count. |
| Downloader.ChunkOutcomeOf | src/CIL/downloader.cpp:48-100 | Corrected: the flag is raised exactly when it was already up or every attempt failed. A chunk left unflagged ended with a successful attempt. |
| Downloader.DownloadChunk | src/CIL/downloader.cpp:48-100 | The corrected retry loop computes `ChunkOutcomeOf`. |
| Downloader.HostStart | src/CIL/downloader.cpp:358-362 | The host starts after the first "://", or at 0. |
| Downloader.ParseFileUrl | src/CIL/downloader.cpp:355-373 | Always returns true. The outputs are the split `SplitHost` gives, or the inputs unchanged when no '/' follows the host start. With a split, the URL is its scheme, the host (free of '/'), a '/' and the path. |
| Downloader.RouteUrl | src/CIL/downloader.cpp:234-254 | A `file://` URL is copied from its path. Any other URL that is not http(s) is copied as is. An http(s) URL is fetched from the host and path that `SplitHost` gives, both empty when no '/' follows the host. A non-empty path without a leading '/' gets one. |
| LlamaConfiguration.DefaultsAreConsistent | src/CIL/common/llm/llama_config.cpp:8 | The defaults are one greedy beam, with `max_total_length` above `max_length`. |
| LlamaConfiguration.LlamaConfig.constructor | src/CIL/common/llm/llama_config.cpp:8 | A new configuration holds batch size 1 and the default model and search settings. |
| LlamaConfiguration.LoadModel | src/CIL/common/llm/llama_config.cpp:10-31 | Every token id, length and size is the value in the model section. Input and output names are added or replaced, and the others are kept. |
| LlamaConfiguration.LoadSearch | src/CIL/common/llm/llama_config.cpp:33-58 | Fails exactly for an unknown method. Greedy, top_k and top_p force one beam, and beam_search reads `num_beams`. `top_k` and `top_p` are read only by their methods. The temperature, stop-on-eos and both lengths are recorded. |
| LlamaConfiguration.MethodNames | src/CIL/common/llm/llama_config.cpp:36-54 | The accepted method names are exactly greedy, top_k, top_p and beam_search. |
| LlamaConfiguration.LlamaConfig.LoadFromJson | src/CIL/common/llm/llama_config.cpp:10-67 | Succeeds exactly when the method is known and `max_total_length > max_length`. Fields are assigned before the length check, as in the source. |
| LlamaConfiguration.LoadedSearchIsUsable | src/CIL/common/llm/llama_config.cpp:35-66 | A successful load leaves room beyond `max_length`, and exactly one beam for every method except beam_search. beam_search copies `num_beams` unchecked, so there is at least one beam exactly when the method is not beam_search or `num_beams` is at least one. |
| UrlCache.WithoutPath | src/CIL/url_cache_manager.cpp:78-86 | The erase loop removes exactly the entries with that file path. |
| UrlCache.AddKeepsPathsUnique | src/CIL/url_cache_manager.cpp:74-93 | Adding keeps every file path in at most one entry. |
| UrlCache.AddKeepsOtherPaths | src/CIL/url_cache_manager.cpp:78-92 | Entries with other paths are kept, apart from the one for the URL itself. |
| UrlCache.AddedFileValidates | src/CIL/url_cache_manager.cpp:51-92 | A file added with a non-empty hash validates against that hash, with or without the version check. |
| UrlCache.UnversionedFailsVersionCheck | src/CIL/url_cache_manager.cpp:60-69 | An entry stored without a version fails the version check. |
| UrlCache.UrlCacheManager.constructor | src/CIL/url_cache_manager.cpp:18-26 | The cache starts as the map loaded from the cache file, which is a parameter. |
| UrlCache.UrlCacheManager.IsUrlInCache | src/CIL/url_cache_manager.cpp:47-49 | A URL that is not cached never validates, whatever the hash and version check. A cached URL with a stored hash validates against that hash when the version is not checked. |
| UrlCache.AddedUrlInCache | src/CIL/url_cache_manager.cpp:74-93 | After an add, the URL is cached exactly when its file could be hashed, or when it was already cached under another path. Any other URL saved to the same path is no longer cached. |
| UrlCache.UrlCacheManager.GetFilePathFromCache | src/CIL/url_cache_manager.cpp:95-98 | The stored path, or "" for an unknown URL. |
| UrlCache.UrlCacheManager.ValidateFile | src/CIL/url_cache_manager.cpp:51-72 | False for an unknown URL, an empty hash or a mismatch. With version checking, the stored version must also equal the app version. |
| UrlCache.UrlCacheManager.AddUrlToCache | src/CIL/url_cache_manager.cpp:74-93 | The erase-while-iterating loop, then the insert, give `AddedEntry`. File paths stay unique. Afterwards `IsUrlInCache(url)` holds exactly when the hash is non-empty or the URL was cached under another path. |
| UrlCache.UrlCacheManager.ClearCache | src/CIL/url_cache_manager.cpp:100-116 | Empties the cache and returns the paths of the files to remove. |
| LanguageModels.NewCache | src/CIL/IHV/MLX/src/swift/Sources/LlamaMLX/LanguageModel.swift:139-145 | One cache per entry of `kvHeads`, in order. Each cache is new and none is shared. |
| LanguageModels.DefaultCallAsFunction | src/CIL/IHV/MLX/src/swift/Sources/LlamaMLX/LanguageModel.swift:120-125 | The default forward pass is always fatal. |
| LanguageModels.Decode | src/CIL/IHV/MLX/src/swift/Sources/LlamaMLX/LanguageModel.swift:152-176 | A required key decodes exactly when it is present and of the right type. A missing key gives `keyNotFound`. |
| LanguageModels.DecodeIfPresent | src/CIL/IHV/MLX/src/swift/Sources/LlamaMLX/LanguageModel.swift:170 | An optional key that is absent or null gives nil. A value of the wrong type is an error. |
| LanguageModels.DecodeQuantization | src/CIL/IHV/MLX/src/swift/Sources/LlamaMLX/LanguageModel.swift:155-168 | Decodes exactly when "group_size" and "bits" are both integers. |
| LanguageModels.DecodeBaseConfiguration | src/CIL/IHV/MLX/src/swift/Sources/LlamaMLX/LanguageModel.swift:152-176 | "model_type" is required. The quantization is nil exactly when its key is absent or null. |
| LanguageModels.BaseConfigurationRoundTrip | src/CIL/IHV/MLX/src/swift/Sources/LlamaMLX/LanguageModel.swift:152-176 | Every base configuration decodes back from its encoding. |
| Phi3.AsFloats | src/CIL/IHV/MLX/src/swift/Sources/LlamaMLX/Phi3.swift:296-312 | A JSON array decodes as `[Float]` exactly when every item is a number. |
| Phi3.DecodeSizes | src/CIL/IHV/MLX/src/swift/Sources/LlamaMLX/Phi3.swift:352-363 | The seven leading keys decode exactly when each is an integral number (the epsilon any number). Each field is the number under its key, and a missing "hidden_size" is reported as not found. |
| Phi3.DecodeRopeSettings | src/CIL/IHV/MLX/src/swift/Sources/LlamaMLX/Phi3.swift:364-374 | The four rope keys decode exactly when each is absent, null or of its type. A setting is `None` exactly when its key is absent, and otherwise is the value under the key. |
| Phi3.DecodePositions | src/CIL/IHV/MLX/src/swift/Sources/LlamaMLX/Phi3.swift:375-380 | The two position limits are required integral numbers and are read from their keys. The tying flag is `None` exactly when absent, and otherwise is the value under its key. |
| Phi3.DecodePhi3Configuration | src/CIL/IHV/MLX/src/swift/Sources/LlamaMLX/Phi3.swift:347-381 | Decodes exactly when `Phi3Decodes` holds: an object whose three runs of keys each decode. The defaults are rope theta 10000, no traditional rope, a partial rotary factor of 1.0 and no tied embeddings. The rope scaling is nil exactly when absent. |
| Phi3.DecodedConfigurationCarriesKeys | src/CIL/IHV/MLX/src/swift/Sources/LlamaMLX/Phi3.swift:352-380 | Every required field of a decoded configuration is the number under its key, and every optional field whose key is given is the value under that key. |
| Phi3.RequiredKeysSuffice | src/CIL/IHV/MLX/src/swift/Sources/LlamaMLX/Phi3.swift:347-381 | A configuration with every required size as a number, and none of the optional keys, decodes with every default in place. |
| Phi3.TruncateToInt | src/CIL/IHV/MLX/src/swift/Sources/LlamaMLX/Phi3.swift:103 | `Int(x)` rounds toward zero. |
| Phi3.AttentionShapeOf | src/CIL/IHV/MLX/src/swift/Sources/LlamaMLX/Phi3.swift:95-107 | `headDim` is the floor of hidden size over heads. The QKV width is (heads + 2·kvHeads)·headDim, with split points at heads·headDim and kvHeads·headDim after that. |
| Phi3.HeadFor | src/CIL/IHV/MLX/src/swift/Sources/LlamaMLX/Phi3.swift:269-279 | Tied embeddings use the embedding table, otherwise `lmHead` is used. With neither, the call is fatal. |
| Phi3.RemainderFitsWindow | src/CIL/IHV/MLX/src/swift/Sources/LlamaMLX/Phi3.swift:284-292 | The remainder fits the window, and the loop sends chunks exactly when the input is longer than the window. A short input is returned unchanged, and the remainder is empty only for empty input. |
| Phi3.ChunksAreWindows | src/CIL/IHV/MLX/src/swift/Sources/LlamaMLX/Phi3.swift:285-286 | Every chunk is one full window. |
| Phi3.ChunksRebuildInput | src/CIL/IHV/MLX/src/swift/Sources/LlamaMLX/Phi3.swift:284-292 | The chunks followed by the remainder are the input. |
| Phi3.ChunkCount | src/CIL/IHV/MLX/src/swift/Sources/LlamaMLX/Phi3.swift:284-290 | The input length is the number of chunks times the window, plus the remainder. |
| Phi3.ChunkIsNextWindow | src/CIL/IHV/MLX/src/swift/Sources/LlamaMLX/Phi3.swift:285-290 | Chunk `i` is tokens `i·w` up to `(i+1)·w`. |
| Phi3.DefaultWindowLeavesShortPrompt | src/CIL/IHV/MLX/src/swift/Sources/LlamaMLX/Phi3.swift:282-292 | The window defaults to 512, and a prompt of at most 512 tokens is neither split nor sent. |
| Phi3.Phi3Model.constructor | src/CIL/IHV/MLX/src/swift/Sources/LlamaMLX/Phi3.swift:258-267 | One cache size per layer, and an `lmHead` exactly when the embeddings are not tied. The initializer traps on an empty vocabulary. |
| Phi3.Phi3Model.CallAsFunction | src/CIL/IHV/MLX/src/swift/Sources/LlamaMLX/Phi3.swift:269-279 | Records the forward input, and the head is `HeadFor`. |
| Phi3.Phi3Model.Prepare | src/CIL/IHV/MLX/src/swift/Sources/LlamaMLX/Phi3.swift:281-293 | On a model the initializer built, the while loop returns `Remainder` and sends the model exactly the `Chunks`, in order. No forward call reaches the fatal head choice. |
| Phi3.ConstructedModelHasHead | src/CIL/IHV/MLX/src/swift/Sources/LlamaMLX/Phi3.swift:258-279 | A model from the initializer never reaches the fatal branch, and its projection maps the hidden size to the vocabulary. |
| MlxApi.LowerChar | src/CIL/IHV/MLX/src/swift/Sources/LlamaMLX/API.swift:49 | Lower-cases A-Z by 32 and leaves the rest unchanged. |
| MlxApi.ToLower | src/CIL/IHV/MLX/src/swift/Sources/LlamaMLX/API.swift:49 | Lower-cases each character and keeps the length. |
| MlxApi.FamilyOf | src/CIL/IHV/MLX/src/swift/Sources/LlamaMLX/API.swift:49-71 | After lower-casing, llama2 and llama3 give Llama, and phi3.5 and phi4 give Phi-3. Every other name gives none. |
| MlxApi.FamilyIgnoresCase | src/CIL/IHV/MLX/src/swift/Sources/LlamaMLX/API.swift:49 | A name and its lower-cased form select the same family. |
| MlxApi.DeviceFor | src/CIL/IHV/MLX/src/swift/Sources/LlamaMLX/API.swift:36-42 | The CPU is chosen exactly for "CPU", otherwise the GPU. |
| MlxApi.Create | src/CIL/IHV/MLX/src/swift/Sources/LlamaMLX/API.swift:11-77 | Any nil argument, an unknown name or an unreadable configuration gives nil. A Llama name gives a pointer exactly when its head counts decode, the shared configuration decodes and the weights load; the pointer holds those head counts. A Phi-3 name stops the program exactly when its configuration decodes to one the initializer traps on. It gives a pointer exactly when the configuration decodes to one the initializer accepts and the weights load. A pointer is new, retained once and of the named family, and a Phi-3 model is built from the decoded configuration. |
| MlxApi.CreateKvCache | src/CIL/IHV/MLX/src/swift/Sources/LlamaMLX/API.swift:79-104 | Nil exactly for a nil pointer, a nil name or an unknown name. Otherwise a new array of one new cache per layer, retained once. |
| MlxApi.ArgMax | src/CIL/IHV/MLX/src/swift/Sources/LlamaMLX/API.swift:165-167 | The index of the first maximum of the row. |
| MlxApi.PickToken | src/CIL/IHV/MLX/src/swift/Sources/LlamaMLX/API.swift:162-170 | -1 unless the search is greedy. Greedy gives the arg-max of the last position's logits. |
| MlxApi.Predict | src/CIL/IHV/MLX/src/swift/Sources/LlamaMLX/API.swift:106-171 | -1 on any nil argument or unknown name. Otherwise, when `prepare` is set, the input is first reduced by the prefill with window 512, and the token is picked from the logits of what is left. A Llama prefill that throws gives -1, as the `catch` does; Phi-3's prefill never throws. |
| MlxApi.PredictPhi3 | src/CIL/IHV/MLX/src/swift/Sources/LlamaMLX/API.swift:146-157 | The Phi-3 branch: the prefill windows, then the final call, are what the model sees. |
| MlxApi.ConstructedPhi3Predicts | src/CIL/IHV/MLX/src/swift/Sources/LlamaMLX/API.swift:146-170 | A Phi-3 model from `llm_create` never stops the program in `llm_predict`. A non-greedy search gives -1. |
| MlxApi.PreparedInputFitsWindow | src/CIL/IHV/MLX/src/swift/Sources/LlamaMLX/API.swift:148-150 | With `prepare`, at most 512 tokens reach the final forward call, and a short prompt is not split. |
| MlxApi.FreeModel | src/CIL/IHV/MLX/src/swift/Sources/LlamaMLX/API.swift:173-188 | Nothing happens on nil. A known name releases one retain, and an unknown name leaves the model unreleased. |
| MlxApi.FreeKvCache | src/CIL/IHV/MLX/src/swift/Sources/LlamaMLX/API.swift:190-199 | Nothing happens on nil, otherwise one retain is released. |
| MlxInference.ToUInt32 | src/CIL/IHV/MLX/src/LLM/llm_inference.cpp:101-102 | A token stored as `uint32_t` lies in 0..2^32-1, and a token already in range is unchanged. |
| MlxInference.AllTokens | src/CIL/IHV/MLX/src/LLM/llm_inference.cpp:63 | `n_all_tokens` is computed in `size_t`, so the sum is exact when it fits. |
| MlxInference.GenerateShape | src/CIL/IHV/MLX/src/LLM/llm_inference.cpp:83-103 | At most the budget of tokens is produced, exactly that many unless a call fails. There is one call per token plus the failing one. The first call carries the input, and every later call carries just the previous token without `prepare`. |
| MlxInference.GenerateAnswers | src/CIL/IHV/MLX/src/LLM/llm_inference.cpp:85-101 | Every kept token is what `llm_predict` answered at that point. A failed run ends with a call answered by -1. |
| MlxInference.AnsweredExtend | src/CIL/IHV/MLX/src/LLM/llm_inference.cpp:95-102 | A token answered and kept, followed by a run that answers its calls, answers its calls. |
| MlxInference.GenerateStep | src/CIL/IHV/MLX/src/LLM/llm_inference.cpp:85-102 | One pass of the loop: -1 stops with the error, and any other answer is kept and becomes the next input. |
| MlxInference.RunShape | src/CIL/IHV/MLX/src/LLM/llm_inference.cpp:63-103 | With a `max_length` that fits, a greedy run keeps at most `max_length` tokens, exactly that many unless it fails. Only the first call passes `prepare`. |
| MlxInference.LLMInference.constructor | src/CIL/IHV/MLX/src/LLM/llm_inference.cpp:8-15 | A new inference object has no cache, no output and no error. |
| MlxInference.LLMInference.Prepare | src/CIL/IHV/MLX/src/LLM/llm_inference.cpp:53-56 | Clears the output and creates a new cache for a known model. |
| MlxInference.LLMInference.Run | src/CIL/IHV/MLX/src/LLM/llm_inference.cpp:58-112 | Too long an input, or a non-greedy method, gives its error without calling the model. Otherwise the output gains exactly the tokens of `RunOf`, and the error is set exactly when a call returned -1. |
| MlxInference.LLMInference.Decode | src/CIL/IHV/MLX/src/LLM/llm_inference.cpp:80-109 | The decode loop computes `Generate` from the input with `prepare`. |
| MlxInference.LLMInference.Reset | src/CIL/IHV/MLX/src/LLM/llm_inference.cpp:114-119 | Releases the cache and sets it to null. |
| MlxInference.LLMInference.Deinit | src/CIL/IHV/MLX/src/LLM/llm_inference.cpp:121-132 | Releases the model's retain for a known name, and leaves it untouched for an unknown one. Releases the cache. The cache is set to null and the error cleared. The model pointer is kept. |

## Left out

- Tensor arithmetic in Phi3.swift: RoPE, SuScaled frequencies, attention, RMSNorm and the MLP, plus `eval`. These are floating-point kernels. The forward pass is the parameter `logitsOf`, and floats are `real`.
- Llama.swift is not part of this model. The Llama branch of `llm_create`, `llm_create_kvcache` and `llm_predict` uses the parameters `llamaKvHeads` (its configuration) and `llamaPrepare` (its prefill, `None` when it throws).
- KVCache.swift is not part of this model. A cache is an object with no contents. What the cache absorbs shows up only as the ghost log `forwardInputs` and as the call history `llm_predict` is given.
- Weight loading, reading config.json from disk, and `Device.setDefault` are left out. Loading weights and reading the file are parameters. The device choice is returned instead of set globally.
- `llm_clear_cache` (GPU memory), `llm_free_logits`, `LogTime` and the logger are left out.
- `LLMInference::Init` and its model-directory search are left out. The token callback is left out too.
- MlxApi.ToLower: Swift's `lowercased()` is Unicode-aware. The model lower-cases ASCII only, which decides the four model names in the same way.
- MlxApi.ArgMax: MLX's tie-breaking is not documented. The model takes the first maximum.
- LanguageModels.Decode: a nested decoding error is reported as `TypeMismatch` of the outer key rather than with its full coding path.
- Phi3.Phi3Model.constructor: the `precondition(vocabularySize > 0)` and a negative layer count are traps. They are a `requires` here, and `llm_create` reports them as `Fatal`.
- Phi3.Phi3Model.Prepare: requires a positive window, and `llm_predict` always passes 512. With a window of 0, the source loops forever on a non-empty input, because every chunk is empty and `y` never shrinks; an empty input is returned. With a negative window the loop guard always holds, and the range `0..<prefillStepSize` traps on Swift's range precondition.
- The SuScaled rotary embedding's even-dimension precondition is left out, along with the tensors it guards.
- MlxApi.Predict, MlxApi.CreateKvCache, MlxApi.FreeModel: the source reinterprets a pointer as the type its name selects. A pointer of another family is undefined behaviour, so these members require that the pointer matches its name. MlxApi.Predict also requires that a Phi-3 pointer holds a model as `llm_create` builds it (`Valid`), which every pointer `llm_create` returns does.
- MlxInference.LLMInference.Deinit: `inference_` is released but not reset, so a second `Deinit` releases it again. The model makes the caller supply a retain for that call.
- UrlCache.UrlCacheManager.ValidateFile: for a legacy two-element entry, indexing element 2 of a const JSON array is undefined behaviour, not the `out_of_range` that the handler catches. The model returns false, as intended.
- Loading and storing the URL cache file, the SHA-256 computation, and the file removal in `ClearCache` are file I/O. The file hash is a parameter, and `ClearCache` returns the paths to remove.
- EpDependencies.DependenciesConfig.ResolveAll: `std::map` visits EP names in sorted order. The model visits them in any order.
- EpDependencies.Collection.Collect: failure is not proved to come from a reachable cycle or a missing dependency. Only what success means is stated.
- The JSON schema of the EP-dependencies file and its `from_json` field parsing are left out. Parsed entries are the input.
- CommandParsing.CommandParser.ConfigureDisplayOptionOrder: the source takes the options in `std::map` (sorted) order. The model proves only that each option appears once.
- `ShowHelp`, `ShowVersion` and the program name and description getters in command_parser.cpp are console output, so they are left out.
- BenchmarkRunning.BenchmarkRunner.AddCustomStage: requires `last_stage` to be empty or present. A missing one makes `find` return `end()`, and inserting after that is undefined behaviour. Callers pass "".
- BenchmarkRunning.BenchmarkRunner.Run: a stage's own work and `ReportProgress` are left out. The result of each stage is the parameter `runStage`.
- SmcReader.DataTypeFromString: requires at least three bytes. The source reads `str[0..3]` unchecked. The round trip is promised only for plain ASCII names, because the code as written sign-extends bytes from 0x80 up.
- `GetThermalSensorValues`, `Open`, `Close` and `CallSMC` are SMC I/O and float decoding, so they are left out. The SMC answer is a parameter.
- Downloader.ChunkRanges: requires at most 4 threads, the bound `NumThreads` guarantees.
- The HTTP transfers, the progress thread, the disk-space check and the cancellation flag of downloader.cpp are I/O and threads. Each attempt's success is a parameter.
- LlamaConfiguration.LlamaConfig.LoadFromJson: reading a missing or ill-typed key throws nlohmann's `type_error` out of the function. The model's input is the already parsed and typed "model" and "search" sections (`ModelJson`, `SearchJson`), so that exception is left out.
- LlamaConfiguration.LoadedSearchIsUsable: does not promise at least one beam, because beam_search takes `num_beams` unchecked and a count below one loads.
- TokenizerUtils.MatchReflexive: NaN is not modelled. Python's `json.load` accepts `NaN`, and `nan == nan` is false, so `_match` of a value holding NaN with itself is false. `JFloat` holds a `real`, which has no NaN.
- TokenizerUtils.MatchIsEquality: NaN is not modelled, for the same reason. A value holding NaN equals itself but does not match itself.
- `LoadFromFile` in llama_config.cpp is file I/O and schema validation. The header's default values are transcribed into `DefaultSearchConfig` and `DefaultModelConfig`.
- The tokenizer's BPE merge (`PerformBPE`), its special-token split and its regex pre-tokenizer are left out. Segment ids are given as input.
- `FormatDuration` is modelled on a non-negative duration. A negative duration gives negative fields, with a sign the model does not render.

## Findings

| source | as written | input that shows it | evidently intended | confidence | as-written member | corrected member |
|---|---|---|---|---|---|---|
| src/CIL/utils.cpp:552-566 | The `continue` statements that should reject a bad or truncated sequence only continue the inner loop, so the announced bytes are copied anyway. | The bytes C3 41 come back as C3 41, which is not UTF-8. | A bad sequence is skipped, and the output is always valid UTF-8. | not executed | Utils.SanitizeAsWrittenLetsInvalidThrough | Utils.SanitizedIsUtf8 |
| src/CIL/smc_reader.cpp:10-15 | Each `char` is cast to `UInt32` as a signed char, so a byte from 0x80 up fills the higher bytes with ones. | "A\x80AA" packs to 0xFF804141, which unpacks to "\xFF\x80AA". | Big-endian packing of unsigned bytes, so the key round-trips. | not executed | SmcReader.AsWrittenBreaksRoundTrip | SmcReader.KeyRoundTrip |
| src/CIL/downloader.cpp:48-100 | The loop returns on success and otherwise retries up to `retry` times. `has_failed = true` is reached only after the loop, which no path with `retry > 0` gets to without returning. So a chunk whose every attempt fails does not raise the flag. | retry 5 with every attempt failing ends with `has_failed` false. | When every attempt fails, the shared failure flag is raised. | not executed | Downloader.ChunkAsWrittenHidesFailure | Downloader.ChunkOutcomeOf |
