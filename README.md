# CBT_conference: a Dafny model of the benchmarking harness

CBT_conference compares three Python checking libraries: typeguard, beartype
and icontract. The comparison runs on six small question-answering helpers.
This project models the core of that harness and proves properties of the
model:

- **The helpers** (`tools/functions.py`): the six plain functions and what
  their typeguard, beartype and icontract wrappers add on top of them. Every
  call ends in one of a few outcomes.
- **The incorrect-data generator** (`data/generate_incorrect_data.py`):
  random strings and words, the homoglyph and vowel transforms, and
  `generate_item`, one rewriting step per sampled error type. Every
  `random.*` call is a draw passed in as a parameter. Each draw is
  constrained to the range the call can return.
- **The all-libraries runner** (`tools/run_experiment.py`):
  - the `call_function` dispatch;
  - how each call is classified as injected, detected, correctly detected
    and injection point;
  - the triple loop over libraries, helpers and items;
  - the append to the result file, which writes the header only when the
    file did not exist.
- **The counting runner** (`tools/runners_normal.py`): the table of
  passed/failed counters, the one-counter-per-item rule of its `except`
  clauses, and the 18 summary rows.

Modules, one per file:

- `Wrappers`: Option and Result.
- `Dataset`: the item record.
- `PyStr`: the Python built-ins on strings and lists that the source uses.
- `Functions`: the six helpers.
- `Outcomes`: libraries, exception classes, plain and decorated calls.
- `GenerateIncorrectData`: the generator.
- `CsvLog`: the append-only result files.
- `RunExperiment` and `RunnersNormal`: the two runners.

Consequences of the code that the model makes explicit:

- **`normalize_question` always fails.** Both runners call it without
  `max_len`, so every such call raises TypeError. No value check can fire
  on it, and under every library the call reports TypeError
  (`RunExperiment.CallOutcomeCases`, `RunnersNormal.PlainOutcomeCases`).
- **The incorrect pass ends in KeyError.** The generator writes items
  without "id", but `run_experiment.py` reads `item["id"]` on the incorrect
  dataset. The incorrect pass over generated data therefore ends in KeyError
  before anything is written (`RunExperiment.GeneratedDataFailsIncorrectPass`,
  `RunExperiment.RunAll`).
- **Library counts never differ.** `runners_normal.py` imports the
  undecorated helpers, so the three libraries always get identical counts
  (`RunnersNormal.TallySameForEveryLibrary`).
- **icontract never lets a call through.** Every icontract wrapper has a
  postcondition on an argument `r` that the helper does not have, so a call
  that passes the preconditions raises TypeError once the helper returns
  (`Outcomes.DecoratedAgreesWithPlain`, `RunExperiment.IcontractRowsNeverNone`).
- **An existing empty result file gets no header**
  (`CsvLog.ExistingEmptyFileGetsNoHeader`).

## Model

| member | source | states |
|---|---|---|
| Functions.IsCorrect | tools/functions.py:9-10 | the prediction is correct iff it is one of the gold aliases |
| Functions.AnswerInContext | tools/functions.py:12-13 | true iff the answer occurs as a contiguous substring of the context |
| Functions.EmptyAnswerInContext | tools/functions.py:12-13 | the empty answer is in every context |
| Functions.ShortestFrom | tools/functions.py:15-16 | the scan of `min(..., key=len)` returns the earliest index of minimal length |
| Functions.EarliestShortestUnique | tools/functions.py:15-16 | that index is unique, so `min` has one well-defined answer |
| Functions.ShortestAlias | tools/functions.py:15-16 | ValueError iff the list is empty; otherwise the earliest shortest alias |
| Functions.ValidateConsistency | tools/functions.py:18-19 | true iff the answer is not among the aliases |
| Functions.ValidateConsistencyNegatesIsCorrect | tools/functions.py:9-19 | an item is consistent iff its own answer is not judged correct |
| Functions.ScoreCandidateIgnoresGold | tools/functions.py:21-22 | the score is the candidate's length, whatever the gold record |
| Functions.NormalizeQuestion | tools/functions.py:24-25 | the result is a prefix of the stripped question and does not start with whitespace, for any `max_len` |
| Functions.NormalizeQuestionPositive | tools/functions.py:24-25 | for `max_len > 0` the result is the first `min(max_len, len(q.strip()))` characters of `q.strip()` |
| Functions.NormalizeQuestionIdempotentIff | tools/functions.py:24-25 | normalising twice equals normalising once iff the first result does not end in whitespace |
| Functions.NormalizeQuestionNotIdempotent | tools/functions.py:24-25 | "ab c" with `max_len` 3 gives "ab ", and normalising that again gives "ab" |
| PyStr.ListContains | tools/functions.py:10 | the list scan is true iff the element is in the list |
| PyStr.StrContains | tools/functions.py:13 | the substring scan is true iff the needle occurs at some position |
| PyStr.ShiftOccurrence | tools/functions.py:13 | an occurrence past position 0 is an occurrence in the tail, and back |
| PyStr.Strip | tools/functions.py:25 | `strip()` leaves a slice with only whitespace outside it and non-whitespace at both of its ends |
| PyStr.StripBounds | tools/functions.py:25 | the bounds that `Strip` computes satisfy that characterisation |
| PyStr.StripUnique | tools/functions.py:25 | the characterisation determines the stripped string |
| PyStr.StripOfTrimmed | tools/functions.py:25 | a string with no whitespace at either end strips to itself |
| PyStr.SliceTo | tools/functions.py:25 | `s[:n]` has length `min(n, len(s))` for `n >= 0` and `max(0, len(s) + n)` for `n < 0`, and is a prefix |
| PyStr.LeadingSpaces | tools/functions.py:25 | exactly the whitespace run at the front is counted |
| PyStr.TrailingSpaces | tools/functions.py:25 | exactly the whitespace run at the back is counted |
| PyStr.ReplaceCharLength | data/generate_incorrect_data.py:15 | the length of `s.replace(c, sub)` is `len(s) + (len(sub) - 1) * s.count(c)` |
| PyStr.ReplaceCharGrows | data/generate_incorrect_data.py:72 | replacing by a non-empty string never makes the string shorter |
| PyStr.ReplaceChar | data/generate_incorrect_data.py:72 | replacing `c` by a string without `c` leaves no `c` in the result |
| PyStr.ReplaceCharAbsent | data/generate_incorrect_data.py:15 | a string without `c` is unchanged by the replacement |
| PyStr.ReplaceCharAppend | data/generate_incorrect_data.py:15 | the replacement distributes over concatenation |
| PyStr.CountCharAppend | data/generate_incorrect_data.py:15 | occurrence counts add up over concatenation |
| PyStr.IndexOf | data/generate_incorrect_data.py:16 | returns an index holding the character, so every alphabet character is choosable |
| Outcomes.FuncNamedRoundTrip | tools/run_experiment.py:27-35 | every helper is found again under its `__name__`, so the six names are distinct |
| Outcomes.FunctionsListsEachOnce | tools/runners_normal.py:31-38 | the helper list holds each of the six helpers exactly once |
| Outcomes.RaisedByExactlyOne | tools/run_experiment.py:71-78 | each library exception belongs to exactly one library, and no other exception belongs to any |
| Outcomes.LibraryClassNames | tools/run_experiment.py:110-112 | the library exception class names are pairwise distinct and never "None" or "Exception" |
| Outcomes.PlainCall | tools/functions.py:9-25 | a plain helper never raises a library exception, and a wrong argument count raises TypeError |
| Outcomes.PlainCallRaisesIff | tools/functions.py:15-16 | with well-kinded arguments, a plain call raises iff it is `shortest_alias([])` |
| Outcomes.DecoratedCall | tools/functions.py:28-112 | a library exception comes only from the called library; the outcome of each case is stated by `Outcomes.DecoratedAgreesWithPlain`, `Outcomes.ShortestAliasOfNothing` and `Outcomes.NormalizeNonPositive` |
| Outcomes.DecoratedAgreesWithPlain | tools/functions.py:28-112 | under typeguard and beartype decorated and plain calls differ iff a value check fires, and under typeguard never; under icontract every call raises, and a call that passes the value checks raises TypeError |
| Outcomes.ShortestAliasOfNothing | tools/functions.py:36-96 | `shortest_alias([])` raises a param violation under beartype, ViolationError under icontract and ValueError under typeguard |
| Outcomes.NormalizeNonPositive | tools/functions.py:48-112 | `max_len <= 0` is refused by beartype and icontract; typeguard lets the call return |
| RunExperiment.CallArgs | tools/run_experiment.py:55-68 | RuntimeError iff the name is unknown; otherwise the arguments fit the helper, except that `normalize_question` gets one argument too few |
| RunExperiment.CallOutcomeCases | tools/run_experiment.py:55-68 | against items: `normalize_question` always raises TypeError; `shortest_alias` on no aliases raises beartype's param violation, icontract's ViolationError, or ValueError from `min()` under typeguard; every other icontract call raises TypeError; every other call returns |
| RunExperiment.CallOutcomeMissingArgumentRaises | tools/run_experiment.py:66-68 | the modelled call behaviour raises TypeError for every `normalize_question` call |
| RunExperiment.InjectedError | tools/run_experiment.py:95-99 | "None" on the normal set; otherwise the first entry of `_error_flags[func]`, or "None" if it is missing or empty |
| RunExperiment.Classify | tools/run_experiment.py:101-115 | detected is "None" iff the call returned; a detection is correct iff the exception is the library's own and has the injected name; "Exception" iff another exception was raised |
| RunExperiment.RowFor | tools/run_experiment.py:92-133 | a correct detection implies an injection point with detected equal to injected; `item_id` is the index on the normal set and `id` on the incorrect set |
| RunExperiment.LibRowsAt | tools/run_experiment.py:90-92 | row `k * n + i` of one library is row `i` of its `k`-th helper |
| RunExperiment.AllRowsAt | tools/run_experiment.py:90-92 | row `l * 6n + off` of a pass is row `off` of library `l` |
| RunExperiment.ExpectedRowsLayout | tools/run_experiment.py:88-133 | a pass has `18 * len(data)` rows; row `(6l + k)n + i` is item `i` of helper `k` under library `l` |
| RunExperiment.LibRowsSound | tools/run_experiment.py:101-133 | every row of one library is sound: correct implies an injection point with matching names, and none on the normal set |
| RunExperiment.AllRowsSound | tools/run_experiment.py:101-133 | every row of a pass is sound |
| RunExperiment.NormalizeRowsAlwaysException | tools/run_experiment.py:66-115 | for any call behaviour in which the missing `max_len` raises TypeError, every `normalize_question` row records "Exception" and no correct detection |
| RunExperiment.IcontractRowsNeverNone | tools/run_experiment.py:101-115 | with the modelled call behaviour, no icontract row records "None" |
| RunExperiment.ItemRows | tools/run_experiment.py:92-133 | the innermost loop yields one row per item, or KeyError iff an incorrect item lacks "id" |
| RunExperiment.LibraryRows | tools/run_experiment.py:91-133 | the middle loop yields the rows of every helper in order, or that KeyError |
| RunExperiment.BuildRows | tools/run_experiment.py:88-133 | the triple loop yields exactly the expected rows, or KeyError iff some incorrect item lacks "id" |
| RunExperiment.RunPass | tools/run_experiment.py:81-157 | on success the file gains the header (if new) and then the expected rows; on KeyError it is untouched |
| RunExperiment.RunAll | tools/run_experiment.py:81-157 | for any call behaviour, the normal file is always appended to; the incorrect file is appended to iff every incorrect item has an id |
| RunExperiment.GeneratedDataFailsIncorrectPass | tools/run_experiment.py:93 | generated items carry no id, so the incorrect pass cannot complete |
| CsvLog.AppendWithHeader | tools/run_experiment.py:135-157 | the file now exists and holds the old lines, then the header if the file was missing, then the rows |
| CsvLog.CsvFile.OpenForAppend | tools/run_experiment.py:137 | opening in mode "a" creates the file and changes no line |
| CsvLog.CsvFile.WriteLine | tools/run_experiment.py:141-155 | `writerow` appends exactly one line |
| CsvLog.CsvFile.WriteRows | tools/run_experiment.py:157 | `writerows` appends the rows in order |
| CsvLog.AppendedKeepsAndCounts | tools/run_experiment.py:135-157 | an append keeps every earlier line, adds one header iff the file did not exist, and ends with the rows |
| CsvLog.AppendedKeepsWellFormed | tools/run_experiment.py:135-157 | a missing or header-first file stays header-first with data lines after it |
| CsvLog.ExistingEmptyFileGetsNoHeader | tools/run_experiment.py:135-140 | an existing empty file gets the data lines and no header, so it is not header-first |
| CsvLog.AfterRunsIsHeaderThenRows | tools/run_experiment.py:135-157 | however many runs append to a fresh file, it holds one header and then every batch in order |
| CsvLog.DataLinesAppend | tools/run_experiment.py:157 | the lines of two batches are the lines of the joined batch |
| CsvLog.HeaderCountAppend | tools/run_experiment.py:135-157 | header counts add up over concatenation |
| CsvLog.DataLinesHaveNoHeader | tools/run_experiment.py:157 | data rows never add a header |
| RunnersNormal.RunnerArgs | tools/runners_normal.py:69-80 | the if/elif chain passes well-kinded arguments, except the missing `max_len` of `normalize_question` |
| RunnersNormal.PlainOutcomeCases | tools/runners_normal.py:67-80 | `normalize_question` always raises TypeError, `shortest_alias` raises ValueError iff there are no aliases, and the rest return |
| RunnersNormal.Fails | tools/runners_normal.py:84-103 | a call fails iff it raised a non-library exception or an exception of the current library |
| RunnersNormal.FailsVersusClassify | tools/runners_normal.py:84-103 | failing here equals a detection in run_experiment.py, except another library's violation, which passes here and is "Exception" there |
| RunnersNormal.Bumped | tools/runners_normal.py:82-103 | each call raises exactly one of the two counts by one |
| RunnersNormal.TallyTotal | tools/runners_normal.py:67-103 | passed + failed equals the number of items |
| RunnersNormal.TallyFailed | tools/runners_normal.py:67-103 | failed is every item for `normalize_question`, the items without aliases for `shortest_alias`, and 0 otherwise |
| RunnersNormal.TallySameForEveryLibrary | tools/runners_normal.py:63-103 | the three libraries get identical counts |
| RunnersNormal.TallyStep | tools/runners_normal.py:67-103 | counting one more item bumps the tally of the items before it |
| RunnersNormal.KeysComplete | tools/runners_normal.py:50-60 | the table has a key for every library and helper |
| RunnersNormal.Stats.constructor | tools/runners_normal.py:50-60 | every counter of the fresh table is zero |
| RunnersNormal.Stats.Bump | tools/runners_normal.py:82-103 | one `+= 1` changes only the counter of (lib, f) |
| RunnersNormal.Stats.RunCell | tools/runners_normal.py:67-103 | the item loop adds the tally of (lib, f) to its counter and leaves every other counter alone |
| RunnersNormal.Stats.RunHelper | tools/runners_normal.py:64-104 | the library loop adds the tallies of helper `f` for every library |
| RunnersNormal.Stats.Run | tools/runners_normal.py:63-106 | after the experiment every counter has gained the tally of its library and helper |
| RunnersNormal.SummaryRows | tools/runners_normal.py:126-138 | 18 rows; row `k` is library `k / 6` with helper `k % 6` |
| RunnersNormal.SummaryRowsOnePerCell | tools/runners_normal.py:126-138 | each library and helper has exactly one row, at `6 * lib + f`, holding its counts |
| RunnersNormal.WriteLibraryRows | tools/runners_normal.py:127-138 | the inner loop writes the six rows of one library in order |
| RunnersNormal.WriteSummary | tools/runners_normal.py:109-138 | the file gains the header (if new) and then the 18 summary rows |
| RunnersNormal.ExpectedSummaryCounts | tools/runners_normal.py:63-138 | in each summary row passed + failed = len(data); failed is len(data) for `normalize_question`, the alias-less items for `shortest_alias`, else 0 |
| RunnersNormal.RunNormal | tools/runners_normal.py:46-138 | the script appends the header if new and then the expected 18 summary rows |
| GenerateIncorrectData.AlphabetWithoutSpaces | data/generate_incorrect_data.py:9-15 | without spaces the alphabet is `GARBAGE_CHARS.replace(" ", "")` and holds no space |
| GenerateIncorrectData.DropOnlyOccurrence | data/generate_incorrect_data.py:15 | removing the only occurrence of a character joins the parts around it |
| GenerateIncorrectData.AlphabetSize | data/generate_incorrect_data.py:9-15 | the alphabet has 106 characters, or 105 without the space |
| GenerateIncorrectData.RandomString | data/generate_incorrect_data.py:11-16 | the length is within bounds, every character is from the alphabet, and there is no space unless spaces are allowed |
| GenerateIncorrectData.RandomStringCovers | data/generate_incorrect_data.py:11-16 | every such string is produced by some draw |
| GenerateIncorrectData.RandomWord | data/generate_incorrect_data.py:18-20 | a lowercase word of allowed length |
| GenerateIncorrectData.RandomWordCovers | data/generate_incorrect_data.py:18-20 | every lowercase word of allowed length is produced by some draw |
| GenerateIncorrectData.RemoveAt | data/generate_incorrect_data.py:30-31 | removing one element: the multiset loses exactly it, and distinctness is kept |
| GenerateIncorrectData.Sample | data/generate_incorrect_data.py:30-31 | `random.sample` returns `k` elements drawn from the population as a sub-multiset, a permutation when `k` is the population size, and distinct when the population is |
| GenerateIncorrectData.SubMultisetMembers | data/generate_incorrect_data.py:68 | every element of a sample is an element of the population |
| GenerateIncorrectData.ErrorTypeNamesDistinct | data/generate_incorrect_data.py:30 | the four error type names are distinct |
| GenerateIncorrectData.ErrorTypes | data/generate_incorrect_data.py:30-31 | one to three distinct error types, each one of the four names |
| GenerateIncorrectData.HomoglyphMix | data/generate_incorrect_data.py:22-24 | length is kept; each character with a substitution becomes its substitute and every other character is kept; no substitutable character is left |
| GenerateIncorrectData.HomoglyphMixIdempotent | data/generate_incorrect_data.py:22-24 | applying `homoglyph_mix` twice equals applying it once |
| GenerateIncorrectData.MakeNoVowels | data/generate_incorrect_data.py:26-27 | the result is vowel-free, in either case, is a subsequence of the input, and is shorter by exactly the number of vowels |
| GenerateIncorrectData.MakeNoVowelsKeepsVowelFree | data/generate_incorrect_data.py:26-27 | a vowel-free string is left unchanged |
| GenerateIncorrectData.MakeNoVowelsIdempotent | data/generate_incorrect_data.py:26-27 | applying `make_no_vowels` twice equals applying it once |
| GenerateIncorrectData.NoVowelAliases | data/generate_incorrect_data.py:99 | as many aliases as before, each non-empty and vowel-free |
| GenerateIncorrectData.ObfuscateAnswer | data/generate_incorrect_data.py:51 | between `len(answer)` and `2 * len(answer)` characters |
| GenerateIncorrectData.DropNoiseAppend | data/generate_incorrect_data.py:51 | dropping noise distributes over concatenation |
| GenerateIncorrectData.NoiseDropped | data/generate_incorrect_data.py:51 | none of the four noise choices survives dropping the noise |
| GenerateIncorrectData.ObfuscateRoundTrip | data/generate_incorrect_data.py:49-52 | deleting the noise from the obfuscated answer gives the answer back |
| GenerateIncorrectData.SpaceJoin | data/generate_incorrect_data.py:55 | `" ".join(answer)` has `2 * len(answer) - 1` characters |
| GenerateIncorrectData.SpaceJoinRoundTrip | data/generate_incorrect_data.py:53-56 | removing the spaces from the split answer gives the answer back |
| GenerateIncorrectData.SampleQuestionMentionsAnswer | data/generate_incorrect_data.py:41 | the starting question satisfies `answer_in_context` |
| GenerateIncorrectData.MissingInAliasesAsWritten | data/generate_incorrect_data.py:94-96 | an answer outside the aliases is kept; an alias gains one suffix letter; the result is still an alias only if it is one letter longer and its prefix is an alias |
| GenerateIncorrectData.MissingInAliasesAsWrittenCanMiss | data/generate_incorrect_data.py:92-96 | as written, the renamed answer can still be an alias |
| GenerateIncorrectData.LongestLength | data/generate_incorrect_data.py:92-96 | no alias is longer than the bound, which ends the renaming loop |
| GenerateIncorrectData.RenameUntilMissing | data/generate_incorrect_data.py:92-96 | the answer ends up outside the aliases, is unchanged if already outside, and only gains suffix characters |
| GenerateIncorrectData.SuffixEach | data/generate_incorrect_data.py:109 | each alias gains exactly its drawn noise character |
| GenerateIncorrectData.StartItem | data/generate_incorrect_data.py:33-41 | the answer is a random word and the question mentions it; the aliases are one random word per draw, followed by the answer iff it was appended, so 1 to 4 non-empty aliases |
| GenerateIncorrectData.BreakContext | data/generate_incorrect_data.py:44-56 | per mode: noise of 30 to 120 characters, the obfuscated sentence, or the split sentence |
| GenerateIncorrectData.BreakNormalization | data/generate_incorrect_data.py:58-73 | per mode: 200 to 800 characters with no space, 150 to 400 characters from GARBAGE_CHARS, or at least 80 characters with no space |
| GenerateIncorrectData.BreakScore | data/generate_incorrect_data.py:75-88 | strings stay non-empty; `no_match` gives a spaceless random answer of 8 to 12 characters and 1 to 3 spaceless aliases of 5 to 12; `homoglyphs` gives the homoglyph mix of the chosen alias; `short_candidate` gives a one-letter word; aliases change only in `no_match` |
| GenerateIncorrectData.BreakConsistency | data/generate_incorrect_data.py:90-101 | aliases become empty iff in `aliases_empty` mode; in `aliases_no_vowel` mode each alias becomes `make_no_vowels(a) or "bcdf"`, so all are vowel-free; in `missing_in_aliases` mode the aliases are kept and the answer is renamed once as written; the answer grows by at most one letter and keeps its prefix |
| GenerateIncorrectData.AddNoise | data/generate_incorrect_data.py:103-109 | nothing changes without noise; otherwise either the answer gains its drawn noise character and the aliases are kept, or the answer is kept and each alias gains exactly its drawn noise character; homoglyph and vowel freedom are kept |
| GenerateIncorrectData.QuestionSteps | data/generate_incorrect_data.py:43-73 | the question is kept unless a question error is sampled; otherwise it has the shape of the last applied block: noise, the obfuscated or split sentence, or one of the three normalization shapes |
| GenerateIncorrectData.AnswerSteps | data/generate_incorrect_data.py:75-109 | after the noise: aliases empty iff `aliases_empty`; vowel-free under `aliases_no_vowel`; still an alias under `missing_in_aliases` only if its prefix is one, when no noise came; the drawn answer stays a prefix when no score error; per score mode an 8-to-14 spaceless answer, a homoglyph-free answer, or at most 3 characters starting with a letter |
| GenerateIncorrectData.ScoreAndCheck | data/generate_incorrect_data.py:75-101 | the same facts before the noise, with one character less of growth and the `missing_in_aliases` fact unconditional |
| GenerateIncorrectData.GenerateItem | data/generate_incorrect_data.py:29-119 | no id or flags and a non-empty answer; the question and the answer meet the effects of the error types sampled; under `missing_in_aliases` with no noise the item is inconsistent only if the answer minus its last letter is an alias |
| GenerateIncorrectData.RenamedItemConsistency | data/generate_incorrect_data.py:90-96 | after the rename and no noise, `validate_consistency` fails only when the answer minus its last letter is an alias |
| GenerateIncorrectData.BreakContextCanKeepAnswer | data/generate_incorrect_data.py:49-56 | as written, "ab" obfuscated with no noise, and "a" in the split sentence, are still found by `answer_in_context` |
| GenerateIncorrectData.GenerateDataset | data/generate_incorrect_data.py:121-122 | 3000 items, none with an id or flags, each with a non-empty answer |

## Left out

- Timing (`time.perf_counter`, the `time` counters, the `time_sec` column, `round`) is not modelled. Neither is the generation of `run_id` and `timestamp`; both are parameters.
- File and JSON I/O are out of scope: reading the datasets, `json.dump`, directory creation, and CSV quoting and encoding. A file is its sequence of lines; the datasets are parameters.
- Outcomes.DecoratedCall: the internals of typeguard, beartype and icontract are not modelled. This member is the model's reading of what they do on these helpers: the value checks (`NonEmptyStrList`, `PositiveInt`, `len(xs) > 0`, `m > 0`), the exception classes, and the TypeError icontract raises because no postcondition argument `r` can be bound. The runner's row lemmas (`RunExperiment.ExpectedRowsLayout`, `RunExperiment.AllRowsSound`, `RunExperiment.BuildRows`, `RunExperiment.RunAll`) hold for any call behaviour; only `RunExperiment.CallOutcomeCases`, `RunExperiment.CallOutcomeMissingArgumentRaises` and `RunExperiment.IcontractRowsNeverNone` rest on this reading.
- Type checks on ill-typed JSON values are not modelled: items are typed records, so an item whose fields are not strings and lists cannot be expressed. The same holds for the `isinstance` guards at the end of `generate_item`, which are therefore always satisfied.
- The probability distribution of `random.*` is left out; every property holds for every draw in range.
- The `else` branch of `homoglyphs` (`homoglyph_mix(random_word(3, 6))`) is not modelled: `aliases` is never empty at that point.
- The `print` calls are not modelled.
- experiments/analysis.py is not part of this model.
- GenerateIncorrectData.BreakContext: for the `obfuscate` and `split` modes it states the question text, not that `answer_in_context` fails on it, because as written that does not hold: an obfuscation that draws no noise gives the answer back, and a short answer such as "a" or "is" occurs in the words of the templates (`GenerateIncorrectData.BreakContextCanKeepAnswer`).
- GenerateIncorrectData.GenerateItem: the `missing_in_aliases` fact is stated only when no noise is added afterwards; noise on the aliases can make the answer an alias again. Some per-block values are stated only by their block, not for the whole item: the `no_match` aliases and the link between a `homoglyphs` answer and its alias (`GenerateIncorrectData.BreakScore`), the per-alias value `make_no_vowels(a) or "bcdf"` (`GenerateIncorrectData.BreakConsistency`), and which of answer or aliases got the noise (`GenerateIncorrectData.AddNoise`).
- GenerateIncorrectData.AnswerSteps: the same limits as `GenerateIncorrectData.GenerateItem`.

## Findings

| source | as written | input that shows it | evidently intended | confidence | as-written member | corrected member |
|---|---|---|---|---|---|---|
| data/generate_incorrect_data.py:92-96 | `missing_in_aliases` appends one random suffix when the answer is an alias, and does not check again | answer "ab", aliases ["abx", "ab"], suffix "x": the new answer "abx" is still an alias | the answer is not in the aliases afterwards, as the comment on line 93 says | not executed | GenerateIncorrectData.MissingInAliasesAsWrittenCanMiss | GenerateIncorrectData.RenameUntilMissing |
