# Medical data classification: dataset preparation scripts in Dafny

The repository turns spreadsheets of database metadata (table name, column
name, column annotation, and a personal or business classification sign)
into JSON-lines fine-tuning data for a classification model. This project
models the core of five of its scripts and proves what they promise:

- `convert_data.py` — every CSV row becomes one record per non-empty sign,
  or a "null" record when both signs are empty (module `ConvertData`).
- `yiliao/prepare_step1_dataset.py` — the column annotation is cleaned;
  annotated rows become training samples, the others are set aside for
  prediction (module `PrepareStep1`).
- `yiliao/clean_step2_result.py` — the predicted annotations lose their
  `<think>…</think>` reasoning blocks (module `CleanStep2`).
- `yiliao/prepare_step3_final.py` — predictions are loaded into a map,
  every labelled row with a description gives a reasoning sample and a
  direct sample, and these are mixed with the standard records and
  shuffled (module `PrepareStep3`).
- `yiliao/generate_standard_dataset.py` — a taxonomy file of `a-b-c` paths
  becomes exactly `target` path, structure and multiple-choice questions
  (module `StandardDataset`).

Shared modules:

- `Text` — Python's `strip`, `replace`, `split`/`join`, `lower` and decimal
  formatting on `seq<char>`, with their laws.
- `Json` — decoded JSON values, and a JSON-lines file as a sequence of
  `Blank | Malformed | Parsed(value)` lines.
- `Records` — CSV rows as column-to-text maps, the sample and null-record
  types, the query key `tablename:{uri}; colname:{name}` that joins the
  scripts, and the `FlatMap`/`CountWhere` folds that the row loops compute.
- `Random` — Python's `random.choice`, `shuffle` and `sample` as CPython
  implements them, fed by a stream `draws: nat -> nat` of raw values. Each
  `randbelow(n)` consumes the next value `k` and gives `draws(k) % n`.
  Every property is proved for all streams.
- `Wrappers` — `Option` and `Result`.

Each row loop is a method with a `for` loop whose invariant ties the lists
and counters built so far to a fold over the rows read, and the method's
postcondition states the outcome for the whole file. The per-row functions
carry the content lemmas: which records a row yields, in which order, and
with which fields. The taxonomy tree is built by `BuildTree`, and each
question pass by its own method. The step-3 shuffle runs in place on an
array (`Random.ShuffleInPlace`). Each of these is proved equal to a
function, and the lemmas are proved about that function.

The two JSON-lines readers in `prepare_step3_final.py` treat a malformed
line differently. The step-2 reader skips it (lines 49-50). The standard
file is read with an unguarded `json.loads` (line 74), so a malformed line
there ends the run with an exception. `GenerateStep3Dataset` returns `Err`
with the index of the first malformed line in that case. The same file starts with
`iimport csv` (line 1), so as written it cannot be loaded at all. The model
gives the logic of the rest of the file as written.

The proofs also record three things about the code that a reader might not
expect:

- The query key is not injective when a table name contains `; colname:`
  (`Records.QueryKeyCollision`). It is injective when table names have no
  `;` (`Records.QueryKeyInjective`).
- `clean_description` is not idempotent. It removes the noise token `#|#|`
  before line breaks, so `"#|#\n|"` cleans to the token itself and a second
  cleaning gives `""` (`PrepareStep1.TokenReformsExample`).
- One `<think>.*?</think>` substitution is not a fixed point. Removing a
  block from inside the letters of a tag splices a new pair together
  (`CleanStep2.SplicedPair`).

## Model

| member | source | states |
|---|---|---|
| ConvertData.ConvertRow | convert_data.py:60-103 | the records and the null record one row adds are those the per-row functions `RowSamples` and `RowNulls` give |
| ConvertData.ConvertCsvToQaDataset | convert_data.py:55-103 | the output list and the null list are the rows' records in row order; `total_lines` is the number of rows |
| ConvertData.RowOutcome | convert_data.py:67-103 | a row gives one record per non-empty sign (personalSign first), each with the fixed system prompt, the `tablename; colname; Desc` query, its sign as response and its column name as type; it gives a null record with the fixed info text and the raw row exactly when both signs are empty |
| ConvertData.BlankSignIsEmpty | convert_data.py:60-64 | a sign cell holding only whitespace produces no record of that type |
| ConvertData.ConvertCounts | convert_data.py:57-103 | records = rows with a personal sign + rows with a business sign; null records = rows with neither |
| ConvertData.NullRecordsAreUnsignedRows | convert_data.py:97-103 | every null record carries the info text, the query and an unmodified input row without either sign |
| ConvertData.RowNullRecord | convert_data.py:97-103 | the only null record a row can add is its query, the info text and the row itself, and only when it has no sign |
| ConvertData.BusinessOnlyExample | convert_data.py:84-103 | a row with only a business sign gives one business record with query `tablename:t1; colname:c1; Desc:` and no null record |
| PrepareStep1.Denoise | yiliao/prepare_step1_dataset.py:39 | after the four removals no CR, LF or TAB is left |
| PrepareStep1.CleanDescription | yiliao/prepare_step1_dataset.py:31-59 | empty input gives ""; the result has no surrounding whitespace, no CR, LF or TAB, and is "" or not a null literal |
| PrepareStep1.ProcessCsv | yiliao/prepare_step1_dataset.py:98-128 | the train list and the pending list are the rows' samples and records in row order; `total_count` is the number of rows |
| PrepareStep1.RowOutcome | yiliao/prepare_step1_dataset.py:102-128 | each row goes to exactly one list: a train sample (system prompt, query key, cleaned annotation) when the annotation cleans to something, else a pending record with the query key and the raw row |
| PrepareStep1.ProcessCsvCounts | yiliao/prepare_step1_dataset.py:98-128 | the train list has one sample per annotated row, and the two lists together have one entry per row |
| PrepareStep1.TrainResponsesAreClean | yiliao/prepare_step1_dataset.py:112-119 | every training response is the non-empty cleaned annotation of an input row with that row's key, without CR, LF, TAB, surrounding whitespace or null literal |
| PrepareStep1.RowTrainSample | yiliao/prepare_step1_dataset.py:112-119 | the one sample a row can add, with a non-empty response |
| PrepareStep1.PendingRowsLackAnnotation | yiliao/prepare_step1_dataset.py:120-128 | every pending record holds an input row, unchanged, whose annotation cleans to "", under that row's key |
| PrepareStep1.RowPendingRecord | yiliao/prepare_step1_dataset.py:120-128 | the one pending record a row can add, and only when it is not annotated |
| PrepareStep1.CleanDescriptionKeepsClean | yiliao/prepare_step1_dataset.py:35-59 | text that is already stripped, free of the noise token and of CR, LF, TAB, and not a null literal is returned unchanged |
| PrepareStep1.PaddedNullLiteral | yiliao/prepare_step1_dataset.py:39-46 | a null literal padded with spaces and followed by a line break cleans to "" |
| PrepareStep1.UpperNullIsNullLiteral | yiliao/prepare_step1_dataset.py:45 | `NULL` counts as a null literal once lower-cased |
| PrepareStep1.DenoiseDropsLineBreak | yiliao/prepare_step1_dataset.py:39 | a trailing line break is removed and nothing else changes |
| PrepareStep1.NoiseExample | yiliao/prepare_step1_dataset.py:31-59 | `"#\|#\|高血压\t"` cleans to `"高血压"` |
| PrepareStep1.NoiseDenoised | yiliao/prepare_step1_dataset.py:39 | the removals turn `"#\|#\|高血压\t"` into `"高血压"` |
| PrepareStep1.TokenReformsExample | yiliao/prepare_step1_dataset.py:39-42 | `"#\|#\n\|"` cleans to the noise token itself, and cleaning that again gives "": the cleaning is not idempotent |
| PrepareStep1.TokenReformsDenoised | yiliao/prepare_step1_dataset.py:39 | the removals turn `"#\|#\n\|"` into the noise token |
| PrepareStep1.TokenSurvivesFirstPass | yiliao/prepare_step1_dataset.py:39 | the token removal leaves `"#\|#\n\|"` unchanged |
| PrepareStep1.TokenJoined | yiliao/prepare_step1_dataset.py:39 | removing the LF from `"#\|#\n\|"` forms the token |
| PrepareStep1.TokenDenoised | yiliao/prepare_step1_dataset.py:39 | the token alone is removed entirely |
| CleanStep2.FindFrom | yiliao/clean_step2_result.py:17 | the result is the first occurrence of the pattern at or after the start, or none when there is no such occurrence |
| CleanStep2.MatchLen | yiliao/clean_step2_result.py:17 | a match at the front spans at least both tags and no more than the text |
| CleanStep2.RemoveThink | yiliao/clean_step2_result.py:17 | the substitution never lengthens the text |
| CleanStep2.CleanText | yiliao/clean_step2_result.py:11-22 | empty input gives "", and the result has no surrounding whitespace |
| CleanStep2.CleanValue | yiliao/clean_step2_result.py:42-45 | a falsy value (missing, null, "", 0, false) gives ""; a truthy string gives its cleaned text; the cleaning fails exactly when the value is truthy and not a string |
| CleanStep2.ProcessCleaning | yiliao/clean_step2_result.py:34-61 | the results are the cleaned records of the lines in order, and `cleaned_count` is their number |
| CleanStep2.NoOpenKeeps | yiliao/clean_step2_result.py:17 | text without `<think>` passes the substitution unchanged |
| CleanStep2.NoMatchKeeps | yiliao/clean_step2_result.py:17 | text where no match starts anywhere passes unchanged |
| CleanStep2.MatchShortens | yiliao/clean_step2_result.py:17 | a match anywhere makes the result strictly shorter |
| CleanStep2.RemoveThinkChangesIffPair | yiliao/clean_step2_result.py:17 | the substitution changes the text if and only if some `<think>` has a `</think>` after it |
| CleanStep2.NoThinkOnlyStrips | yiliao/clean_step2_result.py:17-20 | text without `<think>` is only stripped |
| CleanStep2.FindFromFirst | yiliao/clean_step2_result.py:17 | the search stops at the first occurrence: non-greedy matching |
| CleanStep2.LeadingBlockMatch | yiliao/clean_step2_result.py:17 | a leading block whose body has no '<' matches up to the first `</think>` |
| CleanStep2.LeadingBlockDropped | yiliao/clean_step2_result.py:17 | such a block is dropped and the scan continues with what follows it |
| CleanStep2.LeadingBlockAnswer | yiliao/clean_step2_result.py:11-22 | a reasoning block in front of an answer without '<' leaves just the stripped answer |
| CleanStep2.ThinkBlockExample | yiliao/clean_step2_result.py:11-22 | `"<think>ignore this</think>最终结果"` cleans to `"最终结果"` |
| CleanStep2.CopiesUnmatched | yiliao/clean_step2_result.py:17 | a character at which no match starts is copied to the output |
| CleanStep2.ThiCopied | yiliao/clean_step2_result.py:17 | an unfinished `<thi` in front of a tag is left in place |
| CleanStep2.ClosedBlockIsPair | yiliao/clean_step2_result.py:17 | a `<think>` closed by a `</think>` is a match |
| CleanStep2.SplicedRemoval | yiliao/clean_step2_result.py:17 | removing a block from inside `<thi…nk>` leaves a new `<think>…</think>` |
| CleanStep2.SplicedPair | yiliao/clean_step2_result.py:17 | so one pass can leave a removable pair: the substitution is not a fixed point |
| CleanStep2.CleanLineOutcome | yiliao/clean_step2_result.py:36-61 | a kept line gives its object back with only `predicted_desc` replaced by a stripped string ("" when missing) and every other field unchanged; blank, undecodable, non-object and uncleanable lines give nothing |
| CleanStep2.CleanedCount | yiliao/clean_step2_result.py:34-61 | `cleaned_count` is the number of kept lines |
| PrepareStep3.CleanDesc | yiliao/prepare_step3_final.py:54-57 | empty input gives "", and the result has no surrounding whitespace |
| PrepareStep3.PredictionEntry | yiliao/prepare_step3_final.py:40-50 | a line contributes an entry only with a non-empty stripped query and a non-empty stripped prediction |
| PrepareStep3.LoadPredictedDescs | yiliao/prepare_step3_final.py:27-52 | a missing file gives the empty map; otherwise the map is the fold of the lines' entries |
| PrepareStep3.PredictedMapFromLines | yiliao/prepare_step3_final.py:39-50 | a key is in the map if and only if some line gives an entry for it |
| PrepareStep3.PredictedValuesClean | yiliao/prepare_step3_final.py:46-48 | every stored prediction is non-empty and stripped |
| PrepareStep3.LastEntryWins | yiliao/prepare_step3_final.py:39-50 | the value stored for a key is that of the last line giving an entry for it |
| PrepareStep3.StandardRecords | yiliao/prepare_step3_final.py:68-77 | the records read are the decoded values of the lines in order, blank lines skipped; a failure names a malformed line |
| PrepareStep3.StandardRecordsCases | yiliao/prepare_step3_final.py:71-74 | the standard file is read in full if and only if no line is malformed; otherwise the failure is at the first malformed line |
| PrepareStep3.ProcessRow | yiliao/prepare_step3_final.py:89-141 | one iteration adds the row's pair of samples and counts the row exactly when it is valid |
| PrepareStep3.BuildBusinessSamples | yiliao/prepare_step3_final.py:87-141 | the business samples are the rows' pairs in row order, and `valid_count` is the number of valid rows |
| PrepareStep3.RowPairShape | yiliao/prepare_step3_final.py:119-141 | a valid row gives exactly two samples: A with the key as query and `语义解析:{desc}; 标准分类:{label}`, then B with `{key}; Desc:{desc}` and `标准分类:{label}`; any other row gives none |
| PrepareStep3.BusinessSampleCount | yiliao/prepare_step3_final.py:119-141 | `len(business_samples) == 2 * valid_count` |
| PrepareStep3.NativeDescriptionWins | yiliao/prepare_step3_final.py:105-113 | a row with its own description uses it, whatever the prediction map holds |
| PrepareStep3.PredictionFillsIn | yiliao/prepare_step3_final.py:109-113 | without its own description, a row takes the prediction stored under its key |
| PrepareStep3.CleanDescKeepsClean | yiliao/prepare_step3_final.py:54-57 | stripped text without the noise token is returned unchanged |
| PrepareStep3.CleanersAgree | yiliao/prepare_step3_final.py:54-57 | on text without CR, LF or TAB, the step-1 cleaner is this cleaner followed by the null-literal test |
| PrepareStep3.SamplesToJson | yiliao/prepare_step3_final.py:151-153 | the i-th object written reads back as the i-th sample, with keys system, query, response, and type exactly when the sample has one |
| PrepareStep3.GenerateStep3Dataset | yiliao/prepare_step3_final.py:59-153 | a malformed standard line ends the run with that error; a missing or well-formed standard file always gives a dataset, and that dataset is the shuffle of the business samples followed by the standard records |
| PrepareStep3.DatasetIsPermutation | yiliao/prepare_step3_final.py:147-148 | for every random stream, the dataset is a permutation of business samples plus standard records |
| PrepareStep3.CleanedPredictionJoins | yiliao/prepare_step3_final.py:100-112 | a step-2 record whose query is a row's key, once cleaned, gives an entry under that key holding the cleaned prediction, which a row without its own description then takes |
| StandardDataset.TaxonomyLines | yiliao/generate_standard_dataset.py:57-59 | the taxonomy lines are the input lines that are not blank, stripped, in input order |
| StandardDataset.TaxonomyMembers | yiliao/generate_standard_dataset.py:59 | a string is a taxonomy line if and only if it is the stripped form of an input line that is not all whitespace |
| StandardDataset.TaxonomyEmpty | yiliao/generate_standard_dataset.py:59-63 | the taxonomy is empty, and the script stops, if and only if every input line is whitespace |
| StandardDataset.ParentThenLast | yiliao/generate_standard_dataset.py:69-72 | a line has a parent if and only if it contains '-'; parent, '-' and last segment give the line back |
| StandardDataset.BuildTree | yiliao/generate_standard_dataset.py:66-74 | the tree loop's result is the fold of the lines |
| StandardDataset.TreeOfInv | yiliao/generate_standard_dataset.py:66-74 | every parent is listed once, in first-seen order, with a non-empty children list |
| StandardDataset.TreeOfChildren | yiliao/generate_standard_dataset.py:66-74 | a parent is a key if and only if some line lies under it, and its children are the last segments of those lines in input order, duplicates included |
| StandardDataset.TreeOfFor | yiliao/generate_standard_dataset.py:66-74 | the parents are exactly the tree's keys, each with its children from the lines |
| StandardDataset.PathQuestions | yiliao/generate_standard_dataset.py:84-96 | strategy A asks one path question per line, the i-th about the i-th line, each with a template from the path list |
| StandardDataset.StructureQuestions | yiliao/generate_standard_dataset.py:99-110 | strategy B asks one structure question per parent, the i-th about the i-th parent with that parent's children, each with a template from the structure list |
| StandardDataset.Candidates | yiliao/generate_standard_dataset.py:115 | there are no more candidates than lines |
| StandardDataset.CandidatesMembers | yiliao/generate_standard_dataset.py:115 | the candidates are exactly the lines other than the correct one |
| StandardDataset.CandidatesLength | yiliao/generate_standard_dataset.py:115 | there are as many candidates as lines less the copies of the answer |
| StandardDataset.CandidatesCount | yiliao/generate_standard_dataset.py:115 | every copy of the correct line is excluded, and every other line keeps its copies |
| StandardDataset.McqQuestionWellFormed | yiliao/generate_standard_dataset.py:113-139 | a multiple-choice question has min(3, candidates) + 1 options, at most four, all from the taxonomy, with the correct answer exactly once and as response |
| StandardDataset.McqOptionsDistinct | yiliao/generate_standard_dataset.py:117-123 | on a taxonomy without repeated lines, no option appears twice |
| StandardDataset.AnswerAnyPosition | yiliao/generate_standard_dataset.py:117-130 | with four or more distinct lines, for each of the labels A to D some draws put the answer under it among four options |
| StandardDataset.OptionLines | yiliao/generate_standard_dataset.py:126-130 | the loop's text is the options labelled A to D, one per line |
| StandardDataset.RenderQuestion | yiliao/generate_standard_dataset.py:89-139 | the record written for a question is its rendering |
| StandardDataset.RenderRecords | yiliao/generate_standard_dataset.py:150-152 | the records written are the renderings of the questions, in order |
| StandardDataset.PathRecord | yiliao/generate_standard_dataset.py:84-96 | a path record has the fixed system prompt, a query containing the line's last segment, the whole line as response and type `standard_path` |
| StandardDataset.StructureRecord | yiliao/generate_standard_dataset.py:99-110 | a structure record's query contains the parent's last segment and its response starts with `包含以下细分项：` and contains every child |
| StandardDataset.ChoiceRecord | yiliao/generate_standard_dataset.py:126-139 | a multiple-choice query contains every labelled option line, and the response is the correct answer |
| StandardDataset.FillContains | yiliao/generate_standard_dataset.py:89 | every template's filled text contains the value filled in |
| StandardDataset.Pass | yiliao/generate_standard_dataset.py:83-139 | one pass adds 2 × lines + parents questions, at least one, so the while loop terminates |
| StandardDataset.PathPass | yiliao/generate_standard_dataset.py:84-96 | strategy A's loop produces the path questions |
| StandardDataset.StructurePass | yiliao/generate_standard_dataset.py:99-110 | strategy B's loop produces the structure questions |
| StandardDataset.BuildMcq | yiliao/generate_standard_dataset.py:114-132 | one multiple-choice iteration produces the specified question and consumes its draws |
| StandardDataset.McqPass | yiliao/generate_standard_dataset.py:113-139 | strategy C's loop produces the multiple-choice questions |
| StandardDataset.RunPass | yiliao/generate_standard_dataset.py:83-139 | one body of the while loop produces a pass |
| StandardDataset.PassWellFormed | yiliao/generate_standard_dataset.py:83-139 | every question of a pass is well formed for the taxonomy |
| StandardDataset.Generate | yiliao/generate_standard_dataset.py:81-139 | the loop stops with at least `target` questions, and never drops any |
| StandardDataset.GenerateWellFormed | yiliao/generate_standard_dataset.py:81-139 | every generated question is well formed |
| StandardDataset.GenerateSize | yiliao/generate_standard_dataset.py:81-139 | the loop only appends, and overshoots the target by less than one pass |
| StandardDataset.Dataset | yiliao/generate_standard_dataset.py:142-143 | the final dataset has exactly `target` questions |
| StandardDataset.DatasetWellFormed | yiliao/generate_standard_dataset.py:142-143 | the final questions are well formed and drawn from the generated pool without repetition beyond it |
| StandardDataset.LastIndex | yiliao/generate_standard_dataset.py:146-147 | the result is the last position of the character, or none when it does not occur |
| StandardDataset.SplitAtSlash | yiliao/generate_standard_dataset.py:146 | splitting `dir/name` gives the directory and the file name |
| StandardDataset.OutputInWorkingDir | yiliao/generate_standard_dataset.py:146-148 | a bare input file name gives `{base_name}_target_{target}.jsonl` with no directory, in the working directory |
| StandardDataset.BaseNameCases | yiliao/generate_standard_dataset.py:147 | the extension is dropped from `stem.ext`, and a name without one is kept |
| StandardDataset.OutputBeside | yiliao/generate_standard_dataset.py:146-148 | the output is written in the input's directory as `{base_name}_target_{target}.jsonl` |
| StandardDataset.GenerateByTarget | yiliao/generate_standard_dataset.py:44-152 | the script's result is the specified outcome |
| StandardDataset.OutcomeCases | yiliao/generate_standard_dataset.py:45-63 | a missing input, then a bad target, then an empty taxonomy stop the script, each exactly in its case; otherwise exactly `target` records go to the output path |
| StandardDataset.OutcomeRecords | yiliao/generate_standard_dataset.py:84-152 | every record written has the fixed system prompt; a structure record lists children, and any other record answers with a taxonomy line |
| StandardDataset.RecordOfWellFormed | yiliao/generate_standard_dataset.py:91-138 | the record of a well-formed question answers with a taxonomy line or a children list |
| Random.Below | yiliao/generate_standard_dataset.py:89 | a draw below n is below n |
| Random.Choice | yiliao/generate_standard_dataset.py:89 | `random.choice` returns an element of the list |
| Random.ShufflePermutes | yiliao/generate_standard_dataset.py:142 | `random.shuffle` permutes the list, whatever the draws |
| Random.ShuffleInPlace | yiliao/prepare_step3_final.py:148 | the in-place shuffle leaves the array holding the specified shuffle of its old contents |
| Random.ShuffleList | yiliao/generate_standard_dataset.py:123 | shuffling a list copy gives the specified shuffle |
| Random.ShuffleSnoc | yiliao/generate_standard_dataset.py:122-123 | shuffling a list with one element appended holds that element once more and nothing else new |
| Random.ShufflePrefixWithin | yiliao/generate_standard_dataset.py:142-143 | a prefix of the shuffled list takes each element at most as often as the list holds it |
| Random.Sample | yiliao/generate_standard_dataset.py:118 | `random.sample(pool, k)` returns k elements |
| Random.SampleWithinPopulation | yiliao/generate_standard_dataset.py:118 | the sample is a sub-multiset of the pool |
| Random.SampleMember | yiliao/generate_standard_dataset.py:118 | every value is sampled at most as often as the pool holds it |
| Random.SampleUpTo | yiliao/generate_standard_dataset.py:117-120 | three wrong options when there are at least three candidates, otherwise all of them |
| Random.SampleUpToWithin | yiliao/generate_standard_dataset.py:117-120 | the wrong options are taken from the candidates without repetition beyond them |
| Random.ShuffledPick | yiliao/generate_standard_dataset.py:117-123 | the shuffled options hold the correct answer exactly once, and only candidates besides it |
| Records.QueryKeyIsStripped | yiliao/prepare_step3_final.py:100-102 | a key built from stripped names survives the reader's `.strip()` unchanged |
| Records.QueryKeyInjective | yiliao/prepare_step3_final.py:102 | when table names contain no ';', different (table, column) pairs get different keys |
| Records.QueryKeyCollision | convert_data.py:67 | a table name containing `; colname:` makes two different rows share one key |
| Records.FlatMapMember | convert_data.py:57-103 | an output record comes from some input row, and every record of every row is output |
| Records.FlatMapConcat | yiliao/prepare_step3_final.py:89-141 | processing two runs of rows one after the other appends their outputs |
| Records.SampleToJson | yiliao/prepare_step3_final.py:126-141 | a sample is written with keys system, query, response, and type only when it has one, and the object reads back as the same sample |
| Text.Strip | yiliao/clean_step2_result.py:20 | `strip` leaves no surrounding whitespace |
| Text.StripIdempotent | yiliao/clean_step2_result.py:20 | stripping twice is stripping once |
| Text.StripCutsSpace | yiliao/clean_step2_result.py:20 | the stripped text is a contiguous part of the input |
| Text.StripCore | yiliao/prepare_step1_dataset.py:42 | whitespace around stripped text is exactly what `strip` removes |
| Text.StripEmptyIffAllSpace | convert_data.py:60-64 | a cell strips to "" if and only if it is all whitespace |
| Text.RemoveAll | yiliao/prepare_step3_final.py:57 | `replace(pat, "")` never lengthens the text |
| Text.RemoveAllWithoutPattern | yiliao/prepare_step3_final.py:57 | `replace` leaves text without the pattern unchanged |
| Text.RemoveCharGone | yiliao/prepare_step1_dataset.py:39 | removing a character removes every copy of it |
| Text.LowerIdempotent | yiliao/prepare_step1_dataset.py:45 | lower-casing twice is lower-casing once |
| Text.LowerKeepsLowercase | yiliao/prepare_step1_dataset.py:45 | text without capitals is left unchanged by `lower` |
| PrepareStep1.NullLiteralIgnoresCase | yiliao/prepare_step1_dataset.py:45 | the null-literal test gives the same answer for a text and its lower-cased form |
| Text.Split | yiliao/generate_standard_dataset.py:69 | `split` gives at least one part and no part contains the separator |
| Text.JoinSplit | yiliao/generate_standard_dataset.py:69-71 | joining the parts of a split with the separator gives the text back |
| Text.SplitJoin | yiliao/generate_standard_dataset.py:69-71 | splitting a join of parts without the separator gives the parts back |
| Text.JoinContainsParts | yiliao/generate_standard_dataset.py:101 | each child appears in the joined list |
| Text.Decimal | yiliao/generate_standard_dataset.py:148 | `f"{n}"` is a non-empty string of digits without leading zero |
| Text.DecimalRoundTrip | yiliao/generate_standard_dataset.py:148 | the decimal text reads back as the number |

## Left out

- File opening, reading and writing, `os.path.exists`, and console `print` output (including the sample printing at `yiliao/clean_step2_result.py:53-57`). A file that may be missing is an `Option` input, and the written records are the result.
- `detect_encoding`: which codec decodes a file depends on the bytes and Python's codecs. Rows arrive already decoded.
- `csv.DictReader` and `json.loads`/`json.dumps`: rows are column-to-text maps (a missing column reads as "") and JSON-lines files are sequences of `Blank`, `Malformed` or decoded lines. Short CSV rows, whose missing cells `DictReader` fills with `None`, are not modelled. Dictionary and JSON key order is not modelled: objects are maps.
- `yiliao/step2_predict_desc.py` is not part of this model. It runs a language model; its query reconstruction only duplicates the key format.
- Random.Below: Python's generator (Mersenne Twister) and `randbelow`'s rejection sampling are not modelled. `randbelow(n)` is `draws(k) % n` for an arbitrary stream, so the exact sequence of values a given seed produces is not captured. Every property is proved for all streams.
- Random.Sample: only the pool method of CPython's `random.sample` is modelled. The set-based method CPython uses for large populations draws differently, but it also returns k distinct positions of the population, and the model's properties do not depend on which positions.
- `int()` parsing of the target argument is left out. The target arrives as `Option<int>`, `None` standing for a string `int()` rejects.
- Text.Lower: folds ASCII letters only. Python's `lower()` folds all of Unicode, but no other character lower-cases into the letters of `null`, `nan` or `none`, so the null-literal test is the same.
- The `len(text) == 0` test at `yiliao/prepare_step1_dataset.py:56-57` is unreachable after the null-literal test at line 45 (which already catches ""), so it has no counterpart.
- The `is_predicted` flag at `yiliao/prepare_step3_final.py:108-113` is set but never read, so it is not modelled.
- The CSV input of `generate_step3_dataset` is opened without an existence check (`yiliao/prepare_step3_final.py:84`). A missing CSV raises, and the model takes the rows as given.
- The `iimport csv` at `yiliao/prepare_step3_final.py:1` is a syntax error that stops the file from loading. The model gives the logic of the rest of the file as written.
- PrepareStep3.GenerateStep3Dataset: an exception from `json.loads` on the standard file ends the run. The model returns `Err` naming the first malformed line instead of an exception traceback.
- The header check at `yiliao/prepare_step1_dataset.py:90-92` is not modelled. A CSV without a header row makes the script return without writing either file, while `PrepareStep1.ProcessCsv` on no rows finishes with two empty lists.
- `Head`, `Tail`, `DirEnd` and `JoinPath` follow POSIX paths (`posixpath`) only. On Windows `os.path` also splits at `\` and drive letters, which the model does not capture.
- The output paths of `convert_data.py`, `prepare_step1_dataset.py` and `prepare_step3_final.py` (fixed names or the input name plus a suffix) are not modelled. Only the path computed by `generate_standard_dataset.py` is.
