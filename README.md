# A Dafny model of the AI-exposure labour-market pipeline

The pipeline builds the panels used to study how exposure to generative AI relates to
employment across US industries, states and occupations. Batch scripts fetch Bureau of
Labor Statistics (BLS) series through the BLS public data API, clean the Occupational
Employment and Wage Statistics (OES) sheets, attach occupation-level scores, and derive the
analysis panels.

This project models the data-shaping logic of those scripts and proves what they promise.
That logic covers matching scores to occupations, weighting by employment, cleaning panels,
treatment flags, building series IDs, batching, and flattening API responses. Downloads,
file reading and writing, and printing are not modelled: their results are parameters.

Modules:

- `Optional`, `Text`, `Order`, `Dicts`, `RealSums`, `Batching`: shared vocabulary.
  - Missing values and crashes.
  - Python's string operations on ASCII.
  - The orderings that pandas' `sort_values`, `groupby` and outer `merge` impose, with a sort
    proved to return an ordered permutation.
  - Dictionaries filled key by key, where the last assignment wins.
  - Sums and means over reals.
  - Splitting an ID list into request batches.
- `BlsApi`: the API response, the series metadata, and the flattening of a response into one
  row per data point.
- `BlsFetch`: `scripts/fetch_bls_data.py`.
- `StateControls`: `scripts/fetch_state_controls.py`.
- `RemainingSeries`: `scripts/archive/fetch_remaining_data.py`.
- `InformationSeries`: `scripts/archive/fetch_information_industry.py`.
- `AiExposure`: `scripts/update_ai_exposure_scores.py`.
- `ScoreMerge`: `scripts/merge_occupation_scores.py`.
- `OesWeighting`: `scripts/fetch_occupation_data.py`.
- `CompositionScores`: `scripts/archive/generate_occupation_weighted_scores.py`.
- `TeleworkAutomation`: `scripts/fetch_telework_automation_data.py`.
- `OccupationPanel`: `scripts/build_occupation_panel.py`.
- `AnalysisDataset`: `scripts/build_analysis_dataset.py`.

Each script's imperative code keeps its form:
- Loops that append to lists, fill dictionaries or run request batches are methods with loop
  invariants.
- Each such method is proved equal to a specification function.
- The properties of those functions are proved as lemmas.

Table operations (filters, group-bys, merges, column rules) are functions over lists of rows.
A Python float is a `real`. A NaN, a `None` or an absent key is `None`. An uncaught exception
is `Crash`.

## Model

| member | source | states |
|---|---|---|
| AiExposure.NormalizeCrosswalkRow | scripts/update_ai_exposure_scores.py:476-480 | the ISCO code is left-padded with '0' to four characters and kept as it is when it already has four or more; the SOC code is stripped, and a missing SOC code stays missing |
| AiExposure.LoadCrosswalk | scripts/update_ai_exposure_scores.py:466-483 | the loaded crosswalk has one normalised row per raw row, in the same order |
| AiExposure.LoadCrosswalkIdempotent | scripts/update_ai_exposure_scores.py:476-480 | normalising a normalised crosswalk changes nothing |
| AiExposure.ScoresForMembers | scripts/update_ai_exposure_scores.py:491-498 | a SOC code has some ILO score exactly when one of its rows has an ISCO code in the ILO table, and every score it has comes from such a row |
| AiExposure.ScoresForPermutation | scripts/update_ai_exposure_scores.py:495-498 | reordering the crosswalk only reorders the scores grouped under each SOC code |
| AiExposure.ScoresForRemoveAt | scripts/update_ai_exposure_scores.py:495-498 | removing one crosswalk row removes exactly its own score from its group |
| AiExposure.SocScoresDomain | scripts/update_ai_exposure_scores.py:491-503 | a SOC code keeps a score exactly when one of its rows has a scored ISCO code; a code without one is dropped, never given 0 |
| AiExposure.SocScoreBounds | scripts/update_ai_exposure_scores.py:495-503 | a SOC code's mean lies within any bounds of the ILO scores that contribute to it |
| AiExposure.SocScoresOrderFree | scripts/update_ai_exposure_scores.py:495-498 | the SOC scores do not depend on the order of the crosswalk rows |
| AiExposure.CodeMatched | scripts/update_ai_exposure_scores.py:528-534 | step 1 replaces every row's score by the score of the first seven characters of its code, or leaves it missing when the code is missing or that prefix has none |
| AiExposure.ScoredPairs | scripts/update_ai_exposure_scores.py:545 | the (name, score) pairs are exactly those of the rows with a score |
| AiExposure.CodeScore | scripts/update_ai_exposure_scores.py:528-534 | a row has a code score exactly when it has a code whose seven-character prefix is in the SOC table, and then it is that entry |
| AiExposure.NameDictSound | scripts/update_ai_exposure_scores.py:545-546 | the name dictionary holds exactly the names of the scored rows (a missing name included, as one key), each with one of that name's scores, and a name with a single score keeps it |
| AiExposure.NameDictPrecedence | scripts/update_ai_exposure_scores.py:545-546 | where a name carries several scores, the one kept is the (name, score) pair whose first appearance comes latest: every pair of that name appears no later than any occurrence of the kept one |
| AiExposure.LatestFirstAppearanceWins | scripts/update_ai_exposure_scores.py:545-546 | `to_dict` after `drop_duplicates` keeps, for a key, the pair whose first appearance is latest |
| AiExposure.KeptPairLatest | scripts/update_ai_exposure_scores.py:545-546 | the same precedence, from the facts that de-duplication keeps every element and the order of first appearance |
| AiExposure.NameFilled | scripts/update_ai_exposure_scores.py:555-557 | step 3 keeps every row, and a row that already has a score keeps it |
| AiExposure.UpdatedPanel | scripts/update_ai_exposure_scores.py:528-563 | the updated panel keeps codes, names and years; a row with a code whose prefix has a score gets that score (the name fallback never overwrites it); any other row, including one without a code, gets its name's score from the code-matched rows, or stays missing |
| AiExposure.NameFillFromMatchedRow | scripts/update_ai_exposure_scores.py:545-557 | a score filled in by name is the code score of some code-matched row with the same name |
| AiExposure.FillAddsScores | scripts/update_ai_exposure_scores.py:556-559 | filling by name never loses a score, so `matched_by_name` is never negative |
| AiExposure.MatchOnCode | scripts/update_ai_exposure_scores.py:528-536 | step 1 as a loop: the code-matched panel and `matched_soc`, the number of its scored rows |
| AiExposure.FillByName | scripts/update_ai_exposure_scores.py:555-559 | step 3 as a loop: the name-filled panel and the number of its scored rows |
| AiExposure.UpdateOccupationPanel | scripts/update_ai_exposure_scores.py:511-574 | the saved panel is the updated panel with the same number of rows; `matched_soc` counts the code matches, `matched_by_name` the rows added by name, and matched plus unmatched rows are all the rows |
| Batching.BatchSize | scripts/fetch_state_controls.py:147-148 | a request batch holds 50 series IDs when an API key is set and 25 otherwise |
| Batching.BatchEnd | scripts/fetch_state_controls.py:153-154 | the slice `ids[i:i + size]` ends after `i`, within the list, at most `size` later, and exactly `size` later unless it reaches the end |
| Batching.BatchesFrom | scripts/fetch_state_controls.py:153-154 | batching from position `i` yields the slice at `i` followed by the batches of what comes after it |
| Batching.BatchStep | scripts/archive/fetch_remaining_data.py:206-207 | one turn of the batch loop keeps "batches taken so far, then batches still to come" equal to all the batches |
| Batching.FlattenConcat | scripts/fetch_state_controls.py:153-154 | concatenating the contents of two runs of batches is the concatenation of their contents |
| Batching.BatchesCover | scripts/fetch_state_controls.py:153-154 | the batches, laid end to end, are exactly the ID list: every ID is requested once, in order |
| Batching.BatchesSized | scripts/fetch_state_controls.py:153-154 | every batch is non-empty and at most `size` long, and every batch but the last is full |
| Batching.BatchesCount | scripts/fetch_state_controls.py:155-156 | the number of batches is the ceiling of `len(ids) / size` (the `total_batches` the loop reports); no IDs means no batches |
| BlsApi.SeriesList | scripts/archive/fetch_remaining_data.py:155 | a body without `Results`, or a `Results` without `series`, yields no series |
| BlsApi.MetaDictSpec | scripts/archive/fetch_remaining_data.py:186 | every defined series ID is a key of the metadata dictionary, every key maps to one of its own definitions, and an ID defined once maps to that definition |
| BlsApi.FootnoteTexts | scripts/archive/fetch_remaining_data.py:176 | only truthy footnotes contribute a text, so a list of empty footnote objects yields none |
| BlsApi.FootnoteTextSingle | scripts/archive/fetch_remaining_data.py:176 | when exactly one footnote is truthy, the joined footnote cell is its text (or `''` without a `text` key), with no separator |
| BlsApi.FootnoteTextsSingle | scripts/archive/fetch_remaining_data.py:176 | when exactly one footnote is truthy, the texts collected are that footnote's alone |
| BlsApi.FlatRowsCount | scripts/archive/fetch_remaining_data.py:156-177 | flattening yields exactly one row per data point of the returned series; a series without data contributes nothing |
| BlsApi.FlatRowsMetadata | scripts/archive/fetch_remaining_data.py:157-171 | every row carries the state, industry, metric, source and unit of its series' definition, `Unknown` for a series ID without one (and for a definition without a state), and no state in the national rows |
| BlsApi.FlatRowsStep | scripts/archive/fetch_remaining_data.py:156-158 | the rows of the first k+1 series are those of the first k followed by the rows of series k |
| BlsApi.SeriesRowsStep | scripts/archive/fetch_remaining_data.py:164-177 | the rows of the first j+1 points of a series are those of the first j followed by the row of point j |
| BlsApi.FlattenSeries | scripts/archive/fetch_remaining_data.py:156-177 | the nested loop appends exactly the flattened rows, series by series and point by point |
| BlsApi.ProcessData | scripts/archive/fetch_remaining_data.py:147-178 | no rows for a failed request or an empty body; otherwise every data point of every returned series, even when the status is not REQUEST_SUCCEEDED (that is only reported) |
| BlsApi.BatchRowsAppend | scripts/archive/fetch_remaining_data.py:209-212 | the rows of the batches plus one more are the earlier rows followed by that batch's processed rows |
| BlsApi.FetchInBatches | scripts/archive/fetch_remaining_data.py:206-212 | the loop requests exactly the consecutive `BATCH_SIZE` slices of the missing IDs, which together cover them once in order, and collects each batch's processed rows in batch order |
| BlsFetch.StrictRowsAsWritten | scripts/fetch_bls_data.py:82-86 | as written, a failed request (`None`) makes the error report raise, while a response with any other status yields no rows |
| BlsFetch.StrictRows | scripts/fetch_bls_data.py:82-105 | no rows for a failed request or a status other than REQUEST_SUCCEEDED; otherwise one row per data point, and no row has a state |
| BlsFetch.StrictRowsAgree | scripts/fetch_bls_data.py:82-86 | wherever the request did not fail, the code as written and the corrected guard return the same rows |
| BlsFetch.FailedRequestCrashes | scripts/fetch_bls_data.py:84-86 | a failed request crashes the code as written, while the corrected guard yields no rows |
| BlsFetch.ProcessData | scripts/fetch_bls_data.py:82-105 | the strict flattening with the corrected guard |
| BlsFetch.Run | scripts/fetch_bls_data.py:120-139 | "No data to save" exactly when there are no rows; otherwise the saved rows are sorted by (Industry, Metric, Year, Period) and are a permutation of the flattened rows |
| CompositionScores.GetOrZeroSpec | scripts/archive/generate_occupation_weighted_scores.py:269 | `d.get(k, 0)` is 0 for a key the dict lacks and otherwise the value stored under that key |
| CompositionScores.ExtraShareIgnored | scripts/archive/generate_occupation_weighted_scores.py:269-270 | a composition entry for a group the score table does not list changes no measure |
| CompositionScores.AbsentOccupationContributesZero | scripts/archive/generate_occupation_weighted_scores.py:269-270 | a score-table group missing from the industry's composition adds nothing to the sum |
| CompositionScores.WeightedOverAppend | scripts/archive/generate_occupation_weighted_scores.py:269-270 | adding one composition entry adds its share times its score, once for each time the score table lists its group |
| CompositionScores.EmptySharesZero | scripts/archive/generate_occupation_weighted_scores.py:269-270 | an industry with an empty composition scores 0 on every measure |
| CompositionScores.WeightedScoreBounds | scripts/archive/generate_occupation_weighted_scores.py:269-278 | with no renormalisation, a measure built from non-negative shares and scores in [0, 1] lies between 0 and the sum of the industry's shares |
| CompositionScores.ScoresOf | scripts/archive/generate_occupation_weighted_scores.py:266-284 | an output row names its industry and holds one measure per score table, in table order, each computed by the same share-times-score sum |
| CompositionScores.CalculateIndustryScores | scripts/archive/generate_occupation_weighted_scores.py:261-288 | one output row per industry of the composition table, in table order |
| InformationSeries.StateInformationDefs | scripts/archive/fetch_information_industry.py:96-105 | one state-level CES definition per state, in state-table order, each built from the Information industry and the All Employees metric |
| InformationSeries.InformationDefsFor | scripts/archive/fetch_information_industry.py:68-107 | for any state table: the national CES series, then the JOLTS job-openings and hires series, then one `SMS` + FIPS + `00000` + `50000000` + `01` series per state carrying that state's name |
| InformationSeries.NationalInformationIds | scripts/archive/fetch_information_industry.py:72-93 | the national part is three series with the IDs CES5000000001, JTS51000000000000JOL and JTS51000000000000HIL |
| InformationSeries.InformationDefsShape | scripts/archive/fetch_information_industry.py:40-107 | with the 51-entry state table there are 54 definitions in the layout above |
| InformationSeries.GenerateFor | scripts/archive/fetch_information_industry.py:68-107 | the appending loops produce exactly that list of definitions for a state table |
| InformationSeries.GenerateInformationSeries | scripts/archive/fetch_information_industry.py:68-107 | `generate_information_series` produces the definitions for the fixed state table |
| InformationSeries.FetchInformation | scripts/archive/fetch_information_industry.py:167-190 | every defined ID is requested once, in order, in batches of 50 with an API key and 25 without, and the processed rows of all batches are collected in batch order |
| RemainingSeries.CesDef | scripts/archive/fetch_remaining_data.py:70-79 | a national CES definition has an ID starting with `CES`, source CES and state `Total`; with an 8-character industry code and a 2-character metric code the ID is 13 characters long |
| RemainingSeries.JoltsDef | scripts/archive/fetch_remaining_data.py:82-91 | a national JOLTS definition has an ID starting with `JTS`, source JOLTS, state `Total` and the JOLTS name of the industry; with a 6-character industry code and a 3-character metric code the ID is 20 characters long |
| RemainingSeries.StateDef | scripts/archive/fetch_remaining_data.py:96-105 | a state definition has an ID starting with `SMS`, source CES and the state's name; with a 2-digit FIPS code it is 20 characters long |
| RemainingSeries.NationalDefsCount | scripts/archive/fetch_remaining_data.py:68-91 | each industry contributes five national definitions (three CES and two JOLTS metrics) |
| RemainingSeries.StateBlockCount | scripts/archive/fetch_remaining_data.py:95-105 | each state contributes three CES definitions per industry |
| RemainingSeries.StateDefsCount | scripts/archive/fetch_remaining_data.py:94-105 | the state part has states times industries times three definitions |
| RemainingSeries.SeriesDefCount | scripts/archive/fetch_remaining_data.py:29-107 | with five industries and 51 states there are 790 definitions |
| RemainingSeries.NationalDefsShape | scripts/archive/fetch_remaining_data.py:68-91 | every national definition is the CES or JOLTS definition of a configured industry and metric |
| RemainingSeries.StateBlockShape | scripts/archive/fetch_remaining_data.py:95-105 | every definition of a state's block is the CES definition of that state, a configured industry and a CES metric |
| RemainingSeries.StateDefsShape | scripts/archive/fetch_remaining_data.py:94-105 | every state definition is the CES definition of a listed state, a configured industry and a CES metric |
| RemainingSeries.AppendNational | scripts/archive/fetch_remaining_data.py:68-91 | the national loops append exactly the national definitions, industry by industry, CES metrics before JOLTS metrics |
| RemainingSeries.AppendStateBlock | scripts/archive/fetch_remaining_data.py:95-105 | the inner loops append exactly one state's block |
| RemainingSeries.AppendStates | scripts/archive/fetch_remaining_data.py:94-105 | the state loop appends the state definitions, state by state, after what is already there |
| RemainingSeries.GenerateSeriesDef | scripts/archive/fetch_remaining_data.py:64-107 | `generate_series_def` returns the national definitions followed by the state definitions |
| RemainingSeries.MissingIds | scripts/archive/fetch_remaining_data.py:190 | an ID is missing exactly when it is defined and not already in the data file, and each missing ID keeps the number of times it is defined |
| RemainingSeries.MissingIdsConcat | scripts/archive/fetch_remaining_data.py:190 | the missing-ID filter keeps the order of the definitions |
| RemainingSeries.DefIds | scripts/archive/fetch_remaining_data.py:189 | the ID list has one entry per definition, in order |
| RemainingSeries.FetchMissing | scripts/archive/fetch_remaining_data.py:180-212 | nothing is requested when no ID is missing; otherwise exactly the missing IDs are requested, once each, in consecutive batches, and the rows of every batch are collected in order |
| StateControls.SeriesId | scripts/fetch_state_controls.py:85 | a LAUS ID starts with `LASST`, then the FIPS code, and ends with the measure's suffix, with eleven zeros between them |
| StateControls.SeriesIdInjective | scripts/fetch_state_controls.py:85 | with 2-character FIPS codes and suffixes an ID is 20 characters long and determines both codes |
| StateControls.StateEntries | scripts/fetch_state_controls.py:84-86 | one state's entries are one per measure, in the order of `SERIES_SUFFIXES`, each keyed by (state, variable) with its ID |
| StateControls.EntriesShape | scripts/fetch_state_controls.py:83-86 | there is one entry per (state, variable) pair, and each is the ID of some state and some measure of the tables |
| StateControls.EntryCount | scripts/fetch_state_controls.py:44-88 | the 52 FIPS entries and 4 suffixes give 208 IDs |
| StateControls.IdsDetermineKeys | scripts/fetch_state_controls.py:83-86 | two entries with the same ID are the same entry, provided the FIPS codes and the suffixes are distinct 2-character codes |
| StateControls.BuildSeriesIds | scripts/fetch_state_controls.py:70-88 | `build_series_ids` yields the entries of the fixed tables, state by state and measure by measure |
| StateControls.BuildEntries | scripts/fetch_state_controls.py:83-86 | the nested loop yields exactly the entries of the given tables |
| StateControls.ParsePoint | scripts/fetch_state_controls.py:175-205 | a year that is not an integer raises; a non-monthly period is skipped; a record is produced only for a monthly period with month 1-12 and a value that is present, not `''` or `'-'`, and parses as a float, and it carries the entry's state, variable and ID; a monthly point with a missing or unparsable value is skipped |
| StateControls.ThenAssociative | scripts/fetch_state_controls.py:150-205 | combining step outcomes, where the first crash wins, is associative |
| StateControls.AllRecordsSplit | scripts/fetch_state_controls.py:153-205 | processing a list of batches is processing its two halves one after the other |
| StateControls.FailedBatchSkipped | scripts/fetch_state_controls.py:162-164 | a batch whose request fails contributes nothing, and the batches after it still run |
| StateControls.CrashPersists | scripts/fetch_state_controls.py:175-195 | once a data point has raised, later batches do not change the outcome |
| StateControls.BatchRecordsStep | scripts/fetch_state_controls.py:167-173 | an entry whose ID is absent from the results or has no data points adds nothing; any other adds the records of its points |
| StateControls.ParsePoints | scripts/fetch_state_controls.py:175-205 | the loop over one series' points yields its records in order, or the first point's crash |
| StateControls.ParseBatch | scripts/fetch_state_controls.py:167-205 | the loop over one batch's results yields the records of every entry with data, in mapping order |
| StateControls.FetchInBatches | scripts/fetch_state_controls.py:150-205 | the IDs are requested in consecutive batches of the given size, and the records of all batches are collected in batch order; when a data point raises, the batches requested are a prefix of the batches ending with the one that raised, and later batches are never requested |
| StateControls.FetchAllStates | scripts/fetch_state_controls.py:133-205 | `fetch_all_states` requests the 208 IDs in batches of 50 with an API key and 25 without, all of them unless a data point raises first |
| StateControls.EntryIds | scripts/fetch_state_controls.py:142 | the ID list has one ID per entry, in the mapping's order |
| StateControls.Lfpr | scripts/fetch_state_controls.py:250 | the rate is present exactly when labour force and a non-zero population are, and then rate times population equals labour force times 100 |
| StateControls.LfprBounds | scripts/fetch_state_controls.py:250 | a labour force between zero and a positive population gives a rate between 0 and 100 |
| StateControls.ReshapeAndCalculateSpec | scripts/fetch_state_controls.py:239-281 | the LFPR column exists exactly when both the labour-force and the population columns do; the table is a permutation of the wide rows, sorted by (date, state), and each row's LFPR is its own rate |
| StateControls.LfprRowFacts | scripts/fetch_state_controls.py:249-254 | a row carries a rate only when the LFPR column exists, and then the rate is that of its own inputs |
| OccupationPanel.FirstRuleSpec | scripts/build_occupation_panel.py:144-167 | a lower-cased, stripped header maps to the canonical name of the first branch whose list contains it, and to nothing when no branch lists it |
| OccupationPanel.ColMappingKeys | scripts/build_occupation_panel.py:144-167 | the mapped canonical names are exactly those some column of the sheet is classified under |
| OccupationPanel.ColMappingLast | scripts/build_occupation_panel.py:144-167 | each canonical name maps to the last column classified under it (a later column overwrites an earlier one) |
| OccupationPanel.ColMappingStep | scripts/build_occupation_panel.py:144-167 | one turn of the header loop: the current column sets its own canonical name and leaves every other name as it was |
| OccupationPanel.KeyOrderSpec | scripts/build_occupation_panel.py:169-180 | the key order lists each mapped canonical name exactly once |
| OccupationPanel.BuildColMapping | scripts/build_occupation_panel.py:141-169 | the header loop builds exactly the column mapping and its key order |
| OccupationPanel.ParseWithSpec | scripts/build_occupation_panel.py:171-186 | standardising keeps the row count; with no mapped column every row comes back whole with `Year` set; otherwise the columns are exactly the mapped names and `Year`, each holding the raw row's cell of its mapped column |
| OccupationPanel.ParseWithMapped | scripts/build_occupation_panel.py:176-181 | the mapped case of the above: renamed columns carry the cells of their raw columns, and `Year` is kept |
| OccupationPanel.RenamedCells | scripts/build_occupation_panel.py:177 | a renamed row holds, under each mapped name, the cell of its raw column, and keeps its own `Year` |
| OccupationPanel.NeverYear | scripts/build_occupation_panel.py:144-167 | no header rule produces the name `Year` |
| OccupationPanel.ParseOesSpec | scripts/build_occupation_panel.py:112-186 | `parse_oes_dataframe` keeps the row count and the `Year` of every row; with nothing mapped it only sets `Year` |
| OccupationPanel.PostFlag | scripts/build_occupation_panel.py:314 | `Post` is 0 or 1, and 1 exactly for integer years from 2023 on |
| OccupationPanel.KeepSpec | scripts/build_occupation_panel.py:269-281 | one row survives both filters exactly when its employment coerces to a positive number and, when the panel has occupation codes, its code as text does not end in `0000`; it then holds the coerced employment |
| OccupationPanel.CleanAndFilterSpec | scripts/build_occupation_panel.py:245-292 | cleaning raises exactly when there is no `Employment` column; otherwise it only removes rows, keeps the survivors in order, keeps every surviving row, and each holds its coerced employment and the log of it |
| OccupationPanel.FilteredAsOneStep | scripts/build_occupation_panel.py:269-281 | with an `Employment` column, the employment filter followed by the aggregate filter is the single combined step |
| OccupationPanel.AddTreatmentVariables | scripts/build_occupation_panel.py:295-322 | every row keeps its cells and gets `Post`, computed from its own `Year` |
| Text.Lower | scripts/build_occupation_panel.py:145 | `lower()` keeps the length and lower-cases each ASCII letter, leaving every other character alone |
| Text.Strip | scripts/update_ai_exposure_scores.py:477 | `strip()` yields a contiguous slice with no whitespace at either end, and only whitespace is dropped on either side |
| Text.StripOfStripped | scripts/update_ai_exposure_scores.py:477 | a string without whitespace at either end is its own strip |
| Text.StripIdempotent | scripts/update_ai_exposure_scores.py:477 | stripping twice is stripping once |
| Text.Take | scripts/update_ai_exposure_scores.py:528 | `s[:n]` is the first `n` characters, or the whole string when it is shorter |
| Text.ZFill | scripts/update_ai_exposure_scores.py:480 | `zfill(width)` left-pads with '0' up to `width`, after a leading sign, and leaves a string already that wide unchanged |
| Text.ZFillDigits | scripts/update_ai_exposure_scores.py:480 | padding a digit code keeps it a digit code with the same value, at least `width` long, and padding twice is padding once |
| Text.ParseNat | scripts/fetch_state_controls.py:176 | `int()` of an unsigned decimal literal succeeds exactly on a non-empty string of digits, with its decimal value |
| Text.LeadingZeros | scripts/update_ai_exposure_scores.py:480 | leading zeros do not change the value of a digit string |
| Text.RemoveAll | scripts/build_analysis_dataset.py:135 | removing a character leaves no occurrence of it, and changes nothing in a string without one |
| Order.StrLeTotal | scripts/fetch_bls_data.py:123 | Python's string comparison is total |
| Order.StrLeAntisymmetric | scripts/fetch_bls_data.py:123 | two strings each at most the other are equal |
| Order.KeyLeTotal | scripts/fetch_bls_data.py:123 | the lexicographic order on sort keys is total |
| Order.SortBy | scripts/fetch_bls_data.py:123 | sorting yields the same rows, as a multiset, in non-decreasing key order |
| Order.Dedup | scripts/update_ai_exposure_scores.py:545 | `drop_duplicates` keeps every distinct element, once |
| Order.DedupOrder | scripts/update_ai_exposure_scores.py:545 | `drop_duplicates` keeps first occurrences in their original order: an element earlier in the result appears in the input before every occurrence of a later one |
| Order.DedupOfDistinct | scripts/update_ai_exposure_scores.py:545 | a list without repetitions is its own de-duplication |
| Order.DistinctPermutation | scripts/fetch_telework_automation_data.py:258-261 | reordering a list without repetitions leaves none |
| RealSums.SumPermutation | scripts/fetch_occupation_data.py:459-462 | a sum does not depend on the order of its terms |
| RealSums.SumBounds | scripts/update_ai_exposure_scores.py:496 | a sum of `n` terms in `[lo, hi]` lies between `n * lo` and `n * hi` |
| RealSums.MeanBounds | scripts/update_ai_exposure_scores.py:496 | a mean lies within any bounds of its terms |
| RealSums.MeanPermutation | scripts/update_ai_exposure_scores.py:495-498 | a mean does not depend on the order of its terms |
| RealSums.SumScaled | scripts/fetch_occupation_data.py:480 | dividing every term by the same non-zero total divides the sum by it |
| Optional.Get | scripts/fetch_bls_data.py:89 | `d.get(k)` is present exactly for a key of the dict, with its value |
| Optional.FilterMapMembers | scripts/build_occupation_panel.py:274-281 | a value is kept exactly when some input row maps to it |
| Optional.FilterMapFirst | scripts/fetch_telework_automation_data.py:260 | the first value kept comes from the first row the step keeps |
| Optional.FilterMapEmpty | scripts/fetch_telework_automation_data.py:260 | nothing is kept only when the step drops every row |
| Optional.FilterMapConcat | scripts/build_occupation_panel.py:274-281 | a row-wise filter commutes with concatenation |
| Optional.FilterMapThen | scripts/build_occupation_panel.py:274-281 | two row-wise filters in a row are one filter that applies both |
| Optional.FilterMapIndices | scripts/build_occupation_panel.py:274-281 | a filter only removes rows, keeping the survivors in order, and keeps every row it accepts |
| Dicts.LastWinsSpec | scripts/merge_occupation_scores.py:180-188 | a dict filled by assignments holds exactly the assigned keys, each with one of its assigned values, and the last assignment to a key stays |
| Dicts.LastWinsLast | scripts/update_ai_exposure_scores.py:546 | a key's value in the dict comes from the last pair assigned to that key, which no later pair's key repeats |
| Dicts.LastWinsConcat | scripts/merge_occupation_scores.py:180-188 | the assignments of a later block override those of an earlier one |
| Dicts.KeyedPairsComplete | scripts/merge_occupation_scores.py:183-187 | every item listed under every owner is assigned to that owner |
| Dicts.KeyedPairsSound | scripts/merge_occupation_scores.py:183-187 | every assignment is that of an item listed under its owner |
| Dicts.KeyedPairsConcat | scripts/merge_occupation_scores.py:183-187 | the assignments of two tables one after the other are those of the joined table |
| OesWeighting.FirstContaining | scripts/fetch_occupation_data.py:406-409 | the column found is the first header containing either substring, and none is found only when no header contains either |
| OesWeighting.FindColumns | scripts/fetch_occupation_data.py:406-414 | the four columns are found exactly when each search finds a header, and then they are the first matching headers |
| OesWeighting.CleanRowSpec | scripts/fetch_occupation_data.py:417-430 | a row survives exactly when its SOC and employment cells are present and the employment reads as a positive number; it keeps the year, state and SOC code, its major group is the first two characters of the code, and its NAICS code is stripped (`nan` when empty) |
| OesWeighting.ParseOes | scripts/fetch_occupation_data.py:400-433 | a sheet missing any of the four columns gives an empty table; otherwise only rows are dropped, and every kept row has the sheet's year, a positive employment, its major group and a stripped NAICS code |
| OesWeighting.ToIndustryRowsSpec | scripts/fetch_occupation_data.py:455-459 | exactly the rows whose NAICS code is a key of the industry table (and whose state is present) reach the aggregation, each with its industry, and employment stays positive |
| OesWeighting.Keys | scripts/fetch_occupation_data.py:472 | one group key per row |
| OesWeighting.GroupKeys | scripts/fetch_occupation_data.py:472 | the groups are the distinct (Year, State, Industry) keys of the rows, each once, in key order |
| OesWeighting.GroupOf | scripts/fetch_occupation_data.py:472 | a group holds exactly the rows with its key |
| OesWeighting.MajorEmployments | scripts/fetch_occupation_data.py:459 | one summed employment per SOC major group of the group |
| OesWeighting.RowEmploymentPositive | scripts/fetch_occupation_data.py:462 | a non-empty group of positive rows has a positive total employment |
| OesWeighting.TotalIsRowSum | scripts/fetch_occupation_data.py:459-463 | summing per major group and then over the major groups gives the plain sum of the group's rows |
| OesWeighting.TotalStep | scripts/fetch_occupation_data.py:459-463 | adding a row adds its employment to the group total |
| OesWeighting.MajorEmploymentNonNegative | scripts/fetch_occupation_data.py:459 | a major group's summed employment is never negative |
| OesWeighting.Shares | scripts/fetch_occupation_data.py:466-467 | each major group's share is its employment over the group total, which is positive |
| OesWeighting.SharesSumToOne | scripts/fetch_occupation_data.py:466-467 | the shares of a group are non-negative and sum to 1 |
| OesWeighting.MeasureBounds | scripts/fetch_occupation_data.py:477-480 | with scores in `[lo, hi]`, a measure lies between `lo` and `hi` times the share of employment that has a score (unscored major groups are skipped by the sum, not renormalised away) |
| OesWeighting.ScoredShareBounds | scripts/fetch_occupation_data.py:477-480 | the scored share is at most the whole group, and is all of it when every major group has a score |
| OesWeighting.GroupMeasureBounds | scripts/fetch_occupation_data.py:466-481 | scores in `[0, 1]` give a measure in `[0, 1]`; when every major group of the group has a score in `[lo, hi]`, the measure lies in `[lo, hi]` |
| OesWeighting.SharedMeasureBounds | scripts/fetch_occupation_data.py:477-480 | the same bounds for any non-negative shares that sum to 1 |
| OesWeighting.GroupFacts | scripts/fetch_occupation_data.py:472 | every group key has a non-empty group of positive rows |
| OesWeighting.IndustryScores | scripts/fetch_occupation_data.py:472-486 | one output row per distinct (Year, State, Industry), in key order, with one measure per score table and the group's employment as its total |
| OesWeighting.IndustryScoresBounds | scripts/fetch_occupation_data.py:472-486 | every measure of every output row obeys the bounds above |
| OesWeighting.GroupKeysOfRows | scripts/fetch_occupation_data.py:472 | every group key is the key of some row |
| OesWeighting.GroupKeyIn | scripts/fetch_occupation_data.py:472 | each listed group key is one of the rows' keys |
| OesWeighting.ToIndustryRowsPositive | scripts/fetch_occupation_data.py:455-459 | mapping rows to industries keeps every employment positive |
| OesWeighting.ScoreGroup | scripts/fetch_occupation_data.py:473-486 | the body of the group loop computes that group's row |
| OesWeighting.ScoreGroups | scripts/fetch_occupation_data.py:470-486 | the group loop computes the output rows, one per group in key order |
| OesWeighting.ScoreKeys | scripts/fetch_occupation_data.py:472-486 | the loop over a list of group keys computes their rows in that order |
| OesWeighting.CalculateIndustryExposureScores | scripts/fetch_occupation_data.py:440-504 | `calculate_industry_exposure_scores` maps rows to industries and computes the per-group rows; when no row maps to an industry, the summary's `result_df['Year']` raises `KeyError` |
| OesWeighting.NoGroupsNoRows | scripts/fetch_occupation_data.py:471 | the group loop has no group exactly when there are no rows |
| TeleworkAutomation.SocCodes | scripts/fetch_telework_automation_data.py:255 | one base SOC code, the first seven characters of the O*NET code, per row |
| TeleworkAutomation.GroupCodes | scripts/fetch_telework_automation_data.py:258 | the groups are the distinct SOC codes, each once, in sorted order |
| TeleworkAutomation.Threshold | scripts/fetch_telework_automation_data.py:264 | the flag is 0 or 1, and 1 exactly when the mean is at least 0.5 |
| TeleworkAutomation.GroupFlagsMembers | scripts/fetch_telework_automation_data.py:258-259 | a group's flags are exactly those of the O*NET rows with its SOC code |
| TeleworkAutomation.GroupFlagsNonEmpty | scripts/fetch_telework_automation_data.py:258-259 | every SOC code that occurs has at least one flag to average |
| TeleworkAutomation.AggregateSpec | scripts/fetch_telework_automation_data.py:255-264 | one row per distinct SOC code, in sorted code order, with the group's first title and a binary flag that is 1 exactly when the group's mean flag is at least 0.5 |
| TeleworkAutomation.AggregateCodes | scripts/fetch_telework_automation_data.py:258-261 | the aggregated table holds each SOC code that occurs exactly once, in sorted order |
| TeleworkAutomation.AggregateRows | scripts/fetch_telework_automation_data.py:258-264 | each aggregated row has its group's first title and the thresholded mean flag |
| TeleworkAutomation.UnanimousGroup | scripts/fetch_telework_automation_data.py:258-264 | a group whose O*NET rows agree keeps their verdict |
| TeleworkAutomation.FirstTitleSpec | scripts/fetch_telework_automation_data.py:260 | the group's title is that of its first row with a title, and is missing only when no row of the group has one |
| TeleworkAutomation.FetchTelework | scripts/fetch_telework_automation_data.py:228-272 | no table when the download or parse raised; otherwise the aggregated table |
| TeleworkAutomation.FreyOsborne | scripts/fetch_telework_automation_data.py:275-300 | one row per item of the automation dict, in its order, with its code and probability |
| TeleworkAutomation.TelePairs | scripts/fetch_telework_automation_data.py:323-327 | the telework table keyed by SOC code, row by row |
| TeleworkAutomation.FreyPairs | scripts/fetch_telework_automation_data.py:323-327 | the automation table keyed by SOC code, row by row |
| TeleworkAutomation.TeleSocs | scripts/fetch_telework_automation_data.py:323-327 | the codes of the telework table, in order |
| TeleworkAutomation.FreySocs | scripts/fetch_telework_automation_data.py:323-327 | the codes of the automation table, in order |
| TeleworkAutomation.TeleLookup | scripts/fetch_telework_automation_data.py:323-327 | with unique codes, a code's telework entry is its own row, present exactly for the table's codes |
| TeleworkAutomation.FreyLookup | scripts/fetch_telework_automation_data.py:323-327 | with unique codes, a code's automation entry is its own probability, present exactly for the table's codes |
| TeleworkAutomation.OuterMergeCodes | scripts/fetch_telework_automation_data.py:323-327 | the outer merge keeps every code of either table exactly once, in sorted order |
| TeleworkAutomation.OuterMergeScores | scripts/fetch_telework_automation_data.py:323-334 | a score is missing exactly where its table lacks the code and otherwise is that table's; a code only the automation table has gets no title |
| TeleworkAutomation.CoverageBuckets | scripts/fetch_telework_automation_data.py:364-368 | every merged row falls in exactly one of the both / telework-only / automation-only buckets, so the three counts add up to the number of occupations |
| TeleworkAutomation.SaveOccupationScores | scripts/fetch_telework_automation_data.py:303-343 | nothing is merged or saved when the download failed; otherwise the outer merge of the aggregated table and the automation table |
| TeleworkAutomation.SaveInputsUnique | scripts/fetch_telework_automation_data.py:258-292 | both merge inputs have unique codes: the aggregated table by construction, the automation table because a dict's keys are distinct |
| ScoreMerge.NormalizeNameIdempotent | scripts/merge_occupation_scores.py:191-195 | a normalised name has no upper-case letter and no whitespace at either end, and normalising it again changes nothing |
| ScoreMerge.ReverseMapDomain | scripts/merge_occupation_scores.py:180-188 | the reverse table's keys are exactly the normalised aliases, and each maps to a canonical name the alias is listed under |
| ScoreMerge.ReverseMapSound | scripts/merge_occupation_scores.py:183-187 | every key of the reverse table is a normalised alias mapped to a canonical name it is listed under |
| ScoreMerge.ReverseMapComplete | scripts/merge_occupation_scores.py:183-187 | every listed alias, normalised, is a key of the reverse table |
| ScoreMerge.ReverseMapLaterWins | scripts/merge_occupation_scores.py:183-187 | an alias listed again further down the table maps to the later canonical name |
| ScoreMerge.AssignTitles | scripts/merge_occupation_scores.py:184-187 | the inner loop files each title of one canonical name, normalised, under that name, on top of what was already there |
| ScoreMerge.AssignStep | scripts/merge_occupation_scores.py:186-187 | one turn of the inner loop assigns one normalised title |
| ScoreMerge.CreateReverseMapping | scripts/merge_occupation_scores.py:180-188 | the nested loop builds exactly the reverse table |
| ScoreMerge.SocPairs | scripts/merge_occupation_scores.py:206-211 | one (SOC code, scores) assignment per score record, in row order |
| ScoreMerge.TitlePairs | scripts/merge_occupation_scores.py:227-232 | one (normalised title, scores) assignment per score record, in row order |
| ScoreMerge.ScoresBySoc | scripts/merge_occupation_scores.py:205-211 | the `scores_dict` loop keeps, for each SOC code, the scores of its last record |
| ScoreMerge.ScoresByTitle | scripts/merge_occupation_scores.py:226-232 | the `scores_by_title` loop keeps, for each normalised title, the scores of its last record |
| ScoreMerge.SocMatch | scripts/merge_occupation_scores.py:198-217 | a row keeps its code, title and year and takes the scores of its 7-character code prefix, both missing (never 0) when no record has that code or when the row has no code at all |
| ScoreMerge.GetScores | scripts/merge_occupation_scores.py:235-250 | a direct hit on the normalised title wins; otherwise the alias route applies when the alias is in the reverse table and the lower-cased canonical name is a title; otherwise both scores are missing; the two scores always come from one record |
| ScoreMerge.MissingNameMatchesUntitled | scripts/merge_occupation_scores.py:191-195 | a panel row without a title normalises to `""` and so takes the scores of the last score record without a title |
| ScoreMerge.CodeYears | scripts/merge_occupation_scores.py:280 | the first part holds exactly the panel rows of 2015, 2016 and 2017 |
| ScoreMerge.NameYears | scripts/merge_occupation_scores.py:281 | the second part holds exactly the panel rows from 2018 on |
| ScoreMerge.StackedRouting | scripts/merge_occupation_scores.py:276-326 | every stacked row is a panel row from 2015 on, carrying the code match for 2015-2017 and the name match from 2018 on; rows before 2015 are dropped and every panel row from 2015 on is kept |
| ScoreMerge.StackSound | scripts/merge_occupation_scores.py:280-326 | for any lookup tables, every stacked row is the code match or the name match of a panel row, by its year |
| ScoreMerge.StackComplete | scripts/merge_occupation_scores.py:280-326 | for any lookup tables, every panel row from 2015 on reaches the stacked table with its code, title and year |
| ScoreMerge.MergedPanel | scripts/merge_occupation_scores.py:252-329 | with no row from 2018 on, `scores['Teleworkable']` raises `KeyError`; otherwise the saved panel is the stacked rows, as a multiset, sorted by (Year, Occupation) |
| ScoreMerge.MergeOccupationScores | scripts/merge_occupation_scores.py:259-329 | `main` on loaded tables raises exactly when no row is from 2018 on, and otherwise yields the merged panel, sorted, with as many rows as the two year ranges together |
| AnalysisDataset.MonthOfPeriod | scripts/build_analysis_dataset.py:135 | a monthly period `M` followed by digits converts to the month those digits spell |
| AnalysisDataset.YearMonth | scripts/build_analysis_dataset.py:137 | for a month from 1 to 12, `YearMonth` round-trips: its quotient by 100 is the year and its remainder the month |
| AnalysisDataset.Post | scripts/build_analysis_dataset.py:144 | `Post` is 0 or 1, and 1 exactly from 2023 on |
| AnalysisDataset.HighExposure | scripts/build_analysis_dataset.py:147-148 | `HighExposure` is 0 or 1, and 1 exactly for an industry with an ILO score of at least 0.45; an industry without a score is 0 |
| AnalysisDataset.Treat | scripts/build_analysis_dataset.py:151 | `Treat` is 0 or 1, and 1 exactly for a high-exposure industry in the post period |
| AnalysisDataset.ExposureGroups | scripts/build_analysis_dataset.py:48-57 | Information, professional services and finance are treated; leisure and hospitality and total nonfarm are controls |
| AnalysisDataset.Derived | scripts/build_analysis_dataset.py:181-194 | one derived row per input row |
| AnalysisDataset.AllEmployeesMembers | scripts/build_analysis_dataset.py:177 | the metric filter keeps exactly the "All Employees" rows |
| AnalysisDataset.CreateAnalysisPanelSucceeds | scripts/build_analysis_dataset.py:135-136 | the panel is built exactly when every "All Employees" period converts to a month from 1 to 12; otherwise the conversion or the date raises |
| AnalysisDataset.CreateAnalysisPanelRows | scripts/build_analysis_dataset.py:165-211 | a built panel holds one row per "All Employees" input row, derived from it (flags, controls, employment and its log), as a multiset, sorted by state, industry and date, and each row's year and month round-trip through `YearMonth` |
| AnalysisDataset.DerivedRowFacts | scripts/build_analysis_dataset.py:135-194 | each derived row comes from its own "All Employees" row, and its year and month round-trip |

## Left out

- HTTP requests to the BLS API and to the O*NET download become function parameters: a request yields the decoded response, or `None` when it failed. Retries, `time.sleep` rate limiting and timeouts are not modelled.
- Reading and writing CSV, Excel and JSON files is not modelled. The tables read are parameters, and the scripts' results are the tables they would write. This includes the OES URLs, the metadata and provenance JSON, and `generation_date`.
- `get_existing_series_ids` in `scripts/archive/fetch_remaining_data.py` reads the data file; its result is the parameter `existing`.
- Printing, progress and summary statistics are not modelled. This covers the coverage percentages of `fetch_telework_automation_data.py`, `describe` and `value_counts`.
- `scripts/generate_data_dictionary.py` is not part of this model. It only writes a Markdown report of statistics.
- Floating-point arithmetic is real arithmetic: rounding error, infinities and NaN propagation beyond "missing" are not modelled.
- The composition scores of `scripts/archive/generate_occupation_weighted_scores.py:280-284` are not rounded with `round(…, 4)`. The model keeps the exact weighted sums.
- `float()`, `pd.to_numeric(errors='coerce')`, `astype(str)` and `np.log` are parameters, because their text parsing and floating-point behaviour are outside the model.
- `int()` accepts only non-empty strings of ASCII digits. The signs, surrounding whitespace and underscores that Python's `int` also accepts are not modelled.
- `str.lower`, `str.upper` and `str.strip` act on the ASCII range only. Unicode case mapping and Unicode whitespace are not modelled.
- The large literal tables are parameters rather than transcribed:
  - the ILO exposure scores and the ISCO–SOC crosswalk;
  - the Frey–Osborne probabilities and the title aliases;
  - the NAICS → industry map, the occupation-composition tables and the SOC-major score tables.
- The small tables that stated properties depend on are transcribed as constants: the state FIPS codes, the LAUS suffixes, the BLS industries and metrics, and the industry exposure scores of `build_analysis_dataset.py`.
- `pd.Timestamp` / `pd.to_datetime` date construction is not modelled. Neither are the mechanics of `pivot_table`: the reshaped table is described by its keys and cells, and the sort keys are the (year, month) pairs the dates are built from.
- Sorts are proved to return an ordered permutation of their input. That pandas' sorts are stable is not stated.
- OesWeighting: the header-row detection and re-read of `scripts/fetch_occupation_data.py:391-400` are not modelled. The sheet's headers are given.
- Renaming can leave two columns with the same name in pandas. A sheet here maps each column name to one cell, so that case is not modelled.
- AnalysisDataset assumes that the employment table has a `State` column, as the state-level data it is run on does. The national file of `fetch_bls_data.py` has none.
- StateControls.Lfpr: a population of zero gives a missing rate here. pandas would give an infinite or NaN value (`scripts/fetch_state_controls.py:250`).
- StateControls.IdsDetermineKeys: states that IDs are unique only for FIPS codes and suffixes that are distinct and two characters long. The fixed tables meet this requirement, but the lemma takes it as a precondition.
- The LAUS IDs have eleven zeros between the FIPS code and the suffix, as the code at `scripts/fetch_state_controls.py:85` builds them. The doc comment of that function says ten.

## Findings

| source | as written | input that shows it | evidently intended | confidence | as-written member | corrected member |
|---|---|---|---|---|---|---|
| scripts/fetch_bls_data.py:84-86 | the error report calls `json_data.get("message")` even when `json_data` is `None` | a failed request, so that `json_data` is `None`: the script raises `AttributeError` instead of reporting the failure | report the failure and return no rows | not executed | BlsFetch.StrictRowsAsWritten (exhibited by BlsFetch.FailedRequestCrashes) | BlsFetch.StrictRows |
