# Heart-disease risk predictor: a verified model of its decision logic

The app (`src/app.py`) takes eleven clinical inputs from a form, turns them
into a record dictionary, one-hot encodes it against the training schema,
asks a random-forest classifier for a risk probability, ranks the per-column
SHAP attributions, prints the five strongest with a direction, builds a list
of wellness tips from a fixed rule table, appends the result to a CSV history
file, and lets the user delete rows from that history.

This project models everything in that pipeline except the classifier, the
explainer and the user interface:

- `HeartRecord` (`record.dfy`): the form values, the record dictionary in
  insertion order, the input ranges and the what-if copy with cholesterol and
  resting blood pressure overridden.
- `Encoding` (`encoding.dfy`): `get_dummies` followed by
  `reindex(columns=..., fill_value=0)`, and a field-by-field reference
  definition of the value every schema column should hold.
- `Attribution` (`attribution.dfy`): ranking the signed attributions by
  magnitude, keeping five, and labelling each as increasing or decreasing
  the risk.
- `Strings` (`strings.dfy`): `str.lower()`, the substring test `w in s`, and
  `" ".join(...)`.
- `Tips` (`tips.dfy`): the five threshold rules, the two emphasis rules
  driven by the top factors, and the fallback message. This is a pure
  specification (`Tips`) plus the step-by-step construction the app uses
  (`GenerateTips`), proved equal.
- `History` (`history.dfy`): the history file as an optional sequence of
  lines (a header, then data rows). It covers appending with a header only
  when the file is absent, the read view, and deleting the ticked rows with a
  full rewrite. `HistoryStore` is a class holding the file. Its `Append` and
  `Delete` methods are proved against the pure functions.

Behaviours of the code that the model keeps:

- The cholesterol emphasis guard (line 108) asks whether the exact string
  `"cholestoral"` is an element of the list of lowered tips. That is an
  element test, not a substring test, and no tip is that string, so the guard
  never suppresses anything. The emphasis tip is therefore added once per
  nonzero factor whose name contains `cholestoral`, even when the cholesterol
  diet tip is already shown (`Tips.CholesterolEmphasisCount`).
- The factor loop (line 107) filters `top > 0`, but `top` holds absolute
  values, so the filter is a test on magnitudes. The loop therefore visits
  every factor of nonzero magnitude, whatever the sign of its attribution.
- For a 50-year-old man with cholesterol 260, resting blood pressure 135,
  ST depression 2.5 and a maximum heart rate of at least 100 (the form's
  default is 150), exactly four threshold tips fire: the diet, blood-pressure,
  provider and male tips. With a maximum heart rate below 100 the exercise
  tip fires as well (`Tips.ExampleFiftyYearOldMan`).

## Model

| member | source | states |
|---|---|---|
| HeartRecord.Fields | src/app.py:49-61 | the record dictionary has the 11 keys in insertion order, with the misspelt `cholestoral`; exactly the five number inputs hold numbers and the six select boxes hold text |
| HeartRecord.FieldsInjective | src/app.py:49-61 | the dictionary loses nothing: equal dictionaries come from equal form inputs |
| HeartRecord.WhatIf | src/app.py:136-138 | the what-if copy has the slider values under `cholestoral` and `resting_blood_pressure` and every other entry unchanged |
| HeartRecord.WhatIfInFormRange | src/app.py:132-133 | with the sliders inside their ranges, the what-if record is still one the form could produce |
| HeartRecord.Sex.Label | src/app.py:26 | definition: the option text of the sex select box |
| HeartRecord.ChestPain.Label | src/app.py:27-30 | definition: the option texts of the chest-pain select box |
| HeartRecord.YesNo.Label | src/app.py:33-39 | definition: the "No"/"Yes" option texts of the fasting-sugar and exercise-angina select boxes |
| HeartRecord.RestEcg.Label | src/app.py:34-37 | definition: the option texts of the resting-ECG select box |
| HeartRecord.StSlope.Label | src/app.py:41 | definition: the option texts of the ST-slope select box |
| HeartRecord.InFormRange | src/app.py:25-40 | definition: the inclusive minimum and maximum of each number input (age, blood pressure, cholesterol, maximum heart rate, ST depression) |
| HeartRecord.WhatIfAtDefaults | src/app.py:132-138 | with the sliders at their defaults (the submitted values), the what-if record is the record itself |
| Encoding.Dummy | src/app.py:65 | definition: the column one dictionary entry becomes under `get_dummies`, the key with its number, or `key_option` set to 1 |
| Encoding.DummyStartsWithKey | src/app.py:65 | every generated column name begins with its field's key |
| Encoding.Dummies | src/app.py:64-65 | one generated column per field; numeric fields keep their key, and every text field's column holds 1 |
| Encoding.Lookup | src/app.py:65 | a column the frame lacks reads 0; otherwise it reads the value of the first column with that name |
| Encoding.Reindex | src/app.py:65 | `.reindex(columns=..., fill_value=0)` yields one value per schema column |
| Encoding.Encode | src/app.py:64-65 | the encoded vector (also used for the what-if record at lines 141-142) has one entry per schema column |
| Encoding.ColumnValue | src/app.py:49-65 | definition: the reference reading, field by field, of the value each schema column should hold; `EncodeMatchesColumns` is stated against it |
| Encoding.DummyNamesDistinct | src/app.py:65 | the generated column names are pairwise distinct |
| Encoding.ColumnValueOfDummy | src/app.py:65 | each generated column holds the value the field-by-field reading gives it |
| Encoding.ColumnValueAbsent | src/app.py:65 | a schema column the record does not generate holds 0 |
| Encoding.EncodeMatchesColumns | src/app.py:64-65 | the encoded vector has one entry per schema column, and entry i is the record's value for column i: the numeric value, 1 for the chosen option's dummy, 0 otherwise |
| Encoding.ReindexDropsUnlisted | src/app.py:65 | generated columns missing from the schema do not affect the encoded vector |
| Encoding.LookupIgnoresOthers | src/app.py:65 | adding columns of other names leaves a column's value unchanged |
| Encoding.WhatIfEncoding | src/app.py:140-142 | the what-if vector differs from the original only in the cholesterol and blood-pressure columns, which hold the slider values |
| Attribution.Abs | src/app.py:82 | the magnitude is non-negative and equals the value or its negation |
| Attribution.Insert | src/app.py:82 | inserting a position adds exactly that position and keeps every entry a valid position |
| Attribution.InsertRanked | src/app.py:82 | inserting into a list ranked by magnitude keeps it ranked |
| Attribution.Rank | src/app.py:82 | the sort is a permutation of its input, ordered by non-increasing magnitude |
| Attribution.PermutationOfRange | src/app.py:82 | a permutation of all positions repeats none and contains each |
| Attribution.TopIndices | src/app.py:82 | `head(5)` keeps min(5, n) valid positions |
| Attribution.TopIndicesRanked | src/app.py:82 | the kept positions are distinct and ranked, and no dropped position has a larger magnitude than a kept one |
| Attribution.TopIndicesDominate | src/app.py:82 | no position left out by `head(5)` has a larger magnitude than a kept one |
| Attribution.TopFactors | src/app.py:81-86 | one displayed factor per kept position |
| Attribution.TopFactorsRanked | src/app.py:81-87 | min(5, n) factors over distinct columns, each with its column name and absolute attribution; impacts are non-increasing, every dropped column is dominated, and "increase" is shown exactly when the signed attribution is positive |
| Strings.LowerChar | src/app.py:108 | `lower()` maps A-Z into a-z and leaves every other character alone |
| Strings.Lower | src/app.py:110 | lowering keeps the length and lowers character by character |
| Strings.Contains | src/app.py:108 | definition: Python's substring test `w in s`, as used on feature names at lines 108 and 110 and on the joined tips at line 110 |
| Strings.Join | src/app.py:110 | `" ".join(parts)` is empty for no parts and otherwise begins with the first part |
| Strings.JoinMentions | src/app.py:110 | a word one tip mentions (in any case) is mentioned by the lowered join of all of them |
| Strings.JoinLacksPair | src/app.py:110 | joining texts that lack a two-letter pair, with a separator that lacks it, gives a text that lacks it, provided no piece and not the separator ends in the pair's first letter; the result then does not end in that letter either |
| Strings.LacksPairExcludes | src/app.py:110 | a text lacking a word's first two letters as a pair does not contain the word |
| Tips.RuleFires | src/app.py:97-106 | the five strict threshold conditions; only rules 0 to 4 exist |
| Tips.FiredRules | src/app.py:97-106 | the fired rules are positions among the first n rules |
| Tips.FiredRulesSpec | src/app.py:97-106 | the first n rules contribute, in declaration order, the tips of exactly those rules that fire |
| Tips.FiredRulesAligned | src/app.py:97-106 | the i-th collected tip is the text of the i-th firing rule, and that rule fires |
| Tips.FiredRulesIncreasing | src/app.py:97-106 | the firing rules are listed in strictly increasing declaration order |
| Tips.FiredRulesComplete | src/app.py:97-106 | every firing rule among the first n is listed |
| Tips.ThresholdTips | src/app.py:96-106 | the threshold tips are at most five, each a threshold rule's text |
| Tips.LowerAll | src/app.py:108 | definition: `[t.lower() for t in tips]` |
| Tips.FactorStep | src/app.py:108-111 | definition: one pass of the loop body, with both guards as written |
| Tips.FactorTips | src/app.py:107-111 | definition: the loop over `top`, skipping factors of zero magnitude |
| Tips.Tips | src/app.py:96-111 | definition: the specification of the collected tips, threshold tips then the factor loop; `GenerateTips` is proved equal to it |
| Tips.ThresholdTipsUnfold | src/app.py:96-106 | the threshold tips are the five conditional appends in order |
| Tips.ThresholdTipsInRuleOrder | src/app.py:96-106 | the threshold tips are the tips of exactly the firing rules, in declaration order |
| Tips.ThresholdTipsMembers | src/app.py:97-106 | each threshold tip is among the threshold tips exactly when its strict condition holds |
| Tips.ThresholdRules | src/app.py:97-106 | each threshold tip is shown exactly when its condition holds: cholesterol > 240, blood pressure > 130, max heart rate < 100 and age < 60, ST depression > 2, male |
| Tips.GenerateTips | src/app.py:96-111 | the step-by-step list the app builds equals the rule-table specification |
| Tips.CollectThresholdTips | src/app.py:96-106 | the five conditional appends produce exactly the threshold tips |
| Tips.EmphasiseFactor | src/app.py:108-111 | one pass of the loop body gives the list the loop-body definition gives |
| Tips.FactorTipsSnoc | src/app.py:107-111 | one more factor runs the loop body on it exactly when its magnitude is nonzero |
| Tips.TipsStartWithThresholds | src/app.py:96-111 | the collected tips begin with the threshold tips; everything after them is an emphasis tip |
| Tips.FactorTipsExtend | src/app.py:107-111 | the factor loop only appends emphasis tips after the tips it started with |
| Tips.FactorTipsKnown | src/app.py:107-111 | the factor loop produces only texts from the tip table |
| Tips.ThresholdTipsKnown | src/app.py:97-106 | the threshold tips are table texts other than the two emphasis tips |
| Tips.CholestoralNeverATip | src/app.py:108 | no tip lowers to exactly "cholestoral", so the guard at line 108 never suppresses |
| Tips.MatchingFactors | src/app.py:107-110 | the number of nonzero factors whose name contains a word is at most the number of factors |
| Tips.MatchingFactorsExist | src/app.py:107 | the count of nonzero factors naming a column is positive exactly when such a factor exists |
| Tips.FactorTipsCholesterol | src/app.py:107-109 | the loop adds one cholesterol emphasis tip per nonzero factor naming `cholestoral` |
| Tips.CholesterolEmphasisCount | src/app.py:107-109 | the number of cholesterol emphasis tips equals the number of nonzero top factors whose name contains `cholestoral` |
| Tips.BpTipsMention | src/app.py:100-111 | both blood-pressure tips mention "blood pressure" once lowered |
| Tips.BloodPressureTipMentions | src/app.py:100 | the threshold blood-pressure tip mentions "blood pressure" once lowered |
| Tips.BloodPressureEmphasisTipMentions | src/app.py:111 | the emphasis tip mentions "blood pressure" once lowered |
| Tips.ClearJoinHasNoBp | src/app.py:110 | tips that cannot hold "blood pressure" join and lower to a text without it |
| Tips.OtherTipsClear | src/app.py:97-109 | no tip other than the two blood-pressure tips can contain "blood pressure" |
| Tips.FactorTipsBpAtMostOnce | src/app.py:110-111 | the loop adds the blood-pressure emphasis tip at most once, and never once a tip mentions blood pressure |
| Tips.StepAddsBpAtMostOnce | src/app.py:108-111 | one pass of the loop body adds the blood-pressure emphasis tip at most once |
| Tips.StepAfterBpMention | src/app.py:110-111 | once some tip mentions blood pressure, a pass of the loop body adds no blood-pressure emphasis tip |
| Tips.FactorTipsBpUnmentioned | src/app.py:110-111 | wherever the emphasis tip stands, no earlier tip mentions blood pressure |
| Tips.FactorTipsBpFires | src/app.py:110-111 | starting from tips that cannot mention blood pressure, the emphasis tip is added exactly when a nonzero factor names `resting_blood_pressure` |
| Tips.ThresholdBpMention | src/app.py:99-100 | the threshold tips mention blood pressure when resting blood pressure is above 130, and none can otherwise |
| Tips.BloodPressureEmphasis | src/app.py:110-111 | the blood-pressure emphasis tip appears at most once, never after a mention of blood pressure, and exactly when blood pressure is at most 130 and a nonzero factor names `resting_blood_pressure` |
| Tips.ThresholdTipShown | src/app.py:107-111 | the factor loop neither adds nor removes any threshold tip |
| Tips.Suggestions | src/app.py:113-118 | the collected tips are shown when there are any, and otherwise the single fallback message |
| Tips.FallbackWhenNothingFires | src/app.py:113-118 | the fallback is shown exactly when no threshold condition holds and no nonzero factor names `cholestoral` or `resting_blood_pressure` |
| Tips.ExampleFiftyYearOldMan | src/app.py:97-111 | for a 50-year-old man with cholesterol 260, resting blood pressure 135 and ST depression 2.5, the cholesterol, blood-pressure, provider and male tips are shown and the blood-pressure emphasis is not; these four are exactly the threshold tips when the maximum heart rate is at least 100, and the exercise tip joins them below 100; a nonzero `cholestoral` factor adds the cholesterol emphasis beside the diet tip |
| History.WellFormed | src/app.py:122-127 | definition: the shape every write gives the file, one header line then data lines |
| History.RowFields | src/app.py:121 | a saved row has the date, the probability, then the record's keys, matching the header |
| History.RowFieldsInjective | src/app.py:121 | a saved row's cells determine the row |
| History.Rows | src/app.py:160 | reading the file gives one row per data line, in file order, and no rows when the file is absent |
| History.AppendFile | src/app.py:122-127 | a new file gets a header line and the row; an existing file keeps its lines and gains only the row |
| History.AppendKeepsRows | src/app.py:122-127 | appending keeps the file well formed and adds the new row after the saved ones |
| History.AppendAll | src/app.py:122-127 | definition: the file after one append per prediction, in order |
| History.AppendAllKeepsOrder | src/app.py:122-127 | N appends add exactly N rows in submission order and leave the existing lines, including the single header, untouched |
| History.AppendKeepsPrefix | src/app.py:122-127 | an append leaves every prefix of an existing file as it was |
| History.HistoryView | src/app.py:159-186 | the section reports no file, no records for a file without rows, or the table of rows |
| History.ViewAfterAppend | src/app.py:122-186 | after saving, the table is shown and ends with the new row |
| History.Kept | src/app.py:181 | the kept labels are positions of the table |
| History.KeptSpec | src/app.py:181 | the kept positions increase, are exactly the unticked ones, and number n less the ticked positions |
| History.KeptIncreasing | src/app.py:181 | the kept positions are valid and strictly increasing |
| History.KeptExactly | src/app.py:181 | a position below n is kept exactly when it is not ticked |
| History.KeptCount | src/app.py:181 | n less the ticked positions below n are kept |
| History.Remove | src/app.py:181 | definition: `history_df.drop(index=to_delete)` on a table labelled by position |
| History.RemoveSpec | src/app.py:181 | `drop` keeps the unticked rows in their order, with as many fewer rows as were ticked |
| History.RemoveNothing | src/app.py:181 | dropping no labels keeps every row |
| History.KeptEverything | src/app.py:181 | ticking every position keeps none |
| History.RemoveEverything | src/app.py:181 | dropping every row leaves none |
| History.DeleteRows | src/app.py:178-183 | a deletion happens exactly when a non-empty table has a non-empty selection of labels it holds; then the file is rewritten as the header and the remaining rows and the message counts the ticked rows; otherwise the file is unchanged |
| History.DeleteKeepsOthers | src/app.py:178-183 | the rewritten file has as many fewer rows as were ticked, and ticking every row leaves a file that reads as "no records" |
| History.HistoryStore.Append | src/app.py:121-127 | saving a prediction updates the file as the append function says and adds the row to the saved rows |
| History.HistoryStore.Delete | src/app.py:178-183 | the delete button rewrites the file and reports as the delete function says |

## Left out

- The form widgets, page layout, messages and formatting (`f"{prob*100:.1f}%"`, three-decimal impacts) are user interface.
- The bar chart and the dataset-average comparison (lines 88-92, 146-153) are plotting and display.
- Loading the model, scaler, schema and training data (lines 12-16) is file I/O. The schema `columns` is a parameter of the encoding.
- `scaler.transform`, `rf.predict_proba` and the SHAP explainer (lines 66-80, and lines 143 and 145 for the what-if record) are calls into libraries whose code is not part of this model. The probability and the attribution vector are parameters, the what-if probability is not modelled beyond its encoded input, and the case split on the explainer's output shape is left out with them.
- History.HistoryStore.Append: the date comes from the clock (`datetime.date.today()`) and is a parameter.
- History.Rows: the CSV text encoding and parsing are not modelled. The file is a sequence of header and data lines, so number formatting and type inference on reading do not arise. A zero-byte file, which `read_csv` rejects, cannot arise either, because every write that creates or rewrites the file includes the header.
- History.DeleteRows: the ticked labels are a set of row positions, the labels `read_csv` gives a freshly read table. A label outside the table, such as a row added in the dynamic editor, makes `drop` raise `KeyError`. The model reports that as an outcome that leaves the file unchanged; the exception and the page re-run are not modelled.
- The rewrite on delete is modelled as one step. A crash part-way through, and concurrent writers, are not represented.
- Attribution.Rank: pandas' default sort is not stable, so the order of columns with equal magnitude is unspecified. The ranking contracts hold for every tie order, but the function itself breaks ties by schema position.
- Attribution.TopFactors: `vals[feat]` is a lookup by column name. It is modelled by position, which agrees because the schema's column names are distinct.
- Strings.LowerChar: only ASCII letters are case-mapped. Every lowered text is ASCII except for an em dash, which `lower()` leaves unchanged.
- Floating point: the attributions, ST depression and probability are exact reals. Rounding is not modelled; the comparisons in the rules are the same strict comparisons.
