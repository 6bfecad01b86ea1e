# Bias measurement and correction, modelled in Dafny

This project models the engine at the heart of the COMPAS recidivism-score
analyzer. The engine splits a table of records into groups by the value of one
attribute (a "trait"). Each record carries a trait, a `two_year_recid` outcome
and an integer risk score. The engine computes each record's error from its
outcome and aggregates those errors into a group error and a signed group
bias. It then shifts every member's score by the bias and measures again. Four
variants of the engine exist, one per source file, and each is modelled in its
own module:

- `PlotByAttr` (`plot_by_attr.py`). The linear error is score − HIGHEST_RISK
  (10) for a reoffender and score − LOWEST_RISK (1) otherwise. Per trait, it
  reports the mean absolute error, the mean squared error (the RMS before the
  square root) and the mean signed error (the bias), before and after each
  member's score is lowered by its group's bias. The module also models the
  `_get_median` helper.
- `PlotByAttrNonUniform` (`plot_by_attr_non_uniform.py`). The same linear
  error, but totals, biases and the correction are per bucket. A bucket is
  one trait together with one score value, named by the key
  `"<trait>_<score>"`.
- `PlotByAttrThreshold` (`plot_by_attr_threshold.py`). A record's error is
  1 when its score misclassifies its outcome at THRESHOLD_RISK (4) and 0
  otherwise. A group's bias is its misclassified fraction minus the whole
  table's. The correction lowers every score by bias × HIGHEST_RISK and
  classifies again.
- `InitialCsvAnalyzer` (`deprecated/initial_csv_analyzer.py`). The prototype.
  `CSVReader` keeps the rows in a list, counts the values of a column
  (`trait_breakdown`) and splits the rows by requested value (`rows_with`).
  Its `correct_for` stores each group's total, not mean, absolute error, and it
  visits its groups in dictionary order.

Three shared modules support them:

- `Table` holds the row type, the pandas mask `df[df[col] == trait]` (an
  order-preserving filter), sums, the derived trait list and the
  first-empty-trait search.
- `Risk` holds the constants, the linear error and its sums, and the bias
  facts the linear variants share.
- `Decimal` models Python's `str` of an integer and reads it back.

The loops of every `correct_for` are methods with loop invariants. Each is
proved equal to a function of the input table: `Analyze` in each pandas
variant, and `Report` and `Breakdown` in the prototype. The properties the
engine promises are lemmas about those functions. The prototype's `CSVReader`
is a class whose `csvList` field `ReadFile` appends to.

The second empty-group check in each correction loop is unreachable: the
baseline loop has already raised for every trait without rows. It is
therefore not modelled as a branch.

Two facts about the threshold variant shape what can be proved about it:

- The correction lowers every score by bias × HIGHEST_RISK, whatever the
  direction of the record's misclassification
  (`plot_by_attr_threshold.py:97`). A group with a positive bias can
  therefore only move records towards "low risk"
  (`PlotByAttrThreshold.CorrectionDirection`).
- The bias is the group's misclassified fraction minus the overall
  misclassified fraction (`plot_by_attr_threshold.py:80-81`), not a signed
  count of false positives and false negatives.

The bucketed variant draws a bar chart of its absolute errors before it
returns. With no bucket, the chart's legend indexes the first bar of an empty
series (`plot_by_attr_non_uniform.py:128`) and raises IndexError. The model
returns that failure as the `EmptyChart` error.

## Model

| member | source | states |
|---|---|---|
| Risk.LinearError | plot_by_attr.py:81-86 | Computes a record's error: its score lowered by the shift, minus 10 for a reoffender and minus 1 otherwise |
| Risk.Bias | plot_by_attr.py:93 | Computes a group's bias: its mean signed error |
| Risk.LinearErrorSign | plot_by_attr.py:81-86 | For a score in [1, 10], a reoffender's error is ≤ 0 and anyone else's is ≥ 0; the error is 0 exactly when the score is the expected one (10 for a reoffender, 1 otherwise) |
| Risk.SignedSumShift | plot_by_attr.py:118-125 | Lowering every score of a group by `shift` lowers its signed error total by size × shift |
| Risk.CorrectedBiasIsZero | plot_by_attr.py:120-131 | After every score is lowered by the group's own bias, the group's signed error total is exactly 0 |
| Risk.SignedWithinAbs | plot_by_attr.py:88-90 | A group's signed error total lies between minus and plus its absolute error total |
| Risk.AbsSumSquaredBound | plot_by_attr.py:88-97 | The absolute error total, squared, is at most the group size times the squared error total (Cauchy–Schwarz) |
| Risk.MeanSignedWithinMeanAbs | plot_by_attr.py:93-95 | For a non-empty group, the magnitude of the mean signed error is at most the mean absolute error |
| Risk.SameScoreBiasBounds | plot_by_attr_non_uniform.py:50-67 | When every member has score s, the group's bias lies in [s − 10, s − 1] |
| Risk.PerfectScoresHaveNoError | plot_by_attr.py:81-90 | A group scored exactly as its outcomes say has signed and absolute error totals of 0 |
| Table.Filter | plot_by_attr.py:74 | The mask keeps exactly the rows whose key matches, and never more rows than it was given |
| Table.GroupOf | plot_by_attr.py:74 | A trait's group holds exactly the table rows whose attribute is that trait |
| Table.GroupOfSnoc | deprecated/initial_csv_analyzer.py:57-59 | Appending a row extends the group of its own value by that row and leaves every other group unchanged |
| Table.Accumulated | plot_by_attr_non_uniform.py:55-62 | Adding v under key k starts k at v or adds v to its entry, and leaves every other entry unchanged |
| Table.Incremented | plot_by_attr_non_uniform.py:58-62 | Counting one more item under k starts k at 1 or adds 1 to it, and leaves every other count unchanged |
| Table.DistinctValues | plot_by_attr.py:62-65 | The derived trait list has no duplicates and holds exactly the values present in the column |
| Table.FirstEmpty | plot_by_attr.py:73-92 | No trait is reported iff every trait's group has rows; a reported trait is in the list and its group is empty |
| Table.FirstEmptyAt | plot_by_attr.py:73-92 | If the k-th trait is the first with an empty group, it is the one reported |
| Table.ResolveTraits | plot_by_attr.py:62-65 | Computes the trait list: the requested traits, or every distinct value of the column when none are requested |
| Table.NoDerivedTraits | plot_by_attr.py:62-65 | No trait is derived exactly when no row has a value in the column |
| Table.DerivedTraitsAreNonEmpty | plot_by_attr.py:62-65 | Every derived trait has at least one row, so deriving the traits never leads to the ValueError |
| Table.SumPartition | plot_by_attr_threshold.py:54-81 | With distinct keys covering every element, summing group by group equals summing the whole sequence |
| Table.SumByTraitPartition | plot_by_attr_threshold.py:54-81 | With distinct traits that cover every row, summing trait group by trait group equals summing over the table |
| Decimal.IntToDecimal | plot_by_attr_non_uniform.py:28-29 | The decimal text of an integer is non-empty and holds only digits and '-' |
| Decimal.IntToDecimalRoundTrip | plot_by_attr_non_uniform.py:28-29 | Reading back the decimal text of any integer gives that integer |
| PlotByAttr.GetMedian | plot_by_attr.py:24-30 | `_get_median` as written: None iff the list is empty, IndexError iff its length is 2, and an element of the list for odd lengths |
| PlotByAttr.GetMedianOddIsMedian | plot_by_attr.py:27-28 | On a sorted odd-length list the returned element is a median: at least half the elements are at most it and at least half at least it |
| PlotByAttr.GetMedianEvenCaseIsOffByOne | plot_by_attr.py:29-30 | On the sorted list [1, 2, 3, 4] the even branch returns 3.5, which is not a median; on [1, 2] it indexes past the end |
| PlotByAttr.GetMedianFixed | plot_by_attr.py:24-30 | The corrected median is None iff the list is empty and never indexes past the end |
| PlotByAttr.GetMedianFixedIsMedian | plot_by_attr.py:24-30 | On every non-empty sorted list, odd or even length, the corrected median is a median |
| PlotByAttr.StatMap | plot_by_attr.py:93-97 | A statistic's dictionary has exactly the traits as keys |
| PlotByAttr.Analyze | plot_by_attr.py:58-140 | The result is an error iff some trait's group is empty; the error names a requested trait without rows; derived traits never fail; every returned dictionary has exactly the traits as keys |
| PlotByAttr.Accumulate | plot_by_attr.py:80-90 | The row loop leaves the signed, absolute and squared error totals of the group, scores lowered by `shift` |
| PlotByAttr.MeasureBaseline | plot_by_attr.py:73-97 | The first loop reports the first trait without rows, or else leaves every trait's mean absolute error, mean squared error and bias in the three dictionaries |
| PlotByAttr.MeasureCorrected | plot_by_attr.py:112-134 | The second loop leaves every trait's mean absolute error, mean squared error and bias after its scores are lowered by its baseline bias |
| PlotByAttr.CorrectFor | plot_by_attr.py:58-140 | correct_for returns `Analyze`'s result for either value of `rms`; on success its new-bias dictionary has the same traits as the baseline biases, each 0 |
| PlotByAttr.CorrectedBiasIsZeroEverywhere | plot_by_attr.py:130-134 | After the correction, every trait's recomputed bias is exactly 0 |
| PlotByAttr.AnalyzeCorrectionRemovesBias | plot_by_attr.py:93-131 | In every successful report, shifting each group by its reported bias leaves its signed error total at 0 |
| PlotByAttr.MeanAbsSquaredWithinMeanSq | plot_by_attr.py:88-97 | The squared mean absolute error is at most the mean squared error |
| PlotByAttr.GroupBounds | plot_by_attr.py:88-97 | For one group: the bias's magnitude is at most the mean absolute error; the squared mean absolute error is at most the mean squared error, both before and after the correction |
| PlotByAttr.AnalyzeBounds | plot_by_attr.py:93-133 | In every successful report, every trait satisfies the bounds of GroupBounds |
| PlotByAttrNonUniform.TraitKey | plot_by_attr_non_uniform.py:28-29 | Computes get_trait_key: the trait, an underscore, and the decimal text of the score |
| PlotByAttrNonUniform.TraitKeyRoundTrip | plot_by_attr_non_uniform.py:28-29 | Splitting a key at its last underscore gives back its trait and score |
| PlotByAttrNonUniform.TraitKeyInjective | plot_by_attr_non_uniform.py:28-29 | Two keys are equal iff their traits and their scores are equal, even for traits that contain underscores |
| PlotByAttrNonUniform.Entries | plot_by_attr_non_uniform.py:45-49 | The rows the passes visit are exactly the table rows whose value is one of the traits |
| PlotByAttrNonUniform.ErrorTotals | plot_by_attr_non_uniform.py:55-62 | The signed error dictionary has exactly one key per visited bucket |
| PlotByAttrNonUniform.Counts | plot_by_attr_non_uniform.py:58-62 | people_per_trait has one key per visited bucket, each counting at least one row |
| PlotByAttrNonUniform.Analyze | plot_by_attr_non_uniform.py:31-132 | The ValueError occurs iff some trait's group is empty, and names a requested trait without rows. Otherwise the chart's IndexError occurs iff there is no trait, so with no traits requested the call succeeds iff some row has a value in the column. A success's dictionaries have exactly the visited buckets as keys |
| PlotByAttrNonUniform.AnalyzeOkHasBuckets | plot_by_attr_non_uniform.py:118-132 | A successful run has at least one bucket, so its chart has a bar for the legend to read |
| PlotByAttrNonUniform.NoBucketsIffNoTraits | plot_by_attr_non_uniform.py:110-128 | When every trait's group has rows, the chart has no bar exactly when there is no trait |
| PlotByAttrNonUniform.ErrorTallyAt | plot_by_attr_non_uniform.py:55-62 | Starting a key at its first row's error and adding the later ones leaves each key's entry equal to its bucket's signed total |
| PlotByAttrNonUniform.AbsTallyAt | plot_by_attr_non_uniform.py:55-61 | The same, for the absolute error totals |
| PlotByAttrNonUniform.CountTallyAt | plot_by_attr_non_uniform.py:55-62 | Counting row by row leaves each key's count equal to its bucket's size |
| PlotByAttrNonUniform.TallyIsTotals | plot_by_attr_non_uniform.py:49-62 | The dictionaries the row loop builds are the per-bucket signed totals, absolute totals and sizes |
| PlotByAttrNonUniform.TallyBaseline | plot_by_attr_non_uniform.py:49-62 | The inner loop over one trait's group extends the three dictionaries by that group's rows |
| PlotByAttrNonUniform.MeasureBaseline | plot_by_attr_non_uniform.py:45-64 | The first pass reports the first trait without rows, or else leaves every bucket's signed total, absolute total and size |
| PlotByAttrNonUniform.TallyCorrectedRows | plot_by_attr_non_uniform.py:82-98 | The inner loop of the second pass shifts each row by its own bucket's bias and adds its error to its bucket and to t_err |
| PlotByAttrNonUniform.MeasureCorrected | plot_by_attr_non_uniform.py:78-100 | The second pass leaves every bucket's corrected signed and absolute totals, and t_err as the corrected signed error over all visited rows |
| PlotByAttrNonUniform.BiasesFromTotals | plot_by_attr_non_uniform.py:66-67 | baseline_bias_dict is every bucket's mean signed error |
| PlotByAttrNonUniform.NewBiasesFromTotals | plot_by_attr_non_uniform.py:104-105 | new_bias_dict is every bucket's mean signed error after the correction |
| PlotByAttrNonUniform.CorrectFor | plot_by_attr_non_uniform.py:31-132 | correct_for returns `Analyze`'s result, including the chart's IndexError when its dictionaries are empty; on success its internal dictionaries are the totals, sizes, new biases and t_err of the visited rows |
| PlotByAttrNonUniform.BucketKeys | plot_by_attr_non_uniform.py:45-56 | Key "<t>_<s>" is present iff t is a requested trait and some row of t's group has score s |
| PlotByAttrNonUniform.BucketMembers | plot_by_attr_non_uniform.py:50-54 | Every row of bucket "<t>_<s>" has trait t and score s |
| PlotByAttrNonUniform.BucketOfTrait | plot_by_attr_non_uniform.py:45-62 | With distinct traits, bucket "<t>_<s>" holds exactly the rows of t's group with score s, in table order |
| PlotByAttrNonUniform.BucketSizesCoverGroup | plot_by_attr_non_uniform.py:55-62 | With distinct traits, the people_per_trait counts of one trait's scores add up to its group's size |
| PlotByAttrNonUniform.BucketBiasBounds | plot_by_attr_non_uniform.py:50-67 | Every reported bucket bias for score s lies in [s − 10, s − 1] |
| PlotByAttrNonUniform.BaselineWithinAbs | plot_by_attr_non_uniform.py:55-62 | Every bucket's signed error total is at most its absolute error total in magnitude |
| PlotByAttrNonUniform.CorrectedTotalIsZero | plot_by_attr_non_uniform.py:84-102 | t_err, the signed error over every visited row after the correction, is exactly 0 |
| PlotByAttrNonUniform.CorrectedTotalsAreZero | plot_by_attr_non_uniform.py:84-98 | Every bucket's corrected signed error total is 0 |
| PlotByAttrNonUniform.NewBiasesAreZero | plot_by_attr_non_uniform.py:104-105 | Every bucket's corrected bias is 0 |
| PlotByAttrNonUniform.CorrectionZeroesEveryBucket | plot_by_attr_non_uniform.py:78-132 | In every successful run, the returned new_error_dict, every new bias and t_err are 0 |
| PlotByAttrThreshold.Misclassified | plot_by_attr_threshold.py:56-59 | The error is 0 or 1, and 1 exactly for a reoffender scored ≤ 4 or a non-reoffender scored > 4 |
| PlotByAttrThreshold.Rate | plot_by_attr_threshold.py:69-80 | Computes a group's misclassified fraction once its scores are lowered by the shift |
| PlotByAttrThreshold.OverallRate | plot_by_attr_threshold.py:54-61 | Computes the misclassified fraction of the whole table |
| PlotByAttrThreshold.Shift | plot_by_attr_threshold.py:97 | Computes the amount the correction subtracts from every score: bias × 10 |
| PlotByAttrThreshold.StatMap | plot_by_attr_threshold.py:64-81 | A statistic's dictionary has exactly the traits as keys |
| PlotByAttrThreshold.Analyze | plot_by_attr_threshold.py:43-111 | An empty table is a division by zero and nothing else is; otherwise the result is an error iff some trait's group is empty, naming a requested trait; derived traits never fail; the dictionaries have the traits as keys |
| PlotByAttrThreshold.CountErrors | plot_by_attr_threshold.py:55-60 | The row loop counts the rows misclassified once their scores are lowered by `shift` |
| PlotByAttrThreshold.MeasureBaseline | plot_by_attr_threshold.py:66-85 | The first loop reports the first trait without rows, or else leaves every group's misclassified fraction and its distance from the overall fraction |
| PlotByAttrThreshold.MeasureCorrectedGroup | plot_by_attr_threshold.py:91-106 | After lowering every score by bias × 10, the group's error is its new misclassified fraction and its new bias that minus the uncorrected overall fraction |
| PlotByAttrThreshold.MeasureCorrected | plot_by_attr_threshold.py:88-109 | The second loop leaves every group's corrected error and corrected bias |
| PlotByAttrThreshold.CorrectFor | plot_by_attr_threshold.py:43-111 | correct_for returns `Analyze`'s result, and new_baseline_dict holds every group's corrected bias |
| PlotByAttrThreshold.RateBounds | plot_by_attr_threshold.py:61-80 | A misclassified fraction lies in [0, 1] |
| PlotByAttrThreshold.GroupBounds | plot_by_attr_threshold.py:80-105 | A group's baseline and corrected errors lie in [0, 1] and its bias in [−1, 1] |
| PlotByAttrThreshold.AnalyzeBounds | plot_by_attr_threshold.py:54-105 | In a successful report the overall fraction and every error lie in [0, 1] and every bias in [−1, 1] |
| PlotByAttrThreshold.GroupWeightedBias | plot_by_attr_threshold.py:80-81 | A group's size times its bias is its misclassified rows minus the overall fraction once per row |
| PlotByAttrThreshold.WeightedSumOfBiases | plot_by_attr_threshold.py:66-81 | The size-weighted sum of the biases is the groups' misclassified rows minus the overall fraction once per row of those groups |
| PlotByAttrThreshold.WeightedBiasesCancel | plot_by_attr_threshold.py:54-81 | When distinct traits cover every row, the biases weighted by group size sum to 0 |
| PlotByAttrThreshold.OverallRateOncePerRow | plot_by_attr_threshold.py:54-61 | The overall fraction added once per row equals the table's misclassified rows |
| PlotByAttrThreshold.CorrectionDirection | plot_by_attr_threshold.py:97-101 | With bias ≥ 0 the correction never makes a correct non-reoffender wrong and never fixes a missed reoffender; with bias ≤ 0 the mirror holds |
| PlotByAttrThreshold.ZeroBiasKeepsError | plot_by_attr_threshold.py:97-106 | A group with bias 0 keeps its error and its bias after the correction |
| PlotByAttrThreshold.ThresholdScenario | plot_by_attr_threshold.py:56-59 | At threshold 4, outcome 1 with score 3 and outcome 0 with score 7 are errors; outcome 1 with score 5 and outcome 0 with score 2 are not |
| InitialCsvAnalyzer.IsDefined | deprecated/initial_csv_analyzer.py:33 | Computes whether a row counts as defined: its cell is present and non-empty |
| InitialCsvAnalyzer.RequestedTraits | deprecated/initial_csv_analyzer.py:68-73 | Computes the traits correct_for works on: the requested ones, or every defined value when none are requested |
| InitialCsvAnalyzer.DefinedTraitsHaveRows | deprecated/initial_csv_analyzer.py:32-39 | Every counted value is non-empty and has at least one row |
| InitialCsvAnalyzer.Breakdown | deprecated/initial_csv_analyzer.py:27-50 | The breakdown has exactly the present, non-empty values as keys |
| InitialCsvAnalyzer.TraitTallyAt | deprecated/initial_csv_analyzer.py:32-39 | Counting row by row gives a value a count iff it is defined somewhere, and the count is its group's size |
| InitialCsvAnalyzer.CountTraits | deprecated/initial_csv_analyzer.py:29-39 | The counting loop leaves the number of defined rows and every defined value's count |
| InitialCsvAnalyzer.TallyCounts | deprecated/initial_csv_analyzer.py:32-39 | The counts hold exactly the defined values, each equal to its group's size and between 1 and the number of defined rows |
| InitialCsvAnalyzer.Fractions | deprecated/initial_csv_analyzer.py:44-46 | Dividing the counting loop's tallies by the number of defined rows gives exactly the breakdown: each defined value's group size over the defined rows, and no other key |
| InitialCsvAnalyzer.RowsByTrait | deprecated/initial_csv_analyzer.py:52-62 | The rows_with dictionary has exactly the requested traits as keys |
| InitialCsvAnalyzer.Report | deprecated/initial_csv_analyzer.py:74-123 | The three result dictionaries share the groups' keys |
| InitialCsvAnalyzer.SumErrors | deprecated/initial_csv_analyzer.py:80-86 | The row loop leaves the group's signed and absolute error totals, scores lowered by `shift` |
| InitialCsvAnalyzer.BaselinePass | deprecated/initial_csv_analyzer.py:76-96 | The first loop reports a group without rows iff one exists; otherwise it leaves each group's total absolute error and bias |
| InitialCsvAnalyzer.CorrectedPass | deprecated/initial_csv_analyzer.py:98-121 | The second loop leaves each group's total absolute error and bias after its scores are lowered by its baseline bias |
| InitialCsvAnalyzer.NewBiasesAreZero | deprecated/initial_csv_analyzer.py:107-118 | Lowering each group by its own baseline bias leaves every new bias at 0 |
| InitialCsvAnalyzer.DictKeys | deprecated/initial_csv_analyzer.py:69-71 | Listing a dictionary's keys gives exactly its key set, each key once |
| InitialCsvAnalyzer.CsvReader.constructor | deprecated/initial_csv_analyzer.py:16-18 | A new reader holds no rows |
| InitialCsvAnalyzer.CsvReader.ReadFile | deprecated/initial_csv_analyzer.py:20-25 | Reading appends the file's rows, in order, to the rows already held |
| InitialCsvAnalyzer.CsvReader.TraitBreakdown | deprecated/initial_csv_analyzer.py:27-50 | trait_breakdown returns each defined value's group size over the number of defined rows |
| InitialCsvAnalyzer.CsvReader.RowsWith | deprecated/initial_csv_analyzer.py:52-62 | rows_with maps each requested trait to its rows in file order, and nothing else |
| InitialCsvAnalyzer.CsvReader.CorrectFor | deprecated/initial_csv_analyzer.py:64-123 | An error iff some requested trait has no rows, naming such a trait; no traits means every defined value and never fails; otherwise the report of the rows_with groups, with every new bias 0 |
| InitialCsvAnalyzer.DefinedGroup | deprecated/initial_csv_analyzer.py:32-39 | A non-empty value's group among the defined rows is its whole group, no larger than the defined rows |
| InitialCsvAnalyzer.NoDefinedRowsNoBreakdown | deprecated/initial_csv_analyzer.py:29-50 | The breakdown is empty iff no row is defined, so it never divides by zero |
| InitialCsvAnalyzer.FractionsInUnitInterval | deprecated/initial_csv_analyzer.py:44-46 | Every fraction lies in (0, 1] |
| InitialCsvAnalyzer.FractionSumIsGroupSum | deprecated/initial_csv_analyzer.py:44-46 | The fractions of a list of defined values add up to their groups' rows over the defined rows |
| InitialCsvAnalyzer.FractionsSumToOne | deprecated/initial_csv_analyzer.py:32-46 | The fractions of all defined values, each counted once, sum to 1 |
| InitialCsvAnalyzer.RowsWithPartition | deprecated/initial_csv_analyzer.py:57-59 | A row is in rows_with's result iff its value was requested, and then only under that value |
| InitialCsvAnalyzer.BiasWithinMeanTotal | deprecated/initial_csv_analyzer.py:85-92 | Every group's bias is at most its total absolute error over its size in magnitude |

## Left out

- Loading the table (`pd.read_csv`, the reader's `csv_path`, and the file parsing in `read_file`) is I/O. The table is a given sequence of rows, and `ReadFile` receives the parsed rows.
- Column selection by name, `.lower()`, and the `int()`/`float()` conversions of cells (and their parse errors) are not modelled. Each row is projected onto its group value (absent or a string), its outcome and its integer score.
- Printing (including `to_print`), `plot_recid`, `pd.crosstab`, the matplotlib charts and the `AnalyzerShell` command loop are presentation only. The shell's "ALL" is modelled as an empty trait list.
- `value_counts` ordering and NaN handling, and Python dictionary iteration order, are not modelled. The derived traits are the distinct present values in first-appearance order. The prototype's dictionary loops pick their next key arbitrarily, so its error names some empty requested trait, not a particular one.
- IEEE floating point is not modelled: all arithmetic is on exact reals, which is where the "bias becomes 0" facts hold exactly.
- PlotByAttr.Analyze: the RMS dictionaries hold the mean squared error; `math.sqrt` is not applied, and the RMS facts are stated on the square.
- PlotByAttr.CorrectFor: for the same reason, its RMS dictionaries hold the mean squared error, not its square root.
- Sharing of the mutable default `traits=[]` between calls is not modelled: each call takes its trait list as an argument.
- `_get_median` is modelled with Python 2 integer division (`len/2`), which the files' use of `iteritems` implies.
- The prototype's `alt_rows_by_trait = rows_by_trait` alias is a value copy here; the correction loop only reads it, so nothing differs.
- The bar chart the bucketed variant draws (`plot_by_attr_non_uniform.py:110-130`) is not modelled beyond the IndexError its legend raises when there is no bucket.

## Findings

| source | as written | input that shows it | evidently intended | confidence | as-written member | corrected member |
|---|---|---|---|---|---|---|
| plot_by_attr.py:29-30 | for an even length n, averages the elements at n/2 and n/2 + 1 | [1, 2, 3, 4] gives 3.5, which only one element reaches; [1, 2] raises IndexError | average the two middle elements, at n/2 − 1 and n/2 | not executed | PlotByAttr.GetMedianEvenCaseIsOffByOne | PlotByAttr.GetMedianFixedIsMedian |
