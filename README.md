# CloudResourceOptimizer in Dafny

A Dafny model of the core of `CloudResourceOptimizer`, a small Python tool. It
validates a batch of cloud-application records and computes five derived
metrics and a scaling recommendation for each record.

Modules:

- **Records** (`records.dfy`): what a record dictionary can hold.
  - A value is Python's `None`, an int, a float or a str.
  - A record is a map from field name to value; an absent key is a field the
    dictionary lacks.
  - Defines the six required field names and the `int()` / `float()`
    coercions the validator applies. `int()` of a float truncates toward zero.
  - Defines the typed view `Inputs` of a coerced record and the range rule.
- **Validation** (`validation.dfy`): the batch validation rule, as functions
  over values.
  - The required-field test.
  - The conversion block. It converts five fields in order and writes each
    result back before the next conversion runs.
  - The range rule, and the walk over the batch that stops at the first bad
    record.
  - A failed run is reported as a `Failure` value: the error kind
    (missing fields, invalid numeric value, out of range) and the 1-based
    row.
- **Optimizer** (`optimizer.dfy`): the `CloudResourceOptimizer` class.
  - Fields: `data` and `validationReport`.
  - `ValidateData` is an imperative loop. It rewrites each record's numeric
    fields in place and keeps the report's `isValid` flag equal to its return
    value.
  - It is proved to leave exactly the batch and the outcome that
    `Validation.Validate` describes.
- **Metrics** (`metrics.dfy`): `calculate_metrics` over exact reals.
  - Rounding to two decimals is round-half-to-even, and every step consumes
    the previous step's rounded value.
  - Each division by zero yields `Err(ZeroDivisionError)`.
  - The recommendation rule.
- **Sample** (`sample.dfy`): the fixed ten-application batch.
  - Proves the batch passes validation whatever the string parsers do, that
    every validated sample record has defined metrics, and the exact metrics
    of the first sample record.
  - Gives small batches showing each way a run fails.

One consequence is proved outright, as `Metrics.OptimalUnreachable`: no
record with a positive allocation and a positive maximum capacity can ever
get the "Optimal - Maintain current allocation" recommendation.
- An efficiency ratio in [0.95, 1.05] forces the utilisation ratio above 94.
- That caps the composite score near 43, below the 70 the rule requires.

So every record that passes validation and has defined metrics (demand
times scaling factor above 0.005) is told to adjust; a record that passes with
a smaller product raises ZeroDivisionError instead (`Sample.TinyDemandHasNoMetrics`).
Which threshold the authors meant to be different is not evident from the code, so the model keeps
the rule as written.

## Program behaviour kept as written

- **Errors.** On a bad record the program prints a message naming the kind
  and the row, and returns `False`.
  `Validation.Failure` carries exactly what that message carries: the kind,
  the row, and for missing fields the list of field names.
- **The report before validation.** The report starts as an empty dictionary
  until validation first runs. That state is `None`.
- **`fields_check`.** This field is never filled in, so it is always the
  empty map.
- **Partly converted records.** A record whose conversion fails part-way
  keeps the values already converted: the writes happen one field at a time,
  in place. The model keeps that partial record (`Sample.PartialConversionKept`).

## Model

| member | source | states |
|---|---|---|
| Records.ToInt | CloudResourceOptimizer-AI.py:40-42 | Python's int() of a value: an int unchanged, a float truncated toward zero (Records.Truncate), a str through the int parser; characterised with ToFloat by Records.Coerce and Records.CoerceIdempotent |
| Records.ToFloat | CloudResourceOptimizer-AI.py:43-44 | Python's float() of a value: an int as its real, a float unchanged, a str through the float parser; characterised by Records.Coerce and Records.CoerceIdempotent |
| Records.InputsOf | CloudResourceOptimizer-AI.py:51-55 | the five numeric fields read as int, int, int, float, float, when they are; characterised by Records.InputsOfSpec |
| Records.InRange | CloudResourceOptimizer-AI.py:51-55 | the range rule: positive allocation, demand, capacity and scaling factor and a threshold within [0, 100]; what passing records satisfy by Validation.ValidatedRecordsInRange |
| Records.RecordInRange | CloudResourceOptimizer-AI.py:51-55 | the range rule read off a coerced record; Validation.CheckRecordOutcome restates it on the record as it arrives |
| Records.Truncate | CloudResourceOptimizer-AI.py:40-42 | int() of a float is the integer toward zero: for a non-negative x it is the largest integer not above x, for a negative x the smallest integer not below x |
| Records.Coerce | CloudResourceOptimizer-AI.py:40-44 | the int() fields come out as ints and the float() fields as floats; an int put through int() and a float put through float() are unchanged |
| Records.CoerceIdempotent | CloudResourceOptimizer-AI.py:40-44 | coercing an already coerced value changes nothing |
| Records.InputsOfSpec | CloudResourceOptimizer-AI.py:51-55 | a record has the typed view read by the range rule exactly when each numeric field is present and holds a value of its field's kind |
| Validation.Missing | CloudResourceOptimizer-AI.py:28-31 | the listed fields a record lacks or holds as None, in list order; characterised by Validation.MissingSpec |
| Validation.MissingFields | CloudResourceOptimizer-AI.py:23-31 | the required fields a record lacks or holds as None, in order; characterised by Validation.MissingFieldsSpec |
| Validation.CoerceFields | CloudResourceOptimizer-AI.py:39-48 | the in-place conversions in order, stopping at the first failure and keeping earlier writes; characterised by Validation.CoerceFieldsSpec |
| Validation.CoerceNumeric | CloudResourceOptimizer-AI.py:39-48 | the conversion block over the five numeric fields; characterised by Validation.CoerceNumericSpec, implemented in place by Optimizer.CloudResourceOptimizer.ConvertNumeric |
| Validation.CheckRecord | CloudResourceOptimizer-AI.py:21-58 | one pass of the loop body on one record; characterised by Validation.CheckRecordSpec and Validation.CheckRecordOutcome |
| Validation.Acceptable | CloudResourceOptimizer-AI.py:21-58 | the independent statement of when a record is accepted, on the record as it arrives; equal to passing by Validation.CheckRecordOutcome |
| Validation.ValidateFrom | CloudResourceOptimizer-AI.py:21-60 | the loop from index i on; characterised by Validation.ValidateFromShape, ValidateFromPasses, ValidateFromFails and ValidateFromReportsMissing |
| Validation.Validate | CloudResourceOptimizer-AI.py:11-60 | the whole validation run as a value: the first failure and the batch as left; characterised by Validation.ValidatePassesIff, ValidateFrame, ValidateStopsAtFirstFailure and ValidateIdempotent, and implemented by Optimizer.CloudResourceOptimizer.ValidateData |
| Validation.MissingSpec | CloudResourceOptimizer-AI.py:28-31 | the fields reported missing are exactly the listed fields that are absent or None, and there are no more of them than were listed |
| Validation.MissingFieldsSpec | CloudResourceOptimizer-AI.py:23-33 | a record misses nothing exactly when all six required fields are present and not None; then the five numeric fields are present; the reported fields are exactly the required ones absent or None |
| Validation.CoerceFieldsSpec | CloudResourceOptimizer-AI.py:39-48 | converting distinct fields in order adds and drops no key and touches only the listed fields, each left alone or replaced by its coercion; it succeeds exactly when every listed coercion succeeds, and then every listed field holds its coercion |
| Validation.CoerceNumericSpec | CloudResourceOptimizer-AI.py:39-48 | the conversion block changes only the five numeric fields; it succeeds exactly when all five coercions succeed, and then the record holds them and has its typed view |
| Validation.CheckRecordSpec | CloudResourceOptimizer-AI.py:21-58 | checking one record keeps its keys and its non-numeric fields; a rejection carries the record's row; a passing record holds the coercions of its fields and satisfies the range rule; it is rejected for missing fields, unchanged and with exactly those fields, precisely when it misses any |
| Validation.CheckRecordOutcome | CloudResourceOptimizer-AI.py:21-58 | a record passes its check exactly when all six fields are present and not None, all five conversions succeed and the converted values satisfy the range rule; it is rejected as not numeric exactly when nothing is missing and some conversion fails; it is rejected as out of range exactly when nothing is missing, every conversion succeeds and the range rule fails |
| Validation.ValidateFromShape | CloudResourceOptimizer-AI.py:21 | a walk from index i keeps the batch length and never touches a record before i |
| Validation.ValidateFromPasses | CloudResourceOptimizer-AI.py:21-60 | a walk from i passes exactly when every later record passes its check, and then leaves each in its checked form |
| Validation.ValidateFromFails | CloudResourceOptimizer-AI.py:21-60 | a failing walk from i fails at the first record from i on that does not pass; earlier records are in their checked form and later ones unchanged |
| Validation.ValidateFromReportsMissing | CloudResourceOptimizer-AI.py:21-36 | when records i..j-1 pass and record j misses a field, the walk from i reports row j+1 with exactly its missing fields and leaves records j onward unchanged |
| Validation.ValidatePassesIff | CloudResourceOptimizer-AI.py:21-60 | a batch passes exactly when every record, checked at its own 1-based row, passes |
| Validation.ValidatedRecordsInRange | CloudResourceOptimizer-AI.py:51-60 | after a passing run every record has int, int, int, float, float numeric fields with positive allocation, demand, capacity and scaling factor and a threshold within [0, 100] |
| Validation.ValidateRecordOrigin | CloudResourceOptimizer-AI.py:21-48 | every record a run leaves is either untouched or the form its own check produced |
| Validation.ValidateFrame | CloudResourceOptimizer-AI.py:39-48 | a run keeps the batch length and every record's keys, and changes no field other than the five numeric ones; application_id is never changed |
| Validation.ValidateStopsAtFirstFailure | CloudResourceOptimizer-AI.py:21-58 | a failing run names the first record that does not pass; every record before it has been converted and every record after it is unchanged |
| Validation.ValidateReportsFirstMissing | CloudResourceOptimizer-AI.py:21-36 | the first record missing a field, after records that pass, is reported at its 1-based row with exactly the fields it misses, and no later record is touched |
| Validation.CheckRecordIdempotent | CloudResourceOptimizer-AI.py:21-58 | a record that passed its check passes again unchanged, at any row |
| Validation.ValidateIdempotent | CloudResourceOptimizer-AI.py:11-60 | validating a batch that passed passes again and changes nothing |
| Optimizer.CloudResourceOptimizer.constructor | CloudResourceOptimizer-AI.py:7-9 | keeps the given batch and starts with no validation report |
| Optimizer.CloudResourceOptimizer.ConvertField | CloudResourceOptimizer-AI.py:40-44 | one in-place conversion: on success the record's field is replaced by its coercion, on failure nothing changes |
| Optimizer.CloudResourceOptimizer.ConvertNumeric | CloudResourceOptimizer-AI.py:39-48 | the five in-place conversions leave the batch with record i replaced by the conversion block's result, and report whether the block succeeded |
| Optimizer.CloudResourceOptimizer.ValidateData | CloudResourceOptimizer-AI.py:11-60 | returns true exactly when Validation.Validate finds no failure, leaves the batch as that run leaves it, and leaves the report with the batch size, an empty field table and isValid equal to the return value |
| Metrics.RoundHalfEven | CloudResourceOptimizer-AI.py:68-71 | the integer nearest a real, ties to even; characterised by Metrics.RoundHalfEvenSpec |
| Metrics.Round2 | CloudResourceOptimizer-AI.py:68-71 | round(x, 2) over exact reals; characterised by Metrics.Round2Near, Round2AtLeast, Round2AtMost, Round2IsZero, Round2Idempotent and Round2IsCents |
| Metrics.PredictedDemand | CloudResourceOptimizer-AI.py:68-71 | the rounded product of demand and scaling factor; characterised by Metrics.DemandChain and MetricsBounds |
| Metrics.UtilizationRatio | CloudResourceOptimizer-AI.py:75-78 | the rounded percentage of predicted demand over allocation; characterised by Metrics.DemandChain and MetricsBounds |
| Metrics.CapacityMargin | CloudResourceOptimizer-AI.py:82-85 | the rounded headroom percentage; characterised by Metrics.ScoreChain and CapacityMarginBounds |
| Metrics.CompositeScore | CloudResourceOptimizer-AI.py:89-92 | the rounded weighted score of margin and utilisation headroom; characterised by Metrics.ScoreChain and MetricsBounds |
| Metrics.EfficiencyRatio | CloudResourceOptimizer-AI.py:96-99 | the rounded quotient of allocation over predicted demand; characterised by Metrics.DemandChain and MetricsBounds |
| Metrics.Recommend | CloudResourceOptimizer-AI.py:102-107 | the three-part decision rule; characterised by Metrics.RecommendationRule and OptimalUnreachable |
| Metrics.Recommendation.Message | CloudResourceOptimizer-AI.py:105-107 | the two recommendation texts of the program; stated by Metrics.RecommendationRule |
| Metrics.CalculateMetrics | CloudResourceOptimizer-AI.py:62-116 | the metrics of one record, or ZeroDivisionError; characterised by Metrics.DivisionByZeroCases, DivisionByZeroIff, MetricsBounds, DemandChain, ScoreChain, MetricsAreCents, RecommendationRule and OptimalUnreachable |
| Metrics.RoundHalfEvenSpec | CloudResourceOptimizer-AI.py:68-71 | the rounded integer is within one half of the value, and is even when the value lies exactly halfway |
| Metrics.Round2Near | CloudResourceOptimizer-AI.py:68-71 | round(x, 2) is within half a cent of x |
| Metrics.Round2AtLeast | CloudResourceOptimizer-AI.py:68-71 | rounding keeps a lower bound that is a whole number of cents |
| Metrics.Round2AtMost | CloudResourceOptimizer-AI.py:68-71 | rounding keeps an upper bound that is a whole number of cents |
| Metrics.Round2IsZero | CloudResourceOptimizer-AI.py:68-71 | a value rounds to zero exactly when it lies within half a cent of zero |
| Metrics.Round2Idempotent | CloudResourceOptimizer-AI.py:68-99 | rounding a rounded value changes nothing |
| Metrics.Round2IsCents | CloudResourceOptimizer-AI.py:68-99 | every rounded value is a whole number of hundredths |
| Metrics.DivisionByZeroCases | CloudResourceOptimizer-AI.py:75-99 | the metrics raise ZeroDivisionError exactly when the allocation is zero, the maximum capacity is zero, or demand times scaling factor is within half a cent of zero |
| Metrics.DivisionByZeroIff | CloudResourceOptimizer-AI.py:68-99 | for a validated record the metrics fail exactly when demand times scaling factor is at most 0.005 |
| Metrics.CapacityMarginBounds | CloudResourceOptimizer-AI.py:82-85 | the margin is 0 at full capacity, not negative when the capacity is at least the allocation, and at most 100 for a positive allocation |
| Metrics.MetricsBounds | CloudResourceOptimizer-AI.py:68-99 | for a validated record with defined metrics the predicted demand is positive and within half a cent of the raw product; utilisation and efficiency are not negative; the composite score is at most 100 |
| Metrics.UtilizationFromEfficiency | CloudResourceOptimizer-AI.py:75-99 | an efficiency quotient within [0.945, 1.055] means the demand is positive and the utilisation quotient is at least 94.7 percent |
| Metrics.OptimalUnreachable | CloudResourceOptimizer-AI.py:102-107 | with a positive allocation and capacity the recommendation is never Optimal |
| Metrics.DemandChain | CloudResourceOptimizer-AI.py:68-99 | the predicted demand is the rounded raw product and not zero; utilisation and efficiency are computed from the rounded demand, not the raw product |
| Metrics.ScoreChain | CloudResourceOptimizer-AI.py:82-92 | the margin is the rounded headroom percentage; the composite score is computed from the rounded margin and the rounded utilisation |
| Metrics.MetricsAreCents | CloudResourceOptimizer-AI.py:68-99 | all five metrics are whole numbers of hundredths |
| Metrics.RecommendationRule | CloudResourceOptimizer-AI.py:102-107 | the recommendation is Optimal exactly when the score is at least 70, the efficiency is within [0.95, 1.05] and the utilisation is within the threshold; the two texts are the program's |
| Sample.Apps | CloudResourceOptimizer-AI.py:172-253 | the ten sample applications with their figures; their bounds are stated by Sample.AppsInRange |
| Sample.RecordOf | CloudResourceOptimizer-AI.py:172-253 | the record dictionary of one sample application; its conversion is stated by Sample.AppConverts |
| Sample.SampleData | CloudResourceOptimizer-AI.py:168-253 | the sample batch; it passes validation by Sample.SamplePasses |
| Sample.AppConverts | CloudResourceOptimizer-AI.py:172-253 | a sample-shaped record converts with its ints and float unchanged and its int threshold turned into a float |
| Sample.AppPasses | CloudResourceOptimizer-AI.py:172-253 | a sample-shaped record within the range rule passes at any row with any parsers, and has the expected typed view |
| Sample.AppsInRange | CloudResourceOptimizer-AI.py:172-253 | every sample application has positive figures, a threshold within [0, 100] and a scaling factor of at least 0.95 |
| Sample.SamplePasses | CloudResourceOptimizer-AI.py:168-253 | the sample batch passes validation and comes out with each threshold converted to a float and nothing else changed |
| Sample.SampleMetrics | CloudResourceOptimizer-AI.py:168-253 | every validated sample record has defined metrics and is told to adjust |
| Sample.TinyDemandHasNoMetrics | CloudResourceOptimizer-AI.py:96-99 | a record with demand 1 and scaling factor 0.001 passes validation, yet its predicted demand rounds to 0 and the metrics raise ZeroDivisionError |
| Sample.AlphaMetrics | CloudResourceOptimizer-AI.py:173-180 | AppAlpha's metrics are 54.0, 108.0, 50.0, 15.2 and 0.93, with the adjust recommendation |
| Sample.AppOutOfRange | CloudResourceOptimizer-AI.py:51-58 | a sample-shaped record that breaks the range rule is rejected at its row with its fields converted |
| Sample.ZeroAllocationRejected | CloudResourceOptimizer-AI.py:51-58 | a batch whose second record has zero allocation fails with an out-of-range error at row 2, after the first record was converted |
| Sample.ThresholdTooHighRejected | CloudResourceOptimizer-AI.py:51-58 | a threshold of 150 fails with an out-of-range error at row 1 |
| Sample.NullScalingFactorRejected | CloudResourceOptimizer-AI.py:28-36 | a record whose scaling factor is None fails at row 1 naming exactly that field, and is left unchanged |
| Sample.PartialConversionKept | CloudResourceOptimizer-AI.py:39-48 | when the demand does not parse, the run fails on the numeric check and the allocation converted just before keeps its new value |

## Left out

- `generate_report` (CloudResourceOptimizer-AI.py:118-166) is not modelled.
  It assembles text, except that it returns a fixed failure message when
  validation fails.
- `load_json_data`, `main` and every `print` are not modelled: file I/O,
  JSON decoding and console output.
- The messages validation prints are not modelled. Their content, the kind
  and the row, is the `Failure` value.
- `int()` and `float()` of a string are the `Parsers` parameter, because
  their parsing grammar is library code. Its functions return None where
  Python raises ValueError.
- Floats are exact reals and `round(x, 2)` is round-half-to-even on the exact
  value. Python rounds a binary double, which is not the same value. A one-cent
  difference in a rounded step is carried into the later steps and scaled
  there. For example, with demand 1, scaling factor 2.675 and allocation 1,
  Python rounds the product to 2.67 and reports utilisation 267.0; the model
  rounds it to 2.68 and reports 268.0. Integers beyond 2^53, and values beyond
  the range of a double, can differ from Python's results by any amount.
- NaN and infinity are not modelled. A NaN or positive infinite scaling factor passes
  through `float()` (line 44) and passes the range check (line 54). An infinite
  allocation, demand or capacity makes `int()` raise OverflowError (lines
  40-42). That error is not caught by `except ValueError` (line 45), so the
  method exits with the report still saying valid.
- Records.Coerce: `float()` of an int beyond the range of a double raises
  OverflowError (lines 43-44). The program does not catch it, so the method
  exits with `is_valid` still True. The model converts such an int to an
  exact real instead: a threshold that large is then rejected by the range
  rule, and a scaling factor that large passes.
- Value kinds outside None, int, float and str are not modelled. Lists,
  dicts and bools in a record are not represented; for the first two,
  `int()` raises TypeError, which the program does not catch.
- Metrics.CalculateMetrics takes the typed view of a coerced record, not a
  raw dictionary. Calling it on an unvalidated record, which may raise
  TypeError, is not modelled.
- A ZeroDivisionError is an `Err` result instead of an exception.
- Records are values in a sequence. Aliasing of a record dictionary by a
  caller that still holds it is not modelled: a caller sees the new batch
  only through `data`.
