/** The fixed ten-application batch the program falls back on when it is given
    no file, what validation makes of it, and what the metrics make of the
    validated records; plus small batches that show each way a run fails. */
module Sample {
  import opened Records
  import opened Validation
  import opened Metrics

  /** One application as the sample writes it: ints for the three resource
      figures and for the threshold, a float for the scaling factor. */
  datatype App = App(id: string, current: int, demand: int, capacity: int, threshold: int, scaling: real)

  function Apps(): seq<App> {
    [ App("AppAlpha", 50, 45, 100, 75, 1.2),
      App("AppBeta", 70, 60, 140, 80, 1.15),
      App("AppGamma", 80, 70, 150, 85, 1.1),
      App("AppDelta", 90, 75, 160, 80, 1.0),
      App("AppEpsilon", 65, 55, 120, 70, 1.3),
      App("AppZeta", 100, 95, 180, 90, 1.05),
      App("AppEta", 85, 80, 170, 75, 1.15),
      App("AppTheta", 75, 65, 130, 85, 1.2),
      App("AppIota", 60, 50, 110, 80, 0.95),
      App("AppKappa", 95, 90, 200, 90, 1.1) ]
  }

  /** The record dictionary of one sample application. */
  function RecordOf(a: App): Record {
    map[ApplicationId := Text(a.id),
        CurrentResources := Int(a.current),
        UserDemand := Int(a.demand),
        MaxCapacity := Int(a.capacity),
        PerformanceThreshold := Int(a.threshold),
        ScalingFactor := Real(a.scaling)]
  }

  /** The same dictionary after validation: the threshold has become a float. */
  function ValidatedRecordOf(a: App): Record {
    RecordOf(a)[PerformanceThreshold := Real(a.threshold as real)]
  }

  function InputsOfApp(a: App): Inputs {
    Inputs(a.current, a.demand, a.capacity, a.threshold as real, a.scaling)
  }

  function SampleData(): seq<Record> {
    seq(|Apps()|, k requires 0 <= k < |Apps()| => RecordOf(Apps()[k]))
  }

  function ValidatedSampleData(): seq<Record> {
    seq(|Apps()|, k requires 0 <= k < |Apps()| => ValidatedRecordOf(Apps()[k]))
  }

  /** The conversion block accepts every sample-shaped record: the three ints
      stay as they are, the float stays as it is, and the int threshold becomes
      a float. */
  lemma AppConverts(a: App, p: Parsers)
    ensures CoerceNumeric(RecordOf(a), p) == Converted(ValidatedRecordOf(a))
  {
    var r := RecordOf(a);
    var r4 := ValidatedRecordOf(a);
    CoerceFieldsStep(r, NumericOrder, p);
    assert r[CurrentResources := Int(a.current)] == r;
    CoerceFieldsStep(r, NumericOrder[1..], p);
    assert r[UserDemand := Int(a.demand)] == r;
    CoerceFieldsStep(r, NumericOrder[2..], p);
    assert r[MaxCapacity := Int(a.capacity)] == r;
    CoerceFieldsStep(r, NumericOrder[3..], p);
    CoerceFieldsStep(r4, NumericOrder[4..], p);
    assert r4[ScalingFactor := Real(a.scaling)] == r4;
  }

  /** An application whose figures satisfy the range rule passes its check,
      whatever its row and whatever the string parsers do, and comes out with
      its threshold converted to a float. */
  lemma AppPasses(a: App, row: nat, p: Parsers)
    requires a.current > 0 && a.demand > 0 && a.capacity > 0 && a.scaling > 0.0
    requires 0 <= a.threshold <= 100
    ensures CheckRecord(RecordOf(a), row, p) == Passed(ValidatedRecordOf(a))
    ensures InputsOf(ValidatedRecordOf(a)) == Some(InputsOfApp(a))
  {
    MissingFieldsSpec(RecordOf(a));
    assert MissingFields(RecordOf(a)) == [];
    AppConverts(a, p);
  }

  /** Every sample application has positive figures, a threshold within
      [0, 100], and a scaling factor of at least 0.95. */
  lemma AppsInRange(k: nat)
    requires k < |Apps()|
    ensures var a := Apps()[k];
      && a.current > 0 && a.demand > 0 && a.capacity > 0 && a.scaling >= 0.95
      && 0 <= a.threshold <= 100
  {
  }

  /** The sample batch passes validation with any string parsers, and the run
      leaves every record as it was except that each threshold becomes a float. */
  lemma SamplePasses(p: Parsers)
    ensures Validate(SampleData(), p) == Run(None, ValidatedSampleData())
  {
    var data := SampleData();
    forall k | 0 <= k < |data| ensures CheckRecord(data[k], k + 1, p) == Passed(ValidatedRecordOf(Apps()[k])) {
      AppsInRange(k);
      AppPasses(Apps()[k], k + 1, p);
    }
    ValidateFromPasses(data, 0, p);
    assert Validate(data, p).data == ValidatedSampleData();
  }

  /** Every validated sample record has defined metrics, and none of them is
      recommended to keep its allocation. */
  lemma SampleMetrics(k: nat)
    requires k < |Apps()|
    ensures InputsOf(ValidatedSampleData()[k]).Some?
    ensures var x := InputsOf(ValidatedSampleData()[k]).value;
      CalculateMetrics(x).Ok? && CalculateMetrics(x).value.recommendation == NeedsAdjustment
  {
    var a := Apps()[k];
    AppsInRange(k);
    AppPasses(a, k + 1, Parsers(s => None, s => None));
    var x := InputsOfApp(a);
    MulMonotone(1.0, x.userDemand as real, x.scalingFactor);
    assert RawDemand(x) >= 0.95;
    DivisionByZeroIff(x);
    OptimalUnreachable(x);
  }

  /** A record can pass validation and still have no metrics: demand 1 times
      scaling factor 0.001 rounds to a predicted demand of 0, so the efficiency
      division raises ZeroDivisionError. */
  lemma TinyDemandHasNoMetrics(p: Parsers)
    ensures CheckRecord(RecordOf(App("AppTiny", 1, 1, 1, 50, 0.001)), 1, p).Passed?
    ensures CalculateMetrics(InputsOfApp(App("AppTiny", 1, 1, 1, 50, 0.001))) == Err(ZeroDivisionError)
  {
    var a := App("AppTiny", 1, 1, 1, 50, 0.001);
    AppPasses(a, 1, p);
    DivisionByZeroIff(InputsOfApp(a));
  }

  /** The metrics of the first sample application, AppAlpha. */
  lemma AlphaMetrics()
    ensures CalculateMetrics(InputsOfApp(Apps()[0])) ==
      Ok(Metrics(54.0, 108.0, 50.0, 15.2, 0.93, NeedsAdjustment))
  {
    var x := InputsOfApp(Apps()[0]);
    assert RawDemand(x) == 54.0;
    assert RoundHalfEven(5400.0) == 5400;
    assert PredictedDemand(x) == 54.0;
    assert RoundHalfEven(10800.0) == 10800;
    assert UtilizationRatio(x) == 108.0;
    assert RoundHalfEven(5000.0) == 5000;
    assert CapacityMargin(x) == 50.0;
    assert RoundHalfEven(1520.0) == 1520;
    assert CompositeScore(x) == 15.2;
    assert RoundHalfEven(5000.0 / 54.0) == 93;
    assert EfficiencyRatio(x) == 0.93;
  }

  /** An application whose figures break the range rule is rejected at its
      row on that rule, with its fields already converted. */
  lemma AppOutOfRange(a: App, row: nat, p: Parsers)
    requires !(a.current > 0 && a.demand > 0 && a.capacity > 0 && a.scaling > 0.0 && 0 <= a.threshold <= 100)
    ensures CheckRecord(RecordOf(a), row, p) == Rejected(OutOfRangeError(row), ValidatedRecordOf(a))
  {
    MissingFieldsSpec(RecordOf(a));
    assert MissingFields(RecordOf(a)) == [];
    AppConverts(a, p);
    assert InputsOf(ValidatedRecordOf(a)) == Some(InputsOfApp(a));
  }

  /** A batch whose second record has no allocation fails at row 2 on the range
      rule, after the first record has been converted. */
  lemma ZeroAllocationRejected(p: Parsers)
    ensures var data := [RecordOf(Apps()[0]), RecordOf(App("AppIdle", 0, 10, 100, 50, 1.0))];
      Validate(data, p) ==
        Run(Some(OutOfRangeError(2)),
            [ValidatedRecordOf(Apps()[0]), ValidatedRecordOf(App("AppIdle", 0, 10, 100, 50, 1.0))])
  {
    var alpha := Apps()[0];
    var idle := App("AppIdle", 0, 10, 100, 50, 1.0);
    var data := [RecordOf(alpha), RecordOf(idle)];
    AppPasses(alpha, 1, p);
    AppOutOfRange(idle, 2, p);
    var next := data[0 := ValidatedRecordOf(alpha)];
    assert ValidateFrom(data, 0, p) == ValidateFrom(next, 1, p);
    assert ValidateFrom(next, 1, p) == Run(Some(OutOfRangeError(2)), next[1 := ValidatedRecordOf(idle)]);
  }

  /** A threshold of 150 is outside [0, 100]: the record fails at row 1 on
      the range rule, with its fields already converted. */
  lemma ThresholdTooHighRejected(p: Parsers)
    ensures var data := [RecordOf(App("AppAlpha", 50, 45, 100, 150, 1.2))];
      Validate(data, p) ==
        Run(Some(OutOfRangeError(1)), [ValidatedRecordOf(App("AppAlpha", 50, 45, 100, 150, 1.2))])
  {
    var a := App("AppAlpha", 50, 45, 100, 150, 1.2);
    AppOutOfRange(a, 1, p);
    assert [RecordOf(a)][0 := ValidatedRecordOf(a)] == [ValidatedRecordOf(a)];
  }

  /** A record whose scaling factor is None is reported with exactly that
      field missing, and the record is left as it was. */
  lemma NullScalingFactorRejected(p: Parsers)
    ensures var data := [RecordOf(Apps()[0])[ScalingFactor := Null]];
      Validate(data, p) == Run(Some(MissingFieldsError(1, [ScalingFactor])), data)
  {
    var data := [RecordOf(Apps()[0])[ScalingFactor := Null]];
    var rec := data[0];
    var fields := RequiredFields;
    assert Missing(rec, fields[6..]) == [];
    assert Missing(rec, fields[5..]) == [ScalingFactor];
    assert Missing(rec, fields[4..]) == [ScalingFactor];
    assert Missing(rec, fields[3..]) == [ScalingFactor];
    assert Missing(rec, fields[2..]) == [ScalingFactor];
    assert Missing(rec, fields[1..]) == [ScalingFactor];
    assert Missing(rec, fields) == [ScalingFactor];
    StepMissing(data, 0, p);
  }

  /** When the demand is a string the parser rejects, the run fails at that
      row on the numeric check, and the allocation converted just before it
      keeps its new value: the float 50.7 has been truncated to the int 50. */
  lemma PartialConversionKept(p: Parsers)
    requires p.parseInt("many") == None
    ensures var data := [RecordOf(Apps()[0])[CurrentResources := Real(50.7)][UserDemand := Text("many")]];
      Validate(data, p) == Run(Some(InvalidNumericError(1)), [data[0][CurrentResources := Int(50)]])
  {
    var data := [RecordOf(Apps()[0])[CurrentResources := Real(50.7)][UserDemand := Text("many")]];
    MissingFieldsSpec(data[0]);
    assert MissingFields(data[0]) == [];
    var r1 := data[0][CurrentResources := Int(50)];
    assert CoerceNumeric(data[0], p) == CoerceFields(r1, NumericOrder[1..], p);
    assert CoerceFields(r1, NumericOrder[1..], p) == NotNumeric(r1);
    StepNotNumeric(data, 0, p);
  }
}
