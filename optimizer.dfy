/** The optimizer object: the batch it was built with and the validation report
    it keeps. Validation walks the batch, coerces each record's numeric fields
    in place and stops at the first bad record; the method is proved to leave
    exactly the state the value-level rule in module Validation describes. */
module Optimizer {
  import opened Records
  import opened Validation

  /** The report validation fills in. Its per-field table is never written to,
      so it stays empty. */
  datatype ValidationReport = ValidationReport(
    totalApplications: nat,
    fieldsCheck: map<string, Value>,
    isValid: bool)

  class CloudResourceOptimizer {
    var data: seq<Record>
    /** None until validation first runs (the empty report dictionary). */
    var validationReport: Option<ValidationReport>

    constructor (data: seq<Record>)
      ensures this.data == data
      ensures validationReport == None
    {
      this.data := data;
      validationReport := None;
    }

    /** One assignment of the conversion block: field `key` of record `i` is
        passed through int() or float() and written back; a failed conversion
        writes nothing. */
    method ConvertField(i: nat, key: string, p: Parsers) returns (ok: bool)
      requires i < |data| && key in data[i]
      modifies this`data
      ensures ok == Coerce(old(data[i][key]), KindOf(key), p).Some?
      ensures ok ==> data == old(data)[i := old(data[i])[key := Coerce(old(data[i][key]), KindOf(key), p).value]]
      ensures !ok ==> data == old(data)
    {
      var c := Coerce(data[i][key], KindOf(key), p);
      if c.None? {
        return false;
      }
      data := data[i := data[i][key := c.value]];
      return true;
    }

    /** The conversion block for record `i`: the five conversions in order,
        each written back before the next runs, the first failure ending it. */
    method ConvertNumeric(i: nat, p: Parsers) returns (ok: bool)
      requires i < |data| && NumericFields <= data[i].Keys
      modifies this`data
      ensures ok == CoerceNumeric(old(data[i]), p).Converted?
      ensures data == old(data)[i := CoerceNumeric(old(data[i]), p).rec]
    {
      ghost var start := data[i];
      CoerceFieldsStep(start, NumericOrder, p);
      ok := ConvertField(i, CurrentResources, p);
      if ok {
        ghost var before := data[i];
        CoerceFieldsStep(before, NumericOrder[1..], p);
        ok := ConvertField(i, UserDemand, p);
      }
      if ok {
        ghost var before := data[i];
        CoerceFieldsStep(before, NumericOrder[2..], p);
        ok := ConvertField(i, MaxCapacity, p);
      }
      if ok {
        ghost var before := data[i];
        CoerceFieldsStep(before, NumericOrder[3..], p);
        ok := ConvertField(i, PerformanceThreshold, p);
      }
      if ok {
        ghost var before := data[i];
        CoerceFieldsStep(before, NumericOrder[4..], p);
        ok := ConvertField(i, ScalingFactor, p);
      }
    }

    /** Validates the batch. The report is reset to the batch size and valid,
        and is marked invalid on every path that returns false. */
    method ValidateData(p: Parsers) returns (valid: bool)
      modifies this
      ensures valid == Validate(old(data), p).failure.None?
      ensures data == Validate(old(data), p).data
      ensures validationReport == Some(ValidationReport(|old(data)|, map[], valid))
    {
      validationReport := Some(ValidationReport(|data|, map[], true));
      ghost var run := Validate(data, p);
      var i := 0;
      while i < |data|
        invariant i <= |data| == |old(data)|
        invariant ValidateFrom(data, i, p) == run
        invariant validationReport == Some(ValidationReport(|old(data)|, map[], true))
      {
        var missing := MissingFields(data[i]);
        if missing != [] {
          StepMissing(data, i, p);
          validationReport := Some(validationReport.value.(isValid := false));
          return false;
        }
        MissingFieldsSpec(data[i]);
        ghost var before := data;
        var ok := ConvertNumeric(i, p);
        if !ok {
          StepNotNumeric(before, i, p);
          validationReport := Some(validationReport.value.(isValid := false));
          return false;
        }
        var rec := data[i];
        CoerceNumericSpec(before[i], p);
        if || rec[CurrentResources].i <= 0
           || rec[UserDemand].i <= 0
           || rec[MaxCapacity].i <= 0
           || rec[ScalingFactor].r <= 0.0
           || !(0.0 <= rec[PerformanceThreshold].r <= 100.0)
        {
          StepOutOfRange(before, i, p);
          validationReport := Some(validationReport.value.(isValid := false));
          return false;
        }
        StepPasses(before, i, p);
        i := i + 1;
      }
      return true;
    }
  }
}
