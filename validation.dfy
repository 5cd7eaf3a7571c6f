/** The batch validation rule of the optimizer, as values: which fields a record
    misses, how its numeric fields are coerced in place, the range rule, and the
    walk over the batch that stops at the first bad record. The imperative
    method in module Optimizer is proved to follow these functions. */
module Validation {
  import opened Records

  /** Why a batch was rejected, with the 1-based row of the offending record. */
  datatype Failure =
    | MissingFieldsError(row: nat, fields: seq<string>)
    | InvalidNumericError(row: nat)
    | OutOfRangeError(row: nat)

  /** The fields among `fields` that `rec` lacks or holds as None, in order. */
  function Missing(rec: Record, fields: seq<string>): seq<string> {
    if fields == [] then []
    else
      var rest := Missing(rec, fields[1..]);
      if fields[0] !in rec || rec[fields[0]].Null? then [fields[0]] + rest else rest
  }

  /** The fields named missing are exactly the listed ones that are absent or
      None, and there are no more of them than were listed. */
  lemma {:induction false} MissingSpec(rec: Record, fields: seq<string>)
    ensures |Missing(rec, fields)| <= |fields|
    ensures forall f :: f in Missing(rec, fields) <==> f in fields && (f !in rec || rec[f].Null?)
  {
    if fields != [] {
      MissingSpec(rec, fields[1..]);
      assert forall f :: f in fields <==> f == fields[0] || f in fields[1..];
    }
  }

  /** The required fields `rec` lacks or holds as None, in order. */
  function MissingFields(rec: Record): seq<string> {
    Missing(rec, RequiredFields)
  }

  /** A record misses no required field exactly when each of the six is
      present and not None, and then the five numeric fields are all there;
      the fields named are exactly the required ones it lacks or holds as None. */
  lemma MissingFieldsSpec(rec: Record)
    ensures MissingFields(rec) == [] <==> forall f :: f in RequiredFields ==> f in rec && !rec[f].Null?
    ensures forall f :: f in MissingFields(rec) <==> f in RequiredFields && (f !in rec || rec[f].Null?)
    ensures MissingFields(rec) == [] ==> NumericFields <= rec.Keys
  {
    MissingSpec(rec, RequiredFields);
    var r := MissingFields(rec);
    assert r != [] ==> r[0] in r;
  }

  /** The record after the coercion step, and whether every conversion succeeded. */
  datatype Coercion = Converted(rec: Record) | NotNumeric(rec: Record)

  /** Converts `fields` in order, writing each result back into the record
      before the next conversion runs; the first that fails stops the rest, so
      the fields converted before it keep their new values. */
  function CoerceFields(rec: Record, fields: seq<string>, p: Parsers): Coercion
    requires forall f :: f in fields ==> f in rec
    decreases |fields|
  {
    if fields == [] then Converted(rec)
    else
      match Coerce(rec[fields[0]], KindOf(fields[0]), p)
      case None => NotNumeric(rec)
      case Some(v) => CoerceFields(rec[fields[0] := v], fields[1..], p)
  }

  /** One step of the conversion: the first listed field is converted and
      written back before the rest run, or the conversion stops there. */
  lemma CoerceFieldsStep(rec: Record, fields: seq<string>, p: Parsers)
    requires fields != [] && forall f :: f in fields ==> f in rec
    ensures var c := Coerce(rec[fields[0]], KindOf(fields[0]), p);
      CoerceFields(rec, fields, p) ==
        if c.None? then NotNumeric(rec) else CoerceFields(rec[fields[0] := c.value], fields[1..], p)
  {
  }

  /** The conversion block: int() for the three resource figures, float() for
      the threshold and the scaling factor, in that order. */
  function CoerceNumeric(rec: Record, p: Parsers): Coercion
    requires NumericFields <= rec.Keys
  {
    CoerceFields(rec, NumericOrder, p)
  }

  /** Converting a list of distinct fields adds and drops no field, touches
      only the listed ones, each of which it leaves alone or replaces by its
      conversion; it converts the record exactly when every listed conversion
      succeeds, and then every listed field holds its conversion. */
  lemma {:induction false} CoerceFieldsSpec(rec: Record, fields: seq<string>, p: Parsers)
    requires forall f :: f in fields ==> f in rec
    requires forall a, b :: 0 <= a < b < |fields| ==> fields[a] != fields[b]
    ensures var r := CoerceFields(rec, fields, p);
      && r.rec.Keys == rec.Keys
      && (forall k :: k in rec && k !in fields ==> r.rec[k] == rec[k])
      && (forall k :: k in fields ==> r.rec[k] == rec[k] || Some(r.rec[k]) == Coerce(rec[k], KindOf(k), p))
      && (r.Converted? <==> forall k :: k in fields ==> Coerce(rec[k], KindOf(k), p).Some?)
      && (r.Converted? ==> forall k :: k in fields ==> Some(r.rec[k]) == Coerce(rec[k], KindOf(k), p))
    decreases |fields|
  {
    if fields != [] {
      var f := fields[0];
      var rest := fields[1..];
      assert forall k :: k in rest ==> k != f && k in fields;
      match Coerce(rec[f], KindOf(f), p)
      case None =>
      case Some(v) =>
        var next := rec[f := v];
        CoerceFieldsSpec(next, rest, p);
        assert forall k :: k in fields ==> k == f || k in rest;
    }
  }

  /** The conversion block adds and drops no field and touches only the five
      numeric ones, each of which it leaves alone or replaces by its
      conversion. It converts the record exactly when all five conversions
      succeed, and then every numeric field holds its conversion and the record
      has its typed view. */
  lemma CoerceNumericSpec(rec: Record, p: Parsers)
    requires NumericFields <= rec.Keys
    ensures var r := CoerceNumeric(rec, p);
      && r.rec.Keys == rec.Keys
      && (forall k :: k in rec && k !in NumericFields ==> r.rec[k] == rec[k])
      && (forall k :: k in NumericFields ==> r.rec[k] == rec[k] || Some(r.rec[k]) == Coerce(rec[k], KindOf(k), p))
      && (r.Converted? <==> forall k :: k in NumericFields ==> Coerce(rec[k], KindOf(k), p).Some?)
      && (r.Converted? ==> forall k :: k in NumericFields ==> Some(r.rec[k]) == Coerce(rec[k], KindOf(k), p))
      && (r.Converted? ==> InputsOf(r.rec).Some?)
  {
    assert forall k :: k in NumericOrder <==> k in NumericFields;
    CoerceFieldsSpec(rec, NumericOrder, p);
    InputsOfSpec(CoerceNumeric(rec, p).rec);
  }

  /** What checking one record does: it passes with its coerced form, or it is
      rejected with the failure and the record as the check left it. */
  datatype RecordCheck = Passed(rec: Record) | Rejected(failure: Failure, rec: Record)

  /** The check the validator runs on the record at 1-based row `row`: the
      required-field test, then the conversion block, then the range rule. */
  function CheckRecord(rec: Record, row: nat, p: Parsers): RecordCheck {
    var missing := MissingFields(rec);
    if missing != [] then Rejected(MissingFieldsError(row, missing), rec)
    else
      // a record missing nothing has all five numeric fields to convert
      MissingFieldsSpec(rec);
      match CoerceNumeric(rec, p)
      case NotNumeric(partial) => Rejected(InvalidNumericError(row), partial)
      case Converted(coerced) =>
        if !RecordInRange(coerced) then Rejected(OutOfRangeError(row), coerced) else Passed(coerced)
  }

  /** Checking a record adds and drops no field and changes none but the
      numeric ones; a rejection names the row it was given; a record that
      passes holds the conversions of its numeric fields, and they satisfy the
      range rule; and the record is rejected for missing fields, unchanged and
      with exactly the fields it misses, precisely when it misses any. */
  lemma CheckRecordSpec(rec: Record, row: nat, p: Parsers)
    ensures var r := CheckRecord(rec, row, p);
      && r.rec.Keys == rec.Keys
      && (forall k :: k in rec && k !in NumericFields ==> r.rec[k] == rec[k])
      && (r.Rejected? ==> r.failure.row == row)
      && (r.Passed? ==> InputsOf(r.rec).Some? && InRange(InputsOf(r.rec).value))
      && (r.Passed? ==> forall k :: k in NumericFields ==> Some(r.rec[k]) == Coerce(rec[k], KindOf(k), p))
      && (MissingFields(rec) != [] <==> r == Rejected(MissingFieldsError(row, MissingFields(rec)), rec))
  {
    MissingFieldsSpec(rec);
    if MissingFields(rec) == [] {
      CoerceNumericSpec(rec, p);
    }
  }

  /** The conditions under which the validator accepts a record, read off the
      record as it arrives: all six required fields present and not None, the
      five conversions succeeding, and their results satisfying the range rule. */
  predicate Acceptable(rec: Record, p: Parsers) {
    && (forall f :: f in RequiredFields ==> f in rec && !rec[f].Null?)
    && NumericFields <= rec.Keys
    && match (ToInt(rec[CurrentResources], p), ToInt(rec[UserDemand], p), ToInt(rec[MaxCapacity], p),
              ToFloat(rec[PerformanceThreshold], p), ToFloat(rec[ScalingFactor], p))
       case (Some(c), Some(u), Some(m), Some(t), Some(s)) => InRange(Inputs(c, u, m, t, s))
       case _ => false
  }

  /** Which of the four outcomes checking a record has, in terms of the record
      as it arrives: it passes exactly when it is acceptable; it is rejected as
      not numeric exactly when nothing is missing and some conversion fails; and
      it is rejected as out of range exactly when nothing is missing, every
      conversion succeeds, and still it is not acceptable. */
  lemma CheckRecordOutcome(rec: Record, row: nat, p: Parsers)
    ensures CheckRecord(rec, row, p).Passed? <==> Acceptable(rec, p)
    ensures CheckRecord(rec, row, p) == Rejected(InvalidNumericError(row), CheckRecord(rec, row, p).rec) <==>
      MissingFields(rec) == [] &&
      exists k :: k in NumericFields && k in rec && Coerce(rec[k], KindOf(k), p).None?
    ensures CheckRecord(rec, row, p) == Rejected(OutOfRangeError(row), CheckRecord(rec, row, p).rec) <==>
      && MissingFields(rec) == []
      && (forall k :: k in NumericFields ==> k in rec && Coerce(rec[k], KindOf(k), p).Some?)
      && !Acceptable(rec, p)
  {
    MissingFieldsSpec(rec);
    if MissingFields(rec) == [] {
      CoerceNumericSpec(rec, p);
      var c := CoerceNumeric(rec, p);
      if c.Converted? {
        assert Some(c.rec[CurrentResources]) == Coerce(rec[CurrentResources], IntKind, p);
        assert Some(c.rec[UserDemand]) == Coerce(rec[UserDemand], IntKind, p);
        assert Some(c.rec[MaxCapacity]) == Coerce(rec[MaxCapacity], IntKind, p);
        assert Some(c.rec[PerformanceThreshold]) == Coerce(rec[PerformanceThreshold], FloatKind, p);
        assert Some(c.rec[ScalingFactor]) == Coerce(rec[ScalingFactor], FloatKind, p);
      } else {
        var k :| k in NumericFields && Coerce(rec[k], KindOf(k), p).None?;
        assert k in NumericFields && k in rec && Coerce(rec[k], KindOf(k), p).None?;
      }
    }
  }

  /** The outcome of a validation run: the first failure, if any, and the batch
      as the run left it. */
  datatype Run = Run(failure: Option<Failure>, data: seq<Record>)

  /** The walk over the batch from index `i` on: each record is checked in turn
      and written back as the check left it; the first rejection ends the walk. */
  function ValidateFrom(data: seq<Record>, i: nat, p: Parsers): Run
    requires i <= |data|
    decreases |data| - i
  {
    if i == |data| then Run(None, data)
    else
      match CheckRecord(data[i], i + 1, p)
      case Passed(rec) => ValidateFrom(data[i := rec], i + 1, p)
      case Rejected(f, rec) => Run(Some(f), data[i := rec])
  }

  function Validate(data: seq<Record>, p: Parsers): Run {
    ValidateFrom(data, 0, p)
  }

  /** One step of the walk at a record that misses a required field. */
  lemma StepMissing(data: seq<Record>, i: nat, p: Parsers)
    requires i < |data| && MissingFields(data[i]) != []
    ensures ValidateFrom(data, i, p) == Run(Some(MissingFieldsError(i + 1, MissingFields(data[i]))), data)
  {
    assert data[i := data[i]] == data;
  }

  /** One step of the walk at a complete record whose conversion fails. */
  lemma StepNotNumeric(data: seq<Record>, i: nat, p: Parsers)
    requires i < |data| && MissingFields(data[i]) == [] && NumericFields <= data[i].Keys
    requires CoerceNumeric(data[i], p).NotNumeric?
    ensures ValidateFrom(data, i, p) ==
      Run(Some(InvalidNumericError(i + 1)), data[i := CoerceNumeric(data[i], p).rec])
  {
  }

  /** One step of the walk at a converted record that breaks the range rule. */
  lemma StepOutOfRange(data: seq<Record>, i: nat, p: Parsers)
    requires i < |data| && MissingFields(data[i]) == [] && NumericFields <= data[i].Keys
    requires CoerceNumeric(data[i], p).Converted? && !RecordInRange(CoerceNumeric(data[i], p).rec)
    ensures ValidateFrom(data, i, p) ==
      Run(Some(OutOfRangeError(i + 1)), data[i := CoerceNumeric(data[i], p).rec])
  {
  }

  /** One step of the walk at a record that passes: the walk goes on from the
      next index with the record written back in its converted form. */
  lemma StepPasses(data: seq<Record>, i: nat, p: Parsers)
    requires i < |data| && MissingFields(data[i]) == [] && NumericFields <= data[i].Keys
    requires CoerceNumeric(data[i], p).Converted? && RecordInRange(CoerceNumeric(data[i], p).rec)
    ensures ValidateFrom(data, i, p) ==
      ValidateFrom(data[i := CoerceNumeric(data[i], p).rec], i + 1, p)
  {
  }

  /** A walk from index `i` keeps the batch's length and never touches the
      records before `i`. */
  lemma {:induction false} ValidateFromShape(data: seq<Record>, i: nat, p: Parsers)
    requires i <= |data|
    ensures |ValidateFrom(data, i, p).data| == |data|
    ensures forall k :: 0 <= k < i ==> ValidateFrom(data, i, p).data[k] == data[k]
    decreases |data| - i
  {
    if i < |data| {
      var c := CheckRecord(data[i], i + 1, p);
      if c.Passed? {
        ValidateFromShape(data[i := c.rec], i + 1, p);
      }
    }
  }

  /** A walk from index `i` passes exactly when every later record passes, and
      then leaves each of them in the form its check gave it. */
  lemma {:induction false} ValidateFromPasses(data: seq<Record>, i: nat, p: Parsers)
    requires i <= |data|
    ensures |ValidateFrom(data, i, p).data| == |data|
    ensures ValidateFrom(data, i, p).failure.None? <==>
      forall k :: i <= k < |data| ==> CheckRecord(data[k], k + 1, p).Passed?
    ensures ValidateFrom(data, i, p).failure.None? ==>
      forall k :: i <= k < |data| ==> ValidateFrom(data, i, p).data[k] == CheckRecord(data[k], k + 1, p).rec
    decreases |data| - i
  {
    ValidateFromShape(data, i, p);
    if i < |data| {
      var c := CheckRecord(data[i], i + 1, p);
      if c.Passed? {
        var next := data[i := c.rec];
        ValidateFromPasses(next, i + 1, p);
        ValidateFromShape(next, i + 1, p);
        assert forall k :: i + 1 <= k < |data| ==> next[k] == data[k];
      }
    }
  }

  /** When a walk from index `i` fails, it fails at the first record from `i` on
      that does not pass: the records between are left as their checks gave
      them and the ones after it are left as they were. */
  lemma {:induction false} ValidateFromFails(data: seq<Record>, i: nat, p: Parsers)
    requires i <= |data|
    requires ValidateFrom(data, i, p).failure.Some?
    ensures var r := ValidateFrom(data, i, p);
      var j := r.failure.value.row - 1;
      && |r.data| == |data|
      && i <= j < |data|
      && (forall k :: i <= k < j ==> CheckRecord(data[k], k + 1, p).Passed?)
      && (forall k :: i <= k < j ==> r.data[k] == CheckRecord(data[k], k + 1, p).rec)
      && CheckRecord(data[j], j + 1, p) == Rejected(r.failure.value, r.data[j])
      && (forall k :: j < k < |data| ==> r.data[k] == data[k])
    decreases |data| - i
  {
    ValidateFromShape(data, i, p);
    var c := CheckRecord(data[i], i + 1, p);
    if c.Passed? {
      var next := data[i := c.rec];
      ValidateFromFails(next, i + 1, p);
      ValidateFromShape(next, i + 1, p);
      assert forall k :: i + 1 <= k < |data| ==> next[k] == data[k];
    }
  }

  /** A batch passes exactly when every record, checked at its own row, passes. */
  lemma ValidatePassesIff(data: seq<Record>, p: Parsers)
    ensures Validate(data, p).failure.None? <==>
      forall k :: 0 <= k < |data| ==> CheckRecord(data[k], k + 1, p).Passed?
  {
    ValidateFromPasses(data, 0, p);
  }

  /** After a run that passes, every record carries an int, an int, an int, a
      float and a float in its numeric fields, and they satisfy the range rule. */
  lemma ValidatedRecordsInRange(data: seq<Record>, p: Parsers)
    requires Validate(data, p).failure.None?
    ensures var out := Validate(data, p).data;
      && |out| == |data|
      && forall k :: 0 <= k < |out| ==> InputsOf(out[k]).Some? && InRange(InputsOf(out[k]).value)
  {
    ValidateFromPasses(data, 0, p);
    var out := Validate(data, p).data;
    forall k | 0 <= k < |out| ensures InputsOf(out[k]).Some? && InRange(InputsOf(out[k]).value) {
      CheckRecordSpec(data[k], k + 1, p);
      assert out[k] == CheckRecord(data[k], k + 1, p).rec;
    }
  }

  /** Each record a run leaves behind is either untouched or the form its own
      check left it in. */
  lemma ValidateRecordOrigin(data: seq<Record>, p: Parsers)
    ensures |Validate(data, p).data| == |data|
    ensures forall k :: 0 <= k < |data| ==>
      Validate(data, p).data[k] == data[k] || Validate(data, p).data[k] == CheckRecord(data[k], k + 1, p).rec
  {
    ValidateFromPasses(data, 0, p);
    if Validate(data, p).failure.Some? {
      ValidateFromFails(data, 0, p);
    }
  }

  /** A run never adds or drops a field, and never changes a field other than
      the five numeric ones; in particular `application_id` is left alone. */
  lemma ValidateFrame(data: seq<Record>, p: Parsers)
    ensures var out := Validate(data, p).data;
      && |out| == |data|
      && (forall k :: 0 <= k < |data| ==> out[k].Keys == data[k].Keys)
      && (forall k, key :: 0 <= k < |data| && key in data[k] && key !in NumericFields ==> out[k][key] == data[k][key])
  {
    ValidateRecordOrigin(data, p);
    forall k | 0 <= k < |data| ensures
      var c := CheckRecord(data[k], k + 1, p).rec;
      c.Keys == data[k].Keys && forall key :: key in data[k] && key !in NumericFields ==> c[key] == data[k][key]
    {
      CheckRecordSpec(data[k], k + 1, p);
    }
  }

  /** When a run fails, the failure names the first record that does not pass,
      every record before it has been coerced, and no record after it has been
      looked at. */
  lemma ValidateStopsAtFirstFailure(data: seq<Record>, p: Parsers)
    requires Validate(data, p).failure.Some?
    ensures |Validate(data, p).data| == |data|
    ensures var r := Validate(data, p);
      var j := r.failure.value.row - 1;
      && 0 <= j < |data|
      && (forall k :: 0 <= k < j ==> CheckRecord(data[k], k + 1, p).Passed?)
      && (forall k :: 0 <= k < j ==> r.data[k] == CheckRecord(data[k], k + 1, p).rec)
      && CheckRecord(data[j], j + 1, p).Rejected?
      && r.data[j + 1..] == data[j + 1..]
  {
    ValidateFromFails(data, 0, p);
    var r := Validate(data, p);
    var j := r.failure.value.row - 1;
    assert r.data[j + 1..] == data[j + 1..];
  }

  /** A walk from index `i` that reaches, through records that all pass, a
      record `j` missing a required field reports exactly its missing fields
      and 1-based row, and leaves it and every record after it as they were. */
  lemma {:induction false} ValidateFromReportsMissing(data: seq<Record>, i: nat, j: nat, p: Parsers)
    requires i <= j < |data|
    requires forall k :: i <= k < j ==> CheckRecord(data[k], k + 1, p).Passed?
    requires MissingFields(data[j]) != []
    ensures |ValidateFrom(data, i, p).data| == |data|
    ensures ValidateFrom(data, i, p).failure == Some(MissingFieldsError(j + 1, MissingFields(data[j])))
    ensures ValidateFrom(data, i, p).data[j..] == data[j..]
    decreases j - i
  {
    if i == j {
      StepMissing(data, i, p);
    } else {
      var next := data[i := CheckRecord(data[i], i + 1, p).rec];
      assert forall k :: i < k < |data| ==> next[k] == data[k];
      ValidateFromReportsMissing(next, i + 1, j, p);
      assert next[j..] == data[j..];
    }
  }

  /** The first record that misses a required field, coming after records that
      all pass, is reported with exactly its missing fields and 1-based row, and
      it and every record after it are left as they were. */
  lemma ValidateReportsFirstMissing(data: seq<Record>, j: nat, p: Parsers)
    requires j < |data|
    requires forall k :: 0 <= k < j ==> CheckRecord(data[k], k + 1, p).Passed?
    requires MissingFields(data[j]) != []
    ensures |Validate(data, p).data| == |data|
    ensures Validate(data, p).failure == Some(MissingFieldsError(j + 1, MissingFields(data[j])))
    ensures Validate(data, p).data[j..] == data[j..]
  {
    ValidateFromReportsMissing(data, 0, j, p);
  }

  /** A record that passed is passed again unchanged. */
  lemma CheckRecordIdempotent(rec: Record, row: nat, row': nat, p: Parsers)
    requires CheckRecord(rec, row, p).Passed?
    ensures CheckRecord(CheckRecord(rec, row, p).rec, row', p) == CheckRecord(rec, row, p)
  {
    CheckRecordSpec(rec, row, p);
    var out := CheckRecord(rec, row, p).rec;
    MissingFieldsSpec(rec);
    MissingFieldsSpec(out);
    assert MissingFields(out) == [] by {
      forall f | f in RequiredFields ensures f in out && !out[f].Null? {
        if f in NumericFields {
          assert Some(out[f]) == Coerce(rec[f], KindOf(f), p);
        }
      }
    }
    forall k | k in NumericFields ensures Coerce(out[k], KindOf(k), p) == Some(out[k]) {
      CoerceIdempotent(rec[k], KindOf(k), p);
    }
    CoerceNumericSpec(out, p);
    var c := CoerceNumeric(out, p);
    assert c.rec == out;
  }

  /** Validating a batch that has passed once passes again and changes nothing. */
  lemma ValidateIdempotent(data: seq<Record>, p: Parsers)
    requires Validate(data, p).failure.None?
    ensures Validate(Validate(data, p).data, p) == Run(None, Validate(data, p).data)
  {
    var out := Validate(data, p).data;
    ValidateFromPasses(data, 0, p);
    ValidateFromPasses(out, 0, p);
    forall k | 0 <= k < |out| ensures CheckRecord(out[k], k + 1, p) == Passed(out[k]) {
      CheckRecordIdempotent(data[k], k + 1, k + 1, p);
    }
    var r := Validate(out, p);
    assert r.failure.None?;
    assert r.data == out;
  }
}
