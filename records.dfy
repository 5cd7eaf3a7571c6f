/** Records of the cloud resource optimizer: the Python values a record holds,
    the field names the optimizer reads, the int() and float() coercions the
    validator applies, and the typed view of a validated record. */
module Records {

  datatype Option<T> = None | Some(value: T)

  /** A value of a record dictionary: Python's None, an int, a float or a str. */
  datatype Value = Null | Int(i: int) | Real(r: real) | Text(s: string)

  /** One application's record: a dictionary from field name to value.
      A key that is absent from the map is a field missing from the dictionary. */
  type Record = map<string, Value>

  const ApplicationId: string := "application_id"
  const CurrentResources: string := "current_resources"
  const UserDemand: string := "user_demand"
  const MaxCapacity: string := "max_capacity"
  const PerformanceThreshold: string := "performance_threshold"
  const ScalingFactor: string := "scaling_factor"

  /** The six fields every record must carry, in the order they are checked. */
  const RequiredFields: seq<string> :=
    [ApplicationId, CurrentResources, UserDemand, MaxCapacity, PerformanceThreshold, ScalingFactor]

  /** The five fields the validator coerces and writes back, in the order it
      converts them. */
  const NumericOrder: seq<string> :=
    [CurrentResources, UserDemand, MaxCapacity, PerformanceThreshold, ScalingFactor]

  /** The same five fields as a set; NumericOrder lists exactly these. */
  const NumericFields: set<string> :=
    {CurrentResources, UserDemand, MaxCapacity, PerformanceThreshold, ScalingFactor}

  /** Which Python constructor a numeric field is passed through. */
  datatype Kind = IntKind | FloatKind

  function KindOf(key: string): Kind {
    if key in {CurrentResources, UserDemand, MaxCapacity} then IntKind else FloatKind
  }

  /** The string parsing done by Python's int() and float() on a str: the
      result, or None where Python raises ValueError. */
  datatype Parsers = Parsers(parseInt: string -> Option<int>, parseFloat: string -> Option<real>)

  /** Python's int() of a float: truncation toward zero. */
  function Truncate(r: real): (n: int)
    ensures 0.0 <= r ==> 0 <= n && n as real <= r < n as real + 1.0
    ensures r < 0.0 ==> n <= 0 && n as real - 1.0 < r <= n as real
  {
    if r >= 0.0 then r.Floor else -((-r).Floor)
  }

  /** Python's int(v). None never reaches it: the required-field check runs first. */
  function ToInt(v: Value, p: Parsers): Option<int> {
    match v
    case Null => None
    case Int(i) => Some(i)
    case Real(r) => Some(Truncate(r))
    case Text(s) => p.parseInt(s)
  }

  /** Python's float(v). None never reaches it: the required-field check runs first. */
  function ToFloat(v: Value, p: Parsers): Option<real> {
    match v
    case Null => None
    case Int(i) => Some(i as real)
    case Real(r) => Some(r)
    case Text(s) => p.parseFloat(s)
  }

  /** The value written back for a field of the given kind, or None where the
      conversion raises ValueError. */
  function Coerce(v: Value, kind: Kind, p: Parsers): (r: Option<Value>)
    ensures r.Some? ==> if kind == IntKind then r.value.Int? else r.value.Real?
    ensures r.Some? && v.Int? && kind == IntKind ==> r.value == v
    ensures r.Some? && v.Real? && kind == FloatKind ==> r.value == v
  {
    match kind
    case IntKind => (match ToInt(v, p) case None => None case Some(n) => Some(Int(n)))
    case FloatKind => (match ToFloat(v, p) case None => None case Some(x) => Some(Real(x)))
  }

  /** Coercing a value that was already coerced leaves it as it is. */
  lemma CoerceIdempotent(v: Value, kind: Kind, p: Parsers)
    requires Coerce(v, kind, p).Some?
    ensures Coerce(Coerce(v, kind, p).value, kind, p) == Coerce(v, kind, p)
  {
  }

  /** The numeric part of a record once the validator has coerced it. */
  datatype Inputs = Inputs(
    currentResources: int,
    userDemand: int,
    maxCapacity: int,
    performanceThreshold: real,
    scalingFactor: real)

  /** The typed view of a record whose five numeric fields hold an int, an int,
      an int, a float and a float; None for any other record. */
  function InputsOf(rec: Record): Option<Inputs> {
    if && CurrentResources in rec && rec[CurrentResources].Int?
       && UserDemand in rec && rec[UserDemand].Int?
       && MaxCapacity in rec && rec[MaxCapacity].Int?
       && PerformanceThreshold in rec && rec[PerformanceThreshold].Real?
       && ScalingFactor in rec && rec[ScalingFactor].Real?
    then Some(Inputs(rec[CurrentResources].i, rec[UserDemand].i, rec[MaxCapacity].i,
                     rec[PerformanceThreshold].r, rec[ScalingFactor].r))
    else None
  }

  /** A record has its typed view exactly when each numeric field is present
      and holds a value of its field's kind. */
  lemma InputsOfSpec(rec: Record)
    ensures InputsOf(rec).Some? <==>
      (forall k :: k in NumericFields ==> k in rec && (if KindOf(k) == IntKind then rec[k].Int? else rec[k].Real?))
  {
  }

  /** The range rule a coerced record must satisfy. */
  predicate InRange(x: Inputs) {
    && x.currentResources > 0
    && x.userDemand > 0
    && x.maxCapacity > 0
    && x.scalingFactor > 0.0
    && 0.0 <= x.performanceThreshold <= 100.0
  }

  /** The range rule read off a record. A record without the typed view fails
      it; a record the conversion step accepted always has that view. */
  predicate RecordInRange(rec: Record) {
    match InputsOf(rec)
    case None => false
    case Some(x) => InRange(x)
  }
}
