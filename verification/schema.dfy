/**
  The declarative form schema: five fields, each either an optional boolean
  with a default or a required number with inclusive bounds, and the
  field-level validation the schema library applies to one value.
 */
module FormSchema {
  import opened Wrappers

  /** The two kinds of value a field can hold. */
  datatype ValueType = Bool | Num

  /** A value as held by the form: a checkbox state or an already-parsed number. */
  datatype Value = BoolVal(b: bool) | NumVal(n: int) {
    function Type(): ValueType {
      if BoolVal? then Bool else Num
    }
  }

  /** The constraint a field declares. */
  datatype Rule =
    | OptionalBool(default: bool)        // boolean, may be left unset, filled with `default`
    | BoundedNum(min: int, max: int)     // number, required, `min <= n <= max`

  datatype Field = Field(name: string, rule: Rule) {
    function Type(): ValueType {
      if rule.OptionalBool? then Bool else Num
    }
  }

  /** Why a single value is rejected. */
  datatype ErrorKind =
    | TypeMismatch   // a value of the other value type
    | Required       // a required field left unset
    | TooSmall       // below the declared minimum
    | TooBig         // above the declared maximum

  /** The schema, in declaration order. */
  const Fields: seq<Field> := [
    Field("hasChargersNearby", OptionalBool(false)),
    Field("dailyKilometers", BoundedNum(1, 1000)),
    Field("seatingCapacity", BoundedNum(1, 8)),
    Field("needsLargeTrunk", OptionalBool(false)),
    Field("priceLimit", BoundedNum(10000, 200000))
  ]

  /** Number of fields, and so of wizard steps. */
  const N: nat := |Fields|

  /** Indices of fields that hold numbers. */
  predicate IsNumeric(i: int) {
    0 <= i < N && Fields[i].rule.BoundedNum?
  }

  /** Whether `v` (absent when the field is unset) satisfies field `f`. */
  predicate Admissible(f: Field, v: Option<Value>) {
    match v
    case None => f.rule.OptionalBool?
    case Some(x) =>
      x.Type() == f.Type() &&
      (f.rule.BoundedNum? ==> f.rule.min <= x.n <= f.rule.max)
  }

  /**
    Validates one field: the type check comes first, then the minimum, then
    the maximum. A successful result is the value itself, or the declared
    default for an unset optional boolean.
   */
  function Validate(f: Field, v: Option<Value>): (r: Result<Value, ErrorKind>)
    ensures r.Success? <==> Admissible(f, v)
    ensures r.Success? ==> r.value.Type() == f.Type()
    ensures r.Success? && v.Some? ==> r.value == v.value
    ensures r.Success? && v.None? ==> r.value == BoolVal(f.rule.default)
    ensures r.Failure? && v.None? ==> r.error == Required
    ensures r.Failure? && v.Some? && v.value.Type() != f.Type() ==> r.error == TypeMismatch
    ensures r.Failure? && v.Some? && v.value.Type() == f.Type() ==>
              f.rule.BoundedNum? &&
              (r.error == TooSmall <==> v.value.n < f.rule.min) &&
              (r.error == TooBig <==> f.rule.min <= v.value.n && v.value.n > f.rule.max)
  {
    match f.rule
    case OptionalBool(d) =>
      (match v
       case None => Success(BoolVal(d))
       case Some(BoolVal(b)) => Success(BoolVal(b))
       case Some(NumVal(_)) => Failure(TypeMismatch))
    case BoundedNum(lo, hi) =>
      (match v
       case None => Failure(Required)
       case Some(BoolVal(_)) => Failure(TypeMismatch)
       case Some(NumVal(n)) =>
         if n < lo then Failure(TooSmall)
         else if n > hi then Failure(TooBig)
         else Success(NumVal(n)))
  }

  /** Field names are unique, so a name identifies its field. */
  lemma NamesUnique()
    ensures forall i, j :: 0 <= i < j < N ==> Fields[i].name != Fields[j].name
  {
  }

  /**
    Every numeric field accepts exactly the numbers between its bounds: in
    particular its minimum and maximum, and neither one below the minimum
    nor one above the maximum.
   */
  lemma NumericBoundsInclusive(i: int, n: int)
    requires IsNumeric(i)
    ensures Validate(Fields[i], Some(NumVal(n))).Success? <==>
              Fields[i].rule.min <= n <= Fields[i].rule.max
    ensures Validate(Fields[i], Some(NumVal(Fields[i].rule.min))).Success?
    ensures Validate(Fields[i], Some(NumVal(Fields[i].rule.max))).Success?
    ensures Validate(Fields[i], Some(NumVal(Fields[i].rule.min - 1))) == Failure(TooSmall)
    ensures Validate(Fields[i], Some(NumVal(Fields[i].rule.max + 1))) == Failure(TooBig)
  {
  }

  /** The bounds the schema declares: 1..1000 km a day, 1..8 seats, 10000..200000 for the price. */
  lemma DeclaredBounds()
    ensures IsNumeric(1) && Fields[1].name == "dailyKilometers"
    ensures Fields[1].rule == BoundedNum(1, 1000)
    ensures IsNumeric(2) && Fields[2].name == "seatingCapacity"
    ensures Fields[2].rule == BoundedNum(1, 8)
    ensures IsNumeric(4) && Fields[4].name == "priceLimit"
    ensures Fields[4].rule == BoundedNum(10000, 200000)
    ensures forall i :: 0 <= i < N ==> (IsNumeric(i) <==> i in {1, 2, 4})
  {
  }

  /** The two boolean fields may be left unset and then read as false; any boolean is accepted. */
  lemma BooleansOptional(i: int, b: bool)
    requires 0 <= i < N && !IsNumeric(i)
    ensures Validate(Fields[i], None) == Success(BoolVal(false))
    ensures Validate(Fields[i], Some(BoolVal(b))) == Success(BoolVal(b))
    ensures Validate(Fields[i], Some(NumVal(0))) == Failure(TypeMismatch)
  {
  }

  /** A numeric field left unset is rejected as missing. */
  lemma NumbersRequired(i: int)
    requires IsNumeric(i)
    ensures Validate(Fields[i], None) == Failure(Required)
    ensures Validate(Fields[i], Some(BoolVal(false))) == Failure(TypeMismatch)
  {
  }
}
