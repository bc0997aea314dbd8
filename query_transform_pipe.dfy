/**
 The pagination pipe applied to post listings: it reads `pageNumber` and
 `pageSize` from an HTTP query and returns a fresh paginator holding two
 numbers, falling back to page 1 and to 8 posts per page.

 JavaScript values are modelled only as far as the pipe looks at them: whether
 a value is truthy (the `||` operator) and what `Number(value)` gives. Parsing a
 string into a number is not modelled; a text value carries the number that
 `Number` makes of it.
 */
module QueryTransformPipe {

  /** A JavaScript number as far as the pipe can tell them apart. */
  datatype Num = NaN | NegInfinity | Finite(v: real) | PosInfinity

  /** A value that the query parser can put under a query key. */
  datatype Raw =
    | Undefined
    | Null
    | Bool(b: bool)
    | NumberValue(n: Num)
      /** a string `s` and the number `Number(s)` gives for it */
    | Text(s: string, asNumber: Num)
      /** an array or an object (repeated or bracketed keys) and its `Number` value */
    | Object(asNumber: Num)

  /** The raw query: the two paging keys and whatever other keys it carries. */
  datatype Query = Query(pageNumber: Raw, pageSize: Raw, others: map<string, Raw>)

  /** What the pipe returns: exactly two numeric fields. */
  datatype Paginator = Paginator(pageNumber: Num, pageSize: Num)

  const DefaultPageNumber: real := 1.0
  const DefaultPageSize: real := 8.0

  /** JavaScript's `Number(x)`. */
  function ToNumber(x: Raw): Num
  {
    match x
    case Undefined => NaN
    case Null => Finite(0.0)
    case Bool(b) => Finite(if b then 1.0 else 0.0)
    case NumberValue(n) => n
    case Text(_, n) => n
    case Object(n) => n
  }

  /** JavaScript truthiness, which decides `x || d`. */
  predicate Truthy(x: Raw)
  {
    match x
    case Undefined => false
    case Null => false
    case Bool(b) => b
    case NumberValue(n) => !(n.NaN? || n == Finite(0.0))
    case Text(s, _) => s != ""
    case Object(_) => true
  }

  /** The one fact about string parsing the pipe relies on: `Number("")` is 0. */
  predicate WellFormed(x: Raw)
  {
    x.Text? && x.s == "" ==> x.asNumber == Finite(0.0)
  }

  /** JavaScript's `n < k` for a finite `k`: false whenever `n` is NaN. */
  predicate LessThan(n: Num, k: real)
  {
    n.NegInfinity? || (n.Finite? && n.v < k)
  }

  /** A page number or size the pipe accepts: a number that is at least 1. */
  predicate AtLeastOne(n: Num)
  {
    n.PosInfinity? || (n.Finite? && n.v >= 1.0)
  }

  /**
   One field as the pipe handles it: `let v = raw || d;` and then
   `if (Number(v) < 1 || isNaN(Number(v))) v = d;`.
   */
  function NormaliseField(raw: Raw, default: real): Raw
  {
    var v := if Truthy(raw) then raw else NumberValue(Finite(default));
    if LessThan(ToNumber(v), 1.0) || ToNumber(v).NaN? then NumberValue(Finite(default)) else v
  }

  /** `QueryTransformPipe.transform`: both fields are numbers, at least 1. */
  function Transform(query: Query): (r: Paginator)
    ensures AtLeastOne(r.pageNumber) && !r.pageNumber.NaN?
    ensures AtLeastOne(r.pageSize) && !r.pageSize.NaN?
  {
    Paginator(ToNumber(NormaliseField(query.pageNumber, DefaultPageNumber)),
              ToNumber(NormaliseField(query.pageSize, DefaultPageSize)))
  }

  /** Independent statement of one field's outcome: keep `Number(raw)` when it is at least 1. */
  function Accepted(raw: Raw, default: real): Num
  {
    if AtLeastOne(ToNumber(raw)) then ToNumber(raw) else Finite(default)
  }

  /** The paginator as a query again, as a second pass of the pipe would see it. */
  function AsQuery(p: Paginator): Query
  {
    Query(NumberValue(p.pageNumber), NumberValue(p.pageSize), map[])
  }

  /**
   The two-step code of each field gives exactly the reference outcome: a value
   whose `Number` is at least 1 passes through as that number, and every other
   value gives the default.
   */
  lemma TransformIsAccepted(query: Query)
    requires WellFormed(query.pageNumber) && WellFormed(query.pageSize)
    ensures Transform(query).pageNumber == Accepted(query.pageNumber, DefaultPageNumber)
    ensures Transform(query).pageSize == Accepted(query.pageSize, DefaultPageSize)
  {
  }

  /** A missing or falsy value (undefined, null, false, 0, NaN, "") gets its default. */
  lemma FalsyGetsDefault(query: Query)
    ensures !Truthy(query.pageNumber) ==> Transform(query).pageNumber == Finite(1.0)
    ensures !Truthy(query.pageSize) ==> Transform(query).pageSize == Finite(8.0)
  {
  }

  /** A value that is not a number, or is below 1, is replaced by its default. */
  lemma RejectedGetsDefault(query: Query)
    ensures (ToNumber(query.pageNumber).NaN? || LessThan(ToNumber(query.pageNumber), 1.0))
            ==> Transform(query).pageNumber == Finite(1.0)
    ensures (ToNumber(query.pageSize).NaN? || LessThan(ToNumber(query.pageSize), 1.0))
            ==> Transform(query).pageSize == Finite(8.0)
  {
  }

  /** Each output field depends on its own input field only. */
  lemma FieldsIndependent(q1: Query, q2: Query)
    ensures q1.pageNumber == q2.pageNumber ==> Transform(q1).pageNumber == Transform(q2).pageNumber
    ensures q1.pageSize == q2.pageSize ==> Transform(q1).pageSize == Transform(q2).pageSize
  {
  }

  /** Nothing else in the query reaches the result. */
  lemma OtherKeysIgnored(query: Query, others: map<string, Raw>)
    ensures Transform(query.(others := others)) == Transform(query)
  {
  }

  /** Running the pipe on its own output changes nothing. */
  lemma TransformIdempotent(query: Query)
    ensures Transform(AsQuery(Transform(query))) == Transform(query)
  {
  }
}
