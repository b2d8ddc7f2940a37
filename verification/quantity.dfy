/** Quantity: a positive count of units of one product. */
module Quantity {
  import opened Wrappers
  import opened Text
  import opened JavaHash
  import opened DomainErrors

  datatype Quantity = Quantity(value: Int32)

  /** What every value built by `Of` satisfies. */
  predicate Valid(q: Quantity)
  {
    q.value > 0
  }

  /** `Quantity.of`: accepts exactly the positive `int`s and keeps the value. */
  function Of(v: Int32): (r: Result<Quantity, DomainError>)
    ensures r.Success? <==> v > 0
    ensures r.Success? ==> Valid(r.value) && r.value.value == v
    ensures r.Failure? ==> r.error == InvalidArgument(QuantityPositive)
  {
    if v <= 0 then Failure(InvalidArgument(QuantityPositive)) else Success(Quantity(v))
  }

  /** Every valid quantity is what `Of` builds from its own value. */
  lemma OfValue(q: Quantity)
    requires Valid(q)
    ensures Of(q.value) == Success(q)
  {
  }

  /** `equals`: same value. */
  function Equals(a: Quantity, b: Quantity): (r: bool)
    ensures r <==> a == b
  {
    a.value == b.value
  }

  /** `hashCode`: `Objects.hash(value)`. */
  function Hash(q: Quantity): Int32
  {
    Combine([IntHash(q.value)])
  }

  lemma HashConsistent(a: Quantity, b: Quantity)
    requires Equals(a, b)
    ensures Hash(a) == Hash(b)
  {
  }

  /** `toString`: the decimal rendering of the value, which parses back to it;
      a valid quantity renders as digits only, without a leading zero. */
  function ToString(q: Quantity): (r: string)
    ensures ParseInt(r) == Some(q.value as int)
    ensures Valid(q) ==> AllDigits(r) && r[0] != '0'
  {
    IntToStringRoundTrip(q.value);
    IntToString(q.value)
  }
}
