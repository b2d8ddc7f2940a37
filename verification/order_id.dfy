/** OrderId: the identity of an order, supplied or generated. */
module OrderId {
  import opened Wrappers
  import opened Text
  import opened JavaHash
  import opened DomainErrors
  import opened Uuid

  datatype OrderId = OrderId(value: string)

  /** What every value built by `Of` satisfies. */
  predicate Valid(id: OrderId)
  {
    !IsBlank(id.value)
  }

  /** `OrderId.of`: rejects a null or blank string and otherwise keeps it
      exactly as given, without trimming. */
  function Of(value: Option<string>): (r: Result<OrderId, DomainError>)
    ensures r.Success? <==> value.Some? && !IsBlank(value.value)
    ensures r.Success? ==> Valid(r.value) && r.value.value == value.value
    ensures r.Failure? ==> r.error == InvalidArgument(OrderIdRequired)
  {
    if value.None? || IsBlank(value.value) then Failure(InvalidArgument(OrderIdRequired))
    else Success(OrderId(value.value))
  }

  /** `OrderId.generate`: wraps the text of a fresh random UUID without going
      through `Of`; the result is nevertheless one that `Of` accepts. */
  function Generate(random: RandomBytes): (r: OrderId)
    ensures Valid(r)
    ensures Of(Some(r.value)) == Success(r)
    ensures |r.value| == 36 && r.value[14] == '4'
  {
    OrderId(RandomUuidString(random))
  }

  /** `equals`: same string. */
  function Equals(a: OrderId, b: OrderId): (r: bool)
    ensures r <==> a == b
  {
    a.value == b.value
  }

  /** `hashCode`: `Objects.hash(value)`. */
  function Hash(id: OrderId): Int32
  {
    Combine([StringHash(id.value)])
  }

  lemma HashConsistent(a: OrderId, b: OrderId)
    requires Equals(a, b)
    ensures Hash(a) == Hash(b)
  {
  }

  const Prefix: string := "OrderId{"

  /** `toString`: the value wrapped as `OrderId{...}`; it contains the value. */
  function ToString(id: OrderId): (r: string)
    ensures Contains(r, id.value)
    ensures |r| == |Prefix| + |id.value| + 1
    ensures r[..|Prefix|] == Prefix && r[|Prefix|..|r| - 1] == id.value && r[|r| - 1] == '}'
  {
    var r := Prefix + id.value + "}";
    assert OccursAt(r, id.value, |Prefix|);
    r
  }

  /** The value can be read back from the rendering, so distinct identifiers
      render differently. */
  lemma {:induction false} ToStringInjective(a: OrderId, b: OrderId)
    requires ToString(a) == ToString(b)
    ensures a == b
  {
    var r := ToString(a);
    assert r[|Prefix|..|r| - 1] == a.value;
    assert ToString(b)[|Prefix|..|r| - 1] == b.value;
  }
}
