/** CustomerId: the identifier of a customer, issued by the customer context. */
module CustomerId {
  import opened Wrappers
  import opened Text
  import opened JavaHash
  import opened DomainErrors

  datatype CustomerId = CustomerId(value: string)

  /** What every value built by `Of` satisfies. */
  predicate Valid(id: CustomerId)
  {
    !IsBlank(id.value)
  }

  /** `CustomerId.of`: rejects a null or blank string and otherwise keeps it
      exactly as given, without trimming. */
  function Of(value: Option<string>): (r: Result<CustomerId, DomainError>)
    ensures r.Success? <==> value.Some? && !IsBlank(value.value)
    ensures r.Success? ==> Valid(r.value) && r.value.value == value.value
    ensures r.Failure? ==> r.error == InvalidArgument(CustomerIdRequired)
  {
    if value.None? || IsBlank(value.value) then Failure(InvalidArgument(CustomerIdRequired))
    else Success(CustomerId(value.value))
  }

  /** `equals`: same string. */
  function Equals(a: CustomerId, b: CustomerId): (r: bool)
    ensures r <==> a == b
  {
    a.value == b.value
  }

  /** `hashCode`: `Objects.hash(value)`. */
  function Hash(id: CustomerId): Int32
  {
    Combine([StringHash(id.value)])
  }

  lemma HashConsistent(a: CustomerId, b: CustomerId)
    requires Equals(a, b)
    ensures Hash(a) == Hash(b)
  {
  }

  const Prefix: string := "CustomerId{"

  /** `toString`: the value wrapped as `CustomerId{...}`; it contains the value. */
  function ToString(id: CustomerId): (r: string)
    ensures Contains(r, id.value)
    ensures |r| == |Prefix| + |id.value| + 1
    ensures r[..|Prefix|] == Prefix && r[|Prefix|..|r| - 1] == id.value && r[|r| - 1] == '}'
  {
    var r := Prefix + id.value + "}";
    assert OccursAt(r, id.value, |Prefix|);
    r
  }

  /** The value can be read back from the rendering, so distinct identifiers
      render differently. */
  lemma {:induction false} ToStringInjective(a: CustomerId, b: CustomerId)
    requires ToString(a) == ToString(b)
    ensures a == b
  {
    var r := ToString(a);
    assert r[|Prefix|..|r| - 1] == a.value;
    assert ToString(b)[|Prefix|..|r| - 1] == b.value;
  }
}
