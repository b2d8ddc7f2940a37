/** ProductId: the identifier of a product, issued by the catalog context. */
module ProductId {
  import opened Wrappers
  import opened Text
  import opened JavaHash
  import opened DomainErrors

  datatype ProductId = ProductId(value: string)

  /** What every value built by `Of` satisfies. */
  predicate Valid(id: ProductId)
  {
    !IsBlank(id.value)
  }

  /** `ProductId.of`: rejects a null or blank string and otherwise keeps it
      exactly as given, without trimming. */
  function Of(value: Option<string>): (r: Result<ProductId, DomainError>)
    ensures r.Success? <==> value.Some? && !IsBlank(value.value)
    ensures r.Success? ==> Valid(r.value) && r.value.value == value.value
    ensures r.Failure? ==> r.error == InvalidArgument(ProductIdRequired)
  {
    if value.None? || IsBlank(value.value) then Failure(InvalidArgument(ProductIdRequired))
    else Success(ProductId(value.value))
  }

  /** `equals`: same string. */
  function Equals(a: ProductId, b: ProductId): (r: bool)
    ensures r <==> a == b
  {
    a.value == b.value
  }

  /** `hashCode`: `Objects.hash(value)`. */
  function Hash(id: ProductId): Int32
  {
    Combine([StringHash(id.value)])
  }

  lemma HashConsistent(a: ProductId, b: ProductId)
    requires Equals(a, b)
    ensures Hash(a) == Hash(b)
  {
  }

  const Prefix: string := "ProductId{"

  /** `toString`: the value wrapped as `ProductId{...}`; it contains the value. */
  function ToString(id: ProductId): (r: string)
    ensures Contains(r, id.value)
    ensures |r| == |Prefix| + |id.value| + 1
    ensures r[..|Prefix|] == Prefix && r[|Prefix|..|r| - 1] == id.value && r[|r| - 1] == '}'
  {
    var r := Prefix + id.value + "}";
    assert OccursAt(r, id.value, |Prefix|);
    r
  }

  /** The value can be read back from the rendering, so distinct identifiers
      render differently. */
  lemma {:induction false} ToStringInjective(a: ProductId, b: ProductId)
    requires ToString(a) == ToString(b)
    ensures a == b
  {
    var r := ToString(a);
    assert r[|Prefix|..|r| - 1] == a.value;
    assert ToString(b)[|Prefix|..|r| - 1] == b.value;
  }
}
