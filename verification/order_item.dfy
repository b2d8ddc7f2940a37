/** OrderItem: one purchased line of an order, with its derived subtotal. */
module OrderItem {
  import opened Wrappers
  import opened Text
  import opened JavaHash
  import opened DomainErrors
  import ProductId
  import Quantity
  import Money

  datatype OrderItem = OrderItem(
    productId: ProductId.ProductId,
    productName: string,
    quantity: Quantity.Quantity,
    unitPrice: Money.Money)

  /** A line whose parts were all built by their own factories. */
  predicate Valid(item: OrderItem)
  {
    && ProductId.Valid(item.productId)
    && !IsBlank(item.productName)
    && Quantity.Valid(item.quantity)
    && Money.Valid(item.unitPrice)
  }

  /** `validateProductName`: a null or blank name is refused, any other is
      kept as given. */
  function ValidateProductName(name: Option<string>): (r: Result<string, DomainError>)
    ensures r.Success? <==> name.Some? && !IsBlank(name.value)
    ensures r.Success? ==> r.value == name.value
    ensures r.Failure? ==> r.error == InvalidArgument(ProductNameRequired)
  {
    if name.None? || IsBlank(name.value) then Failure(InvalidArgument(ProductNameRequired))
    else Success(name.value)
  }

  /** `OrderItem.create`: the constructor checks, in field order, a non-null
      product id, a non-blank name, a non-null quantity and a non-null unit
      price; the first failing check decides the error. */
  function Create(
    productId: Option<ProductId.ProductId>,
    productName: Option<string>,
    quantity: Option<Quantity.Quantity>,
    unitPrice: Option<Money.Money>): (r: Result<OrderItem, DomainError>)
    ensures r.Success? <==>
      productId.Some? && productName.Some? && !IsBlank(productName.value) && quantity.Some? && unitPrice.Some?
    ensures productId.None? ==> r == Failure(NullReference(ProductIdField))
    ensures productId.Some? && (productName.None? || IsBlank(productName.value)) ==>
              r == Failure(InvalidArgument(ProductNameRequired))
    ensures productId.Some? && productName.Some? && !IsBlank(productName.value) && quantity.None? ==>
              r == Failure(NullReference(QuantityField))
    ensures productId.Some? && productName.Some? && !IsBlank(productName.value) && quantity.Some? && unitPrice.None? ==>
              r == Failure(NullReference(UnitPriceField))
    ensures r.Success? ==>
      && r.value.productId == productId.value
      && r.value.productName == productName.value
      && r.value.quantity == quantity.value
      && r.value.unitPrice == unitPrice.value
  {
    if productId.None? then Failure(NullReference(ProductIdField))
    else
      var name :- ValidateProductName(productName);
      if quantity.None? then Failure(NullReference(QuantityField))
      else if unitPrice.None? then Failure(NullReference(UnitPriceField))
      else Success(OrderItem(productId.value, name, quantity.value, unitPrice.value))
  }

  /** Built from valid parts, the line is valid. */
  lemma CreateValid(
    productId: ProductId.ProductId, productName: string, quantity: Quantity.Quantity, unitPrice: Money.Money)
    requires ProductId.Valid(productId) && !IsBlank(productName)
    requires Quantity.Valid(quantity) && Money.Valid(unitPrice)
    ensures Create(Some(productId), Some(productName), Some(quantity), Some(unitPrice)).Success?
    ensures Valid(Create(Some(productId), Some(productName), Some(quantity), Some(unitPrice)).value)
  {
  }

  /** `getSubtotal`: the unit price times the quantity. For a valid line it is
      a valid amount, in the unit price's currency, and never below the unit
      price. */
  function Subtotal(item: OrderItem): (r: Money.Money)
    ensures r.currency == item.unitPrice.currency
    ensures Valid(item) ==> Money.Valid(r) && r.cents >= item.unitPrice.cents
  {
    Money.Multiply(item.unitPrice, item.quantity.value)
  }

  /** The subtotal is the unit price added to itself `quantity` times. */
  lemma SubtotalIsRepeatedAdd(item: OrderItem)
    requires Valid(item)
    ensures Money.RepeatedAdd(item.unitPrice, item.quantity.value) == Success(Subtotal(item))
  {
    Money.MultiplyIsRepeatedAdd(item.unitPrice, item.quantity.value);
  }

  /** `equals`: all four parts equal, each by its own `equals`. */
  function Equals(a: OrderItem, b: OrderItem): (r: bool)
    ensures r <==> a == b
  {
    && ProductId.Equals(a.productId, b.productId)
    && a.productName == b.productName
    && Quantity.Equals(a.quantity, b.quantity)
    && Money.Equals(a.unitPrice, b.unitPrice)
  }

  /** `hashCode`: `Objects.hash(productId, productName, quantity, unitPrice)`. */
  function Hash(item: OrderItem): Int32
  {
    Combine([ProductId.Hash(item.productId), StringHash(item.productName),
             Quantity.Hash(item.quantity), Money.Hash(item.unitPrice)])
  }

  lemma HashConsistent(a: OrderItem, b: OrderItem)
    requires Equals(a, b)
    ensures Hash(a) == Hash(b)
  {
  }
}
