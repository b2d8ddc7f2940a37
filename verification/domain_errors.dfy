/** What the domain throws, as data. */
module DomainErrors {
  import OrderStatus

  /** The validation rule an `IllegalArgumentException` from a factory reports. */
  datatype Rule =
    | AmountRequired        // Money.of: null amount
    | CurrencyRequired      // Money.of: null or blank currency
    | AmountNotNegative     // Money.of: amount below zero
    | OrderIdRequired       // OrderId.of: null or blank value
    | CustomerIdRequired    // CustomerId.of: null or blank value
    | ProductIdRequired     // ProductId.of: null or blank value
    | QuantityPositive      // Quantity.of: value not above zero
    | ProductNameRequired   // OrderItem.create: null or blank product name

  /** The argument a `NullPointerException` from `Objects.requireNonNull` names. */
  datatype Field = CustomerIdField | ProductIdField | QuantityField | UnitPriceField

  datatype DomainError =
    | EmptyOrder                                                             // EmptyOrderException
    | InvalidOrderState(current: OrderStatus.Status, target: OrderStatus.Status) // InvalidOrderStateException
    | CurrencyMismatch(left: string, right: string)                          // IllegalArgumentException from validateSameCurrency
    | InvalidArgument(rule: Rule)                                            // IllegalArgumentException from a factory
    | NullReference(field: Field)                                            // NullPointerException
    | NoItems                                                                // IllegalStateException from getTotal
}
