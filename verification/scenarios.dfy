/** Concrete examples, stated over the model: the cases the domain's unit
    tests check, and a few worked rounding cases. */
module Scenarios {
  import opened Wrappers
  import opened DomainErrors
  import opened OrderStatus
  import Money
  import Quantity
  import ProductId
  import CustomerId
  import OrderItem
  import Order
  import Uuid
  import Text

  /** The value-object cases of the Money unit tests: 150.50 is kept, zero,
      -10.00 and the null amount and currency are refused, 100.50 + 50.25 =
      150.75, COP and USD cannot be added, 25.00 × 3 = 75.00, 100 > 50 and not
      the reverse, and two equal values hash alike. */
  lemma MoneyTestCases()
    ensures Money.Of(Some(Money.Decimal(15050, 2)), Some("COP")) == Success(Money.Money(15050, "COP"))
    ensures Money.Zero(Some("COP")) == Success(Money.Money(0, "COP"))
    ensures Money.Of(Some(Money.Decimal(-1000, 2)), Some("COP")) == Failure(InvalidArgument(AmountNotNegative))
    ensures Money.Of(None, Some("COP")) == Failure(InvalidArgument(AmountRequired))
    ensures Money.Of(Some(Money.Decimal(100, 0)), None) == Failure(InvalidArgument(CurrencyRequired))
    ensures Money.Add(Money.Of(Some(Money.Decimal(10050, 2)), Some("COP")).value,
                      Money.Of(Some(Money.Decimal(5025, 2)), Some("COP")).value)
            == Success(Money.Money(15075, "COP"))
    ensures Money.Of(Some(Money.Decimal(50, 0)), Some("USD")) == Success(Money.Money(5000, "USD"))
    ensures Money.Add(Money.Of(Some(Money.Decimal(100, 0)), Some("COP")).value,
                      Money.Of(Some(Money.Decimal(50, 0)), Some("USD")).value)
            == Failure(CurrencyMismatch("COP", "USD"))
    ensures Money.Multiply(Money.Of(Some(Money.Decimal(2500, 2)), Some("COP")).value, 3) == Money.Money(7500, "COP")
    ensures Money.IsGreaterThan(Money.Of(Some(Money.Decimal(100, 0)), Some("COP")).value,
                                Money.Of(Some(Money.Decimal(50, 0)), Some("COP")).value) == Success(true)
    ensures Money.IsGreaterThan(Money.Of(Some(Money.Decimal(50, 0)), Some("COP")).value,
                                Money.Of(Some(Money.Decimal(100, 0)), Some("COP")).value) == Success(false)
    ensures Money.Equals(Money.Of(Some(Money.Decimal(10000, 2)), Some("COP")).value,
                         Money.Of(Some(Money.Decimal(10000, 2)), Some("COP")).value)
    ensures Money.Hash(Money.Of(Some(Money.Decimal(10000, 2)), Some("COP")).value)
            == Money.Hash(Money.Of(Some(Money.Decimal(10000, 2)), Some("COP")).value)
  {
    assert !Text.IsWhitespace("COP"[0]) && !Text.IsWhitespace("USD"[0]);
    assert Text.ToUpper("COP") == "COP";
    assert Text.ToUpper("USD") == "USD";
    assert Money.Pow10(0) == 1 && Money.Pow10(2) == 100;
  }

  /** Worked HALF_UP cases: 100.005 rounds up to 100.01 and 100.004 down to
      100.00; the currency is upper-cased; -0.001 is refused before any
      rounding could make it zero; a blank currency is refused. */
  lemma RoundingExamples()
    ensures Money.Of(Some(Money.Decimal(100005, 3)), Some("cop")) == Success(Money.Money(10001, "COP"))
    ensures Money.Of(Some(Money.Decimal(100004, 3)), Some("COP")) == Success(Money.Money(10000, "COP"))
    ensures Money.Of(Some(Money.Decimal(-1, 3)), Some("COP")) == Failure(InvalidArgument(AmountNotNegative))
    ensures Money.Of(Some(Money.Decimal(100, 0)), Some("   ")) == Failure(InvalidArgument(CurrencyRequired))
  {
    assert !Text.IsWhitespace("cop"[0]);
    assert Text.ToUpper("cop") == "COP" by {
      assert Text.UpperChar('c') == 'C' && Text.UpperChar('o') == 'O' && Text.UpperChar('p') == 'P';
    }
    assert Text.ToUpper("COP") == "COP";
    assert Money.Pow10(1) == 10;
    assert Money.RoundedQuotient(100005, 10) == 10001;
    assert Money.RoundedQuotient(100004, 10) == 10000;
  }

  const Laptop := OrderItem.OrderItem(ProductId.ProductId("p1"), "Laptop", Quantity.Quantity(1), Money.Money(100000, "COP"))
  const Mouse := OrderItem.OrderItem(ProductId.ProductId("p2"), "Mouse", Quantity.Quantity(2), Money.Money(5000, "COP"))

  /** 1000.00 × 1 + 50.00 × 2 = 1100.00, on a new order in `Pending`. */
  lemma TotalExample(random: Uuid.RandomBytes, now: Order.Timestamp)
    ensures Order.Create(Some(CustomerId.CustomerId("c1")), Some([Laptop, Mouse]), random, now).Success?
    ensures Order.Create(Some(CustomerId.CustomerId("c1")), Some([Laptop, Mouse]), random, now).value.status == Pending
    ensures Order.Total(Order.Create(Some(CustomerId.CustomerId("c1")), Some([Laptop, Mouse]), random, now).value)
            == Success(Money.Money(110000, "COP"))
  {
    var o := Order.Create(Some(CustomerId.CustomerId("c1")), Some([Laptop, Mouse]), random, now).value;
    assert Order.AllIn(o.items, "COP");
    assert o.items[1..] == [Mouse];
    assert Order.SubtotalSum([Mouse]) == 10000;
  }

  /** The normal flow reaches `Delivered`, and a second `confirm` is refused. */
  lemma LifecycleExample(o: Order.Order, t: Order.Timestamp)
    requires o.status == Pending
    ensures Order.Confirm(o, t).Success?
    ensures Order.Confirm(Order.Confirm(o, t).value, t) == Failure(InvalidOrderState(Confirmed, Confirmed))
    ensures Order.Run(o, [(Order.ConfirmOrder, t), (Order.StartPayment, t), (Order.MarkPaid, t),
                          (Order.ShipOrder, t), (Order.DeliverOrder, t)]).status == Delivered
  {
    var script := [(Order.ConfirmOrder, t), (Order.StartPayment, t), (Order.MarkPaid, t),
                   (Order.ShipOrder, t), (Order.DeliverOrder, t)];
    var o1 := Order.Step(o, Order.ConfirmOrder, t);
    var o2 := Order.Step(o1, Order.StartPayment, t);
    var o3 := Order.Step(o2, Order.MarkPaid, t);
    var o4 := Order.Step(o3, Order.ShipOrder, t);
    var o5 := Order.Step(o4, Order.DeliverOrder, t);
    assert o5.status == Delivered;
    assert Order.Run(o4, script[4..]) == o5 by {
      assert script[4..][1..] == [];
    }
    assert Order.Run(o3, script[3..]) == o5 by {
      assert script[3..][1..] == script[4..];
    }
    assert Order.Run(o2, script[2..]) == o5 by {
      assert script[2..][1..] == script[3..];
    }
    assert Order.Run(o1, script[1..]) == o5 by {
      assert script[1..][1..] == script[2..];
    }
  }

  /** Cancelling after `confirm` succeeds; after payment processing starts it
      is refused and the status stays. */
  lemma CancelExample(o: Order.Order, t: Order.Timestamp)
    requires o.status == Pending
    ensures Order.Cancel(Order.Confirm(o, t).value, t).Success?
    ensures Order.Cancel(Order.StartPaymentProcessing(Order.Confirm(o, t).value, t).value, t)
            == Failure(InvalidOrderState(PaymentProcessing, Cancelled))
    ensures Order.Run(o, [(Order.ConfirmOrder, t), (Order.StartPayment, t), (Order.CancelOrder, t)]).status
            == PaymentProcessing
  {
    var script := [(Order.ConfirmOrder, t), (Order.StartPayment, t), (Order.CancelOrder, t)];
    var o1 := Order.Step(o, Order.ConfirmOrder, t);
    var o2 := Order.Step(o1, Order.StartPayment, t);
    var o3 := Order.Step(o2, Order.CancelOrder, t);
    assert o3.status == PaymentProcessing;
    assert Order.Run(o2, script[2..]) == o3 by {
      assert script[2..][1..] == [];
    }
    assert Order.Run(o1, script[1..]) == o3 by {
      assert script[1..][1..] == script[2..];
    }
  }

  /** An empty item list is refused before anything else is looked at. */
  lemma EmptyOrderExample(random: Uuid.RandomBytes, now: Order.Timestamp)
    ensures Order.Create(None, Some([]), random, now) == Failure(EmptyOrder)
  {
  }
}
