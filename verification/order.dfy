/** Order: the aggregate root. It owns its items, moves through the status
    machine only by the named operations, and computes its total on demand. */
module Order {
  import opened Wrappers
  import opened DomainErrors
  import opened OrderStatus
  import Money
  import OrderItem
  import OrderId
  import CustomerId
  import Uuid
  import JavaHash

  /** An instant as read from the clock (`LocalDateTime.now()`), which the
      caller supplies. */
  type Timestamp = int

  datatype Order = Order(
    orderId: OrderId.OrderId,
    customerId: CustomerId.CustomerId,
    items: seq<OrderItem.OrderItem>,
    createdAt: Timestamp,
    status: Status,
    updatedAt: Timestamp)

  /** The aggregate's own invariants: it has items, and it was not updated
      before it was created. */
  predicate Valid(o: Order)
  {
    |o.items| > 0 && o.createdAt <= o.updatedAt
  }

  /** `b` is `a` with at most its status and last-update instant changed: the
      final fields are untouched. */
  predicate SameAggregate(a: Order, b: Order)
  {
    a.orderId == b.orderId && a.customerId == b.customerId && a.items == b.items && a.createdAt == b.createdAt
  }

  /** `Order.create`: refuses a missing or empty item list, draws a fresh id,
      refuses a null customer id, and otherwise starts in `Pending` with a
      copy of the items and `updatedAt == createdAt == now`. Items are not
      checked for a common currency here. */
  function Create(
    customerId: Option<CustomerId.CustomerId>,
    items: Option<seq<OrderItem.OrderItem>>,
    random: Uuid.RandomBytes,
    now: Timestamp): (r: Result<Order, DomainError>)
    ensures r.Success? <==> items.Some? && |items.value| > 0 && customerId.Some?
    ensures items.None? || |items.value| == 0 ==> r == Failure(EmptyOrder)
    ensures items.Some? && |items.value| > 0 && customerId.None? ==> r == Failure(NullReference(CustomerIdField))
    ensures r.Success? ==>
      && Valid(r.value)
      && r.value.status == Pending
      && r.value.items == items.value
      && r.value.customerId == customerId.value
      && r.value.createdAt == now && r.value.updatedAt == now
      && OrderId.Valid(r.value.orderId)
  {
    if items.None? || |items.value| == 0 then Failure(EmptyOrder)
    else
      var id := OrderId.Generate(random);
      if customerId.None? then Failure(NullReference(CustomerIdField))
      else Success(Order(id, customerId.value, items.value, now, Pending, now))
  }

  /** `transitionTo`, the single guard every named operation goes through:
      allowed moves set the status and refresh `updatedAt`; any other is
      refused with both states and changes nothing. */
  function TransitionTo(o: Order, target: Status, now: Timestamp): (r: Result<Order, DomainError>)
    ensures r.Success? <==> (o.status, target) in Transitions
    ensures r.Success? ==> r.value.status == target && r.value.updatedAt == now && SameAggregate(o, r.value)
    ensures r.Failure? ==> r.error == InvalidOrderState(o.status, target)
  {
    TransitionTableExact(o.status, target);
    if !CanTransitionTo(o.status, target) then Failure(InvalidOrderState(o.status, target))
    else Success(o.(status := target, updatedAt := now))
  }

  /** `confirm`: only from `Pending`. */
  function Confirm(o: Order, now: Timestamp): (r: Result<Order, DomainError>)
    ensures r.Success? <==> o.status == Pending
    ensures r.Success? ==> r.value == o.(status := Confirmed, updatedAt := now)
    ensures r.Failure? ==> r.error == InvalidOrderState(o.status, Confirmed)
  {
    TransitionTo(o, Confirmed, now)
  }

  /** `startPaymentProcessing`: only from `Confirmed`. */
  function StartPaymentProcessing(o: Order, now: Timestamp): (r: Result<Order, DomainError>)
    ensures r.Success? <==> o.status == Confirmed
    ensures r.Success? ==> r.value == o.(status := PaymentProcessing, updatedAt := now)
    ensures r.Failure? ==> r.error == InvalidOrderState(o.status, PaymentProcessing)
  {
    TransitionTo(o, PaymentProcessing, now)
  }

  /** `markAsPaid`: only from `PaymentProcessing`. */
  function MarkAsPaid(o: Order, now: Timestamp): (r: Result<Order, DomainError>)
    ensures r.Success? <==> o.status == PaymentProcessing
    ensures r.Success? ==> r.value == o.(status := Paid, updatedAt := now)
    ensures r.Failure? ==> r.error == InvalidOrderState(o.status, Paid)
  {
    TransitionTo(o, Paid, now)
  }

  /** `ship`: only from `Paid`. */
  function Ship(o: Order, now: Timestamp): (r: Result<Order, DomainError>)
    ensures r.Success? <==> o.status == Paid
    ensures r.Success? ==> r.value == o.(status := Shipped, updatedAt := now)
    ensures r.Failure? ==> r.error == InvalidOrderState(o.status, Shipped)
  {
    TransitionTo(o, Shipped, now)
  }

  /** `deliver`: only from `Shipped`. */
  function Deliver(o: Order, now: Timestamp): (r: Result<Order, DomainError>)
    ensures r.Success? <==> o.status == Shipped
    ensures r.Success? ==> r.value == o.(status := Delivered, updatedAt := now)
    ensures r.Failure? ==> r.error == InvalidOrderState(o.status, Delivered)
  {
    TransitionTo(o, Delivered, now)
  }

  /** `cancel`: checks `CanBeCancelled` first, then goes through the guard;
      possible only before payment starts. */
  function Cancel(o: Order, now: Timestamp): (r: Result<Order, DomainError>)
    ensures r.Success? <==> o.status == Pending || o.status == Confirmed
    ensures r.Success? ==> r.value == o.(status := Cancelled, updatedAt := now)
    ensures r.Failure? ==> r.error == InvalidOrderState(o.status, Cancelled)
  {
    if !CanBeCancelled(o.status) then Failure(InvalidOrderState(o.status, Cancelled))
    else TransitionTo(o, Cancelled, now)
  }

  /** `markAsFailed`: only from `PaymentProcessing`. */
  function MarkAsFailed(o: Order, now: Timestamp): (r: Result<Order, DomainError>)
    ensures r.Success? <==> o.status == PaymentProcessing
    ensures r.Success? ==> r.value == o.(status := Failed, updatedAt := now)
    ensures r.Failure? ==> r.error == InvalidOrderState(o.status, Failed)
  {
    TransitionTo(o, Failed, now)
  }

  /** The extra `CanBeCancelled` check never changes the outcome: `cancel`
      behaves exactly as the guarded move to `Cancelled`. */
  lemma CancelIsTransitionToCancelled(o: Order, now: Timestamp)
    ensures Cancel(o, now) == TransitionTo(o, Cancelled, now)
  {
  }

  /** An accepted move keeps the invariants when the clock does not run
      backwards. */
  lemma TransitionKeepsValid(o: Order, target: Status, now: Timestamp)
    requires Valid(o) && o.updatedAt <= now
    requires TransitionTo(o, target, now).Success?
    ensures Valid(TransitionTo(o, target, now).value)
  {
  }

  /** `getItems`: a read-only view of the items, never empty once created. */
  function GetItems(o: Order): (r: seq<OrderItem.OrderItem>)
    ensures Valid(o) ==> |r| > 0
  {
    o.items
  }

  /** Σ unit price × quantity over the items, in hundredths. */
  function SubtotalSum(items: seq<OrderItem.OrderItem>): int
  {
    if |items| == 0 then 0
    else items[0].unitPrice.cents * items[0].quantity.value + SubtotalSum(items[1..])
  }

  /** Every item is priced in `currency`. */
  predicate AllIn(items: seq<OrderItem.OrderItem>, currency: string)
  {
    forall i :: 0 <= i < |items| ==> items[i].unitPrice.currency == currency
  }

  /** `k` is the first item priced in a currency other than `currency`. */
  predicate FirstForeign(items: seq<OrderItem.OrderItem>, currency: string, k: int)
  {
    && 0 <= k < |items|
    && items[k].unitPrice.currency != currency
    && AllIn(items[..k], currency)
  }

  /** `r` is the currency-mismatch failure raised at the first foreign item `k`. */
  predicate FailsAtForeign(r: Result<Money.Money, DomainError>, items: seq<OrderItem.OrderItem>, currency: string, k: int)
  {
    FirstForeign(items, currency, k) && r == Failure(CurrencyMismatch(currency, items[k].unitPrice.currency))
  }

  /** The left fold of `Money.add` over the remaining subtotals, in list
      order, stopping at the first currency mismatch. */
  function AddSubtotals(acc: Money.Money, rest: seq<OrderItem.OrderItem>): Result<Money.Money, DomainError>
    decreases |rest|
  {
    if |rest| == 0 then Success(acc)
    else match Money.Add(acc, OrderItem.Subtotal(rest[0]))
      case Failure(e) => Failure(e)
      case Success(next) => AddSubtotals(next, rest[1..])
  }

  /** With one currency the fold is the plain sum; otherwise it fails at the
      first foreign item, naming the accumulator's and that item's currency. */
  lemma {:induction false} AddSubtotalsMeaning(acc: Money.Money, rest: seq<OrderItem.OrderItem>)
    ensures AllIn(rest, acc.currency) ==>
      AddSubtotals(acc, rest) == Success(Money.Money(acc.cents + SubtotalSum(rest), acc.currency))
    ensures !AllIn(rest, acc.currency) ==>
      exists k :: FailsAtForeign(AddSubtotals(acc, rest), rest, acc.currency, k)
    decreases |rest|
  {
    if |rest| > 0 {
      var sub := OrderItem.Subtotal(rest[0]);
      if sub.currency == acc.currency {
        var next := Money.Add(acc, sub).value;
        AddSubtotalsMeaning(next, rest[1..]);
        if AllIn(rest, acc.currency) {
          assert AllIn(rest[1..], acc.currency);
        } else {
          assert !AllIn(rest[1..], acc.currency);
          var k :| FailsAtForeign(AddSubtotals(next, rest[1..]), rest[1..], acc.currency, k);
          assert rest[..k + 1] == [rest[0]] + rest[1..][..k];
          assert FailsAtForeign(AddSubtotals(acc, rest), rest, acc.currency, k + 1);
        }
      } else {
        assert FailsAtForeign(AddSubtotals(acc, rest), rest, acc.currency, 0);
      }
    }
  }

  /** `getTotal`: the subtotals folded with `Money.add` in list order. It is
      the sum of unit price × quantity in the first item's currency when all
      items share it, fails at the first item in another currency, and fails
      on an empty list. */
  function Total(o: Order): (r: Result<Money.Money, DomainError>)
    ensures |o.items| == 0 ==> r == Failure(NoItems)
    ensures r.Success? <==> |o.items| > 0 && AllIn(o.items, o.items[0].unitPrice.currency)
    ensures r.Success? ==>
      r.value.cents == SubtotalSum(o.items) && r.value.currency == o.items[0].unitPrice.currency
    ensures |o.items| > 0 && !AllIn(o.items, o.items[0].unitPrice.currency) ==>
      exists k :: FailsAtForeign(r, o.items, o.items[0].unitPrice.currency, k)
  {
    if |o.items| == 0 then Failure(NoItems)
    else
      var first := OrderItem.Subtotal(o.items[0]);
      var c := o.items[0].unitPrice.currency;
      AddSubtotalsMeaning(first, o.items[1..]);
      assert AllIn(o.items, c) <==> AllIn(o.items[1..], c);
      var r := AddSubtotals(first, o.items[1..]);
      assert !AllIn(o.items[1..], c) ==> exists k :: FailsAtForeign(r, o.items, c, k) by {
        if !AllIn(o.items[1..], c) {
          var k :| FailsAtForeign(r, o.items[1..], c, k);
          assert o.items[..k + 1] == [o.items[0]] + o.items[1..][..k];
          assert FailsAtForeign(r, o.items, c, k + 1);
        }
      }
      r
  }

  /** `equals`: orders are the same entity exactly when their ids are equal. */
  function Equals(a: Order, b: Order): (r: bool)
    ensures r <==> OrderId.Equals(a.orderId, b.orderId)
  {
    a.orderId == b.orderId
  }

  /** `hashCode`: `Objects.hash(orderId)`. */
  function Hash(o: Order): JavaHash.Int32
  {
    JavaHash.Combine([OrderId.Hash(o.orderId)])
  }

  lemma HashConsistent(a: Order, b: Order)
    requires Equals(a, b)
    ensures Hash(a) == Hash(b)
  {
  }

  /** The calls a collaborator can make on an order. */
  datatype Command = ConfirmOrder | StartPayment | MarkPaid | ShipOrder | DeliverOrder | CancelOrder | MarkFailed

  /** The status each call aims for. */
  function Target(c: Command): Status
  {
    match c
    case ConfirmOrder => Confirmed
    case StartPayment => PaymentProcessing
    case MarkPaid => Paid
    case ShipOrder => Shipped
    case DeliverOrder => Delivered
    case CancelOrder => Cancelled
    case MarkFailed => Failed
  }

  /** Performing one call: every named operation, `cancel` included, accepts
      exactly the moves of the transition relation. */
  function Apply(o: Order, c: Command, now: Timestamp): (r: Result<Order, DomainError>)
    ensures r.Success? <==> CanTransitionTo(o.status, Target(c))
    ensures r.Success? ==> r.value == o.(status := Target(c), updatedAt := now)
    ensures r.Failure? ==> r.error == InvalidOrderState(o.status, Target(c))
  {
    match c
    case ConfirmOrder => Confirm(o, now)
    case StartPayment => StartPaymentProcessing(o, now)
    case MarkPaid => MarkAsPaid(o, now)
    case ShipOrder => Ship(o, now)
    case DeliverOrder => Deliver(o, now)
    case CancelOrder => Cancel(o, now)
    case MarkFailed => MarkAsFailed(o, now)
  }

  /** The aggregate after a call, whether it returned or threw: a refused
      call leaves the object as it was. */
  function Step(o: Order, c: Command, now: Timestamp): Order
  {
    match Apply(o, c, now)
    case Success(next) => next
    case Failure(_) => o
  }

  /** A sequence of calls, each with the clock reading it sees. */
  type Script = seq<(Command, Timestamp)>

  function Run(o: Order, script: Script): Order
    decreases |script|
  {
    if |script| == 0 then o else Run(Step(o, script[0].0, script[0].1), script[1..])
  }

  /** How many calls of the script were accepted. */
  function Accepted(o: Order, script: Script): nat
    decreases |script|
  {
    if |script| == 0 then 0
    else
      var n := if Apply(o, script[0].0, script[0].1).Success? then 1 else 0;
      n + Accepted(Step(o, script[0].0, script[0].1), script[1..])
  }

  /** The clock readings never go below `from` and never go backwards. */
  predicate ClockFrom(from: Timestamp, script: Script)
  {
    && (forall i :: 0 <= i < |script| ==> from <= script[i].1)
    && (forall i, j :: 0 <= i < j < |script| ==> script[i].1 <= script[j].1)
  }

  /** Whatever calls are made, the final fields never change, the invariants
      hold while the clock is monotone, every accepted call raises the rank
      of the status, and so at most five calls are ever accepted. */
  lemma {:induction false} RunInvariant(o: Order, script: Script)
    ensures SameAggregate(o, Run(o, script))
    ensures Rank(o.status) + Accepted(o, script) <= Rank(Run(o, script).status)
    ensures Accepted(o, script) <= 5
    ensures Valid(o) && ClockFrom(o.updatedAt, script) ==> Valid(Run(o, script))
    decreases |script|
  {
    if |script| == 0 {
      assert Rank(o.status) <= 5;
    } else {
      var (c, now) := script[0];
      var next := Step(o, c, now);
      if Apply(o, c, now).Success? {
        RankIncreases(o.status, Target(c));
      }
      RunInvariant(next, script[1..]);
      if Valid(o) && ClockFrom(o.updatedAt, script) {
        assert ClockFrom(next.updatedAt, script[1..]) by {
          forall i | 0 <= i < |script[1..]|
            ensures next.updatedAt <= script[1..][i].1
          {
            assert script[1..][i] == script[i + 1];
            assert script[0].1 <= script[i + 1].1;
          }
        }
      }
    }
  }

  /** `getItems` on a created order: whatever calls follow, accepted or
      refused, it returns exactly the list given to `create`, so it is never
      empty. No assumption about the clock is needed. */
  lemma GetItemsAfterCalls(
    customerId: CustomerId.CustomerId,
    items: seq<OrderItem.OrderItem>,
    random: Uuid.RandomBytes,
    now: Timestamp,
    script: Script)
    requires |items| > 0
    ensures Create(Some(customerId), Some(items), random, now).Success?
    ensures GetItems(Run(Create(Some(customerId), Some(items), random, now).value, script)) == items
  {
    RunInvariant(Create(Some(customerId), Some(items), random, now).value, script);
  }

  /** An order keeps its identity through every call. */
  lemma RunKeepsIdentity(o: Order, script: Script)
    ensures Equals(o, Run(o, script))
  {
    RunInvariant(o, script);
  }
}
