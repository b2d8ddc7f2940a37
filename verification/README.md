# Order domain of order-service, modelled in Dafny

This project models the order domain of `order-service`: the `OrderStatus`
state machine, the `Order` aggregate with its named transitions and its
computed total, the `Money` value object (exact decimal arithmetic at two
fractional digits with HALF_UP rounding and currency checks), `Quantity`,
`OrderItem` and the three identifier value objects `OrderId`, `CustomerId`
and `ProductId`.

The model is functional. Each Java class is a Dafny module holding an
immutable datatype of the same name (`Money.Money`, `Order.Order`, ...).
The one exception is the `OrderStatus` enum: its module holds the
datatype `Status`.
Each factory or operation is a function that returns a `Result`. A thrown
exception becomes a `DomainError` value. A `null` argument becomes
`None` of an `Option`.

- **Money** holds its amount as an integer number of hundredths (`cents`).
  The `BigDecimal` given to `Money.of` is a `Decimal(unscaled, scale)`.
  `setScale(2, HALF_UP)` is `SetScale2`, defined for both signs. It is
  proved to be HALF_UP rounding (`IsHalfUpRounding`, an independent
  interval characterisation) and to be unique. `add` and `multiply` go
  through the same private constructor, and `SetScaleExact` shows that
  nothing is lost there. `multiply` does not check the sign of its factor,
  so `Money.Multiply` keeps the non-negative invariant only for factors
  `>= 0`. `Money.MultiplyByNegative` shows that a negative factor breaks
  it. The only caller, `OrderItem.getSubtotal`, passes a positive quantity.
- **Order** transitions are functions from an order and a clock reading
  (`now`) to the new order or `InvalidOrderState(current, target)`. Java
  mutates the object in place and leaves it unchanged when it throws.
  `Order.Step` and `Order.Run` model this for any sequence of calls.
- **OrderId.generate** takes the 16 random bytes from the caller. It formats
  them as `UUID.randomUUID().toString()` does (version 4, RFC 4122
  sections 3 and 4.4).
- The clock (`LocalDateTime.now()`) is a caller-supplied `Timestamp`.
- Strings are Dafny strings. `isBlank` and `toUpperCase` are modelled
  over ASCII (`Text`).
- Hash codes follow the JDK recipes (`JavaHash`), but the only property
  stated about them is consistency with `equals`.

Two consequences of the code are worth stating plainly:
- Items are not checked for a common currency when an order is created.
  A list with mixed currencies fails only in `getTotal`, which
  `Order.Total` models.
- The product computed by `multiply` already has two fractional digits.
  The constructor's `setScale(2, HALF_UP)` therefore leaves it unchanged
  (`SetScaleExact`).

## Model

| member | source | states |
|---|---|---|
| OrderStatus.IsTerminal | order-service/order-domain/src/main/java/com/quind/ecommerce/order/domain/model/OrderStatus.java:41-43 | a state is terminal exactly when no target state is reachable from it in one move |
| OrderStatus.TerminalStates | order-service/order-domain/src/main/java/com/quind/ecommerce/order/domain/model/OrderStatus.java:34 | the switch allows no move out of a state exactly when that state is DELIVERED, CANCELLED or FAILED |
| OrderStatus.CanBeCancelled | order-service/order-domain/src/main/java/com/quind/ecommerce/order/domain/model/OrderStatus.java:49-51 | cancellable holds exactly when the transition relation allows the move to CANCELLED |
| OrderStatus.TransitionTableExact | order-service/order-domain/src/main/java/com/quind/ecommerce/order/domain/model/OrderStatus.java:27-36 | the switch allows a pair exactly when it is one of the eight listed transitions |
| OrderStatus.TransitionCount | order-service/order-domain/src/main/java/com/quind/ecommerce/order/domain/model/OrderStatus.java:27-36 | of the 64 pairs of states, 8 are allowed and 56 are refused |
| OrderStatus.NoSelfLoopsNoReentry | order-service/order-domain/src/main/java/com/quind/ecommerce/order/domain/model/OrderStatus.java:28-35 | no state moves to itself, and no state moves into PENDING |
| OrderStatus.RankIncreases | order-service/order-domain/src/main/java/com/quind/ecommerce/order/domain/model/OrderStatus.java:28-35 | every allowed move strictly raises a rank that follows the normal flow and never exceeds 5 |
| OrderStatus.PathRaisesRank | order-service/order-domain/src/main/java/com/quind/ecommerce/order/domain/model/OrderStatus.java:28-35 | along a chain of allowed moves the rank grows by at least one per step |
| OrderStatus.PathsAreShortAndAcyclic | order-service/order-domain/src/main/java/com/quind/ecommerce/order/domain/model/OrderStatus.java:28-35 | the relation has no cycles, and every chain of moves has at most five steps |
| OrderStatus.NormalFlowIsLongest | order-service/order-domain/src/main/java/com/quind/ecommerce/order/domain/model/OrderStatus.java:9 | the normal flow from PENDING to DELIVERED is a chain of five allowed moves |
| OrderStatus.AllReachable | order-service/order-domain/src/main/java/com/quind/ecommerce/order/domain/model/OrderStatus.java:9-10 | every state can be reached from PENDING |
| Money.SetScaleIsHalfUp | order-service/order-domain/src/main/java/com/quind/ecommerce/order/domain/vo/Money.java:16-23 | on a non-negative amount the stored hundredths lie within half a hundredth of the amount, and ties round up |
| Money.HalfUpUnique | order-service/order-domain/src/main/java/com/quind/ecommerce/order/domain/vo/Money.java:17 | at most one integer satisfies the HALF_UP interval, so the interval fixes the stored amount |
| Money.SetScaleExact | order-service/order-domain/src/main/java/com/quind/ecommerce/order/domain/vo/Money.java:55 | an amount that already has two fractional digits is kept exactly |
| Money.SetScaleOdd | order-service/order-domain/src/main/java/com/quind/ecommerce/order/domain/vo/Money.java:17 | rounding a negated amount gives the negated result (ties go away from zero) |
| Money.SetScaleKeepsSign | order-service/order-domain/src/main/java/com/quind/ecommerce/order/domain/vo/Money.java:23 | rounding never changes the sign of the amount |
| Money.Of | order-service/order-domain/src/main/java/com/quind/ecommerce/order/domain/vo/Money.java:30-41 | fails on a null amount, then on a null or blank currency, then on a negative raw amount; otherwise the result is valid, HALF_UP rounded and upper-cased |
| Money.Zero | order-service/order-domain/src/main/java/com/quind/ecommerce/order/domain/vo/Money.java:46-48 | gives amount zero exactly when the currency is non-blank, with the same validation error otherwise |
| Money.ValidateSameCurrency | order-service/order-domain/src/main/java/com/quind/ecommerce/order/domain/vo/Money.java:73-79 | passes exactly for equal currency codes and otherwise reports both codes |
| Money.Add | order-service/order-domain/src/main/java/com/quind/ecommerce/order/domain/vo/Money.java:53-56 | the exact sum in the receiver's currency when the currencies match and a mismatch error otherwise; validity is preserved |
| Money.AddCommutes | order-service/order-domain/src/main/java/com/quind/ecommerce/order/domain/vo/Money.java:53-56 | for one currency, the order of the operands does not matter |
| Money.AddAssociates | order-service/order-domain/src/main/java/com/quind/ecommerce/order/domain/vo/Money.java:53-56 | for one currency, the grouping of additions does not matter |
| Money.ZeroIsNeutral | order-service/order-domain/src/main/java/com/quind/ecommerce/order/domain/vo/Money.java:46-56 | zero in a value's own currency is neutral on both sides of add |
| Money.Multiply | order-service/order-domain/src/main/java/com/quind/ecommerce/order/domain/vo/Money.java:61-63 | the exact product in the same currency, valid whenever the value is valid and the factor is not negative |
| Money.MultiplyIsRepeatedAdd | order-service/order-domain/src/main/java/com/quind/ecommerce/order/domain/vo/Money.java:53-63 | for n >= 1, multiplying by n equals adding the value to itself n times |
| Money.MultiplyByNegative | order-service/order-domain/src/main/java/com/quind/ecommerce/order/domain/vo/Money.java:61-63 | a negative factor turns a positive amount negative, because multiply does not check the sign |
| Money.IsGreaterThan | order-service/order-domain/src/main/java/com/quind/ecommerce/order/domain/vo/Money.java:68-71 | compares the amounts strictly when the currencies match, and gives a mismatch error otherwise |
| Money.GreaterThanIsStrictOrder | order-service/order-domain/src/main/java/com/quind/ecommerce/order/domain/vo/Money.java:68-71 | within one currency the comparison is irreflexive, asymmetric and transitive |
| Money.AddPositiveIsGreater | order-service/order-domain/src/main/java/com/quind/ecommerce/order/domain/vo/Money.java:53-71 | adding a positive amount gives a result greater than the original |
| Money.CurrencyCaseIsIgnored | order-service/order-domain/src/main/java/com/quind/ecommerce/order/domain/vo/Money.java:34-40 | values built from codes that differ only in letter case can be added |
| Money.Equals | order-service/order-domain/src/main/java/com/quind/ecommerce/order/domain/vo/Money.java:89-95 | two values are equal exactly when they have the same amount and currency |
| Money.StripTrailingZeros | order-service/order-domain/src/main/java/com/quind/ecommerce/order/domain/vo/Money.java:97-100 | the hashed form has the same value with no trailing zero, and zero becomes 0 at scale 0 |
| Money.HashConsistent | order-service/order-domain/src/main/java/com/quind/ecommerce/order/domain/vo/Money.java:89-100 | equal values have equal hash codes |
| Quantity.Of | order-service/order-domain/src/main/java/com/quind/ecommerce/order/domain/vo/Quantity.java:17-22 | accepts exactly the positive ints and keeps the value |
| Quantity.OfValue | order-service/order-domain/src/main/java/com/quind/ecommerce/order/domain/vo/Quantity.java:17-26 | every valid quantity is what of builds from its value |
| Quantity.Equals | order-service/order-domain/src/main/java/com/quind/ecommerce/order/domain/vo/Quantity.java:28-34 | two quantities are equal exactly when their values are equal |
| Quantity.HashConsistent | order-service/order-domain/src/main/java/com/quind/ecommerce/order/domain/vo/Quantity.java:28-39 | equal quantities have equal hash codes |
| Quantity.ToString | order-service/order-domain/src/main/java/com/quind/ecommerce/order/domain/vo/Quantity.java:42-44 | the rendering parses back to the value; a valid quantity renders as digits with no leading zero |
| Text.IntToStringRoundTrip | order-service/order-domain/src/main/java/com/quind/ecommerce/order/domain/vo/Quantity.java:43 | the decimal rendering of any int parses back to that int |
| Text.ToUpper | order-service/order-domain/src/main/java/com/quind/ecommerce/order/domain/vo/Money.java:40 | upper-casing keeps the length, maps each lower-case letter to its capital and leaves every other character unchanged |
| Text.ToUpperKeepsBlank | order-service/order-domain/src/main/java/com/quind/ecommerce/order/domain/vo/Money.java:34-40 | a currency is blank after upper-casing exactly when it was blank before |
| Text.ToUpperIdempotent | order-service/order-domain/src/main/java/com/quind/ecommerce/order/domain/vo/Money.java:40 | upper-casing twice gives the same result as upper-casing once |
| OrderId.Of | order-service/order-domain/src/main/java/com/quind/ecommerce/order/domain/vo/OrderId.java:30-35 | fails exactly on a null or blank string, and otherwise keeps the string as given |
| OrderId.Generate | order-service/order-domain/src/main/java/com/quind/ecommerce/order/domain/vo/OrderId.java:43-45 | the generated id skips validation, yet of accepts it unchanged; it is a 36-character version-4 UUID text |
| Uuid.RandomUuidString | order-service/order-domain/src/main/java/com/quind/ecommerce/order/domain/vo/OrderId.java:44 | 36 characters, with dashes at 8, 13, 18 and 23, version digit 4, an RFC 4122 variant digit, and never blank |
| OrderId.Equals | order-service/order-domain/src/main/java/com/quind/ecommerce/order/domain/vo/OrderId.java:51-57 | two ids are equal exactly when their strings are equal |
| OrderId.HashConsistent | order-service/order-domain/src/main/java/com/quind/ecommerce/order/domain/vo/OrderId.java:51-62 | equal ids have equal hash codes |
| OrderId.ToString | order-service/order-domain/src/main/java/com/quind/ecommerce/order/domain/vo/OrderId.java:64-67 | the rendering is OrderId{, then the value, then }; it contains the value and adds exactly nine characters |
| OrderId.ToStringInjective | order-service/order-domain/src/main/java/com/quind/ecommerce/order/domain/vo/OrderId.java:64-67 | different ids render differently |
| CustomerId.Of | order-service/order-domain/src/main/java/com/quind/ecommerce/order/domain/vo/CustomerId.java:19-24 | fails exactly on a null or blank string (including all-space strings), and otherwise keeps the string as given |
| CustomerId.Equals | order-service/order-domain/src/main/java/com/quind/ecommerce/order/domain/vo/CustomerId.java:30-36 | two ids are equal exactly when their strings are equal |
| CustomerId.HashConsistent | order-service/order-domain/src/main/java/com/quind/ecommerce/order/domain/vo/CustomerId.java:30-41 | equal ids have equal hash codes |
| CustomerId.ToString | order-service/order-domain/src/main/java/com/quind/ecommerce/order/domain/vo/CustomerId.java:43-46 | the rendering is CustomerId{, then the value, then }, so it contains the value |
| CustomerId.ToStringInjective | order-service/order-domain/src/main/java/com/quind/ecommerce/order/domain/vo/CustomerId.java:43-46 | different ids render differently |
| ProductId.Of | order-service/order-domain/src/main/java/com/quind/ecommerce/order/domain/vo/ProductId.java:17-22 | fails exactly on a null or blank string, and otherwise keeps the string as given |
| ProductId.Equals | order-service/order-domain/src/main/java/com/quind/ecommerce/order/domain/vo/ProductId.java:28-34 | two ids are equal exactly when their strings are equal |
| ProductId.HashConsistent | order-service/order-domain/src/main/java/com/quind/ecommerce/order/domain/vo/ProductId.java:28-39 | equal ids have equal hash codes |
| ProductId.ToString | order-service/order-domain/src/main/java/com/quind/ecommerce/order/domain/vo/ProductId.java:41-44 | the rendering is ProductId{, then the value, then }, so it contains the value |
| ProductId.ToStringInjective | order-service/order-domain/src/main/java/com/quind/ecommerce/order/domain/vo/ProductId.java:41-44 | different ids render differently |
| OrderItem.ValidateProductName | order-service/order-domain/src/main/java/com/quind/ecommerce/order/domain/model/OrderItem.java:38-43 | fails exactly on a null or blank name, and otherwise returns the name unchanged |
| OrderItem.Create | order-service/order-domain/src/main/java/com/quind/ecommerce/order/domain/model/OrderItem.java:23-36 | checks in field order for a null product id, a blank name, a null quantity and a null price; on success the getters return the arguments |
| OrderItem.CreateValid | order-service/order-domain/src/main/java/com/quind/ecommerce/order/domain/model/OrderItem.java:23-36 | a line built from valid parts is created, and the result is valid |
| OrderItem.Subtotal | order-service/order-domain/src/main/java/com/quind/ecommerce/order/domain/model/OrderItem.java:49-51 | in the unit price's currency; for a valid line it is a valid amount and not below the unit price |
| OrderItem.SubtotalIsRepeatedAdd | order-service/order-domain/src/main/java/com/quind/ecommerce/order/domain/model/OrderItem.java:49-51 | the subtotal is the unit price added to itself quantity times |
| OrderItem.Equals | order-service/order-domain/src/main/java/com/quind/ecommerce/order/domain/model/OrderItem.java:69-78 | two lines are equal exactly when all four parts are equal |
| OrderItem.HashConsistent | order-service/order-domain/src/main/java/com/quind/ecommerce/order/domain/model/OrderItem.java:69-83 | equal lines have equal hash codes |
| Order.Create | order-service/order-domain/src/main/java/com/quind/ecommerce/order/domain/model/Order.java:33-51 | fails with EmptyOrder on missing or empty items, then on a null customer id; otherwise a valid order in PENDING with the same items and updatedAt == createdAt |
| Order.TransitionTo | order-service/order-domain/src/main/java/com/quind/ecommerce/order/domain/model/Order.java:121-127 | succeeds exactly for the pairs in the transition table, sets the target status and now and keeps the final fields; otherwise fails with InvalidOrderState(current, target) |
| Order.TransitionKeepsValid | order-service/order-domain/src/main/java/com/quind/ecommerce/order/domain/model/Order.java:121-127 | an accepted move keeps the invariants when the clock does not run backwards |
| Order.Confirm | order-service/order-domain/src/main/java/com/quind/ecommerce/order/domain/model/Order.java:67-69 | succeeds exactly from PENDING and changes only status (to CONFIRMED) and updatedAt |
| Order.StartPaymentProcessing | order-service/order-domain/src/main/java/com/quind/ecommerce/order/domain/model/Order.java:74-76 | succeeds exactly from CONFIRMED and changes only status (to PAYMENT_PROCESSING) and updatedAt |
| Order.MarkAsPaid | order-service/order-domain/src/main/java/com/quind/ecommerce/order/domain/model/Order.java:81-83 | succeeds exactly from PAYMENT_PROCESSING and changes only status (to PAID) and updatedAt |
| Order.Ship | order-service/order-domain/src/main/java/com/quind/ecommerce/order/domain/model/Order.java:88-90 | succeeds exactly from PAID and changes only status (to SHIPPED) and updatedAt |
| Order.Deliver | order-service/order-domain/src/main/java/com/quind/ecommerce/order/domain/model/Order.java:95-97 | succeeds exactly from SHIPPED and changes only status (to DELIVERED) and updatedAt |
| Order.Cancel | order-service/order-domain/src/main/java/com/quind/ecommerce/order/domain/model/Order.java:102-107 | succeeds exactly from PENDING or CONFIRMED and otherwise fails with InvalidOrderState(current, CANCELLED) |
| Order.CancelIsTransitionToCancelled | order-service/order-domain/src/main/java/com/quind/ecommerce/order/domain/model/Order.java:102-107 | cancel behaves exactly like the guarded move to CANCELLED |
| Order.MarkAsFailed | order-service/order-domain/src/main/java/com/quind/ecommerce/order/domain/model/Order.java:113-115 | succeeds exactly from PAYMENT_PROCESSING and changes only status (to FAILED) and updatedAt |
| Order.Apply | order-service/order-domain/src/main/java/com/quind/ecommerce/order/domain/model/Order.java:64-115 | every named operation accepts exactly the moves of the transition relation toward its target |
| Order.RunInvariant | order-service/order-domain/src/main/java/com/quind/ecommerce/order/domain/model/Order.java:26-31 | over any sequence of calls the final fields stay the same, the invariants hold while the clock is monotone, and at most five calls are accepted |
| Order.RunKeepsIdentity | order-service/order-domain/src/main/java/com/quind/ecommerce/order/domain/model/Order.java:157-163 | an order stays equal to itself through any sequence of calls |
| Order.GetItems | order-service/order-domain/src/main/java/com/quind/ecommerce/order/domain/model/Order.java:141-143 | the items of an order that keeps its invariants are never empty |
| Order.GetItemsAfterCalls | order-service/order-domain/src/main/java/com/quind/ecommerce/order/domain/model/Order.java:36-50 | after create and any sequence of calls, accepted or refused, getItems returns exactly the list given to create, which is never empty; no clock assumption is needed |
| Order.AddSubtotalsMeaning | order-service/order-domain/src/main/java/com/quind/ecommerce/order/domain/model/Order.java:57-62 | with one currency the fold is the sum of the subtotals; otherwise it fails at the first item in another currency |
| Order.Total | order-service/order-domain/src/main/java/com/quind/ecommerce/order/domain/model/Order.java:57-62 | fails on no items; with one currency it is the sum of unit price times quantity in that currency; with mixed currencies it fails at the first foreign item |
| Order.Equals | order-service/order-domain/src/main/java/com/quind/ecommerce/order/domain/model/Order.java:157-163 | two orders are equal exactly when their ids are equal |
| Order.HashConsistent | order-service/order-domain/src/main/java/com/quind/ecommerce/order/domain/model/Order.java:157-168 | equal orders have equal hash codes |
| Scenarios.MoneyTestCases | order-service/order-domain/src/test/java/com/quind/ecommerce/order/domain/vo/MoneyTest.java:19-107 | 150.50 is kept; zero; -10.00, a null amount and a null currency are refused; 100.50 + 50.25 = 150.75; COP plus USD is refused; 25.00 times 3 is 75.00; 100 > 50 and not the reverse; two equal values have equal hashes |
| Scenarios.RoundingExamples | order-service/order-domain/src/main/java/com/quind/ecommerce/order/domain/vo/Money.java:16-41 | 100.005 rounds to 100.01 and 100.004 to 100.00; cop becomes COP; -0.001 and a blank currency are refused |
| Scenarios.TotalExample | order-service/order-domain/src/test/java/com/quind/ecommerce/order/domain/model/OrderTest.java:66-74 | 1000.00 times 1 plus 50.00 times 2 gives a total of 1100.00 on a new PENDING order |
| Scenarios.LifecycleExample | order-service/order-domain/src/test/java/com/quind/ecommerce/order/domain/model/OrderTest.java:136-158 | the normal flow reaches DELIVERED, and confirming a second time is refused |
| Scenarios.CancelExample | order-service/order-domain/src/test/java/com/quind/ecommerce/order/domain/model/OrderTest.java:185-205 | cancelling after confirm succeeds; after payment processing starts it is refused and the status stays the same |
| Scenarios.EmptyOrderExample | order-service/order-domain/src/test/java/com/quind/ecommerce/order/domain/model/OrderTest.java:59-64 | an empty item list is refused with EmptyOrder |

## Left out

- Domain event records (`OrderCreatedEvent`, `OrderConfirmedEvent`, `OrderPaidEvent`, `OrderCancelledEvent`, `DomainEvent`): their only behaviour is a random event id, a clock reading and payload copying, and the aggregate never emits them.
- The exception classes are not a class hierarchy here. They are the variants of `DomainErrors.DomainError`, and which of them derive from `DomainException` is not modelled.
- The clock and randomness: timestamps and the 16 random UUID bytes are parameters. Because of this, nothing is said about two generated ids being distinct.
- `toString` of `Money`, `OrderItem` and `Order`, and the plain getters, because they only format or return fields.
- Null elements inside the item list: `seq<OrderItem>` cannot hold them.
- Locale-dependent `toUpperCase` and Unicode `isBlank`: both are modelled over ASCII.
- JavaHash.StringHash: characters are hashed as code points, not as UTF-16 code units, so it agrees with Java only inside the Basic Multilingual Plane.
- Money.Decimal: the scale of a `BigDecimal` is a 32-bit int in Java. The model leaves it unbounded, so the overflow checks of `setScale` and `stripTrailingZeros` are not modelled.
- Hash code values: they are computed by the JDK recipes, but only consistency with `equals` is stated.
- Order.Valid: `updatedAt >= createdAt` depends on the clock. `Order.TransitionKeepsValid` and `Order.RunInvariant` take a clock that does not run backwards as a hypothesis.
- Text.ParseInt: it has no 32-bit range check, unlike `Integer.parseInt`. It serves only as the inverse of rendering.
- Concurrency: two transitions racing on one aggregate belong to the persistence layer.
- Persistence, HTTP and messaging layers, build files and the database initialisation script.
