/** The order life-cycle state machine: eight states, an exhaustive transition
    relation and the two predicates derived from it. */
module OrderStatus {

  datatype Status =
    | Pending
    | Confirmed
    | PaymentProcessing
    | Paid
    | Shipped
    | Delivered
    | Cancelled
    | Failed

  /** Every state, listed once. */
  const AllStatuses: set<Status> :=
    {Pending, Confirmed, PaymentProcessing, Paid, Shipped, Delivered, Cancelled, Failed}

  /** The transition table as data: the normal flow, cancellation before payment
      and payment failure. */
  const Transitions: set<(Status, Status)> := {
    (Pending, Confirmed), (Pending, Cancelled),
    (Confirmed, PaymentProcessing), (Confirmed, Cancelled),
    (PaymentProcessing, Paid), (PaymentProcessing, Failed),
    (Paid, Shipped),
    (Shipped, Delivered)
  }

  /** Whether the machine allows moving from `from` to `to`: `canTransitionTo`'s
      switch, case by case. */
  predicate CanTransitionTo(from: Status, to: Status)
  {
    match from
    case Pending => to == Confirmed || to == Cancelled
    case Confirmed => to == PaymentProcessing || to == Cancelled
    case PaymentProcessing => to == Paid || to == Failed
    case Paid => to == Shipped
    case Shipped => to == Delivered
    case Delivered | Cancelled | Failed => false
  }

  /** A state with no way out. */
  predicate IsTerminal(s: Status): (r: bool)
    ensures r <==> forall t :: !CanTransitionTo(s, t)
  {
    assert CanTransitionTo(Pending, Confirmed) && CanTransitionTo(Confirmed, Cancelled);
    assert CanTransitionTo(PaymentProcessing, Paid) && CanTransitionTo(Paid, Shipped);
    assert CanTransitionTo(Shipped, Delivered);
    s == Delivered || s == Cancelled || s == Failed
  }

  /** Cancellation is only possible before payment starts. */
  predicate CanBeCancelled(s: Status): (r: bool)
    ensures r <==> CanTransitionTo(s, Cancelled)
  {
    s == Pending || s == Confirmed
  }

  /** The switch and the table agree on all 64 pairs. */
  lemma TransitionTableExact(s: Status, t: Status)
    ensures CanTransitionTo(s, t) <==> (s, t) in Transitions
  {
  }

  /** All pairs of states. */
  function AllPairs(): set<(Status, Status)>
  {
    set s, t | s in AllStatuses && t in AllStatuses :: (s, t)
  }

  /** Every status value is listed in `AllStatuses`. */
  lemma AllStatusesComplete(s: Status)
    ensures s in AllStatuses
  {
  }

  lemma StatusCount()
    ensures |AllStatuses| == 8
  {
    var a := {Pending, Confirmed, PaymentProcessing, Paid};
    var b := {Shipped, Delivered, Cancelled, Failed};
    assert |a| == 4;
    assert |b| == 4;
    assert a !! b;
    assert AllStatuses == a + b;
  }

  lemma TableCount()
    ensures |Transitions| == 8
  {
    var a := {(Pending, Confirmed), (Pending, Cancelled), (Confirmed, PaymentProcessing), (Confirmed, Cancelled)};
    var b := {(PaymentProcessing, Paid), (PaymentProcessing, Failed), (Paid, Shipped), (Shipped, Delivered)};
    assert |a| == 4;
    assert |b| == 4;
    assert a !! b;
    assert Transitions == a + b;
  }

  lemma AllowedIsTable()
    ensures (set p | p in AllPairs() && CanTransitionTo(p.0, p.1)) == Transitions
  {
    var allowed := set p | p in AllPairs() && CanTransitionTo(p.0, p.1);
    forall p | p in Transitions ensures p in allowed {
      AllStatusesComplete(p.0);
      AllStatusesComplete(p.1);
    }
  }

  /** Exactly 8 of the 64 pairs are allowed and the other 56 are refused. */
  lemma TransitionCount()
    ensures |AllPairs()| == 64
    ensures |set p | p in AllPairs() && CanTransitionTo(p.0, p.1)| == 8
    ensures |set p | p in AllPairs() && !CanTransitionTo(p.0, p.1)| == 56
  {
    var allowed := set p | p in AllPairs() && CanTransitionTo(p.0, p.1);
    var refused := set p | p in AllPairs() && !CanTransitionTo(p.0, p.1);
    StatusCount();
    TableCount();
    AllowedIsTable();
    PairsCount(AllStatuses, AllStatuses);
    assert AllPairs() == Pairs(AllStatuses, AllStatuses);
    assert refused == AllPairs() - allowed;
  }

  function Pairs(a: set<Status>, b: set<Status>): set<(Status, Status)>
  {
    set s, t | s in a && t in b :: (s, t)
  }

  lemma {:induction false} PairsCount(a: set<Status>, b: set<Status>)
    ensures |Pairs(a, b)| == |a| * |b|
    decreases a
  {
    if a == {} {
      assert Pairs(a, b) == {};
    } else {
      var x :| x in a;
      var rest := a - {x};
      var row := set t | t in b :: (x, t);
      assert Pairs(a, b) == Pairs(rest, b) + row;
      assert Pairs(rest, b) !! row;
      RowCount(x, b);
      PairsCount(rest, b);
    }
  }

  lemma {:induction false} RowCount(x: Status, b: set<Status>)
    ensures |set t | t in b :: (x, t)| == |b|
    decreases b
  {
    var row := set t | t in b :: (x, t);
    if b != {} {
      var y :| y in b;
      var rest := b - {y};
      assert row == (set t | t in rest :: (x, t)) + {(x, y)};
      RowCount(x, rest);
    } else {
      assert row == {};
    }
  }

  /** The switch's terminal arm: exactly the last three states have no way
      out. */
  lemma TerminalStates(s: Status)
    ensures (forall t :: !CanTransitionTo(s, t)) <==> s in {Delivered, Cancelled, Failed}
  {
    assert IsTerminal(s) <==> forall t :: !CanTransitionTo(s, t);
  }

  /** No state loops back to itself, and nothing leads into `Pending`, so
      `Pending` is only ever the initial state. */
  lemma NoSelfLoopsNoReentry(s: Status, t: Status)
    ensures !CanTransitionTo(s, s)
    ensures !CanTransitionTo(t, Pending)
  {
  }

  /** Position along the life cycle; cancellation and failure sit just above the
      states they leave from. */
  function Rank(s: Status): nat
  {
    match s
    case Pending => 0
    case Confirmed => 1
    case PaymentProcessing => 2
    case Cancelled => 2
    case Paid => 3
    case Failed => 3
    case Shipped => 4
    case Delivered => 5
  }

  lemma RankIncreases(s: Status, t: Status)
    requires CanTransitionTo(s, t)
    ensures Rank(s) < Rank(t)
    ensures Rank(t) <= 5
  {
  }

  /** A chain of allowed transitions. */
  predicate IsPath(p: seq<Status>)
  {
    forall i :: 0 <= i < |p| - 1 ==> CanTransitionTo(p[i], p[i + 1])
  }

  lemma {:induction false} PathRaisesRank(p: seq<Status>)
    requires |p| > 0 && IsPath(p)
    ensures Rank(p[|p| - 1]) >= Rank(p[0]) + |p| - 1
  {
    if |p| > 1 {
      var q := p[..|p| - 1];
      assert IsPath(q);
      PathRaisesRank(q);
      RankIncreases(p[|p| - 2], p[|p| - 1]);
    }
  }

  /** The relation is acyclic and every chain has at most five steps. */
  lemma PathsAreShortAndAcyclic(p: seq<Status>)
    requires |p| > 0 && IsPath(p)
    ensures |p| - 1 <= 5
    ensures |p| > 1 ==> p[0] != p[|p| - 1]
  {
    PathRaisesRank(p);
  }

  /** Five steps are attained: the normal flow from `Pending` to `Delivered`. */
  lemma NormalFlowIsLongest()
    ensures IsPath([Pending, Confirmed, PaymentProcessing, Paid, Shipped, Delivered])
  {
  }

  /** Every state is reachable from `Pending`. */
  lemma AllReachable(t: Status)
    ensures exists p :: |p| > 0 && IsPath(p) && p[0] == Pending && p[|p| - 1] == t
  {
    var flow := [Pending, Confirmed, PaymentProcessing, Paid, Shipped, Delivered];
    match t
    case Pending => assert IsPath([Pending]);
    case Confirmed => assert IsPath(flow[..2]);
    case PaymentProcessing => assert IsPath(flow[..3]);
    case Paid => assert IsPath(flow[..4]);
    case Shipped => assert IsPath(flow[..5]);
    case Delivered => assert IsPath(flow);
    case Cancelled => assert IsPath([Pending, Cancelled]);
    case Failed => assert IsPath([Pending, Confirmed, PaymentProcessing, Failed]);
  }
}
