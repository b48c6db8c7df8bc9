/** The order status table (orders/state.py). */
module OrderState {
  datatype OrderStatus = DRAFT | OPEN | IN_KITCHEN | READY | SERVED | PAID | CANCELLED | REFUNDED

  function Allowed(status: OrderStatus): set<OrderStatus> {
    match status
    case DRAFT => {OPEN, CANCELLED}
    case OPEN => {IN_KITCHEN, PAID, CANCELLED}
    case IN_KITCHEN => {OPEN, READY, PAID, CANCELLED}
    case READY => {SERVED, PAID, CANCELLED}
    case SERVED => {PAID}
    case PAID => {REFUNDED}
    case CANCELLED => {}
    case REFUNDED => {}
  }

  const MUTABLE := {DRAFT, OPEN, IN_KITCHEN, READY}

  const TERMINAL := {PAID, CANCELLED, REFUNDED}

  predicate CanTransition(current: OrderStatus, target: OrderStatus) {
    target in Allowed(current)
  }

  predicate IsPath(path: seq<OrderStatus>) {
    forall i :: 0 <= i < |path| - 1 ==> CanTransition(path[i], path[i + 1])
  }

  /** How far an order has come; no allowed change goes down, except that more items may take an order
      in the kitchen back to OPEN. */
  function Rank(status: OrderStatus): nat {
    match status
    case DRAFT => 0
    case OPEN => 1
    case IN_KITCHEN => 1
    case READY => 2
    case SERVED => 3
    case PAID => 4
    case CANCELLED => 5
    case REFUNDED => 5
  }

  /** No path of allowed changes leads back: a later status never ranks lower, so nothing paid, cancelled
      or refunded is ever open again, and CANCELLED and REFUNDED are last. */
  lemma {:induction false} PathsNeverLeadBack(path: seq<OrderStatus>, i: nat, j: nat)
    requires IsPath(path) && i < j < |path|
    ensures Rank(path[i]) <= Rank(path[j])
    ensures path[i] in TERMINAL ==> path[i] == PAID && path[j] == REFUNDED && j == i + 1
  {
    assert CanTransition(path[j - 1], path[j]);
    if i < j - 1 {
      PathsNeverLeadBack(path, i, j - 1);
    }
  }
}
