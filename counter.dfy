/**
 * The barista counter of src/app/counter/page.tsx: the status each order's
 * action button advances it to, the orders the board shows as active, and
 * the label printed on each card.
 */
module Counter {
  import opened Wrappers
  import opened Seqs

  /** The columns of an order the board reads. */
  datatype CounterOrder = CounterOrder(orderNumber: string, status: string)

  /** `getNextStatus()`: the status the card's button moves the order to, if any. */
  function NextStatus(status: string): Option<string> {
    if status == "CONFIRMED" then Some("PREPARING")
    else if status == "PREPARING" then Some("READY")
    else if status == "READY" then Some("COMPLETED")
    else None
  }

  /** The status after pressing the button `k` times, or `None` once there is no button. */
  function Steps(status: string, k: nat): Option<string>
    decreases k
  {
    if k == 0 then Some(status)
    else match NextStatus(status)
      case None => None
      case Some(next) => Steps(next, k - 1)
  }

  /** The position of a status along the progression; statuses off it have no successor. */
  function Rank(status: string): nat {
    if status == "PREPARING" then 1
    else if status == "READY" then 2
    else if status == "COMPLETED" then 3
    else 0
  }

  /** The successor maps exactly the three active statuses, each one place further along. */
  lemma NextStatusTable(status: string)
    ensures NextStatus("CONFIRMED") == Some("PREPARING")
    ensures NextStatus("PREPARING") == Some("READY")
    ensures NextStatus("READY") == Some("COMPLETED")
    ensures NextStatus(status).Some? <==> status in ActiveStatuses
    ensures NextStatus(status).Some? ==> Rank(NextStatus(status).value) == Rank(status) + 1
  {
  }

  /** Each press moves one place along the progression. */
  lemma {:induction false} StepsRank(status: string, k: nat)
    requires Steps(status, k).Some?
    ensures Rank(Steps(status, k).value) == Rank(status) + k
    decreases k
  {
    if k > 0 {
      NextStatusTable(status);
      StepsRank(NextStatus(status).value, k - 1);
    }
  }

  /** From any status the presses never revisit a status. */
  lemma NoRepeats(status: string, i: nat, j: nat)
    requires i < j && Steps(status, i).Some? && Steps(status, j).Some?
    ensures Steps(status, i).value != Steps(status, j).value
  {
    StepsRank(status, i);
    StepsRank(status, j);
  }

  /** A new order is completed after exactly three presses, and then has no button. */
  lemma ConfirmedToCompleted(k: nat)
    requires Steps("CONFIRMED", k) == Some("COMPLETED")
    ensures k == 3
    ensures Steps("CONFIRMED", 3) == Some("COMPLETED") && Steps("CONFIRMED", 4) == None
  {
    StepsRank("CONFIRMED", k);
  }

  // ---------------------------------------------------------------------
  // the active board

  const ActiveStatuses: seq<string> := ["CONFIRMED", "PREPARING", "READY"]

  predicate IsActive(o: CounterOrder) {
    o.status in ActiveStatuses
  }

  /** `orders.filter((o) => ['CONFIRMED', 'PREPARING', 'READY'].includes(o.status))`. */
  function ActiveOrders(orders: seq<CounterOrder>): (active: seq<CounterOrder>)
    ensures IsSubsequence(active, orders)
    ensures forall o :: o in active <==> o in orders && IsActive(o)
  {
    FilterIsSubsequence(orders, IsActive);
    Filter(orders, IsActive)
  }

  /** Every card on the active board shows an action button. */
  lemma ActiveHaveButton(orders: seq<CounterOrder>)
    ensures forall o :: o in ActiveOrders(orders) ==> NextStatus(o.status).Some?
  {
    forall o | o in ActiveOrders(orders) ensures NextStatus(o.status).Some? {
      NextStatusTable(o.status);
    }
  }

  /** A finished or cancelled order is never on the active board. */
  lemma FinishedNotActive(orders: seq<CounterOrder>, o: CounterOrder)
    requires o.status == "COMPLETED" || o.status == "CANCELLED"
    ensures o !in ActiveOrders(orders)
  {
    assert "COMPLETED" != "CONFIRMED" && "COMPLETED" != "PREPARING" && "COMPLETED" != "READY";
    assert "CANCELLED" != "CONFIRMED" && "CANCELLED" != "PREPARING" && "CANCELLED" != "READY";
  }

  // ---------------------------------------------------------------------
  // the card label

  /** `statusLabels[order.status] || order.status`. */
  function DisplayLabel(status: string): (shown: string)
    ensures status == "CONFIRMED" ==> shown == "New"
    ensures status == "PREPARING" ==> shown == "Preparing"
    ensures status == "READY" ==> shown == "Ready"
    ensures status !in ActiveStatuses ==> shown == status
  {
    var labels := map["CONFIRMED" := "New", "PREPARING" := "Preparing", "READY" := "Ready"];
    if status in labels then labels[status] else status
  }
}
