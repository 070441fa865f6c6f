/**
 * `POST` of src/app/api/orders/route.ts: the ordered validation guards, the
 * server-side pricing of the requested lines, the pickup instant and the
 * order row written with a pending payment.
 *
 * The location and menu tables are maps from id to row; the order number and
 * the payment gateway's order id are inputs, since the source draws them from
 * a random generator and from the gateway.
 */
module OrderCreation {
  import opened Wrappers
  import opened Text
  import opened TimeSlots
  import opened Booking

  /** One entry of the request's `items`. */
  datatype RequestLine = RequestLine(menuItemId: string, quantity: int, cupNames: Option<seq<string>>)

  /** The request body; an absent string field is the empty string and absent `items` the empty list. */
  datatype OrderRequest = OrderRequest(
    customerName: string,
    customerMobile: string,
    pickupLocationId: string,
    pickupTime: string,
    items: seq<RequestLine>)

  /** A `menuItem` row; prices are whole rupees. */
  datatype MenuItem = MenuItem(price: int, isActive: bool)

  /** A created `orderItem` row. */
  datatype OrderLine = OrderLine(menuItemId: string, quantity: int, unitPrice: int, cupNames: seq<string>)

  /** The created `order` row. */
  datatype NewOrder = NewOrder(
    orderNumber: string,
    customerName: string,
    customerMobile: string,
    pickupLocationId: string,
    pickupAt: int,
    totalAmount: int,
    paymentStatus: string,
    gatewayOrderId: string,
    items: seq<OrderLine>)

  datatype Rejection = Rejection(status: int, error: string)

  /** The JSON response: the order with the amount in paise, or an error. */
  datatype Response = Created(order: NewOrder, amount: int) | Rejected(rejection: Rejection)

  // ---------------------------------------------------------------------
  // the guards

  /** `!customerName || !customerMobile || !pickupLocationId || !pickupTime || !items?.length`. */
  predicate MissingFields(req: OrderRequest) {
    req.customerName == "" || req.customerMobile == "" || req.pickupLocationId == ""
    || req.pickupTime == "" || |req.items| == 0
  }

  /** `findUnique({ where: { id, isActive: true } })` finds a row. */
  predicate ActiveLocation(locations: map<string, bool>, id: string) {
    id in locations && locations[id]
  }

  predicate ActiveItem(menu: map<string, MenuItem>, id: string) {
    id in menu && menu[id].isActive
  }

  /** The requested ids, in request order. */
  function RequestedIds(items: seq<RequestLine>): (ids: seq<string>)
    ensures |ids| == |items|
    ensures forall i :: 0 <= i < |items| ==> ids[i] == items[i].menuItemId
  {
    if items == [] then [] else [items[0].menuItemId] + RequestedIds(items[1..])
  }

  /** The rows `findMany({ where: { id: { in: ids }, isActive: true } })` returns, one per distinct id. */
  function ActiveRows(menu: map<string, MenuItem>, ids: seq<string>): set<string> {
    set id | id in ids && ActiveItem(menu, id)
  }

  /** The first guard that fails, or `None` when the request passes them all. */
  function Validate(req: OrderRequest, locations: map<string, bool>, menu: map<string, MenuItem>): Option<Rejection> {
    if MissingFields(req) then Some(Rejection(400, "Missing required fields"))
    else if !MatchesMobilePattern(req.customerMobile) then Some(Rejection(400, "Invalid mobile number"))
    else if !ActiveLocation(locations, req.pickupLocationId) then Some(Rejection(400, "Invalid pickup location"))
    else if |ActiveRows(menu, RequestedIds(req.items))| != |RequestedIds(req.items)| then
      Some(Rejection(400, "One or more menu items are unavailable"))
    else None
  }

  // ---------------------------------------------------------------------
  // the item check: as many active rows as requested ids

  lemma {:induction false} DistinctCard(ids: seq<string>)
    ensures |set id | id in ids| <= |ids|
    ensures |set id | id in ids| == |ids| <==> Distinct(ids)
  {
    if ids != [] {
      var rest := ids[1..];
      DistinctCard(rest);
      assert (set id | id in ids) == {ids[0]} + (set id | id in rest);
      if ids[0] in rest {
        assert (set id | id in ids) == (set id | id in rest);
        var j :| 0 <= j < |rest| && rest[j] == ids[0];
        assert ids[0] == ids[j + 1];
      } else {
        if Distinct(ids) {
          assert Distinct(rest) by {
            forall i, j | 0 <= i < j < |rest| ensures rest[i] != rest[j] {
              assert rest[i] == ids[i + 1] && rest[j] == ids[j + 1];
            }
          }
        }
        if Distinct(rest) {
          forall i, j | 0 <= i < j < |ids| ensures ids[i] != ids[j] {
            if i > 0 {
              assert ids[i] == rest[i - 1] && ids[j] == rest[j - 1];
            } else {
              assert ids[j] == rest[j - 1];
            }
          }
        }
      }
    }
  }

  lemma SubsetSameCard(a: set<string>, b: set<string>)
    requires a <= b && |a| == |b|
    ensures a == b
  {
    if a != b {
      var x :| x in b && x !in a;
      assert a <= b - {x};
      SubsetCard(a, b - {x});
    }
  }

  lemma {:induction false} SubsetCard(a: set<string>, b: set<string>)
    requires a <= b
    ensures |a| <= |b|
    decreases b
  {
    if a != {} {
      var x :| x in a;
      SubsetCard(a - {x}, b - {x});
    }
  }

  /**
   * The count check passes exactly when the requested ids are distinct and all
   * name active items.
   */
  lemma ItemCheckIff(menu: map<string, MenuItem>, ids: seq<string>)
    ensures |ActiveRows(menu, ids)| == |ids| <==> Distinct(ids) && forall i :: 0 <= i < |ids| ==> ActiveItem(menu, ids[i])
  {
    var all := set id | id in ids;
    var active := ActiveRows(menu, ids);
    DistinctCard(ids);
    SubsetCard(active, all);
    if |active| == |ids| {
      SubsetSameCard(active, all);
      forall i | 0 <= i < |ids| ensures ActiveItem(menu, ids[i]) {
        assert ids[i] in all;
      }
    }
    if Distinct(ids) && forall i :: 0 <= i < |ids| ==> ActiveItem(menu, ids[i]) {
      forall id | id in all ensures id in active {
        var i :| 0 <= i < |ids| && ids[i] == id;
      }
      assert active == all;
    }
  }

  // ---------------------------------------------------------------------
  // properties of the guard chain

  /** Missing fields are reported whatever else the request holds. */
  lemma MissingFieldsFirst(req: OrderRequest, locations: map<string, bool>, menu: map<string, MenuItem>)
    ensures Validate(req, locations, menu) == Some(Rejection(400, "Missing required fields")) <==> MissingFields(req)
  {
  }

  /** With every field present, the mobile is refused exactly when it is not ten digits starting with 6-9. */
  lemma MobileCheck(req: OrderRequest, locations: map<string, bool>, menu: map<string, MenuItem>)
    requires !MissingFields(req)
    ensures Validate(req, locations, menu) == Some(Rejection(400, "Invalid mobile number")) <==> !IsValidMobile(req.customerMobile)
  {
    MobilePatternIff(req.customerMobile);
  }

  /** An unknown or inactive location is reported before the items are looked at. */
  lemma LocationBeforeItems(req: OrderRequest, locations: map<string, bool>, menu: map<string, MenuItem>, menu2: map<string, MenuItem>)
    requires !MissingFields(req) && IsValidMobile(req.customerMobile)
    requires !ActiveLocation(locations, req.pickupLocationId)
    ensures Validate(req, locations, menu) == Some(Rejection(400, "Invalid pickup location"))
    ensures Validate(req, locations, menu) == Validate(req, locations, menu2)
  {
    MobilePatternIff(req.customerMobile);
  }

  /** A request passes every guard exactly when its fields are present, its mobile, location and items valid, and its ids distinct. */
  lemma AcceptedIff(req: OrderRequest, locations: map<string, bool>, menu: map<string, MenuItem>)
    ensures Validate(req, locations, menu).None? <==>
      && !MissingFields(req)
      && IsValidMobile(req.customerMobile)
      && ActiveLocation(locations, req.pickupLocationId)
      && Distinct(RequestedIds(req.items))
      && forall i :: 0 <= i < |req.items| ==> ActiveItem(menu, req.items[i].menuItemId)
  {
    MobilePatternIff(req.customerMobile);
    ItemCheckIff(menu, RequestedIds(req.items));
  }

  /** A request listing the same menu item twice is refused, even when that item is active. */
  lemma DuplicateIdRejected(req: OrderRequest, locations: map<string, bool>, menu: map<string, MenuItem>, i: nat, j: nat)
    requires i < j < |req.items| && req.items[i].menuItemId == req.items[j].menuItemId
    ensures Validate(req, locations, menu).Some?
  {
    AcceptedIff(req, locations, menu);
    assert RequestedIds(req.items)[i] == RequestedIds(req.items)[j];
  }

  // ---------------------------------------------------------------------
  // pricing

  /** The `orderItem` built for one request line, at the server's price; `cupNames` defaults to `[]`. */
  function LineOf(item: RequestLine, menu: map<string, MenuItem>): OrderLine
    requires item.menuItemId in menu
  {
    OrderLine(item.menuItemId, item.quantity, menu[item.menuItemId].price, item.cupNames.GetOr([]))
  }

  predicate AllPriced(items: seq<RequestLine>, menu: map<string, MenuItem>) {
    forall i :: 0 <= i < |items| ==> items[i].menuItemId in menu
  }

  /** `items.map(...)`: one line per request line, in request order. */
  function LinesOf(items: seq<RequestLine>, menu: map<string, MenuItem>): (lines: seq<OrderLine>)
    requires AllPriced(items, menu)
    ensures |lines| == |items|
    ensures forall i :: 0 <= i < |items| ==> lines[i] == LineOf(items[i], menu)
  {
    if items == [] then [] else LinesOf(items[..|items| - 1], menu) + [LineOf(items[|items| - 1], menu)]
  }

  /** The sum of `unitPrice * quantity` over created lines. */
  function SumLines(lines: seq<OrderLine>): int {
    if lines == [] then 0 else SumLines(lines[..|lines| - 1]) + lines[|lines| - 1].unitPrice * lines[|lines| - 1].quantity
  }

  /** The reference total: the server price of each requested item times its requested quantity. */
  function RequestTotal(items: seq<RequestLine>, menu: map<string, MenuItem>): int
    requires AllPriced(items, menu)
  {
    if items == [] then 0
    else RequestTotal(items[1..], menu) + menu[items[0].menuItemId].price * items[0].quantity
  }

  /**
   * The `items.map` callback with its `totalAmount +=` side effect: the lines
   * in request order and the running total of their prices.
   */
  method PriceItems(items: seq<RequestLine>, menu: map<string, MenuItem>) returns (lines: seq<OrderLine>, totalAmount: int)
    requires AllPriced(items, menu)
    ensures lines == LinesOf(items, menu)
    ensures totalAmount == SumLines(lines)
  {
    lines := [];
    totalAmount := 0;
    for i := 0 to |items|
      invariant lines == LinesOf(items[..i], menu)
      invariant totalAmount == SumLines(lines)
    {
      var item := items[i];
      var menuItem := menu[item.menuItemId];
      totalAmount := totalAmount + menuItem.price * item.quantity;
      lines := lines + [OrderLine(item.menuItemId, item.quantity, menuItem.price, item.cupNames.GetOr([]))];
      assert items[..i + 1][..i] == items[..i];
    }
    assert items[..|items|] == items;
  }

  lemma {:induction false} SumLinesCons(line: OrderLine, lines: seq<OrderLine>)
    ensures SumLines([line] + lines) == line.unitPrice * line.quantity + SumLines(lines)
    decreases |lines|
  {
    if lines != [] {
      assert ([line] + lines)[..|[line] + lines| - 1] == [line] + lines[..|lines| - 1];
      SumLinesCons(line, lines[..|lines| - 1]);
    }
  }

  /** The total of the created lines is the server price times quantity summed over the request. */
  lemma {:induction false} TotalIsRequestTotal(items: seq<RequestLine>, menu: map<string, MenuItem>)
    requires AllPriced(items, menu)
    ensures SumLines(LinesOf(items, menu)) == RequestTotal(items, menu)
  {
    if items != [] {
      var lines := LinesOf(items, menu);
      assert lines == [lines[0]] + lines[1..];
      assert lines[1..] == LinesOf(items[1..], menu);
      TotalIsRequestTotal(items[1..], menu);
      SumLinesCons(lines[0], lines[1..]);
    }
  }

  /** `Math.round(totalAmount * 100)`: for whole-rupee totals the paise amount is exact. */
  function Paise(totalAmount: int): (amount: int)
    ensures amount % 100 == 0 && amount / 100 == totalAmount
  {
    totalAmount * 100
  }

  /** The pickup instant: `setHours(hours, minutes, 0, 0)` on day `today`; `None` is the invalid date. */
  function PickupInstant(today: int, pickupTime: string): Option<int> {
    match TimeOfDay(pickupTime)
    case None => None
    case Some(t) => Some(today * 1440 + t)
  }

  /** A request that passed the guards names only menu items, so every line has a price. */
  lemma AcceptedIsPriced(req: OrderRequest, locations: map<string, bool>, menu: map<string, MenuItem>)
    requires Validate(req, locations, menu).None?
    ensures AllPriced(req.items, menu)
  {
    AcceptedIff(req, locations, menu);
  }

  // ---------------------------------------------------------------------
  // the handler

  /**
   * The handler's decision. A pickup time that does not parse gives an invalid
   * date, which the database write rejects, so the handler answers 500.
   */
  method CreateOrder(req: OrderRequest, locations: map<string, bool>, menu: map<string, MenuItem>,
                     today: int, orderNumber: string, gatewayOrderId: string)
    returns (r: Response)
    ensures Validate(req, locations, menu).Some? ==> r == Rejected(Validate(req, locations, menu).value)
    ensures Validate(req, locations, menu).None? && PickupInstant(today, req.pickupTime).None? ==>
      r == Rejected(Rejection(500, "Failed to create order"))
    ensures Validate(req, locations, menu).None? && PickupInstant(today, req.pickupTime).Some? ==>
      && AllPriced(req.items, menu)
      && r.Created?
      && r.order.items == LinesOf(req.items, menu)
      && r.order.totalAmount == RequestTotal(req.items, menu)
      && r.amount == Paise(r.order.totalAmount)
      && r.order.paymentStatus == "PENDING"
      && r.order.pickupAt == PickupInstant(today, req.pickupTime).value
      && r.order.orderNumber == orderNumber && r.order.gatewayOrderId == gatewayOrderId
      && r.order.customerName == req.customerName && r.order.customerMobile == req.customerMobile
      && r.order.pickupLocationId == req.pickupLocationId
  {
    if MissingFields(req) {
      return Rejected(Rejection(400, "Missing required fields"));
    }
    if !MatchesMobilePattern(req.customerMobile) {
      return Rejected(Rejection(400, "Invalid mobile number"));
    }
    if !ActiveLocation(locations, req.pickupLocationId) {
      return Rejected(Rejection(400, "Invalid pickup location"));
    }
    var menuItemIds := RequestedIds(req.items);
    var menuItems := ActiveRows(menu, menuItemIds);
    if |menuItems| != |menuItemIds| {
      return Rejected(Rejection(400, "One or more menu items are unavailable"));
    }
    AcceptedIsPriced(req, locations, menu);
    var orderItems, totalAmount := PriceItems(req.items, menu);
    TotalIsRequestTotal(req.items, menu);
    var pickupDateTime := PickupInstant(today, req.pickupTime);
    if pickupDateTime.None? {
      return Rejected(Rejection(500, "Failed to create order"));
    }
    var order := NewOrder(orderNumber, req.customerName, req.customerMobile, req.pickupLocationId,
                          pickupDateTime.value, totalAmount, "PENDING", gatewayOrderId, orderItems);
    r := Created(order, Paise(totalAmount));
  }

  // ---------------------------------------------------------------------
  // the created order and the booking tally

  lemma DayShift(today: int, t: nat)
    requires t < 1440
    ensures (today * 1440 + t) % 1440 == t
    ensures today * 1440 <= today * 1440 + t < today * 1440 + 1440
  {
  }

  /**
   * An order created for the pickup time `HH:MM` lands on today and, once paid
   * and not cancelled, is counted by the slot tally under that same `HH:MM`.
   */
  lemma CreatedOrderTalliedUnderItsTime(pickupTime: string, today: int, pickupAt: int, status: string)
    requires IsCanonicalTime(pickupTime)
    requires PickupInstant(today, pickupTime) == Some(pickupAt)
    requires status != "CANCELLED"
    ensures PickupKey(BookedOrder(pickupAt, "PAID", status)) == pickupTime
    ensures Eligible(BookedOrder(pickupAt, "PAID", status), today)
  {
    ParseFormatRoundTrip(pickupTime);
    var t := CanonicalHour(pickupTime) * 60 + CanonicalMinute(pickupTime);
    DayShift(today, t);
    KeyAt(BookedOrder(pickupAt, "PAID", status), t, pickupTime);
  }

  lemma KeyAt(o: BookedOrder, t: nat, key: string)
    requires o.pickupAt % 1440 == t && TimeKey(t) == key
    ensures PickupKey(o) == key
  {
  }
}
