/**
 * The order list of the admin dashboard, src/app/admin/page.tsx: the search
 * box that narrows the fetched orders and the `status` query parameter of the
 * fetch.
 */
module AdminOrders {
  import opened Seqs
  import opened Text

  /** The columns of an order row the search looks at. */
  datatype AdminOrder = AdminOrder(orderNumber: string, customerName: string, customerMobile: string, status: string)

  /**
   * The `filter` callback: the order number or the name contains the search
   * text up to ASCII case, or the mobile contains it exactly.
   */
  predicate MatchesSearch(o: AdminOrder, search: string) {
    || Includes(Lower(o.orderNumber), Lower(search))
    || Includes(Lower(o.customerName), Lower(search))
    || Includes(o.customerMobile, search)
  }

  /** `filteredOrders`. */
  function FilteredOrders(orders: seq<AdminOrder>, search: string): (shown: seq<AdminOrder>)
    ensures IsSubsequence(shown, orders)
    ensures forall o :: o in shown <==> o in orders && MatchesSearch(o, search)
  {
    FilterIsSubsequence(orders, o => MatchesSearch(o, search));
    Filter(orders, o => MatchesSearch(o, search))
  }

  /** An order is listed exactly when the search text occurs in one of its three columns. */
  lemma FilteredOrdersIff(orders: seq<AdminOrder>, search: string, o: AdminOrder)
    ensures o in FilteredOrders(orders, search) <==>
      && o in orders
      && (Contains(Lower(o.orderNumber), Lower(search))
          || Contains(Lower(o.customerName), Lower(search))
          || Contains(o.customerMobile, search))
  {
    MatchesSearchIff(o, search);
  }

  lemma MatchesSearchIff(o: AdminOrder, search: string)
    ensures MatchesSearch(o, search) <==>
      || Contains(Lower(o.orderNumber), Lower(search))
      || Contains(Lower(o.customerName), Lower(search))
      || Contains(o.customerMobile, search)
  {
    IncludesIff(Lower(o.orderNumber), Lower(search));
    IncludesIff(Lower(o.customerName), Lower(search));
    IncludesIff(o.customerMobile, search);
  }

  /** An empty search box lists every order. */
  lemma EmptySearchKeepsAll(orders: seq<AdminOrder>)
    ensures FilteredOrders(orders, "") == orders
  {
    forall i | 0 <= i < |orders| ensures MatchesSearch(orders[i], "") {
      IncludesEmpty(orders[i].customerMobile);
    }
    FilterKeepsAll(orders, o => MatchesSearch(o, ""));
  }

  /** The name and number match ignores the case of the search text. */
  lemma SearchCaseInsensitive(o: AdminOrder, search: string, search2: string)
    requires Lower(search) == Lower(search2)
    requires Includes(Lower(o.orderNumber), Lower(search)) || Includes(Lower(o.customerName), Lower(search))
    ensures MatchesSearch(o, search2)
  {
  }

  /** ``filter !== 'all' ? `&status=${filter}` : ''``. */
  function StatusParam(filter: string): (param: string)
    ensures param == "" <==> filter == "all"
    ensures filter != "all" ==> |param| == 8 + |filter| && param[..8] == "&status=" && param[8..] == filter
  {
    if filter != "all" then "&status=" + filter else ""
  }
}
