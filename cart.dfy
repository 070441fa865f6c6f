/**
 * The cart store of src/store/cart.ts: the line items, one per menu item, each
 * with a quantity and one name per cup, plus the customer's name, mobile and
 * chosen pickup location and time.
 *
 * Every action is a pure rewrite of the item list (the functions below) that
 * the `CartStore` methods apply to the store's fields, as the zustand `set`
 * calls do. Prices are whole rupees.
 */
module Cart {
  import opened Wrappers
  import opened Seqs

  datatype CartItem = CartItem(
    menuItemId: string,
    name: string,
    price: int,
    image: Option<string>,
    quantity: int,
    cupNames: seq<string>)

  /** The argument of `addItem`: a cart item without its quantity and names. */
  datatype MenuPick = MenuPick(menuItemId: string, name: string, price: int, image: Option<string>)

  // ---------------------------------------------------------------------
  // the invariant every action keeps

  /** One name per cup, and at least one cup. */
  predicate ItemOk(item: CartItem) {
    item.quantity >= 1 && |item.cupNames| == item.quantity
  }

  predicate UniqueIds(items: seq<CartItem>) {
    forall i, j :: 0 <= i < j < |items| ==> items[i].menuItemId != items[j].menuItemId
  }

  predicate WellFormed(items: seq<CartItem>) {
    && (forall i :: 0 <= i < |items| ==> ItemOk(items[i]))
    && UniqueIds(items)
  }

  // ---------------------------------------------------------------------
  // addItem

  /** `findIndex`: the first position holding `id`, or -1. */
  function FindIndex(items: seq<CartItem>, id: string): (k: int)
    ensures -1 <= k < |items|
    ensures k >= 0 ==> items[k].menuItemId == id && forall j :: 0 <= j < k ==> items[j].menuItemId != id
    ensures k == -1 ==> forall j :: 0 <= j < |items| ==> items[j].menuItemId != id
  {
    if items == [] then -1
    else if items[0].menuItemId == id then 0
    else var k := FindIndex(items[1..], id); if k == -1 then -1 else k + 1
  }

  /** One more cup, with a blank name. */
  function AddCup(item: CartItem): CartItem {
    item.(quantity := item.quantity + 1, cupNames := item.cupNames + [""])
  }

  function NewItem(pick: MenuPick): CartItem {
    CartItem(pick.menuItemId, pick.name, pick.price, pick.image, 1, [""])
  }

  /** The items after `addItem(pick)`. */
  function Added(items: seq<CartItem>, pick: MenuPick): seq<CartItem> {
    var k := FindIndex(items, pick.menuItemId);
    if k >= 0 then items[k := AddCup(items[k])] else items + [NewItem(pick)]
  }

  /**
   * Adding an id already in the cart adds one blank-named cup to that item,
   * keeping its stored name and price, and touches nothing else.
   */
  lemma AddExisting(items: seq<CartItem>, pick: MenuPick, k: nat)
    requires UniqueIds(items) && k < |items| && items[k].menuItemId == pick.menuItemId
    ensures |Added(items, pick)| == |items|
    ensures Added(items, pick)[k].quantity == items[k].quantity + 1
    ensures Added(items, pick)[k].cupNames == items[k].cupNames + [""]
    ensures Added(items, pick)[k].price == items[k].price && Added(items, pick)[k].name == items[k].name
    ensures forall j :: 0 <= j < |items| && j != k ==> Added(items, pick)[j] == items[j]
  {
    assert FindIndex(items, pick.menuItemId) == k;
  }

  /** Adding a new id appends one cup with a blank name at the end. */
  lemma AddNew(items: seq<CartItem>, pick: MenuPick)
    requires forall j :: 0 <= j < |items| ==> items[j].menuItemId != pick.menuItemId
    ensures Added(items, pick) == items + [CartItem(pick.menuItemId, pick.name, pick.price, pick.image, 1, [""])]
  {
  }

  lemma AddKeepsWellFormed(items: seq<CartItem>, pick: MenuPick)
    requires WellFormed(items)
    ensures WellFormed(Added(items, pick))
  {
  }

  // ---------------------------------------------------------------------
  // removeItem

  /** `items.filter((i) => i.menuItemId !== id)`. */
  function Removed(items: seq<CartItem>, id: string): (r: seq<CartItem>)
    ensures IsSubsequence(r, items)
  {
    FilterIsSubsequence(items, (item: CartItem) => item.menuItemId != id);
    Filter(items, (item: CartItem) => item.menuItemId != id)
  }

  /** Removing deletes exactly the items with that id and keeps the rest in order. */
  lemma RemoveExactly(items: seq<CartItem>, id: string)
    ensures forall x :: x in Removed(items, id) <==> x in items && x.menuItemId != id
    ensures IsSubsequence(Removed(items, id), items)
    ensures (forall j :: 0 <= j < |items| ==> items[j].menuItemId != id) ==> Removed(items, id) == items
  {
    if forall j :: 0 <= j < |items| ==> items[j].menuItemId != id {
      FilterKeepsAll(items, (item: CartItem) => item.menuItemId != id);
    }
  }

  /** A subsequence of a well-formed list is well formed. */
  lemma {:induction false} SubsequenceWellFormed(a: seq<CartItem>, b: seq<CartItem>)
    requires IsSubsequence(a, b) && WellFormed(b)
    ensures WellFormed(a)
    decreases |b|
  {
    if a != [] {
      assert WellFormed(b[1..]) by {
        forall i, j | 0 <= i < j < |b| - 1 ensures b[1..][i].menuItemId != b[1..][j].menuItemId {
          assert b[1..][i] == b[i + 1] && b[1..][j] == b[j + 1];
        }
      }
      if a[0] == b[0] && IsSubsequence(a[1..], b[1..]) {
        SubsequenceWellFormed(a[1..], b[1..]);
        SubsequenceHead(a[0], a[1..], b[1..], b[0]);
        forall i, j | 0 <= i < j < |a| ensures a[i].menuItemId != a[j].menuItemId {
          if i == 0 {
            assert a[j] == a[1..][j - 1];
          } else {
            assert a[i] == a[1..][i - 1] && a[j] == a[1..][j - 1];
          }
        }
        forall i | 0 <= i < |a| ensures ItemOk(a[i]) {
          if i > 0 {
            assert a[i] == a[1..][i - 1];
          }
        }
      } else {
        SubsequenceWellFormed(a, b[1..]);
      }
    }
  }

  /** The items of a subsequence of `rest` all differ from `head` when `rest` does. */
  lemma SubsequenceHead(x: CartItem, a: seq<CartItem>, rest: seq<CartItem>, head: CartItem)
    requires IsSubsequence(a, rest)
    requires forall j :: 0 <= j < |rest| ==> rest[j].menuItemId != head.menuItemId
    requires x == head
    ensures forall j :: 0 <= j < |a| ==> a[j].menuItemId != x.menuItemId
  {
    forall j | 0 <= j < |a| ensures a[j].menuItemId != x.menuItemId {
      SubsequenceMember(a, rest, j);
    }
  }

  lemma {:induction false} SubsequenceMember(a: seq<CartItem>, b: seq<CartItem>, j: nat)
    requires IsSubsequence(a, b) && j < |a|
    ensures a[j] in b
    decreases |b|
  {
    if a[0] == b[0] && IsSubsequence(a[1..], b[1..]) {
      if j > 0 {
        SubsequenceMember(a[1..], b[1..], j - 1);
      }
    } else {
      SubsequenceMember(a, b[1..], j);
    }
  }

  lemma RemoveKeepsWellFormed(items: seq<CartItem>, id: string)
    requires WellFormed(items)
    ensures WellFormed(Removed(items, id))
  {
    SubsequenceWellFormed(Removed(items, id), items);
  }

  // ---------------------------------------------------------------------
  // updateQuantity

  /** `Array(n).fill('')`. */
  function Blanks(n: nat): (r: seq<string>)
    ensures |r| == n && forall i :: 0 <= i < n ==> r[i] == ""
  {
    seq(n, _ => "")
  }

  /** The item with quantity `q`: names padded with blanks or cut from the end. */
  function Resized(item: CartItem, q: int): CartItem
    requires q >= 1
  {
    var names := if q > |item.cupNames| then item.cupNames + Blanks(q - |item.cupNames|) else item.cupNames[..q];
    item.(quantity := q, cupNames := names)
  }

  /** The `items.map` of a quantity of at least one. */
  function ResizedAll(items: seq<CartItem>, id: string, q: int): (r: seq<CartItem>)
    requires q >= 1
    ensures |r| == |items|
    ensures forall j :: 0 <= j < |items| ==> r[j] == if items[j].menuItemId == id then Resized(items[j], q) else items[j]
  {
    seq(|items|, j requires 0 <= j < |items| => if items[j].menuItemId == id then Resized(items[j], q) else items[j])
  }

  /** The items after `updateQuantity(id, q)`. */
  function QuantityUpdated(items: seq<CartItem>, id: string, q: int): seq<CartItem> {
    if q < 1 then Removed(items, id) else ResizedAll(items, id, q)
  }

  /**
   * A quantity of at least one sets that item's quantity, keeps the first
   * `min(old, q)` names, fills the rest with blanks, and leaves every other
   * item as it was.
   */
  lemma QuantityResizes(items: seq<CartItem>, id: string, q: int, k: nat)
    requires q >= 1 && k < |items| && items[k].menuItemId == id
    ensures QuantityUpdated(items, id, q)[k].quantity == q
    ensures |QuantityUpdated(items, id, q)[k].cupNames| == q
    ensures QuantityUpdated(items, id, q)[k].cupNames[..Min(|items[k].cupNames|, q)] == items[k].cupNames[..Min(|items[k].cupNames|, q)]
    ensures forall i :: |items[k].cupNames| <= i < q ==> QuantityUpdated(items, id, q)[k].cupNames[i] == ""
    ensures forall j :: 0 <= j < |items| && items[j].menuItemId != id ==> QuantityUpdated(items, id, q)[j] == items[j]
  {
  }

  /** A quantity below one removes the item, as `removeItem` does. */
  lemma QuantityBelowOneRemoves(items: seq<CartItem>, id: string, q: int)
    requires q < 1
    ensures QuantityUpdated(items, id, q) == Removed(items, id)
    ensures forall x :: x in QuantityUpdated(items, id, q) ==> x.menuItemId != id
  {
  }

  lemma QuantityKeepsWellFormed(items: seq<CartItem>, id: string, q: int)
    requires WellFormed(items)
    ensures WellFormed(QuantityUpdated(items, id, q))
  {
    if q < 1 {
      RemoveKeepsWellFormed(items, id);
    }
  }

  // ---------------------------------------------------------------------
  // updateCupName and setAllCupNames

  /** The `items.map` of `updateCupName(id, index, name)`. */
  function CupRenamed(items: seq<CartItem>, id: string, index: nat, name: string): (r: seq<CartItem>)
    requires forall j :: 0 <= j < |items| && items[j].menuItemId == id ==> index < |items[j].cupNames|
    ensures |r| == |items|
  {
    seq(|items|, j requires 0 <= j < |items| =>
      if items[j].menuItemId == id then items[j].(cupNames := items[j].cupNames[index := name]) else items[j])
  }

  /** Renaming a cup changes that one name of that item and nothing else. */
  lemma RenameOnlyThatCup(items: seq<CartItem>, id: string, index: nat, name: string, k: nat)
    requires forall j :: 0 <= j < |items| && items[j].menuItemId == id ==> index < |items[j].cupNames|
    requires k < |items|
    ensures items[k].menuItemId != id ==> CupRenamed(items, id, index, name)[k] == items[k]
    ensures items[k].menuItemId == id ==>
      && |CupRenamed(items, id, index, name)[k].cupNames| == |items[k].cupNames|
      && CupRenamed(items, id, index, name)[k].cupNames[index] == name
      && CupRenamed(items, id, index, name)[k].quantity == items[k].quantity
      && forall i :: 0 <= i < |items[k].cupNames| && i != index ==>
           CupRenamed(items, id, index, name)[k].cupNames[i] == items[k].cupNames[i]
  {
  }

  lemma RenameKeepsWellFormed(items: seq<CartItem>, id: string, index: nat, name: string)
    requires forall j :: 0 <= j < |items| && items[j].menuItemId == id ==> index < |items[j].cupNames|
    requires WellFormed(items)
    ensures WellFormed(CupRenamed(items, id, index, name))
  {
    var r := CupRenamed(items, id, index, name);
    forall i, j | 0 <= i < j < |r| ensures r[i].menuItemId != r[j].menuItemId {
      assert r[i].menuItemId == items[i].menuItemId && r[j].menuItemId == items[j].menuItemId;
    }
  }

  /** Every name of the item set to `name`: `cupNames.map(() => name)`. */
  function AllNamed(item: CartItem, name: string): CartItem {
    item.(cupNames := seq(|item.cupNames|, _ => name))
  }

  /** The `items.map` of `setAllCupNames(id, name)`. */
  function AllCupsNamed(items: seq<CartItem>, id: string, name: string): (r: seq<CartItem>)
    ensures |r| == |items|
  {
    seq(|items|, j requires 0 <= j < |items| => if items[j].menuItemId == id then AllNamed(items[j], name) else items[j])
  }

  /** Naming every cup gives each of that item's cups the name, keeps the count, and leaves other items alone. */
  lemma AllCupsNamedEffect(items: seq<CartItem>, id: string, name: string, k: nat)
    requires k < |items|
    ensures items[k].menuItemId != id ==> AllCupsNamed(items, id, name)[k] == items[k]
    ensures items[k].menuItemId == id ==>
      && |AllCupsNamed(items, id, name)[k].cupNames| == |items[k].cupNames|
      && AllCupsNamed(items, id, name)[k].quantity == items[k].quantity
      && forall i :: 0 <= i < |items[k].cupNames| ==> AllCupsNamed(items, id, name)[k].cupNames[i] == name
  {
  }

  /** Naming every cup twice with the same name is the same as doing it once. */
  lemma AllCupsNamedIdempotent(items: seq<CartItem>, id: string, name: string)
    ensures AllCupsNamed(AllCupsNamed(items, id, name), id, name) == AllCupsNamed(items, id, name)
  {
    var once := AllCupsNamed(items, id, name);
    var twice := AllCupsNamed(once, id, name);
    forall j | 0 <= j < |items| ensures twice[j] == once[j] {
      if items[j].menuItemId == id {
        assert once[j].cupNames == seq(|items[j].cupNames|, _ => name);
        assert twice[j].cupNames == seq(|once[j].cupNames|, _ => name);
      }
    }
  }

  lemma AllCupsNamedKeepsWellFormed(items: seq<CartItem>, id: string, name: string)
    requires WellFormed(items)
    ensures WellFormed(AllCupsNamed(items, id, name))
  {
    var r := AllCupsNamed(items, id, name);
    forall i, j | 0 <= i < j < |r| ensures r[i].menuItemId != r[j].menuItemId {
      assert r[i].menuItemId == items[i].menuItemId && r[j].menuItemId == items[j].menuItemId;
    }
  }

  // ---------------------------------------------------------------------
  // the totals

  /** `reduce((sum, item) => sum + item.price * item.quantity, 0)`. */
  function Total(items: seq<CartItem>): int {
    if items == [] then 0 else Total(items[..|items| - 1]) + items[|items| - 1].price * items[|items| - 1].quantity
  }

  /** `reduce((sum, item) => sum + item.quantity, 0)`. */
  function TotalItems(items: seq<CartItem>): int {
    if items == [] then 0 else TotalItems(items[..|items| - 1]) + items[|items| - 1].quantity
  }

  /** Replacing one item changes each total by the difference of that item's share. */
  lemma {:induction false} TotalsAfterUpdate(items: seq<CartItem>, k: nat, x: CartItem)
    requires k < |items|
    ensures Total(items[k := x]) == Total(items) - items[k].price * items[k].quantity + x.price * x.quantity
    ensures TotalItems(items[k := x]) == TotalItems(items) - items[k].quantity + x.quantity
  {
    var n := |items| - 1;
    var updated := items[k := x];
    if k < n {
      assert updated[..n] == items[..n][k := x];
      TotalsAfterUpdate(items[..n], k, x);
    } else {
      assert updated[..n] == items[..n];
    }
  }

  lemma TotalsAppend(items: seq<CartItem>, x: CartItem)
    ensures Total(items + [x]) == Total(items) + x.price * x.quantity
    ensures TotalItems(items + [x]) == TotalItems(items) + x.quantity
  {
    assert (items + [x])[..|items|] == items;
  }

  /**
   * Adding a pick adds one cup and its price to the totals; the price is the
   * one already stored when the item was in the cart.
   */
  lemma AddTotals(items: seq<CartItem>, pick: MenuPick)
    ensures TotalItems(Added(items, pick)) == TotalItems(items) + 1
    ensures FindIndex(items, pick.menuItemId) >= 0 ==>
      Total(Added(items, pick)) == Total(items) + items[FindIndex(items, pick.menuItemId)].price
    ensures FindIndex(items, pick.menuItemId) == -1 ==> Total(Added(items, pick)) == Total(items) + pick.price
  {
    var k := FindIndex(items, pick.menuItemId);
    if k >= 0 {
      var x := AddCup(items[k]);
      assert Added(items, pick) == items[k := x];
      TotalsAfterUpdate(items, k, x);
      assert x.price * x.quantity == items[k].price * items[k].quantity + items[k].price;
    } else {
      assert Added(items, pick) == items + [NewItem(pick)];
      TotalsAppend(items, NewItem(pick));
    }
  }

  /** For a well-formed cart the item count is the number of cup names. */
  function CupCount(items: seq<CartItem>): nat {
    if items == [] then 0 else CupCount(items[..|items| - 1]) + |items[|items| - 1].cupNames|
  }

  lemma {:induction false} TotalItemsCountsCups(items: seq<CartItem>)
    requires forall i :: 0 <= i < |items| ==> ItemOk(items[i])
    ensures TotalItems(items) == CupCount(items) && TotalItems(items) >= |items|
  {
    if items != [] {
      TotalItemsCountsCups(items[..|items| - 1]);
    }
  }

  // ---------------------------------------------------------------------
  // the store

  class CartStore {
    var items: seq<CartItem>
    var customerName: string
    var customerMobile: string
    var pickupLocationId: string
    var pickupTime: string

    predicate Valid()
      reads this
    {
      WellFormed(items)
    }

    /** The store's initial state. */
    constructor()
      ensures Valid()
      ensures items == [] && customerName == "" && customerMobile == "" && pickupLocationId == "" && pickupTime == ""
    {
      items := [];
      customerName := "";
      customerMobile := "";
      pickupLocationId := "";
      pickupTime := "";
    }

    /** `addItem`: an existing entry is updated in place, a new one appended. */
    method AddItem(pick: MenuPick)
      requires Valid()
      modifies this
      ensures Valid()
      ensures items == Added(old(items), pick)
      ensures customerName == old(customerName) && customerMobile == old(customerMobile)
      ensures pickupLocationId == old(pickupLocationId) && pickupTime == old(pickupTime)
    {
      AddKeepsWellFormed(items, pick);
      var existingIndex := FindIndex(items, pick.menuItemId);
      if existingIndex >= 0 {
        var entry := items[existingIndex];
        entry := entry.(quantity := entry.quantity + 1);
        entry := entry.(cupNames := entry.cupNames + [""]);
        items := items[existingIndex := entry];
      } else {
        items := items + [NewItem(pick)];
      }
    }

    method RemoveItem(menuItemId: string)
      requires Valid()
      modifies this
      ensures Valid()
      ensures items == Removed(old(items), menuItemId)
      ensures customerName == old(customerName) && customerMobile == old(customerMobile)
      ensures pickupLocationId == old(pickupLocationId) && pickupTime == old(pickupTime)
    {
      RemoveKeepsWellFormed(items, menuItemId);
      items := Removed(items, menuItemId);
    }

    /** `updateQuantity`: below one it delegates to `removeItem`. */
    method UpdateQuantity(menuItemId: string, quantity: int)
      requires Valid()
      modifies this
      ensures Valid()
      ensures items == QuantityUpdated(old(items), menuItemId, quantity)
      ensures customerName == old(customerName) && customerMobile == old(customerMobile)
      ensures pickupLocationId == old(pickupLocationId) && pickupTime == old(pickupTime)
    {
      if quantity < 1 {
        RemoveItem(menuItemId);
        return;
      }
      QuantityKeepsWellFormed(items, menuItemId, quantity);
      items := ResizedAll(items, menuItemId, quantity);
    }

    /** `updateCupName`; the index must name one of the item's cups. */
    method UpdateCupName(menuItemId: string, index: nat, name: string)
      requires Valid()
      requires forall j :: 0 <= j < |items| && items[j].menuItemId == menuItemId ==> index < |items[j].cupNames|
      modifies this
      ensures Valid()
      ensures items == CupRenamed(old(items), menuItemId, index, name)
      ensures customerName == old(customerName) && customerMobile == old(customerMobile)
      ensures pickupLocationId == old(pickupLocationId) && pickupTime == old(pickupTime)
    {
      RenameKeepsWellFormed(items, menuItemId, index, name);
      items := CupRenamed(items, menuItemId, index, name);
    }

    method SetAllCupNames(menuItemId: string, name: string)
      requires Valid()
      modifies this
      ensures Valid()
      ensures items == AllCupsNamed(old(items), menuItemId, name)
      ensures customerName == old(customerName) && customerMobile == old(customerMobile)
      ensures pickupLocationId == old(pickupLocationId) && pickupTime == old(pickupTime)
    {
      AllCupsNamedKeepsWellFormed(items, menuItemId, name);
      items := AllCupsNamed(items, menuItemId, name);
    }

    method SetCustomerInfo(name: string, mobile: string)
      modifies this
      ensures customerName == name && customerMobile == mobile
      ensures items == old(items) && pickupLocationId == old(pickupLocationId) && pickupTime == old(pickupTime)
    {
      customerName, customerMobile := name, mobile;
    }

    method SetPickupLocation(locationId: string)
      modifies this
      ensures pickupLocationId == locationId
      ensures items == old(items) && customerName == old(customerName) && customerMobile == old(customerMobile)
      ensures pickupTime == old(pickupTime)
    {
      pickupLocationId := locationId;
    }

    method SetPickupTime(time: string)
      modifies this
      ensures pickupTime == time
      ensures items == old(items) && customerName == old(customerName) && customerMobile == old(customerMobile)
      ensures pickupLocationId == old(pickupLocationId)
    {
      pickupTime := time;
    }

    /** `clearCart`: the items and all four customer and pickup fields are emptied. */
    method ClearCart()
      modifies this
      ensures Valid()
      ensures items == [] && customerName == "" && customerMobile == "" && pickupLocationId == "" && pickupTime == ""
    {
      items := [];
      customerName := "";
      customerMobile := "";
      pickupLocationId := "";
      pickupTime := "";
    }

    /** `getTotal`, the `reduce` written as its loop; zero for an empty cart. */
    method GetTotal() returns (sum: int)
      ensures sum == Total(items)
      ensures items == [] ==> sum == 0
    {
      sum := 0;
      for i := 0 to |items|
        invariant sum == Total(items[..i])
      {
        assert items[..i + 1][..i] == items[..i];
        sum := sum + items[i].price * items[i].quantity;
      }
      assert items[..|items|] == items;
    }

    /** `getTotalItems`; for a valid cart at least the number of lines. */
    method GetTotalItems() returns (sum: int)
      requires Valid()
      ensures sum == TotalItems(items) && sum == CupCount(items) && sum >= |items|
      ensures items == [] ==> sum == 0
    {
      sum := 0;
      for i := 0 to |items|
        invariant sum == TotalItems(items[..i])
      {
        assert items[..i + 1][..i] == items[..i];
        sum := sum + items[i].quantity;
      }
      assert items[..|items|] == items;
      TotalItemsCountsCups(items);
    }
  }
}
