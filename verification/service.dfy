/** The in-memory service state: the menu table, the order table, and the
    four request handlers plus the periodic status sweep that act on them. */
module Service {
  import opened Outcomes
  import opened Menu
  import opened Lifecycle

  /** The `items` field of a POST /orders body: an array of ids, or anything else. */
  datatype ItemsField = Array(ids: seq<string>) | NotArray

  /** `items.some(itemId => !menu.has(itemId))`, scanned left to right: true
      exactly when some submitted id is not a menu key. */
  function AnyMissing(items: seq<string>, menu: map<string, MenuItem>): (r: bool)
    ensures r <==> exists i :: 0 <= i < |items| && items[i] !in menu
  {
    if items == [] then false
    else items[0] !in menu || AnyMissing(items[1..], menu)
  }

  /** Every id of an order refers to a menu item. */
  ghost predicate ItemsKnown(items: seq<string>, menu: map<string, MenuItem>) {
    forall id :: id in items ==> id in menu
  }

  /** The order-placement validation: an array whose ids are all on the menu.
      The empty array passes. */
  function AcceptsItems(items: ItemsField, menu: map<string, MenuItem>): (r: bool)
    ensures r <==> items.Array? && ItemsKnown(items.ids, menu)
    ensures items == Array([]) ==> r
  {
    items.Array? && !AnyMissing(items.ids, menu)
  }

  /** Menu keys are item ids and every stored item passed validation. */
  ghost predicate MenuWellFormed(menu: map<string, MenuItem>) {
    forall k :: k in menu ==> menu[k].id == k && ValidItem(menu[k])
  }

  /** Order keys are order ids and every referenced item is on the menu. */
  ghost predicate OrdersWellFormed(orders: map<string, Order>, menu: map<string, MenuItem>) {
    forall k :: k in orders ==> orders[k].id == k && ItemsKnown(orders[k].items, menu)
  }

  class Store {
    var menu: map<string, MenuItem>
    var orders: map<string, Order>

    ghost predicate Valid()
      reads this
    {
      MenuWellFormed(menu) && OrdersWellFormed(orders, menu)
    }

    /** Both tables start empty. */
    constructor ()
      ensures Valid() && menu == map[] && orders == map[]
    {
      menu := map[];
      orders := map[];
    }

    /** POST /menu: validate, then insert or overwrite the item under its id. */
    method AddMenuItem(req: MenuRequest) returns (r: Response<()>)
      requires Valid()
      modifies this
      ensures Valid()
      ensures r.Ok? <==> CheckMenuItem(req).Some?
      ensures !r.Ok? ==> r.Invalid? && menu == old(menu)
      ensures r.Ok? ==> menu == old(menu)[req.id := ItemOf(req)]
      ensures orders == old(orders)
    {
      var item := CheckMenuItem(req);
      if item.None? {
        return Invalid;
      }
      menu := menu[req.id := item.value];
      r := Ok(());
    }

    /** GET /menu: every stored item, one per id, in no particular order. */
    method ListMenu() returns (items: seq<MenuItem>)
      requires Valid()
      ensures |items| == |menu|
      ensures forall v :: v in items <==> v in menu.Values
      ensures forall i, j :: 0 <= i < j < |items| ==> items[i].id != items[j].id
    {
      items := [];
      var rest := menu.Keys;
      while rest != {}
        invariant rest <= menu.Keys
        invariant |items| + |rest| == |menu|
        invariant forall i :: 0 <= i < |items| ==>
          items[i].id in menu && items[i].id !in rest && menu[items[i].id] == items[i]
        invariant forall k :: k in menu && k !in rest ==> menu[k] in items
        invariant forall i, j :: 0 <= i < j < |items| ==> items[i].id != items[j].id
        decreases rest
      {
        var k :| k in rest;
        items := items + [menu[k]];
        rest := rest - {k};
      }
    }

    /** POST /orders: validate the items, then store a `Preparing` order
        under `freshId` (the stringified clock reading), overwriting any
        order already stored under that id. */
    method PlaceOrder(items: ItemsField, freshId: string, now: int) returns (r: Response<string>)
      requires Valid()
      modifies this
      ensures Valid()
      ensures r.Ok? <==> AcceptsItems(items, old(menu))
      ensures !r.Ok? ==> r.Invalid? && orders == old(orders)
      ensures r.Ok? ==> r.value == freshId
      ensures r.Ok? ==> orders == old(orders)[freshId := Order(freshId, items.ids, Preparing, now)]
      ensures menu == old(menu)
    {
      if !items.Array? || AnyMissing(items.ids, menu) {
        return Invalid;
      }
      orders := orders[freshId := Order(freshId, items.ids, Preparing, now)];
      r := Ok(freshId);
    }

    /** GET /orders/:id: the stored record, or not-found. */
    method GetOrder(id: string) returns (r: Response<Order>)
      requires Valid()
      ensures r.Ok? <==> id in orders
      ensures r.Ok? ==> r.value == orders[id] && r.value.id == id
      ensures !r.Ok? ==> r.NotFound?
    {
      if id !in orders {
        return NotFound;
      }
      r := Ok(orders[id]);
    }

    /** The periodic job: visit every order and move its status on one step
        in place. */
    method Sweep()
      requires Valid()
      modifies this
      ensures Valid()
      ensures orders == SweepAll(old(orders))
      ensures menu == old(menu)
    {
      var todo := orders.Keys;
      while todo != {}
        invariant todo <= orders.Keys
        invariant orders.Keys == old(orders).Keys
        invariant menu == old(menu)
        invariant forall k :: k in orders && k !in todo ==>
          orders[k] == old(orders)[k].(status := Advance(old(orders)[k].status))
        invariant forall k :: k in todo ==> orders[k] == old(orders)[k]
        decreases todo
      {
        var k :| k in todo;
        var order := orders[k];
        if order.status == Preparing {
          orders := orders[k := order.(status := OutForDelivery)];
        } else if order.status == OutForDelivery {
          orders := orders[k := order.(status := Delivered)];
        }
        todo := todo - {k};
      }
    }
  }

  /** The example session: add an item, list it, order it, watch the order
      advance on each sweep, and see an unknown item rejected. */
  method ExampleSession() {
    var store := new Store();
    var soup := MenuRequest("m1", "Soup", Number(5.0), "Appetizer");
    assert ValidItem(ItemOf(soup));
    var added := store.AddMenuItem(soup);
    assert added.Ok?;
    var listed := store.ListMenu();
    assert listed == [MenuItem("m1", "Soup", 5.0, "Appetizer")];
    var placed := store.PlaceOrder(Array(["m1"]), "1700000000000", 1700000000000);
    assert placed == Ok("1700000000000");
    var got := store.GetOrder("1700000000000");
    assert got.Ok? && got.value.status == Preparing;
    store.Sweep();
    got := store.GetOrder("1700000000000");
    assert got.Ok? && got.value.status == OutForDelivery;
    store.Sweep();
    got := store.GetOrder("1700000000000");
    assert got.Ok? && got.value.status == Delivered;
    store.Sweep();
    got := store.GetOrder("1700000000000");
    assert got.Ok? && got.value.status == Delivered;
    var rejected := store.PlaceOrder(Array(["unknown"]), "1700000000001", 1700000000001);
    assert rejected == Invalid;
    got := store.GetOrder("1700000000001");
    assert got == NotFound;
  }
}
