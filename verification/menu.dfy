/** Menu items and the all-or-nothing validation of a submitted item. */
module Menu {
  import opened Outcomes

  /** A stored menu item; the price is a number, the category a string. */
  datatype MenuItem = MenuItem(id: string, name: string, price: real, category: string)

  /** The `price` field of a request body: a number, or any other JSON value. */
  datatype PriceField = Number(amount: real) | NotANumber

  /** The body of a POST /menu request. */
  datatype MenuRequest = MenuRequest(id: string, name: string, price: PriceField, category: string)

  /** The predefined categories, searched the way `Array.includes` does. */
  const ValidCategories: seq<string> := ["Appetizer", "Main Course", "Dessert"]

  /** The invariant every stored menu item satisfies. */
  predicate ValidItem(item: MenuItem) {
    && |item.id| > 0
    && |item.name| > 0
    && item.price > 0.0
    && (item.category == "Appetizer" || item.category == "Main Course" || item.category == "Dessert")
  }

  /** The record a request describes, when its price is a number. */
  function ItemOf(req: MenuRequest): MenuItem
    requires req.price.Number?
  {
    MenuItem(req.id, req.name, req.price.amount, req.category)
  }

  /** Validates a submission: a request is turned into a record exactly when
      that record would satisfy the stored-item invariant, and the record
      carries the submitted fields unchanged. No failing field is reported. */
  function CheckMenuItem(req: MenuRequest): (r: Option<MenuItem>)
    ensures r.Some? <==> req.price.Number? && ValidItem(ItemOf(req))
    ensures r.Some? ==> r.value == ItemOf(req) && r.value.id == req.id
  {
    if req.id == "" || req.name == "" || !req.price.Number? || req.price.amount <= 0.0
       || req.category !in ValidCategories
    then None
    else Some(ItemOf(req))
  }

  /** Each of the five rejection reasons on its own is enough to reject. */
  lemma RejectionReasons(req: MenuRequest)
    ensures req.id == "" ==> CheckMenuItem(req) == None
    ensures req.name == "" ==> CheckMenuItem(req) == None
    ensures req.price == NotANumber ==> CheckMenuItem(req) == None
    ensures req.price.Number? && req.price.amount <= 0.0 ==> CheckMenuItem(req) == None
    ensures req.category !in ["Appetizer", "Main Course", "Dessert"] ==> CheckMenuItem(req) == None
  {
  }
}
