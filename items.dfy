/** The `shopping_items` row: the `ShoppingItem` record and its priority enum. */
module ShoppingItems {

  /** Kotlin's `Int`: a signed 32-bit integer. */
  const MinInt: int := -0x8000_0000
  const MaxInt: int := 0x7FFF_FFFF
  type Int32 = x: int | MinInt <= x <= MaxInt

  /** The two priorities; Room stores an enum column as its `name`. */
  datatype Priority = NORMAL | HIGH {
    function Name(): (s: string)
      ensures |s| > 0
    {
      match this
      case NORMAL => "NORMAL"
      case HIGH => "HIGH"
    }
  }

  /** Reads a stored priority column back (the enum's `valueOf`). */
  function PriorityFromName(s: string): (r: Option<Priority>)
    ensures r.Some? ==> r.value.Name() == s
  {
    if s == "NORMAL" then Some(NORMAL)
    else if s == "HIGH" then Some(HIGH)
    else None
  }

  datatype Option<T> = None | Some(value: T)

  /**
   * One row. `id` defaults to 0, which the auto-generating primary key reads
   * as "not yet assigned"; the price is a plain 32-bit Int with no sign rule.
   * A datatype value is never updated in place: the `var` fields of the
   * source (`category`, `isBought`) are only ever set on fresh copies.
   */
  datatype ShoppingItem = ShoppingItem(
    id: int := 0,
    category: string,
    name: string,
    description: string,
    estimatedPrice: Int32,
    isBought: bool,
    priority: Priority)

  /** The constructor called without an explicit id. */
  function NewShoppingItem(category: string, name: string, description: string,
                           estimatedPrice: Int32, isBought: bool, priority: Priority): (r: ShoppingItem)
    ensures r.id == 0
    ensures r.category == category && r.name == name && r.description == description
    ensures r.estimatedPrice == estimatedPrice && r.isBought == isBought && r.priority == priority
  {
    ShoppingItem(category := category, name := name, description := description,
                 estimatedPrice := estimatedPrice, isBought := isBought, priority := priority)
  }

  /** Storing a priority by name and reading it back gives the same priority. */
  lemma PriorityNameRoundTrip(p: Priority)
    ensures PriorityFromName(p.Name()) == Some(p)
    ensures p == NORMAL || p == HIGH
  {
  }
}
