/** The cart's list of products and the three transitions the cart provider
    applies to it: add a product, increment a product's quantity, decrement it.
    Every transition is a pure function from the old list to the new one; the
    provider object in CartHook stores the result. */
module Cart {

  /** Price is a floating-point number in the application; nothing in the cart
      computes with it, so the model only carries it along. */
  datatype Price = Price(amount: real)

  /** One line of the cart. */
  datatype Product = Product(id: string, title: string, imageUrl: string, price: Price, quantity: int)

  datatype Option<T> = None | Some(value: T)

  /** The ids of the list, in list order. */
  function Ids(s: seq<Product>): (ids: seq<string>)
    ensures |ids| == |s|
    ensures forall i :: 0 <= i < |s| ==> ids[i] == s[i].id
  {
    seq(|s|, i requires 0 <= i < |s| => s[i].id)
  }

  predicate Contains(s: seq<Product>, id: string)
  {
    exists i :: 0 <= i < |s| && s[i].id == id
  }

  /** No two lines of the cart share an id. */
  predicate Unique(s: seq<Product>)
  {
    forall i, j :: 0 <= i < j < |s| ==> s[i].id != s[j].id
  }

  predicate NonNegative(s: seq<Product>)
  {
    forall i :: 0 <= i < |s| ==> s[i].quantity >= 0
  }

  /** `products.find(item => item.id === id)`: the first line with that id. */
  function Find(s: seq<Product>, id: string): (r: Option<Product>)
    ensures r.None? <==> !Contains(s, id)
    ensures r.Some? ==> exists k :: 0 <= k < |s| && s[k] == r.value && r.value.id == id &&
                                    forall j :: 0 <= j < k ==> s[j].id != id
  {
    if s == [] then None
    else if s[0].id == id then Some(s[0])
    else
      var r := Find(s[1..], id);
      assert forall i :: 1 <= i < |s| ==> s[i] == s[1..][i - 1];
      r
  }

  /** The line after the `map` callback of increment and decrement has seen it:
      a line with the target id gets its quantity shifted by delta, every other
      field kept from the line itself; any other line is returned as is. */
  function Touch(p: Product, id: string, delta: int): Product
  {
    if p.id == id then p.(quantity := p.quantity + delta) else p
  }

  /** `products.map(...)` with the Touch callback. */
  function Bump(s: seq<Product>, id: string, delta: int): (r: seq<Product>)
    ensures |r| == |s|
    ensures forall i :: 0 <= i < |s| ==> r[i] == Touch(s[i], id, delta)
  {
    if s == [] then [] else [Touch(s[0], id, delta)] + Bump(s[1..], id, delta)
  }

  /** `products.filter(item => item.id !== id)`. */
  function Without(s: seq<Product>, id: string): (r: seq<Product>)
    ensures |r| <= |s|
    ensures !Contains(r, id)
    ensures forall i :: 0 <= i < |s| && s[i].id != id ==> s[i] in r
    ensures forall p :: p in r ==> p in s
  {
    if s == [] then []
    else if s[0].id == id then Without(s[1..], id)
    else [s[0]] + Without(s[1..], id)
  }

  /** addToCart: a product already in the cart gets one more unit, keeping
      the fields of the line that is there; a new product is appended with
      quantity 1 whatever quantity it came with. */
  function AddToCart(s: seq<Product>, item: Product): (r: seq<Product>)
    ensures Contains(r, item.id)
    ensures Contains(s, item.id) <==> |r| == |s|
    ensures !Contains(s, item.id) <==> |r| == |s| + 1
  {
    match Find(s, item.id)
    case Some(_) =>
      var r := Bump(s, item.id, 1);
      assert Contains(r, item.id) by {
        var k :| 0 <= k < |s| && s[k].id == item.id;
        assert r[k].id == item.id;
      }
      r
    case None =>
      var r := s + [item.(quantity := 1)];
      assert r[|s|].id == item.id;
      r
  }

  /** increment: the line with the id gets one more unit. */
  function Increment(s: seq<Product>, id: string): (r: seq<Product>)
    ensures Ids(r) == Ids(s)
  {
    Bump(s, id, 1)
  }

  /** decrement: a line whose quantity is already at most 0 is removed;
      otherwise the line with the id (if any) loses one unit. */
  function Decrement(s: seq<Product>, id: string): (r: seq<Product>)
    ensures |r| <= |s|
    ensures !Contains(s, id) ==> r == s
  {
    match Find(s, id)
    case Some(p) =>
      if p.quantity <= 0 then Without(s, id) else Bump(s, id, -1)
    case None =>
      var r := Bump(s, id, -1);
      assert forall i :: 0 <= i < |s| ==> r[i] == s[i];
      r
  }
}
