/** What the three cart transitions promise: how each one changes the list,
    that ids stay unique, that quantities stay non-negative, and how the
    transitions undo one another. */
module CartProperties {
  import opened Cart

  // Facts about find, map and filter on a list of products.

  lemma FindAt(s: seq<Product>, id: string, k: int)
    requires Unique(s) && 0 <= k < |s| && s[k].id == id
    ensures Find(s, id) == Some(s[k])
  {
  }

  lemma BumpAbsent(s: seq<Product>, id: string, delta: int)
    requires !Contains(s, id)
    ensures Bump(s, id, delta) == s
  {
  }

  lemma BumpAt(s: seq<Product>, id: string, delta: int, k: int)
    requires Unique(s) && 0 <= k < |s| && s[k].id == id
    ensures Bump(s, id, delta) == s[k := s[k].(quantity := s[k].quantity + delta)]
  {
  }

  lemma {:induction false} WithoutAbsent(s: seq<Product>, id: string)
    requires !Contains(s, id)
    ensures Without(s, id) == s
  {
    if s != [] {
      assert !Contains(s[1..], id) by {
        forall i | 0 <= i < |s[1..]| ensures s[1..][i].id != id {
          assert s[1..][i] == s[i + 1];
        }
      }
      WithoutAbsent(s[1..], id);
      assert s == [s[0]] + s[1..];
    }
  }

  lemma {:induction false} WithoutConcat(a: seq<Product>, b: seq<Product>, id: string)
    ensures Without(a + b, id) == Without(a, id) + Without(b, id)
  {
    if a == [] {
      assert a + b == b;
    } else {
      assert (a + b)[0] == a[0];
      assert (a + b)[1..] == a[1..] + b;
      WithoutConcat(a[1..], b, id);
    }
  }

  /** In a list with unique ids, filtering out an id that sits at index k
      removes exactly that line and keeps the others in order. */
  lemma WithoutAt(s: seq<Product>, id: string, k: int)
    requires Unique(s) && 0 <= k < |s| && s[k].id == id
    ensures Without(s, id) == s[..k] + s[k + 1..]
  {
    assert s == s[..k] + ([s[k]] + s[k + 1..]);
    WithoutConcat(s[..k], [s[k]] + s[k + 1..], id);
    WithoutConcat([s[k]], s[k + 1..], id);
    assert !Contains(s[..k], id);
    var tail := s[k + 1..];
    assert !Contains(tail, id) by {
      forall i | 0 <= i < |tail| ensures tail[i].id != id {
        assert tail[i] == s[k + 1 + i];
      }
    }
    WithoutAbsent(s[..k], id);
    WithoutAbsent(s[k + 1..], id);
    assert [s[k]][1..] == [];
  }

  // addToCart

  /** A product not yet in the cart is appended at the end with its own
      title, image and price and quantity 1; the earlier lines are unchanged. */
  lemma AddToCartAbsent(s: seq<Product>, item: Product)
    requires !Contains(s, item.id)
    ensures AddToCart(s, item) == s + [Product(item.id, item.title, item.imageUrl, item.price, 1)]
  {
  }

  /** A product already in the cart keeps its place and every field of the
      line that is there (not of the incoming product), with one more unit;
      every other line is unchanged. */
  lemma AddToCartPresent(s: seq<Product>, item: Product, k: int)
    requires Unique(s) && 0 <= k < |s| && s[k].id == item.id
    ensures AddToCart(s, item) == s[k := s[k].(quantity := s[k].quantity + 1)]
  {
    BumpAt(s, item.id, 1, k);
  }

  // increment

  lemma IncrementAt(s: seq<Product>, id: string, k: int)
    requires Unique(s) && 0 <= k < |s| && s[k].id == id
    ensures Increment(s, id) == s[k := s[k].(quantity := s[k].quantity + 1)]
  {
    BumpAt(s, id, 1, k);
  }

  lemma IncrementAbsent(s: seq<Product>, id: string)
    requires !Contains(s, id)
    ensures Increment(s, id) == s
  {
    BumpAbsent(s, id, 1);
  }

  // decrement

  /** A line whose quantity is already at most 0 is removed; the other lines
      keep their contents and their relative order. */
  lemma DecrementRemoves(s: seq<Product>, id: string, k: int)
    requires Unique(s) && 0 <= k < |s| && s[k].id == id && s[k].quantity <= 0
    ensures Decrement(s, id) == s[..k] + s[k + 1..]
  {
    FindAt(s, id, k);
    WithoutAt(s, id, k);
  }

  /** A line whose quantity is positive loses one unit and stays in place;
      every other line is unchanged. */
  lemma DecrementLowers(s: seq<Product>, id: string, k: int)
    requires Unique(s) && 0 <= k < |s| && s[k].id == id && s[k].quantity > 0
    ensures Decrement(s, id) == s[k := s[k].(quantity := s[k].quantity - 1)]
  {
    FindAt(s, id, k);
    BumpAt(s, id, -1, k);
  }

  /** The boundary: decrementing a line with quantity 1 leaves it in the cart
      with quantity 0; only the next decrement removes it. */
  lemma DecrementFromOne(s: seq<Product>, id: string, k: int)
    requires Unique(s) && 0 <= k < |s| && s[k].id == id && s[k].quantity == 1
    ensures var r := Decrement(s, id);
      |r| == |s| && r[k].id == id && r[k].quantity == 0 &&
      Decrement(r, id) == s[..k] + s[k + 1..]
  {
    DecrementLowers(s, id, k);
    var r := Decrement(s, id);
    assert Unique(r) by {
      forall i, j | 0 <= i < j < |r| ensures r[i].id != r[j].id {
        assert r[i].id == s[i].id && r[j].id == s[j].id;
      }
    }
    DecrementRemoves(r, id, k);
    assert r[..k] == s[..k] && r[k + 1..] == s[k + 1..];
  }

  // Ids stay unique.

  lemma AddToCartKeepsUnique(s: seq<Product>, item: Product)
    requires Unique(s)
    ensures Unique(AddToCart(s, item))
  {
    if Contains(s, item.id) {
      var k :| 0 <= k < |s| && s[k].id == item.id;
      AddToCartPresent(s, item, k);
    } else {
      AddToCartAbsent(s, item);
    }
  }

  lemma IncrementKeepsUnique(s: seq<Product>, id: string)
    requires Unique(s)
    ensures Unique(Increment(s, id))
  {
    var r := Increment(s, id);
    forall i, j | 0 <= i < j < |r| ensures r[i].id != r[j].id {
      assert Ids(r)[i] == Ids(s)[i] && Ids(r)[j] == Ids(s)[j];
    }
  }

  lemma DecrementKeepsUnique(s: seq<Product>, id: string)
    requires Unique(s)
    ensures Unique(Decrement(s, id))
  {
    if Contains(s, id) {
      var k :| 0 <= k < |s| && s[k].id == id;
      if s[k].quantity <= 0 {
        DecrementRemoves(s, id, k);
        RemoveAtKeepsUnique(s, k);
      } else {
        DecrementLowers(s, id, k);
      }
    }
  }

  lemma RemoveAtKeepsUnique(s: seq<Product>, k: int)
    requires Unique(s) && 0 <= k < |s|
    ensures Unique(s[..k] + s[k + 1..])
  {
    var r := s[..k] + s[k + 1..];
    forall i, j | 0 <= i < j < |r| ensures r[i].id != r[j].id {
      var i' := if i < k then i else i + 1;
      var j' := if j < k then j else j + 1;
      assert r[i] == s[i'] && r[j] == s[j'];
    }
  }

  // Quantities stay non-negative.

  lemma AddToCartKeepsNonNegative(s: seq<Product>, item: Product)
    requires NonNegative(s)
    ensures NonNegative(AddToCart(s, item))
  {
  }

  lemma IncrementKeepsNonNegative(s: seq<Product>, id: string)
    requires NonNegative(s)
    ensures NonNegative(Increment(s, id))
  {
  }

  /** Decrement subtracts only from a line whose quantity is positive. */
  lemma DecrementKeepsNonNegative(s: seq<Product>, id: string)
    requires Unique(s) && NonNegative(s)
    ensures NonNegative(Decrement(s, id))
  {
    if Contains(s, id) {
      var k :| 0 <= k < |s| && s[k].id == id;
      if s[k].quantity <= 0 {
        DecrementRemoves(s, id, k);
        RemoveAtKeepsNonNegative(s, k);
      } else {
        DecrementLowers(s, id, k);
        var r := s[k := s[k].(quantity := s[k].quantity - 1)];
        assert forall i :: 0 <= i < |r| ==> r[i].quantity >= 0;
      }
    }
  }

  lemma RemoveAtKeepsNonNegative(s: seq<Product>, k: int)
    requires NonNegative(s) && 0 <= k < |s|
    ensures NonNegative(s[..k] + s[k + 1..])
  {
    var r := s[..k] + s[k + 1..];
    forall i | 0 <= i < |r| ensures r[i].quantity >= 0 {
      assert r[i] == s[if i < k then i else i + 1];
    }
  }

  // How the transitions undo one another.

  /** In a cart with unique ids and non-negative quantities, a decrement
      takes back an increment of the same id. */
  lemma DecrementUndoesIncrement(s: seq<Product>, id: string)
    requires Unique(s) && NonNegative(s)
    ensures Decrement(Increment(s, id), id) == s
  {
    if Contains(s, id) {
      var k :| 0 <= k < |s| && s[k].id == id;
      IncrementAt(s, id, k);
      var t := Increment(s, id);
      IncrementKeepsUnique(s, id);
      DecrementLowers(t, id, k);
    } else {
      IncrementAbsent(s, id);
    }
  }

  /** Adding a new product and decrementing it once leaves it in the cart with
      quantity 0; a second decrement gives back the cart as it was. */
  lemma AddThenDecrementTwice(s: seq<Product>, item: Product)
    requires Unique(s) && !Contains(s, item.id)
    ensures Decrement(AddToCart(s, item), item.id) == s + [item.(quantity := 0)]
    ensures Decrement(Decrement(AddToCart(s, item), item.id), item.id) == s
  {
    AddToCartAbsent(s, item);
    var a := AddToCart(s, item);
    AddToCartKeepsUnique(s, item);
    DecrementFromOne(a, item.id, |s|);
    DecrementLowers(a, item.id, |s|);
    assert a[..|s|] == s;
  }

  /** The list after each step of a session that starts empty, adds a product
      twice and decrements it three times. */
  lemma AddTwiceDecrementThriceTrace(p: Product)
    ensures var one, two, zero := p.(quantity := 1), p.(quantity := 2), p.(quantity := 0);
      && AddToCart([], p) == [one]
      && AddToCart([one], p) == [two]
      && Decrement([two], p.id) == [one]
      && Decrement([one], p.id) == [zero]
      && Decrement([zero], p.id) == []
  {
    var one, two, zero := p.(quantity := 1), p.(quantity := 2), p.(quantity := 0);
    AddToCartAbsent([], p);
    AddToCartPresent([one], p, 0);
    DecrementLowers([two], p.id, 0);
    DecrementLowers([one], p.id, 0);
    DecrementRemoves([zero], p.id, 0);
  }
}
