/** The cart operations of the store: adding a product, changing or removing a
    line, and pricing the cart. A cart is a sequence of lines in the order the
    products were first added. */
module Cart {
  import opened Types

  /** Some line of `cart` is for product `id`. */
  predicate HasId(cart: seq<CartItem>, id: int) {
    exists i :: 0 <= i < |cart| && cart[i].Id() == id
  }

  /** The invariant the store keeps: each product id has at most one line. */
  predicate UniqueIds(cart: seq<CartItem>) {
    forall i, j :: 0 <= i < j < |cart| ==> cart[i].Id() != cart[j].Id()
  }

  /** Every line holds at least one unit. */
  predicate AllPositive(cart: seq<CartItem>) {
    forall i :: 0 <= i < |cart| ==> cart[i].quantity > 0
  }

  /** The first line for product `id`, as `Array.prototype.find` returns it. */
  function Find(cart: seq<CartItem>, id: int): (r: Option<CartItem>)
    ensures r.Some? <==> HasId(cart, id)
    ensures r.Some? ==> exists k :: 0 <= k < |cart| && cart[k] == r.value && r.value.Id() == id
                                    && forall j :: 0 <= j < k ==> cart[j].Id() != id
  {
    if cart == [] then None
    else if cart[0].Id() == id then Some(cart[0])
    else
      var r := Find(cart[1..], id);
      assert forall i :: 0 < i < |cart| ==> cart[i] == cart[1..][i - 1];
      r
  }

  /** Applies `f` to the quantity of every line for product `id`, keeping every
      other field and every other line as it is. */
  function MapQuantity(cart: seq<CartItem>, id: int, f: int -> int): (r: seq<CartItem>)
    ensures |r| == |cart|
    ensures forall i :: 0 <= i < |cart| ==>
              r[i].product == cart[i].product
              && r[i].quantity == (if cart[i].Id() == id then f(cart[i].quantity) else cart[i].quantity)
    ensures !HasId(cart, id) ==> r == cart
  {
    if cart == [] then []
    else
      var head := if cart[0].Id() == id then cart[0].(quantity := f(cart[0].quantity)) else cart[0];
      NoIdInTail(cart, id);
      [head] + MapQuantity(cart[1..], id, f)
  }

  /** Drops every line for product `id`, keeping the others in order. */
  function RemoveId(cart: seq<CartItem>, id: int): (r: seq<CartItem>)
    ensures forall x :: x in r <==> x in cart && x.Id() != id
    ensures forall x: CartItem :: x.Id() != id ==> multiset(r)[x] == multiset(cart)[x]
    ensures IsSubsequence(r, cart)
    ensures |r| <= |cart|
    ensures !HasId(cart, id) ==> r == cart
    ensures UniqueIds(cart) ==> UniqueIds(r)
  {
    if cart == [] then []
    else
      var rest := RemoveId(cart[1..], id);
      NoIdInTail(cart, id);
      if cart[0].Id() == id then
        DropHead(cart, id, rest);
        rest
      else
        KeepHead(cart, id, rest);
        [cart[0]] + rest
  }

  /** The step of `RemoveId` that drops the head line. */
  lemma DropHead(cart: seq<CartItem>, id: int, rest: seq<CartItem>)
    requires cart != [] && cart[0].Id() == id
    requires forall x :: x in rest <==> x in cart[1..] && x.Id() != id
    requires forall x: CartItem :: x.Id() != id ==> multiset(rest)[x] == multiset(cart[1..])[x]
    requires IsSubsequence(rest, cart[1..])
    requires UniqueIds(cart[1..]) ==> UniqueIds(rest)
    ensures forall x :: x in rest <==> x in cart && x.Id() != id
    ensures forall x: CartItem :: x.Id() != id ==> multiset(rest)[x] == multiset(cart)[x]
    ensures IsSubsequence(rest, cart)
    ensures UniqueIds(cart) ==> UniqueIds(rest)
  {
    assert multiset(cart) == multiset{cart[0]} + multiset(cart[1..]) by {
      assert cart == [cart[0]] + cart[1..];
    }
    if UniqueIds(cart) { UniqueTail(cart); }
  }

  /** The step of `RemoveId` that keeps the head line. */
  lemma KeepHead(cart: seq<CartItem>, id: int, rest: seq<CartItem>)
    requires cart != [] && cart[0].Id() != id
    requires forall x :: x in rest <==> x in cart[1..] && x.Id() != id
    requires forall x: CartItem :: x.Id() != id ==> multiset(rest)[x] == multiset(cart[1..])[x]
    requires IsSubsequence(rest, cart[1..])
    requires UniqueIds(cart[1..]) ==> UniqueIds(rest)
    ensures forall x :: x in [cart[0]] + rest <==> x in cart && x.Id() != id
    ensures forall x: CartItem :: x.Id() != id ==> multiset([cart[0]] + rest)[x] == multiset(cart)[x]
    ensures IsSubsequence([cart[0]] + rest, cart)
    ensures UniqueIds(cart) ==> UniqueIds([cart[0]] + rest)
  {
    var r := [cart[0]] + rest;
    assert multiset(cart) == multiset{cart[0]} + multiset(cart[1..]) by {
      assert cart == [cart[0]] + cart[1..];
    }
    assert multiset(r) == multiset{cart[0]} + multiset(rest);
    assert IsSubsequence(r, cart) by {
      assert r[1..] == rest;
    }
    if UniqueIds(cart) {
      UniqueTail(cart);
      NoIdInSubset(rest, cart[1..], cart[0].Id());
      ConsUnique(cart[0], rest);
    }
  }

  /** A cart with no line for `id` has a tail with no line for `id`. */
  lemma NoIdInTail(cart: seq<CartItem>, id: int)
    requires cart != []
    ensures !HasId(cart, id) ==> !HasId(cart[1..], id)
  {
    if HasId(cart[1..], id) {
      var i :| 0 <= i < |cart[1..]| && cart[1..][i].Id() == id;
      assert cart[i + 1] == cart[1..][i];
    }
  }

  /** Lines drawn from a cart with no line for `id` include none for `id` either. */
  lemma NoIdInSubset(a: seq<CartItem>, b: seq<CartItem>, id: int)
    requires forall x :: x in a ==> x in b
    requires !HasId(b, id)
    ensures !HasId(a, id)
  {
    forall i | 0 <= i < |a| ensures a[i].Id() != id {
      assert a[i] in b;
    }
  }

  /** A line whose id is new keeps ids unique when put in front. */
  lemma ConsUnique(x: CartItem, rest: seq<CartItem>)
    requires UniqueIds(rest)
    requires !HasId(rest, x.Id())
    ensures UniqueIds([x] + rest)
  {
    var c := [x] + rest;
    forall i, j | 0 <= i < j < |c| ensures c[i].Id() != c[j].Id() {
      assert c[j] == rest[j - 1];
      if i > 0 { assert c[i] == rest[i - 1]; }
    }
  }

  /** One more unit, as a merged `addToCart` writes it. */
  function Increment(q: int): int { q + 1 }

  /** The quantity update that ignores the old value. */
  function SetTo(quantity: int): int -> int { _ => quantity }

  /** The tail of a cart with unique ids has unique ids and no line for the head's id. */
  lemma UniqueTail(cart: seq<CartItem>)
    requires UniqueIds(cart)
    requires cart != []
    ensures UniqueIds(cart[1..])
    ensures !HasId(cart[1..], cart[0].Id())
  {
    forall i, j | 0 <= i < j < |cart[1..]| ensures cart[1..][i].Id() != cart[1..][j].Id() {
      assert cart[1..][i] == cart[i + 1] && cart[1..][j] == cart[j + 1];
    }
    forall i | 0 <= i < |cart[1..]| ensures cart[1..][i].Id() != cart[0].Id() {
      assert cart[1..][i] == cart[i + 1];
    }
  }

  /** `addToCart`: a product that already has a line gets one more unit on that
      line; a new product is appended as a line of one unit. */
  function AddToCart(cart: seq<CartItem>, p: Product): (r: seq<CartItem>)
    ensures HasId(cart, p.id) ==>
              |r| == |cart|
              && forall i :: 0 <= i < |cart| ==>
                   r[i].product == cart[i].product
                   && r[i].quantity == (if cart[i].Id() == p.id then cart[i].quantity + 1 else cart[i].quantity)
    ensures !HasId(cart, p.id) ==> r == cart + [CartItem(p, 1)]
    ensures HasId(r, p.id)
    ensures UniqueIds(cart) ==> UniqueIds(r)
  {
    match Find(cart, p.id)
    case Some(_) => MapQuantity(cart, p.id, Increment)
    case None =>
      var r := cart + [CartItem(p, 1)];
      assert r[|cart|].Id() == p.id;
      r
  }

  /** `updateQuantity`: a quantity of exactly zero removes the line; any other
      value, negative ones included, is written into the line for `id`. */
  function UpdateQuantity(cart: seq<CartItem>, id: int, quantity: int): (r: seq<CartItem>)
    ensures quantity == 0 ==> forall x :: x in r <==> x in cart && x.Id() != id
    ensures quantity == 0 ==> !HasId(r, id)
    ensures quantity == 0 ==> IsSubsequence(r, cart)
    ensures quantity == 0 ==> forall x: CartItem :: x.Id() != id ==> multiset(r)[x] == multiset(cart)[x]
    ensures quantity != 0 ==>
              |r| == |cart|
              && forall i :: 0 <= i < |cart| ==>
                   r[i].product == cart[i].product
                   && r[i].quantity == (if cart[i].Id() == id then quantity else cart[i].quantity)
    ensures !HasId(cart, id) ==> r == cart
    ensures UniqueIds(cart) ==> UniqueIds(r)
  {
    if quantity == 0 then RemoveId(cart, id)
    else MapQuantity(cart, id, SetTo(quantity))
  }

  /** The sum over the cart of unit price times quantity. */
  function Total(cart: seq<CartItem>): int
  {
    if cart == [] then 0 else cart[0].Subtotal() + Total(cart[1..])
  }

  /** The total is additive over concatenation of carts. */
  lemma {:induction false} TotalAppend(a: seq<CartItem>, b: seq<CartItem>)
    ensures Total(a + b) == Total(a) + Total(b)
    decreases |a|
  {
    if a == [] {
      assert a + b == b;
    } else {
      assert (a + b)[1..] == a[1..] + b;
      TotalAppend(a[1..], b);
    }
  }

  /** A cart whose lines all hold a positive quantity never totals below zero. */
  lemma {:induction false} TotalNonNegative(cart: seq<CartItem>)
    requires AllPositive(cart)
    ensures Total(cart) >= 0
    decreases |cart|
  {
    if cart != [] {
      assert AllPositive(cart[1..]) by {
        forall i | 0 <= i < |cart[1..]| ensures cart[1..][i].quantity > 0 {
          assert cart[1..][i] == cart[i + 1];
        }
      }
      TotalNonNegative(cart[1..]);
    }
  }

  /** `getTotalPrice`: the left-to-right `reduce` over the cart, starting at 0. */
  method GetTotalPrice(cart: seq<CartItem>) returns (total: int)
    ensures total == Total(cart)
    ensures cart == [] ==> total == 0
  {
    total := 0;
    var i := 0;
    while i < |cart|
      invariant 0 <= i <= |cart|
      invariant total == Total(cart[..i])
    {
      TotalAppend(cart[..i], [cart[i]]);
      assert cart[..i + 1] == cart[..i] + [cart[i]];
      total := total + cart[i].product.price * cart[i].quantity;
      i := i + 1;
    }
    assert cart[..i] == cart;
  }

  /** On a cart with unique ids, dropping the line at index `k` is exactly
      what removing its product id does: the other lines stay, in order. */
  lemma {:induction false} RemoveIdAt(cart: seq<CartItem>, k: int)
    requires UniqueIds(cart)
    requires 0 <= k < |cart|
    ensures RemoveId(cart, cart[k].Id()) == cart[..k] + cart[k + 1..]
    decreases |cart|
  {
    UniqueTail(cart);
    if k == 0 {
      assert RemoveId(cart, cart[0].Id()) == cart[1..];
    } else {
      RemoveIdAtTail(cart, k);
    }
  }

  /** The step of `RemoveIdAt` for a line past the head. */
  lemma {:induction false} RemoveIdAtTail(cart: seq<CartItem>, k: int)
    requires UniqueIds(cart)
    requires 0 < k < |cart|
    ensures RemoveId(cart, cart[k].Id()) == cart[..k] + cart[k + 1..]
    decreases |cart|, 0
  {
    var id := cart[k].Id();
    var tail := cart[1..];
    assert tail[k - 1] == cart[k];
    assert RemoveId(cart, id) == [cart[0]] + RemoveId(tail, id) by {
      assert cart[0].Id() != id;
    }
    assert RemoveId(tail, id) == tail[..k - 1] + tail[k..] by {
      UniqueTail(cart);
      RemoveIdAt(tail, k - 1);
    }
    DropAtShift(cart, k);
  }

  /** Dropping index `k > 0` keeps the head and drops index `k - 1` of the tail. */
  lemma DropAtShift<T>(s: seq<T>, k: int)
    requires 0 < k < |s|
    ensures s[..k] + s[k + 1..] == [s[0]] + (s[1..][..k - 1] + s[1..][k..])
  {
  }

  /** `updateQuantity(id, 0)` on a cart with unique ids takes out exactly the
      line for `id` and keeps the remaining lines in order. */
  lemma UpdateToZeroRemovesLine(cart: seq<CartItem>, k: int)
    requires UniqueIds(cart)
    requires 0 <= k < |cart|
    ensures UpdateQuantity(cart, cart[k].Id(), 0) == cart[..k] + cart[k + 1..]
  {
    RemoveIdAt(cart, k);
  }

  /** On a cart with unique ids, rewriting the quantity of the line at `k`
      changes the total by the difference of that line's subtotals. */
  lemma {:induction false} TotalMapQuantity(cart: seq<CartItem>, k: int, f: int -> int)
    requires UniqueIds(cart)
    requires 0 <= k < |cart|
    ensures Total(MapQuantity(cart, cart[k].Id(), f))
            == Total(cart) - cart[k].Subtotal() + cart[k].product.price * f(cart[k].quantity)
    decreases |cart|
  {
    var id := cart[k].Id();
    var r := MapQuantity(cart, id, f);
    assert UniqueIds(cart[1..]) by {
      forall i, j | 0 <= i < j < |cart[1..]| ensures cart[1..][i].Id() != cart[1..][j].Id() {
        assert cart[1..][i] == cart[i + 1] && cart[1..][j] == cart[j + 1];
      }
    }
    assert r[1..] == MapQuantity(cart[1..], id, f);
    if k == 0 {
      assert !HasId(cart[1..], id) by {
        forall i | 0 <= i < |cart[1..]| ensures cart[1..][i].Id() != id {
          assert cart[1..][i] == cart[i + 1];
        }
      }
    } else {
      assert cart[1..][k - 1] == cart[k];
      TotalMapQuantity(cart[1..], k - 1, f);
    }
  }

  /** Multiplication distributes over a difference. */
  lemma ScaleDifference(a: int, b: int, c: int)
    ensures a * b - a * c == a * (b - c)
  {
  }

  /** One more unit costs one more unit price. */
  lemma OneMoreUnit(price: int, quantity: int)
    ensures price * Increment(quantity) == price * quantity + price
  {
  }

  /** Adding a product that already has the line at `k` raises the total of
      a cart with unique ids by that line's unit price. */
  lemma TotalAfterAddKnown(cart: seq<CartItem>, k: int, p: Product)
    requires UniqueIds(cart)
    requires 0 <= k < |cart| && cart[k].Id() == p.id
    ensures Total(AddToCart(cart, p)) == Total(cart) + cart[k].product.price
  {
    var line := cart[k];
    var after := MapQuantity(cart, p.id, Increment);
    assert AddToCart(cart, p) == after by {
      assert HasId(cart, p.id);
    }
    var grown := line.product.price * Increment(line.quantity);
    assert Total(after) == Total(cart) - line.Subtotal() + grown by {
      TotalMapQuantity(cart, k, Increment);
    }
    assert grown == line.Subtotal() + line.product.price by {
      OneMoreUnit(line.product.price, line.quantity);
    }
  }

  /** Adding a product with no line raises the total by its unit price. */
  lemma TotalAfterAddNew(cart: seq<CartItem>, p: Product)
    requires !HasId(cart, p.id)
    ensures Total(AddToCart(cart, p)) == Total(cart) + p.price
  {
    TotalAppend(cart, [CartItem(p, 1)]);
  }

  /** On a cart with unique ids, setting the line for `cart[k]` to a non-zero
      quantity changes the total by that line's price times the difference. */
  lemma TotalAfterUpdate(cart: seq<CartItem>, k: int, quantity: int)
    requires UniqueIds(cart)
    requires 0 <= k < |cart|
    requires quantity != 0
    ensures Total(UpdateQuantity(cart, cart[k].Id(), quantity))
            == Total(cart) + cart[k].product.price * (quantity - cart[k].quantity)
  {
    TotalMapQuantity(cart, k, SetTo(quantity));
    ScaleDifference(cart[k].product.price, quantity, cart[k].quantity);
  }

  /** Adding the same new product twice gives one line of two units, never two lines. */
  lemma AddTwiceMerges(cart: seq<CartItem>, p: Product)
    requires !HasId(cart, p.id)
    ensures AddToCart(AddToCart(cart, p), p) == cart + [CartItem(p, 2)]
  {
    var once := AddToCart(cart, p);
    var twice := AddToCart(once, p);
    assert |twice| == |cart| + 1;
    forall i | 0 <= i < |twice| ensures twice[i] == (cart + [CartItem(p, 2)])[i] {
      if i < |cart| {
        assert cart[i].Id() != p.id;
      }
    }
  }

  /** Adding a product keeps every line at one unit or more. */
  lemma AddKeepsPositive(cart: seq<CartItem>, p: Product)
    requires AllPositive(cart)
    ensures AllPositive(AddToCart(cart, p))
  {
    var r := AddToCart(cart, p);
    if !HasId(cart, p.id) {
      forall i | 0 <= i < |r| ensures r[i].quantity > 0 {
        if i < |cart| { assert r[i] == cart[i]; }
      }
    }
  }

  /** A non-negative new quantity keeps every line at one unit or more: zero
      removes the line, a positive value is stored. */
  lemma UpdateKeepsPositive(cart: seq<CartItem>, id: int, quantity: int)
    requires AllPositive(cart)
    requires quantity >= 0
    ensures AllPositive(UpdateQuantity(cart, id, quantity))
  {
    var r := UpdateQuantity(cart, id, quantity);
    if quantity == 0 {
      forall i | 0 <= i < |r| ensures r[i].quantity > 0 {
        assert r[i] in cart;
        var j :| 0 <= j < |cart| && cart[j] == r[i];
      }
    }
  }

  /** Only exactly zero removes a line: a negative quantity is written into the
      cart, leaving a line that holds no units at all. */
  lemma NegativeQuantityIsKept(p: Product)
    ensures UpdateQuantity([CartItem(p, 1)], p.id, -1) == [CartItem(p, -1)]
    ensures !AllPositive(UpdateQuantity([CartItem(p, 1)], p.id, -1))
  {
    var r := UpdateQuantity([CartItem(p, 1)], p.id, -1);
    assert r[0] == CartItem(p, -1);
  }
}
