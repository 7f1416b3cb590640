/** The entities the storefront store works on: catalog products, cart lines,
    the single session user and placed orders. Money is counted in whole cents. */
module Types {

  datatype Option<+T> = None | Some(value: T)

  /** A catalog entry. `price` is in cents and `rating` in tenths of a star. */
  datatype Product = Product(
    id: int,
    name: string,
    price: nat,
    category: string,
    description: string,
    rating: nat,
    inStock: bool,
    image: string)

  /** A product with the number of units of it in the cart. The quantity is an
      unrestricted integer: the store writes whatever quantity it is given. */
  datatype CartItem = CartItem(product: Product, quantity: int)
  {
    function Id(): int { product.id }

    /** What this line costs: unit price times quantity. */
    function Subtotal(): int { product.price * quantity }
  }

  /** The logged-in session. `id` is the clock reading taken at login. */
  datatype User = User(id: int, name: string, email: string, isLoggedIn: bool)

  datatype OrderStatus = Pending | Processing | Shipped | Delivered

  /** A placed order: a snapshot of the cart at checkout time. */
  datatype Order = Order(
    id: int,
    date: string,
    total: int,
    status: OrderStatus,
    items: seq<CartItem>,
    paymentMethod: string)

  /** `a` is `b` with some elements left out, the rest in their original order. */
  ghost predicate IsSubsequence<T>(a: seq<T>, b: seq<T>)
    decreases |b|
  {
    |a| <= |b|
    && (a == [] || (a[0] == b[0] && IsSubsequence(a[1..], b[1..])) || IsSubsequence(a, b[1..]))
  }

  lemma {:induction false} SubsequenceTransitive<T>(a: seq<T>, b: seq<T>, c: seq<T>)
    requires IsSubsequence(a, b) && IsSubsequence(b, c)
    ensures IsSubsequence(a, c)
    decreases |c|
  {
    if a == [] {
    } else if b[0] == c[0] && IsSubsequence(b[1..], c[1..]) {
      if a[0] == b[0] && IsSubsequence(a[1..], b[1..]) {
        SubsequenceTransitive(a[1..], b[1..], c[1..]);
      } else {
        SubsequenceTransitive(a, b[1..], c[1..]);
      }
    } else {
      SubsequenceTransitive(a, b, c[1..]);
    }
  }

  lemma {:induction false} SubsequenceReflexive<T>(a: seq<T>)
    ensures IsSubsequence(a, a)
    decreases |a|
  {
    if a != [] {
      SubsequenceReflexive(a[1..]);
    }
  }
}
