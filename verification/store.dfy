/** The page-wide store: the session user, the cart and the order history, and
    the handlers that move it from one state to the next. Each handler returns
    the new state in place of calling the React setters; clock readings (the
    ids taken from `Date.now()` and the order date) are parameters. */
module Store {
  import opened Types
  import Cart
  import Session

  datatype State = State(user: Option<User>, cart: seq<CartItem>, orders: seq<Order>)

  /** The state before anything is loaded: no user, an empty cart, no orders. */
  const Initial: State := State(None, [], [])

  /** `handleCheckout`: with a non-empty cart and a user present, a pending
      order snapshotting the cart and its total goes to the front of the
      history and the cart is emptied. Otherwise nothing changes. */
  function Checkout(s: State, paymentMethod: string, orderId: int, date: string): (r: State)
    ensures s.cart == [] || s.user.None? ==> r == s
    ensures s.cart != [] && s.user.Some? ==>
              && r.user == s.user
              && r.cart == []
              && |r.orders| == |s.orders| + 1
              && r.orders[1..] == s.orders
              && r.orders[0].id == orderId
              && r.orders[0].date == date
              && r.orders[0].total == Cart.Total(s.cart)
              && r.orders[0].status == Pending
              && r.orders[0].items == s.cart
              && r.orders[0].paymentMethod == paymentMethod
  {
    if |s.cart| == 0 || s.user.None? then s
    else
      var order := Order(orderId, date, Cart.Total(s.cart), Pending, s.cart, paymentMethod);
      s.(orders := [order] + s.orders, cart := [])
  }

  /** `handleLogout`: the session ends; cart and orders are kept. */
  function Logout(s: State): (r: State)
    ensures r.user.None?
    ensures r.cart == s.cart && r.orders == s.orders
  {
    s.(user := None)
  }

  /** The events the store reacts to. */
  datatype Action =
    | AddItem(product: Product)
    | ChangeQuantity(id: int, quantity: int)
    | PlaceOrder(paymentMethod: string, orderId: int, date: string)
    | LogIn(email: string, password: string, now: int)
    | SignUp(name: string, email: string, password: string, confirmPassword: string, now: int)
    | LogOut

  /** One event handled to completion. */
  function Step(s: State, a: Action): State {
    match a
    case AddItem(p) => s.(cart := Cart.AddToCart(s.cart, p))
    case ChangeQuantity(id, q) => s.(cart := Cart.UpdateQuantity(s.cart, id, q))
    case PlaceOrder(m, id, date) => Checkout(s, m, id, date)
    case LogIn(email, password, now) => s.(user := Session.Login(s.user, email, password, now))
    case SignUp(name, email, password, confirm, now) =>
      s.(user := Session.Register(s.user, name, email, password, confirm, now))
    case LogOut => Logout(s)
  }

  /** A sequence of events handled in order. */
  function Run(s: State, actions: seq<Action>): State
    decreases |actions|
  {
    if actions == [] then s else Run(Step(s, actions[0]), actions[1..])
  }

  /** The quantities the cart view passes to `updateQuantity`: a line's
      quantity plus or minus one, so never below zero for a positive line. */
  predicate Admissible(a: Action) {
    a.ChangeQuantity? ==> a.quantity >= 0
  }

  /** Every order in the history is pending, non-empty and priced at the total
      of its own items. */
  predicate OrdersConsistent(orders: seq<Order>) {
    forall i :: 0 <= i < |orders| ==>
      orders[i].status == Pending && orders[i].items != [] && orders[i].total == Cart.Total(orders[i].items)
  }

  /** The store invariant: one line per product, every line holding at least
      one unit, and a consistent order history. */
  predicate Valid(s: State) {
    Cart.UniqueIds(s.cart) && Cart.AllPositive(s.cart) && OrdersConsistent(s.orders)
  }

  lemma InitialValid()
    ensures Valid(Initial)
  {
  }

  /** Every admissible event keeps the store invariant. */
  lemma StepKeepsValid(s: State, a: Action)
    requires Valid(s)
    requires Admissible(a)
    ensures Valid(Step(s, a))
  {
    match a
    case AddItem(p) => Cart.AddKeepsPositive(s.cart, p);
    case ChangeQuantity(id, q) => Cart.UpdateKeepsPositive(s.cart, id, q);
    case PlaceOrder(m, id, date) =>
      var r := Step(s, a);
      if s.cart != [] && s.user.Some? {
        forall i | 0 <= i < |r.orders|
          ensures r.orders[i].status == Pending && r.orders[i].items != []
                  && r.orders[i].total == Cart.Total(r.orders[i].items)
        {
          if i > 0 { assert r.orders[i] == s.orders[i - 1]; }
        }
      }
    case LogIn(_, _, _) =>
    case SignUp(_, _, _, _, _) =>
    case LogOut =>
  }

  /** Only a checkout touches the order history: every other event leaves it
      exactly as it was, so later cart changes never reach a placed order. */
  lemma OnlyCheckoutWritesOrders(s: State, a: Action)
    requires !a.PlaceOrder?
    ensures Step(s, a).orders == s.orders
  {
  }

  /** Orders are never edited or dropped: the history before any run of
      events is a suffix of the history after it. */
  lemma {:induction false} HistoryOnlyGrows(s: State, actions: seq<Action>)
    ensures |s.orders| <= |Run(s, actions).orders|
    ensures Run(s, actions).orders[|Run(s, actions).orders| - |s.orders|..] == s.orders
    decreases |actions|
  {
    if actions != [] {
      var next := Step(s, actions[0]);
      assert |s.orders| <= |next.orders| && next.orders[|next.orders| - |s.orders|..] == s.orders;
      HistoryOnlyGrows(next, actions[1..]);
      var end := Run(next, actions[1..]).orders;
      assert end[|end| - |s.orders|..] == end[|end| - |next.orders|..][|next.orders| - |s.orders|..];
    }
  }

  /** Every run of admissible events from a valid state ends in a valid state. */
  lemma {:induction false} RunKeepsValid(s: State, actions: seq<Action>)
    requires Valid(s)
    requires forall i :: 0 <= i < |actions| ==> Admissible(actions[i])
    ensures Valid(Run(s, actions))
    decreases |actions|
  {
    if actions != [] {
      StepKeepsValid(s, actions[0]);
      assert forall i :: 0 <= i < |actions[1..]| ==> Admissible(actions[1..][i]) by {
        forall i | 0 <= i < |actions[1..]| ensures Admissible(actions[1..][i]) {
          assert actions[1..][i] == actions[i + 1];
        }
      }
      RunKeepsValid(Step(s, actions[0]), actions[1..]);
    }
  }

  /** A logged-in user checking out one line of two units at 12.99 places a
      pending 25.98 order paid with the chosen method and empties the cart. */
  lemma CheckoutExample(u: User, p: Product)
    requires p.price == 1299
    ensures var s := State(Some(u), [CartItem(p, 2)], []);
            var r := Checkout(s, "Bitcoin", 1, "2024-01-01");
            r.cart == [] && r.orders == [Order(1, "2024-01-01", 2598, Pending, [CartItem(p, 2)], "Bitcoin")]
  {
    assert Cart.Total([CartItem(p, 2)]) == 2598;
  }
}
