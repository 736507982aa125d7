/** The two screens of the app that share the database handle: the book
    list with its badge count, and the cart screen with the rows it last
    fetched. */
module CartScreens {
  import opened CartTable
  import opened CartProperties
  import opened CartStore

  /** How a cart screen operation that uses the handle unguarded ends:
      done, or rejected because the handle was never assigned. */
  datatype Outcome = Done | StoreNotReady

  /** What checkout reports to the shopper. */
  datatype CheckoutResult = Purchased | CartEmpty

  /** The book list screen: the catalogue and the badge on the cart icon. */
  class BookListScreen {
    const db: CartDb
    /** `cartCount`, the number shown on the badge. */
    var cartCount: int

    ghost predicate Valid()
      reads this, db
    {
      db.Valid()
    }

    constructor (db: CartDb)
      requires db.Valid()
      ensures Valid() && this.db == db && cartCount == 0
    {
      this.db := db;
      cartCount := 0;
    }

    /** The mount effect: set the database up, then fetch the count, so the
        badge starts out equal to the cart total. */
    method Mount()
      requires Valid()
      modifies this`cartCount, db`ready
      ensures Valid() && db.ready
      ensures cartCount == Sum(db.lines)
    {
      db.Setup();
      FetchCartCount();
    }

    /** `fetchCartCount`: nothing before the handle is assigned; otherwise
        the badge becomes the total, `SUM(quantity) ?? 0`, so 0 for an
        empty cart rather than NULL. */
    method FetchCartCount()
      requires Valid()
      modifies this`cartCount
      ensures Valid()
      ensures !db.ready ==> cartCount == old(cartCount)
      ensures db.ready ==> cartCount == Sum(db.lines)
      ensures db.ready && db.lines == [] ==> cartCount == 0
    {
      if !db.ready {
        return;
      }
      var total := db.SumQuantity();
      cartCount := match total case None => 0 case Some(s) => s;
      assert cartCount == CartTotal(db.lines);
    }

    /** `addToCart(title)`: nothing before the handle is assigned; otherwise
        a repeat title raises its first row by one, a new title is inserted
        with quantity 1, and the badge is refreshed. */
    method AddToCart(title: string)
      requires Valid()
      modifies this`cartCount, db`lines, db`nextId
      ensures Valid()
      ensures !db.ready ==> unchanged(this, db)
      ensures db.ready ==> db.Snapshot() == Add(old(db.Snapshot()), title)
      ensures db.ready ==> cartCount == Sum(db.lines)
      ensures db.ready && CartInvariant(old(db.lines)) ==>
        CartInvariant(db.lines) && cartCount == Sum(old(db.lines)) + 1
    {
      if !db.ready {
        return;
      }
      ghost var before := db.Snapshot();
      AddPreserves(before, title);
      var existing := db.FirstWithTitle(title);
      if existing.Some? {
        var item := existing.value;
        ghost var i := FindTitle(before.lines, title).value;
        assert Add(before, title) == Table(SetQuantityById(before.lines, item.id, item.quantity + 1), before.nextId);
        db.SetQuantityWhereId(item.id, item.quantity + 1);
      } else {
        assert Add(before, title) == Table(before.lines + [Line(before.nextId, title, 1)], before.nextId + 1);
        db.InsertOne(title);
      }
      assert db.Snapshot() == Add(before, title);
      FetchCartCount();
    }
  }

  /** The cart screen: the rows it last fetched and the buttons on them. */
  class CartScreen {
    const db: CartDb
    /** `cartItems`, the rows on display. */
    var cartItems: seq<Line>

    /** Rows are only ever on display once the handle is assigned. */
    ghost predicate Valid()
      reads this, db
    {
      db.Valid() && (cartItems != [] ==> db.ready)
    }

    constructor (db: CartDb)
      requires db.Valid()
      ensures Valid() && this.db == db && cartItems == []
    {
      this.db := db;
      cartItems := [];
    }

    /** `fetchCartItems`, also run on every focus of the screen: nothing
        before the handle is assigned; otherwise every row is shown. */
    method FetchCartItems()
      requires Valid()
      modifies this`cartItems
      ensures Valid()
      ensures !db.ready ==> cartItems == old(cartItems)
      ensures db.ready ==> cartItems == db.lines
    {
      if !db.ready {
        return;
      }
      cartItems := db.SelectAll();
    }

    /** `deleteCartItem(id)`: rejected before the handle is assigned;
        otherwise every row with that id goes, the rest stay as they were,
        and the rows are fetched again. */
    method DeleteCartItem(id: int) returns (o: Outcome)
      requires Valid()
      modifies this`cartItems, db`lines
      ensures Valid()
      ensures o == (if db.ready then Done else StoreNotReady)
      ensures !db.ready ==> unchanged(this, db)
      ensures db.ready ==> db.lines == DeleteById(old(db.lines), id) && cartItems == db.lines
      ensures CartInvariant(old(db.lines)) ==> CartInvariant(db.lines)
    {
      if !db.ready {
        return StoreNotReady;
      }
      DeleteKeeps(db.lines, id, db.nextId);
      if UniqueTitles(db.lines) {
        DeleteKeepsUniqueTitles(db.lines, id);
      }
      db.DeleteWhereId(id);
      FetchCartItems();
      o := Done;
    }

    /** `updateQuantity(id, q)`: rejected before the handle is assigned; a
        quantity of zero or less deletes the row exactly as `deleteCartItem`
        does, any other is stored as the row's quantity; the rows are
        fetched again. */
    method UpdateQuantity(id: int, q: int) returns (o: Outcome)
      requires Valid()
      modifies this`cartItems, db`lines
      ensures Valid()
      ensures o == (if db.ready then Done else StoreNotReady)
      ensures !db.ready ==> unchanged(this, db)
      ensures db.ready && q <= 0 ==> db.lines == DeleteById(old(db.lines), id)
      ensures db.ready && q > 0 ==> db.lines == SetQuantityById(old(db.lines), id, q)
      ensures db.ready ==> db.lines == Update(old(db.lines), id, q) && cartItems == db.lines
      ensures CartInvariant(old(db.lines)) ==> CartInvariant(db.lines)
    {
      if q <= 0 {
        o := DeleteCartItem(id);
        if o == StoreNotReady {
          return;
        }
      } else {
        if !db.ready {
          return StoreNotReady;
        }
        SetQuantityKeeps(db.lines, id, q, db.nextId);
        db.SetQuantityWhereId(id, q);
        o := Done;
      }
      FetchCartItems();
    }

    /** The `-` button on the `k`-th row shown: one less than the quantity
        on display. */
    method DecreaseShown(k: nat) returns (o: Outcome)
      requires Valid() && k < |cartItems|
      modifies this`cartItems, db`lines
      ensures Valid() && o == Done
      ensures db.lines == Update(old(db.lines), old(cartItems[k]).id, old(cartItems[k]).quantity - 1)
      ensures cartItems == db.lines
      ensures CartInvariant(old(db.lines)) ==> CartInvariant(db.lines)
    {
      var item := cartItems[k];
      o := UpdateQuantity(item.id, item.quantity - 1);
    }

    /** The `+` button on the `k`-th row shown: one more than the quantity
        on display. */
    method IncreaseShown(k: nat) returns (o: Outcome)
      requires Valid() && k < |cartItems|
      modifies this`cartItems, db`lines
      ensures Valid() && o == Done
      ensures db.lines == Update(old(db.lines), old(cartItems[k]).id, old(cartItems[k]).quantity + 1)
      ensures cartItems == db.lines
      ensures CartInvariant(old(db.lines)) ==> CartInvariant(db.lines)
    {
      var item := cartItems[k];
      o := UpdateQuantity(item.id, item.quantity + 1);
    }

    /** `handleCheckout`: with no rows on display the shopper is told the
        cart is empty and nothing changes; otherwise one statement clears
        the table and the display is emptied. */
    method HandleCheckout() returns (r: CheckoutResult)
      requires Valid()
      modifies this`cartItems, db`lines
      ensures Valid()
      ensures r == CartEmpty <==> old(cartItems) == []
      ensures r == CartEmpty ==> unchanged(this, db)
      ensures r == Purchased ==> db.lines == [] && cartItems == [] && CartTotal(db.lines) == 0
    {
      if |cartItems| == 0 {
        return CartEmpty;
      }
      db.DeleteAll();
      cartItems := [];
      r := Purchased;
    }
  }

  const Noli := "Noli Me Tangere"
  const Ibong := "Ibong Adarna"

  /** The three adds of the session below, on the table: a repeat title
      raises its row, a new one gets the next key. */
  lemma SessionAdds()
    ensures Add(Table([], 1), Noli) == Table([Line(1, Noli, 1)], 2)
    ensures Add(Table([Line(1, Noli, 1)], 2), Noli) == Table([Line(1, Noli, 2)], 2)
    ensures Add(Table([Line(1, Noli, 2)], 2), Ibong) == Table([Line(1, Noli, 2), Line(2, Ibong, 1)], 3)
  {
    assert Noli[0] != Ibong[0];
    assert FindTitle([Line(1, Noli, 2)], Ibong) == None;
    SetQuantityAt([Line(1, Noli, 1)], 0, 2);
  }

  /** The delete of the session below, on the table: the second row goes,
      and the total drops from 3 to 2. */
  lemma SessionDelete()
    ensures DeleteById([Line(1, Noli, 2), Line(2, Ibong, 1)], 2) == [Line(1, Noli, 2)]
    ensures Sum([Line(1, Noli, 2), Line(2, Ibong, 1)]) == 3
    ensures Sum([Line(1, Noli, 2)]) == 2
  {
    var lines := [Line(1, Noli, 2), Line(2, Ibong, 1)];
    DeleteAt(lines, 1);
    assert lines[..1] + lines[2..] == [Line(1, Noli, 2)];
    assert Sum(lines[1..]) == 1 by { assert lines[1..][1..] == []; }
  }

  /** The book list half of the session below: mount on a fresh install,
      then add "Noli Me Tangere" twice and "Ibong Adarna" once. */
  method FillCart(books: BookListScreen)
    requires books.Valid() && books.db.lines == [] && books.db.nextId == 1
    modifies books`cartCount, books.db`ready, books.db`lines, books.db`nextId
    ensures books.Valid() && books.db.ready
    ensures books.db.lines == [Line(1, Noli, 2), Line(2, Ibong, 1)]
    ensures books.cartCount == 3
  {
    SessionAdds();
    books.Mount();
    books.AddToCart(Noli);
    books.AddToCart(Noli);
    books.AddToCart(Ibong);
  }

  /** The cart screen half of the session below: open the cart, delete its
      second row and check out. The badge on the book list is not touched. */
  method RemoveAndCheckout(books: BookListScreen, cart: CartScreen)
      returns (afterDelete: int, afterCheckout: int)
    requires books.db == cart.db && cart.Valid() && cart.db.ready
    requires cart.db.lines == [Line(1, Noli, 2), Line(2, Ibong, 1)]
    modifies cart`cartItems, cart.db`lines
    ensures afterDelete == 2 && afterCheckout == 0
    ensures cart.db.lines == [] && cart.cartItems == []
    ensures books.cartCount == old(books.cartCount)
  {
    SessionDelete();
    cart.FetchCartItems();
    var o := cart.DeleteCartItem(cart.cartItems[1].id);
    afterDelete := CartTotal(cart.db.lines);
    var r := cart.HandleCheckout();
    afterCheckout := CartTotal(cart.db.lines);
  }

  /** One session on a fresh install: fill the cart, open the cart, delete
      its second row and check out. The table ends empty, while the badge
      still shows the 3 it last fetched, since only mount and add refresh
      it. */
  method ShopAndCheckout() returns (badge: int, afterDelete: int, afterCheckout: int)
    ensures badge == 3 && afterDelete == 2 && afterCheckout == 0
  {
    var db := new CartDb([], 1);
    var books := new BookListScreen(db);
    FillCart(books);
    var cart := new CartScreen(db);
    afterDelete, afterCheckout := RemoveAndCheckout(books, cart);
    badge := books.cartCount;
  }
}
