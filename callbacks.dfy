/**
 * The callback handlers of the catalog menus and of the cart: each takes
 * the callback token (and the sender's id), consults the catalog and the
 * cart store, and answers with a keyboard, or raises. Sending and editing
 * Telegram messages is not modelled; the answer is the handler's result.
 */
module Callbacks {
  import opened Common
  import opened Markup
  import opened Catalog
  import opened Tokens
  import opened Keyboards
  import opened CartDb

  /** The keys of `category_display`: the categories the menus can name. */
  const DisplayCategories: set<string> :=
    {"АКСЕССУАРЫ", "НАУШНИКИ", "НОУТБУКИ", "ПЛАНШЕТЫ", "СМАРТ ЧАСЫ", "СМАРТФОНЫ"}

  /** The most products a cart may hold before adding is refused. */
  const CartCap: nat := 50

  /** A menu answer: the keyboard, and whether the text says there is something to choose. */
  datatype Menu = Menu(available: bool, keyboard: Keyboard)

  /**
   * `category_callback_handler`: the manufacturer keyboard of the category;
   * the text looks the category up in `category_display`, which raises
   * KeyError for any other name.
   */
  method CategoryMenu(rows: seq<Row>, category: string) returns (r: Result<Menu>)
    ensures r.Crash? <==> category !in DisplayCategories
    ensures r.Ok? ==> (r.value.available <==> UniqueManufacturers(rows, category) != [])
    ensures r.Ok? ==> Buttons(r.value.keyboard)
                      == ManufacturerButtons(category, UniqueManufacturers(rows, category)) + [BackToCategories]
  {
    var kb := CreateManufacturerKeyboard(rows, category);
    if category !in DisplayCategories {
      return Crash(UnknownCategory);
    }
    r := Ok(Menu(|kb.rows| > 1, kb));
  }

  /**
   * `model_callback_handler`: the token's second and third fields are the
   * category and the manufacturer; the answer lists the manufacturer's
   * in-stock models of that category.
   */
  method ModelsMenu(rows: seq<Row>, data: string) returns (r: Result<Menu>)
    ensures DecodeManufacturer(data).Crash? ==> r.Crash?
    ensures DecodeManufacturer(data).Ok? ==>
      var (category, manufacturer) := DecodeManufacturer(data).value;
      && (r.Crash? <==> category !in DisplayCategories)
      && (r.Ok? ==> (r.value.available <==> ModelsByManufacturer(rows, category, manufacturer) != []))
      && (r.Ok? ==> Buttons(r.value.keyboard)
                    == ModelButtons(ModelsByManufacturer(rows, category, manufacturer))
                       + [Button("Назад", "category_" + category)])
  {
    var decoded := DecodeManufacturer(data);
    if decoded.Crash? {
      return Crash(decoded.fault);
    }
    var (category, manufacturer) := decoded.value;
    var kb := CreateModelsKeyboard(rows, category, manufacturer);
    if category !in DisplayCategories {
      return Crash(UnknownCategory);
    }
    r := Ok(Menu(|kb.rows| > 1, kb));
  }

  /** What pressing "add to cart" did. */
  datatype AddOutcome =
    | Added       // a row was added
    | CartFull    // the cart already held CartCap products
    | NotStored   // the token's last field is not an integer column value

  /**
   * `add_to_cart_callback_handler`: add the product named by the token's
   * last field unless the user's cart already holds CartCap products.
   */
  method AddToCartHandler(store: CartStore, user: UserId, data: string) returns (outcome: AddOutcome)
    requires store.Valid()
    modifies store
    ensures store.Valid()
    ensures outcome == Added <==> |old(CartOf(store.entries, user))| < CartCap && StoredProductId(data).Some?
    ensures outcome == CartFull <==> |old(CartOf(store.entries, user))| >= CartCap
    ensures outcome == Added ==>
      && store.entries == old(store.entries) + [Entry(old(store.nextId), user, StoredProductId(data).value)]
      && store.nextId == old(store.nextId) + 1
      && CartOf(store.entries, user) == old(CartOf(store.entries, user)) + [StoredProductId(data).value]
    ensures outcome != Added ==> store.entries == old(store.entries) && store.nextId == old(store.nextId)
    ensures store.users == old(store.users)
    ensures forall v :: v != user ==> CartOf(store.entries, v) == old(CartOf(store.entries, v))
    ensures |old(CartOf(store.entries, user))| <= CartCap ==> |CartOf(store.entries, user)| <= CartCap
  {
    var count := store.GetCartCount(user);
    if count >= CartCap {
      return CartFull;
    }
    var product := StoredProductId(data);
    if product.None? {
      return NotStored;
    }
    store.AddToCart(user, product.value);
    outcome := Added;
  }

  /** One line of the cart listing: its number and the product shown. */
  datatype CartLine = CartLine(number: nat, product: Row)

  /** The cart answer: "your cart is empty", or the listing and page 0 of its delete keyboard. */
  datatype CartView = EmptyCart | Listing(lines: seq<CartLine>, keyboard: Keyboard)

  /** The catalog rows of a cart, by position: `{i + 1: db.get_product_by_id(id)}`. */
  function Lookup(rows: seq<Row>, items: seq<ProductId>): (cart: seq<Option<Row>>)
    ensures |cart| == |items|
    ensures forall k :: 0 <= k < |items| ==> cart[k] == FindById(rows, items[k])
  {
    seq(|items|, k requires 0 <= k < |items| => FindById(rows, items[k]))
  }

  /** Every product of the cart is in the catalog. */
  predicate AllListed(rows: seq<Row>, items: seq<ProductId>) {
    forall k :: 0 <= k < |items| ==> FindById(rows, items[k]).Some?
  }

  /**
   * The answer `get_cart_items` gives for a user whose cart holds `items`:
   * it raises exactly when a product is missing from the catalog; an empty
   * cart gets the empty message; otherwise line k is numbered k+1 and shows
   * entry k's row, and the keyboard is page 0 of the user's delete buttons.
   */
  predicate ShowsCart(r: Result<CartView>, rows: seq<Row>, items: seq<ProductId>, user: UserId) {
    && (r.Crash? <==> !AllListed(rows, items))
    && (r.Ok? ==> (r.value.EmptyCart? <==> items == []))
    && (r.Ok? && r.value.Listing? ==>
          && |r.value.lines| == |items|
          && (forall k :: 0 <= k < |items| ==>
                r.value.lines[k] == CartLine(k + 1, FindById(rows, items[k]).value))
          && Present(Lookup(rows, items), 0, PageEnd(|items|, 0))
          && Buttons(r.value.keyboard) == PageButtons(user, Lookup(rows, items), 0))
  }

  /**
   * `get_cart_items`: number the user's products from 1, look each up in
   * the catalog (a product missing from it raises TypeError), and attach
   * page 0 of the delete keyboard.
   */
  method GetCartItems(store: CartStore, rows: seq<Row>, user: UserId) returns (r: Result<CartView>)
    ensures ShowsCart(r, rows, CartOf(store.entries, user), user)
  {
    var items := store.GetCart(user);
    if items == [] {
      return Ok(EmptyCart);
    }
    var listed := ListItems(rows, items);
    if listed.Crash? {
      return Crash(listed.fault);
    }
    var (lines, cart) := listed.value;
    var kb := GetPaginationKeyboard(user, cart, 0);
    assert kb.Ok?;
    r := Ok(Listing(lines, kb.value));
  }

  /**
   * The loop of `get_cart_items`: look each cart entry up in the catalog,
   * numbering the lines from 1 and filling `cart_dict` position by position.
   */
  method ListItems(rows: seq<Row>, items: seq<ProductId>) returns (r: Result<(seq<CartLine>, seq<Option<Row>>)>)
    ensures r.Crash? <==> !AllListed(rows, items)
    ensures r.Crash? ==> r.fault == ProductMissing
    ensures r.Ok? ==>
      && r.value.1 == Lookup(rows, items)
      && |r.value.0| == |items|
      && forall k :: 0 <= k < |items| ==> r.value.0[k] == CartLine(k + 1, FindById(rows, items[k]).value)
  {
    var lines: seq<CartLine> := [];
    var cart: seq<Option<Row>> := [];
    var k := 0;
    while k < |items|
      invariant 0 <= k <= |items|
      invariant |lines| == k && |cart| == k
      invariant forall j :: 0 <= j < k ==> cart[j] == FindById(rows, items[j]) && cart[j].Some?
      invariant forall j :: 0 <= j < k ==> lines[j] == CartLine(j + 1, cart[j].value)
    {
      var info := FindById(rows, items[k]);
      if info.None? {
        return Crash(ProductMissing);
      }
      lines := lines + [CartLine(k + 1, info.value)];
      cart := cart + [info];
      k := k + 1;
    }
    assert cart == Lookup(rows, items);
    r := Ok((lines, cart));
  }

  /**
   * `delete_product_callback_handler` as written: the product id is the
   * third field of `split('_', 2)`, which `int()` reads as the user's
   * digits followed by the product's, and the refreshed cart is that of
   * `callback_query.message.from_user`, the author of the message that
   * carries the keyboard: the bot itself, not the user who pressed it.
   */
  method DeleteProductHandlerAsWritten(store: CartStore, rows: seq<Row>, user: UserId, author: UserId, data: string)
    returns (r: Result<CartView>)
    requires store.Valid()
    modifies store
    ensures store.Valid()
    ensures DeleteProductIdAsWritten(data).Crash? ==> r.Crash? && store.entries == old(store.entries)
    ensures DeleteProductIdAsWritten(data).Ok? ==>
      && store.entries == Without(old(store.entries), user, DeleteProductIdAsWritten(data).value)
      && ShowsCart(r, rows, CartOf(store.entries, author), author)
    ensures forall v :: v != user ==> CartOf(store.entries, v) == old(CartOf(store.entries, v))
    ensures store.users == old(store.users) && store.nextId == old(store.nextId)
  {
    var product := DeleteProductIdAsWritten(data);
    if product.Crash? {
      return Crash(product.fault);
    }
    store.RemoveFromCart(user, product.value);
    r := GetCartItems(store, rows, author);
  }

  /**
   * `delete_product_callback_handler` as intended: the product id is the
   * token's last field; every row of that product leaves the user's cart,
   * and the answer is the user's refreshed cart.
   */
  method DeleteProductHandler(store: CartStore, rows: seq<Row>, user: UserId, data: string)
    returns (r: Result<CartView>)
    requires store.Valid()
    modifies store
    ensures store.Valid()
    ensures DeleteProductId(data).Crash? ==> r.Crash? && store.entries == old(store.entries)
    ensures DeleteProductId(data).Ok? ==>
      && store.entries == Without(old(store.entries), user, DeleteProductId(data).value)
      && DeleteProductId(data).value !in CartOf(store.entries, user)
      && CartOf(store.entries, user) == Erase(old(CartOf(store.entries, user)), DeleteProductId(data).value)
      && ShowsCart(r, rows, CartOf(store.entries, user), user)
    ensures forall v :: v != user ==> CartOf(store.entries, v) == old(CartOf(store.entries, v))
    ensures store.users == old(store.users) && store.nextId == old(store.nextId)
  {
    var product := DeleteProductId(data);
    if product.Crash? {
      return Crash(product.fault);
    }
    store.RemoveFromCart(user, product.value);
    r := GetCartItems(store, rows, user);
  }

  /**
   * `paginate_cart_callback_handler`: the page number is the token's last
   * field; the keyboard is rebuilt from the user's cart and the catalog.
   */
  method PaginateCartHandler(store: CartStore, rows: seq<Row>, user: UserId, data: string)
    returns (r: Result<Keyboard>)
    ensures PageOfToken(data).Crash? ==> r.Crash?
    ensures PageOfToken(data).Ok? ==>
      var cart, page := Lookup(rows, CartOf(store.entries, user)), PageOfToken(data).value;
      && (r.Crash? <==> !Present(cart, page * PageSize, PageEnd(|cart|, page)))
      && (r.Ok? ==> Buttons(r.value) == PageButtons(user, cart, page))
  {
    var page := PageOfToken(data);
    if page.Crash? {
      return Crash(page.fault);
    }
    var items := store.GetCart(user);
    var cart := Lookup(rows, items);
    r := GetPaginationKeyboard(user, cart, page.value);
  }
}
