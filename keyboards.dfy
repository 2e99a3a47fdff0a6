/**
 * The inline keyboards the bot sends: manufacturer and model menus, the
 * product card and the cart pages. Each builder starts an empty markup
 * and inserts its buttons one by one, as the handlers' keyboards module
 * does; the markup is a local value here, since no builder shares it
 * before returning it.
 */
module Keyboards {
  import opened Common
  import opened Text
  import opened Markup
  import opened Catalog
  import opened Tokens

  const BackToCategories := Button("Назад", "back_to_categories")
  const OutOfStock := Button("Нет в наличии", "out_of_stock")

  function ManufacturerButtons(category: string, ms: seq<string>): seq<Button> {
    seq(|ms|, i requires 0 <= i < |ms| => Button(ms[i], ManufacturerToken(category, ms[i])))
  }

  function ModelButtons(models: seq<string>): seq<Button> {
    seq(|models|, i requires 0 <= i < |models| => Button(models[i], ModelToken(models[i])))
  }

  /**
   * `create_manufacturer_keyboard`: one button per manufacturer of the
   * category, then a back button on a row of its own. The menu therefore
   * has more than one row exactly when the category has a manufacturer,
   * which is the test the category handler makes.
   */
  method CreateManufacturerKeyboard(rows: seq<Row>, category: string) returns (kb: Keyboard)
    ensures Buttons(kb) == ManufacturerButtons(category, UniqueManufacturers(rows, category)) + [BackToCategories]
    ensures |kb.rows| > 0 && kb.rows[|kb.rows| - 1] == [BackToCategories]
    ensures |kb.rows| > 1 <==> UniqueManufacturers(rows, category) != []
    ensures Packed(kb) && kb.rowWidth == DefaultWidth
  {
    var ms := UniqueManufacturers(rows, category);
    kb := Empty(DefaultWidth);
    var i := 0;
    while i < |ms|
      invariant 0 <= i <= |ms|
      invariant Buttons(kb) == ManufacturerButtons(category, ms[..i])
      invariant Packed(kb) && kb.rowWidth == DefaultWidth
      invariant kb.rows == [] <==> i == 0
    {
      assert ManufacturerButtons(category, ms[..i + 1])
          == ManufacturerButtons(category, ms[..i]) + [Button(ms[i], ManufacturerToken(category, ms[i]))];
      kb := Insert(kb, Button(ms[i], ManufacturerToken(category, ms[i])));
      i := i + 1;
    }
    assert ms[..i] == ms;
    kb := Add(kb, BackToCategories);
  }

  /**
   * `create_models_keyboard`: one button per in-stock model, each carrying
   * the model's token, then a back button to the category.
   */
  method CreateModelsKeyboard(rows: seq<Row>, category: string, manufacturer: string) returns (kb: Keyboard)
    ensures Buttons(kb) == ModelButtons(ModelsByManufacturer(rows, category, manufacturer))
                           + [Button("Назад", "category_" + category)]
    ensures |kb.rows| > 0 && kb.rows[|kb.rows| - 1] == [Button("Назад", "category_" + category)]
    ensures |kb.rows| > 1 <==> ModelsByManufacturer(rows, category, manufacturer) != []
    ensures Packed(kb) && kb.rowWidth == DefaultWidth
  {
    var models := ModelsByManufacturer(rows, category, manufacturer);
    kb := Empty(DefaultWidth);
    var i := 0;
    while i < |models|
      invariant 0 <= i <= |models|
      invariant Buttons(kb) == ModelButtons(models[..i])
      invariant Packed(kb) && kb.rowWidth == DefaultWidth
      invariant kb.rows == [] <==> i == 0
    {
      assert ModelButtons(models[..i + 1]) == ModelButtons(models[..i]) + [Button(models[i], ModelToken(models[i]))];
      kb := Insert(kb, Button(models[i], ModelToken(models[i])));
      i := i + 1;
    }
    assert models[..i] == models;
    kb := Add(kb, Button("Назад", "category_" + category));
  }

  /** Python's str() of a cell that may be empty: an empty cell prints as "nan". */
  function CellText(cell: Option<string>): string {
    match cell
    case None => "nan"
    case Some(s) => s
  }

  /** The buttons of a product card for the selected variant, row by row. */
  function CardButtons(model: string, product: Row): seq<Button> {
    [ Button("⬅️", NavToken(Previous, ColorAxis, model)), Button("Цвет", "color_ignor"),
      Button("➡️", NavToken(Next, ColorAxis, model)),
      Button("⬅️", NavToken(Previous, MemoryAxis, model)), Button("Память", "memory_ignor"),
      Button("➡️", NavToken(Next, MemoryAxis, model)),
      Button("Купить", BuyToken(product.id)), Button("В Корзину", AddToCartToken(product.id)),
      Button("Назад", "back_to_manufacturer_" + CellText(product.manufacturer)) ]
  }

  /**
   * `create_product_configuration`: an empty configuration gets a single
   * "out of stock" button; otherwise the card offers colour and memory
   * navigation, buy and add-to-cart for the selected variant, and a back
   * button. Indices past the end of either key list raise IndexError.
   */
  method CreateProductConfiguration(config: Configuration, model: string, ci: nat, mi: nat)
    returns (r: Result<Keyboard>)
    requires ConfigWf(config)
    ensures config.keys == [] ==> r == Ok(Keyboard(DefaultWidth, [[OutOfStock]]))
    ensures config.keys != [] ==> (r.Ok? <==> ValidIndices(config, ci, mi))
    ensures r.Ok? && config.keys != [] ==>
      && Buttons(r.value) == CardButtons(model, VariantAt(config, ci, mi))
      && |r.value.rows| == 4 && Packed(r.value)
  {
    if config.keys == [] {
      return Ok(Add(Empty(DefaultWidth), OutOfStock));
    }
    if ci >= |config.keys| {
      return Crash(IndexOutOfRange);
    }
    var color := config.keys[ci];
    var memories := config.values[color];
    if mi >= |memories.keys| {
      return Crash(IndexOutOfRange);
    }
    var product := memories.values[memories.keys[mi]];
    var kb := CardLayout(CardButtons(model, product));
    r := Ok(kb);
  }

  /**
   * The card builder's insert sequence for its nine buttons: six inserts
   * fill two rows of three, buy opens a row that add-to-cart joins, and
   * back opens the last row.
   */
  method CardLayout(bs: seq<Button>) returns (kb: Keyboard)
    requires |bs| == 9
    ensures Buttons(kb) == bs
    ensures |kb.rows| == 4 && Packed(kb)
  {
    kb := Empty(DefaultWidth);
    InsertShape(kb, bs[0]);
    kb := Insert(kb, bs[0]);
    InsertShape(kb, bs[1]);
    kb := Insert(kb, bs[1]);
    InsertShape(kb, bs[2]);
    kb := Insert(kb, bs[2]);
    InsertShape(kb, bs[3]);
    kb := Insert(kb, bs[3]);
    InsertShape(kb, bs[4]);
    kb := Insert(kb, bs[4]);
    InsertShape(kb, bs[5]);
    kb := Insert(kb, bs[5]);
    kb := Add(kb, bs[6]);
    InsertShape(kb, bs[7]);
    kb := Insert(kb, bs[7]);
    kb := Add(kb, bs[8]);
    assert bs == [bs[0], bs[1], bs[2], bs[3], bs[4], bs[5], bs[6], bs[7], bs[8]];
  }

  /** The token decodes, as the navigation handler reads it, to these words and model name. */
  predicate NavLeadsTo(token: string, action: string, axis: string, model: string) {
    |Split(token, '_')| >= 2 && DecodeNav(token) == NavRequest(action, axis, model)
  }

  /**
   * Every button of a card leads where its label says: the arrows ask for
   * the neighbouring colour or memory of the same model (whose name has no
   * underscore), buy and add-to-cart name the selected product.
   */
  lemma CardButtonsDecode(model: string, product: Row)
    requires '_' !in model
    ensures var bs := CardButtons(model, product);
      && NavLeadsTo(bs[0].token, "previous", "color", model)
      && NavLeadsTo(bs[2].token, "next", "color", model)
      && NavLeadsTo(bs[3].token, "previous", "memory", model)
      && NavLeadsTo(bs[5].token, "next", "memory", model)
      && IntOfLastField(bs[6].token) == Ok(product.id)
      && StoredProductId(bs[7].token) == Some(product.id)
  {
    var bs := CardButtons(model, product);
    assert bs[0].token == NavToken(Previous, ColorAxis, model);
    assert bs[2].token == NavToken(Next, ColorAxis, model);
    assert bs[3].token == NavToken(Previous, MemoryAxis, model);
    assert bs[5].token == NavToken(Next, MemoryAxis, model);
    assert bs[6].token == BuyToken(product.id) && bs[7].token == AddToCartToken(product.id);
    NavLeadsToOf(Previous, ColorAxis, model);
    NavLeadsToOf(Next, ColorAxis, model);
    NavLeadsToOf(Previous, MemoryAxis, model);
    NavLeadsToOf(Next, MemoryAxis, model);
    BuyTokenRoundTrip(product.id);
    AddToCartTokenRoundTrip(product.id);
  }

  lemma NavLeadsToOf(d: Direction, a: Axis, model: string)
    requires '_' !in model
    ensures NavLeadsTo(NavToken(d, a, model), DirectionWord(d), AxisWord(a), model)
  {
    NavTokenRoundTrip(d, a, model);
  }

  // ---------------------------------------------------------------------
  // Cart pages

  /** Cart entries shown per page. */
  const PageSize: nat := 10

  /** The last cart index (exclusive) a page shows: `min(end, len(cart_dict))`. */
  function PageEnd(n: nat, page: nat): nat {
    if page * PageSize + PageSize < n then page * PageSize + PageSize else n
  }

  /** Every entry in [lo, hi) has a product. */
  predicate Present(cart: seq<Option<Row>>, lo: nat, hi: nat) {
    forall k :: lo <= k < hi && k < |cart| ==> cart[k].Some?
  }

  /** The delete buttons for cart indices [lo, hi): labelled index + 1, deleting that entry's product. */
  function DeleteButtons(user: UserId, cart: seq<Option<Row>>, lo: nat, hi: nat): (bs: seq<Button>)
    requires lo <= hi <= |cart| && Present(cart, lo, hi)
    ensures |bs| == hi - lo
    ensures forall k :: lo <= k < hi ==>
      bs[k - lo] == Button(NatToString(k + 1), DeleteToken(user, cart[k].value.id))
    decreases hi - lo
  {
    if lo == hi then []
    else DeleteButtons(user, cart, lo, hi - 1) + [Button(NatToString(hi), DeleteToken(user, cart[hi - 1].value.id))]
  }

  function PreviousPageButton(user: UserId, page: nat): Button {
    Button("⬅️ Назад", CartPageToken(user, page))
  }

  function NextPageButton(user: UserId, page: nat): Button {
    Button("Вперед ➡️", CartPageToken(user, page))
  }

  /** The navigation row: previous when the page is not the first, next when entries follow it. */
  function NavButtons(user: UserId, n: nat, page: nat): seq<Button> {
    (if page > 0 then [PreviousPageButton(user, page - 1)] else [])
    + (if page * PageSize + PageSize < n then [NextPageButton(user, page + 1)] else [])
  }

  /** Everything a cart page shows, in order. */
  function PageButtons(user: UserId, cart: seq<Option<Row>>, page: nat): seq<Button>
    requires Present(cart, page * PageSize, PageEnd(|cart|, page))
  {
    var lo, hi := page * PageSize, PageEnd(|cart|, page);
    (if lo < hi then DeleteButtons(user, cart, lo, hi) else []) + NavButtons(user, |cart|, page)
  }

  /**
   * The loop of `get_pagination_keyboard`: insert the delete buttons of
   * cart indices [lo, hi) into a markup of row width 5, raising on an
   * entry without a product.
   */
  method InsertDeleteButtons(user: UserId, cart: seq<Option<Row>>, lo: nat, hi: nat) returns (r: Result<Keyboard>)
    requires hi <= |cart|
    ensures r.Crash? <==> !Present(cart, lo, hi)
    ensures r.Ok? ==> Buttons(r.value) == (if lo < hi then DeleteButtons(user, cart, lo, hi) else [])
    ensures r.Ok? ==> r.value.rowWidth == 5 && Packed(r.value)
  {
    var kb := Empty(5);
    var index := lo;
    while index < hi
      invariant lo <= index && (lo < index ==> index <= hi)
      invariant Present(cart, lo, index)
      invariant Packed(kb) && kb.rowWidth == 5
      invariant Buttons(kb) == if lo < index then DeleteButtons(user, cart, lo, index) else []
    {
      if cart[index].None? {
        return Crash(ProductMissing);
      }
      PresentExtend(cart, lo, index);
      var b := Button(NatToString(index + 1), DeleteToken(user, cart[index].value.id));
      assert DeleteButtons(user, cart, lo, index + 1) == Buttons(kb) + [b];
      kb := Insert(kb, b);
      index := index + 1;
    }
    r := Ok(kb);
  }

  /**
   * `get_pagination_keyboard(user_id, cart_dict, page)`: the delete buttons
   * of the page's window, then the navigation row. An entry without a
   * product inside the window raises TypeError (`None["id"]`).
   */
  method GetPaginationKeyboard(user: UserId, cart: seq<Option<Row>>, page: nat) returns (r: Result<Keyboard>)
    ensures r.Crash? <==> !Present(cart, page * PageSize, PageEnd(|cart|, page))
    ensures r.Ok? ==> Buttons(r.value) == PageButtons(user, cart, page)
    ensures r.Ok? ==> r.value.rowWidth == 5 && Packed(r.value)
  {
    r := InsertDeleteButtons(user, cart, page * PageSize, PageEnd(|cart|, page));
    if r.Crash? {
      return;
    }
    var kb := r.value;
    var nav := NavRow(user, |cart|, page);
    if nav != [] {
      kb := AddRow(kb, nav);
    }
    r := Ok(kb);
  }

  /** The navigation buttons `get_pagination_keyboard` collects for its last row. */
  method NavRow(user: UserId, n: nat, page: nat) returns (nav: seq<Button>)
    ensures nav == NavButtons(user, n, page)
    ensures |nav| <= 2
  {
    nav := [];
    if page * PageSize > 0 {
      nav := nav + [PreviousPageButton(user, page - 1)];
    }
    if page * PageSize + PageSize < n {
      nav := nav + [NextPageButton(user, page + 1)];
    }
  }

  lemma PresentExtend(cart: seq<Option<Row>>, lo: nat, hi: nat)
    requires Present(cart, lo, hi) && hi < |cart| && cart[hi].Some?
    ensures Present(cart, lo, hi + 1)
  {
  }

  /** Each cart index is shown on exactly one page: page i / 10. */
  lemma PageOfIndex(n: nat, i: nat, page: nat)
    requires i < n
    ensures page * PageSize <= i < PageEnd(n, page) <==> page == i / PageSize
  {
    if page * PageSize <= i < PageEnd(n, page) {
      assert page * 10 <= i < page * 10 + 10;
    }
  }

  /** A page shows at most ten delete buttons, and all of them when the page is full. */
  lemma PageWindow(n: nat, page: nat)
    ensures page * PageSize < n ==> 0 < PageEnd(n, page) - page * PageSize <= PageSize
    ensures page * PageSize + PageSize <= n ==> PageEnd(n, page) - page * PageSize == PageSize
  {
  }

  /** The next button is offered only when the next page has something to show. */
  lemma NextPageNonEmpty(user: UserId, n: nat, page: nat)
    requires NextPageButton(user, page + 1) in NavButtons(user, n, page)
    ensures (page + 1) * PageSize < PageEnd(n, page + 1)
  {
    if page > 0 {
      assert PreviousPageButton(user, page - 1) != NextPageButton(user, page + 1);
    }
  }

  /** Every delete button of a page names its own cart position and, once decoded, its product. */
  lemma DeleteButtonsDecode(user: UserId, cart: seq<Option<Row>>, lo: nat, hi: nat, k: nat)
    requires lo <= k < hi <= |cart| && Present(cart, lo, hi)
    ensures PyInt(DeleteButtons(user, cart, lo, hi)[k - lo].text) == Some(k + 1)
    ensures DeleteProductId(DeleteButtons(user, cart, lo, hi)[k - lo].token) == Ok(cart[k].value.id)
  {
    PyIntOfNatToString(k + 1);
    DeleteTokenRoundTrip(user, cart[k].value.id);
  }

  /** A cart of 23 products: page 0 offers only next, page 1 both, page 2 only previous, and holds entries 21 to 23. */
  lemma TwentyThreeEntries(user: UserId, cart: seq<Option<Row>>)
    requires |cart| == 23 && Present(cart, 0, 23)
    ensures NavButtons(user, 23, 0) == [NextPageButton(user, 1)]
    ensures NavButtons(user, 23, 1) == [PreviousPageButton(user, 0), NextPageButton(user, 2)]
    ensures NavButtons(user, 23, 2) == [PreviousPageButton(user, 1)]
    ensures |PageButtons(user, cart, 2)| == 4
    ensures PageButtons(user, cart, 2)[0].text == NatToString(21)
    ensures PageButtons(user, cart, 2)[3] == PreviousPageButton(user, 1)
  {
    assert PageEnd(23, 2) == 23;
    assert Present(cart, 20, 23);
  }
}
