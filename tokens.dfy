/**
 * Callback tokens: the strings the keyboards attach to their buttons and
 * the way each handler takes them apart again. Ids are written with
 * Python's str(); handlers read them back with split/rsplit and int().
 */
module Tokens {
  import opened Common
  import opened Text

  // ---------------------------------------------------------------------
  // model_<name>

  /** `"model_" + "_".join(str(model).split(' '))` */
  function ModelToken(model: string): string {
    "model_" + Join(Split(model, ' '), '_')
  }

  lemma ModelTokenReplacesSpaces(model: string)
    ensures ModelToken(model) == "model_" + Replace(model, ' ', '_')
  {
    JoinSplitIsReplace(model, ' ', '_');
  }

  /** `data[len("model_"):].replace("_", " ")`: the model a model_ token names. */
  function ModelOfToken(data: string): (model: string)
    requires |data| >= 6 && data[..6] == "model_"
    ensures |model| == |data| - 6 && '_' !in model
  {
    var name := Replace(data[6..], '_', ' ');
    assert forall i :: 0 <= i < |name| ==> name[i] != '_';
    name
  }

  /** Opening a model from its button finds the same model exactly when its name has no underscore. */
  lemma ModelTokenRoundTrip(model: string)
    ensures |ModelToken(model)| >= 6 && ModelToken(model)[..6] == "model_"
    ensures ModelOfToken(ModelToken(model)) == model <==> '_' !in model
  {
    ModelTokenReplacesSpaces(model);
    var token := ModelToken(model);
    assert token[6..] == Replace(model, ' ', '_');
    ReplaceRoundTrip(model, ' ', '_');
  }

  // ---------------------------------------------------------------------
  // {previous|next}_{color|memory}_<name>

  datatype Direction = Previous | Next
  datatype Axis = ColorAxis | MemoryAxis

  function DirectionWord(d: Direction): string {
    match d
    case Previous => "previous"
    case Next => "next"
  }

  function AxisWord(a: Axis): string {
    match a
    case ColorAxis => "color"
    case MemoryAxis => "memory"
  }

  /** The four navigation tokens of the product card: action, axis, model with spaces as underscores. */
  function NavToken(d: Direction, a: Axis, model: string): string {
    DirectionWord(d) + "_" + AxisWord(a) + "_" + Replace(model, ' ', '_')
  }

  /** What the navigation handler reads out of a token. */
  datatype NavRequest = NavRequest(action: string, axis: string, model: string)

  /**
   * `parts = data.split("_")`; the action is parts[0], the axis parts[1],
   * and the model `"_".join(parts[2:]).replace("_", " ")`.
   */
  function DecodeNav(data: string): (r: NavRequest)
    requires |Split(data, '_')| >= 2
    ensures '_' !in r.model
  {
    var parts := Split(data, '_');
    var name := Replace(Join(parts[2..], '_'), '_', ' ');
    assert forall i :: 0 <= i < |name| ==> name[i] != '_';
    NavRequest(parts[0], parts[1], name)
  }

  /**
   * Decoding a navigation token gives back its action and axis words, and
   * its model exactly when the model's name has no underscore.
   */
  lemma NavTokenRoundTrip(d: Direction, a: Axis, model: string)
    ensures |Split(NavToken(d, a, model), '_')| >= 2
    ensures DecodeNav(NavToken(d, a, model)).action == DirectionWord(d)
    ensures DecodeNav(NavToken(d, a, model)).axis == AxisWord(a)
    ensures DecodeNav(NavToken(d, a, model)).model == model <==> '_' !in model
  {
    var w1, w2, rest := DirectionWord(d), AxisWord(a), Replace(model, ' ', '_');
    WordsHaveNoUnderscore(d, a);
    SplitTwoFields(w1, w2, rest);
    var parts := Split(NavToken(d, a, model), '_');
    assert parts[2..] == Split(rest, '_');
    JoinSplit(rest, '_');
    ReplaceRoundTrip(model, ' ', '_');
  }

  lemma WordsHaveNoUnderscore(d: Direction, a: Axis)
    ensures '_' !in DirectionWord(d) && '_' !in AxisWord(a)
  {
    var w1, w2 := DirectionWord(d), AxisWord(a);
    assert forall i :: 0 <= i < |w1| ==> w1[i] != '_';
    assert forall i :: 0 <= i < |w2| ==> w2[i] != '_';
  }

  /** Two leading fields free of the separator come off a split one by one. */
  lemma SplitTwoFields(a: string, b: string, rest: string)
    requires '_' !in a && '_' !in b
    ensures Split(a + "_" + b + "_" + rest, '_') == [a, b] + Split(rest, '_')
  {
    assert a + "_" + b + "_" + rest == a + ['_'] + (b + ['_'] + rest);
    SplitOf(a, b + ['_'] + rest, '_');
    SplitOf(b, rest, '_');
  }

  // ---------------------------------------------------------------------
  // manufacturer_<category>_<manufacturer>

  function ManufacturerToken(category: string, manufacturer: string): string {
    "manufacturer_" + category + "_" + manufacturer
  }

  /** `data_list = data.split('_')`, then `data_list[1], data_list[2]`. */
  function DecodeManufacturer(data: string): (r: Result<(string, string)>)
    ensures r.Crash? <==> |Split(data, '_')| < 3
    ensures r.Ok? ==> '_' !in r.value.0
  {
    var parts := Split(data, '_');
    if |parts| < 3 then Crash(IndexOutOfRange)
    else Ok((parts[1], parts[2]))
  }

  /** A manufacturer button leads back to its category and manufacturer when neither holds an underscore. */
  lemma ManufacturerTokenRoundTrip(category: string, manufacturer: string)
    requires '_' !in category && '_' !in manufacturer
    ensures DecodeManufacturer(ManufacturerToken(category, manufacturer)) == Ok((category, manufacturer))
  {
    var token := ManufacturerToken(category, manufacturer);
    assert token == "manufacturer" + ['_'] + (category + ['_'] + manufacturer);
    SplitOf("manufacturer", category + ['_'] + manufacturer, '_');
    SplitOf(category, manufacturer, '_');
    assert Split(manufacturer, '_') == [manufacturer];
  }

  // ---------------------------------------------------------------------
  // Tokens that end in an integer id

  /** `int(data.split('_')[-1])`: the integer in the last field, a ValueError otherwise. */
  function IntOfLastField(data: string): (r: Result<nat>)
    ensures r.Ok? <==> IsNumeral(LastSegment(data, '_'))
  {
    match PyInt(LastSegment(data, '_'))
    case None => Crash(BadInteger)
    case Some(n) => Ok(n)
  }

  /** Any token whose last field is str() of n reads back as n. */
  lemma IntOfLastFieldOf(prefix: string, n: nat)
    ensures IntOfLastField(prefix + "_" + NatToString(n)) == Ok(n)
  {
    var digits := NatToString(n);
    assert '_' !in digits by {
      assert forall i :: 0 <= i < |digits| ==> IsDigit(digits[i]);
    }
    LastSegmentOf(prefix, digits, '_');
    PyIntOfNatToString(n);
  }

  /** `f"buy_{product_id}"` */
  function BuyToken(product: ProductId): string {
    "buy_" + NatToString(product)
  }

  /** A buy button names its product. */
  lemma BuyTokenRoundTrip(product: ProductId)
    ensures IntOfLastField(BuyToken(product)) == Ok(product)
  {
    assert "buy_" == "buy" + "_";
    IntOfLastFieldOf("buy", product);
  }

  /** `f"add_to_cart_{product_id}"` */
  function AddToCartToken(product: ProductId): string {
    "add_to_cart_" + NatToString(product)
  }

  /**
   * `data.split('_')[-1]` written into the INTEGER product_id column:
   * a field of decimal digits is stored as its integer value. None stands
   * for every other field, which the model does not store; SQLite would
   * turn a signed, padded, decimal-point or exponent numeral into a number
   * and keep only the remaining text as TEXT.
   */
  function StoredProductId(data: string): (r: Option<ProductId>)
    ensures r.Some? <==> LastSegment(data, '_') != [] && AllDigits(LastSegment(data, '_'))
  {
    var field := LastSegment(data, '_');
    if field != [] && AllDigits(field) then Some(DigitsValue(field)) else None
  }

  /** An add-to-cart button stores its product. */
  lemma AddToCartTokenRoundTrip(product: ProductId)
    ensures StoredProductId(AddToCartToken(product)) == Some(product)
  {
    var digits := NatToString(product);
    assert '_' !in digits by {
      assert forall i :: 0 <= i < |digits| ==> IsDigit(digits[i]);
    }
    assert AddToCartToken(product) == "add_to_cart" + ['_'] + digits;
    LastSegmentOf("add_to_cart", digits, '_');
  }

  /** `f"cart_page_{user_id}_{page}"` */
  function CartPageToken(user: UserId, page: nat): string {
    "cart_page_" + NatToString(user) + "_" + NatToString(page)
  }

  /** `_, _, page = data.rsplit('_', 2)`, then `int(page)`. */
  function PageOfToken(data: string): (r: Result<nat>)
    ensures r.Ok? ==> IntOfLastField(data) == r
    ensures '_' !in data ==> r.Crash?
  {
    match SplitLast(data, '_')
    case None => Crash(BadInteger)       // fewer than three fields to unpack
    case Some((rest, page)) =>
      match SplitLast(rest, '_')
      case None => Crash(BadInteger)
      case Some(_) =>
        match PyInt(page)
        case None => Crash(BadInteger)
        case Some(n) => Ok(n)
  }

  /** A page button decodes to the page it was made for. */
  lemma CartPageTokenRoundTrip(user: UserId, page: nat)
    ensures PageOfToken(CartPageToken(user, page)) == Ok(page)
  {
    var u, p := NatToString(user), NatToString(page);
    assert '_' !in p by {
      assert forall i :: 0 <= i < |p| ==> IsDigit(p[i]);
    }
    var rest := "cart_page_" + u;
    assert CartPageToken(user, page) == rest + ['_'] + p;
    SplitLastOf(rest, p, '_');
    assert rest[4] == '_';
    PyIntOfNatToString(page);
  }

  /** `f"delete_product_{user_id}_{product_id}"` */
  function DeleteToken(user: UserId, product: ProductId): string {
    "delete_product_" + NatToString(user) + "_" + NatToString(product)
  }

  /**
   * The delete handler as written: `_, _, product_id = data.split('_', 2)`
   * leaves "<user>_<product>" in the third field, and `int()` reads that
   * underscore as digit grouping.
   */
  function DeleteProductIdAsWritten(data: string): Result<nat>
  {
    match SplitFirst(data, '_')
    case None => Crash(BadInteger)
    case Some((_, rest)) =>
      match SplitFirst(rest, '_')
      case None => Crash(BadInteger)
      case Some((_, third)) =>
        match PyInt(third)
        case None => Crash(BadInteger)
        case Some(n) => Ok(n)
  }

  /** The third field of `split('_', 2)` on a delete token is "<user>_<product>". */
  lemma DeleteTokenThirdField(user: UserId, product: ProductId)
    ensures var third := NatToString(user) + "_" + NatToString(product);
      && SplitFirst(DeleteToken(user, product), '_') == Some(("delete", "product_" + third))
      && SplitFirst("product_" + third, '_') == Some(("product", third))
  {
    var third := NatToString(user) + "_" + NatToString(product);
    DeleteTokenShape(NatToString(user), NatToString(product));
    NoUnderscoreInWords();
    SplitFirstOf("delete", "product_" + third, '_');
    SplitFirstOf("product", third, '_');
  }

  lemma NoUnderscoreInWords()
    ensures '_' !in "delete" && '_' !in "product"
    ensures "product_" == "product" + ['_']
  {
  }

  /** The delete token regrouped around its first separator. */
  lemma DeleteTokenShape(u: string, p: string)
    ensures "delete_product_" + u + "_" + p == "delete" + ['_'] + ("product_" + (u + "_" + p))
  {
    assert "delete_product_" == "delete" + ['_'] + "product_";
    Regroup("delete" + ['_'], "product_", u, "_" + p);
  }

  /** Regrouping a concatenation of four strings. */
  lemma Regroup(a: string, b: string, c: string, d: string)
    ensures a + b + c + d == a + (b + (c + d))
  {
  }

  /** As written, a delete button yields the user's digits followed by the product's digits. */
  lemma DeleteTokenAsWritten(user: UserId, product: ProductId)
    ensures DeleteProductIdAsWritten(DeleteToken(user, product))
         == Ok(user * Pow10(|NatToString(product)|) + product)
  {
    var u, p := NatToString(user), NatToString(product);
    var third := u + "_" + p;
    DeleteTokenThirdField(user, product);
    PyIntOfJoinedDigits(u, p);
    assert PyInt(third) == Some(user * Pow10(|p|) + product);
  }

  /** So for every real (positive) user id the product the handler deletes is not the one on the button. */
  lemma DeleteTokenAsWrittenMissesProduct(user: UserId, product: ProductId)
    requires user > 0
    ensures DeleteProductIdAsWritten(DeleteToken(user, product)) != Ok(product)
  {
    DeleteTokenAsWritten(user, product);
    var k := Pow10(|NatToString(product)|);
    PositiveProduct(user, k);
  }

  lemma PositiveProduct(a: nat, b: nat)
    requires a >= 1 && b >= 1
    ensures a * b >= 1
  {
  }

  /** The delete button of product 5 in user 7's cart. */
  lemma DeleteTokenSevenFive()
    ensures NatToString(5) == "5" && NatToString(7) == "7"
    ensures DeleteToken(7, 5) == "delete_product_7_5"
  {
    assert DigitChar(5) == '5' && DigitChar(7) == '7';
  }

  /** User 7 pressing the button of product 5 asks to delete product 75. */
  lemma DeleteTokenAsWrittenExample()
    ensures DeleteProductIdAsWritten(DeleteToken(7, 5)) == Ok(75)
  {
    var k := Pow10(|NatToString(5)|);
    assert k == 10 by {
      assert |NatToString(5)| == 1;
      assert Pow10(1) == 10 * Pow10(0);
    }
    assert 7 * k + 5 == 75;
    DeleteTokenAsWritten(7, 5);
  }

  /** The corrected delete handler reads the product id from the last field. */
  function DeleteProductId(data: string): (r: Result<nat>)
    ensures r.Ok? <==> IsNumeral(LastSegment(data, '_'))
  {
    IntOfLastField(data)
  }

  /** With the correction a delete button names its product. */
  lemma DeleteTokenRoundTrip(user: UserId, product: ProductId)
    ensures DeleteProductId(DeleteToken(user, product)) == Ok(product)
  {
    assert DeleteToken(user, product) == ("delete_product_" + NatToString(user)) + "_" + NatToString(product);
    IntOfLastFieldOf("delete_product_" + NatToString(user), product);
  }
}
