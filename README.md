# iMobile_bot: the shop logic of a Telegram retail bot, in Dafny

The bot sells phones, tablets, watches and accessories from a product
table. It has three parts:

- **Catalog.** The user walks the menus from category to manufacturer to
  model. The model's card lets the user step through the colours and memory
  sizes in stock, buy a variant or put it in the cart.
- **Cart.** The cart is a SQLite table of (user, product) rows. It is listed
  ten entries a page, with one delete button per entry.
- **Callback tokens.** Every button carries a token string such as
  `next_color_15_Pro_Max`, `add_to_cart_44` or `cart_page_7_1`. The handlers
  split the token on underscores to find what to do.

This project models that logic and proves what it promises:

- the cart store's effect on the tables;
- the catalog queries' membership and order;
- the buttons each keyboard carries;
- how every token decodes;
- the per-user colour and memory selection.

## Modules

Each operation that changes state is a method with a `modifies` clause,
proved against a specification function. Pure queries are functions with
lemmas.

- `common.dfy`, module `Common`:
  - `Option`;
  - `Result`, a handler's answer or the exception it raises, with a `Fault` naming the Python exception;
  - the id types.
- `seqs.dfy`, module `Seqs`:
  - first and last positions;
  - pandas `dropna().unique()` (`DistinctPresent`);
  - a Python dict with insertion-ordered keys (`Dict`, `Put`).
- `text.dfy`, module `Text`:
  - decimal rendering of ids;
  - Python `int()` on strings, which accepts single underscores between digits;
  - `split`, `rsplit(sep, 1)`, `split(sep, 1)`, `join` and single-character `replace`.
- `markup.dfy`, module `Markup`: aiogram's inline keyboard as rows of buttons. Its `insert` fills the last row up to `row_width`; `add` and `row` open a new row.
- `cart_db.dfy`, module `CartDb`: class `CartStore`.
  - The cart table is a sequence of `(id, user, product)` entries in rowid order.
  - The users table is a map.
  - The AUTOINCREMENT counter is a field.
- `catalog.dfy`, module `Catalog`:
  - the product table as a sequence of rows, with a missing cell as `None`;
  - the four queries;
  - `GetProductConfiguration`, whose nested loops build the colour → memory → row dictionary.
- `tokens.dfy`, module `Tokens`: every callback token's encoder and decoder, with their round trips.
- `keyboards.dfy`, module `Keyboards`: the manufacturer, model, product-card and cart-page keyboards.
- `callbacks.dfy`, module `Callbacks`: the menu, add-to-cart, cart listing, delete and page handlers.
- `main_handlers.dfy`, module `MainHandlers`:
  - `/start` and `/clear_cart`;
  - the order notice of `buy_`;
  - class `SelectionStore`, the per-user selection `user_choice` that opening a model resets and the arrow buttons step.

The keyboards are built step by step as the source does, but as local
values: no builder shares its markup before returning it.

## Model

| member | source | states |
|---|---|---|
| CartDb.CartStore.constructor | services/cart_db.py:24-42 | The tables start empty, and the entry invariant holds: rowids increase and stay below the AUTOINCREMENT counter. |
| CartDb.CartStore.AddUser | services/cart_db.py:49-61 | Upsert. Exactly the given id is added to the user ids, and its three names become the new values. The creation time is kept for an existing id; a new id gets `now`. The cart is untouched. |
| CartDb.CartStore.AddToCart | services/cart_db.py:65-70 | Exactly one row `(nextId, user, product)` is appended, and the next rowid grows by one. The user's cart becomes the old cart plus `[product]`. Every other user's cart and the users table are unchanged. |
| CartDb.CartStore.GetCart | services/cart_db.py:74-80 | Returns the product ids of exactly the user's rows, in insertion order (`CartOf`). |
| CartDb.CartStore.RemoveFromCart | services/cart_db.py:84-96 | Every row matching (user, product) is deleted, not just one. The user's cart becomes `Erase(old cart, product)`, the product is no longer in it, and other users' carts are unchanged. |
| CartDb.CartStore.ClearCart | services/cart_db.py:100-105 | The user's cart becomes empty. Every other cart and the users table are unchanged. |
| CartDb.CartStore.GetCartCount | services/cart_db.py:109-115 | The count equals the length of the user's `get_cart` list. |
| CartDb.CartStore.GetUsersInfo | services/cart_db.py:119-125 | The count equals the length of the id list. The list holds exactly the registered ids, each once, in ascending (rowid) order. |
| CartDb.CountIsCartLength | services/cart_db.py:112-113 | `COUNT(*)` over the user's rows equals the length of `CartOf`, for any table. |
| CartDb.EraseEffect | services/cart_db.py:91-94 | After the delete, the product is gone, and every other product keeps its multiplicity in the cart. |
| CartDb.CartOfWithout | services/cart_db.py:91-94 | `DELETE … WHERE user_id AND product_id` erases the product from that user's cart and leaves other carts as they were. |
| CartDb.CartOfWithoutUser | services/cart_db.py:103 | `DELETE … WHERE user_id` empties that user's cart and no other. |
| CartDb.CartOfAppend | services/cart_db.py:68 | An inserted row extends exactly its own user's cart, at the end. |
| CartDb.AddsStack | services/cart_db.py:35-42 | No uniqueness constraint: adding the same product twice puts it in the cart twice. |
| CartDb.WithoutKeepsRows | services/cart_db.py:91-94 | Both deletes keep only rows that were already in the table. |
| CartDb.WithoutKeepsOrder | services/cart_db.py:37 | Deleting rows keeps the rowids increasing, so table order stays insertion order. |
| Seqs.DistinctPresent | services/database.py:20 | `dropna().unique()` has no duplicates and holds exactly the non-missing values of the column. |
| Seqs.DistinctPresentOrder | services/database.py:20 | `unique()` lists values in order of first appearance. |
| Seqs.Put | services/database.py:65 | `d[k] = v` keeps the dict well formed. A new key goes last; an existing key keeps its place and takes the new value. |
| Catalog.UniqueCategories | services/database.py:15-20 | Each non-missing category appears exactly once. |
| Catalog.CategoriesInFirstAppearanceOrder | services/database.py:20 | Categories are listed in order of first appearance in the table. |
| Catalog.UniqueManufacturers | services/database.py:22-29 | Each manufacturer appears once, and exactly those with a row in the category are listed. |
| Catalog.ModelsByManufacturer | services/database.py:31-46 | Each model appears once, and a model is listed exactly when some row of that category and manufacturer has stock > 0. |
| Catalog.FindById | services/database.py:82-93 | Returns None exactly when no row has the id, and otherwise the first row that has it. |
| Catalog.GetProductConfiguration | services/database.py:48-80 | The two nested loops compute `ConfigurationOf(rows, model)`. |
| Catalog.ConfigurationWf | services/database.py:55-78 | Both levels of the configuration are well-formed dicts. |
| Catalog.MemoryDictSound | services/database.py:62-74 | Every entry of a memory dict is an in-stock row of that model and colour, filed under its memory. |
| Catalog.MemoryDictNonEmpty | services/database.py:64 | A colour's memory dict is non-empty exactly when one of its rows has stock > 0. |
| Catalog.MemoryKeysInFirstAppearanceOrder | services/database.py:62-65 | Memory sizes are keyed in order of first in-stock appearance. |
| Catalog.LastRowWins | services/database.py:65 | A later in-stock row with the same memory overwrites an earlier one. |
| Catalog.ConfigFromEntries | services/database.py:57-78 | A colour is a key exactly when its memory dict is non-empty, and then it maps to that dict. |
| Catalog.ConfigurationInStock | services/database.py:62-65 | Every variant in the configuration is an in-stock row of the model, under its own colour and memory. |
| Catalog.ConfigurationColors | services/database.py:76-78 | A colour is a key exactly when some row of the model in that colour is in stock, and its memory dict is then non-empty. |
| Catalog.OutOfStockGivesEmpty | services/database.py:76-80 | If no row of the model is in stock, the configuration is empty. |
| Catalog.ConfigurationMemories | services/database.py:60-65 | A colour's memory keys are its in-stock memory sizes, each once, in first-appearance order. |
| Catalog.ConfigFromStep | services/database.py:57-78 | One more colour adds at most one key, and only at the end. |
| Catalog.ConfigFromOrder | services/database.py:54-57 | At every stage of the colour loop, keys are in first-appearance order of the colour column. |
| Catalog.ConfigurationColorOrder | services/database.py:54-57 | Configuration colours keep first-appearance order. |
| Catalog.ConfigurationLastRowWins | services/database.py:65 | The configuration stores the last in-stock row for each (colour, memory). |
| Catalog.VariantAt | handlers/keyboards.py:93-99 | `config[colors[ci]][memory_sizes[mi]]` is one of that colour's variants. |
| Text.NatToString | handlers/keyboards.py:114 | An f-string of an id is its decimal digits: non-empty, no leading zero, and denoting the id. |
| Text.PyInt | handlers/callbacks.py:157 | `int()` succeeds exactly on numerals (digits with single underscores between them). A plain digit string gives its decimal value. |
| Text.PyIntOfNatToString | handlers/callbacks.py:170 | `int(str(n)) == n`. |
| Text.PyIntOfJoinedDigits | handlers/callbacks.py:157 | `int("a_b")` for digit strings a and b is the value of the digits of a followed by those of b. |
| Text.Split | main.py:303 | `split` gives at least one field, and no field contains the separator. |
| Text.SplitOf | main.py:303 | Splitting `a + sep + b`, where `a` has no separator, gives `a` and then the fields of `b`. |
| Text.SplitFirstOf | handlers/callbacks.py:155 | `split(sep, 1)` cuts at the first separator. |
| Text.SplitLastOf | handlers/callbacks.py:165 | `rsplit(sep, 1)` cuts at the last separator. |
| Text.LastSegmentOf | handlers/callbacks.py:68 | `split(sep)[-1]` is whatever follows the last separator. |
| Text.JoinSplit | main.py:304 | `sep.join(s.split(sep)) == s`. |
| Text.Replace | main.py:245 | `replace` changes exactly the given character at every position and keeps the length. |
| Text.ReplaceRoundTrip | main.py:245 | Replacing x by y and back restores the string exactly when y did not occur in it. |
| Text.JoinSplitIsReplace | handlers/keyboards.py:75 | `"_".join(s.split(' ')) == s.replace(' ', '_')`. |
| Markup.AddRow | handlers/callbacks.py:146-147 | `row(*buttons)` appends the buttons as one new last row. |
| Markup.Add | handlers/keyboards.py:55 | `add(button)` appends the button on a row of its own. |
| Markup.Insert | handlers/keyboards.py:52-54 | `insert` appends the button to the button sequence, opens at most one row, and keeps every row within `row_width`. |
| Tokens.ModelTokenReplacesSpaces | handlers/keyboards.py:75-76 | A model button's token is `model_` followed by the name with spaces as underscores. |
| Tokens.ModelOfToken | main.py:245 | Decoding a `model_` token gives a name without underscores. |
| Tokens.ModelTokenRoundTrip | main.py:245 | Opening a model from its button finds the same name exactly when the name has no underscore. |
| Tokens.DecodeNav | main.py:303-306 | The arrow handler's model name never contains an underscore. |
| Tokens.NavTokenRoundTrip | handlers/keyboards.py:104-111 | An arrow token decodes to its direction word and axis word, and to its model exactly when the name has no underscore. |
| Tokens.DecodeManufacturer | handlers/callbacks.py:44-45 | Raises IndexError exactly when the token has fewer than three fields. The category field has no underscore. |
| Tokens.ManufacturerTokenRoundTrip | handlers/keyboards.py:53-54 | A manufacturer button decodes to its category and manufacturer when neither contains an underscore. |
| Tokens.IntOfLastField | main.py:271-273 | `int(data.split('_')[-1])` succeeds exactly when the last field is a numeral. |
| Tokens.IntOfLastFieldOf | main.py:271-273 | A token ending in `_<n>` yields n. |
| Tokens.BuyTokenRoundTrip | handlers/keyboards.py:114 | A buy button yields its product id. |
| Tokens.StoredProductId | handlers/callbacks.py:68 | The model stores an integer exactly when the last field is a non-empty run of digits, and then stores that field's value. |
| Tokens.AddToCartTokenRoundTrip | handlers/keyboards.py:115 | An add-to-cart button stores its product id. |
| Tokens.PageOfToken | handlers/callbacks.py:165-170 | When `rsplit('_', 2)` and `int` succeed, the page is the token's last field. A token without an underscore raises. |
| Tokens.CartPageTokenRoundTrip | handlers/callbacks.py:142-144 | A page button decodes to the page it was made for. |
| Tokens.DeleteTokenThirdField | handlers/callbacks.py:155 | The third field of `split('_', 2)` on a delete token is `<user>_<product>`. |
| Tokens.DeleteTokenAsWritten | handlers/callbacks.py:155-157 | As written, the handler deletes product `user * 10^len(product) + product`, the user's digits followed by the product's. |
| Tokens.DeleteTokenAsWrittenMissesProduct | handlers/callbacks.py:155-157 | As written, for every positive user id the product deleted is not the one on the button. |
| Tokens.DeleteTokenSevenFive | handlers/callbacks.py:137 | The delete button of product 5 in user 7's cart carries `delete_product_7_5`. |
| Tokens.DeleteTokenAsWrittenExample | handlers/callbacks.py:155-157 | User 7 pressing the button of product 5 asks to delete product 75. |
| Tokens.DeleteProductId | handlers/callbacks.py:155-157 | Corrected decoding succeeds exactly when the last field is a numeral. |
| Tokens.DeleteTokenRoundTrip | handlers/callbacks.py:137 | With the correction, a delete button decodes to its product. |
| Keyboards.CreateManufacturerKeyboard | handlers/keyboards.py:40-56 | One button per manufacturer with its token, then the back button alone on the last row. The keyboard has more than one row exactly when the category has a manufacturer. The markup keeps the default row width of 3, so rows hold at most 3 buttons. |
| Keyboards.CreateModelsKeyboard | handlers/keyboards.py:59-78 | One button per in-stock model with its `model_` token, then `category_<c>` back. More than one row exactly when there is a model. The row width is the default 3. |
| Keyboards.CreateProductConfiguration | handlers/keyboards.py:81-121 | An empty configuration gives exactly one "out of stock" button. Otherwise it raises IndexError exactly when an index is out of range. If not, it returns the nine card buttons of the selected variant on four rows. |
| Keyboards.CardButtonsDecode | handlers/keyboards.py:104-115 | The four arrows decode to previous or next, colour or memory, and the same model. Buy and add-to-cart decode to the selected variant's id. |
| Keyboards.DeleteButtons | handlers/callbacks.py:133-138 | The k-th delete button is labelled k+1 and carries the delete token of entry k's product. |
| Keyboards.GetPaginationKeyboard | handlers/callbacks.py:127-149 | Raises exactly when an entry in the window `[10p, min(10p+10, n))` has no product. Otherwise the buttons are exactly that window's delete buttons, then previous iff p > 0 and next iff 10p+10 < n. Row width is 5. |
| Keyboards.PageOfIndex | handlers/callbacks.py:133 | Cart index i is shown on page p exactly when p = i / 10. |
| Keyboards.PageWindow | handlers/callbacks.py:130-133 | A page shows at most ten entries, and exactly ten when the cart reaches past it. |
| Keyboards.NextPageNonEmpty | handlers/callbacks.py:143-144 | The next button appears only when the next page shows at least one entry. |
| Keyboards.DeleteButtonsDecode | handlers/callbacks.py:133-138 | A delete button's label reads as its position + 1. Its token decodes, with the correction, to that entry's product. |
| Keyboards.TwentyThreeEntries | handlers/callbacks.py:140-147 | With 23 entries, page 0 shows only next, page 1 both, and page 2 only previous with entries 21-23. |
| Callbacks.CategoryMenu | handlers/callbacks.py:17-30 | Raises KeyError exactly for a category missing from `category_display`. The text offers a choice exactly when the category has a manufacturer. |
| Callbacks.ModelsMenu | handlers/callbacks.py:38-58 | Raises when the token has fewer than three fields or names an unknown category. Otherwise it offers exactly the in-stock models of that category and manufacturer. |
| Callbacks.AddToCartHandler | handlers/callbacks.py:66-75 | Adds exactly when the user's cart holds fewer than 50 products, and then appends exactly one row (next rowid, user, product). Otherwise the table and the next rowid are unchanged. Other carts and the users table are never touched, and a cart of at most 50 stays at most 50. |
| Callbacks.Lookup | handlers/callbacks.py:168 | `cart_dict` holds, position by position, `get_product_by_id` of each cart entry. |
| Callbacks.GetCartItems | handlers/callbacks.py:78-124 | An empty cart gets the empty message. It raises exactly when a product is missing from the catalog. Otherwise line k is numbered k+1 with entry k's product, and the keyboard is page 0. |
| Callbacks.ListItems | handlers/callbacks.py:96-113 | The lookup loop raises exactly when some cart entry is missing from the catalog (`None["id"]`). Otherwise line k is numbered k+1 with entry k's product, and `cart_dict` is the position-by-position lookup. |
| Callbacks.DeleteProductHandlerAsWritten | handlers/callbacks.py:152-159 | As written, it deletes the as-written id from the user's cart and answers with the author's refreshed cart: its numbered lines and page 0 of the author's delete keyboard. With that author's cart empty, the answer is "your cart is empty" whatever the user's cart holds. Other carts and the users table stay. |
| Callbacks.DeleteProductHandler | handlers/callbacks.py:152-159 | Corrected: every row of the product named by the button leaves the user's cart, and no other cart or user changes. The answer is the user's refreshed cart: line k numbered k+1 with entry k's row, and page 0 of the delete keyboard. |
| Callbacks.PaginateCartHandler | handlers/callbacks.py:162-172 | Raises on a malformed page. Otherwise the keyboard is the decoded page of the user's cart, raising exactly when that page has an entry missing from the catalog. |
| MainHandlers.Cycle | main.py:314-316 | `(i ± 1) % n` is an index in range. |
| MainHandlers.CycleWraps | main.py:314-316 | Next goes to i+1 and from the last index to 0. Previous goes to i-1 and from 0 to n-1. |
| MainHandlers.CycleUndo | main.py:324-327 | On an index in range, previous undoes next and next undoes previous. |
| MainHandlers.AdvanceMoves | main.py:325 | k presses of next move to `(i + k) % n`. |
| MainHandlers.FullCycle | main.py:323-327 | n presses of next return to the start, and no fewer do. |
| MainHandlers.ConfigurationHasNoEmptyColor | services/database.py:77-78 | Every colour of a configuration has a memory size. |
| MainHandlers.StepAsWritten | main.py:309-330 | As written, it raises exactly for a memory step on an empty configuration. A memory step keeps the colour, and a colour step keeps the memory index. When the as-written alert fires (one colour, or one size of the FIRST colour), the selection is unchanged. |
| MainHandlers.AlertAsWrittenMissesSingleSize | main.py:320-330 | As written, a selected second colour with a single size raises no "only this size" alert when the first colour has two sizes, although the corrected alert fires. |
| MainHandlers.StepAsWrittenLeavesCard | main.py:313-340 | As written, from a valid selection both a memory step and a colour step can select a size the colour does not have. |
| MainHandlers.UnevenCardFromCatalog | services/database.py:48-79 | Three in-stock rows of one model, (A, 64), (A, 128) and (B, 64), configure exactly that uneven card. |
| MainHandlers.StepAsWrittenLeavesCatalogCard | main.py:313-322 | On the configuration those three rows produce, the as-written "next memory" at (B, 64) selects (1, 1), which names no variant. |
| MainHandlers.Normalize | main.py:334-340 | The fallback selection is valid, and a valid selection is kept. |
| MainHandlers.Step | main.py:309-330 | Corrected step: the selection stays valid. A colour step cycles the colour and a memory step cycles within the selected colour's sizes. An axis with one choice leaves a valid selection unchanged. |
| MainHandlers.StepMemoryUndo | main.py:323-327 | A memory step keeps the colour, and previous undoes next. |
| MainHandlers.StepAgreesOnUniformCards | main.py:320-330 | When every colour has as many sizes as the first, the corrected and as-written steps agree. |
| MainHandlers.RenderCard | main.py:333-345 | It shows the card exactly when both indices exist, and then the selected colour, memory, variant and card buttons. |
| MainHandlers.SelectionStore.constructor | handlers/callbacks.py:6 | `user_choice` starts empty. |
| MainHandlers.SelectionStore.OpenModel | main.py:243-265 | Resets the user's selection to (0, 0) and shows the first variant. It raises exactly when nothing of the model is in stock. |
| MainHandlers.SelectionStore.Navigate | main.py:293-355 | Only a user with a selection has it stepped, and that user is alerted exactly when the axis has one choice. The card is drawn at the selection, or at (0, 0) for a user without one. |
| MainHandlers.BuyNotice | main.py:268-290 | Succeeds exactly when the last field is a numeral naming a catalog row whose category is in the display table. The row found has that id. |
| MainHandlers.BuyButtonOrdersProduct | main.py:271-284 | With unique ids, the buy button of a product orders that product. |
| MainHandlers.StartCommand | main.py:33-47 | Registers or refreshes the user, with "None" for a missing or empty name. The creation time of a known user is kept. The users table becomes exactly the old one with this user's record set, and the cart table and the next rowid are unchanged. |
| MainHandlers.ClearCartCommand | main.py:50-52 | The user's cart becomes empty, and nobody else's changes. |

## Left out

- Telegram and aiogram are not modelled. This covers sending, editing and deleting messages, photos, answering callbacks, dispatcher registration, polling, and the broadcast wizard with its scheduling (main.py:26-31 and main.py:55-241). These are transport and wall-clock I/O.
- SQLite connections and the Excel load are not modelled. The tables are fields of `CartStore`, and the product sheet is a `seq<Row>` given to each query.
- Captions, `category_display` text slicing, logging and prints are presentation only. A handler's answer is modelled as its keyboard, its listed rows, or an outcome or alert flag.
- Prices and stock are floats in the sheet. Price is an opaque integer and stock an optional integer (missing means NaN). So `int(price)` in captions, which would raise on a NaN price, is not modelled.
- Memory sizes are non-missing strings. A NaN memory key, which pandas would give its own dict slot per row, is not modelled.
- Text.PyInt: models `int()` on unsigned decimal numerals only. Signs, surrounding whitespace and non-ASCII digits are not accepted. Pages and ids here never carry them, so a token like `cart_page_7_-1` counts as malformed.
- Tokens.StoredProductId and Callbacks.AddToCartHandler: store a product only when the token's last field is a plain digit string. SQLite's INTEGER affinity also turns other numerals into numbers. These include a sign (`-5`, `+5`), surrounding spaces, a decimal point (`5.0`) and an exponent (`1e3`), and a digit string too large for 64 bits becomes REAL. Only the remaining text stays TEXT. The model stores none of these forms (`NotStored`). Every button the bot itself makes carries plain digits (`Tokens.AddToCartTokenRoundTrip`).
- Callbacks.CategoryMenu: takes the category name directly. The source's `data.replace("category_", "")` would also strip the text from inside a name, and no catalog category contains it.
- The `model_` branch of the second `model_configuration_handler` (main.py:300-301) is not modelled. The first handler at main.py:243 is registered first and answers every `model_` token, and aiogram hands a callback to the first matching handler only.
- `get_pagination_keyboard` is defined twice with the same text (handlers/keyboards.py:124-146 and handlers/callbacks.py:127-149). The model has one definition. The callbacks.py copy is the one the handlers call, since it is defined after the star import.
- `create_start_keyboard`, `create_categories_keyboard`, the back handlers (which only redraw menus or delete a message) and the free-text `products_handler` are not modelled. They hold no logic beyond a fixed keyboard.
- The rows a cart line shows are the catalog rows. `get_cart_items` copies eight of their fields into `cart_dict`, and the model keeps the whole row.
- MainHandlers.SelectionStore.Navigate and Callbacks.DeleteProductHandler use the corrected behaviour. The as-written delete handler, step and alert are modelled beside them (`DeleteProductHandlerAsWritten`, `StepAsWritten`, `AlertsAsWritten`), as listed under Findings. There is no as-written `Navigate` method combining them.

## Findings

| source | as written | input that shows it | evidently intended | confidence | as-written member | corrected member |
|---|---|---|---|---|---|---|
| handlers/callbacks.py:155-157 | `_, _, product_id = data.split('_', 2)` keeps `<user>_<product>` as the third field, and `int()` reads the underscore as digit grouping | user 7 presses the delete button of product 5 (`delete_product_7_5`); product 75 is deleted instead | delete the product on the button (the token's last field) | high, not executed | Tokens.DeleteTokenAsWrittenExample | Tokens.DeleteTokenRoundTrip |
| handlers/callbacks.py:159 | the refreshed cart is `get_cart_items(callback_query.message)`, whose `from_user` is the author of the keyboard's message, i.e. the bot | any user deletes an item while the bot's own id has no cart rows: the answer is "your cart is empty" | show the pressing user's cart | medium, not executed | Callbacks.DeleteProductHandlerAsWritten | Callbacks.DeleteProductHandler |
| main.py:313-322 | the memory count is taken from the first colour's sizes, and a colour step keeps the memory index | a model with in-stock rows (A, 64), (A, 128), (B, 64): colour A has sizes 64 and 128, colour B has 64; at (B, 64) "next memory" selects (1, 1), and the redraw raises IndexError | step within the selected colour's sizes and keep the selection valid | high, not executed | MainHandlers.StepAsWrittenLeavesCatalogCard | MainHandlers.Step |
