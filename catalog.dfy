/**
 * The product catalog: the first sheet of the shop's spreadsheet, read
 * once into a table of rows, and the read-only queries over it.
 */
module Catalog {
  import opened Common
  import opened Seqs

  /** One spreadsheet row; None stands for an empty (NaN) cell. */
  datatype Row = Row(
    id: ProductId,
    category: Option<string>,
    manufacturer: Option<string>,
    shortName: string,        // converted to str on load, so never missing
    name: string,
    description: Option<string>,
    memory: string,
    color: Option<string>,
    price: int,
    stock: Option<int>,
    photo: string)

  /**
   * `stock > 0` as pandas and Python evaluate it on the cell: an empty cell
   * compares false, and so does a zero or negative stock.
   */
  predicate InStock(r: Row) {
    r.stock.Some? && r.stock.value > 0
  }

  // ---------------------------------------------------------------------
  // Distinct-value queries

  function CategoryColumn(rows: seq<Row>): seq<Option<string>> {
    seq(|rows|, i requires 0 <= i < |rows| => rows[i].category)
  }

  /** `get_unique_categories`: every category that some row has, once each. */
  function UniqueCategories(rows: seq<Row>): (r: seq<string>)
    ensures NoDups(r)
    ensures forall c :: c in r <==> exists i :: 0 <= i < |rows| && rows[i].category == Some(c)
  {
    var col := CategoryColumn(rows);
    assert forall i :: 0 <= i < |rows| ==> col[i] == rows[i].category;
    assert forall c :: Some(c) in col <==> exists i :: 0 <= i < |rows| && rows[i].category == Some(c) by {
      forall c | Some(c) in col
        ensures exists i :: 0 <= i < |rows| && rows[i].category == Some(c)
      {
        var i := FirstIndex(col, Some(c));
        assert rows[i].category == Some(c);
      }
    }
    DistinctPresent(col)
  }

  /** Categories are listed in the order of the rows that first name them. */
  lemma CategoriesInFirstAppearanceOrder(rows: seq<Row>, i: nat, j: nat)
    requires i < j < |UniqueCategories(rows)|
    ensures FirstIndex(CategoryColumn(rows), Some(UniqueCategories(rows)[i]))
          < FirstIndex(CategoryColumn(rows), Some(UniqueCategories(rows)[j]))
  {
    DistinctPresentOrder(CategoryColumn(rows), i, j);
  }

  function ManufacturerColumn(rows: seq<Row>, category: string): seq<Option<string>> {
    seq(|rows|, i requires 0 <= i < |rows| =>
      if rows[i].category == Some(category) then rows[i].manufacturer else None)
  }

  /** `get_unique_manufacturers(category)`: the manufacturers with a row in that category, once each. */
  function UniqueManufacturers(rows: seq<Row>, category: string): (r: seq<string>)
    ensures NoDups(r)
    ensures forall m :: m in r <==>
      exists i :: 0 <= i < |rows| && rows[i].category == Some(category) && rows[i].manufacturer == Some(m)
  {
    var col := ManufacturerColumn(rows, category);
    assert forall m :: Some(m) in col ==>
      exists i :: 0 <= i < |rows| && rows[i].category == Some(category) && rows[i].manufacturer == Some(m) by {
      forall m | Some(m) in col
        ensures exists i :: 0 <= i < |rows| && rows[i].category == Some(category) && rows[i].manufacturer == Some(m)
      {
        var i := FirstIndex(col, Some(m));
        assert rows[i].category == Some(category);
      }
    }
    assert forall i :: 0 <= i < |rows| && rows[i].category == Some(category) ==> col[i] == rows[i].manufacturer;
    DistinctPresent(col)
  }

  /** A row that names a category and a manufacturer and has stock. */
  predicate Offers(r: Row, category: string, manufacturer: string) {
    r.category == Some(category) && r.manufacturer == Some(manufacturer) && InStock(r)
  }

  function ModelColumn(rows: seq<Row>, category: string, manufacturer: string): seq<Option<string>> {
    seq(|rows|, i requires 0 <= i < |rows| =>
      if Offers(rows[i], category, manufacturer) then Some(rows[i].shortName) else None)
  }

  /**
   * `get_models_by_manufacturer(category, manufacturer)`: the short names
   * of the in-stock rows of that category and manufacturer, once each.
   */
  function ModelsByManufacturer(rows: seq<Row>, category: string, manufacturer: string): (r: seq<string>)
    ensures NoDups(r)
    ensures forall m :: m in r <==>
      exists i :: 0 <= i < |rows| && Offers(rows[i], category, manufacturer) && rows[i].shortName == m
  {
    var col := ModelColumn(rows, category, manufacturer);
    assert forall m :: Some(m) in col ==>
      exists i :: 0 <= i < |rows| && Offers(rows[i], category, manufacturer) && rows[i].shortName == m by {
      forall m | Some(m) in col
        ensures exists i :: 0 <= i < |rows| && Offers(rows[i], category, manufacturer) && rows[i].shortName == m
      {
        var i := FirstIndex(col, Some(m));
        assert Offers(rows[i], category, manufacturer);
      }
    }
    assert forall i :: 0 <= i < |rows| && Offers(rows[i], category, manufacturer) ==> col[i] == Some(rows[i].shortName);
    DistinctPresent(col)
  }

  // ---------------------------------------------------------------------
  // Lookup by id

  /** `get_product_by_id`: the first row with that id, None when there is none. */
  function FindById(rows: seq<Row>, id: ProductId): (r: Option<Row>)
    ensures r.None? <==> forall i :: 0 <= i < |rows| ==> rows[i].id != id
    ensures r.Some? ==> exists i :: 0 <= i < |rows| && rows[i] == r.value && rows[i].id == id
                                     && forall k :: 0 <= k < i ==> rows[k].id != id
  {
    if rows == [] then None
    else if rows[0].id == id then Some(rows[0])
    else
      var r := FindById(rows[1..], id);
      assert forall i :: 1 <= i < |rows| ==> rows[i] == rows[1..][i - 1];
      if r.Some? then
        var i :| 0 <= i < |rows[1..]| && rows[1..][i] == r.value && rows[1..][i].id == id
                 && forall k :: 0 <= k < i ==> rows[1..][k].id != id;
        assert rows[i + 1] == r.value && forall k :: 0 <= k < i + 1 ==> rows[k].id != id;
        r
      else r
  }

  // ---------------------------------------------------------------------
  // Colour -> memory -> product configuration

  /** The memory variants of one colour: memory value -> product row. */
  type MemoryDict = Dict<string, Row>

  /** A model's configuration: colour -> memory variants. */
  type Configuration = Dict<string, MemoryDict>

  /** A row of the model in the colour (an empty colour cell matches no colour). */
  predicate Matches(r: Row, model: string, color: string) {
    r.shortName == model && r.color == Some(color)
  }

  function ColorColumn(rows: seq<Row>, model: string): seq<Option<string>> {
    seq(|rows|, i requires 0 <= i < |rows| => if rows[i].shortName == model then rows[i].color else None)
  }

  /** The colours of the model's rows, once each, in order of first appearance. */
  function ModelColors(rows: seq<Row>, model: string): seq<string> {
    DistinctPresent(ColorColumn(rows, model))
  }

  /** The memory dict the inner loop builds for one colour from the first rows. */
  function MemoryDictOf(rows: seq<Row>, model: string, color: string): (d: MemoryDict)
    ensures DictWf(d)
  {
    if rows == [] then EmptyDict()
    else
      var prev := MemoryDictOf(rows[..|rows| - 1], model, color);
      var r := rows[|rows| - 1];
      if Matches(r, model, color) && InStock(r) then Put(prev, r.memory, r) else prev
  }

  /** The configuration the outer loop builds from the first colours. */
  function ConfigFrom(rows: seq<Row>, model: string, colors: seq<string>): (c: Configuration)
    ensures DictWf(c)
  {
    if colors == [] then EmptyDict()
    else
      var prev := ConfigFrom(rows, model, colors[..|colors| - 1]);
      var color := colors[|colors| - 1];
      var memories := MemoryDictOf(rows, model, color);
      if memories.keys != [] then Put(prev, color, memories) else prev
  }

  function ConfigurationOf(rows: seq<Row>, model: string): Configuration {
    ConfigFrom(rows, model, ModelColors(rows, model))
  }

  /**
   * `get_product_configuration(model)`: for each colour of the model, the
   * in-stock rows of that colour keyed by memory; colours left without a
   * variant are dropped.
   */
  method GetProductConfiguration(rows: seq<Row>, model: string) returns (config: Configuration)
    ensures config == ConfigurationOf(rows, model)
  {
    var colors := ModelColors(rows, model);
    config := EmptyDict();
    var k := 0;
    while k < |colors|
      invariant 0 <= k <= |colors|
      invariant config == ConfigFrom(rows, model, colors[..k])
    {
      var color := colors[k];
      var memories: MemoryDict := EmptyDict();
      var i := 0;
      while i < |rows|
        invariant 0 <= i <= |rows|
        invariant memories == MemoryDictOf(rows[..i], model, color)
      {
        assert rows[..i + 1][..i] == rows[..i];
        var row := rows[i];
        if Matches(row, model, color) && InStock(row) {
          memories := Put(memories, row.memory, row);
        }
        i := i + 1;
      }
      assert rows[..i] == rows;
      assert colors[..k + 1][..k] == colors[..k];
      if memories.keys != [] {
        config := Put(config, color, memories);
      }
      k := k + 1;
    }
    assert colors[..k] == colors;
  }

  /** Every variant of a colour is an in-stock row of the model in that colour, filed under its memory. */
  lemma {:induction false} MemoryDictSound(rows: seq<Row>, model: string, color: string)
    ensures forall m :: m in MemoryDictOf(rows, model, color).values ==>
      var r := MemoryDictOf(rows, model, color).values[m];
      r in rows && Matches(r, model, color) && InStock(r) && r.memory == m
  {
    if rows != [] {
      var init := rows[..|rows| - 1];
      MemoryDictSound(init, model, color);
      assert rows == init + [rows[|rows| - 1]];
    }
  }

  /** A colour has a variant exactly when one of the model's rows in that colour is in stock. */
  lemma {:induction false} MemoryDictNonEmpty(rows: seq<Row>, model: string, color: string)
    ensures MemoryDictOf(rows, model, color).keys != [] <==>
      exists i :: 0 <= i < |rows| && Matches(rows[i], model, color) && InStock(rows[i])
  {
    if rows != [] {
      var init := rows[..|rows| - 1];
      MemoryDictNonEmpty(init, model, color);
      if exists i :: 0 <= i < |init| && Matches(init[i], model, color) && InStock(init[i]) {
        var i :| 0 <= i < |init| && Matches(init[i], model, color) && InStock(init[i]);
        assert rows[i] == init[i];
      }
      if exists i :: 0 <= i < |rows| && Matches(rows[i], model, color) && InStock(rows[i]) {
        var i :| 0 <= i < |rows| && Matches(rows[i], model, color) && InStock(rows[i]);
        if i < |init| {
          assert init[i] == rows[i];
        }
      }
    }
  }

  function MemoryColumn(rows: seq<Row>, model: string, color: string): seq<Option<string>> {
    seq(|rows|, i requires 0 <= i < |rows| =>
      if Matches(rows[i], model, color) && InStock(rows[i]) then Some(rows[i].memory) else None)
  }

  /**
   * The memory keys of a colour are its in-stock memory values, once each,
   * in order of first appearance: a repeated memory keeps its first place.
   */
  lemma {:induction false} MemoryKeysInFirstAppearanceOrder(rows: seq<Row>, model: string, color: string)
    ensures MemoryDictOf(rows, model, color).keys == DistinctPresent(MemoryColumn(rows, model, color))
  {
    if rows != [] {
      var init := rows[..|rows| - 1];
      var col := MemoryColumn(rows, model, color);
      assert col[..|col| - 1] == MemoryColumn(init, model, color);
      MemoryKeysInFirstAppearanceOrder(init, model, color);
    }
  }

  /**
   * Within a colour the last in-stock row with a given memory is the one
   * stored: a later row with the same memory overwrites an earlier one.
   */
  lemma {:induction false} LastRowWins(rows: seq<Row>, model: string, color: string, j: nat)
    requires j < |rows| && Matches(rows[j], model, color) && InStock(rows[j])
    requires forall k :: j < k < |rows| && Matches(rows[k], model, color) && InStock(rows[k]) ==>
      rows[k].memory != rows[j].memory
    ensures rows[j].memory in MemoryDictOf(rows, model, color).values
    ensures MemoryDictOf(rows, model, color).values[rows[j].memory] == rows[j]
  {
    var init := rows[..|rows| - 1];
    if j < |rows| - 1 {
      assert init[j] == rows[j];
      LastRowWins(init, model, color, j);
    }
  }

  /** The configuration built from some colours holds the non-empty memory dicts of those colours. */
  lemma {:induction false} ConfigFromEntries(rows: seq<Row>, model: string, colors: seq<string>)
    ensures forall c :: c in ConfigFrom(rows, model, colors).values <==>
      c in colors && MemoryDictOf(rows, model, c).keys != []
    ensures forall c :: c in ConfigFrom(rows, model, colors).values ==>
      ConfigFrom(rows, model, colors).values[c] == MemoryDictOf(rows, model, c)
  {
    if colors != [] {
      var init := colors[..|colors| - 1];
      assert colors == init + [colors[|colors| - 1]];
      ConfigFromEntries(rows, model, init);
    }
  }

  /** Every variant of the configuration is an in-stock row of the model, filed under its colour and memory. */
  lemma ConfigurationInStock(rows: seq<Row>, model: string, c: string, m: string)
    requires c in ConfigurationOf(rows, model).values
    requires m in ConfigurationOf(rows, model).values[c].values
    ensures var r := ConfigurationOf(rows, model).values[c].values[m];
      r in rows && r.shortName == model && r.color == Some(c) && r.memory == m && InStock(r)
  {
    ConfigFromEntries(rows, model, ModelColors(rows, model));
    MemoryDictSound(rows, model, c);
  }

  /**
   * A colour is a key of the configuration exactly when some row of the
   * model in that colour is in stock, and its memory dict is then non-empty.
   */
  lemma ConfigurationColors(rows: seq<Row>, model: string, c: string)
    ensures c in ConfigurationOf(rows, model).values <==>
      exists i :: 0 <= i < |rows| && Matches(rows[i], model, c) && InStock(rows[i])
    ensures c in ConfigurationOf(rows, model).values ==> ConfigurationOf(rows, model).values[c].keys != []
  {
    var col := ColorColumn(rows, model);
    ConfigFromEntries(rows, model, ModelColors(rows, model));
    MemoryDictNonEmpty(rows, model, c);
    if exists i :: 0 <= i < |rows| && Matches(rows[i], model, c) && InStock(rows[i]) {
      var i :| 0 <= i < |rows| && Matches(rows[i], model, c) && InStock(rows[i]);
      assert col[i] == Some(c);
    }
  }

  /** When none of the model's rows is in stock the configuration is empty. */
  lemma OutOfStockGivesEmpty(rows: seq<Row>, model: string)
    requires forall i :: 0 <= i < |rows| && rows[i].shortName == model ==> !InStock(rows[i])
    ensures ConfigurationOf(rows, model).keys == []
  {
    var config := ConfigurationOf(rows, model);
    if config.keys != [] {
      var c := config.keys[0];
      ConfigurationColors(rows, model, c);
      assert false;
    }
  }

  /** Within a colour, the memory keys are its in-stock memory values in order of first appearance. */
  lemma ConfigurationMemories(rows: seq<Row>, model: string, c: string)
    requires c in ConfigurationOf(rows, model).values
    ensures ConfigurationOf(rows, model).values[c].keys == DistinctPresent(MemoryColumn(rows, model, c))
  {
    ConfigFromEntries(rows, model, ModelColors(rows, model));
    MemoryKeysInFirstAppearanceOrder(rows, model, c);
  }

  /** One step of the outer loop appends the new colour to the key order, or changes nothing. */
  lemma ConfigFromStep(rows: seq<Row>, model: string, colors: seq<string>)
    requires colors != [] && NoDups(colors)
    ensures var init := colors[..|colors| - 1];
      var prev := ConfigFrom(rows, model, init).keys;
      ConfigFrom(rows, model, colors).keys == prev
      || ConfigFrom(rows, model, colors).keys == prev + [colors[|colors| - 1]]
  {
    var init := colors[..|colors| - 1];
    ConfigFromEntries(rows, model, init);
  }

  /** The colours of a configuration built from some first colours keep the order of those colours. */
  lemma {:induction false} ConfigFromOrder(rows: seq<Row>, model: string, k: nat, i: nat, j: nat)
    requires k <= |ModelColors(rows, model)|
    requires i < j < |ConfigFrom(rows, model, ModelColors(rows, model)[..k]).keys|
    ensures var keys := ConfigFrom(rows, model, ModelColors(rows, model)[..k]).keys;
      && Some(keys[i]) in ColorColumn(rows, model) && Some(keys[j]) in ColorColumn(rows, model)
      && FirstIndex(ColorColumn(rows, model), Some(keys[i])) < FirstIndex(ColorColumn(rows, model), Some(keys[j]))
  {
    var colors := ModelColors(rows, model);
    var col := ColorColumn(rows, model);
    var prefix := colors[..k];
    assert prefix != [];
    var init := colors[..k - 1];
    assert prefix[..k - 1] == init;
    assert NoDups(prefix);
    var keys := ConfigFrom(rows, model, prefix).keys;
    var prev := ConfigFrom(rows, model, init).keys;
    ConfigFromStep(rows, model, prefix);
    if j < |prev| {
      assert keys[i] == prev[i] && keys[j] == prev[j];
      ConfigFromOrder(rows, model, k - 1, i, j);
    } else {
      // keys[j] is the colour the k-th step added; keys[i] is an earlier colour.
      assert keys == prev + [colors[k - 1]] && keys[i] == prev[i];
      ConfigFromEntries(rows, model, init);
      assert keys[i] in init;
      var p := FirstIndex(init, keys[i]);
      assert colors[p] == keys[i];
      DistinctPresentOrder(col, p, k - 1);
    }
  }

  /** Configuration colours keep the order in which the model's rows first show them. */
  lemma ConfigurationColorOrder(rows: seq<Row>, model: string, i: nat, j: nat)
    requires i < j < |ConfigurationOf(rows, model).keys|
    ensures var keys := ConfigurationOf(rows, model).keys;
      && Some(keys[i]) in ColorColumn(rows, model) && Some(keys[j]) in ColorColumn(rows, model)
      && FirstIndex(ColorColumn(rows, model), Some(keys[i])) < FirstIndex(ColorColumn(rows, model), Some(keys[j]))
  {
    var colors := ModelColors(rows, model);
    assert colors[..|colors|] == colors;
    ConfigFromOrder(rows, model, |colors|, i, j);
  }

  /** Within a colour of the configuration, the last in-stock row with a memory value is the one stored. */
  lemma ConfigurationLastRowWins(rows: seq<Row>, model: string, c: string, j: nat)
    requires j < |rows| && Matches(rows[j], model, c) && InStock(rows[j])
    requires forall k :: j < k < |rows| && Matches(rows[k], model, c) && InStock(rows[k]) ==>
      rows[k].memory != rows[j].memory
    ensures c in ConfigurationOf(rows, model).values
    ensures && rows[j].memory in ConfigurationOf(rows, model).values[c].values
            && ConfigurationOf(rows, model).values[c].values[rows[j].memory] == rows[j]
  {
    ConfigurationColors(rows, model, c);
    ConfigFromEntries(rows, model, ModelColors(rows, model));
    LastRowWins(rows, model, c, j);
  }

  // ---------------------------------------------------------------------
  // Reading a configuration by position, as the card handlers do

  /** Every key order lists exactly the keys that hold a value, at both levels. */
  predicate ConfigWf(config: Configuration) {
    DictWf(config) && forall c :: c in config.values ==> DictWf(config.values[c])
  }

  lemma ConfigurationWf(rows: seq<Row>, model: string)
    ensures ConfigWf(ConfigurationOf(rows, model))
  {
    ConfigFromEntries(rows, model, ModelColors(rows, model));
  }

  /** `colors[ci]` and then `memory_sizes[mi]` both exist. */
  predicate ValidIndices(config: Configuration, ci: nat, mi: nat)
    requires ConfigWf(config)
  {
    ci < |config.keys| && mi < |config.values[config.keys[ci]].keys|
  }

  /** `config[colors[ci]][memory_sizes[mi]]`: the product row the indices select. */
  function VariantAt(config: Configuration, ci: nat, mi: nat): (r: Row)
    requires ConfigWf(config) && ValidIndices(config, ci, mi)
    ensures var c := config.keys[ci];
      exists m :: m in config.values[c].values && config.values[c].values[m] == r
  {
    var c := config.keys[ci];
    var m := config.values[c].keys[mi];
    config.values[c].values[m]
  }
}

