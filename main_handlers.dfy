/**
 * The handlers of the bot's entry module: /start and /clear_cart, opening
 * a model's card, stepping through its colours and memory sizes, and the
 * order notice of "buy". The per-user selection `user_choice` is a
 * dictionary the handlers update in place, modelled as the one field of
 * `SelectionStore`.
 */
module MainHandlers {
  import opened Common
  import opened Seqs
  import opened Text
  import opened Markup
  import opened Catalog
  import opened Tokens
  import opened Keyboards
  import opened CartDb
  import opened Callbacks

  /** `user_choice[user_id]`: the indices of the selected colour and memory size. */
  datatype Selection = Selection(color: nat, memory: nat)

  // ---------------------------------------------------------------------
  // Cycling through a list of n choices

  /** `(i + 1) % n` or `(i - 1) % n`; for a positive n Python's % is never negative. */
  function Cycle(i: nat, n: nat, d: Direction): (j: nat)
    requires n > 0
    ensures j < n
  {
    if d == Next then (i + 1) % n else ((i as int) - 1) % n
  }

  lemma MulAtLeast(a: int, n: int)
    requires a >= 1 && n > 0
    ensures a * n >= n
  {
  }

  /** The remainder of x by n is the r of any decomposition x == q * n + r with 0 <= r < n. */
  lemma ModOf(x: int, n: int, q: int, r: int)
    requires n > 0 && 0 <= r < n && x == q * n + r
    ensures x % n == r
  {
    var q2, r2 := x / n, x % n;
    assert x == q2 * n + r2;
    if q > q2 {
      assert (q - q2) * n == q * n - q2 * n;
      MulAtLeast(q - q2, n);
    } else if q < q2 {
      assert (q2 - q) * n == q2 * n - q * n;
      MulAtLeast(q2 - q, n);
    }
  }

  /** On an index in range, previous undoes next and next undoes previous. */
  lemma CycleUndo(i: nat, n: nat)
    requires i < n
    ensures Cycle(Cycle(i, n, Next), n, Previous) == i
    ensures Cycle(Cycle(i, n, Previous), n, Next) == i
  {
    ModOf(i, n, 0, i);
    ModOf(-1, n, -1, n - 1);
    ModOf(n, n, 1, 0);
    if i + 1 < n {
      ModOf(i + 1, n, 0, i + 1);
    }
    if i > 0 {
      ModOf(i - 1, n, 0, i - 1);
    }
  }

  /** Next moves one place forward and wraps from the last index to 0; previous wraps from 0 to the last. */
  lemma CycleWraps(i: nat, n: nat)
    requires i < n
    ensures Cycle(i, n, Next) == if i + 1 < n then i + 1 else 0
    ensures Cycle(i, n, Previous) == if i > 0 then i - 1 else n - 1
  {
    ModOf(-1, n, -1, n - 1);
    ModOf(n, n, 1, 0);
    if i + 1 < n {
      ModOf(i + 1, n, 0, i + 1);
    }
    if i > 0 {
      ModOf(i - 1, n, 0, i - 1);
    }
  }

  /** Pressing next k times. */
  function Advance(i: nat, n: nat, k: nat): nat
    requires n > 0
  {
    if k == 0 then i else Cycle(Advance(i, n, k - 1), n, Next)
  }

  /** k presses of next move k places forward, wrapping around. */
  lemma {:induction false} AdvanceMoves(i: nat, n: nat, k: nat)
    requires i < n
    ensures Advance(i, n, k) == (i + k) % n
  {
    if k == 0 {
      ModOf(i, n, 0, i);
    } else {
      var prev := Advance(i, n, k - 1);
      AdvanceMoves(i, n, k - 1);
      assert Advance(i, n, k) == (prev + 1) % n;
      ModSucc(i + k - 1, n);
    }
  }

  /** Taking the remainder before or after adding one gives the same index. */
  lemma ModSucc(x: nat, n: nat)
    requires n > 0
    ensures (x % n + 1) % n == (x + 1) % n
  {
    var q, j := x / n, x % n;
    assert x == q * n + j;
    if j + 1 < n {
      ModOf(j + 1, n, 0, j + 1);
      ModOf(x + 1, n, q, j + 1);
    } else {
      ModOf(j + 1, n, 1, 0);
      assert (q + 1) * n == q * n + n;
      ModOf(x + 1, n, q + 1, 0);
    }
  }

  /** n presses of next bring every choice back to itself, and no fewer do: the cycle visits all n. */
  lemma FullCycle(i: nat, n: nat)
    requires i < n
    ensures Advance(i, n, n) == i
    ensures forall k :: 0 < k < n ==> Advance(i, n, k) != i
  {
    AdvanceMoves(i, n, n);
    ModOf(i + n, n, 1, i);
    forall k | 0 < k < n
      ensures Advance(i, n, k) != i
    {
      AdvanceMoves(i, n, k);
      if i + k < n {
        ModOf(i + k, n, 0, i + k);
      } else {
        ModOf(i + k, n, 1, i + k - n);
      }
    }
  }

  // ---------------------------------------------------------------------
  // Stepping the selection

  /** Every colour of the configuration has at least one memory size. */
  predicate NoEmptyColor(config: Configuration) {
    forall c :: c in config.values ==> config.values[c].keys != []
  }

  /** `get_product_configuration` drops a colour left without variants. */
  lemma ConfigurationHasNoEmptyColor(rows: seq<Row>, model: string)
    ensures NoEmptyColor(ConfigurationOf(rows, model))
  {
    ConfigFromEntries(rows, model, ModelColors(rows, model));
  }

  /** How many memory sizes the colour at index ci offers. */
  function MemoryCount(config: Configuration, ci: nat): (n: nat)
    requires ConfigWf(config) && NoEmptyColor(config) && ci < |config.keys|
    ensures n > 0
  {
    |config.values[config.keys[ci]].keys|
  }

  function DirectionOf(action: string): Direction {
    if action == "next" then Next else Previous
  }

  /**
   * The selection update of the navigation handler as written: a colour
   * step cycles over the colours, a memory step cycles over the memory
   * sizes of the FIRST colour (`list(config.keys())[0]`), whatever colour
   * is selected; a list of one choice leaves the selection alone.
   */
  function StepAsWritten(config: Configuration, sel: Selection, action: string, axis: string): (r: Result<Selection>)
    requires ConfigWf(config)
    ensures r.Crash? <==> axis == "memory" && config.keys == []
    ensures r.Ok? && axis == "memory" ==> r.value.color == sel.color
    ensures r.Ok? && axis == "color" ==> r.value.memory == sel.memory
    ensures AlertsAsWritten(config, axis) ==> r == Ok(sel)
  {
    if axis == "color" then
      var n := |config.keys|;
      if n > 1 then Ok(sel.(color := Cycle(sel.color, n, DirectionOf(action)))) else Ok(sel)
    else if axis == "memory" then
      if config.keys == [] then Crash(IndexOutOfRange)
      else
        var n := |config.values[config.keys[0]].keys|;
        if n > 1 then Ok(sel.(memory := Cycle(sel.memory, n, DirectionOf(action)))) else Ok(sel)
    else Ok(sel)
  }

  /**
   * The alert of the navigation handler as written: the axis offers a
   * single choice, counting for memory the sizes of the FIRST colour.
   */
  predicate AlertsAsWritten(config: Configuration, axis: string)
    requires ConfigWf(config)
  {
    if axis == "color" then |config.keys| <= 1
    else axis == "memory" && config.keys != [] && |config.values[config.keys[0]].keys| <= 1
  }

  /** A card whose first colour has two memory sizes and whose second colour has one. */
  function UnevenCard(r1: Row, r2: Row, r3: Row): Configuration {
    Dict(["A", "B"], map["A" := Dict(["64", "128"], map["64" := r1, "128" := r2]),
                         "B" := Dict(["64"], map["64" := r3])])
  }

  /**
   * Three in-stock rows of one model, two sizes in colour A and one in
   * colour B, give exactly that card: the uneven card is one
   * `get_product_configuration` builds.
   */
  lemma UnevenCardFromCatalog(rows: seq<Row>, model: string)
    requires |rows| == 3
    requires forall i :: 0 <= i < 3 ==> rows[i].shortName == model && InStock(rows[i])
    requires rows[0].color == Some("A") && rows[1].color == Some("A") && rows[2].color == Some("B")
    requires rows[0].memory == "64" && rows[1].memory == "128" && rows[2].memory == "64"
    ensures ConfigurationOf(rows, model) == UnevenCard(rows[0], rows[1], rows[2])
  {
    var colors: seq<string> := ["A", "B"];
    ModelColorsOfUneven(rows, model);
    MemoryDictOfUnevenA(rows, model);
    MemoryDictOfUnevenB(rows, model);
    var da, db := MemoryDictOf(rows, model, "A"), MemoryDictOf(rows, model, "B");
    assert colors[..1] == ["A"] && colors[..1][..0] == [];
    var none: Configuration := EmptyDict();
    assert ConfigFrom(rows, model, colors[..1][..0]) == none;
    ConfigFromLast(rows, model, colors[..1]);
    ConfigFromLast(rows, model, colors);
    UnevenCardOfDicts(rows[0], rows[1], rows[2]);
  }

  /** Putting colour A's and then colour B's dict into an empty configuration gives the uneven card. */
  lemma UnevenCardOfDicts(r1: Row, r2: Row, r3: Row)
    ensures Put(Put(EmptyDict(), "A", Dict(["64", "128"], map["64" := r1, "128" := r2])), "B", Dict(["64"], map["64" := r3]))
         == UnevenCard(r1, r2, r3)
  {
    var none: Configuration := EmptyDict();
    var da, db := Dict(["64", "128"], map["64" := r1, "128" := r2]), Dict(["64"], map["64" := r3]);
    var c1 := Put(none, "A", da);
    assert c1 == Dict(["A"], map["A" := da]);
    assert "A" != "B";
  }

  lemma ConfigFromLast(rows: seq<Row>, model: string, colors: seq<string>)
    requires colors != []
    ensures var c := colors[|colors| - 1];
      ConfigFrom(rows, model, colors)
      == if MemoryDictOf(rows, model, c).keys != [] then Put(ConfigFrom(rows, model, colors[..|colors| - 1]), c, MemoryDictOf(rows, model, c))
         else ConfigFrom(rows, model, colors[..|colors| - 1])
  {
  }

  /** Colour A holds sizes 64 and 128, from the first two rows. */
  lemma MemoryDictOfUnevenA(rows: seq<Row>, model: string)
    requires |rows| == 3
    requires forall i :: 0 <= i < 3 ==> rows[i].shortName == model && InStock(rows[i])
    requires rows[0].color == Some("A") && rows[1].color == Some("A") && rows[2].color == Some("B")
    requires rows[0].memory == "64" && rows[1].memory == "128" && rows[2].memory == "64"
    ensures MemoryDictOf(rows, model, "A") == Dict(["64", "128"], map["64" := rows[0], "128" := rows[1]])
  {
    assert "A" != "B" && "64" != "128";
    var p1, p2 := rows[..1], rows[..2];
    assert rows[..2] == p2 && p2[..1] == p1 && p1[..0] == [];
    var none: MemoryDict := EmptyDict();
    assert MemoryDictOf(p1[..0], model, "A") == none;
    MemoryDictOfLast(p1, model, "A");
    MemoryDictOfLast(p2, model, "A");
    MemoryDictOfLast(rows, model, "A");
    assert !Matches(rows[2], model, "A");
    TwoSizes(rows[0], rows[1]);
  }

  /** Storing sizes 64 and then 128 into an empty memory dict lists them in that order. */
  lemma TwoSizes(r1: Row, r2: Row)
    ensures Put(Put(EmptyDict(), "64", r1), "128", r2) == Dict(["64", "128"], map["64" := r1, "128" := r2])
  {
    var none: MemoryDict := EmptyDict();
    var a1 := Put(none, "64", r1);
    assert a1 == Dict(["64"], map["64" := r1]);
    assert "64" != "128";
  }

  /** Colour B holds size 64, from the third row. */
  lemma MemoryDictOfUnevenB(rows: seq<Row>, model: string)
    requires |rows| == 3
    requires forall i :: 0 <= i < 3 ==> rows[i].shortName == model && InStock(rows[i])
    requires rows[0].color == Some("A") && rows[1].color == Some("A") && rows[2].color == Some("B")
    requires rows[0].memory == "64" && rows[1].memory == "128" && rows[2].memory == "64"
    ensures MemoryDictOf(rows, model, "B") == Dict(["64"], map["64" := rows[2]])
  {
    assert "A" != "B";
    var p1, p2 := rows[..1], rows[..2];
    assert rows[..2] == p2 && p2[..1] == p1 && p1[..0] == [];
    var none: MemoryDict := EmptyDict();
    assert MemoryDictOf(p1[..0], model, "B") == none;
    MemoryDictOfLast(p1, model, "B");
    MemoryDictOfLast(p2, model, "B");
    MemoryDictOfLast(rows, model, "B");
    assert !Matches(rows[0], model, "B") && !Matches(rows[1], model, "B");
  }

  lemma MemoryDictOfLast(rows: seq<Row>, model: string, color: string)
    requires rows != []
    ensures var r := rows[|rows| - 1];
      MemoryDictOf(rows, model, color)
      == if Matches(r, model, color) && InStock(r) then Put(MemoryDictOf(rows[..|rows| - 1], model, color), r.memory, r)
         else MemoryDictOf(rows[..|rows| - 1], model, color)
  {
  }

  /** The model's colours in those three rows are A then B. */
  lemma ModelColorsOfUneven(rows: seq<Row>, model: string)
    requires |rows| == 3
    requires forall i :: 0 <= i < 3 ==> rows[i].shortName == model
    requires rows[0].color == Some("A") && rows[1].color == Some("A") && rows[2].color == Some("B")
    ensures ModelColors(rows, model) == ["A", "B"]
  {
    assert "A" != "B";
    var col := ColorColumn(rows, model);
    assert col == [Some("A"), Some("A"), Some("B")];
    var q1, q2 := col[..1], col[..2];
    assert col[..2] == q2 && q2[..1] == q1 && q1[..0] == [];
    assert DistinctPresent(q1) == ["A"];
    assert DistinctPresent(q2) == ["A"];
  }

  /** On that catalog, the as-written memory step selects a size the second colour does not have. */
  lemma StepAsWrittenLeavesCatalogCard(rows: seq<Row>, model: string)
    requires |rows| == 3
    requires forall i :: 0 <= i < 3 ==> rows[i].shortName == model && InStock(rows[i])
    requires rows[0].color == Some("A") && rows[1].color == Some("A") && rows[2].color == Some("B")
    requires rows[0].memory == "64" && rows[1].memory == "128" && rows[2].memory == "64"
    ensures var config := ConfigurationOf(rows, model);
      && ConfigWf(config)
      && ValidIndices(config, 1, 0)
      && StepAsWritten(config, Selection(1, 0), "next", "memory") == Ok(Selection(1, 1))
      && !ValidIndices(config, 1, 1)
  {
    UnevenCardFromCatalog(rows, model);
    StepAsWrittenLeavesCard(rows[0], rows[1], rows[2]);
  }

  /**
   * As written, selecting the second colour and pressing "next memory"
   * counts the first colour's two sizes and selects a size the second
   * colour does not have; so does moving from the first colour's second
   * size to the next colour. The card then cannot be shown.
   */
  lemma StepAsWrittenLeavesCard(r1: Row, r2: Row, r3: Row)
    ensures ConfigWf(UnevenCard(r1, r2, r3))
    ensures ValidIndices(UnevenCard(r1, r2, r3), 1, 0)
    ensures StepAsWritten(UnevenCard(r1, r2, r3), Selection(1, 0), "next", "memory") == Ok(Selection(1, 1))
    ensures StepAsWritten(UnevenCard(r1, r2, r3), Selection(0, 1), "next", "color") == Ok(Selection(1, 1))
    ensures ValidIndices(UnevenCard(r1, r2, r3), 0, 1) && !ValidIndices(UnevenCard(r1, r2, r3), 1, 1)
  {
    var config := UnevenCard(r1, r2, r3);
    assert "A" != "B" && "64" != "128";
    assert config.keys[0] == "A" && config.keys[1] == "B";
    assert |config.values["A"].keys| == 2 && |config.values["B"].keys| == 1;
    assert Cycle(0, 2, Next) == 1;
  }

  /**
   * As written, the second colour's single size raises no alert, because
   * the first colour has two; the corrected alert counts the selected
   * colour's sizes and fires.
   */
  lemma AlertAsWrittenMissesSingleSize(r1: Row, r2: Row, r3: Row)
    ensures ConfigWf(UnevenCard(r1, r2, r3)) && NoEmptyColor(UnevenCard(r1, r2, r3))
    ensures !AlertsAsWritten(UnevenCard(r1, r2, r3), "memory")
    ensures Alerts(UnevenCard(r1, r2, r3), Selection(1, 0), "memory")
  {
    var config := UnevenCard(r1, r2, r3);
    assert "A" != "B" && "64" != "128";
    assert config.keys[0] == "A" && config.keys[1] == "B";
    assert |config.values["A"].keys| == 2 && |config.values["B"].keys| == 1;
  }

  /** A selection that names a colour and one of its memory sizes; otherwise the first colour's first size. */
  function Normalize(config: Configuration, sel: Selection): (r: Selection)
    requires ConfigWf(config) && NoEmptyColor(config) && config.keys != []
    ensures ValidIndices(config, r.color, r.memory)
    ensures ValidIndices(config, sel.color, sel.memory) ==> r == sel
  {
    if ValidIndices(config, sel.color, sel.memory) then sel
    else if sel.color < |config.keys| then Selection(sel.color, 0)
    else Selection(0, 0)
  }

  /**
   * The alert "only this colour / size is available": the axis offers a
   * single choice (for memory, among the sizes of the selected colour).
   */
  predicate Alerts(config: Configuration, sel: Selection, axis: string)
    requires ConfigWf(config) && NoEmptyColor(config)
  {
    if axis == "color" then |config.keys| <= 1
    else if axis == "memory" then config.keys == [] || MemoryCount(config, Normalize(config, sel).color) <= 1
    else false
  }

  /**
   * The selection update as intended: a memory step cycles over the sizes
   * of the selected colour, and a colour step keeps the memory index only
   * when the new colour has that many sizes.
   */
  function Step(config: Configuration, sel: Selection, action: string, axis: string): (r: Selection)
    requires ConfigWf(config) && NoEmptyColor(config)
    ensures config.keys != [] ==> ValidIndices(config, r.color, r.memory)
    ensures config.keys != [] && axis == "memory" ==> r.color == Normalize(config, sel).color
    ensures config.keys != [] && axis == "color" && |config.keys| > 1 ==>
      r.color == Cycle(sel.color, |config.keys|, DirectionOf(action))
    ensures config.keys != [] && axis == "memory" && !Alerts(config, sel, axis) ==>
      r.memory == Cycle(Normalize(config, sel).memory, MemoryCount(config, r.color), DirectionOf(action))
    ensures config.keys != [] && Alerts(config, sel, axis) ==> r == Normalize(config, sel)
  {
    if config.keys == [] then sel
    else
      var base := Normalize(config, sel);
      if axis == "color" && |config.keys| > 1 then
        var c := Cycle(sel.color, |config.keys|, DirectionOf(action));
        Selection(c, if sel.memory < MemoryCount(config, c) then sel.memory else 0)
      else if axis == "memory" then
        var n := MemoryCount(config, base.color);
        if n > 1 then base.(memory := Cycle(base.memory, n, DirectionOf(action))) else base
      else base
  }

  /** On a valid selection, "previous memory" undoes "next memory" and the colour stays. */
  lemma StepMemoryUndo(config: Configuration, sel: Selection)
    requires ConfigWf(config) && NoEmptyColor(config)
    requires ValidIndices(config, sel.color, sel.memory)
    ensures Step(config, sel, "next", "memory").color == sel.color
    ensures Step(config, Step(config, sel, "next", "memory"), "previous", "memory") == sel
  {
    var n := MemoryCount(config, sel.color);
    if n > 1 {
      CycleUndo(sel.memory, n);
    }
  }

  /** Every colour offers as many memory sizes as the first one. */
  predicate Uniform(config: Configuration)
    requires ConfigWf(config) && NoEmptyColor(config)
  {
    forall ci :: 0 < ci < |config.keys| ==> MemoryCount(config, ci) == MemoryCount(config, 0)
  }

  /**
   * On a card whose colours all offer the same number of sizes, the
   * corrected step and the step as written agree on every valid selection.
   */
  lemma StepAgreesOnUniformCards(config: Configuration, sel: Selection, action: string, axis: string)
    requires ConfigWf(config) && NoEmptyColor(config) && Uniform(config)
    requires ValidIndices(config, sel.color, sel.memory)
    ensures StepAsWritten(config, sel, action, axis) == Ok(Step(config, sel, action, axis))
  {
    assert MemoryCount(config, sel.color) == MemoryCount(config, 0);
    if axis == "color" && |config.keys| > 1 {
      var c := Cycle(sel.color, |config.keys|, DirectionOf(action));
      assert MemoryCount(config, c) == MemoryCount(config, 0);
    }
  }

  // ---------------------------------------------------------------------
  // The product card

  /** What a card shows: the colour and memory labels, the variant, and its keyboard. */
  datatype Card = Card(color: string, memory: string, product: Row, keyboard: Keyboard)

  /**
   * r is the card of the model at this selection: shown exactly when both
   * indices exist, and then the selected variant with its keyboard.
   */
  predicate ShowsCard(rows: seq<Row>, model: string, sel: Selection, r: Result<Card>) {
    var config := ConfigurationOf(rows, model);
    && ConfigWf(config)
    && (r.Ok? <==> ValidIndices(config, sel.color, sel.memory))
    && (r.Ok? ==>
          && r.value.color == config.keys[sel.color]
          && r.value.memory == config.values[r.value.color].keys[sel.memory]
          && r.value.product == VariantAt(config, sel.color, sel.memory)
          && Buttons(r.value.keyboard) == CardButtons(model, r.value.product))
  }

  /**
   * The rendering both model handlers share: `colors[ci]`, then
   * `memory_sizes[mi]` (either raises IndexError), then the variant and
   * the card keyboard.
   */
  method RenderCard(rows: seq<Row>, model: string, sel: Selection) returns (r: Result<Card>)
    ensures ShowsCard(rows, model, sel, r)
  {
    var config := GetProductConfiguration(rows, model);
    ConfigurationWf(rows, model);
    var colors := config.keys;
    if sel.color >= |colors| {
      return Crash(IndexOutOfRange);
    }
    var color := colors[sel.color];
    var memories := config.values[color].keys;
    if sel.memory >= |memories| {
      return Crash(IndexOutOfRange);
    }
    var memory := memories[sel.memory];
    var product := config.values[color].values[memory];
    var kb := CreateProductConfiguration(config, model, sel.color, sel.memory);
    r := Ok(Card(color, memory, product, kb.value));
  }

  /** The per-user selections of the product cards (`user_choice`). */
  class SelectionStore {
    var choice: map<UserId, Selection>

    constructor ()
      ensures choice == map[]
    {
      choice := map[];
    }

    /**
     * The handler that answers a model_ token: the user's selection is
     * reset to the first colour and size, and the card is sent; a model
     * with nothing in stock has no first colour and raises IndexError.
     */
    method OpenModel(rows: seq<Row>, user: UserId, data: string) returns (r: Result<Card>)
      requires |data| >= 6 && data[..6] == "model_"
      modifies this
      ensures choice == old(choice)[user := Selection(0, 0)]
      ensures ShowsCard(rows, ModelOfToken(data), Selection(0, 0), r)
      ensures r.Crash? <==> ConfigurationOf(rows, ModelOfToken(data)).keys == []
    {
      var model := ModelOfToken(data);
      choice := choice[user := Selection(0, 0)];
      ConfigurationHasNoEmptyColor(rows, model);
      r := RenderCard(rows, model, choice[user]);
    }

    /**
     * The handler of the four arrow tokens: a user with a selection has it
     * stepped along the token's axis (with the corrected step), or is
     * alerted that the axis offers one choice; the card is redrawn at the
     * user's selection, or at the first colour and size for a user
     * without one.
     */
    method Navigate(rows: seq<Row>, user: UserId, data: string) returns (alert: bool, r: Result<Card>)
      modifies this
      ensures |Split(data, '_')| < 2 ==> r.Crash? && !alert && choice == old(choice)
      ensures |Split(data, '_')| >= 2 ==>
        var request := DecodeNav(data);
        var config := ConfigurationOf(rows, request.model);
        && ConfigWf(config) && NoEmptyColor(config)
        && choice == (if user in old(choice)
                      then old(choice)[user := Step(config, old(choice)[user], request.action, request.axis)]
                      else old(choice))
        && (alert <==> user in old(choice) && Alerts(config, old(choice)[user], request.axis))
        && ShowsCard(rows, request.model, if user in choice then choice[user] else Selection(0, 0), r)
        && (r.Crash? <==> config.keys == [])
    {
      var parts := Split(data, '_');
      if |parts| < 2 {
        return false, Crash(IndexOutOfRange);
      }
      var request := DecodeNav(data);
      var config := GetProductConfiguration(rows, request.model);
      ConfigurationWf(rows, request.model);
      ConfigurationHasNoEmptyColor(rows, request.model);
      alert := false;
      if user in choice {
        alert := Alerts(config, choice[user], request.axis);
        choice := choice[user := Step(config, choice[user], request.action, request.axis)];
      }
      var sel := if user in choice then choice[user] else Selection(0, 0);
      r := RenderCard(rows, request.model, sel);
    }
  }

  // ---------------------------------------------------------------------
  // Buying, /start and /clear_cart

  /**
   * `buy_callback_handler`: the product named by the token's last field,
   * whose order notice goes to the shop's administrator. A non-integer
   * field, an unknown id and a category missing from the display table
   * each raise.
   */
  function BuyNotice(rows: seq<Row>, data: string): (r: Result<Row>)
    ensures r.Ok? <==>
      && IntOfLastField(data).Ok?
      && FindById(rows, IntOfLastField(data).value).Some?
      && FindById(rows, IntOfLastField(data).value).value.category.Some?
      && FindById(rows, IntOfLastField(data).value).value.category.value in DisplayCategories
    ensures r.Ok? ==> r.value in rows && r.value.id == IntOfLastField(data).value
  {
    match IntOfLastField(data)
    case Crash(f) => Crash(f)
    case Ok(id) =>
      match FindById(rows, id)
      case None => Crash(ProductMissing)
      case Some(p) =>
        if p.category.Some? && p.category.value in DisplayCategories then Ok(p) else Crash(UnknownCategory)
  }

  /** Catalog ids are a primary key. */
  predicate UniqueIds(rows: seq<Row>) {
    forall i, j :: 0 <= i < j < |rows| ==> rows[i].id != rows[j].id
  }

  /** The buy button of a product's card orders that product. */
  lemma BuyButtonOrdersProduct(rows: seq<Row>, p: Row)
    requires UniqueIds(rows) && p in rows
    requires p.category.Some? && p.category.value in DisplayCategories
    ensures BuyNotice(rows, BuyToken(p.id)) == Ok(p)
  {
    BuyTokenRoundTrip(p.id);
    var i :| 0 <= i < |rows| && rows[i] == p;
    var found := FindById(rows, p.id);
    assert found.Some?;
    var j :| 0 <= j < |rows| && rows[j] == found.value && rows[j].id == p.id
             && forall k :: 0 <= k < j ==> rows[k].id != p.id;
    assert i == j;
  }

  /** Python truthiness of an optional profile field: missing or empty becomes "None". */
  function OrNone(field: Option<string>): string {
    if field.Some? && field.value != "" then field.value else "None"
  }

  /** `/start`: register or refresh the user, with "None" for a missing name. */
  method StartCommand(store: CartStore, user: UserId, username: Option<string>,
                      firstName: Option<string>, lastName: Option<string>, now: int)
    requires store.Valid()
    modifies store
    ensures store.Valid()
    ensures user in store.users
    ensures store.users[user].username == OrNone(username) && store.users[user].username != ""
    ensures store.users[user].firstName == OrNone(firstName) && store.users[user].lastName == OrNone(lastName)
    ensures store.users[user].createdAt == if user in old(store.users) then old(store.users)[user].createdAt else now
    ensures store.users == old(store.users)[user := User(OrNone(username), OrNone(firstName), OrNone(lastName),
                                          if user in old(store.users) then old(store.users)[user].createdAt else now)]
    ensures store.entries == old(store.entries) && store.nextId == old(store.nextId)
  {
    store.AddUser(user, OrNone(username), OrNone(firstName), OrNone(lastName), now);
  }

  /** `/clear_cart`: the user's cart becomes empty and nobody else's changes. */
  method ClearCartCommand(store: CartStore, user: UserId)
    requires store.Valid()
    modifies store
    ensures store.Valid()
    ensures CartOf(store.entries, user) == []
    ensures forall v :: v != user ==> CartOf(store.entries, v) == old(CartOf(store.entries, v))
    ensures store.users == old(store.users)
  {
    store.ClearCart(user);
  }
}
