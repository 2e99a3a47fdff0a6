/**
 * aiogram 2's InlineKeyboardMarkup as a value: rows of buttons, each
 * carrying a callback token, and the three ways the builders extend it.
 */
module Markup {

  datatype Button = Button(text: string, token: string)

  /** The markup's row_width: how many buttons `insert` packs into one row. */
  type Width = w: nat | w > 0 witness 3

  /** `InlineKeyboardMarkup()` uses a row width of 3. */
  const DefaultWidth: Width := 3

  datatype Keyboard = Keyboard(rowWidth: Width, rows: seq<seq<Button>>)

  function Empty(w: Width): Keyboard {
    Keyboard(w, [])
  }

  /** Every row holds at least one and at most rowWidth buttons. */
  predicate Packed(kb: Keyboard) {
    forall i :: 0 <= i < |kb.rows| ==> 0 < |kb.rows[i]| <= kb.rowWidth
  }

  function Flatten(rows: seq<seq<Button>>): seq<Button> {
    if rows == [] then [] else Flatten(rows[..|rows| - 1]) + rows[|rows| - 1]
  }

  /** The buttons of a keyboard, row by row, left to right. */
  function Buttons(kb: Keyboard): seq<Button> {
    Flatten(kb.rows)
  }

  lemma FlattenAppend(rows: seq<seq<Button>>, row: seq<Button>)
    ensures Flatten(rows + [row]) == Flatten(rows) + row
  {
    assert (rows + [row])[..|rows|] == rows;
  }

  lemma FlattenUpdateLast(rows: seq<seq<Button>>, b: Button)
    requires rows != []
    ensures Flatten(rows[|rows| - 1 := rows[|rows| - 1] + [b]]) == Flatten(rows) + [b]
  {
    var n := |rows|;
    var rows' := rows[n - 1 := rows[n - 1] + [b]];
    assert rows'[..n - 1] == rows[..n - 1];
  }

  /** `markup.row(*buttons)`: the buttons become one new row. */
  function AddRow(kb: Keyboard, row: seq<Button>): (r: Keyboard)
    ensures Buttons(r) == Buttons(kb) + row
    ensures |r.rows| == |kb.rows| + 1 && r.rows[|kb.rows|] == row
    ensures r.rowWidth == kb.rowWidth
    ensures Packed(kb) && 0 < |row| <= kb.rowWidth ==> Packed(r)
  {
    FlattenAppend(kb.rows, row);
    kb.(rows := kb.rows + [row])
  }

  /** `markup.add(button)` with a single button: it opens a row of its own. */
  function Add(kb: Keyboard, b: Button): (r: Keyboard)
    ensures Buttons(r) == Buttons(kb) + [b]
    ensures |r.rows| == |kb.rows| + 1 && r.rows[|kb.rows|] == [b]
    ensures r.rowWidth == kb.rowWidth
    ensures Packed(kb) ==> Packed(r)
  {
    AddRow(kb, [b])
  }

  /**
   * `markup.insert(button)`: the button joins the last row while that row
   * is shorter than the row width, and otherwise opens a new row.
   */
  function Insert(kb: Keyboard, b: Button): (r: Keyboard)
    ensures Buttons(r) == Buttons(kb) + [b]
    ensures kb.rows == [] ==> |r.rows| == 1
    ensures kb.rows != [] ==> |kb.rows| <= |r.rows| <= |kb.rows| + 1
    ensures r.rowWidth == kb.rowWidth
    ensures Packed(kb) ==> Packed(r)
  {
    var n := |kb.rows|;
    if n > 0 && |kb.rows[n - 1]| < kb.rowWidth then
      FlattenUpdateLast(kb.rows, b);
      kb.(rows := kb.rows[n - 1 := kb.rows[n - 1] + [b]])
    else
      Add(kb, b)
  }

  /**
   * `insert` extends the last row while it has room, and otherwise opens a
   * row holding just the new button.
   */
  lemma InsertShape(kb: Keyboard, b: Button)
    ensures var r := Insert(kb, b);
      && r.rows != []
      && if kb.rows != [] && |kb.rows[|kb.rows| - 1]| < kb.rowWidth
         then |r.rows| == |kb.rows| && |r.rows[|r.rows| - 1]| == |kb.rows[|kb.rows| - 1]| + 1
         else |r.rows| == |kb.rows| + 1 && r.rows[|r.rows| - 1] == [b]
  {
  }
}
