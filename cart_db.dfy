/**
 * The SQLite cart store: a `users` table keyed by Telegram user id and a
 * `cart` table of (AUTOINCREMENT id, user_id, product_id) rows. A scan of
 * the cart table returns rows in rowid order, which for an AUTOINCREMENT
 * key is insertion order; the model keeps the rows as a sequence in that
 * order. Each function of the source opens a connection, runs one
 * statement and commits; here each is one method of `CartStore`.
 */
module CartDb {
  import opened Common
  import opened Seqs

  /** A row of the cart table. No uniqueness constraint besides the id. */
  datatype Entry = Entry(id: nat, userId: UserId, productId: ProductId)

  /** A row of the users table; createdAt is the timestamp of the first insert. */
  datatype User = User(username: string, firstName: string, lastName: string, createdAt: int)

  /** `SELECT product_id FROM cart WHERE user_id = u`, in table order. */
  function CartOf(es: seq<Entry>, u: UserId): seq<ProductId> {
    if es == [] then []
    else
      var last := es[|es| - 1];
      CartOf(es[..|es| - 1], u) + (if last.userId == u then [last.productId] else [])
  }

  /** `SELECT COUNT(*) FROM cart WHERE user_id = u`: how many rows belong to u. */
  function CountOf(es: seq<Entry>, u: UserId): nat {
    |RowsOf(es, u)|
  }

  /** The positions of u's rows in the table. */
  function RowsOf(es: seq<Entry>, u: UserId): set<nat> {
    set i | 0 <= i < |es| && es[i].userId == u
  }

  /** `DELETE FROM cart WHERE user_id = u AND product_id = p` */
  function Without(es: seq<Entry>, u: UserId, p: ProductId): seq<Entry> {
    if es == [] then []
    else
      var last := es[|es| - 1];
      Without(es[..|es| - 1], u, p) + (if last.userId == u && last.productId == p then [] else [last])
  }

  /** `DELETE FROM cart WHERE user_id = u` */
  function WithoutUser(es: seq<Entry>, u: UserId): seq<Entry> {
    if es == [] then []
    else
      var last := es[|es| - 1];
      WithoutUser(es[..|es| - 1], u) + (if last.userId == u then [] else [last])
  }

  /** A list of product ids with every occurrence of p taken out, the rest in order. */
  function Erase(ps: seq<ProductId>, p: ProductId): (r: seq<ProductId>)
    ensures |r| <= |ps|
  {
    if ps == [] then []
    else Erase(ps[..|ps| - 1], p) + (if ps[|ps| - 1] == p then [] else [ps[|ps| - 1]])
  }

  /** Erase removes p entirely and keeps every other product with its multiplicity. */
  lemma {:induction false} EraseEffect(ps: seq<ProductId>, p: ProductId)
    ensures p !in Erase(ps, p)
    ensures forall q :: q != p ==> multiset(Erase(ps, p))[q] == multiset(ps)[q]
  {
    if ps != [] {
      var init, last := ps[..|ps| - 1], ps[|ps| - 1];
      assert ps == init + [last];
      EraseEffect(init, p);
    }
  }

  lemma EraseAppend(ps: seq<ProductId>, x: ProductId, p: ProductId)
    ensures Erase(ps + [x], p) == Erase(ps, p) + (if x == p then [] else [x])
  {
    assert (ps + [x])[..|ps|] == ps;
  }

  /** Row ids grow along the table: the table order is insertion order. */
  predicate IdsIncreasing(es: seq<Entry>) {
    forall i, j :: 0 <= i < j < |es| ==> es[i].id < es[j].id
  }

  /** Every row's id is below `n`: `n` is still free for the next row. */
  predicate IdsBelow(es: seq<Entry>, n: nat) {
    forall i :: 0 <= i < |es| ==> es[i].id < n
  }

  /** A row whose id exceeds all earlier ones extends an increasing table. */
  lemma IncreasingAppend(es: seq<Entry>, e: Entry)
    requires IdsIncreasing(es) && IdsBelow(es, e.id)
    ensures IdsIncreasing(es + [e]) && IdsBelow(es + [e], e.id + 1)
  {
  }

  lemma CartOfAppend(es: seq<Entry>, e: Entry, v: UserId)
    ensures CartOf(es + [e], v) == CartOf(es, v) + (if e.userId == v then [e.productId] else [])
  {
    assert (es + [e])[..|es|] == es;
  }

  /** The count of u's rows is the length of u's cart. */
  lemma {:induction false} CountIsCartLength(es: seq<Entry>, u: UserId)
    ensures CountOf(es, u) == |CartOf(es, u)|
  {
    if es != [] {
      CountIsCartLength(es[..|es| - 1], u);
      CountStep(es, u);
    }
  }

  /** The positions of u's rows: those before the last row, and the last one if it is u's. */
  lemma RowsOfStep(es: seq<Entry>, u: UserId)
    requires es != []
    ensures RowsOf(es, u) == RowsOf(es[..|es| - 1], u) + (if es[|es| - 1].userId == u then {|es| - 1} else {})
  {
    var n := |es|;
    var init := es[..n - 1];
    forall i | 0 <= i < n - 1
      ensures init[i] == es[i]
    {
    }
  }

  /** The last row adds one to its own user's count and nothing to anyone else's. */
  lemma CountStep(es: seq<Entry>, u: UserId)
    requires es != []
    ensures CountOf(es, u) == CountOf(es[..|es| - 1], u) + (if es[|es| - 1].userId == u then 1 else 0)
  {
    RowsOfStep(es, u);
    assert |es| - 1 !in RowsOf(es[..|es| - 1], u);
  }

  /**
   * The ids listed so far are the keys no longer remaining, ascending, and
   * each below every remaining key.
   */
  ghost predicate Listed(keys: set<UserId>, remaining: set<UserId>, ids: seq<UserId>) {
    && (forall x :: x in ids <==> x in keys && x !in remaining)
    && (forall i, j :: 0 <= i < j < |ids| ==> ids[i] < ids[j])
    && (forall i, y :: 0 <= i < |ids| && y in remaining ==> ids[i] < y)
  }

  /** Listing the least remaining key keeps the listing ascending. */
  lemma ListNext(keys: set<UserId>, remaining: set<UserId>, ids: seq<UserId>, m: UserId)
    requires Listed(keys, remaining, ids) && remaining <= keys
    requires m in remaining && forall y :: y in remaining ==> m <= y
    ensures Listed(keys, remaining - {m}, ids + [m])
    ensures remaining - {m} <= keys && |remaining - {m}| < |remaining|
  {
    var ids', rest := ids + [m], remaining - {m};
    forall i, j | 0 <= i < j < |ids'|
      ensures ids'[i] < ids'[j]
    {
      if j == |ids| {
        assert ids'[i] == ids[i];
      }
    }
    forall i, y | 0 <= i < |ids'| && y in rest
      ensures ids'[i] < y
    {
      if i < |ids| {
        assert ids'[i] == ids[i];
      }
    }
  }

  /** Deleting (u, p) rows erases p from u's cart and leaves every other cart as it was. */
  lemma {:induction false} CartOfWithout(es: seq<Entry>, u: UserId, p: ProductId, v: UserId)
    ensures CartOf(Without(es, u, p), v) == if v == u then Erase(CartOf(es, v), p) else CartOf(es, v)
  {
    if es != [] {
      var init, last := es[..|es| - 1], es[|es| - 1];
      var rest := Without(init, u, p);
      CartOfWithout(init, u, p, v);
      if last.userId != v {
        assert CartOf(es, v) == CartOf(init, v);
        if last.userId == u && last.productId == p {
          assert Without(es, u, p) == rest;
        } else {
          assert Without(es, u, p) == rest + [last];
          CartOfAppend(rest, last, v);
        }
      } else {
        assert CartOf(es, v) == CartOf(init, v) + [last.productId];
        if last.userId == u && last.productId == p {
          assert Without(es, u, p) == rest;
          EraseAppend(CartOf(init, v), p, p);
        } else {
          assert Without(es, u, p) == rest + [last];
          CartOfAppend(rest, last, v);
          if v == u {
            EraseAppend(CartOf(init, v), last.productId, p);
          }
        }
      }
    }
  }

  /** Deleting all of u's rows empties u's cart and leaves every other cart as it was. */
  lemma {:induction false} CartOfWithoutUser(es: seq<Entry>, u: UserId, v: UserId)
    ensures CartOf(WithoutUser(es, u), v) == if v == u then [] else CartOf(es, v)
  {
    if es != [] {
      var init, last := es[..|es| - 1], es[|es| - 1];
      var rest := WithoutUser(init, u);
      CartOfWithoutUser(init, u, v);
      if last.userId == u {
        assert WithoutUser(es, u) == rest;
      } else {
        assert WithoutUser(es, u) == rest + [last];
        CartOfAppend(rest, last, v);
      }
    }
  }

  /** Adding the same product twice puts it in the cart twice: adds stack. */
  lemma AddsStack(es: seq<Entry>, e1: Entry, e2: Entry)
    requires e1.userId == e2.userId && e1.productId == e2.productId
    ensures CartOf(es + [e1] + [e2], e1.userId) == CartOf(es, e1.userId) + [e1.productId, e1.productId]
  {
    CartOfAppend(es, e1, e1.userId);
    CartOfAppend(es + [e1], e2, e1.userId);
  }

  /** Deleting rows keeps only rows of the table. */
  lemma {:induction false} WithoutKeepsRows(es: seq<Entry>, u: UserId, p: ProductId)
    ensures forall e :: e in Without(es, u, p) ==> e in es
    ensures forall e :: e in WithoutUser(es, u) ==> e in es
  {
    if es != [] {
      var init, last := es[..|es| - 1], es[|es| - 1];
      assert es == init + [last];
      WithoutKeepsRows(init, u, p);
    }
  }

  /** Deleting rows keeps every remaining id below a bound the table respected. */
  lemma {:induction false} WithoutBelow(es: seq<Entry>, u: UserId, p: ProductId, n: nat)
    requires IdsBelow(es, n)
    ensures IdsBelow(Without(es, u, p), n) && IdsBelow(WithoutUser(es, u), n)
  {
    if es != [] {
      var init := es[..|es| - 1];
      assert IdsBelow(init, n);
      WithoutBelow(init, u, p, n);
    }
  }

  /** Deleting rows keeps the remaining ones in table order. */
  lemma {:induction false} WithoutKeepsOrder(es: seq<Entry>, u: UserId, p: ProductId)
    requires IdsIncreasing(es)
    ensures IdsIncreasing(Without(es, u, p)) && IdsIncreasing(WithoutUser(es, u))
  {
    if es != [] {
      var init, last := es[..|es| - 1], es[|es| - 1];
      assert IdsIncreasing(init) && IdsBelow(init, last.id);
      WithoutKeepsOrder(init, u, p);
      WithoutBelow(init, u, p, last.id);
      IncreasingAppend(Without(init, u, p), last);
      IncreasingAppend(WithoutUser(init, u), last);
    }
  }

  class CartStore {
    /** The cart table, in rowid order. */
    var entries: seq<Entry>
    /** The users table, keyed by its INTEGER PRIMARY KEY. */
    var users: map<UserId, User>
    /** The AUTOINCREMENT counter: the id the next cart row receives. */
    var nextId: nat

    ghost predicate Valid()
      reads this
    {
      && IdsIncreasing(entries)
      && IdsBelow(entries, nextId)
    }

    /** `create_tables()`: both tables exist and are empty. */
    constructor ()
      ensures Valid() && entries == [] && users == map[]
    {
      entries := [];
      users := map[];
      nextId := 1;
    }

    /**
     * `add_user`: insert the user, or on a conflicting id overwrite the three
     * names and keep the row's creation time. `now` stands for SQLite's
     * CURRENT_TIMESTAMP.
     */
    method AddUser(id: UserId, username: string, firstName: string, lastName: string, now: int)
      requires Valid()
      modifies this
      ensures Valid()
      ensures users.Keys == old(users).Keys + {id}
      ensures users == old(users)[id := User(username, firstName, lastName,
                                             if id in old(users) then old(users)[id].createdAt else now)]
      ensures entries == old(entries) && nextId == old(nextId)
    {
      var createdAt := if id in users then users[id].createdAt else now;
      users := users[id := User(username, firstName, lastName, createdAt)];
    }

    /** `add_to_cart`: one new row (user, product) at the end of the table. */
    method AddToCart(user: UserId, product: ProductId)
      requires Valid()
      modifies this
      ensures Valid()
      ensures entries == old(entries) + [Entry(old(nextId), user, product)] && nextId == old(nextId) + 1
      ensures CartOf(entries, user) == old(CartOf(entries, user)) + [product]
      ensures forall v :: v != user ==> CartOf(entries, v) == old(CartOf(entries, v))
      ensures users == old(users)
    {
      CartOfAppend(entries, Entry(nextId, user, product), user);
      forall v | v != user
        ensures CartOf(entries + [Entry(nextId, user, product)], v) == CartOf(entries, v)
      {
        CartOfAppend(entries, Entry(nextId, user, product), v);
      }
      var e := Entry(nextId, user, product);
      IncreasingAppend(entries, e);
      entries := entries + [e];
      nextId := nextId + 1;
    }

    /** `get_cart`: the product ids of the user's rows, in table order. */
    method GetCart(user: UserId) returns (items: seq<ProductId>)
      ensures items == CartOf(entries, user)
    {
      items := [];
      var i := 0;
      while i < |entries|
        invariant 0 <= i <= |entries|
        invariant items == CartOf(entries[..i], user)
      {
        assert entries[..i + 1][..i] == entries[..i];
        if entries[i].userId == user {
          items := items + [entries[i].productId];
        }
        i := i + 1;
      }
      assert entries[..i] == entries;
    }

    /** `remove_from_cart`: every row of this user with this product goes, not just one. */
    method RemoveFromCart(user: UserId, product: ProductId)
      requires Valid()
      modifies this
      ensures Valid()
      ensures entries == Without(old(entries), user, product)
      ensures CartOf(entries, user) == Erase(old(CartOf(entries, user)), product)
      ensures product !in CartOf(entries, user)
      ensures forall v :: v != user ==> CartOf(entries, v) == old(CartOf(entries, v))
      ensures users == old(users) && nextId == old(nextId)
    {
      var rest := Without(entries, user, product);
      WithoutKeepsOrder(entries, user, product);
      WithoutBelow(entries, user, product, nextId);
      ghost var before := CartOf(entries, user);
      CartOfWithout(entries, user, product, user);
      EraseEffect(before, product);
      assert CartOf(rest, user) == Erase(before, product);
      forall v | v != user
        ensures CartOf(rest, v) == CartOf(entries, v)
      {
        CartOfWithout(entries, user, product, v);
      }
      entries := rest;
    }

    /** `clear_cart`: the user's cart becomes empty, every other cart is untouched. */
    method ClearCart(user: UserId)
      requires Valid()
      modifies this
      ensures Valid()
      ensures entries == WithoutUser(old(entries), user)
      ensures CartOf(entries, user) == []
      ensures forall v :: v != user ==> CartOf(entries, v) == old(CartOf(entries, v))
      ensures users == old(users) && nextId == old(nextId)
    {
      var rest := WithoutUser(entries, user);
      WithoutKeepsOrder(entries, user, 0);
      WithoutBelow(entries, user, 0, nextId);
      CartOfWithoutUser(entries, user, user);
      forall v | v != user
        ensures CartOf(rest, v) == CartOf(entries, v)
      {
        CartOfWithoutUser(entries, user, v);
      }
      entries := rest;
    }

    /** `get_cart_count`: the number of the user's rows, which is the length of `get_cart`. */
    method GetCartCount(user: UserId) returns (count: nat)
      ensures count == |CartOf(entries, user)|
    {
      count := CountOf(entries, user);
      CountIsCartLength(entries, user);
    }

    /**
     * `get_users_info`: every registered id once, in rowid order (ascending
     * ids), and their number.
     */
    method GetUsersInfo() returns (count: nat, ids: seq<UserId>)
      ensures count == |ids|
      ensures forall x :: x in ids <==> x in users
      ensures forall i, j :: 0 <= i < j < |ids| ==> ids[i] < ids[j]
    {
      ids := Ascending(users.Keys);
      count := |ids|;
    }
  }

  /** The least id of a non-empty set. */
  method Least(keys: set<UserId>) returns (m: UserId)
    requires keys != {}
    ensures m in keys && forall y :: y in keys ==> m <= y
  {
    MinimumExists(keys);
    m :| m in keys && forall y :: y in keys ==> m <= y;
  }

  /** The ids of a set in ascending order: the order a rowid scan returns them. */
  method Ascending(keys: set<UserId>) returns (ids: seq<UserId>)
    ensures forall x :: x in ids <==> x in keys
    ensures forall i, j :: 0 <= i < j < |ids| ==> ids[i] < ids[j]
  {
    var remaining := keys;
    ids := [];
    while remaining != {}
      invariant remaining <= keys
      invariant Listed(keys, remaining, ids)
      decreases |remaining|
    {
      var m := Least(remaining);
      ListNext(keys, remaining, ids, m);
      ids := ids + [m];
      remaining := remaining - {m};
    }
  }
}
