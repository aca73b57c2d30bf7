/**
 * The dish/cook many-to-many association as a junction table: a set of
 * (dish id, cook id) rows. A dish's cooks and a cook's dishes (the reverse
 * accessor `dishes`) are both read off the same rows.
 */
module Junction {

  /** The ids of the cooks associated with `dish`. */
  function CooksOf(rows: set<(nat, nat)>, dish: nat): (r: set<nat>)
    ensures forall c :: c in r <==> (dish, c) in rows
  {
    set row | row in rows && row.0 == dish :: row.1
  }

  /** The ids of the dishes associated with `cook`. */
  function DishesOf(rows: set<(nat, nat)>, cook: nat): (r: set<nat>)
    ensures forall d :: d in r <==> (d, cook) in rows
  {
    set row | row in rows && row.1 == cook :: row.0
  }

  /** The rows left after a cook is removed: all rows naming it are gone. */
  function WithoutCook(rows: set<(nat, nat)>, cook: nat): (r: set<(nat, nat)>)
    ensures forall row :: row in r <==> row in rows && row.1 != cook
  {
    set row | row in rows && row.1 != cook
  }

  /** The rows left after a dish is removed: all rows naming it are gone. */
  function WithoutDish(rows: set<(nat, nat)>, dish: nat): (r: set<(nat, nat)>)
    ensures forall row :: row in r <==> row in rows && row.0 != dish
  {
    set row | row in rows && row.0 != dish
  }

  /** The rows after `dish`'s cook set is replaced wholesale by `cooks`. */
  function WithCooks(rows: set<(nat, nat)>, dish: nat, cooks: set<nat>): set<(nat, nat)>
  {
    WithoutDish(rows, dish) + set c | c in cooks :: (dish, c)
  }

  /** Removing a cook takes it out of every dish's cook set and changes nothing else about them. */
  lemma DetachCook(rows: set<(nat, nat)>, cook: nat, dish: nat)
    ensures CooksOf(WithoutCook(rows, cook), dish) == CooksOf(rows, dish) - {cook}
    ensures DishesOf(WithoutCook(rows, cook), cook) == {}
  {
  }

  /** Removing a dish drops its own rows only: the cook sets of other dishes are as before. */
  lemma DetachDish(rows: set<(nat, nat)>, dish: nat, other: nat, cook: nat)
    ensures CooksOf(WithoutDish(rows, dish), dish) == {}
    ensures other != dish ==> CooksOf(WithoutDish(rows, dish), other) == CooksOf(rows, other)
    ensures DishesOf(WithoutDish(rows, dish), cook) == DishesOf(rows, cook) - {dish}
  {
  }

  /**
   * Setting a dish's cooks makes them exactly the given set (no earlier cook
   * remains) and leaves every other dish's cooks alone.
   */
  lemma ReplaceCooks(rows: set<(nat, nat)>, dish: nat, cooks: set<nat>, other: nat)
    ensures CooksOf(WithCooks(rows, dish, cooks), dish) == cooks
    ensures other != dish ==> CooksOf(WithCooks(rows, dish, cooks), other) == CooksOf(rows, other)
  {
    var r := WithCooks(rows, dish, cooks);
    forall c | c in cooks ensures (dish, c) in r {
      assert (dish, c) in set c' | c' in cooks :: (dish, c');
    }
  }
}
