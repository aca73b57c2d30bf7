/**
 * The kitchen store: the DishType, Cook and Dish tables, keyed by id, and
 * the dish/cook junction table, with the create, delete and set-cooks
 * operations and the two ordered listings the models declare.
 *
 * Creating a row does not validate it (see `Models.CleanDish` and friends);
 * the store only keeps its references intact: a dish names an existing
 * DishType or none, and every junction row names an existing dish and cook.
 */
module Kitchen {
  import opened Wrappers
  import opened Text
  import opened Models
  import opened Junction
  import opened Sorting

  datatype StoreError =
    | NotFound        // the operation names a row that does not exist
    | IntegrityError  // the operation would leave a reference to a missing row

  /** The dish after its DishType `typeId` is deleted: a reference to it becomes null. */
  function ClearDishType(d: Dish, typeId: nat): (r: Dish)
    ensures r.dishType == (if d.dishType == Some(typeId) then None else d.dishType)
    ensures r.name == d.name && r.description == d.description && r.priceCents == d.priceCents
  {
    if d.dishType == Some(typeId) then d.(dishType := None) else d
  }

  /**
   * The Dish table after DishType `typeId` is deleted: every dish stays,
   * exactly those that referred to `typeId` now have no type, and nothing
   * else about any dish changes.
   */
  function WithDishTypeCleared(dishes: map<nat, Dish>, typeId: nat): (r: map<nat, Dish>)
    ensures r.Keys == dishes.Keys
    ensures forall id :: id in r ==> r[id] == ClearDishType(dishes[id], typeId)
    ensures forall id :: id in r ==> (r[id].dishType.None? <==> dishes[id].dishType in {None, Some(typeId)})
    ensures forall id :: id in r && dishes[id].dishType != Some(typeId) ==> r[id] == dishes[id]
    ensures forall id :: id in r ==> r[id].dishType != Some(typeId)
  {
    map id | id in dishes :: ClearDishType(dishes[id], typeId)
  }

  /** The dish ordering: by price, most expensive first. */
  predicate PriceDescending(a: (nat, Dish), b: (nat, Dish))
  {
    a.1.priceCents >= b.1.priceCents
  }

  /** The dish-type ordering: by name, in code-point order. */
  predicate NameAscending(a: (nat, DishType), b: (nat, DishType))
  {
    LexLe(a.1.name, b.1.name)
  }

  lemma PriceDescendingIsTotalPreorder()
    ensures TotalPreorder(PriceDescending)
  {
  }

  lemma NameAscendingIsTotalPreorder()
    ensures TotalPreorder(NameAscending)
  {
    forall a: (nat, DishType), b: (nat, DishType) ensures NameAscending(a, b) || NameAscending(b, a) {
      LexLeTotal(a.1.name, b.1.name);
    }
    forall a: (nat, DishType), b: (nat, DishType), c: (nat, DishType) | NameAscending(a, b) && NameAscending(b, c)
      ensures NameAscending(a, c)
    {
      LexLeTransitive(a.1.name, b.1.name, c.1.name);
    }
  }

  class Store {
    var dishTypes: map<nat, DishType>
    var cooks: map<nat, Cook>
    var dishes: map<nat, Dish>
    /** Junction rows (dish id, cook id). */
    var dishCooks: set<(nat, nat)>
    /** The next id each table hands out; ids are never reused. */
    var nextDishTypeId: nat
    var nextCookId: nat
    var nextDishId: nat

    /** Ids lie below their counters and every reference names an existing row. */
    ghost predicate Valid()
      reads this
    {
      && (forall id :: id in dishTypes ==> id < nextDishTypeId)
      && (forall id :: id in cooks ==> id < nextCookId)
      && (forall id :: id in dishes ==> id < nextDishId)
      && (forall id :: id in dishes && dishes[id].dishType.Some? ==> dishes[id].dishType.value in dishTypes)
      && (forall row :: row in dishCooks ==> row.0 in dishes && row.1 in cooks)
    }

    constructor ()
      ensures Valid()
      ensures dishTypes == map[] && cooks == map[] && dishes == map[] && dishCooks == {}
    {
      dishTypes, cooks, dishes, dishCooks := map[], map[], map[], {};
      nextDishTypeId, nextCookId, nextDishId := 0, 0, 0;
    }

    /** Inserts a DishType as given, without validating it, under a fresh id. */
    method CreateDishType(t: DishType) returns (id: nat)
      requires Valid()
      modifies this
      ensures Valid()
      ensures id !in old(dishTypes) && dishTypes == old(dishTypes)[id := t]
      ensures cooks == old(cooks) && dishes == old(dishes) && dishCooks == old(dishCooks)
      ensures nextDishTypeId == old(nextDishTypeId) + 1
      ensures nextCookId == old(nextCookId) && nextDishId == old(nextDishId)
    {
      id := nextDishTypeId;
      dishTypes := dishTypes[id := t];
      nextDishTypeId := nextDishTypeId + 1;
    }

    /** Inserts a Cook as given, without validating it, under a fresh id. */
    method CreateCook(c: Cook) returns (id: nat)
      requires Valid()
      modifies this
      ensures Valid()
      ensures id !in old(cooks) && cooks == old(cooks)[id := c]
      ensures dishTypes == old(dishTypes) && dishes == old(dishes) && dishCooks == old(dishCooks)
      ensures nextCookId == old(nextCookId) + 1
      ensures nextDishTypeId == old(nextDishTypeId) && nextDishId == old(nextDishId)
    {
      id := nextCookId;
      cooks := cooks[id := c];
      nextCookId := nextCookId + 1;
    }

    /**
     * Inserts a Dish as given, without validating it, under a fresh id and
     * with no cooks. A reference to a missing DishType is refused and
     * nothing changes.
     */
    method CreateDish(d: Dish) returns (r: Result<nat, StoreError>)
      requires Valid()
      modifies this
      ensures Valid()
      ensures r.Ok? <==> (d.dishType.None? || d.dishType.value in old(dishTypes))
      ensures r.Err? ==> r.error == IntegrityError && dishes == old(dishes) && nextDishId == old(nextDishId)
      ensures r.Ok? ==> && r.value !in old(dishes)
                        && dishes == old(dishes)[r.value := d]
                        && CooksOf(dishCooks, r.value) == {}
                        && nextDishId == old(nextDishId) + 1
      ensures dishTypes == old(dishTypes) && cooks == old(cooks) && dishCooks == old(dishCooks)
      ensures nextDishTypeId == old(nextDishTypeId) && nextCookId == old(nextCookId)
    {
      if d.dishType.Some? && d.dishType.value !in dishTypes {
        return Err(IntegrityError);
      }
      var id := nextDishId;
      dishes := dishes[id := d];
      nextDishId := nextDishId + 1;
      r := Ok(id);
    }

    /** Adds one cook to a dish; adding a cook the dish already has changes nothing. */
    method AddCook(dish: nat, cook: nat) returns (r: Outcome<StoreError>)
      requires Valid()
      modifies this
      ensures Valid()
      ensures dish !in old(dishes) ==> r == Fail(NotFound)
      ensures dish in old(dishes) && cook !in old(cooks) ==> r == Fail(IntegrityError)
      ensures r.Pass? <==> dish in old(dishes) && cook in old(cooks)
      ensures dishCooks == if r.Pass? then old(dishCooks) + {(dish, cook)} else old(dishCooks)
      ensures dishTypes == old(dishTypes) && cooks == old(cooks) && dishes == old(dishes)
      ensures nextDishTypeId == old(nextDishTypeId) && nextCookId == old(nextCookId) && nextDishId == old(nextDishId)
    {
      if dish !in dishes {
        return Fail(NotFound);
      }
      if cook !in cooks {
        return Fail(IntegrityError);
      }
      dishCooks := dishCooks + {(dish, cook)};
      r := Pass;
    }

    /**
     * Replaces a dish's cooks by exactly `cookIds`: cooks left out are
     * detached. Refused, with nothing changed, when the dish does not exist
     * or some id names no cook.
     */
    method SetCooks(dish: nat, cookIds: set<nat>) returns (r: Outcome<StoreError>)
      requires Valid()
      modifies this
      ensures Valid()
      ensures dish !in old(dishes) ==> r == Fail(NotFound)
      ensures dish in old(dishes) && !(cookIds <= old(cooks).Keys) ==> r == Fail(IntegrityError)
      ensures r.Pass? <==> dish in old(dishes) && cookIds <= old(cooks).Keys
      ensures dishCooks == if r.Pass? then WithCooks(old(dishCooks), dish, cookIds) else old(dishCooks)
      ensures r.Pass? ==> CooksOf(dishCooks, dish) == cookIds
      ensures forall other :: other != dish ==> CooksOf(dishCooks, other) == CooksOf(old(dishCooks), other)
      ensures dishTypes == old(dishTypes) && cooks == old(cooks) && dishes == old(dishes)
      ensures nextDishTypeId == old(nextDishTypeId) && nextCookId == old(nextCookId) && nextDishId == old(nextDishId)
    {
      if dish !in dishes {
        return Fail(NotFound);
      }
      if !(cookIds <= cooks.Keys) {
        return Fail(IntegrityError);
      }
      ghost var before := dishCooks;
      dishCooks := WithCooks(dishCooks, dish, cookIds);
      forall other ensures other != dish ==> CooksOf(dishCooks, other) == CooksOf(before, other) {
        ReplaceCooks(before, dish, cookIds, other);
      }
      r := Pass;
    }

    /**
     * Deletes a DishType. Dishes that referred to it keep existing with no
     * type (on_delete SET_NULL); no other dish, cook or junction row changes.
     */
    method DeleteDishType(id: nat) returns (r: Outcome<StoreError>)
      requires Valid()
      modifies this
      ensures Valid()
      ensures r.Pass? <==> id in old(dishTypes)
      ensures r.Fail? ==> r.error == NotFound
      ensures dishTypes == old(dishTypes) - {id}
      ensures dishes == WithDishTypeCleared(old(dishes), id)
      ensures cooks == old(cooks) && dishCooks == old(dishCooks)
      ensures nextDishTypeId == old(nextDishTypeId) && nextCookId == old(nextCookId) && nextDishId == old(nextDishId)
    {
      if id !in dishTypes {
        // no dish can refer to a missing type, so clearing would change nothing
        assert WithDishTypeCleared(dishes, id) == dishes;
        return Fail(NotFound);
      }
      dishTypes := dishTypes - {id};
      dishes := WithDishTypeCleared(dishes, id);
      r := Pass;
    }

    /**
     * Deletes a Cook and every junction row naming it: the cook leaves every
     * dish's cook set, and no dish or DishType changes.
     */
    method DeleteCook(id: nat) returns (r: Outcome<StoreError>)
      requires Valid()
      modifies this
      ensures Valid()
      ensures r.Pass? <==> id in old(cooks)
      ensures r.Fail? ==> r.error == NotFound
      ensures cooks == old(cooks) - {id}
      ensures dishCooks == WithoutCook(old(dishCooks), id)
      ensures forall dish :: CooksOf(dishCooks, dish) == CooksOf(old(dishCooks), dish) - {id}
      ensures dishTypes == old(dishTypes) && dishes == old(dishes)
      ensures nextDishTypeId == old(nextDishTypeId) && nextCookId == old(nextCookId) && nextDishId == old(nextDishId)
    {
      if id !in cooks {
        assert WithoutCook(dishCooks, id) == dishCooks;
        return Fail(NotFound);
      }
      cooks := cooks - {id};
      dishCooks := WithoutCook(dishCooks, id);
      r := Pass;
    }

    /**
     * Deletes a Dish and its own junction rows; the Cook and DishType tables
     * and the other dishes are unchanged.
     */
    method DeleteDish(id: nat) returns (r: Outcome<StoreError>)
      requires Valid()
      modifies this
      ensures Valid()
      ensures r.Pass? <==> id in old(dishes)
      ensures r.Fail? ==> r.error == NotFound
      ensures dishes == old(dishes) - {id}
      ensures dishCooks == WithoutDish(old(dishCooks), id)
      ensures forall cook :: DishesOf(dishCooks, cook) == DishesOf(old(dishCooks), cook) - {id}
      ensures dishTypes == old(dishTypes) && cooks == old(cooks)
      ensures nextDishTypeId == old(nextDishTypeId) && nextCookId == old(nextCookId) && nextDishId == old(nextDishId)
    {
      if id !in dishes {
        assert WithoutDish(dishCooks, id) == dishCooks;
        return Fail(NotFound);
      }
      dishes := dishes - {id};
      dishCooks := WithoutDish(dishCooks, id);
      r := Pass;
    }

    /** Every dish once, most expensive first. */
    method ListDishes() returns (rows: seq<(nat, Dish)>)
      ensures forall i, j :: 0 <= i < j < |rows| ==> rows[i].1.priceCents >= rows[j].1.priceCents
      ensures multiset(rows) == multiset(Rows(dishes))
    {
      PriceDescendingIsTotalPreorder();
      rows := ListRows(dishes, PriceDescending);
    }

    /** Every dish type once, by name in code-point order. */
    method ListDishTypes() returns (rows: seq<(nat, DishType)>)
      ensures forall i, j :: 0 <= i < j < |rows| ==> LexLe(rows[i].1.name, rows[j].1.name)
      ensures multiset(rows) == multiset(Rows(dishTypes))
    {
      NameAscendingIsTotalPreorder();
      rows := ListRows(dishTypes, NameAscending);
    }
  }
}
