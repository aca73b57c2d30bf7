/**
 * Ordered listings of a table. A table is a map from row id to record; a
 * listing is a sequence of (id, record) rows sorted by a total preorder,
 * which is how the database answers a query whose model declares
 * `Meta.ordering`. Rows that compare equal may come in any order.
 */
module Sorting {

  ghost predicate Total<T(!new)>(le: (T, T) -> bool)
  {
    forall a, b :: le(a, b) || le(b, a)
  }

  ghost predicate Transitive<T(!new)>(le: (T, T) -> bool)
  {
    forall a, b, c :: le(a, b) && le(b, c) ==> le(a, c)
  }

  ghost predicate TotalPreorder<T(!new)>(le: (T, T) -> bool)
  {
    Total(le) && Transitive(le)
  }

  predicate Sorted<T>(s: seq<T>, le: (T, T) -> bool)
  {
    forall i, j :: 0 <= i < j < |s| ==> le(s[i], s[j])
  }

  /** Places `x` into the sorted sequence `s`, ahead of the first element it does not follow. */
  function Insert<T(!new)>(x: T, s: seq<T>, le: (T, T) -> bool): (r: seq<T>)
    requires TotalPreorder(le)
    requires Sorted(s, le)
    ensures Sorted(r, le)
    ensures multiset(r) == multiset(s) + multiset{x}
  {
    if s == [] then [x]
    else if le(x, s[0]) then
      assert forall j :: 0 < j < |s| ==> le(s[0], s[j]);
      [x] + s
    else
      var t := Insert(x, s[1..], le);
      assert s == [s[0]] + s[1..];
      assert forall y :: y in multiset(t) ==> le(s[0], y) by {
        forall y | y in multiset(t) ensures le(s[0], y) {
          if y != x {
            assert y in multiset(s[1..]);
            var k :| 0 <= k < |s[1..]| && s[1..][k] == y;
            assert le(s[0], s[k + 1]);
          }
        }
      }
      assert forall j :: 0 <= j < |t| ==> le(s[0], t[j]) by {
        forall j | 0 <= j < |t| ensures le(s[0], t[j]) {
          assert t[j] in multiset(t);
        }
      }
      [s[0]] + t
  }

  /** The rows of a table whose ids are in `ids`, each id paired with its record. */
  function RowsOn<V(==)>(table: map<nat, V>, ids: set<nat>): set<(nat, V)>
  {
    set id | id in ids && id in table :: (id, table[id])
  }

  /** All rows of a table. */
  function Rows<V(==)>(table: map<nat, V>): set<(nat, V)>
  {
    RowsOn(table, table.Keys)
  }

  lemma RowsOnAddOne<V>(table: map<nat, V>, ids: set<nat>, id: nat)
    requires id in table && id !in ids
    ensures multiset(RowsOn(table, ids + {id})) == multiset(RowsOn(table, ids)) + multiset{(id, table[id])}
  {
    assert RowsOn(table, ids + {id}) == RowsOn(table, ids) + {(id, table[id])};
    assert (id, table[id]) !in RowsOn(table, ids);
  }

  /**
   * Lists every row of `table` once, in `le` order: the keys are taken one at
   * a time and each row is inserted into the sorted prefix built so far.
   */
  method ListRows<V(==,!new)>(table: map<nat, V>, le: ((nat, V), (nat, V)) -> bool) returns (rows: seq<(nat, V)>)
    requires TotalPreorder(le)
    ensures Sorted(rows, le)
    ensures multiset(rows) == multiset(Rows(table))
  {
    var remaining := table.Keys;
    ghost var done: set<nat> := {};
    rows := [];
    while remaining != {}
      invariant remaining !! done && remaining + done == table.Keys
      invariant Sorted(rows, le)
      invariant multiset(rows) == multiset(RowsOn(table, done))
      decreases remaining
    {
      var id :| id in remaining;
      RowsOnAddOne(table, done, id);
      rows := Insert((id, table[id]), rows, le);
      remaining := remaining - {id};
      done := done + {id};
    }
  }
}
