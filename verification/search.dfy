/**
 * The search filter of the list pages: keep the rows whose identifying
 * field (a dish's or dish type's name, a cook's username) contains the query
 * ignoring case; an empty query keeps every row.
 */
module Search {
  import opened Text
  import opened Sorting
  import opened Wrappers
  import opened Models

  /** The rows of a listing whose key contains `query`, ignoring case, in the listing's order. */
  function Filter<V(!new)>(rows: seq<(nat, V)>, key: V -> string, query: string): (r: seq<(nat, V)>)
    ensures |r| <= |rows|
    ensures forall x :: x in r <==> x in rows && ContainsIgnoringCase(key(x.1), query)
  {
    if rows == [] then []
    else
      var rest := Filter(rows[1..], key, query);
      assert forall x :: x in rows <==> x == rows[0] || x in rows[1..];
      if ContainsIgnoringCase(key(rows[0].1), query) then [rows[0]] + rest else rest
  }

  /** An empty query keeps the whole listing, order included. */
  lemma {:induction false} EmptyQueryKeepsAll<V(!new)>(rows: seq<(nat, V)>, key: V -> string)
    ensures Filter(rows, key, "") == rows
  {
    if rows != [] {
      EmptyQueryMatches(key(rows[0].1));
      EmptyQueryKeepsAll(rows[1..], key);
    }
  }

  /** Filtering a sorted listing leaves it sorted: a filtered dish list is still most expensive first. */
  lemma {:induction false} FilterKeepsOrder<V(!new)>(rows: seq<(nat, V)>, key: V -> string, query: string, le: ((nat, V), (nat, V)) -> bool)
    requires Sorted(rows, le)
    ensures Sorted(Filter(rows, key, query), le)
  {
    if rows != [] {
      FilterKeepsOrder(rows[1..], key, query, le);
      var rest := Filter(rows[1..], key, query);
      forall j | 0 <= j < |rest| ensures le(rows[0], rest[j]) {
        assert rest[j] in rows[1..];
        var k :| 0 <= k < |rows[1..]| && rows[1..][k] == rest[j];
        assert rows[k + 1] == rest[j];
      }
    }
  }

  /** The username of a cook, the field the cook list is searched on. */
  function Username(c: Cook): string { c.username }

  /** Searching the cooks alice, bob, ALIce2 and charlie for "alice" finds alice and ALIce2 only. */
  lemma CookSearchExample()
    ensures var rows := [(0, NewCook("alice", "", "", None)), (1, NewCook("bob", "", "", None)),
                         (2, NewCook("ALIce2", "", "", None)), (3, NewCook("charlie", "", "", None))];
            Filter(rows, Username, "alice") == [rows[0], rows[2]]
  {
    assert StartsWith(Lower("alice"), Lower("alice"));
    assert StartsWith(Lower("ALIce2"), Lower("alice"));
    assert !Contains(Lower("bob"), Lower("alice"));
    assert Lower("charlie") == "charlie" && Lower("alice") == "alice";
    ContainsNeedsRoom("rlie", "alice");
    assert "charlie"[1..] == "harlie" && "harlie"[1..] == "arlie" && "arlie"[1..] == "rlie";
    assert "arlie"[..5][1] != "alice"[1];
    assert !Contains("charlie", "alice");
  }
}
