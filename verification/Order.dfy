/** The three strict orders the projection sorts ids by, and the one list that shows a set in order. */
module Order {
  import opened Text

  /** By text alone; oldest first; newest first. Ties in time always break by ascending text. */
  datatype Order = ByText | Oldest(created: map<string, nat>) | Newest(created: map<string, nat>)

  function Time(created: map<string, nat>, id: string): nat {
    if id in created then created[id] else 0
  }

  predicate Before(order: Order, a: string, b: string) {
    match order
    case ByText => Below(a, b)
    case Oldest(c) => Time(c, a) < Time(c, b) || (Time(c, a) == Time(c, b) && Below(a, b))
    case Newest(c) => Time(c, a) > Time(c, b) || (Time(c, a) == Time(c, b) && Below(a, b))
  }

  lemma BeforeIsStrict(order: Order, a: string, b: string, c: string)
    ensures !Before(order, a, a)
    ensures a == b || Before(order, a, b) || Before(order, b, a)
    ensures Before(order, a, b) && Before(order, b, c) ==> Before(order, a, c)
    ensures !(Before(order, a, b) && Before(order, b, a))
  {
    BelowIrreflexive(a);
    BelowTotal(a, b);
    if Below(a, b) && Below(b, c) { BelowTransitive(a, b, c); }
    if Below(a, b) && Below(b, a) { BelowTransitive(a, b, a); }
  }

  ghost predicate Ascending(order: Order, list: seq<string>) {
    forall i, j :: 0 <= i < j < |list| ==> Before(order, list[i], list[j])
  }

  /** `list` is exactly the set, in order. */
  ghost predicate Lists(order: Order, list: seq<string>, ids: set<string>) {
    Ascending(order, list) && Elements(list) == ids
  }

  // ----- sorting (`sort_by`, `sort`) -----

  function Insert(order: Order, id: string, list: seq<string>): seq<string> {
    if list == [] || Before(order, id, list[0]) then [id] + list
    else [list[0]] + Insert(order, id, list[1..])
  }

  function SortIds(order: Order, list: seq<string>): seq<string> {
    if list == [] then [] else Insert(order, list[0], SortIds(order, list[1..]))
  }

  lemma {:induction false} InsertLists(order: Order, id: string, list: seq<string>)
    requires Ascending(order, list) && id !in list
    ensures Lists(order, Insert(order, id, list), Elements(list) + {id})
  {
    if list == [] {
    } else if Before(order, id, list[0]) {
      forall j | 0 <= j < |list| ensures Before(order, id, list[j]) {
        if j > 0 { BeforeIsStrict(order, id, list[0], list[j]); }
      }
    } else {
      var rest := list[1..];
      InsertLists(order, id, rest);
      BeforeIsStrict(order, list[0], id, id);
      var r := Insert(order, id, rest);
      forall j | 0 <= j < |r| ensures Before(order, list[0], r[j]) {
        assert r[j] in Elements(r);
        if r[j] != id {
          var k :| 0 <= k < |rest| && rest[k] == r[j];
          assert list[k + 1] == r[j];
        }
      }
      assert list == [list[0]] + rest;
    }
  }

  lemma {:induction false} SortLists(order: Order, list: seq<string>)
    requires forall i, j :: 0 <= i < j < |list| ==> list[i] != list[j]
    ensures Lists(order, SortIds(order, list), Elements(list))
  {
    if list != [] {
      SortLists(order, list[1..]);
      var sorted := SortIds(order, list[1..]);
      assert list[0] !in Elements(list[1..]);
      assert forall id :: id in sorted <==> id in Elements(sorted);
      InsertLists(order, list[0], sorted);
      assert list == [list[0]] + list[1..];
    }
  }

  // ----- the listing of a set -----

  lemma {:induction false} ListingExists(order: Order, ids: set<string>) returns (list: seq<string>)
    ensures Lists(order, list, ids)
  {
    if ids == {} {
      list := [];
    } else {
      var id :| id in ids;
      var rest := ListingExists(order, ids - {id});
      InsertLists(order, id, rest);
      list := Insert(order, id, rest);
    }
  }

  /** The set in order. */
  ghost function Listing(order: Order, ids: set<string>): (list: seq<string>)
    ensures Lists(order, list, ids)
  {
    assert exists list :: Lists(order, list, ids) by { var list := ListingExists(order, ids); }
    var list :| Lists(order, list, ids);
    list
  }

  /** The ids of the set that come strictly before one of them. */
  ghost function Predecessors(order: Order, ids: set<string>, id: string): set<string> {
    set other | other in ids && Before(order, other, id)
  }

  lemma {:induction false} PrefixSize(list: seq<string>)
    requires forall i, j :: 0 <= i < j < |list| ==> list[i] != list[j]
    ensures |Elements(list)| == |list|
  {
    if list != [] {
      var init, last := list[..|list| - 1], list[|list| - 1];
      PrefixSize(init);
      assert last !in init;
      assert Elements(list) == Elements(init) + {last};
    }
  }

  lemma AscendingDistinct(order: Order, list: seq<string>)
    requires Ascending(order, list)
    ensures forall i, j :: 0 <= i < j < |list| ==> list[i] != list[j]
  {
    forall i, j | 0 <= i < j < |list| ensures list[i] != list[j] {
      BeforeIsStrict(order, list[i], list[j], list[i]);
    }
  }

  lemma ListLength(order: Order, list: seq<string>, ids: set<string>)
    requires Lists(order, list, ids)
    ensures |list| == |ids|
  {
    AscendingDistinct(order, list);
    PrefixSize(list);
  }

  /** The i-th id of the listing has exactly i predecessors. */
  lemma IndexIsRank(order: Order, list: seq<string>, ids: set<string>, i: nat)
    requires Lists(order, list, ids) && i < |list|
    ensures |Predecessors(order, ids, list[i])| == i
  {
    var prefix := list[..i];
    AscendingDistinct(order, list);
    PrefixSize(prefix);
    assert Predecessors(order, ids, list[i]) == Elements(prefix) by {
      forall id | id in Predecessors(order, ids, list[i]) ensures id in Elements(prefix) {
        assert id in Elements(list);
        var k :| 0 <= k < |list| && list[k] == id;
        BeforeIsStrict(order, id, list[i], id);
        if k < i { assert prefix[k] == id; }
      }
      forall id | id in Elements(prefix) ensures id in Predecessors(order, ids, list[i]) {
        var k :| 0 <= k < i && list[k] == id;
        assert list[k] in Elements(list);
      }
    }
  }

  /** Being among the first `n` of the listing is having fewer than `n` predecessors. */
  lemma FirstByRank(order: Order, list: seq<string>, ids: set<string>, n: nat, id: string)
    requires Lists(order, list, ids)
    ensures id in list[..if n <= |list| then n else |list|]
       <==> id in ids && |Predecessors(order, ids, id)| < n
  {
    var cut := if n <= |list| then n else |list|;
    if id in list[..cut] {
      var i :| 0 <= i < cut && list[i] == id;
      IndexIsRank(order, list, ids, i);
      assert list[i] in Elements(list);
    }
    if id in ids && |Predecessors(order, ids, id)| < n {
      assert id in Elements(list);
      var i :| 0 <= i < |list| && list[i] == id;
      IndexIsRank(order, list, ids, i);
      assert list[..cut][i] == id;
    }
  }

  /** There is only one listing of a set. */
  lemma {:induction false} ListingUnique(order: Order, a: seq<string>, b: seq<string>, ids: set<string>)
    requires Lists(order, a, ids) && Lists(order, b, ids)
    ensures a == b
  {
    ListLength(order, a, ids);
    ListLength(order, b, ids);
    forall i | 0 <= i < |a| ensures a[i] == b[i] {
      IndexIsRank(order, a, ids, i);
      assert a[i] in Elements(b);
      var j :| 0 <= j < |b| && b[j] == a[i];
      IndexIsRank(order, b, ids, j);
    }
  }
}
