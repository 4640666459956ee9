/**
 The bounded forest of narrated items (core/src/projection.rs `assemble_subtree`). Everything here
 is stated over the resolved items alone, for arbitrary attach links: cycles, self-links, orphans.
 */
module Forest {
  import opened Contract
  import opened Text
  import opened Order

  const MAX_PROJECTED_ITEMS := 40
  const MAX_ATTACH_DEPTH := 3
  const MAX_CHILDREN := 12

  type Items = map<string, SpokenItem>

  ghost predicate Keyed(items: Items) {
    forall id <- items :: items[id].id == id
  }

  function CreatedOf(items: Items): map<string, nat> {
    map id <- items :: items[id].createdAt
  }

  function Take<T>(list: seq<T>, n: nat): seq<T> {
    if n <= |list| then list[..n] else list
  }

  lemma TakeElements(list: seq<string>, n: nat)
    ensures Elements(Take(list, n)) <= Elements(list)
  {
  }

  predicate IsHidden(item: SpokenItem) {
    item.acknowledgement.Some?
    && (item.acknowledgement.value.state.Dismissed? || item.acknowledgement.value.state.Archived?)
  }

  /** The items whose attach link names `parent`. */
  function Kids(items: Items, parent: string): set<string> {
    set id | id in items && items[id].attach == Some(AttachLink(parent))
  }

  ghost function KidList(items: Items, parent: string): seq<string> {
    Listing(Oldest(CreatedOf(items)), Kids(items, parent))
  }

  ghost function FirstKids(items: Items, parent: string): (kids: seq<string>)
    ensures Elements(kids) <= Kids(items, parent) && |kids| <= MAX_CHILDREN
  {
    TakeElements(KidList(items, parent), MAX_CHILDREN);
    Take(KidList(items, parent), MAX_CHILDREN)
  }

  function Tops(items: Items): set<string> {
    set id | id in items && items[id].attach.None? && !IsHidden(items[id])
  }

  ghost function TopList(items: Items): seq<string> {
    Listing(Newest(CreatedOf(items)), Tops(items))
  }

  ghost function FirstTops(items: Items): (tops: seq<string>)
    ensures Elements(tops) <= Tops(items) && |tops| <= MAX_PROJECTED_ITEMS
  {
    TakeElements(TopList(items), MAX_PROJECTED_ITEMS);
    Take(TopList(items), MAX_PROJECTED_ITEMS)
  }

  // ----- the forest, with no visited set -----

  ghost function Subtree(items: Items, id: string, depth: nat): SpokenItem
    requires id in items && depth <= MAX_ATTACH_DEPTH
    decreases MAX_ATTACH_DEPTH - depth, 0, 0
  {
    items[id].(children := if depth == MAX_ATTACH_DEPTH then []
                           else Subtrees(items, FirstKids(items, id), depth + 1))
  }

  ghost function Subtrees(items: Items, ids: seq<string>, depth: nat): seq<SpokenItem>
    requires Elements(ids) <= items.Keys && depth <= MAX_ATTACH_DEPTH
    decreases MAX_ATTACH_DEPTH - depth, 1, |ids|
  {
    if ids == [] then []
    else
      assert ids[|ids| - 1] in Elements(ids) && Elements(ids[..|ids| - 1]) <= Elements(ids);
      Subtrees(items, ids[..|ids| - 1], depth) + [Subtree(items, ids[|ids| - 1], depth)]
  }

  ghost function ForestOf(items: Items): seq<SpokenItem> {
    Subtrees(items, FirstTops(items), 0)
  }

  /** The ids of a tree, parents before children. */
  function Ids(item: SpokenItem): seq<string> {
    [item.id] + IdsAll(item.children)
  }

  function IdsAll(list: seq<SpokenItem>): seq<string> {
    if list == [] then [] else IdsAll(list[..|list| - 1]) + Ids(list[|list| - 1])
  }

  ghost function Placed(items: Items): set<string> {
    Elements(IdsAll(ForestOf(items)))
  }

  // ----- depth and ancestry along attach links -----

  /** `id` reaches a top-level item in exactly `depth` attach steps. */
  predicate AtDepth(items: Items, id: string, depth: nat)
    decreases depth
  {
    && id in items
    && if depth == 0 then items[id].attach.None?
       else items[id].attach.Some? && AtDepth(items, items[id].attach.value.parentId, depth - 1)
  }

  /** `id` reaches `ancestor` in exactly `steps` attach steps. */
  predicate Above(items: Items, ancestor: string, id: string, steps: nat)
    decreases steps
  {
    && id in items
    && if steps == 0 then id == ancestor
       else items[id].attach.Some? && Above(items, ancestor, items[id].attach.value.parentId, steps - 1)
  }

  /** An item and everything attached beneath it, however deep. */
  ghost function Line(items: Items, ancestor: string): set<string> {
    set id | id in items && exists steps: nat :: Above(items, ancestor, id, steps)
  }

  lemma {:induction false} DepthUnique(items: Items, id: string, d: nat, e: nat)
    requires AtDepth(items, id, d) && AtDepth(items, id, e)
    ensures d == e
    decreases d
  {
    if d > 0 && e > 0 { DepthUnique(items, items[id].attach.value.parentId, d - 1, e - 1); }
  }

  lemma {:induction false} DepthAdds(items: Items, ancestor: string, id: string, d: nat, steps: nat)
    requires AtDepth(items, ancestor, d) && Above(items, ancestor, id, steps)
    ensures AtDepth(items, id, d + steps)
    decreases steps
  {
    if steps > 0 { DepthAdds(items, ancestor, items[id].attach.value.parentId, d, steps - 1); }
  }

  lemma {:induction false} AncestorUnique(items: Items, a: string, b: string, id: string, steps: nat)
    requires Above(items, a, id, steps) && Above(items, b, id, steps)
    ensures a == b
    decreases steps
  {
    if steps > 0 { AncestorUnique(items, a, b, items[id].attach.value.parentId, steps - 1); }
  }

  lemma {:induction false} AboveExtends(items: Items, parent: string, kid: string, id: string, steps: nat)
    requires kid in Kids(items, parent) && parent in items && Above(items, kid, id, steps)
    ensures Above(items, parent, id, steps + 1)
    decreases steps
  {
    if steps > 0 {
      AboveExtends(items, parent, kid, items[id].attach.value.parentId, steps - 1);
    } else {
      assert Above(items, parent, parent, 0);
    }
  }

  /** Two different nodes of one depth have nothing below them in common. */
  lemma LinesDisjoint(items: Items, a: string, b: string, d: nat)
    requires AtDepth(items, a, d) && AtDepth(items, b, d) && a != b
    ensures Line(items, a) !! Line(items, b)
  {
    forall id | id in Line(items, a) && id in Line(items, b) ensures false {
      var m: nat :| Above(items, a, id, m);
      var n: nat :| Above(items, b, id, n);
      DepthAdds(items, a, id, d, m);
      DepthAdds(items, b, id, d, n);
      DepthUnique(items, id, d + m, d + n);
      AncestorUnique(items, a, b, id, m);
    }
  }

  /** A kid's line lies in its parent's, and the parent itself is not in it. */
  lemma KidLine(items: Items, parent: string, kid: string, d: nat)
    requires AtDepth(items, parent, d) && kid in Kids(items, parent)
    ensures AtDepth(items, kid, d + 1)
    ensures Line(items, kid) <= Line(items, parent) && parent !in Line(items, kid)
  {
    forall id | id in Line(items, kid) ensures id in Line(items, parent) {
      var m: nat :| Above(items, kid, id, m);
      AboveExtends(items, parent, kid, id, m);
    }
    if parent in Line(items, kid) {
      var m: nat :| Above(items, kid, parent, m);
      DepthAdds(items, kid, parent, d + 1, m);
      DepthUnique(items, parent, d, d + 1 + m);
    }
  }

  lemma SelfLine(items: Items, id: string)
    requires id in items
    ensures id in Line(items, id)
  {
    assert Above(items, id, id, 0);
  }

  // ----- where the nodes of a subtree come from -----

  lemma {:induction false} ElementsConcat(a: seq<string>, b: seq<string>)
    ensures Elements(a + b) == Elements(a) + Elements(b)
  {
  }

  lemma KidListFacts(items: Items, id: string)
    ensures Elements(KidList(items, id)) == Kids(items, id)
    ensures Elements(FirstKids(items, id)) <= Kids(items, id) <= items.Keys
    ensures |KidList(items, id)| == |Kids(items, id)|
  {
    ListLength(Oldest(CreatedOf(items)), KidList(items, id), Kids(items, id));
  }

  /** Every node placed beneath an item is in that item's line. */
  lemma {:induction false} SubtreeInLine(items: Items, id: string, depth: nat)
    requires Keyed(items) && AtDepth(items, id, depth) && depth <= MAX_ATTACH_DEPTH
    ensures Elements(Ids(Subtree(items, id, depth))) <= Line(items, id)
    decreases MAX_ATTACH_DEPTH - depth, 0, 0
  {
    SelfLine(items, id);
    var tree := Subtree(items, id, depth);
    ElementsConcat([tree.id], IdsAll(tree.children));
    if depth < MAX_ATTACH_DEPTH {
      KidListFacts(items, id);
      SubtreesInLine(items, id, FirstKids(items, id), depth);
    }
  }

  lemma {:induction false} SubtreesInLine(items: Items, parent: string, kids: seq<string>, depth: nat)
    requires Keyed(items) && AtDepth(items, parent, depth) && depth < MAX_ATTACH_DEPTH
    requires Elements(kids) <= Kids(items, parent)
    ensures Elements(IdsAll(Subtrees(items, kids, depth + 1))) <= Line(items, parent)
    decreases MAX_ATTACH_DEPTH - depth - 1, 1, |kids|
  {
    hide *;
    KidsAreItems(items, parent);
    if kids == [] {
      NoSubtrees(items, depth + 1);
    } else {
      var init, kid := kids[..|kids| - 1], kids[|kids| - 1];
      ElementsSnoc(kids);
      SubtreesInLine(items, parent, init, depth);
      KidLine(items, parent, kid, depth);
      SubtreeInLine(items, kid, depth + 1);
      SubtreesStep(items, kids, depth + 1);
    }
  }

  lemma NoSubtrees(items: Items, depth: nat)
    requires depth <= MAX_ATTACH_DEPTH
    ensures Elements([]) == {} && Subtrees(items, [], depth) == [] && IdsAll([]) == []
  {
  }

  lemma KidsAreItems(items: Items, parent: string)
    ensures Kids(items, parent) <= items.Keys
  {
  }

  lemma SubtreesSnoc(items: Items, ids: seq<string>, depth: nat)
    requires ids != [] && Elements(ids) <= items.Keys && depth <= MAX_ATTACH_DEPTH
    ensures Elements(ids[..|ids| - 1]) <= items.Keys && ids[|ids| - 1] in items
    ensures Subtrees(items, ids, depth)
         == Subtrees(items, ids[..|ids| - 1], depth) + [Subtree(items, ids[|ids| - 1], depth)]
  {
    hide Subtree;
    assert ids[|ids| - 1] in Elements(ids) && Elements(ids[..|ids| - 1]) <= Elements(ids);
  }

  lemma IdsAllSnoc(list: seq<SpokenItem>, tree: SpokenItem)
    ensures IdsAll(list + [tree]) == IdsAll(list) + Ids(tree)
  {
    assert (list + [tree])[..|list|] == list;
  }

  lemma SubtreesStep(items: Items, ids: seq<string>, depth: nat)
    requires ids != [] && Elements(ids) <= items.Keys && depth <= MAX_ATTACH_DEPTH
    ensures Elements(ids[..|ids| - 1]) <= items.Keys && ids[|ids| - 1] in items
    ensures IdsAll(Subtrees(items, ids, depth))
         == IdsAll(Subtrees(items, ids[..|ids| - 1], depth)) + Ids(Subtree(items, ids[|ids| - 1], depth))
    ensures Elements(IdsAll(Subtrees(items, ids, depth)))
         == Elements(IdsAll(Subtrees(items, ids[..|ids| - 1], depth)))
            + Elements(Ids(Subtree(items, ids[|ids| - 1], depth)))
    ensures |Subtrees(items, ids, depth)| == |Subtrees(items, ids[..|ids| - 1], depth)| + 1
  {
    hide *;
    SubtreesSnoc(items, ids, depth);
    var init, last := Subtrees(items, ids[..|ids| - 1], depth), Subtree(items, ids[|ids| - 1], depth);
    IdsAllSnoc(init, last);
    ElementsConcat(IdsAll(init), Ids(last));
  }

  /** The last of some ids, and the ones before it. */
  lemma ElementsSnoc(ids: seq<string>)
    requires ids != []
    ensures ids[|ids| - 1] in Elements(ids) && Elements(ids[..|ids| - 1]) <= Elements(ids)
    ensures Elements(ids) == Elements(ids[..|ids| - 1]) + {ids[|ids| - 1]}
  {
  }

  // ----- no repeats, bounded size -----

  ghost predicate NoRepeats(list: seq<string>) {
    forall i, j :: 0 <= i < j < |list| ==> list[i] != list[j]
  }

  lemma NoRepeatsConcat(a: seq<string>, b: seq<string>)
    requires NoRepeats(a) && NoRepeats(b) && Elements(a) !! Elements(b)
    ensures NoRepeats(a + b)
  {
    forall i, j | 0 <= i < j < |a + b| ensures (a + b)[i] != (a + b)[j] {
      if i < |a| <= j {
        assert a[i] in Elements(a) && b[j - |a|] in Elements(b);
      }
    }
  }

  /** Subtrees of different nodes at one depth share no id. */
  lemma {:induction false} SubtreesDisjoint(items: Items, ids: seq<string>, other: string, depth: nat)
    requires Keyed(items) && depth <= MAX_ATTACH_DEPTH && Elements(ids) <= items.Keys
    requires forall id <- ids :: AtDepth(items, id, depth) && id != other
    requires AtDepth(items, other, depth)
    ensures Elements(IdsAll(Subtrees(items, ids, depth))) !! Line(items, other)
  {
    if ids != [] {
      var init, last := ids[..|ids| - 1], ids[|ids| - 1];
      SubtreesStep(items, ids, depth);
      assert forall id <- init :: id in ids;
      SubtreesDisjoint(items, init, other, depth);
      SubtreeInLine(items, last, depth);
      LinesDisjoint(items, last, other, depth);
    }
  }

  lemma {:induction false} SubtreesNoRepeats(items: Items, ids: seq<string>, depth: nat)
    requires Keyed(items) && depth <= MAX_ATTACH_DEPTH && Elements(ids) <= items.Keys && NoRepeats(ids)
    requires forall id <- ids :: AtDepth(items, id, depth)
    ensures NoRepeats(IdsAll(Subtrees(items, ids, depth)))
    decreases MAX_ATTACH_DEPTH - depth, 1, |ids|
  {
    if ids != [] {
      var init, last := ids[..|ids| - 1], ids[|ids| - 1];
      SubtreesStep(items, ids, depth);
      assert forall id <- init :: id in ids && id != last;
      SubtreesNoRepeats(items, init, depth);
      SubtreeNoRepeats(items, last, depth);
      SubtreesDisjoint(items, init, last, depth);
      SubtreeInLine(items, last, depth);
      NoRepeatsConcat(IdsAll(Subtrees(items, init, depth)), Ids(Subtree(items, last, depth)));
    }
  }

  lemma {:induction false} SubtreeNoRepeats(items: Items, id: string, depth: nat)
    requires Keyed(items) && AtDepth(items, id, depth) && depth <= MAX_ATTACH_DEPTH
    ensures NoRepeats(Ids(Subtree(items, id, depth)))
    decreases MAX_ATTACH_DEPTH - depth, 0, 0
  {
    var tree := Subtree(items, id, depth);
    if depth < MAX_ATTACH_DEPTH {
      var kids := FirstKids(items, id);
      KidsAtDepth(items, id, depth);
      SubtreesNoRepeats(items, kids, depth + 1);
      RootNotBelow(items, id, kids, depth);
      NoRepeatsConcat([id], IdsAll(tree.children));
    }
  }

  lemma KidsAtDepth(items: Items, id: string, depth: nat)
    requires AtDepth(items, id, depth)
    ensures var kids := FirstKids(items, id);
      NoRepeats(kids) && Elements(kids) <= Kids(items, id) && forall kid <- kids :: AtDepth(items, kid, depth + 1)
  {
    KidListFacts(items, id);
    AscendingDistinct(Oldest(CreatedOf(items)), KidList(items, id));
    forall kid | kid in FirstKids(items, id) ensures AtDepth(items, kid, depth + 1) {
      assert kid in Elements(FirstKids(items, id));
      KidLine(items, id, kid, depth);
    }
  }

  lemma {:induction false} RootNotBelow(items: Items, id: string, kids: seq<string>, depth: nat)
    requires Keyed(items) && AtDepth(items, id, depth) && depth < MAX_ATTACH_DEPTH
    requires Elements(kids) <= Kids(items, id)
    ensures id !in Elements(IdsAll(Subtrees(items, kids, depth + 1)))
  {
    hide *;
    KidsAreItems(items, id);
    if kids == [] {
      NoSubtrees(items, depth + 1);
    } else {
      var init, kid := kids[..|kids| - 1], kids[|kids| - 1];
      ElementsSnoc(kids);
      RootNotBelow(items, id, init, depth);
      KidLine(items, id, kid, depth);
      SubtreeInLine(items, kid, depth + 1);
      SubtreesStep(items, kids, depth + 1);
    }
  }

  /** The most nodes a subtree at a depth can have. */
  function NodeBound(depth: nat): nat
    requires depth <= MAX_ATTACH_DEPTH
    decreases MAX_ATTACH_DEPTH - depth
  {
    if depth == MAX_ATTACH_DEPTH then 1 else 1 + MAX_CHILDREN * NodeBound(depth + 1)
  }

  lemma MoreTimes(n: nat, m: nat, bound: nat)
    requires n <= m
    ensures n * bound <= m * bound && (n + 1) * bound == n * bound + bound
  {
  }

  lemma {:induction false} SubtreeSize(items: Items, id: string, depth: nat)
    requires id in items && depth <= MAX_ATTACH_DEPTH
    ensures |Ids(Subtree(items, id, depth))| <= NodeBound(depth)
    decreases MAX_ATTACH_DEPTH - depth, 0, 0
  {
    if depth < MAX_ATTACH_DEPTH {
      KidListFacts(items, id);
      var kids := FirstKids(items, id);
      SubtreesSize(items, kids, depth + 1);
      MoreTimes(|kids|, MAX_CHILDREN, NodeBound(depth + 1));
    }
  }

  lemma {:induction false} SubtreesSize(items: Items, ids: seq<string>, depth: nat)
    requires Elements(ids) <= items.Keys && depth <= MAX_ATTACH_DEPTH
    ensures |IdsAll(Subtrees(items, ids, depth))| <= |ids| * NodeBound(depth)
    decreases MAX_ATTACH_DEPTH - depth, 1, |ids|
  {
    hide Subtree, Elements, NodeBound;
    if ids != [] {
      var init := ids[..|ids| - 1];
      SubtreesStep(items, ids, depth);
      SubtreesSize(items, init, depth);
      SubtreeSize(items, ids[|ids| - 1], depth);
      MoreTimes(|init|, |ids|, NodeBound(depth));
    }
  }

  lemma TopFacts(items: Items)
    ensures var tops := FirstTops(items);
      && Elements(tops) <= Tops(items) <= items.Keys && NoRepeats(tops) && |tops| <= MAX_PROJECTED_ITEMS
      && forall id <- tops :: AtDepth(items, id, 0)
  {
    AscendingDistinct(Newest(CreatedOf(items)), TopList(items));
    forall id | id in FirstTops(items) ensures AtDepth(items, id, 0) {
      assert id in Elements(FirstTops(items));
    }
  }

  /** Whatever the attach links are, no id occurs twice in the whole forest, and the forest has at
      most 40 * (1 + 12 + 144 + 1728) nodes. */
  lemma ForestDistinctAndBounded(items: Items)
    requires Keyed(items)
    ensures NoRepeats(IdsAll(ForestOf(items)))
    ensures |IdsAll(ForestOf(items))| <= 40 * (1 + 12 + 144 + 1728) == 75_400
  {
    TopFacts(items);
    var tops := FirstTops(items);
    SubtreesNoRepeats(items, tops, 0);
    SubtreesSize(items, tops, 0);
    assert NodeBound(2) == 13 && NodeBound(1) == 157 && NodeBound(0) == 1885;
    MoreTimes(|tops|, 40, 1885);
  }

  // ----- exact placement -----

  /** Fewer than `n` siblings (by age, then id) come first. */
  ghost predicate AmongFirstKids(items: Items, id: string)
    requires id in items && items[id].attach.Some?
  {
    |Predecessors(Oldest(CreatedOf(items)), Kids(items, items[id].attach.value.parentId), id)| < MAX_CHILDREN
  }

  ghost predicate AmongFirstTops(items: Items, id: string) {
    |Predecessors(Newest(CreatedOf(items)), Tops(items), id)| < MAX_PROJECTED_ITEMS
  }

  /** The placement rule, by rank alone: the chain of attach links ends at one of the forty newest
      visible top-level items, and every step on it is among its parent's first twelve. */
  ghost predicate PlacedAt(items: Items, id: string, depth: nat)
    decreases depth
  {
    && id in items
    && if depth == 0 then id in Tops(items) && AmongFirstTops(items, id)
       else items[id].attach.Some? && AmongFirstKids(items, id)
            && PlacedAt(items, items[id].attach.value.parentId, depth - 1)
  }

  lemma {:induction false} PlacedAtDepth(items: Items, id: string, depth: nat)
    requires PlacedAt(items, id, depth)
    ensures AtDepth(items, id, depth)
    decreases depth
  {
    if depth > 0 { PlacedAtDepth(items, items[id].attach.value.parentId, depth - 1); }
  }

  lemma KidRank(items: Items, parent: string, kid: string)
    ensures kid in FirstKids(items, parent)
       <==> kid in Kids(items, parent) && AmongFirstKids(items, kid)
  {
    FirstByRank(Oldest(CreatedOf(items)), KidList(items, parent), Kids(items, parent), MAX_CHILDREN, kid);
  }

  lemma TopRank(items: Items, id: string)
    ensures id in FirstTops(items) <==> id in Tops(items) && AmongFirstTops(items, id)
  {
    FirstByRank(Newest(CreatedOf(items)), TopList(items), Tops(items), MAX_PROJECTED_ITEMS, id);
  }

  lemma KidPlaced(items: Items, id: string, depth: nat, kid: string)
    requires PlacedAt(items, id, depth) && kid in FirstKids(items, id)
    ensures PlacedAt(items, kid, depth + 1)
  {
    hide FirstKids, AmongFirstKids;
    KidRank(items, id, kid);
  }

  lemma PlacedIsItem(items: Items, id: string, depth: nat)
    requires PlacedAt(items, id, depth)
    ensures id in items
  {
  }

  lemma NodeBelow(items: Items, id: string, depth: nat, node: string)
    requires Keyed(items) && id in items && depth <= MAX_ATTACH_DEPTH && node in Ids(Subtree(items, id, depth))
             && node != id
    ensures depth < MAX_ATTACH_DEPTH && Elements(FirstKids(items, id)) <= items.Keys
    ensures node in IdsAll(Subtrees(items, FirstKids(items, id), depth + 1))
  {
    KidsAreItems(items, id);
    hide FirstKids, Kids, Subtrees;
  }

  /** Everything in a placed node's subtree is placed. */
  lemma {:induction false} SubtreePlaced(items: Items, id: string, depth: nat, node: string) returns (at: nat)
    requires Keyed(items) && depth <= MAX_ATTACH_DEPTH && PlacedAt(items, id, depth)
    requires node in Ids(Subtree(items, id, depth))
    ensures at <= MAX_ATTACH_DEPTH && PlacedAt(items, node, at)
    decreases MAX_ATTACH_DEPTH - depth, 0, 0
  {
    hide *;
    PlacedIsItem(items, id, depth);
    if node == id {
      at := depth;
    } else {
      NodeBelow(items, id, depth, node);
      var kids := FirstKids(items, id);
      forall kid | kid in kids ensures PlacedAt(items, kid, depth + 1) { KidPlaced(items, id, depth, kid); }
      at := SubtreesPlaced(items, kids, depth + 1, node);
    }
  }

  lemma {:induction false} SubtreesPlaced(items: Items, ids: seq<string>, depth: nat, node: string) returns (at: nat)
    requires Keyed(items) && depth <= MAX_ATTACH_DEPTH && Elements(ids) <= items.Keys
    requires forall id <- ids :: PlacedAt(items, id, depth)
    requires node in IdsAll(Subtrees(items, ids, depth))
    ensures at <= MAX_ATTACH_DEPTH && PlacedAt(items, node, at)
    decreases MAX_ATTACH_DEPTH - depth, 1, |ids|
  {
    SubtreesStep(items, ids, depth);
    if node in IdsAll(Subtrees(items, ids[..|ids| - 1], depth)) {
      assert forall id <- ids[..|ids| - 1] :: id in ids;
      at := SubtreesPlaced(items, ids[..|ids| - 1], depth, node);
    } else {
      at := SubtreePlaced(items, ids[|ids| - 1], depth, node);
    }
  }

  lemma {:induction false} MemberOfSubtrees(items: Items, ids: seq<string>, depth: nat, id: string)
    requires Elements(ids) <= items.Keys && depth <= MAX_ATTACH_DEPTH && id in ids
    ensures id in items && Elements(Ids(Subtree(items, id, depth))) <= Elements(IdsAll(Subtrees(items, ids, depth)))
  {
    SubtreesStep(items, ids, depth);
    if id != ids[|ids| - 1] { MemberOfSubtrees(items, ids[..|ids| - 1], depth, id); }
  }

  /** The subtree of a node placed inside another subtree is part of it. */
  lemma {:induction false} NestedSubtree(items: Items, root: string, rootDepth: nat, node: string, depth: nat)
    requires Keyed(items) && AtDepth(items, root, rootDepth) && rootDepth <= MAX_ATTACH_DEPTH
    requires node in Ids(Subtree(items, root, rootDepth)) && AtDepth(items, node, depth)
    ensures depth <= MAX_ATTACH_DEPTH
    ensures Elements(Ids(Subtree(items, node, depth))) <= Elements(Ids(Subtree(items, root, rootDepth)))
    decreases MAX_ATTACH_DEPTH - rootDepth, 0, 0
  {
    if node == root {
      DepthUnique(items, node, depth, rootDepth);
    } else {
      KidsAtDepth(items, root, rootDepth);
      var kids := Take(KidList(items, root), MAX_CHILDREN);
      NestedSubtrees(items, kids, rootDepth + 1, node, depth);
      ElementsConcat([root], IdsAll(Subtrees(items, kids, rootDepth + 1)));
    }
  }

  lemma {:induction false} NestedSubtrees(items: Items, ids: seq<string>, idsDepth: nat, node: string, depth: nat)
    requires Keyed(items) && idsDepth <= MAX_ATTACH_DEPTH && Elements(ids) <= items.Keys
    requires forall id <- ids :: AtDepth(items, id, idsDepth)
    requires node in IdsAll(Subtrees(items, ids, idsDepth)) && AtDepth(items, node, depth)
    ensures depth <= MAX_ATTACH_DEPTH
    ensures Elements(Ids(Subtree(items, node, depth))) <= Elements(IdsAll(Subtrees(items, ids, idsDepth)))
    decreases MAX_ATTACH_DEPTH - idsDepth, 1, |ids|
  {
    SubtreesStep(items, ids, idsDepth);
    if node in IdsAll(Subtrees(items, ids[..|ids| - 1], idsDepth)) {
      assert forall id <- ids[..|ids| - 1] :: id in ids;
      NestedSubtrees(items, ids[..|ids| - 1], idsDepth, node, depth);
    } else {
      NestedSubtree(items, ids[|ids| - 1], idsDepth, node, depth);
    }
  }

  lemma {:induction false} RankedIsPlaced(items: Items, id: string, depth: nat)
    requires Keyed(items) && PlacedAt(items, id, depth) && depth <= MAX_ATTACH_DEPTH
    ensures Elements(Ids(Subtree(items, id, depth))) <= Placed(items)
    decreases depth
  {
    if depth == 0 {
      TopFacts(items);
      TopRank(items, id);
      MemberOfSubtrees(items, FirstTops(items), 0, id);
    } else {
      var parent := items[id].attach.value.parentId;
      RankedIsPlaced(items, parent, depth - 1);
      KidRank(items, parent, id);
      SubtreeElements(items, parent, depth - 1);
      hide *;
      MemberOfSubtrees(items, FirstKids(items, parent), depth, id);
    }
  }

  lemma PlacedIsRanked(items: Items, id: string) returns (depth: nat)
    requires Keyed(items) && id in Placed(items)
    ensures depth <= MAX_ATTACH_DEPTH && PlacedAt(items, id, depth)
  {
    hide PlacedAt;
    var tops := FirstTops(items);
    TopFacts(items);
    forall top | top in tops ensures PlacedAt(items, top, 0) { TopPlaced(items, top); }
    depth := SubtreesPlaced(items, tops, 0, id);
  }

  lemma TopPlaced(items: Items, top: string)
    requires top in FirstTops(items)
    ensures PlacedAt(items, top, 0)
  {
    TopRank(items, top);
  }

  /** Exact placement: an item is in the forest if and only if the placement rule puts it at some
      depth of at most three. */
  lemma PlacementExact(items: Items, id: string)
    requires Keyed(items)
    ensures id in Placed(items) <==> exists depth: nat :: depth <= MAX_ATTACH_DEPTH && PlacedAt(items, id, depth)
  {
    hide PlacedAt, Placed;
    if id in Placed(items) { var at := PlacedIsRanked(items, id); }
    if depth: nat :| depth <= MAX_ATTACH_DEPTH && PlacedAt(items, id, depth) {
      RankedIsPlaced(items, id, depth);
      PlacedAtDepth(items, id, depth);
      assert id in Ids(Subtree(items, id, depth));
    }
  }

  // ----- order and content of the placed nodes -----

  function IdList(list: seq<SpokenItem>): seq<string> {
    seq(|list|, i requires 0 <= i < |list| => list[i].id)
  }

  /** A tree whose nodes are the resolved items, whose children name their parent, and whose
      children stand oldest first, at most twelve to a node. */
  ghost predicate Tidy(items: Items, tree: SpokenItem) {
    && tree.id in items && tree == items[tree.id].(children := tree.children)
    && |tree.children| <= MAX_CHILDREN
    && Ascending(Oldest(CreatedOf(items)), IdList(tree.children))
    && forall child <- tree.children :: child.attach == Some(AttachLink(tree.id)) && Tidy(items, child)
  }

  lemma {:induction false} SubtreeTidy(items: Items, id: string, depth: nat)
    requires Keyed(items) && id in items && depth <= MAX_ATTACH_DEPTH
    ensures Tidy(items, Subtree(items, id, depth))
    decreases MAX_ATTACH_DEPTH - depth, 0, 0
  {
    hide FirstKids, Kids, IdList, Elements, KidList;
    if depth < MAX_ATTACH_DEPTH {
      KidListFacts(items, id);
      KidsInOrder(items, id);
      var kids := FirstKids(items, id);
      SubtreesTidy(items, kids, depth + 1);
      KidTreesAttach(items, id, kids, Subtrees(items, kids, depth + 1));
    } else {
      IdListEmpty();
    }
  }

  lemma KidsInOrder(items: Items, id: string)
    ensures Ascending(Oldest(CreatedOf(items)), FirstKids(items, id))
  {
  }

  lemma KidTreesAttach(items: Items, id: string, kids: seq<string>, trees: seq<SpokenItem>)
    requires Elements(kids) <= Kids(items, id) && IdList(trees) == kids && forall tree <- trees :: Tidy(items, tree)
    ensures |trees| == |kids| && forall child <- trees :: child.attach == Some(AttachLink(id))
  {
    assert |IdList(trees)| == |trees|;
    forall child | child in trees ensures child.attach == Some(AttachLink(id)) {
      var i :| 0 <= i < |trees| && trees[i] == child;
      assert IdList(trees)[i] == kids[i] && kids[i] in Elements(kids);
    }
  }

  lemma {:induction false} SubtreesTidy(items: Items, ids: seq<string>, depth: nat)
    requires Keyed(items) && Elements(ids) <= items.Keys && depth <= MAX_ATTACH_DEPTH
    ensures IdList(Subtrees(items, ids, depth)) == ids
    ensures forall tree <- Subtrees(items, ids, depth) :: Tidy(items, tree)
    decreases MAX_ATTACH_DEPTH - depth, 1, |ids|
  {
    hide *;
    if ids == [] {
      NoSubtrees(items, depth);
      IdListEmpty();
    } else {
      var init, last := ids[..|ids| - 1], ids[|ids| - 1];
      SubtreesSnoc(items, ids, depth);
      SubtreesTidy(items, init, depth);
      SubtreeTidy(items, last, depth);
      SubtreeId(items, last, depth);
      IdListSnoc(Subtrees(items, init, depth), Subtree(items, last, depth));
      assert ids == init + [last];
    }
  }

  lemma SubtreeId(items: Items, id: string, depth: nat)
    requires Keyed(items) && id in items && depth <= MAX_ATTACH_DEPTH
    ensures Subtree(items, id, depth).id == id
  {
    hide Subtrees, FirstKids;
  }

  lemma IdListEmpty()
    ensures IdList([]) == []
  {
  }

  lemma IdListSnoc(list: seq<SpokenItem>, tree: SpokenItem)
    ensures IdList(list + [tree]) == IdList(list) + [tree.id]
  {
  }

  /** Top-level items stand newest first with ties by ascending id, at most forty; beneath them every
      tree is tidy. */
  lemma ForestInOrder(items: Items)
    requires Keyed(items)
    ensures |ForestOf(items)| <= MAX_PROJECTED_ITEMS
    ensures Ascending(Newest(CreatedOf(items)), IdList(ForestOf(items)))
    ensures forall tree <- ForestOf(items) :: Tidy(items, tree) && tree.attach.None? && !IsHidden(items[tree.id])
  {
    TopFacts(items);
    var tops := FirstTops(items);
    SubtreesTidy(items, tops, 0);
    var trees := ForestOf(items);
    assert |trees| == |IdList(trees)| == |tops|;
    forall tree | tree in trees ensures tree.attach.None? && !IsHidden(items[tree.id]) {
      var i :| 0 <= i < |trees| && trees[i] == tree;
      assert IdList(trees)[i] == tops[i] && tops[i] in Elements(tops);
    }
  }

  // ----- exact account of what is cut -----

  /** Links the assembly counts as rejected beneath one node. */
  ghost function CutCount(items: Items, id: string, depth: nat): nat
    requires depth <= MAX_ATTACH_DEPTH
    decreases MAX_ATTACH_DEPTH - depth, 0, 0
  {
    var kids := KidList(items, id);
    if depth == MAX_ATTACH_DEPTH then |kids|
    else (|kids| - |FirstKids(items, id)|) + CutCounts(items, FirstKids(items, id), depth + 1)
  }

  ghost function CutCounts(items: Items, ids: seq<string>, depth: nat): nat
    requires depth <= MAX_ATTACH_DEPTH
    decreases MAX_ATTACH_DEPTH - depth, 1, |ids|
  {
    if ids == [] then 0
    else CutCounts(items, ids[..|ids| - 1], depth) + CutCount(items, ids[|ids| - 1], depth)
  }

  /** Items attached to a node of `placed` without being in it themselves. */
  ghost function CutLinks(items: Items, placed: set<string>): set<string> {
    set id | id in items && items[id].attach.Some? && items[id].attach.value.parentId in placed && id !in placed
  }

  lemma CutLinksInLine(items: Items, id: string, placed: set<string>)
    requires placed <= Line(items, id)
    ensures CutLinks(items, placed) <= Line(items, id)
  {
    forall kid | kid in CutLinks(items, placed) ensures kid in Line(items, id) {
      var parent := items[kid].attach.value.parentId;
      var steps: nat :| Above(items, id, parent, steps);
      assert Above(items, id, kid, steps + 1);
    }
  }

  lemma CardinalityOfUnion(a: set<string>, b: set<string>)
    requires a !! b
    ensures |a + b| == |a| + |b|
  {
  }

  lemma CutAtFloor(items: Items, id: string)
    requires Keyed(items) && AtDepth(items, id, MAX_ATTACH_DEPTH)
    ensures |KidList(items, id)| == |CutLinks(items, {id})|
  {
    KidListFacts(items, id);
    forall kid | kid in Kids(items, id) ensures kid != id {
      KidLine(items, id, kid, MAX_ATTACH_DEPTH);
      SelfLine(items, kid);
    }
    assert CutLinks(items, {id}) == Kids(items, id);
  }

  lemma BeyondFirstKids(items: Items, id: string, depth: nat)
    requires AtDepth(items, id, depth)
    ensures |Kids(items, id) - Elements(FirstKids(items, id))| == |KidList(items, id)| - |FirstKids(items, id)|
  {
    KidListFacts(items, id);
    KidsAtDepth(items, id, depth);
    PrefixSize(FirstKids(items, id));
  }

  lemma SubtreeElements(items: Items, id: string, depth: nat)
    requires Keyed(items) && id in items && depth <= MAX_ATTACH_DEPTH
    ensures depth == MAX_ATTACH_DEPTH ==> Elements(Ids(Subtree(items, id, depth))) == {id}
    ensures Elements(FirstKids(items, id)) <= items.Keys
    ensures depth < MAX_ATTACH_DEPTH ==>
              Elements(Ids(Subtree(items, id, depth)))
              == {id} + Elements(IdsAll(Subtrees(items, FirstKids(items, id), depth + 1)))
  {
    KidListFacts(items, id);
    if depth < MAX_ATTACH_DEPTH {
      ElementsConcat([id], IdsAll(Subtrees(items, FirstKids(items, id), depth + 1)));
    }
  }

  lemma CutCountUnfolds(items: Items, id: string, depth: nat)
    requires depth <= MAX_ATTACH_DEPTH
    ensures |FirstKids(items, id)| <= |KidList(items, id)|
    ensures CutCount(items, id, depth)
         == if depth == MAX_ATTACH_DEPTH then |KidList(items, id)|
            else (|KidList(items, id)| - |FirstKids(items, id)|) + CutCounts(items, FirstKids(items, id), depth + 1)
  {
  }

  lemma AtDepthIsItem(items: Items, id: string, depth: nat)
    requires AtDepth(items, id, depth)
    ensures id in items
  {
  }

  /** Counting as the recursion goes equals counting the cut links of one subtree. */
  lemma {:induction false} CutCountExact(items: Items, id: string, depth: nat)
    requires Keyed(items) && AtDepth(items, id, depth) && depth <= MAX_ATTACH_DEPTH
    ensures CutCount(items, id, depth) == |CutLinks(items, Elements(Ids(Subtree(items, id, depth))))|
    decreases MAX_ATTACH_DEPTH - depth, 0, 0
  {
    hide *;
    AtDepthIsItem(items, id, depth);
    SubtreeElements(items, id, depth);
    CutCountUnfolds(items, id, depth);
    if depth == MAX_ATTACH_DEPTH {
      CutAtFloor(items, id);
    } else {
      var first := FirstKids(items, id);
      KidsAtDepth(items, id, depth);
      CutBelowNode(items, id, depth);
      CutCountsExact(items, first, depth + 1);
      BeyondFirstKids(items, id, depth);
      CardinalityOfUnion(Kids(items, id) - Elements(first),
                         CutLinks(items, Elements(IdsAll(Subtrees(items, first, depth + 1)))));
    }
  }

  /** A kid is placed beneath its parent exactly when it is among the first twelve. */
  lemma KidPlacement(items: Items, id: string, depth: nat, kid: string)
    requires Keyed(items) && AtDepth(items, id, depth) && depth < MAX_ATTACH_DEPTH && kid in Kids(items, id)
    ensures Elements(FirstKids(items, id)) <= items.Keys
    ensures kid in Elements(FirstKids(items, id))
       <==> kid in Elements(IdsAll(Subtrees(items, FirstKids(items, id), depth + 1)))
  {
    var first := FirstKids(items, id);
    KidListFacts(items, id);
    KidsAtDepth(items, id, depth);
    KidLine(items, id, kid, depth);
    if kid in first {
      MemberOfSubtrees(items, first, depth + 1, kid);
      assert kid in Ids(Subtree(items, kid, depth + 1));
    } else {
      SubtreesDisjoint(items, first, kid, depth + 1);
      SelfLine(items, kid);
    }
  }

  lemma NodeNotCutBelow(items: Items, id: string, depth: nat)
    requires Keyed(items) && AtDepth(items, id, depth) && depth < MAX_ATTACH_DEPTH
    requires Elements(FirstKids(items, id)) <= items.Keys
    ensures id !in CutLinks(items, Elements(IdsAll(Subtrees(items, FirstKids(items, id), depth + 1))))
    ensures id !in Kids(items, id)
  {
    SubtreesInLine(items, id, FirstKids(items, id), depth);
    if items[id].attach.Some? { ParentNotInLine(items, id, depth); }
    if id in Kids(items, id) {
      KidLine(items, id, id, depth);
      SelfLine(items, id);
    }
  }

  /** The cut links of a node are its kids beyond the twelfth and its kids' own cut links. */
  lemma CutBelowNode(items: Items, id: string, depth: nat)
    requires Keyed(items) && AtDepth(items, id, depth) && depth < MAX_ATTACH_DEPTH
    ensures var first := FirstKids(items, id);
      && Elements(first) <= items.Keys
      && var below := Elements(IdsAll(Subtrees(items, first, depth + 1)));
      && CutLinks(items, {id} + below) == (Kids(items, id) - Elements(first)) + CutLinks(items, below)
      && (Kids(items, id) - Elements(first)) !! CutLinks(items, below)
  {
    var first := FirstKids(items, id);
    KidListFacts(items, id);
    var below := Elements(IdsAll(Subtrees(items, first, depth + 1)));
    NodeNotCutBelow(items, id, depth);
    KidsAtDepth(items, id, depth);
    RootNotBelow(items, id, first, depth);
    forall kid | kid in Kids(items, id) ensures kid in Elements(first) <==> kid in below {
      KidPlacement(items, id, depth, kid);
    }
    CutOfUnion(items, id, Elements(first), below);
  }

  lemma CutOfUnion(items: Items, id: string, first: set<string>, below: set<string>)
    requires id !in below && id !in CutLinks(items, below) && id !in Kids(items, id)
    requires forall kid <- Kids(items, id) :: kid in first <==> kid in below
    ensures CutLinks(items, {id} + below) == (Kids(items, id) - first) + CutLinks(items, below)
    ensures (Kids(items, id) - first) !! CutLinks(items, below)
  {
  }

  lemma ParentNotInLine(items: Items, id: string, depth: nat)
    requires AtDepth(items, id, depth) && items[id].attach.Some?
    ensures items[id].attach.value.parentId !in Line(items, id)
  {
    var parent := items[id].attach.value.parentId;
    if parent in Line(items, id) {
      var steps: nat :| Above(items, id, parent, steps);
      DepthAdds(items, id, parent, depth, steps);
      DepthUnique(items, parent, depth - 1, depth + steps);
    }
  }

  lemma {:induction false} CutCountsExact(items: Items, ids: seq<string>, depth: nat)
    requires Keyed(items) && depth <= MAX_ATTACH_DEPTH && Elements(ids) <= items.Keys && NoRepeats(ids)
    requires forall id <- ids :: AtDepth(items, id, depth)
    ensures CutCounts(items, ids, depth) == |CutLinks(items, Elements(IdsAll(Subtrees(items, ids, depth))))|
    decreases MAX_ATTACH_DEPTH - depth, 1, |ids|
  {
    hide *;
    CutCountsUnfold(items, ids, depth);
    if ids == [] {
      NoSubtrees(items, depth);
      NothingCut(items);
    } else {
      var init, last := ids[..|ids| - 1], ids[|ids| - 1];
      SubtreesStep(items, ids, depth);
      InitNoRepeats(ids);
      assert forall id <- init :: id in ids && id != last;
      CutCountsExact(items, init, depth);
      CutCountExact(items, last, depth);
      var a, b := Elements(IdsAll(Subtrees(items, init, depth))), Elements(Ids(Subtree(items, last, depth)));
      SubtreeInLine(items, last, depth);
      CutLinksInLine(items, last, b);
      SubtreesDisjoint(items, init, last, depth);
      CutOfOthers(items, init, last, depth);
      CutOfBoth(items, a, b, Line(items, last));
      CardinalityOfUnion(CutLinks(items, a), CutLinks(items, b));
    }
  }

  lemma CutCountsUnfold(items: Items, ids: seq<string>, depth: nat)
    requires depth <= MAX_ATTACH_DEPTH
    ensures ids == [] ==> CutCounts(items, ids, depth) == 0
    ensures ids != [] ==> CutCounts(items, ids, depth)
                          == CutCounts(items, ids[..|ids| - 1], depth) + CutCount(items, ids[|ids| - 1], depth)
  {
    hide CutCount;
  }

  lemma NothingCut(items: Items)
    ensures CutLinks(items, {}) == {}
  {
  }

  lemma InitNoRepeats(ids: seq<string>)
    requires ids != [] && NoRepeats(ids)
    ensures NoRepeats(ids[..|ids| - 1]) && forall id <- ids[..|ids| - 1] :: id in ids && id != ids[|ids| - 1]
  {
  }

  /** Two sets of nodes that keep out of each other's way cut independently. */
  lemma CutOfBoth(items: Items, a: set<string>, b: set<string>, line: set<string>)
    requires b <= line && CutLinks(items, b) <= line && a !! line && CutLinks(items, a) !! line
    ensures CutLinks(items, a + b) == CutLinks(items, a) + CutLinks(items, b)
    ensures CutLinks(items, a) !! CutLinks(items, b)
  {
    hide Line;
  }

  /** Neither the nodes nor the cut links of other subtrees reach into a line. */
  lemma {:induction false} CutOfOthers(items: Items, ids: seq<string>, other: string, depth: nat)
    requires Keyed(items) && depth <= MAX_ATTACH_DEPTH && Elements(ids) <= items.Keys
    requires forall id <- ids :: AtDepth(items, id, depth) && id != other
    requires AtDepth(items, other, depth)
    ensures CutLinks(items, Elements(IdsAll(Subtrees(items, ids, depth)))) !! Line(items, other)
  {
    var nodes := Elements(IdsAll(Subtrees(items, ids, depth)));
    forall kid | kid in CutLinks(items, nodes) && kid in Line(items, other) ensures false {
      var parent := items[kid].attach.value.parentId;
      var steps: nat :| Above(items, other, kid, steps);
      if steps > 0 {
        assert Above(items, other, parent, steps - 1);
        SubtreesDisjoint(items, ids, other, depth);
      } else {
        var m := ParentPlacedDeeper(items, ids, depth, parent);
        DepthUnique(items, other, depth, depth + m + 1);
      }
    }
  }

  lemma {:induction false} ParentPlacedDeeper(items: Items, ids: seq<string>, depth: nat, node: string)
    returns (m: nat)
    requires Keyed(items) && depth <= MAX_ATTACH_DEPTH && Elements(ids) <= items.Keys
    requires forall id <- ids :: AtDepth(items, id, depth)
    requires node in Elements(IdsAll(Subtrees(items, ids, depth)))
    ensures AtDepth(items, node, depth + m)
  {
    SubtreesStep(items, ids, depth);
    if node in IdsAll(Subtrees(items, ids[..|ids| - 1], depth)) {
      assert forall id <- ids[..|ids| - 1] :: id in ids;
      m := ParentPlacedDeeper(items, ids[..|ids| - 1], depth, node);
    } else {
      var last := ids[|ids| - 1];
      SubtreeInLine(items, last, depth);
      m :| Above(items, last, node, m);
      DepthAdds(items, last, node, depth, m);
    }
  }

  /** The links counted while assembling the whole forest are exactly the items attached to a placed
      item without being placed. */
  lemma ForestCutExact(items: Items)
    requires Keyed(items)
    ensures CutCounts(items, FirstTops(items), 0) == |CutLinks(items, Placed(items))|
  {
    TopFacts(items);
    CutCountsExact(items, FirstTops(items), 0);
  }

  /** Items whose parent exists but whose chain never reaches a top-level item (attach cycles and what
      hangs from them or from an orphan) are neither placed nor counted. */
  lemma CyclesVanish(items: Items, id: string)
    requires Keyed(items) && id in items && items[id].attach.Some? && items[id].attach.value.parentId in items
    requires forall depth: nat :: !AtDepth(items, id, depth)
    ensures id !in Placed(items) && id !in CutLinks(items, Placed(items))
  {
    PlacementExact(items, id);
    if depth: nat :| depth <= MAX_ATTACH_DEPTH && PlacedAt(items, id, depth) { PlacedAtDepth(items, id, depth); }
    if id in CutLinks(items, Placed(items)) {
      var parent := items[id].attach.value.parentId;
      PlacementExact(items, parent);
      var depth: nat :| depth <= MAX_ATTACH_DEPTH && PlacedAt(items, parent, depth);
      PlacedAtDepth(items, parent, depth);
      assert AtDepth(items, id, depth + 1);
    }
  }

  /** An orphan, an item attached to it, and an item attached to itself. */
  function Strays(item: SpokenItem): Items {
    map["orphan" := item.(id := "orphan", attach := Some(AttachLink("nowhere"))),
        "below" := item.(id := "below", attach := Some(AttachLink("orphan"))),
        "self" := item.(id := "self", attach := Some(AttachLink("self")))]
  }

  lemma StrayLinks(item: SpokenItem)
    ensures var items := Strays(item);
      && Keyed(items) && items.Keys == {"orphan", "below", "self"} && "nowhere" !in items
      && items["orphan"].attach == Some(AttachLink("nowhere"))
      && items["below"].attach == Some(AttachLink("orphan")) && items["self"].attach == Some(AttachLink("self"))
  {
    assert |"orphan"| == 6 && |"below"| == 5 && |"self"| == 4 && |"nowhere"| == 7;
  }

  lemma {:induction false} StraysHaveNoDepth(item: SpokenItem, id: string, depth: nat)
    requires id in Strays(item)
    ensures !AtDepth(Strays(item), id, depth)
    decreases depth
  {
    hide Strays;
    StrayLinks(item);
    if depth > 0 && id != "orphan" {
      StraysHaveNoDepth(item, if id == "below" then "orphan" else "self", depth - 1);
    }
  }

  /** Both kinds of vanishing item exist: what hangs from an orphan, and a cycle. */
  lemma StraysVanish(item: SpokenItem, id: string)
    requires id == "below" || id == "self"
    ensures var items := Strays(item);
      && id in items && items[id].attach.Some? && items[id].attach.value.parentId in items
      && id !in Placed(items) && id !in CutLinks(items, Placed(items))
  {
    hide *;
    StrayLinks(item);
    var items := Strays(item);
    forall depth: nat ensures !AtDepth(items, id, depth) { StraysHaveNoDepth(item, id, depth); }
    CyclesVanish(items, id);
  }
}
