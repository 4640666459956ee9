/**
 `project` as the source runs it: loops that fill and drain maps, sorting in place, and a recursive
 assembly that shares one `visited` set and one rejection counter. Maps are drained in any key
 order, so the results hold for the source's sorted order in particular.
 */
module Projector {
  import opened Contract
  import opened Text
  import opened Order
  import opened Parser
  import opened Answers
  import opened Latest
  import opened Forest
  import opened Projection

  type AnswerMap = map<string, seq<AnswerBundle>>

  /** Draining one key of `all` from `rest`. */
  lemma Drain(all: set<string>, rest: set<string>, id: string)
    requires id in rest && rest <= all
    ensures all - (rest - {id}) == (all - rest) + {id} && id !in all - rest && rest - {id} <= all && id in all
    ensures |rest - {id}| < |rest|
  {
  }

  function ListOr<T>(lists: map<string, seq<T>>, key: string): seq<T> {
    if key in lists then lists[key] else []
  }

  /** `answers` groups the answers of `events` by root. */
  ghost predicate Groups(answers: AnswerMap, events: Events) {
    forall root :: ListOr(answers, root) == AnswersTo(events, root)
  }

  // ----- the fold over the rows -----

  lemma FoldStep(rows: seq<Event>, k: nat, group: string)
    requires k < |rows|
    ensures var before, after := ParseAll(rows[..k], group), ParseAll(rows[..k + 1], group);
      |after| == k + 1 && after[..k] == before && after[k] == Parse(rows[k], group)
  {
    hide Parse;
  }

  lemma ReactionsStep(events: Events)
    requires events != []
    ensures var last := events[|events| - 1];
      ReactionsOf(events) == if last.Some? && last.value.ReactionEvent?
                             then ReplaceLatest(ReactionsOf(events[..|events| - 1]),
                                                ReactionEntryOf(last.value.reaction))
                             else ReactionsOf(events[..|events| - 1])
  {
    var init, last := ReactionEntries(events[..|events| - 1]), events[|events| - 1];
    if last.Some? && last.value.ReactionEvent? {
      var all := ReactionEntries(events);
      assert all[..|all| - 1] == init && all[|all| - 1] == ReactionEntryOf(last.value.reaction);
    } else {
      assert ReactionEntries(events) == init;
    }
  }

  lemma GroupsStep(answers: AnswerMap, events: Events)
    requires events != [] && Groups(answers, events[..|events| - 1])
    ensures var last := events[|events| - 1];
      if last.Some? && last.value.AnswerEvent? then
        var e := last.value.answer;
        Groups(answers[e.rootId := ListOr(answers, e.rootId) + [e.value]], events)
      else Groups(answers, events)
  {
    var last := events[|events| - 1];
    if last.Some? && last.value.AnswerEvent? {
      var e := last.value.answer;
      var more := answers[e.rootId := ListOr(answers, e.rootId) + [e.value]];
      forall root ensures ListOr(more, root) == AnswersTo(events, root) {
        assert ListOr(answers, root) == AnswersTo(events[..|events| - 1], root);
      }
    } else {
      forall root ensures ListOr(answers, root) == AnswersTo(events, root) {
        assert ListOr(answers, root) == AnswersTo(events[..|events| - 1], root);
      }
    }
  }

  method FoldRows(rows: seq<Event>, group: string)
    returns (items: Items, answers: AnswerMap, acknowledgements: Acks, reactions: Reactions, rejected: nat)
    ensures var events := ParseAll(rows, group);
      && items == ItemsOf(events) && Groups(answers, events) && acknowledgements == AcksOf(events)
      && reactions == ReactionsOf(events) && rejected == Unparsed(events)
  {
    hide Parse, AcksOf, ReactionsOf, ParseAll, Groups;
    items, answers, acknowledgements, reactions, rejected := map[], map[], map[], map[], 0;
    assert ParseAll(rows[..0], group) == [] && AcksOf([]) == map[] && ReactionsOf([]) == map[] by {
      NoEvents(rows, group);
    }
    assert Groups(map[], []) by { NoGroups(); }
    for k := 0 to |rows|
      invariant items == ItemsOf(ParseAll(rows[..k], group))
      invariant Groups(answers, ParseAll(rows[..k], group))
      invariant acknowledgements == AcksOf(ParseAll(rows[..k], group))
      invariant reactions == ReactionsOf(ParseAll(rows[..k], group))
      invariant rejected == Unparsed(ParseAll(rows[..k], group))
    {
      ghost var after := ParseAll(rows[..k + 1], group);
      FoldStep(rows, k, group);
      GroupsStep(answers, after);
      AcksStep(after);
      ReactionsStep(after);
      match Parse(rows[k], group)
      case Some(ItemEvent(item)) =>
        items := items[item.id := item];
      case Some(AnswerEvent(event)) =>
        answers := answers[event.rootId := ListOr(answers, event.rootId) + [event.value]];
      case Some(AcknowledgementEvent(event)) =>
        acknowledgements := ReplaceLatest(acknowledgements, AckEntryOf(event));
      case Some(ReactionEvent(event)) =>
        reactions := ReplaceLatest(reactions, ReactionEntryOf(event));
      case None =>
        rejected := rejected + 1;
    }
    assert rows[..|rows|] == rows;
  }

  lemma NoEvents(rows: seq<Event>, group: string)
    ensures ParseAll(rows[..0], group) == [] && AcksOf([]) == map[] && ReactionsOf([]) == map[]
  {
  }

  lemma NoGroups()
    ensures Groups(map[], [])
  {
  }

  // ----- answers counted by root -----

  ghost predicate AnswersOneOf(roots: set<string>, e: Option<ParsedEvent>) {
    e.Some? && e.value.AnswerEvent? && e.value.answer.rootId in roots
  }

  /** Answers whose root is one of `roots`. */
  ghost function AnswersWithin(events: Events, roots: set<string>): nat {
    Tally(events, e => AnswersOneOf(roots, e))
  }

  lemma {:induction false} AnswersWithinMore(events: Events, roots: set<string>, root: string)
    requires root !in roots
    ensures AnswersWithin(events, roots + {root}) == AnswersWithin(events, roots) + |AnswersTo(events, root)|
  {
    if events != [] { AnswersWithinMore(events[..|events| - 1], roots, root); }
  }

  /** The sum over the answer map of the lists with an unknown root. */
  method CountUnknownAnswers(answers: AnswerMap, known: set<string>, ghost events: Events) returns (count: nat)
    requires Groups(answers, events)
    ensures count == AnswersWithin(events, answers.Keys - known)
  {
    count := 0;
    var rest := answers.Keys - known;
    ghost var done: set<string> := {};
    NoneWithin(events);
    hide *;
    while rest != {}
      invariant done + rest == answers.Keys - known && done !! rest
      invariant count == AnswersWithin(events, done)
      decreases |rest|
    {
      var root :| root in rest;
      AnswersWithinMore(events, done, root);
      GroupAt(answers, events, root);
      count := count + |answers[root]|;
      rest, done := rest - {root}, done + {root};
    }
    assert done == answers.Keys - known;
  }

  lemma NoneWithin(events: Events)
    ensures AnswersWithin(events, {}) == 0
  {
    TallyNone(events, e => AnswersOneOf({}, e));
  }

  lemma GroupAt(answers: AnswerMap, events: Events, root: string)
    requires Groups(answers, events) && root in answers
    ensures answers[root] == AnswersTo(events, root)
  {
    hide AnswersTo;
    assert ListOr(answers, root) == AnswersTo(events, root);
  }

  ghost predicate UnfitOneOf(items: Items, roots: set<string>, e: Option<ParsedEvent>) {
    && AnswersOneOf(roots, e) && e.value.answer.rootId in items
    && !ValidAnswer(items[e.value.answer.rootId].questions, e.value.answer.value)
  }

  /** Answers to one of `roots` that do not fit its questions. */
  ghost function UnfitWithin(items: Items, events: Events, roots: set<string>): nat {
    Tally(events, e => UnfitOneOf(items, roots, e))
  }

  lemma {:induction false} UnfitWithinMore(items: Items, events: Events, roots: set<string>, root: string)
    requires root !in roots && root in items
    ensures |ValidOnes(items[root].questions, AnswersTo(events, root))| <= |AnswersTo(events, root)|
    ensures UnfitWithin(items, events, roots + {root})
         == UnfitWithin(items, events, roots)
            + (|AnswersTo(events, root)| - |ValidOnes(items[root].questions, AnswersTo(events, root))|)
  {
    if events != [] {
      UnfitWithinMore(items, events[..|events| - 1], roots, root);
      var init, last := AnswersTo(events[..|events| - 1], root), events[|events| - 1];
      var all := AnswersTo(events, root);
      if all != init { assert all[..|all| - 1] == init; }
    }
  }

  /** Unknown roots and unfit values together are the bad answers. */
  lemma BadAnswersSplit(items: Items, events: Events, keys: set<string>)
    requires forall e <- events :: e.Some? && e.value.AnswerEvent? ==> e.value.answer.rootId in keys
    ensures BadAnswers(items, events)
         == AnswersWithin(events, keys - items.Keys) + UnfitWithin(items, events, items.Keys)
  {
    TallySplits(events, e => AnswersOneOf(keys - items.Keys, e), e => UnfitOneOf(items, items.Keys, e),
                e => RejectedAnswer(items, e));
  }

  lemma {:induction false} GroupKeys(answers: AnswerMap, events: Events)
    requires Groups(answers, events)
    ensures forall e <- events :: e.Some? && e.value.AnswerEvent? ==> e.value.answer.rootId in answers
  {
    forall e | e in events && e.Some? && e.value.AnswerEvent? ensures e.value.answer.rootId in answers {
      var root := e.value.answer.rootId;
      AnswersMembers(events, root);
      assert e.value.answer == Related(root, e.value.answer.value);
      assert e.value.answer.value in ListOr(answers, root);
    }
  }

  // ----- resolving the items -----

  /** `partition` by validity. */
  method Partition(questions: seq<Question>, candidates: seq<AnswerBundle>)
    returns (valid: seq<AnswerBundle>, invalid: seq<AnswerBundle>)
    ensures valid == ValidOnes(questions, candidates) && |invalid| == |candidates| - |valid|
  {
    valid, invalid := [], [];
    for k := 0 to |candidates|
      invariant valid == ValidOnes(questions, candidates[..k]) && |valid| + |invalid| == k
    {
      assert candidates[..k + 1][..k] == candidates[..k];
      var fits := CheckAnswer(questions, candidates[k]);
      if fits { valid := valid + [candidates[k]]; } else { invalid := invalid + [candidates[k]]; }
    }
    assert candidates[..|candidates|] == candidates;
  }

  /** The keys of a sorted map, in order. */
  method SortedKeys(keys: set<string>) returns (list: seq<string>)
    ensures Lists(ByText, list, keys)
  {
    hide SortIds, Ascending;
    var rest := keys;
    list := [];
    while rest != {}
      invariant Elements(list) + rest == keys && Elements(list) !! rest && NoRepeats(list)
      decreases |rest|
    {
      var key :| key in rest;
      assert forall i :: 0 <= i < |list| ==> list[i] in Elements(list);
      list, rest := list + [key], rest - {key};
    }
    SortLists(ByText, list);
    list := SortIds(ByText, list);
  }

  /** `grouped` holds the active reactors of one item among the keys seen. */
  ghost predicate GroupsReactors(grouped: map<string, seq<string>>, root: string, reactions: Reactions,
                                 seen: set<ReactionKey>)
  {
    && (forall emoji <- grouped :: grouped[emoji] != [])
    && (forall emoji :: NoRepeats(ListOr(grouped, emoji)))
    && (forall emoji, author :: author in ListOr(grouped, emoji) <==>
          (root, author, emoji) in seen && (root, author, emoji) in reactions
          && reactions[(root, author, emoji)].value.active)
  }

  lemma GroupReactor(grouped: map<string, seq<string>>, root: string, reactions: Reactions, seen: set<ReactionKey>,
                     key: ReactionKey)
    requires GroupsReactors(grouped, root, reactions, seen) && key in reactions && key !in seen
    ensures if key.0 == root && reactions[key].value.active then
              GroupsReactors(grouped[key.2 := ListOr(grouped, key.2) + [key.1]], root, reactions, seen + {key})
            else GroupsReactors(grouped, root, reactions, seen + {key})
  {
    assert key == (key.0, key.1, key.2);
    if key.0 == root && reactions[key].value.active {
      var before := ListOr(grouped, key.2);
      var more := grouped[key.2 := before + [key.1]];
      assert key.1 !in before;
      NoRepeatsMore(before, key.1);
      forall emoji, author
        ensures author in ListOr(more, emoji) <==>
          (root, author, emoji) in seen + {key} && (root, author, emoji) in reactions
          && reactions[(root, author, emoji)].value.active
      {
        assert author in ListOr(grouped, emoji) <==>
          (root, author, emoji) in seen && (root, author, emoji) in reactions
          && reactions[(root, author, emoji)].value.active;
        if emoji == key.2 { assert author in ListOr(more, emoji) <==> author in before || author == key.1; }
      }
      forall emoji ensures NoRepeats(ListOr(more, emoji)) { assert NoRepeats(ListOr(grouped, emoji)); }
    }
  }

  /** `reaction_summaries`. */
  method ReactionSummaries(root: string, reactions: Reactions) returns (list: seq<ReactionSummary>)
    ensures list == Summaries(root, reactions)
  {
    var grouped: map<string, seq<string>> := map[];
    var all := reactions.Keys;
    var rest := all;
    assert GroupsReactors(grouped, root, reactions, {});
    hide *;
    NoneDone(all);
    while rest != {}
      invariant rest <= all && GroupsReactors(grouped, root, reactions, all - rest)
      decreases |rest|
    {
      var key :| key in rest;
      GroupReactor(grouped, root, reactions, all - rest, key);
      if key.0 == root && reactions[key].value.active {
        grouped := grouped[key.2 := ListOr(grouped, key.2) + [key.1]];
      }
      OneMoreDone(all, rest, key);
      rest := rest - {key};
    }
    forall emoji ensures ReactorsListed(grouped, root, reactions, emoji) {
      GroupedReactors(grouped, root, reactions, emoji);
    }
    GroupedEmojis(grouped, root, reactions);
    list := SummarizeGroups(root, reactions, grouped);
  }

  lemma NoneDone<T>(all: set<T>)
    ensures all - all == {} && all - {} == all
  {
  }

  lemma OneMoreDone<T>(all: set<T>, rest: set<T>, key: T)
    requires rest <= all && key in rest
    ensures all - (rest - {key}) == (all - rest) + {key} && |rest - {key}| < |rest|
  {
  }

  ghost predicate ReactorsListed(grouped: map<string, seq<string>>, root: string, reactions: Reactions, emoji: string) {
    NoRepeats(ListOr(grouped, emoji)) && Elements(ListOr(grouped, emoji)) == Reactors(root, emoji, reactions)
  }

  lemma GroupedReactors(grouped: map<string, seq<string>>, root: string, reactions: Reactions, emoji: string)
    requires GroupsReactors(grouped, root, reactions, reactions.Keys)
    ensures ReactorsListed(grouped, root, reactions, emoji)
  {
    forall author | author in Reactors(root, emoji, reactions) ensures author in ListOr(grouped, emoji) {
      var k :| k in reactions && k.0 == root && k.2 == emoji && reactions[k].value.active && k.1 == author;
      assert k == (root, author, emoji);
    }
    forall author | author in ListOr(grouped, emoji) ensures author in Reactors(root, emoji, reactions) {
      var k := (root, author, emoji);
      assert k in reactions && k.1 == author;
    }
  }

  lemma GroupedEmojis(grouped: map<string, seq<string>>, root: string, reactions: Reactions)
    requires GroupsReactors(grouped, root, reactions, reactions.Keys)
    ensures grouped.Keys == Emojis(root, reactions)
  {
    forall emoji | emoji in grouped ensures emoji in Emojis(root, reactions) {
      var author := grouped[emoji][0];
      assert author in ListOr(grouped, emoji);
      var k := (root, author, emoji);
      assert k in reactions && k.2 == emoji;
    }
    forall emoji | emoji in Emojis(root, reactions) ensures emoji in grouped {
      var k :| k in reactions && k.0 == root && reactions[k].value.active && k.2 == emoji;
      assert k == (root, k.1, emoji) && k.1 in ListOr(grouped, emoji);
    }
  }

  method SummarizeGroups(root: string, reactions: Reactions, grouped: map<string, seq<string>>)
    returns (list: seq<ReactionSummary>)
    requires forall emoji :: ReactorsListed(grouped, root, reactions, emoji)
    requires grouped.Keys == Emojis(root, reactions)
    ensures list == Summaries(root, reactions)
  {
    var emojis := SortedKeys(grouped.Keys);
    ListingUnique(ByText, emojis, Listing(ByText, Emojis(root, reactions)), Emojis(root, reactions));
    list := [];
    for i := 0 to |emojis|
      invariant |list| == i && forall j :: 0 <= j < i ==> list[j] == SummaryOf(root, emojis[j], reactions)
    {
      assert emojis[i] in Elements(emojis);
      var authors := grouped[emojis[i]];
      assert ReactorsListed(grouped, root, reactions, emojis[i]);
      ghost var reactors := Reactors(root, emojis[i], reactions);
      PrefixSize(authors);
      SortLists(ByText, authors);
      ListingUnique(ByText, SortIds(ByText, authors), Listing(ByText, reactors), reactors);
      list := list + [ReactionSummary(emojis[i], |authors|, SortIds(ByText, authors))];
    }
  }

  lemma ResolvedItem(viewer: Option<string>, events: Events, id: string, answer: Option<AnswerBundle>)
    requires id in ItemsOf(events)
    requires answer == SelectAnswer(ItemsOf(events)[id].questions, AnswersTo(events, id))
    ensures ItemsOf(events)[id].id == id
    ensures Resolve(viewer, events)[id]
         == ItemsOf(events)[id].(answer := answer, acknowledgement := AckBy(id, viewer, AcksOf(events)),
                                 reactions := Summaries(id, ReactionsOf(events)))
  {
    ItemsMembers(events);
  }

  lemma AckDrained(pending: Acks, viewer: Option<string>, id: string, other: string)
    requires viewer.Some? && other != id
    ensures AckBy(other, viewer, pending - {(id, viewer.value)}) == AckBy(other, viewer, pending)
  {
  }

  /** The pending maps once `id` has been resolved. */
  function AnswersLeft(answers: AnswerMap, id: string): AnswerMap {
    answers - {id}
  }

  function AcksLeft(acks: Acks, viewer: Option<string>, id: string): Acks {
    if viewer.Some? then acks - {(id, viewer.value)} else acks
  }

  /** The draining maps still hold what the remaining items need. */
  ghost predicate Undrained(rest: set<string>, pendingAnswers: AnswerMap, pendingAcks: Acks, viewer: Option<string>,
                            events: Events)
  {
    && (forall id <- rest :: ListOr(pendingAnswers, id) == AnswersTo(events, id))
    && (forall id <- rest :: AckBy(id, viewer, pendingAcks) == AckBy(id, viewer, AcksOf(events)))
  }

  lemma StillUndrained(rest: set<string>, pendingAnswers: AnswerMap, pendingAcks: Acks, viewer: Option<string>,
                       events: Events, id: string)
    requires Undrained(rest, pendingAnswers, pendingAcks, viewer, events)
    ensures Undrained(rest - {id}, AnswersLeft(pendingAnswers, id), AcksLeft(pendingAcks, viewer, id), viewer, events)
  {
    forall other | other in rest - {id}
      ensures ListOr(pendingAnswers - {id}, other) == AnswersTo(events, other)
    {
      assert ListOr(pendingAnswers, other) == AnswersTo(events, other);
    }
    if viewer.Some? {
      forall other | other in rest - {id} { AckDrained(pendingAcks, viewer, id, other); }
    }
  }

  /** What one turn of the resolving loop finds for `id`. */
  lemma ResolveStep(items: Items, rest: set<string>, done: set<string>, pendingAnswers: AnswerMap, pendingAcks: Acks,
                    viewer: Option<string>, events: Events, id: string)
    requires items == ItemsOf(events) && id in rest && id in items && id !in done
    requires Undrained(rest, pendingAnswers, pendingAcks, viewer, events)
    ensures items[id].id == id && id in Resolve(viewer, events)
    ensures var candidates := ListOr(pendingAnswers, id);
      var valid := ValidOnes(items[id].questions, candidates);
      && Resolve(viewer, events)[id]
           == items[id].(answer := Best(valid), acknowledgement := AckBy(id, viewer, pendingAcks),
                         reactions := Summaries(id, ReactionsOf(events)))
      && |valid| <= |candidates|
      && UnfitWithin(items, events, done + {id})
           == UnfitWithin(items, events, done) + (|candidates| - |valid|)
  {
    UndrainedAt(rest, pendingAnswers, pendingAcks, viewer, events, id);
    assert Resolve(viewer, events).Keys == items.Keys;
    UnfitWithinMore(items, events, done, id);
    hide Resolve, AckBy, Undrained, UnfitWithin, AnswersTo, ListOr, ItemsOf, Summaries, ValidOnes, Best, AcksOf,
         ReactionsOf;
    ResolvedItem(viewer, events, id, SelectAnswer(items[id].questions, AnswersTo(events, id)));
  }

  lemma NothingResolved(items: Items, answers: AnswerMap, viewer: Option<string>, events: Events)
    requires items == ItemsOf(events) && Groups(answers, events)
    ensures Undrained(items.Keys, answers, AcksOf(events), viewer, events)
    ensures UnfitWithin(items, events, {}) == 0
    ensures Resolve(viewer, events).Keys == items.Keys
  {
    assert forall id <- items.Keys :: ListOr(answers, id) == AnswersTo(events, id);
    TallyNone(events, e => UnfitOneOf(items, {}, e));
  }

  /** `resolved` is `goal` on the ids `done`. */
  ghost predicate Matches(resolved: Items, goal: Items, done: set<string>) {
    resolved.Keys == done && forall id <- done :: id in goal && resolved[id] == goal[id]
  }

  lemma MatchesMore(resolved: Items, goal: Items, done: set<string>, id: string, value: SpokenItem)
    requires Matches(resolved, goal, done) && id in goal && value == goal[id]
    ensures Matches(resolved[id := value], goal, done + {id})
  {
  }

  lemma MatchesAll(resolved: Items, goal: Items)
    ensures Matches(map[], goal, {})
    ensures Matches(resolved, goal, goal.Keys) ==> resolved == goal
  {
  }

  /** One item resolved: its answers and the viewer's acknowledgement leave the pending maps. */
  method ResolveItem(item: SpokenItem, reactions: Reactions, viewer: Option<string>, answers: AnswerMap, acks: Acks)
    returns (found: SpokenItem, pendingAnswers: AnswerMap, pendingAcks: Acks, invalid: nat)
    ensures var candidates := ListOr(answers, item.id);
      var valid := ValidOnes(item.questions, candidates);
      && found == item.(answer := Best(valid), acknowledgement := AckBy(item.id, viewer, acks),
                        reactions := Summaries(item.id, reactions))
      && invalid == |candidates| - |valid|
    ensures pendingAnswers == AnswersLeft(answers, item.id) && pendingAcks == AcksLeft(acks, viewer, item.id)
  {
    hide *;
    var candidates := ListOr(answers, item.id);
    pendingAnswers := AnswersLeft(answers, item.id);
    var valid, unfit := Partition(item.questions, candidates);
    var ack := AckBy(item.id, viewer, acks);
    pendingAcks := AcksLeft(acks, viewer, item.id);
    var summaries := ReactionSummaries(item.id, reactions);
    found := item.(answer := Best(valid), acknowledgement := ack, reactions := summaries);
    invalid := |unfit|;
  }

  /** Resolving related state per item, draining answers and the viewer's acknowledgements. */
  method ResolveItems(items: Items, answers: AnswerMap, acknowledgements: Acks, reactions: Reactions,
                      viewer: Option<string>, ghost events: Events)
    returns (resolved: Items, rejected: nat)
    requires items == ItemsOf(events) && Groups(answers, events) && acknowledgements == AcksOf(events)
    requires reactions == ReactionsOf(events)
    ensures resolved == Resolve(viewer, events) && rejected == UnfitWithin(items, events, items.Keys)
  {
    hide *;
    var pendingAnswers, pendingAcks := answers, acknowledgements;
    resolved, rejected := map[], 0;
    var rest := items.Keys;
    ghost var done: set<string> := {};
    NothingResolved(items, answers, viewer, events);
    ghost var goal := Resolve(viewer, events);
    MatchesAll(map[], goal);
    while rest != {}
      invariant rest <= items.Keys && done == items.Keys - rest
      invariant Matches(resolved, goal, done)
      invariant Undrained(rest, pendingAnswers, pendingAcks, viewer, events)
      invariant rejected == UnfitWithin(items, events, done)
      decreases |rest|
    {
      var id :| id in rest;
      Drain(items.Keys, rest, id);
      ResolveStep(items, rest, done, pendingAnswers, pendingAcks, viewer, events, id);
      StillUndrained(rest, pendingAnswers, pendingAcks, viewer, events, id);
      var found, fewerAnswers, fewerAcks, invalid :=
        ResolveItem(items[id], reactions, viewer, pendingAnswers, pendingAcks);
      MatchesMore(resolved, goal, done, id, found);
      pendingAnswers, pendingAcks, rejected := fewerAnswers, fewerAcks, rejected + invalid;
      resolved := resolved[id := found];
      rest, done := rest - {id}, done + {id};
    }
    assert done == items.Keys;
    MatchesAll(resolved, goal);
  }

  lemma UndrainedAt(rest: set<string>, pendingAnswers: AnswerMap, pendingAcks: Acks, viewer: Option<string>,
                    events: Events, id: string)
    requires Undrained(rest, pendingAnswers, pendingAcks, viewer, events) && id in rest
    ensures ListOr(pendingAnswers, id) == AnswersTo(events, id)
    ensures AckBy(id, viewer, pendingAcks) == AckBy(id, viewer, AcksOf(events))
  {
  }

  // ----- indexing and ordering -----

  ghost function Unattached(items: Items): set<string> {
    set id | id in items && items[id].attach.None?
  }

  ghost predicate Indexes(children: map<string, seq<string>>, top: seq<string>, items: Items, done: set<string>) {
    && NoRepeats(top) && Elements(top) == Unattached(items) * done
    && (forall p <- children :: NoRepeats(children[p]) && p in items)
    && (forall p :: p in items ==> Elements(ListOr(children, p)) == Kids(items, p) * done)
  }

  lemma NothingIndexed(items: Items)
    ensures Indexes(map[], [], items, {}) && |Orphans(items) * {}| == 0
  {
  }

  /** Where `id` belongs, and that nothing is counted twice. */
  lemma IndexStep(children: map<string, seq<string>>, top: seq<string>, items: Items, done: set<string>, id: string)
    requires Indexes(children, top, items, done) && done <= items.Keys && id in items && id !in done
    ensures var link := items[id].attach;
      if link.None? then
        && Indexes(children, top + [id], items, done + {id})
        && |Orphans(items) * (done + {id})| == |Orphans(items) * done|
      else if link.value.parentId in items then
        var parent := link.value.parentId;
        && Indexes(children[parent := ListOr(children, parent) + [id]], top, items, done + {id})
        && |Orphans(items) * (done + {id})| == |Orphans(items) * done|
      else
        && Indexes(children, top, items, done + {id})
        && |Orphans(items) * (done + {id})| == |Orphans(items) * done| + 1
  {
    var link := items[id].attach;
    if link.None? {
      IndexTop(children, top, items, done, id);
      assert Orphans(items) * (done + {id}) == Orphans(items) * done;
    } else if link.value.parentId in items {
      var parent := link.value.parentId;
      assert id !in Elements(ListOr(children, parent));
      IndexKid(children, top, items, done, id, parent);
      assert Orphans(items) * (done + {id}) == Orphans(items) * done;
    } else {
      IndexOrphan(children, top, items, done, id);
      assert Orphans(items) * (done + {id}) == Orphans(items) * done + {id};
    }
  }

  lemma AllIndexed(items: Items)
    ensures Orphans(items) * items.Keys == Orphans(items)
  {
  }

  /** Top-level ids, kids by present parent, and the number of orphans. */
  method IndexChildren(items: Items) returns (children: map<string, seq<string>>, top: seq<string>, orphans: nat)
    ensures Indexes(children, top, items, items.Keys) && orphans == |Orphans(items)|
  {
    children, top, orphans := map[], [], 0;
    var rest := items.Keys;
    ghost var done: set<string> := {};
    hide *;
    NothingIndexed(items);
    while rest != {}
      invariant rest <= items.Keys && done == items.Keys - rest
      invariant Indexes(children, top, items, done)
      invariant orphans == |Orphans(items) * done|
      decreases |rest|
    {
      var id :| id in rest;
      Drain(items.Keys, rest, id);
      IndexStep(children, top, items, done, id);
      var link := items[id].attach;
      if link.Some? && link.value.parentId in items {
        var parent := link.value.parentId;
        children := children[parent := ListOr(children, parent) + [id]];
      } else if link.Some? {
        orphans := orphans + 1;
      } else {
        top := top + [id];
      }
      rest, done := rest - {id}, done + {id};
    }
    assert done == items.Keys;
    AllIndexed(items);
  }

  lemma NoRepeatsMore(list: seq<string>, id: string)
    requires NoRepeats(list) && id !in list
    ensures NoRepeats(list + [id]) && Elements(list + [id]) == Elements(list) + {id}
  {
  }

  lemma IndexKid(children: map<string, seq<string>>, top: seq<string>, items: Items, done: set<string>, id: string,
                 parent: string)
    requires Indexes(children, top, items, done) && done <= items.Keys
    requires id in items && id !in done && items[id].attach == Some(AttachLink(parent)) && parent in items
    requires id !in ListOr(children, parent)
    ensures Indexes(children[parent := ListOr(children, parent) + [id]], top, items, done + {id})
  {
    NoRepeatsMore(ListOr(children, parent), id);
    var more := children[parent := ListOr(children, parent) + [id]];
    forall p | p in items ensures Elements(ListOr(more, p)) == Kids(items, p) * (done + {id}) {
      assert Elements(ListOr(children, p)) == Kids(items, p) * done;
    }
  }

  lemma IndexOrphan(children: map<string, seq<string>>, top: seq<string>, items: Items, done: set<string>, id: string)
    requires Indexes(children, top, items, done) && done <= items.Keys
    requires id in items && id !in done && items[id].attach.Some? && items[id].attach.value.parentId !in items
    ensures Indexes(children, top, items, done + {id})
  {
    forall p | p in items ensures Elements(ListOr(children, p)) == Kids(items, p) * (done + {id}) {
      assert Elements(ListOr(children, p)) == Kids(items, p) * done;
    }
  }

  lemma IndexTop(children: map<string, seq<string>>, top: seq<string>, items: Items, done: set<string>, id: string)
    requires Indexes(children, top, items, done) && done <= items.Keys
    requires id in items && id !in done && items[id].attach.None?
    ensures Indexes(children, top + [id], items, done + {id})
  {
    assert id !in Elements(top);
    NoRepeatsMore(top, id);
    forall p | p in items ensures Elements(ListOr(children, p)) == Kids(items, p) * (done + {id}) {
      assert Elements(ListOr(children, p)) == Kids(items, p) * done;
    }
  }

  /** Every parent's kids in sibling order. */
  ghost predicate Sorted(children: map<string, seq<string>>, items: Items) {
    && (forall p <- children :: p in items)
    && (forall p <- items :: ListOr(children, p) == KidList(items, p))
  }

  method SortChildren(items: Items, children: map<string, seq<string>>, ghost top: seq<string>)
    returns (sorted: map<string, seq<string>>)
    requires Indexes(children, top, items, items.Keys)
    ensures Sorted(sorted, items)
  {
    sorted := children;
    var rest := children.Keys;
    var order := Oldest(CreatedOf(items));
    hide *;
    while rest != {}
      invariant rest <= children.Keys == sorted.Keys
      invariant forall p <- rest :: sorted[p] == children[p]
      invariant forall p <- children.Keys - rest :: sorted[p] == KidList(items, p)
      decreases |rest|
    {
      var p :| p in rest;
      SortsKids(items, children, top, p);
      sorted := sorted[p := SortIds(order, sorted[p])];
      rest := rest - {p};
    }
    forall p ensures p in sorted ==> p in items { SortsKids(items, children, top, p); }
    forall p | p in items && p !in sorted ensures KidList(items, p) == [] { SortsKids(items, children, top, p); }
    AllSorted(items, sorted);
  }

  /** Sorting the listed children of an item lists its kids; an item without a list has none. */
  lemma SortsKids(items: Items, children: map<string, seq<string>>, top: seq<string>, p: string)
    requires Indexes(children, top, items, items.Keys)
    ensures p in children ==> p in items && SortIds(Oldest(CreatedOf(items)), children[p]) == KidList(items, p)
    ensures p in items && p !in children ==> KidList(items, p) == []
  {
    hide SortIds, KidList, Kids, CreatedOf;
    var order, kids := Oldest(CreatedOf(items)), ListOr(children, p);
    if p in children || p in items {
      KidsAreItems(items, p);
      assert Elements(kids) == Kids(items, p) * items.Keys == Kids(items, p);
      if p in children {
        SortLists(order, kids);
        KidListLists(items, p);
        ListingUnique(order, SortIds(order, kids), KidList(items, p), Kids(items, p));
      } else {
        KidListFacts(items, p);
      }
    }
  }

  lemma KidListLists(items: Items, p: string)
    ensures Lists(Oldest(CreatedOf(items)), KidList(items, p), Kids(items, p))
  {
  }

  lemma AllSorted(items: Items, sorted: map<string, seq<string>>)
    requires forall p <- sorted :: p in items && sorted[p] == KidList(items, p)
    requires forall p | p in items && p !in sorted :: KidList(items, p) == []
    ensures Sorted(sorted, items)
  {
    hide KidList;
  }

  /** `retain`, `sort_by` and `truncate` on the top-level ids. */
  method OrderTops(items: Items, top: seq<string>) returns (list: seq<string>)
    requires NoRepeats(top) && Elements(top) == Unattached(items)
    ensures list == FirstTops(items)
  {
    var kept: seq<string> := [];
    for k := 0 to |top|
      invariant NoRepeats(kept) && Elements(kept) == set id | id in top[..k] && id in items && !IsHidden(items[id])
    {
      assert top[k] in Elements(top);
      if !IsHidden(items[top[k]]) {
        assert top[k] !in Elements(kept);
        NoRepeatsMore(kept, top[k]);
        kept := kept + [top[k]];
      }
      assert top[..k + 1] == top[..k] + [top[k]];
    }
    assert Elements(kept) == Tops(items) by {
      assert top[..|top|] == top;
      forall id | id in Tops(items) ensures id in Elements(kept) { assert id in Elements(top); }
      forall id | id in Elements(kept) ensures id in Tops(items) { assert id in Elements(top); }
    }
    var order := Newest(CreatedOf(items));
    SortLists(order, kept);
    ListingUnique(order, SortIds(order, kept), TopList(items), Tops(items));
    list := Take(SortIds(order, kept), MAX_PROJECTED_ITEMS);
  }

  // ----- assembly -----

  /** Nothing at or below the node has been visited yet, and the node's depth is its attach depth. */
  ghost predicate Fresh(items: Items, id: string, depth: nat, visited: set<string>) {
    Keyed(items) && depth <= MAX_ATTACH_DEPTH && AtDepth(items, id, depth) && visited !! Line(items, id)
  }

  /** `assemble_subtree`. A visited or missing id is refused; a fresh one yields exactly its subtree,
      marks exactly the subtree's ids and counts exactly its cut links. */
  method AssembleSubtree(items: Items, children: map<string, seq<string>>, id: string, depth: nat,
                         visited: set<string>, rejected: nat)
    returns (tree: Option<SpokenItem>, seen: set<string>, count: nat)
    requires Sorted(children, items)
    ensures id in visited ==> tree.None? && seen == visited && count == rejected
    ensures id !in visited && id !in items ==> tree.None? && seen == visited + {id} && count == rejected
    ensures id !in visited && id in items ==> tree.Some?
    ensures Fresh(items, id, depth, visited) ==>
              tree == Some(Subtree(items, id, depth)) && count == rejected + CutCount(items, id, depth)
              && seen == visited + Elements(Ids(Subtree(items, id, depth)))
    decreases if depth < MAX_ATTACH_DEPTH then MAX_ATTACH_DEPTH - depth else 0
  {
    hide *;
    if id in items { NotFreshWhenVisited(items, id, depth, visited); }
    ghost var isFresh := Fresh(items, id, depth, visited);
    var kids := ListOr(children, id);
    if isFresh { NothingAssembled(items, children, id, depth, visited, rejected); }
    if id in visited { return None, visited, rejected; }
    seen, count := visited + {id}, rejected;
    if id !in items { return None, seen, count; }
    if depth >= MAX_ATTACH_DEPTH { return Some(items[id].(children := [])), seen, count + |kids|; }
    var trees: seq<SpokenItem> := [];
    for k := 0 to |kids|
      invariant isFresh ==> Assembled(items, kids, k, id, depth, visited, seen, trees, count, rejected)
    {
      if isFresh { KidFresh(items, kids, k, id, depth, visited, seen, trees, count, rejected); }
      if |trees| >= MAX_CHILDREN {
        count := count + 1;
      } else {
        if isFresh { KidAssembled(items, kids, k, id, depth, visited, seen, trees, count, rejected); }
        var child, more, total := AssembleSubtree(items, children, kids[k], depth + 1, seen, count);
        seen, count := more, total;
        if child.Some? { trees := trees + [child.value]; } else { count := count + 1; }
      }
    }
    if isFresh { AllAssembled(items, kids, id, depth, visited, seen, trees, count, rejected); }
    tree := Some(items[id].(children := trees));
  }

  lemma NotFreshWhenVisited(items: Items, id: string, depth: nat, visited: set<string>)
    requires id in items
    ensures id in visited ==> !Fresh(items, id, depth, visited)
  {
    SelfLine(items, id);
  }

  lemma NothingAssembled(items: Items, children: map<string, seq<string>>, id: string, depth: nat,
                         visited: set<string>, rejected: nat)
    requires Sorted(children, items) && Fresh(items, id, depth, visited)
    ensures id in items && id !in visited && depth <= MAX_ATTACH_DEPTH && ListOr(children, id) == KidList(items, id)
    ensures depth == MAX_ATTACH_DEPTH ==>
              Subtree(items, id, depth) == items[id].(children := [])
              && CutCount(items, id, depth) == |ListOr(children, id)|
              && Elements(Ids(Subtree(items, id, depth))) == {id}
    ensures depth < MAX_ATTACH_DEPTH ==>
              Assembled(items, ListOr(children, id), 0, id, depth, visited, visited + {id}, [], rejected, rejected)
  {
    SelfLine(items, id);
    SubtreeElements(items, id, depth);
    CutCountUnfolds(items, id, depth);
  }

  /** The loop of `assemble_subtree` after `k` kids of a fresh node. */
  ghost predicate Assembled(items: Items, kids: seq<string>, k: nat, id: string, depth: nat, visited: set<string>,
                            seen: set<string>, trees: seq<SpokenItem>, count: nat, rejected: nat)
  {
    var taken := Take(kids[..if k <= |kids| then k else 0], MAX_CHILDREN);
    && k <= |kids| && depth < MAX_ATTACH_DEPTH && id in items && kids == KidList(items, id)
    && Elements(taken) <= items.Keys
    && trees == Subtrees(items, taken, depth + 1)
    && seen == visited + {id} + Elements(IdsAll(trees))
    && count == rejected + CutCounts(items, taken, depth + 1) + (k - |taken|)
  }

  lemma {:induction false} SubtreesLength(items: Items, ids: seq<string>, depth: nat)
    requires Elements(ids) <= items.Keys && depth <= MAX_ATTACH_DEPTH
    ensures |Subtrees(items, ids, depth)| == |ids|
  {
    if ids != [] {
      SubtreesStep(items, ids, depth);
      SubtreesLength(items, ids[..|ids| - 1], depth);
    }
  }

  /** The kids taken so far, and the next one, of a fresh node. */
  lemma TakenKids(items: Items, kids: seq<string>, k: nat, id: string, depth: nat)
    requires Keyed(items) && AtDepth(items, id, depth) && kids == KidList(items, id) && k < |kids|
    ensures var taken := Take(kids[..k], MAX_CHILDREN);
      && Elements(taken) <= Kids(items, id) && (forall t <- taken :: AtDepth(items, t, depth + 1) && t != kids[k])
      && AtDepth(items, kids[k], depth + 1) && kids[k] in Kids(items, id)
  {
    KidListFacts(items, id);
    AscendingDistinct(Oldest(CreatedOf(items)), kids);
    var taken := Take(kids[..k], MAX_CHILDREN);
    assert kids[k] in Elements(kids);
    KidLine(items, id, kids[k], depth);
    forall t | t in taken ensures AtDepth(items, t, depth + 1) && t != kids[k] && t in Kids(items, id) {
      var i :| 0 <= i < |taken| && taken[i] == t;
      assert kids[i] == t && kids[i] in Elements(kids);
      KidLine(items, id, t, depth);
    }
  }

  /** When the next kid's turn comes it is fresh, unless twelve trees stand already. */
  lemma KidFresh(items: Items, kids: seq<string>, k: nat, id: string, depth: nat, visited: set<string>,
                 seen: set<string>, trees: seq<SpokenItem>, count: nat, rejected: nat)
    requires Fresh(items, id, depth, visited) && k < |kids|
    requires Assembled(items, kids, k, id, depth, visited, seen, trees, count, rejected)
    ensures |trees| == if k <= MAX_CHILDREN then k else MAX_CHILDREN
    ensures Fresh(items, kids[k], depth + 1, seen)
    ensures k >= MAX_CHILDREN ==>
      Assembled(items, kids, k + 1, id, depth, visited, seen, trees, count + 1, rejected)
  {
    hide AtDepth, CutCounts, Subtree;
    var taken := Take(kids[..k], MAX_CHILDREN);
    TakenKids(items, kids, k, id, depth);
    SubtreesLength(items, taken, depth + 1);
    SubtreesDisjoint(items, taken, kids[k], depth + 1);
    KidLine(items, id, kids[k], depth);
    if k >= MAX_CHILDREN { assert Take(kids[..k + 1], MAX_CHILDREN) == taken; }
  }

  /** Adding the fresh kid's subtree keeps the loop's account. */
  lemma KidAssembled(items: Items, kids: seq<string>, k: nat, id: string, depth: nat, visited: set<string>,
                     seen: set<string>, trees: seq<SpokenItem>, count: nat, rejected: nat)
    requires Fresh(items, id, depth, visited) && k < |kids| && k < MAX_CHILDREN
    requires Assembled(items, kids, k, id, depth, visited, seen, trees, count, rejected)
    ensures kids[k] in items
    ensures Assembled(items, kids, k + 1, id, depth, visited,
                      seen + Elements(Ids(Subtree(items, kids[k], depth + 1))),
                      trees + [Subtree(items, kids[k], depth + 1)],
                      count + CutCount(items, kids[k], depth + 1), rejected)
  {
    hide AtDepth, CutCount, Subtree;
    TakenKids(items, kids, k, id, depth);
    var taken, more := Take(kids[..k], MAX_CHILDREN), Take(kids[..k + 1], MAX_CHILDREN);
    assert taken == kids[..k] && more == kids[..k + 1] && more[..k] == taken;
    assert more == taken + [kids[k]];
    ElementsConcat(taken, [kids[k]]);
    assert Elements(more) <= items.Keys;
    SubtreesStep(items, more, depth + 1);
  }

  lemma AllAssembled(items: Items, kids: seq<string>, id: string, depth: nat, visited: set<string>,
                     seen: set<string>, trees: seq<SpokenItem>, count: nat, rejected: nat)
    requires Fresh(items, id, depth, visited)
    requires Assembled(items, kids, |kids|, id, depth, visited, seen, trees, count, rejected)
    ensures items[id].(children := trees) == Subtree(items, id, depth)
    ensures seen == visited + Elements(Ids(Subtree(items, id, depth)))
    ensures count == rejected + CutCount(items, id, depth)
  {
    assert kids[..|kids|] == kids;
    SubtreeElements(items, id, depth);
    CutCountUnfolds(items, id, depth);
  }

  /** The `filter_map` over the top-level ids. */
  method AssembleForest(items: Items, children: map<string, seq<string>>, tops: seq<string>, rejected: nat)
    returns (forest: seq<SpokenItem>, count: nat)
    requires Keyed(items) && Sorted(children, items) && tops == FirstTops(items)
    ensures forest == ForestOf(items) && count == rejected + CutCounts(items, tops, 0)
  {
    hide *;
    var visited: set<string> := {};
    forest, count := [], rejected;
    TopFacts(items);
    ForestIsSubtrees(items);
    for k := 0 to |tops|
      invariant Elements(tops[..k]) <= items.Keys
      invariant forest == Subtrees(items, tops[..k], 0)
      invariant visited == Elements(IdsAll(forest))
      invariant count == rejected + CutCounts(items, tops[..k], 0)
    {
      TopFresh(items, tops, k);
      assert tops[..k + 1][..k] == tops[..k] && tops[..k + 1][k] == tops[k];
      SubtreesStep(items, tops[..k + 1], 0);
      SubtreesSnoc(items, tops[..k + 1], 0);
      CutCountsUnfold(items, tops[..k + 1], 0);
      var tree, seen, total := AssembleSubtree(items, children, tops[k], 0, visited, count);
      visited, count := seen, total;
      if tree.Some? { forest := forest + [tree.value]; }
    }
    assert tops[..|tops|] == tops;
  }

  lemma ForestIsSubtrees(items: Items)
    ensures Elements(FirstTops(items)) <= items.Keys && ForestOf(items) == Subtrees(items, FirstTops(items), 0)
    ensures 0 <= MAX_ATTACH_DEPTH && Elements([]) == {} && IdsAll([]) == []
    ensures Subtrees(items, [], 0) == [] && CutCounts(items, [], 0) == 0
  {
  }

  lemma TopFresh(items: Items, tops: seq<string>, k: nat)
    requires Keyed(items) && tops == FirstTops(items) && k < |tops|
    ensures Elements(tops[..k]) <= items.Keys && Elements(tops[..k + 1]) <= items.Keys
    ensures Fresh(items, tops[k], 0, Elements(IdsAll(Subtrees(items, tops[..k], 0))))
  {
    TopFacts(items);
    forall i | 0 <= i < |tops| ensures tops[i] in items { assert tops[i] in Elements(tops); }
    SubtreesDisjoint(items, tops[..k], tops[k], 0);
  }

  // ----- the projection -----

  lemma ResolvedIsKeyed(viewer: Option<string>, events: Events)
    ensures Keyed(Resolve(viewer, events))
  {
    ItemsMembers(events);
  }

  /** `project`: the queue and the exact rejection count. */
  method Project(group: string, viewer: Option<string>, rows: seq<Event>)
    returns (queue: seq<SpokenItem>, rejected: nat)
    ensures queue == Projected(viewer, ParseAll(rows, group))
    ensures rejected == RejectedCount(viewer, ParseAll(rows, group))
  {
    hide ParseAll, Resolve, AcksOf, ReactionsOf, ItemsOf, ForestOf;
    ghost var events := ParseAll(rows, group);
    var items, answers, acknowledgements, reactions, count := FoldRows(rows, group);
    rejected := count;
    var unknown := CountUnknownAnswers(answers, items.Keys, events);
    rejected := rejected + unknown + |UnknownAcks(items, acknowledgements)| + |UnknownReactions(items, reactions)|;
    var resolved, unfit := ResolveItems(items, answers, acknowledgements, reactions, viewer, events);
    GroupKeys(answers, events);
    BadAnswersSplit(items, events, answers.Keys);
    rejected := rejected + unfit;
    ResolvedIsKeyed(viewer, events);
    var children, top, orphans := IndexChildren(resolved);
    rejected := rejected + orphans;
    children := SortChildren(resolved, children, top);
    assert Unattached(resolved) * resolved.Keys == Unattached(resolved);
    var tops := OrderTops(resolved, top);
    queue, rejected := AssembleForest(resolved, children, tops, rejected);
    ForestCutExact(resolved);
  }
}
