/**
 The queue projection (core/src/projection.rs `project`): what it computes, as a function of the set
 of parsed events, and the account of what it rejects. `Projector` holds the loops.
 */
module Projection {
  import opened Contract
  import opened Order
  import opened Parser
  import opened Composer
  import opened RoundTrip
  import opened Answers
  import opened Latest
  import opened Forest

  type Events = seq<Option<ParsedEvent>>
  type AckKey = (string, string)
  type ReactionKey = (string, string, string)
  type AckEntry = Entry<AckKey, Acknowledgement>
  type ReactionEntry = Entry<ReactionKey, Reaction>
  type Acks = map<AckKey, AckEntry>
  type Reactions = map<ReactionKey, ReactionEntry>

  // ----- what the rows hold -----

  function ItemsOf(events: Events): Items {
    if events == [] then map[]
    else
      var prior, last := ItemsOf(events[..|events| - 1]), events[|events| - 1];
      if last.Some? && last.value.ItemEvent? then prior[last.value.item.id := last.value.item] else prior
  }

  function AckEntryOf(ack: Related<Acknowledgement>): AckEntry {
    Entry((ack.rootId, ack.value.author), ack.value, (ack.value.createdAt, ack.value.eventId))
  }

  function AckEntries(events: Events): seq<AckEntry> {
    if events == [] then []
    else
      var last := events[|events| - 1];
      AckEntries(events[..|events| - 1])
      + (if last.Some? && last.value.AcknowledgementEvent? then [AckEntryOf(last.value.acknowledgement)] else [])
  }

  function ReactionEntryOf(reaction: Related<Reaction>): ReactionEntry {
    Entry((reaction.rootId, reaction.value.author, reaction.value.emoji), reaction.value,
          (reaction.value.createdAt, reaction.value.eventId))
  }

  function ReactionEntries(events: Events): seq<ReactionEntry> {
    if events == [] then []
    else
      var last := events[|events| - 1];
      ReactionEntries(events[..|events| - 1])
      + (if last.Some? && last.value.ReactionEvent? then [ReactionEntryOf(last.value.reaction)] else [])
  }

  function AcksOf(events: Events): Acks {
    LatestOf(AckEntries(events))
  }

  function ReactionsOf(events: Events): Reactions {
    LatestOf(ReactionEntries(events))
  }

  // ----- related state of one item -----

  function Emojis(root: string, reactions: Reactions): set<string> {
    set k | k in reactions && k.0 == root && reactions[k].value.active :: k.2
  }

  function Reactors(root: string, emoji: string, reactions: Reactions): set<string> {
    set k | k in reactions && k.0 == root && k.2 == emoji && reactions[k].value.active :: k.1
  }

  ghost function SummaryOf(root: string, emoji: string, reactions: Reactions): ReactionSummary {
    var authors := Reactors(root, emoji, reactions);
    ReactionSummary(emoji, |authors|, Listing(ByText, authors))
  }

  /** Active reactions by emoji in order, each with its reactors in order. */
  ghost function Summaries(root: string, reactions: Reactions): seq<ReactionSummary> {
    var emojis := Listing(ByText, Emojis(root, reactions));
    seq(|emojis|, i requires 0 <= i < |emojis| => SummaryOf(root, emojis[i], reactions))
  }

  function AckBy(root: string, viewer: Option<string>, acks: Acks): Option<Acknowledgement> {
    if viewer.Some? && (root, viewer.value) in acks then Some(acks[(root, viewer.value)].value) else None
  }

  /** An item with its winning answer, the viewer's acknowledgement and its reactions. */
  ghost function Dress(item: SpokenItem, viewer: Option<string>, candidates: seq<AnswerBundle>, acks: Acks,
                       reactions: Reactions): SpokenItem
  {
    item.(answer := SelectAnswer(item.questions, candidates), acknowledgement := AckBy(item.id, viewer, acks),
          reactions := Summaries(item.id, reactions))
  }

  ghost function Resolve(viewer: Option<string>, events: Events): Items {
    var items := ItemsOf(events);
    map id <- items :: Dress(items[id], viewer, AnswersTo(events, items[id].id), AcksOf(events), ReactionsOf(events))
  }

  /** The projected queue. */
  ghost function Projected(viewer: Option<string>, events: Events): seq<SpokenItem> {
    ForestOf(Resolve(viewer, events))
  }

  // ----- what is rejected -----

  ghost function Unparsed(events: Events): nat {
    Tally(events, (e: Option<ParsedEvent>) => e.None?)
  }

  ghost predicate RejectedAnswer(items: Items, e: Option<ParsedEvent>) {
    && e.Some? && e.value.AnswerEvent?
    && var root := e.value.answer.rootId;
       root !in items || !ValidAnswer(items[root].questions, e.value.answer.value)
  }

  ghost function BadAnswers(items: Items, events: Events): nat {
    Tally(events, e => RejectedAnswer(items, e))
  }

  function UnknownAcks(items: Items, acks: Acks): set<AckKey> {
    set k | k in acks && k.0 !in items
  }

  function UnknownReactions(items: Items, reactions: Reactions): set<ReactionKey> {
    set k | k in reactions && k.0 !in items
  }

  function Orphans(items: Items): set<string> {
    set id | id in items && items[id].attach.Some? && items[id].attach.value.parentId !in items
  }

  /** The exact account of rejections: rows that do not parse, answers with an unknown root or an
      unfitting value, distinct acknowledgement and reaction keys with an unknown root, children of
      absent parents, and children of placed items that are not placed themselves. */
  ghost function RejectedCount(viewer: Option<string>, events: Events): nat {
    var items, resolved := ItemsOf(events), Resolve(viewer, events);
    Unparsed(events) + BadAnswers(items, events)
    + |UnknownAcks(items, AcksOf(events))| + |UnknownReactions(items, ReactionsOf(events))|
    + |Orphans(resolved)| + |CutLinks(resolved, Placed(resolved))|
  }

  // ----- the projection depends on the set of events -----

  /** One event per id, as NMP delivers rows. */
  ghost predicate OneEventPerId(rows: seq<Event>) {
    forall a <- rows, b <- rows :: a.id == b.id ==> a == b
  }

  ghost predicate SameSet<T(!new)>(a: seq<T>, b: seq<T>) {
    forall x :: x in a <==> x in b
  }

  /** Equal ids mean equal parsed events. */
  ghost predicate StampedEvents(events: Events) {
    forall a <- events, b <- events ::
      a.Some? && b.Some? && Stamp(a.value).0 == Stamp(b.value).0 ==> a == b
  }

  lemma RowsAreStamped(rows: seq<Event>, group: string)
    requires OneEventPerId(rows)
    ensures StampedEvents(ParseAll(rows, group))
  {
    hide Parse;
    var events := ParseAll(rows, group);
    forall a, b | a in events && b in events && a.Some? && b.Some? && Stamp(a.value).0 == Stamp(b.value).0
      ensures a == b
    {
      var i :| 0 <= i < |events| && events[i] == a;
      var j :| 0 <= j < |events| && events[j] == b;
      ParsedIdentity(rows[i], group);
      ParsedIdentity(rows[j], group);
      assert rows[i] in rows && rows[j] in rows;
    }
  }

  lemma {:induction false} ItemsMembers(events: Events)
    ensures forall id <- ItemsOf(events) ::
        ItemsOf(events)[id].id == id && Some(ItemEvent(ItemsOf(events)[id])) in events
    ensures forall e <- events :: e.Some? && e.value.ItemEvent? ==> e.value.item.id in ItemsOf(events)
  {
    if events != [] {
      var init, last := events[..|events| - 1], events[|events| - 1];
      ItemsMembers(init);
      assert events == init + [last];
    }
  }

  lemma ItemsIncluded(a: Events, b: Events)
    requires StampedEvents(a) && SameSet(a, b)
    ensures forall id <- ItemsOf(a) :: id in ItemsOf(b) && ItemsOf(a)[id] == ItemsOf(b)[id]
  {
    ItemsMembers(a);
    ItemsMembers(b);
    forall id | id in ItemsOf(a) ensures id in ItemsOf(b) && ItemsOf(a)[id] == ItemsOf(b)[id] {
      var x := Some(ItemEvent(ItemsOf(a)[id]));
      assert x in a && x in b;
      var y := Some(ItemEvent(ItemsOf(b)[id]));
      assert y in a && Stamp(x.value).0 == Stamp(y.value).0;
    }
  }

  lemma {:induction false} AnswersMembers(events: Events, root: string)
    ensures forall v :: v in AnswersTo(events, root) <==> Some(AnswerEvent(Related(root, v))) in events
  {
    if events != [] {
      var init, last := events[..|events| - 1], events[|events| - 1];
      AnswersMembers(init, root);
      assert events == init + [last];
    }
  }

  lemma AnswersStamped(events: Events, root: string)
    requires StampedEvents(events)
    ensures StampedOnce(AnswersTo(events, root))
  {
    AnswersMembers(events, root);
    forall a, b | a in AnswersTo(events, root) && b in AnswersTo(events, root) && a.eventId == b.eventId ensures a == b
    {
      var x, y := Some(AnswerEvent(Related(root, a))), Some(AnswerEvent(Related(root, b)));
      assert x in events && y in events && Stamp(x.value).0 == Stamp(y.value).0;
    }
  }

  lemma SelectionOfSameSet(questions: seq<Question>, a: Events, b: Events, root: string)
    requires StampedEvents(a) && SameSet(a, b)
    ensures SelectAnswer(questions, AnswersTo(a, root)) == SelectAnswer(questions, AnswersTo(b, root))
  {
    AnswersMembers(a, root);
    AnswersMembers(b, root);
    AnswersStamped(a, root);
    ValidOnesMembers(questions, AnswersTo(a, root));
    ValidOnesMembers(questions, AnswersTo(b, root));
    BestOfSameSet(ValidOnes(questions, AnswersTo(a, root)), ValidOnes(questions, AnswersTo(b, root)));
  }

  lemma {:induction false} AckMembers(events: Events)
    ensures forall r: Related<Acknowledgement> ::
      Some(AcknowledgementEvent(r)) in events ==> AckEntryOf(r) in AckEntries(events)
    ensures forall e <- AckEntries(events) ::
      e == AckEntryOf(Related(e.key.0, e.value)) && Some(AcknowledgementEvent(Related(e.key.0, e.value))) in events
  {
    if events != [] {
      var init, last := events[..|events| - 1], events[|events| - 1];
      AckMembers(init);
      assert events == init + [last];
    }
  }

  lemma {:induction false} ReactionMembers(events: Events)
    ensures forall r: Related<Reaction> ::
      Some(ReactionEvent(r)) in events ==> ReactionEntryOf(r) in ReactionEntries(events)
    ensures forall e <- ReactionEntries(events) ::
      e == ReactionEntryOf(Related(e.key.0, e.value)) && Some(ReactionEvent(Related(e.key.0, e.value))) in events
  {
    if events != [] {
      var init, last := events[..|events| - 1], events[|events| - 1];
      ReactionMembers(init);
      assert events == init + [last];
    }
  }

  lemma AcksOfSameSet(a: Events, b: Events)
    requires StampedEvents(a) && SameSet(a, b)
    ensures AcksOf(a) == AcksOf(b)
  {
    AckMembers(a);
    AckMembers(b);
    forall x, y | x in AckEntries(a) && y in AckEntries(a) && x.stamp.1 == y.stamp.1 ensures x == y {
      var p, q := Some(AcknowledgementEvent(Related(x.key.0, x.value))),
          Some(AcknowledgementEvent(Related(y.key.0, y.value)));
      assert p in a && q in a && Stamp(p.value).0 == Stamp(q.value).0;
    }
    LatestOfSameSet(AckEntries(a), AckEntries(b));
  }

  lemma ReactionsOfSameSet(a: Events, b: Events)
    requires StampedEvents(a) && SameSet(a, b)
    ensures ReactionsOf(a) == ReactionsOf(b)
  {
    ReactionMembers(a);
    ReactionMembers(b);
    forall x, y | x in ReactionEntries(a) && y in ReactionEntries(a) && x.stamp.1 == y.stamp.1 ensures x == y {
      var p, q := Some(ReactionEvent(Related(x.key.0, x.value))), Some(ReactionEvent(Related(y.key.0, y.value)));
      assert p in a && q in a && Stamp(p.value).0 == Stamp(q.value).0;
    }
    LatestOfSameSet(ReactionEntries(a), ReactionEntries(b));
  }

  lemma ResolveOfSameSet(viewer: Option<string>, a: Events, b: Events)
    requires StampedEvents(a) && SameSet(a, b)
    ensures Resolve(viewer, a) == Resolve(viewer, b) && ItemsOf(a) == ItemsOf(b)
  {
    hide Dress, StampedEvents;
    assert StampedEvents(b) by { SameSetStamped(a, b); }
    ItemsIncluded(a, b);
    ItemsIncluded(b, a);
    assert ItemsOf(a) == ItemsOf(b);
    AcksOfSameSet(a, b);
    ReactionsOfSameSet(a, b);
    forall id | id in ItemsOf(a) ensures Resolve(viewer, a)[id] == Resolve(viewer, b)[id] {
      DressOfSameSet(ItemsOf(a)[id], viewer, a, b);
    }
  }

  lemma SameSetStamped(a: Events, b: Events)
    requires StampedEvents(a) && SameSet(a, b)
    ensures StampedEvents(b)
  {
  }

  lemma DressOfSameSet(item: SpokenItem, viewer: Option<string>, a: Events, b: Events)
    requires StampedEvents(a) && SameSet(a, b)
    ensures Dress(item, viewer, AnswersTo(a, item.id), AcksOf(a), ReactionsOf(a))
         == Dress(item, viewer, AnswersTo(b, item.id), AcksOf(a), ReactionsOf(a))
  {
    SelectionOfSameSet(item.questions, a, b, item.id);
  }

  /** Order and repetition of rows change nothing: two row lists with the same events, one event per
      id, project to the same queue. */
  lemma ProjectionIgnoresOrder(viewer: Option<string>, group: string, a: seq<Event>, b: seq<Event>)
    requires OneEventPerId(a) && SameSet(a, b)
    ensures Projected(viewer, ParseAll(a, group)) == Projected(viewer, ParseAll(b, group))
  {
    RowsAreStamped(a, group);
    ParseAllSameSet(a, b, group);
    ResolveOfSameSet(viewer, ParseAll(a, group), ParseAll(b, group));
  }

  lemma ParseAllSameSet(a: seq<Event>, b: seq<Event>, group: string)
    requires SameSet(a, b)
    ensures SameSet(ParseAll(a, group), ParseAll(b, group))
  {
    hide Parse;
    ParseAllIncluded(a, b, group);
    ParseAllIncluded(b, a, group);
  }

  lemma ParseAllIncluded(a: seq<Event>, b: seq<Event>, group: string)
    requires forall x :: x in a ==> x in b
    ensures forall e :: e in ParseAll(a, group) ==> e in ParseAll(b, group)
  {
    hide Parse;
    forall e | e in ParseAll(a, group) ensures e in ParseAll(b, group) {
      var i :| 0 <= i < |a| && ParseAll(a, group)[i] == e;
      assert a[i] in b;
      var j :| 0 <= j < |b| && b[j] == a[i];
      assert ParseAll(b, group)[j] == e;
    }
  }

  /** A permutation of the rows changes neither the queue nor the rejection count. */
  lemma RejectionIgnoresOrder(viewer: Option<string>, group: string, a: seq<Event>, b: seq<Event>)
    requires OneEventPerId(a) && multiset(a) == multiset(b)
    ensures Projected(viewer, ParseAll(a, group)) == Projected(viewer, ParseAll(b, group))
    ensures RejectedCount(viewer, ParseAll(a, group)) == RejectedCount(viewer, ParseAll(b, group))
  {
    assert SameSet(a, b) by {
      forall x ensures x in a <==> x in b { assert x in a <==> x in multiset(a); }
    }
    var p, q := ParseAll(a, group), ParseAll(b, group);
    RowsAreStamped(a, group);
    ParseAllSameSet(a, b, group);
    ResolveOfSameSet(viewer, p, q);
    AcksOfSameSet(p, q);
    ReactionsOfSameSet(p, q);
    ParseAllPermutes(a, b, group);
    TallyOfPermutation(p, q, (e: Option<ParsedEvent>) => e.None?);
    BadAnswersPermute(ItemsOf(p), p, q);
  }

  lemma BadAnswersPermute(items: Items, p: Events, q: Events)
    requires multiset(p) == multiset(q)
    ensures BadAnswers(items, p) == BadAnswers(items, q) && Unparsed(p) == Unparsed(q)
  {
    TallyPermutes(p, q);
  }

  lemma TallyPermutes(p: Events, q: Events)
    requires multiset(p) == multiset(q)
    ensures forall f: Option<ParsedEvent> -> bool :: Tally(p, f) == Tally(q, f)
  {
    forall f: Option<ParsedEvent> -> bool ensures Tally(p, f) == Tally(q, f) {
      TallyOfPermutation(p, q, f);
    }
  }

  lemma ParseAllCut(rows: seq<Event>, i: nat, group: string)
    requires i < |rows|
    ensures multiset(ParseAll(rows, group))
         == multiset(ParseAll(rows[..i] + rows[i + 1..], group)) + multiset{Parse(rows[i], group)}
  {
    hide Parse;
    var front, back, e := ParseAll(rows[..i], group), ParseAll(rows[i + 1..], group), Parse(rows[i], group);
    assert ParseAll(rows, group) == front + [e] + back;
    assert ParseAll(rows[..i] + rows[i + 1..], group) == front + back;
  }

  lemma {:induction false} ParseAllPermutes(a: seq<Event>, b: seq<Event>, group: string)
    requires multiset(a) == multiset(b)
    ensures multiset(ParseAll(a, group)) == multiset(ParseAll(b, group))
    decreases |a|
  {
    hide Parse, ParseAll;
    if a == [] {
      PermutationOfNothing(b);
    } else {
      var i := Unpermute(a, b);
      ParseAllPermutes(a[..|a| - 1], b[..i] + b[i + 1..], group);
      assert a[..|a| - 1] + a[|a|..] == a[..|a| - 1];
      ParseAllCut(a, |a| - 1, group);
      ParseAllCut(b, i, group);
    }
  }

  // ----- other people's acknowledgements -----

  predicate ForeignAck(viewer: Option<string>, e: Option<ParsedEvent>) {
    && e.Some? && e.value.AcknowledgementEvent?
    && (viewer.None? || e.value.acknowledgement.value.author != viewer.value)
  }

  function WithoutForeignAcks(viewer: Option<string>, events: Events): Events {
    if events == [] then []
    else
      WithoutForeignAcks(viewer, events[..|events| - 1])
      + (if ForeignAck(viewer, events[|events| - 1]) then [] else [events[|events| - 1]])
  }

  lemma AcksStep(events: Events)
    requires events != []
    ensures var last := events[|events| - 1];
      AcksOf(events) == if last.Some? && last.value.AcknowledgementEvent?
                        then ReplaceLatest(AcksOf(events[..|events| - 1]), AckEntryOf(last.value.acknowledgement))
                        else AcksOf(events[..|events| - 1])
  {
    var init, last := AckEntries(events[..|events| - 1]), events[|events| - 1];
    if last.Some? && last.value.AcknowledgementEvent? {
      var all := AckEntries(events);
      assert all[..|all| - 1] == init && all[|all| - 1] == AckEntryOf(last.value.acknowledgement);
    } else {
      assert AckEntries(events) == init;
    }
  }

  lemma KeptStep(viewer: Option<string>, events: Events)
    requires events != []
    ensures var kept, init := WithoutForeignAcks(viewer, events), WithoutForeignAcks(viewer, events[..|events| - 1]);
      if ForeignAck(viewer, events[|events| - 1]) then kept == init
      else kept != [] && kept[..|kept| - 1] == init && kept[|kept| - 1] == events[|events| - 1]
  {
  }

  lemma {:induction false} ForeignAcksKeepItems(viewer: Option<string>, events: Events)
    ensures ItemsOf(WithoutForeignAcks(viewer, events)) == ItemsOf(events)
    ensures ReactionEntries(WithoutForeignAcks(viewer, events)) == ReactionEntries(events)
  {
    hide WithoutForeignAcks;
    if events == [] {
      assert WithoutForeignAcks(viewer, events) == [] by { NothingKept(viewer); }
    } else {
      ForeignAcksKeepItems(viewer, events[..|events| - 1]);
      KeptStep(viewer, events);
    }
  }

  lemma NothingKept(viewer: Option<string>)
    ensures WithoutForeignAcks(viewer, []) == []
  {
  }

  lemma {:induction false} ForeignAcksKeepAnswers(viewer: Option<string>, events: Events, root: string)
    ensures AnswersTo(WithoutForeignAcks(viewer, events), root) == AnswersTo(events, root)
  {
    hide WithoutForeignAcks;
    if events == [] {
      NothingKept(viewer);
    } else {
      ForeignAcksKeepAnswers(viewer, events[..|events| - 1], root);
      KeptStep(viewer, events);
    }
  }

  lemma {:induction false} ForeignAcksKeepOwn(viewer: Option<string>, events: Events, root: string)
    ensures AckBy(root, viewer, AcksOf(WithoutForeignAcks(viewer, events))) == AckBy(root, viewer, AcksOf(events))
    ensures viewer.Some? ==>
      var kept, all, k := AcksOf(WithoutForeignAcks(viewer, events)), AcksOf(events), (root, viewer.value);
      (k in kept <==> k in all) && (k in all ==> kept[k] == all[k])
  {
    hide WithoutForeignAcks, AcksOf, AckEntries;
    if events == [] {
      NothingKept(viewer);
    } else {
      ForeignAcksKeepOwn(viewer, events[..|events| - 1], root);
      KeptStep(viewer, events);
      AcksStep(events);
      if !ForeignAck(viewer, events[|events| - 1]) { AcksStep(WithoutForeignAcks(viewer, events)); }
    }
  }

  /** Nobody else's acknowledgement reaches the viewer's queue: dropping them all changes no item. */
  lemma ForeignAcksAreInvisible(viewer: Option<string>, events: Events)
    ensures Projected(viewer, WithoutForeignAcks(viewer, events)) == Projected(viewer, events)
  {
    hide WithoutForeignAcks, AckEntries, AcksOf;
    var kept := WithoutForeignAcks(viewer, events);
    ForeignAcksKeepItems(viewer, events);
    assert Resolve(viewer, kept) == Resolve(viewer, events) by {
      forall id | id in ItemsOf(events) ensures Resolve(viewer, kept)[id] == Resolve(viewer, events)[id] {
        ForeignAcksKeepAnswers(viewer, events, ItemsOf(events)[id].id);
        ForeignAcksKeepOwn(viewer, events, ItemsOf(events)[id].id);
      }
    }
  }

  // ----- the client and the daemon agree -----

  /** For an item both sides hold, the client's answer on the parsed item is the daemon's selection
      from the producer's own, untrimmed questions. */
  lemma ClientAndDaemonAgree(viewer: Option<string>, group: string, rows: seq<Event>, id: string,
                             item: FrozenSpokenItem, key: KeyParser, published: Event)
    requires OneEventPerId(rows) && published in rows && published.id == id && item.groupId == group
    requires ComposeSpokenItem(item, key).Ok? && Delivers(published, ComposeSpokenItem(item, key).value)
    requires LabelsBounded(item)
    ensures id in Resolve(viewer, ParseAll(rows, group))
    ensures Resolve(viewer, ParseAll(rows, group))[id].answer == AnswerFromRows(rows, group, id, item.questions)
  {
    hide Parse, ComposeSpokenItem, Delivers, LabelsBounded;
    var events := ParseAll(rows, group);
    ItemRoundTrip(item, key, published);
    var parsed := Some(ItemEvent(Received(item, published)));
    assert parsed in events by {
      var i :| 0 <= i < |rows| && rows[i] == published;
      assert events[i] == parsed;
    }
    RowsAreStamped(rows, group);
    ItemsMembers(events);
    var held := Some(ItemEvent(ItemsOf(events)[id]));
    assert held in events && Stamp(held.value).0 == Stamp(parsed.value).0;
    assert ItemsOf(events)[id] == Received(item, published);
    TrimmingQuestionsKeepsSelection(item.questions, AnswersTo(events, id));
  }
}
