/** A run in which an answer is accepted: log in, receive one item with one question, answer it. */
module AcceptedRun {
  import opened Contract
  import opened Text
  import opened Parser
  import opened Composer
  import opened Order
  import opened RoundTrip
  import opened Answers
  import opened Forest
  import opened Projection
  import opened Session
  import opened SessionRuns
  import Identity

  const QUESTION := Question("q", Freeform, "t", "t", None, [])

  const ANSWERS := [QuestionAnswer("q", ["y"])]

  function AskedId(): string {
    seq(64, _ => 'a')
  }

  function AskedItem(): FrozenSpokenItem {
    FrozenSpokenItem("k", 1, "g", "", "s", "", "b", SampleArtifact("audio/mpeg", None), [], [QUESTION], None)
  }

  ghost function Asked(key: KeyParser): Event
    requires ComposeSpokenItem(AskedItem(), key).Ok?
  {
    SignedEvent(ComposeSpokenItem(AskedItem(), key).value, AskedId())
  }

  lemma QuestionFits()
    ensures ValidateQuestions([QUESTION]).Ok? && TrimQuestions([QUESTION]) == [QUESTION]
    ensures ValidAnswers([QUESTION], ANSWERS) && ComposableAnswers(ANSWERS)
  {
    hide Trim;
    TightIsFixed("t");
    TightIsFixed("y");
    assert FirstFault([QUESTION], 0).None? && [QUESTION][..0] == [];
    assert QuestionFault([QUESTION], 0).None?;
    assert FirstFault([QUESTION], 1).None?;
    assert TrimOptions([]) == [] && TrimQuestion(QUESTION) == QUESTION;
    assert QuestionFor([QUESTION], "q") == Some(QUESTION);
  }

  lemma ItemComposes(key: KeyParser)
    requires key("k") == Some("k")
    ensures ComposeSpokenItem(AskedItem(), key).Ok?
  {
    hide ValidArtifact, ItemTags, SampleArtifact, Bounded, ValidateQuestions;
    assert "audio/mpeg"[5] == '/';
    SampleArtifactValid("audio/mpeg", None);
    SampleMedia("audio/mpeg", None);
    ShortTextsFit();
    QuestionFits();
  }

  lemma ItemIsRead(key: KeyParser)
    requires key("k") == Some("k")
    ensures ComposeSpokenItem(AskedItem(), key).Ok?
    ensures var item := Received(AskedItem(), Asked(key));
      && Parse(Asked(key), "g") == Some(ItemEvent(item))
      && item.id == AskedId() && item.attach.None? && item.questions == [QUESTION]
  {
    hide ComposeSpokenItem, Parse, Delivers, TrimQuestions, SampleArtifact;
    ItemComposes(key);
    ItemCanBeDelivered(AskedItem(), key, AskedId());
    ItemRoundTrip(AskedItem(), key, Asked(key));
    QuestionFits();
  }

  // ----- one item on display -----

  lemma {:induction false} VisibleIsPlaced(items: seq<SpokenItem>)
    ensures VisibleIds(items) == Elements(IdsAll(items))
  {
    if items != [] {
      var init, last := items[..|items| - 1], items[|items| - 1];
      VisibleIsPlaced(init);
      VisibleIsPlaced(last.children);
      ElementsConcat(IdsAll(init), Ids(last));
      ElementsConcat([last.id], IdsAll(last.children));
    }
  }

  lemma OneParsed(item: SpokenItem)
    ensures var events: Projection.Events := [Some(ItemEvent(item))];
      && ItemsOf(events) == map[item.id := item] && AnswersTo(events, item.id) == [] && AcksOf(events) == map[]
  {
    var events: Projection.Events := [Some(ItemEvent(item))];
    assert events[..0] == [] && ItemsOf([]) == map[] && AnswersTo([], item.id) == [] && AckEntries([]) == [];
    assert AckEntries(events) == AckEntries(events[..0]) + [];
  }

  lemma OneResolved(viewer: Option<string>, item: SpokenItem)
    requires item.attach.None?
    ensures var items := Resolve(viewer, [Some(ItemEvent(item))]);
      && items.Keys == {item.id} && Keyed(items) && Tops(items) == {item.id}
      && items[item.id].questions == item.questions && items[item.id].answer.None?
  {
    hide Summaries, ItemsOf, AnswersTo, AcksOf, ReactionsOf;
    OneParsed(item);
    var items := Resolve(viewer, [Some(ItemEvent(item))]);
    assert items[item.id].answer == SelectAnswer(item.questions, []);
  }

  /** A lone unattached item is found, unanswered, with its questions. */
  lemma OneIsFound(viewer: Option<string>, item: SpokenItem)
    requires item.attach.None?
    ensures var found := FindItem(Projected(viewer, [Some(ItemEvent(item))]), item.id);
      found.Some? && found.value.id == item.id && found.value.questions == item.questions && found.value.answer.None?
  {
    var items := Resolve(viewer, [Some(ItemEvent(item))]);
    OneResolved(viewer, item);
    hide Resolve, FirstTops, FindItem, Subtrees, VisibleIds, IdsAll, Subtree, Keyed;
    AloneIsFirst(items, item.id);
    TopFacts(items);
    TopRank(items, item.id);
    MemberOfSubtrees(items, FirstTops(items), 0, item.id);
    RootIsInTree(items, item.id);
    VisibleIsPlaced(ForestOf(items));
    FoundIsVisible(ForestOf(items), item.id);
    FoundIsResolved(items, FirstTops(items), 0, item.id);
  }

  lemma RootIsInTree(items: Items, id: string)
    requires Keyed(items) && id in items
    ensures id in Elements(Ids(Subtree(items, id, 0)))
  {
    assert Ids(Subtree(items, id, 0))[0] == id;
  }

  lemma AloneIsFirst(items: Items, id: string)
    requires Tops(items) == {id}
    ensures AmongFirstTops(items, id)
  {
    var before := Predecessors(Newest(CreatedOf(items)), Tops(items), id);
    assert before <= {id};
    assert |before| <= 1 by { if before != {} { assert before == {id}; } }
  }

  // ----- the run -----

  ghost function Events(key: KeyParser): seq<Occurrence>
    requires ComposeSpokenItem(AskedItem(), key).Ok?
  {
    [Account(Identity.Login(Some("k"), false, Identity.Replies(None, true, true))), Rows([Asked(key)], NO_EVIDENCE)]
  }

  /** After the login and the rows: signed in, the item on display, nothing in flight. */
  lemma RunReaches(key: KeyParser, host: string)
    requires key("k") == Some("k") && ComposeSpokenItem(AskedItem(), key).Ok?
    ensures var s := Run(key, Start(host, "g"), Events(key));
      && s.items == Projected(Some("k"), ParseAll([Asked(key)], "g")) && Identity.ActivePubkey(s.identity) == Some("k")
      && s.submissions == map[] && s.sent == [] && s.group == "g"
  {
    hide Projected, RejectedCount, ParseAll, VisibleIds, ComposeSpokenItem, Asked;
    var events := Events(key);
    assert events[..0] == [] && events[..2][..1] == events[..1] && events[..2] == events && events[..1][..0] == [];
    assert Run(key, Start(host, "g"), events[..0]) == Start(host, "g");
    var s := Step(key, Start(host, "g"), events[0]);
    assert Run(key, Start(host, "g"), events[..1]) == s;
    assert Retain(map[], VisibleIds(ReprojectOf(s.(rows := [Asked(key)])).items)) == map[];
  }

  /** Accepting an answer is possible: here it is accepted, and what was accepted can be delivered. */
  lemma AnswerIsAccepted(key: KeyParser, host: string)
    requires key("k") == Some("k")
    ensures ComposeSpokenItem(AskedItem(), key).Ok? && forall e <- Events(key) :: RealRows(e)
    ensures var (t, r) := SubmitOf(Run(key, Start(host, "g"), Events(key)), AskedId(), ANSWERS, 2, key, None);
      r.Ok? && r.value < |t.sent| && Delivers(SignedEvent(t.sent[r.value], "e"), t.sent[r.value])
  {
    ItemComposes(key);
    ItemIsRead(key);
    RunReaches(key, host);
    hide *;
    var item := Received(AskedItem(), Asked(key));
    AllOfOne(Asked(key), item);
    OneIsFound(Some("k"), item);
    var s := Run(key, Start(host, "g"), Events(key));
    var shown := FindItem(s.items, AskedId()).value;
    QuestionFits();
    RowsAreReal(key);
    AnswerComposes(key, s, shown);
    SubmitAccepts(key, s, AskedId(), shown, ANSWERS, "k", 2);
    AnswerCanBeDelivered(FrozenFor(s, shown, ANSWERS, "k", 2), key, "e");
  }

  lemma AllOfOne(row: Event, item: SpokenItem)
    requires Parse(row, "g") == Some(ItemEvent(item))
    ensures ParseAll([row], "g") == [Some(ItemEvent(item))]
  {
    hide Parse;
  }

  lemma RowsAreReal(key: KeyParser)
    requires ComposeSpokenItem(AskedItem(), key).Ok?
    ensures forall e <- Events(key) :: RealRows(e)
  {
    hide ComposeSpokenItem;
  }

  lemma AnswerComposes(key: KeyParser, s: State, item: SpokenItem)
    requires key("k") == Some("k") && item.id == AskedId() && item.questions == [QUESTION] && s.group == "g"
    requires ComposableAnswers(ANSWERS)
    ensures ComposeAnswer(FrozenFor(s, item, ANSWERS, "k", 2), key).Ok?
  {
    hide AnswerTags, ComposableAnswers;
    assert ANSWERS[1..] == [] && FirstQuestion([QUESTION], "q") == Some(QUESTION);
    assert Titles([], ["y"]) == ["y"] && AnswerLines([QUESTION], []) == [];
    assert AnswerLines([QUESTION], ANSWERS) == ["t: y"] by { assert "t" + ": " + "y" == "t: y"; }
    assert AnswerContent(item, ANSWERS) == "t: y";
    TightIsFixed("t: y");
    TightIsFixed("g");
  }

  /** The checks of an answer that passes them all. */
  lemma SubmitAccepts(key: KeyParser, s: State, itemId: string, item: SpokenItem, answers: seq<QuestionAnswer>,
                      author: string, now: nat)
    requires Identity.ActivePubkey(s.identity) == Some(author) && s.submissions == map[]
             && FindItem(s.items, itemId) == Some(item)
    requires item.questions != [] && item.answer.None? && ValidAnswers(item.questions, answers)
    requires ComposeAnswer(FrozenFor(s, item, answers, author, now), key).Ok?
    ensures var (t, r) := SubmitOf(s, itemId, answers, now, key, None);
      r == Ok(|s.sent|) && t.sent == s.sent + [ComposeAnswer(FrozenFor(s, item, answers, author, now), key).value]
  {
    hide ValidAnswers, ComposeAnswer, FindItem, AnswerContent;
  }
}
