/**
 Answers: validity against a question set, selection among candidates (protocol/src/answer.rs),
 composition (protocol/src/related.rs) and the daemon's own selection (daemon/src/answer_wait.rs).
 */
module Answers {
  import opened Contract
  import opened Text
  import opened Tags
  import opened Parser
  import opened Composer
  import opened RoundTrip

  // ----- validity -----

  ghost predicate Distinct<T>(values: seq<T>) {
    forall i, j :: 0 <= i < j < |values| ==> values[i] != values[j]
  }

  /** The question an id means; the last one wins, as in a map collected from the list. */
  function QuestionFor(questions: seq<Question>, id: string): Option<Question> {
    if questions == [] then None
    else
      var last := questions[|questions| - 1];
      if last.id == id then Some(last) else QuestionFor(questions[..|questions| - 1], id)
  }

  ghost predicate ChoosesOptions(question: Question, values: seq<string>) {
    forall v <- values :: v in OptionIds(question.options)
  }

  /** One answer fits its question: distinct values, one value unless several may be chosen, and
      only offered options unless the question is freeform. */
  ghost predicate Fits(questions: seq<Question>, answer: QuestionAnswer) {
    var question := QuestionFor(questions, answer.questionId);
    && question.Some?
    && Distinct(answer.values)
    && match question.value.kind
       case Freeform => |answer.values| == 1
       case SingleChoice => |answer.values| == 1 && ChoosesOptions(question.value, answer.values)
       case MultipleChoice => ChoosesOptions(question.value, answer.values)
  }

  /** One to three answers to different questions, each fitting its question. */
  ghost predicate ValidAnswers(questions: seq<Question>, answers: seq<QuestionAnswer>) {
    && 0 < |answers| <= 3
    && (forall i, j :: 0 <= i < j < |answers| ==> answers[i].questionId != answers[j].questionId)
    && (forall a <- answers :: Fits(questions, a))
  }

  ghost predicate ValidAnswer(questions: seq<Question>, bundle: AnswerBundle) {
    ValidAnswers(questions, bundle.answers)
  }

  lemma {:induction false} DistinctBySize(values: seq<string>)
    ensures |Elements(values)| <= |values|
    ensures |Elements(values)| == |values| <==> Distinct(values)
  {
    if values != [] {
      var init, last := values[..|values| - 1], values[|values| - 1];
      DistinctBySize(init);
      assert Elements(values) == Elements(init) + {last};
      if last in init {
        var i :| 0 <= i < |init| && init[i] == last;
        assert values[i] == values[|values| - 1];
      } else if Distinct(init) {
        forall i, j | 0 <= i < j < |values| ensures values[i] != values[j] {
          if j == |values| - 1 { assert init[i] in init; }
        }
      }
    }
  }

  method CollectQuestions(questions: seq<Question>) returns (byId: map<string, Question>)
    ensures forall id :: id in byId <==> QuestionFor(questions, id).Some?
    ensures forall id <- byId :: QuestionFor(questions, id) == Some(byId[id])
  {
    byId := map[];
    for k := 0 to |questions|
      invariant forall id :: id in byId <==> QuestionFor(questions[..k], id).Some?
      invariant forall id <- byId :: QuestionFor(questions[..k], id) == Some(byId[id])
    {
      assert questions[..k + 1][..k] == questions[..k];
      byId := byId[questions[k].id := questions[k]];
    }
    assert questions[..|questions|] == questions;
  }

  /** `valid_answer` with its `answered` set and its comparison of set and list sizes. */
  method CheckAnswer(questions: seq<Question>, bundle: AnswerBundle) returns (valid: bool)
    ensures valid <==> ValidAnswer(questions, bundle)
  {
    var answers := bundle.answers;
    if answers == [] || |answers| > 3 { return false; }
    var byId := CollectQuestions(questions);
    var answered: set<string> := {};
    for k := 0 to |answers|
      invariant forall i :: 0 <= i < k ==> Fits(questions, answers[i])
      invariant forall i, j :: 0 <= i < j < k ==> answers[i].questionId != answers[j].questionId
      invariant answered == set i | 0 <= i < k :: answers[i].questionId
    {
      var value := answers[k];
      assert value in answers;
      if value.questionId in answered { return false; }
      answered := answered + {value.questionId};
      if value.questionId !in byId { return false; }
      var question := byId[value.questionId];
      var selected := Elements(value.values);
      DistinctBySize(value.values);
      if |selected| != |value.values| { return false; }
      var fits := match question.kind
        case Freeform => |value.values| == 1
        case SingleChoice => |value.values| == 1 && selected <= OptionIds(question.options)
        case MultipleChoice => selected <= OptionIds(question.options);
      assert selected <= OptionIds(question.options) <==> ChoosesOptions(question, value.values);
      if !fits { assert !Fits(questions, value); return false; }
    }
    valid := true;
  }

  // ----- selection -----

  /** The conflict order of related events: time, then event id. */
  predicate Later(t: nat, id: string, u: nat, jd: string) {
    t > u || (t == u && Below(jd, id))
  }

  predicate Newer(a: AnswerBundle, b: AnswerBundle) {
    Later(a.createdAt, a.eventId, b.createdAt, b.eventId)
  }

  lemma LaterIsStrict(t: nat, id: string, u: nat, jd: string, v: nat, kd: string)
    ensures !Later(t, id, t, id)
    ensures Later(t, id, u, jd) || Later(u, jd, t, id) || (t == u && id == jd)
    ensures Later(t, id, u, jd) && Later(u, jd, v, kd) ==> Later(t, id, v, kd)
    ensures !(Later(t, id, u, jd) && Later(u, jd, t, id))
  {
    BelowIrreflexive(id);
    BelowTotal(id, jd);
    if Below(jd, id) && Below(kd, jd) { BelowTransitive(kd, jd, id); }
    if Below(jd, id) && Below(id, jd) { BelowTransitive(jd, id, jd); BelowIrreflexive(jd); }
  }

  /** `max_by`: the greatest candidate, the later one among equals. */
  function Best(candidates: seq<AnswerBundle>): Option<AnswerBundle> {
    if candidates == [] then None
    else
      var prior, last := Best(candidates[..|candidates| - 1]), candidates[|candidates| - 1];
      if prior.Some? && Newer(prior.value, last) then prior else Some(last)
  }

  lemma {:induction false} BestIsGreatest(candidates: seq<AnswerBundle>)
    ensures Best(candidates).Some? <==> candidates != []
    ensures candidates != [] ==> Best(candidates).value in candidates
    ensures forall c <- candidates :: !Newer(c, Best(candidates).value)
  {
    if candidates != [] {
      var init, last := candidates[..|candidates| - 1], candidates[|candidates| - 1];
      BestIsGreatest(init);
      forall c | c in candidates ensures !Newer(c, Best(candidates).value) {
        assert c in init || c == last;
        LaterIsStrict(c.createdAt, c.eventId, last.createdAt, last.eventId, 0, "");
        if init != [] {
          var p := Best(init).value;
          LaterIsStrict(last.createdAt, last.eventId, p.createdAt, p.eventId, 0, "");
          LaterIsStrict(c.createdAt, c.eventId, last.createdAt, last.eventId, p.createdAt, p.eventId);
        }
      }
    }
  }

  /** Candidates with the same stamp are the same answer. */
  ghost predicate StampedOnce(candidates: seq<AnswerBundle>) {
    forall a <- candidates, b <- candidates :: a.eventId == b.eventId ==> a == b
  }

  /** The winner depends on which candidates there are, not on their order or multiplicity. */
  lemma BestOfSameSet(a: seq<AnswerBundle>, b: seq<AnswerBundle>)
    requires StampedOnce(a) && forall c :: c in a <==> c in b
    ensures Best(a) == Best(b)
  {
    BestIsGreatest(a);
    BestIsGreatest(b);
    assert a != [] ==> a[0] in b;
    assert b != [] ==> b[0] in a;
    if a != [] {
      var x, y := Best(a).value, Best(b).value;
      LaterIsStrict(x.createdAt, x.eventId, y.createdAt, y.eventId, 0, "");
    }
  }

  ghost function ValidOnes(questions: seq<Question>, candidates: seq<AnswerBundle>): seq<AnswerBundle> {
    if candidates == [] then []
    else
      var last := candidates[|candidates| - 1];
      ValidOnes(questions, candidates[..|candidates| - 1]) + (if ValidAnswer(questions, last) then [last] else [])
  }

  /** `select_answer`. */
  ghost function SelectAnswer(questions: seq<Question>, candidates: seq<AnswerBundle>): Option<AnswerBundle> {
    Best(ValidOnes(questions, candidates))
  }

  lemma {:induction false} ValidOnesMembers(questions: seq<Question>, candidates: seq<AnswerBundle>)
    ensures forall c :: c in ValidOnes(questions, candidates) <==> c in candidates && ValidAnswer(questions, c)
  {
    if candidates != [] {
      var init, last := candidates[..|candidates| - 1], candidates[|candidates| - 1];
      ValidOnesMembers(questions, init);
      assert candidates == init + [last];
    }
  }

  /** The answers to one root among the events of a group, in row order. */
  function AnswersTo(events: seq<Option<ParsedEvent>>, root: string): seq<AnswerBundle> {
    if events == [] then []
    else
      var last := events[|events| - 1];
      AnswersTo(events[..|events| - 1], root)
      + (if last.Some? && last.value.AnswerEvent? && last.value.answer.rootId == root
         then [last.value.answer.value] else [])
  }

  function ParseAll(rows: seq<Event>, group: string): seq<Option<ParsedEvent>> {
    seq(|rows|, i requires 0 <= i < |rows| => Parse(rows[i], group))
  }

  /** `answer_from_rows`: what the daemon's waiter returns for one frame of rows. */
  ghost function AnswerFromRows(rows: seq<Event>, group: string, root: string, questions: seq<Question>)
    : Option<AnswerBundle>
  {
    SelectAnswer(questions, AnswersTo(ParseAll(rows, group), root))
  }

  /** Trimming questions changes no verdict: ids, kinds and option ids have nothing to trim. */
  lemma TrimmingQuestionsKeepsValidity(questions: seq<Question>, bundle: AnswerBundle)
    ensures ValidAnswer(TrimQuestions(questions), bundle) <==> ValidAnswer(questions, bundle)
  {
    forall a | a in bundle.answers ensures Fits(TrimQuestions(questions), a) <==> Fits(questions, a) {
      TrimmedQuestionFor(questions, a.questionId);
      var q := QuestionFor(questions, a.questionId);
      if q.Some? { TrimmedOptionIds(q.value.options); }
    }
  }

  lemma {:induction false} TrimmedQuestionFor(questions: seq<Question>, id: string)
    ensures QuestionFor(TrimQuestions(questions), id)
         == if QuestionFor(questions, id).Some? then Some(TrimQuestion(QuestionFor(questions, id).value)) else None
  {
    if questions != [] {
      assert TrimQuestions(questions)[..|questions| - 1] == TrimQuestions(questions[..|questions| - 1]);
      TrimmedQuestionFor(questions[..|questions| - 1], id);
    }
  }

  lemma {:induction false} TrimmingQuestionsKeepsSelection(questions: seq<Question>, candidates: seq<AnswerBundle>)
    ensures ValidOnes(TrimQuestions(questions), candidates) == ValidOnes(questions, candidates)
  {
    if candidates != [] {
      TrimmingQuestionsKeepsSelection(questions, candidates[..|candidates| - 1]);
      TrimmingQuestionsKeepsValidity(questions, candidates[|candidates| - 1]);
    }
  }

  // ----- composing an answer -----

  datatype FrozenAnswer = FrozenAnswer(
    author: string, createdAt: nat, groupId: string, rootEventId: string, content: string,
    answers: seq<QuestionAnswer>)

  datatype RelatedComposeError = BadAuthor | BadGroup | BadRoot | BadContent | BadAnswer

  /** `EventId::from_hex` reads 64 hexadecimal digits of either case. */
  predicate IsHexId(s: string) {
    |s| == 64 && forall c <- s :: IsLowerHexChar(c) || 'A' <= c <= 'F'
  }

  predicate ComposableAnswer(answer: QuestionAnswer) {
    && IsIdentifier(answer.questionId) && 0 < |answer.values| <= 8
    && forall v <- answer.values :: Bounded(v, 4_000).Some?
  }

  ghost predicate ComposableAnswers(answers: seq<QuestionAnswer>) {
    && 0 < |answers| <= 3
    && (forall i, j :: 0 <= i < j < |answers| ==> answers[i].questionId != answers[j].questionId)
    && (forall a <- answers :: ComposableAnswer(a))
  }

  /** `validate_answers` with its id set. */
  method ValidateAnswers(answers: seq<QuestionAnswer>) returns (r: Result<(), RelatedComposeError>)
    ensures r == if ComposableAnswers(answers) then Ok(()) else Err(BadAnswer)
  {
    if answers == [] || |answers| > 3 { return Err(BadAnswer); }
    var questions: set<string> := {};
    for k := 0 to |answers|
      invariant questions == set i | 0 <= i < k :: answers[i].questionId
      invariant forall i, j :: 0 <= i < j < k ==> answers[i].questionId != answers[j].questionId
      invariant forall i :: 0 <= i < k ==> ComposableAnswer(answers[i])
    {
      var answer := answers[k];
      assert answer in answers;
      if !IsIdentifier(answer.questionId) || answer.questionId in questions || answer.values == []
         || |answer.values| > 8 || exists v <- answer.values :: Bounded(v, 4_000).None?
      {
        return Err(BadAnswer);
      }
      questions := questions + {answer.questionId};
    }
    r := Ok(());
  }

  function AnswerTag(answer: QuestionAnswer): TagRow {
    ["answer", answer.questionId] + answer.values
  }

  function AnswerTagsOf(answers: seq<QuestionAnswer>): seq<TagRow> {
    seq(|answers|, i requires 0 <= i < |answers| => AnswerTag(answers[i]))
  }

  function AnswerTags(answer: FrozenAnswer): seq<TagRow> {
    [["tts29", "answer", VERSION]] + [["e", answer.rootEventId, "", "root"]] + AnswerTagsOf(answer.answers)
  }

  /** `compose_answer`. */
  ghost function ComposeAnswer(answer: FrozenAnswer, key: KeyParser): Result<WriteIntent, RelatedComposeError> {
    if key(answer.author).None? then Err(BadAuthor)
    else if Bounded(answer.groupId, 128).None? then Err(BadGroup)
    else if !IsHexId(answer.rootEventId) then Err(BadRoot)
    else if Bounded(answer.content, 4_000).None? then Err(BadContent)
    else if !ComposableAnswers(answer.answers) then Err(BadAnswer)
    else
      Ok(WriteIntent(key(answer.author).value, answer.groupId, answer.createdAt, answer.content, AnswerTags(answer)))
  }

  function TrimAll(values: seq<string>): seq<string> {
    seq(|values|, i requires 0 <= i < |values| => Trim(values[i]))
  }

  function TrimAnswer(answer: QuestionAnswer): QuestionAnswer {
    QuestionAnswer(answer.questionId, TrimAll(answer.values))
  }

  function TrimAnswers(answers: seq<QuestionAnswer>): seq<QuestionAnswer> {
    seq(|answers|, i requires 0 <= i < |answers| => TrimAnswer(answers[i]))
  }

  lemma {:induction false} BoundedAllTrims(values: seq<string>, max: nat)
    requires forall v <- values :: Bounded(v, max).Some?
    ensures BoundedAll(values, max) == Some(TrimAll(values))
  {
    if values == [] {
      assert TrimAll(values) == [];
    } else {
      var init, last := values[..|values| - 1], values[|values| - 1];
      assert last in values;
      BoundedAllTrims(init, max);
      assert TrimAll(values) == TrimAll(init) + [Trim(last)];
    }
  }

  lemma AnswerReadBack(answers: seq<QuestionAnswer>, k: nat)
    requires ComposableAnswers(answers) && k < |answers|
    ensures AddAnswer(TrimAnswers(answers[..k]), AnswerTag(answers[k])) == Some(TrimAnswers(answers[..k + 1]))
  {
    var a := answers[k];
    assert a in answers;
    BoundedAllTrims(a.values, 4_000);
    assert AnswerTag(a)[2..] == a.values;
    var before := TrimAnswers(answers[..k]);
    forall b | b in before ensures b.questionId != a.questionId {
      var i :| 0 <= i < |before| && before[i] == b;
    }
    assert TrimAnswers(answers[..k + 1]) == before + [TrimAnswer(a)];
  }

  lemma {:induction false} AnswersReadBack(answers: seq<QuestionAnswer>, k: nat)
    requires ComposableAnswers(answers) && k <= |answers|
    ensures AnswersFrom(AnswerTagsOf(answers[..k])) == Some(TrimAnswers(answers[..k]))
  {
    hide ComposableAnswers, AnswerTag, AddAnswer, TrimAnswer;
    var rows := AnswerTagsOf(answers[..k]);
    if k == 0 {
      assert TrimAnswers(answers[..k]) == [];
    } else {
      AnswersReadBack(answers, k - 1);
      AnswerReadBack(answers, k - 1);
      assert rows[..k - 1] == AnswerTagsOf(answers[..k - 1]) && rows[k - 1] == AnswerTag(answers[k - 1]);
    }
  }

  lemma RowsOfAnswerNamed(answer: FrozenAnswer, name: string)
    ensures Rows(AnswerTags(answer), name)
         == Pick("tts29", [["tts29", "answer", VERSION]], name)
            + Pick("e", [["e", answer.rootEventId, "", "root"]], name)
            + Pick("answer", AnswerTagsOf(answer.answers), name)
  {
    hide Rows, Pick;
    var a, b, c := [["tts29", "answer", VERSION]], [["e", answer.rootEventId, "", "root"]],
        AnswerTagsOf(answer.answers);
    RowsConcat(a + b, c, name);
    RowsConcat(a, b, name);
    RowsOfNamed(a, "tts29", name);
    RowsOfNamed(b, "e", name);
    RowsOfNamed(c, "answer", name);
  }

  lemma RowsOfAnswer(answer: FrozenAnswer)
    ensures Rows(AnswerTags(answer), "tts29") == [["tts29", "answer", VERSION]]
    ensures Rows(AnswerTags(answer), "e") == [["e", answer.rootEventId, "", "root"]]
    ensures Rows(AnswerTags(answer), "answer") == AnswerTagsOf(answer.answers)
  {
    hide Rows, AnswerTags, AnswerTagsOf;
    RowsOfAnswerNamed(answer, "tts29");
    RowsOfAnswerNamed(answer, "e");
    RowsOfAnswerNamed(answer, "answer");
  }

  /** Every composed answer can be delivered. */
  lemma AnswerCanBeDelivered(answer: FrozenAnswer, key: KeyParser, id: string)
    requires ComposeAnswer(answer, key).Ok?
    ensures var intent := ComposeAnswer(answer, key).value; Delivers(SignedEvent(intent, id), intent)
  {
    hide Rows, AnswerTags, ComposableAnswers, Delivers, SignedEvent, AnswerTagsOf;
    RowsOfAnswerNamed(answer, "h");
    SignedDelivers(ComposeAnswer(answer, key).value, id);
  }

  /** What the delivered event shows of a composed answer. */
  lemma DeliveredAnswer(answer: FrozenAnswer, key: KeyParser, event: Event)
    requires ComposeAnswer(answer, key).Ok? && Delivers(event, ComposeAnswer(answer, key).value)
    ensures event.kind == 9 && Rows(event.tags, "h") == [["h", answer.groupId]] && ComposableAnswers(answer.answers)
    ensures forall name :: name != "h" ==> Rows(event.tags, name) == Rows(AnswerTags(answer), name)
  {
    hide Rows, AnswerTags, ComposableAnswers, Bounded, IsHexId;
  }

  /** How an event with an answer's rows parses. */
  lemma AnswerRowsParse(event: Event, group: string, root: string, rows: seq<TagRow>)
    requires event.kind == 9 && Rows(event.tags, "h") == [["h", group]]
    requires Rows(event.tags, "tts29") == [["tts29", "answer", VERSION]]
    requires Rows(event.tags, "e") == [["e", root, "", "root"]] && Rows(event.tags, "answer") == rows
    requires 0 < |rows| <= 3 && AnswersFrom(rows).Some?
    ensures Parse(event, group)
         == if IsLowerHex(root, 64) then
              Some(AnswerEvent(Related(root,
                AnswerBundle(event.id, event.pubkey, event.createdAt, AnswersFrom(rows).value))))
            else None
  {
    hide Rows, AnswersFrom, IsLowerHex, ParseItem, ParseAcknowledgement, ParseReaction;
    assert "answer" != "item" by { assert |"answer"| != |"item"|; }
  }

  /** A composed answer is delivered as an answer to its root with trimmed values, exactly when the
      root id is written in lower case. */
  lemma AnswerRoundTrip(answer: FrozenAnswer, key: KeyParser, event: Event)
    requires ComposeAnswer(answer, key).Ok? && Delivers(event, ComposeAnswer(answer, key).value)
    ensures Parse(event, answer.groupId)
         == if IsLowerHex(answer.rootEventId, 64) then
              Some(AnswerEvent(Related(answer.rootEventId,
                AnswerBundle(event.id, event.pubkey, event.createdAt, TrimAnswers(answer.answers)))))
            else None
  {
    hide Rows, AnswerTags, AnswersFrom, ComposableAnswer, Parse, IsLowerHex, ComposeAnswer, Delivers, TrimAnswers,
         AnswerTag;
    DeliveredAnswer(answer, key, event);
    RowsOfAnswer(answer);
    AnswersReadBack(answer.answers, |answer.answers|);
    assert answer.answers[..|answer.answers|] == answer.answers;
    AnswerRowsParse(event, answer.groupId, answer.rootEventId, AnswerTagsOf(answer.answers));
  }

  /** Both outcomes occur: a root id of 64 letters is composed in either case, but read back only in lower case. */
  lemma UpperCaseRootIsLost(key: KeyParser, upper: bool, event: Event)
    requires key("k") == Some("k")
    ensures var answer := SampleAnswer(upper);
      && ComposeAnswer(answer, key).Ok?
      && (Delivers(event, ComposeAnswer(answer, key).value) ==> (Parse(event, "g").None? <==> upper))
  {
    var answer := SampleAnswer(upper);
    SampleAnswerComposes(key, upper);
    hide *;
    if Delivers(event, ComposeAnswer(answer, key).value) {
      AnswerRoundTrip(answer, key, event);
      SampleRoot(upper);
    }
  }

  function SampleAnswer(upper: bool): FrozenAnswer {
    FrozenAnswer("k", 1, "g", seq(64, _ => if upper then 'A' else 'a'), "c", [QuestionAnswer("q", ["y"])])
  }

  lemma SampleRoot(upper: bool)
    ensures IsLowerHex(SampleAnswer(upper).rootEventId, 64) <==> !upper
    ensures SampleAnswer(upper).groupId == "g"
  {
    assert SampleAnswer(upper).rootEventId[0] == if upper then 'A' else 'a';
  }

  lemma SampleAnswerComposes(key: KeyParser, upper: bool)
    requires key("k") == Some("k")
    ensures ComposeAnswer(SampleAnswer(upper), key).Ok?
  {
    hide AnswerTags;
    TightIsFixed("g");
    TightIsFixed("c");
    TightIsFixed("y");
  }

  // ----- trimming never invalidates an accepted answer -----

  ghost predicate CleanOptions(questions: seq<Question>) {
    forall q <- questions, o <- q.options :: IsIdentifier(o.id)
  }

  ghost predicate CleanMap(options: OptionMap) {
    forall id <- options, o <- options[id] :: IsIdentifier(o.id)
  }

  lemma {:induction false} KeyedOptionsClean(rows: seq<TagRow>)
    requires KeyedOptionsOf(rows).Some?
    ensures CleanMap(KeyedOptionsOf(rows).value)
  {
    if rows != [] {
      KeyedOptionsClean(rows[..|rows| - 1]);
    }
  }

  lemma {:induction false} QuestionsClean(rows: seq<TagRow>, labels: map<string, string>,
                                          descriptions: map<string, string>, options: OptionMap)
    requires QuestionsFrom(rows, labels, descriptions, options).Some? && CleanMap(options)
    ensures CleanOptions(QuestionsFrom(rows, labels, descriptions, options).value)
  {
    if rows != [] {
      QuestionsClean(rows[..|rows| - 1], labels, descriptions, options);
      var last := rows[|rows| - 1];
      assert forall o <- OptionsOr(options, last[1]) :: IsIdentifier(o.id);
    }
  }

  /** Every parsed item offers options whose ids are identifiers. */
  lemma ParsedQuestionsClean(event: Event)
    requires ParseItem(event).Some?
    ensures CleanOptions(ParseItem(event).value.questions)
  {
    var rows := Rows(event.tags, "option");
    KeyedOptionsClean(rows);
    QuestionsClean(Rows(event.tags, "question"), KeyedTextOf(Rows(event.tags, "label"), 40).value,
                   KeyedTextOf(Rows(event.tags, "description"), 500).value, KeyedOptionsOf(rows).value);
  }

  lemma {:induction false} QuestionForMember(questions: seq<Question>, id: string)
    ensures QuestionFor(questions, id).Some? ==> QuestionFor(questions, id).value in questions
  {
    if questions != [] { QuestionForMember(questions[..|questions| - 1], id); }
  }

  lemma TrimmedAnswerFits(questions: seq<Question>, answer: QuestionAnswer)
    requires CleanOptions(questions) && Fits(questions, answer)
    ensures Fits(questions, TrimAnswer(answer))
  {
    QuestionForMember(questions, answer.questionId);
    var q := QuestionFor(questions, answer.questionId).value;
    if !q.kind.Freeform? {
      forall i | 0 <= i < |answer.values| ensures TrimAll(answer.values)[i] == answer.values[i] {
        assert answer.values[i] in answer.values && answer.values[i] in OptionIds(q.options);
        IdentifierIsTight(answer.values[i]);
      }
      assert TrimAll(answer.values) == answer.values;
    }
  }

  lemma TrimmingAnswersKeepsValidity(questions: seq<Question>, answers: seq<QuestionAnswer>)
    requires CleanOptions(questions) && ValidAnswers(questions, answers)
    ensures ValidAnswers(questions, TrimAnswers(answers))
  {
    forall a | a in TrimAnswers(answers) ensures Fits(questions, a) {
      var i :| 0 <= i < |answers| && TrimAnswers(answers)[i] == a;
      assert answers[i] in answers;
      TrimmedAnswerFits(questions, answers[i]);
    }
  }

  /** End to end: an answer accepted for a parsed item and composed is read by everyone as a valid
      answer to that very item. */
  lemma AcceptedAnswersSurvive(asked: Event, group: string, answer: FrozenAnswer, key: KeyParser, event: Event)
    requires ParseItem(asked).Some? && IsLowerHex(asked.id, 64)
    requires answer.rootEventId == asked.id && answer.groupId == group
    requires ValidAnswers(ParseItem(asked).value.questions, answer.answers)
    requires ComposeAnswer(answer, key).Ok? && Delivers(event, ComposeAnswer(answer, key).value)
    ensures var read := Parse(event, group);
      && read.Some? && read.value.AnswerEvent? && read.value.answer.rootId == asked.id
      && ValidAnswer(ParseItem(asked).value.questions, read.value.answer.value)
  {
    hide ItemAccepted, Delivers;
    AnswerRoundTrip(answer, key, event);
    ParsedQuestionsClean(asked);
    TrimmingAnswersKeepsValidity(ParseItem(asked).value.questions, answer.answers);
  }
}
