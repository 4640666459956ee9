/**
 Printing a frozen item and parsing the delivered event. The parser gives the item back with its
 free text trimmed, exactly when every attachment label is bounded.
 */
module RoundTrip {
  import opened Contract
  import opened Text
  import opened Tags
  import opened Parser
  import opened Composer

  // ----- what trimming makes of an item -----

  function TrimOptional(text: Option<string>): Option<string> {
    if text.Some? then Some(Trim(text.value)) else None
  }

  function TrimArtifact(a: DurableArtifact): DurableArtifact {
    DurableArtifact(Trim(a.url), Trim(a.sha256), Trim(a.mediaType), a.byteCount, TrimOptional(a.caption))
  }

  function TrimArtifacts(artifacts: seq<DurableArtifact>): seq<DurableArtifact> {
    seq(|artifacts|, i requires 0 <= i < |artifacts| => TrimArtifact(artifacts[i]))
  }

  function TrimOption(option: QuestionOption): QuestionOption {
    QuestionOption(option.id, Trim(option.title), TrimOptional(option.description))
  }

  function TrimOptions(options: seq<QuestionOption>): seq<QuestionOption> {
    seq(|options|, i requires 0 <= i < |options| => TrimOption(options[i]))
  }

  function TrimQuestion(q: Question): Question {
    Question(q.id, q.kind, Trim(q.shortTitle), Trim(q.title), TrimOptional(q.description),
             TrimOptions(q.options))
  }

  function TrimQuestions(questions: seq<Question>): seq<Question> {
    seq(|questions|, i requires 0 <= i < |questions| => TrimQuestion(questions[i]))
  }

  /** The item a reader sees: the event's identity and the frozen item's text, trimmed. */
  function Received(item: FrozenSpokenItem, event: Event): SpokenItem {
    SpokenItem(
      event.id, event.pubkey, event.createdAt, Trim(item.agentName), Trim(item.subject),
      Trim(item.summary), Trim(item.body), Some(Trim(item.audio.url)), TrimArtifact(item.audio),
      TrimArtifacts(item.attachments), TrimQuestions(item.questions), None, None, [], item.attach, [])
  }

  /** Freezing what was received for the same group again. */
  function Refreeze(item: SpokenItem, group: string): FrozenSpokenItem {
    FrozenSpokenItem(
      item.author, item.createdAt, group, item.agentName, item.subject, item.summary, item.body,
      item.audio, item.attachments, item.questions, item.attach)
  }

  ghost predicate LabelsBounded(item: FrozenSpokenItem) {
    forall a <- item.attachments :: a.caption.Some? && Bounded(a.caption.value, 120).Some?
  }

  // ----- rows of concatenations -----

  lemma {:induction false} RowsConcat(a: seq<TagRow>, b: seq<TagRow>, name: string)
    ensures Rows(a + b, name) == Rows(a, name) + Rows(b, name)
  {
    if a == [] {
      assert a + b == b;
    } else {
      assert (a + b)[1..] == a[1..] + b;
      RowsConcat(a[1..], b, name);
    }
  }

  ghost predicate AllNamed(rows: seq<TagRow>, name: string) {
    forall i :: 0 <= i < |rows| ==> Named(rows[i], name)
  }

  /** Rows that all carry the name `own`, looked up by `name`. */
  function Pick(own: string, rows: seq<TagRow>, name: string): seq<TagRow> {
    if name == own then rows else []
  }

  lemma {:induction false} RowsOfNamed(rows: seq<TagRow>, own: string, name: string)
    requires AllNamed(rows, own)
    ensures Rows(rows, name) == Pick(own, rows, name)
  {
    if rows != [] {
      assert Named(rows[0], own);
      RowsOfNamed(rows[1..], own, name);
    }
  }

  // ----- question rows -----

  function QuestionRowsOf(questions: seq<Question>): seq<TagRow> {
    if questions == [] then []
    else QuestionRowsOf(questions[..|questions| - 1]) + QuestionHead(questions[|questions| - 1])
  }

  function LabelRowsOf(questions: seq<Question>): seq<TagRow> {
    if questions == [] then []
    else LabelRowsOf(questions[..|questions| - 1]) + LabelTag(questions[|questions| - 1])
  }

  function DescriptionRowsOf(questions: seq<Question>): seq<TagRow> {
    if questions == [] then []
    else DescriptionRowsOf(questions[..|questions| - 1]) + DescriptionTags(questions[|questions| - 1])
  }

  function OptionRowsOf(questions: seq<Question>): seq<TagRow> {
    if questions == [] then []
    else
      var q := questions[|questions| - 1];
      OptionRowsOf(questions[..|questions| - 1]) + OptionTags(q.id, q.options)
  }

  lemma RowsOfOneQuestion(q: Question, name: string)
    ensures Rows(QuestionTagsOf(q), name)
         == Pick("question", QuestionHead(q), name) + Pick("label", LabelTag(q), name)
            + Pick("description", DescriptionTags(q), name) + Pick("option", OptionTags(q.id, q.options), name)
  {
    var a, b, c, d := QuestionHead(q), LabelTag(q), DescriptionTags(q), OptionTags(q.id, q.options);
    RowsConcat(a + b + c, d, name);
    RowsConcat(a + b, c, name);
    RowsConcat(a, b, name);
    RowsOfNamed(a, "question", name);
    RowsOfNamed(b, "label", name);
    RowsOfNamed(c, "description", name);
    RowsOfNamed(d, "option", name);
  }

  lemma RowsOfLastQuestion(questions: seq<Question>, name: string)
    requires questions != []
    ensures var q := questions[|questions| - 1];
      Rows(QuestionTags(questions), name)
      == Rows(QuestionTags(questions[..|questions| - 1]), name) + Pick("question", QuestionHead(q), name)
         + Pick("label", LabelTag(q), name) + Pick("description", DescriptionTags(q), name)
         + Pick("option", OptionTags(q.id, q.options), name)
  {
    hide Rows, Pick, QuestionTagsOf, QuestionHead, LabelTag, DescriptionTags, OptionTags;
    RowsConcat(QuestionTags(questions[..|questions| - 1]), QuestionTagsOf(questions[|questions| - 1]), name);
    RowsOfOneQuestion(questions[|questions| - 1], name);
    PlusIsAssociative(Rows(QuestionTags(questions[..|questions| - 1]), name), questions[|questions| - 1], name);
  }

  lemma PlusIsAssociative(before: seq<TagRow>, q: Question, name: string)
    ensures before + (Pick("question", QuestionHead(q), name) + Pick("label", LabelTag(q), name)
                      + Pick("description", DescriptionTags(q), name)
                          + Pick("option", OptionTags(q.id, q.options), name))
         == before + Pick("question", QuestionHead(q), name) + Pick("label", LabelTag(q), name)
            + Pick("description", DescriptionTags(q), name) + Pick("option", OptionTags(q.id, q.options), name)
  {
    hide *;
  }

  lemma {:induction false} RowsOfQuestions(questions: seq<Question>)
    ensures Rows(QuestionTags(questions), "question") == QuestionRowsOf(questions)
    ensures Rows(QuestionTags(questions), "label") == LabelRowsOf(questions)
    ensures Rows(QuestionTags(questions), "description") == DescriptionRowsOf(questions)
    ensures Rows(QuestionTags(questions), "option") == OptionRowsOf(questions)
  {
    if questions == [] {
    } else {
      RowsOfQuestions(questions[..|questions| - 1]);
      hide Rows, QuestionTags, QuestionHead, LabelTag, DescriptionTags, OptionTags;
      RowsOfLastByName(questions, "question");
      RowsOfLastByName(questions, "label");
      RowsOfLastByName(questions, "description");
      RowsOfLastByName(questions, "option");
    }
  }

  /** The last question adds, under each of its four names, the rows of that name. */
  lemma RowsOfLastByName(questions: seq<Question>, name: string)
    requires questions != []
    ensures var q, before := questions[|questions| - 1], Rows(QuestionTags(questions[..|questions| - 1]), name);
      && (name == "question" ==> Rows(QuestionTags(questions), name) == before + QuestionHead(q))
      && (name == "label" ==> Rows(QuestionTags(questions), name) == before + LabelTag(q))
      && (name == "description" ==> Rows(QuestionTags(questions), name) == before + DescriptionTags(q))
      && (name == "option" ==> Rows(QuestionTags(questions), name) == before + OptionTags(q.id, q.options))
  {
    hide Rows, QuestionTags, QuestionHead, LabelTag, DescriptionTags, OptionTags;
    RowsOfLastQuestion(questions, name);
  }

  lemma {:induction false} QuestionTagsHaveNoOther(questions: seq<Question>, name: string)
    requires name != "question" && name != "label" && name != "description" && name != "option"
    ensures Rows(QuestionTags(questions), name) == []
  {
    if questions != [] {
      QuestionTagsHaveNoOther(questions[..|questions| - 1], name);
      RowsOfLastQuestion(questions, name);
    }
  }

  /** Rows of one name in a printed item come from the one part that prints that name. */
  lemma RowsOfItem(item: FrozenSpokenItem, name: string)
    ensures Rows(ItemTags(item), name)
         == Pick("tts29", [["tts29", "item", VERSION]], name) + Pick("title", [["title", item.subject]], name)
            + Pick("agent", TextTag("agent", item.agentName), name)
            + Pick("summary", TextTag("summary", item.summary), name)
            + Pick("audio", [ArtifactRow(item.audio, "audio")], name)
            + Pick("attachment", AttachmentTags(item.attachments), name)
            + Pick("e", AttachTags(item.attach), name) + Rows(QuestionTags(item.questions), name)
  {
    hide Rows, Pick, QuestionTags;
    var a, b := [["tts29", "item", VERSION]], [["title", item.subject]];
    var c, d := TextTag("agent", item.agentName), TextTag("summary", item.summary);
    var e, f := [ArtifactRow(item.audio, "audio")], AttachmentTags(item.attachments);
    var g, h := AttachTags(item.attach), QuestionTags(item.questions);
    RowsConcat(a + b + c + d + e + f + g, h, name);
    RowsConcat(a + b + c + d + e + f, g, name);
    RowsConcat(a + b + c + d + e, f, name);
    RowsConcat(a + b + c + d, e, name);
    RowsConcat(a + b + c, d, name);
    RowsConcat(a + b, c, name);
    RowsConcat(a, b, name);
    RowsOfNamed(a, "tts29", name);
    RowsOfNamed(b, "title", name);
    RowsOfNamed(c, "agent", name);
    RowsOfNamed(d, "summary", name);
    RowsOfNamed(e, "audio", name);
    RowsOfNamed(f, "attachment", name);
    RowsOfNamed(g, "e", name);
  }

  lemma MarkerRows(item: FrozenSpokenItem)
    ensures Rows(ItemTags(item), "tts29") == [["tts29", "item", VERSION]]
  {
    hide Rows, QuestionTags, ItemTags, ArtifactRow, AttachmentTags, AttachTags, TextTag;
    RowsOfItem(item, "tts29");
    QuestionTagsHaveNoOther(item.questions, "tts29");
  }

  lemma TitleRows(item: FrozenSpokenItem)
    ensures Rows(ItemTags(item), "title") == [["title", item.subject]]
  {
    hide Rows, QuestionTags, ItemTags, ArtifactRow, AttachmentTags, AttachTags, TextTag;
    RowsOfItem(item, "title");
    QuestionTagsHaveNoOther(item.questions, "title");
  }

  lemma AgentRows(item: FrozenSpokenItem)
    ensures Rows(ItemTags(item), "agent") == TextTag("agent", item.agentName)
  {
    hide Rows, QuestionTags, ItemTags, ArtifactRow, AttachmentTags, AttachTags, TextTag;
    RowsOfItem(item, "agent");
    QuestionTagsHaveNoOther(item.questions, "agent");
  }

  lemma SummaryRows(item: FrozenSpokenItem)
    ensures Rows(ItemTags(item), "summary") == TextTag("summary", item.summary)
  {
    hide Rows, QuestionTags, ItemTags, ArtifactRow, AttachmentTags, AttachTags, TextTag;
    RowsOfItem(item, "summary");
    QuestionTagsHaveNoOther(item.questions, "summary");
  }

  lemma AudioRows(item: FrozenSpokenItem)
    ensures Rows(ItemTags(item), "audio") == [ArtifactRow(item.audio, "audio")]
  {
    hide Rows, QuestionTags, ItemTags, ArtifactRow, AttachmentTags, AttachTags, TextTag;
    RowsOfItem(item, "audio");
    QuestionTagsHaveNoOther(item.questions, "audio");
  }

  lemma AttachmentRows(item: FrozenSpokenItem)
    ensures Rows(ItemTags(item), "attachment") == AttachmentTags(item.attachments)
  {
    hide Rows, QuestionTags, ItemTags, ArtifactRow, AttachmentTags, AttachTags, TextTag;
    RowsOfItem(item, "attachment");
    QuestionTagsHaveNoOther(item.questions, "attachment");
  }

  lemma LinkRows(item: FrozenSpokenItem)
    ensures Rows(ItemTags(item), "e") == AttachTags(item.attach)
  {
    hide Rows, QuestionTags, ItemTags, ArtifactRow, AttachmentTags, AttachTags, TextTag;
    RowsOfItem(item, "e");
    QuestionTagsHaveNoOther(item.questions, "e");
  }

  lemma SingleRows(item: FrozenSpokenItem)
    ensures Rows(ItemTags(item), "tts29") == [["tts29", "item", VERSION]]
    ensures Rows(ItemTags(item), "title") == [["title", item.subject]]
    ensures Rows(ItemTags(item), "agent") == TextTag("agent", item.agentName)
    ensures Rows(ItemTags(item), "summary") == TextTag("summary", item.summary)
  {
    hide *;
    MarkerRows(item);
    TitleRows(item);
    AgentRows(item);
    SummaryRows(item);
  }

  lemma ArtifactAndLinkRows(item: FrozenSpokenItem)
    ensures Rows(ItemTags(item), "audio") == [ArtifactRow(item.audio, "audio")]
    ensures Rows(ItemTags(item), "attachment") == AttachmentTags(item.attachments)
    ensures Rows(ItemTags(item), "e") == AttachTags(item.attach)
  {
    hide *;
    AudioRows(item);
    AttachmentRows(item);
    LinkRows(item);
  }

  /** The question rows of an item are its questions'. */
  lemma RowsFromQuestions(item: FrozenSpokenItem, name: string)
    requires name == "question" || name == "label" || name == "description" || name == "option"
    ensures Rows(ItemTags(item), name) == Rows(QuestionTags(item.questions), name)
  {
    hide Rows, QuestionTags, ItemTags, ArtifactRow, AttachmentTags, AttachTags, TextTag;
    RowsOfItem(item, name);
  }

  lemma QuestionRowsOfItem(item: FrozenSpokenItem)
    ensures Rows(ItemTags(item), "question") == QuestionRowsOf(item.questions)
    ensures Rows(ItemTags(item), "label") == LabelRowsOf(item.questions)
    ensures Rows(ItemTags(item), "description") == DescriptionRowsOf(item.questions)
    ensures Rows(ItemTags(item), "option") == OptionRowsOf(item.questions)
  {
    hide *;
    RowsFromQuestions(item, "question");
    RowsFromQuestions(item, "label");
    RowsFromQuestions(item, "description");
    RowsFromQuestions(item, "option");
    RowsOfQuestions(item.questions);
  }

  // ----- artifacts -----

  /** A printed artifact is read back trimmed, its label only when bounded. */
  lemma ArtifactRoundTrip(a: DurableArtifact, withLabel: bool)
    requires ValidArtifact(a, withLabel)
    ensures a.caption.Some? == withLabel
    ensures var r := Artifact(ArtifactRow(a, ArtifactName(withLabel)), ArtifactName(withLabel), withLabel).value;
      r == TrimArtifact(a).(caption := if withLabel then Bounded(a.caption.value, 120) else None)
  {
    DecimalRoundTrip(a.byteCount);
  }

  /** What a valid artifact's fields are. */
  ghost predicate FieldsFit(a: DurableArtifact, withLabel: bool) {
    && a.caption.Some? == withLabel && 0 < a.byteCount <= MAX_ARTIFACT_BYTES
    && Bounded(a.url, 2048).Some? && StartsWith(Trim(a.url), "https://")
    && Bounded(a.sha256, 64).Some? && IsLowerHex(Trim(a.sha256), 64)
    && Bounded(a.mediaType, 128).Some? && '/' in Trim(a.mediaType)
  }

  lemma ValidMeansFields(a: DurableArtifact, withLabel: bool)
    ensures ValidArtifact(a, withLabel) <==> FieldsFit(a, withLabel)
  {
    hide Trim, IsLowerHex, StartsWith, Decimal, ParseU64, Bounded, ArtifactRow;
    DecimalRoundTrip(a.byteCount);
    ArtifactRowFields(a, ArtifactName(withLabel));
    BoundedTrims(a.url, 2048);
    BoundedTrims(a.sha256, 64);
    BoundedTrims(a.mediaType, 128);
  }

  lemma ArtifactRowFields(a: DurableArtifact, name: string)
    ensures var row := ArtifactRow(a, name);
      && |row| == (if a.caption.Some? then 6 else 5) && row[0] == name
      && row[1] == a.url && row[2] == a.sha256 && row[3] == a.mediaType && row[4] == Decimal(a.byteCount)
      && (a.caption.Some? ==> row[5] == a.caption.value)
  {
    hide Decimal;
  }

  lemma BoundedTrims(text: string, max: nat)
    ensures Bounded(text, max).Some? ==> Bounded(text, max).value == Trim(text)
  {
  }

  /** Reading a trimmed artifact changes nothing further. */
  lemma TrimmedArtifactValid(a: DurableArtifact, withLabel: bool)
    requires ValidArtifact(a, withLabel)
    ensures ValidArtifact(TrimArtifact(a), withLabel) && TrimArtifact(TrimArtifact(a)) == TrimArtifact(a)
  {
    hide ValidArtifact, Bounded, Trim, IsLowerHex, StartsWith;
    ValidMeansFields(a, withLabel);
    BoundedSettles(a.url, 2048);
    BoundedSettles(a.sha256, 64);
    BoundedSettles(a.mediaType, 128);
    TrimSettles(a.url);
    TrimSettles(a.sha256);
    TrimSettles(a.mediaType);
    if withLabel { TrimSettles(a.caption.value); }
    ValidMeansFields(TrimArtifact(a), withLabel);
  }

  /** An attachment as a reader sees it: trimmed, its label kept only when bounded. */
  function ReadBack(a: DurableArtifact): DurableArtifact
    requires a.caption.Some?
  {
    TrimArtifact(a).(caption := Bounded(a.caption.value, 120))
  }

  lemma {:induction false} ArtifactsRoundTrip(attachments: seq<DurableArtifact>)
    requires forall i :: 0 <= i < |attachments| ==> ValidArtifact(attachments[i], true)
    ensures forall i :: 0 <= i < |attachments| ==> attachments[i].caption.Some?
    ensures var r := ArtifactList(AttachmentTags(attachments));
      && r.Some? && |r.value| == |attachments|
      && forall i :: 0 <= i < |attachments| ==> r.value[i] == ReadBack(attachments[i])
  {
    hide Artifact, Bounded, TrimArtifact, ArtifactRow;
    if attachments == [] {
      assert AttachmentTags(attachments) == [];
    } else {
      var init, a := attachments[..|attachments| - 1], attachments[|attachments| - 1];
      ArtifactsRoundTrip(init);
      assert ValidArtifact(a, true);
      ArtifactRoundTrip(a, true);
      var rows := AttachmentTags(attachments);
      assert rows[..|rows| - 1] == AttachmentTags(init) && rows[|rows| - 1] == ArtifactRow(a, "attachment");
      assert ArtifactList(rows) == Some(ArtifactList(AttachmentTags(init)).value + [ReadBack(a)]);
      forall i | 0 <= i < |attachments| ensures attachments[i].caption.Some? {
        assert i < |init| ==> attachments[i] == init[i];
      }
    }
  }

  /** All attachments are read back trimmed exactly when every label is bounded. */
  lemma AttachmentsAccepted(item: FrozenSpokenItem)
    requires forall a <- item.attachments :: ValidArtifact(a, true)
    ensures var r := ArtifactList(AttachmentTags(item.attachments));
      && r.Some? && |r.value| == |item.attachments|
      && ((forall a <- r.value :: a.caption.Some?) <==> LabelsBounded(item))
      && (LabelsBounded(item) ==> r.value == TrimArtifacts(item.attachments))
  {
    hide Artifact, Bounded, ArtifactRow;
    ArtifactsRoundTrip(item.attachments);
    var r := ArtifactList(AttachmentTags(item.attachments)).value;
    if forall a <- r :: a.caption.Some? {
      forall a | a in item.attachments ensures a.caption.Some? && Bounded(a.caption.value, 120).Some? {
        var i :| 0 <= i < |item.attachments| && item.attachments[i] == a;
        assert r[i] in r;
      }
    }
    if LabelsBounded(item) {
      forall i | 0 <= i < |r| ensures r[i] == TrimArtifact(item.attachments[i]) && r[i].caption.Some? {
        assert item.attachments[i] in item.attachments;
        BoundedSettles(item.attachments[i].caption.value, 120);
      }
    }
  }

  // ----- questions -----

  ghost predicate Faultless(questions: seq<Question>) {
    forall i :: 0 <= i < |questions| ==> QuestionFault(questions, i).None?
  }

  lemma FaultlessWhenValid(questions: seq<Question>)
    requires ValidateQuestions(questions).Ok?
    ensures Faultless(questions) && |questions| <= 3
  {
    forall i | 0 <= i < |questions| ensures QuestionFault(questions, i).None? {
      NoFaultBefore(questions, |questions|, i);
    }
  }

  lemma {:induction false} ValidWhenFaultless(questions: seq<Question>, n: nat)
    requires n <= |questions| && Faultless(questions)
    ensures FirstFault(questions, n).None?
  {
    hide QuestionFault;
    if n > 0 { ValidWhenFaultless(questions, n - 1); }
  }

  lemma FaultlessPrefix(questions: seq<Question>)
    requires questions != [] && Faultless(questions)
    ensures Faultless(questions[..|questions| - 1])
    ensures questions[|questions| - 1].id !in QuestionIds(questions[..|questions| - 1])
  {
    var init := questions[..|questions| - 1];
    assert QuestionFault(questions, |questions| - 1).None?;
    forall i | 0 <= i < |init| ensures QuestionFault(init, i).None? {
      assert init[..i] == questions[..i] && QuestionFault(questions, i).None?;
    }
  }

  function LabelMap(questions: seq<Question>): map<string, string> {
    if questions == [] then map[]
    else
      var q := questions[|questions| - 1];
      LabelMap(questions[..|questions| - 1])[q.id := Trim(q.shortTitle)]
  }

  function DescriptionMap(questions: seq<Question>): map<string, string> {
    if questions == [] then map[]
    else
      var prior, q := DescriptionMap(questions[..|questions| - 1]), questions[|questions| - 1];
      if q.description.Some? then prior[q.id := Trim(q.description.value)] else prior
  }

  function OptionsMap(questions: seq<Question>): OptionMap {
    if questions == [] then map[]
    else
      var prior, q := OptionsMap(questions[..|questions| - 1]), questions[|questions| - 1];
      if q.options == [] then prior else prior[q.id := TrimOptions(q.options)]
  }

  lemma InitIds(questions: seq<Question>)
    requires questions != []
    ensures QuestionIds(questions)
         == QuestionIds(questions[..|questions| - 1]) + {questions[|questions| - 1].id}
  {
    QuestionIdsGrow(questions[..|questions| - 1], questions[|questions| - 1]);
    assert questions == questions[..|questions| - 1] + [questions[|questions| - 1]];
  }

  /** What a faultless last question brings to the rows and the maps. */
  lemma LastQuestion(questions: seq<Question>)
    requires questions != [] && Faultless(questions)
    ensures var q := questions[|questions| - 1];
      && IsIdentifier(q.id) && Bounded(q.shortTitle, 40) == Some(Trim(q.shortTitle))
      && (q.description.Some? ==> Bounded(q.description.value, 500) == Some(Trim(q.description.value)))
      && |q.options| <= 8 && forall k | 0 <= k < |q.options| :: !BadOption(q.options, k)
  {
    hide BadOption, IsIdentifier, Trim;
    assert QuestionFault(questions, |questions| - 1).None?;
  }

  lemma LabelsUnfold(questions: seq<Question>)
    ensures questions == [] ==> LabelRowsOf(questions) == [] && LabelMap(questions) == map[]
    ensures questions != [] ==>
      var init, q := questions[..|questions| - 1], questions[|questions| - 1];
      && LabelRowsOf(questions) == LabelRowsOf(init) + [["label", q.id, q.shortTitle]]
      && LabelMap(questions) == LabelMap(init)[q.id := Trim(q.shortTitle)]
  {
    hide Trim;
  }

  lemma DescriptionsUnfold(questions: seq<Question>)
    ensures questions == [] ==> DescriptionRowsOf(questions) == [] && DescriptionMap(questions) == map[]
    ensures questions != [] ==>
      var init, q := questions[..|questions| - 1], questions[|questions| - 1];
      if q.description.Some? then
        && DescriptionRowsOf(questions) == DescriptionRowsOf(init) + [["description", q.id, q.description.value]]
        && DescriptionMap(questions) == DescriptionMap(init)[q.id := Trim(q.description.value)]
      else DescriptionRowsOf(questions) == DescriptionRowsOf(init) && DescriptionMap(questions) == DescriptionMap(init)
  {
    hide Trim;
  }

  lemma NothingKeyed()
    ensures (forall max :: KeyedTextOf([], max) == Some(map[])) && KeyedOptionsOf([]) == Some(map[])
             && QuestionIds([]) == {}
  {
  }

  lemma KeyedRowFits(name: string, id: string, text: string, max: nat)
    requires IsIdentifier(id) && Bounded(text, max).Some?
    ensures KeyedTextRow([name, id, text], max)
  {
    hide IsIdentifier, Bounded;
  }

  lemma {:induction false} LabelsRoundTrip(questions: seq<Question>)
    requires Faultless(questions)
    ensures KeyedTextOf(LabelRowsOf(questions), 40) == Some(LabelMap(questions))
    ensures LabelMap(questions).Keys == QuestionIds(questions)
  {
    hide *;
    LabelsUnfold(questions);
    if questions == [] {
      NothingKeyed();
    } else {
      var init, q := questions[..|questions| - 1], questions[|questions| - 1];
      FaultlessPrefix(questions);
      LabelsRoundTrip(init);
      InitIds(questions);
      LastQuestion(questions);
      KeyedRowFits("label", q.id, q.shortTitle, 40);
      KeyedTextSnoc(LabelRowsOf(init), ["label", q.id, q.shortTitle], 40);
    }
  }

  lemma {:induction false} DescriptionsRoundTrip(questions: seq<Question>)
    requires Faultless(questions)
    ensures KeyedTextOf(DescriptionRowsOf(questions), 500) == Some(DescriptionMap(questions))
    ensures DescriptionMap(questions).Keys <= QuestionIds(questions)
  {
    hide *;
    DescriptionsUnfold(questions);
    if questions == [] {
      NothingKeyed();
    } else {
      var init, q := questions[..|questions| - 1], questions[|questions| - 1];
      FaultlessPrefix(questions);
      DescriptionsRoundTrip(init);
      InitIds(questions);
      LastQuestion(questions);
      if q.description.Some? {
        KeyedRowFits("description", q.id, q.description.value, 500);
        KeyedTextSnoc(DescriptionRowsOf(init), ["description", q.id, q.description.value], 500);
      }
    }
  }

  lemma OptionReadBack(question: string, options: seq<QuestionOption>, k: nat)
    requires IsIdentifier(question) && k < |options| && !BadOption(options, k)
    ensures OptionRow(OptionTag(question, options[k]))
    ensures OptionOf(OptionTag(question, options[k])) == TrimOption(options[k])
    ensures options[k].id !in OptionIds(TrimOptions(options[..k]))
  {
    var d := options[k].description;
    if d.Some? { BoundedSettles(d.value, 300); }
    TrimmedOptionIds(options[..k]);
  }

  lemma OptionTagNames(question: string, option: QuestionOption)
    ensures var row := OptionTag(question, option); |row| >= 4 && row[1] == question && row[2] == option.id
  {
  }

  lemma TrimmedOptionIds(options: seq<QuestionOption>)
    ensures OptionIds(TrimOptions(options)) == OptionIds(options)
  {
    var trimmed := TrimOptions(options);
    forall option | option in options ensures option.id in OptionIds(trimmed) {
      var i :| 0 <= i < |options| && options[i] == option;
      assert trimmed[i] in trimmed && trimmed[i].id == option.id;
    }
    forall option | option in trimmed ensures option.id in OptionIds(options) {
      var i :| 0 <= i < |options| && trimmed[i] == option;
      assert options[i] in options && options[i].id == option.id;
    }
  }

  /** The first `k` options of one more question, read behind the options of other questions. */
  lemma {:induction false} OptionsReadBack(before: seq<TagRow>, prior: OptionMap, question: string,
                                           options: seq<QuestionOption>, k: nat)
    requires KeyedOptionsOf(before) == Some(prior) && question !in prior
    requires IsIdentifier(question) && k <= |options| <= 8
    requires forall i :: 0 <= i < |options| ==> !BadOption(options, i)
    ensures KeyedOptionsOf(before + OptionTags(question, options[..k]))
         == Some(if k == 0 then prior else prior[question := TrimOptions(options[..k])])
  {
    hide *;
    NoOptions(question, options);
    if k == 0 {
      assert before + [] == before;
    } else {
      var tags, tag := OptionTags(question, options[..k - 1]), OptionTag(question, options[k - 1]);
      OptionsReadBack(before, prior, question, options, k - 1);
      OptionTagsSnoc(question, options, k - 1);
      assert before + (tags + [tag]) == (before + tags) + [tag];
      OptionsSnoc(before + tags, tag);
      OneMoreOption(prior, question, options, k - 1);
    }
  }

  lemma NoOptions(question: string, options: seq<QuestionOption>)
    ensures OptionTags(question, options[..0]) == []
  {
  }

  lemma OptionTagsSnoc(question: string, options: seq<QuestionOption>, k: nat)
    requires k < |options|
    ensures OptionTags(question, options[..k + 1]) == OptionTags(question, options[..k])
        + [OptionTag(question, options[k])]
  {
    hide OptionTag;
  }

  lemma TrimOptionsSnoc(options: seq<QuestionOption>, k: nat)
    requires k < |options|
    ensures TrimOptions(options[..0]) == [] && |TrimOptions(options[..k])| == k
    ensures TrimOptions(options[..k + 1]) == TrimOptions(options[..k]) + [TrimOption(options[k])]
  {
    hide TrimOption;
  }

  /** Reading the k-th option row of a question behind its first `k`. */
  lemma OneMoreOption(prior: OptionMap, question: string, options: seq<QuestionOption>, k: nat)
    requires question !in prior && IsIdentifier(question) && k < |options| <= 8 && !BadOption(options, k)
    ensures AddOption(if k == 0 then prior
                      else prior[question := TrimOptions(options[..k])], OptionTag(question, options[k]))
         == Some(prior[question := TrimOptions(options[..k + 1])])
  {
    hide OptionRow, OptionOf, BadOption, TrimOption, TrimOptions, IsIdentifier, OptionIds, OptionTag;
    OptionReadBack(question, options, k);
    OptionTagNames(question, options[k]);
    TrimOptionsSnoc(options, k);
    var read := if k == 0 then prior else prior[question := TrimOptions(options[..k])];
    assert OptionsOr(read, question) == TrimOptions(options[..k]);
    assert read[question := TrimOptions(options[..k + 1])] == prior[question := TrimOptions(options[..k + 1])];
  }

  lemma OptionsUnfold(questions: seq<Question>)
    ensures questions == [] ==> OptionRowsOf(questions) == [] && OptionsMap(questions) == map[]
    ensures questions != [] ==>
      var init, q := questions[..|questions| - 1], questions[|questions| - 1];
      && OptionRowsOf(questions) == OptionRowsOf(init) + OptionTags(q.id, q.options)
      && OptionsMap(questions) == if q.options == [] then OptionsMap(init)
           else OptionsMap(init)[q.id := TrimOptions(q.options)]
  {
    hide OptionTags, TrimOptions;
  }

  lemma {:induction false} OptionsRoundTrip(questions: seq<Question>)
    requires Faultless(questions)
    ensures KeyedOptionsOf(OptionRowsOf(questions)) == Some(OptionsMap(questions))
    ensures OptionsMap(questions).Keys <= QuestionIds(questions)
  {
    hide *;
    OptionsUnfold(questions);
    if questions == [] {
      NothingKeyed();
    } else {
      var init, q := questions[..|questions| - 1], questions[|questions| - 1];
      FaultlessPrefix(questions);
      OptionsRoundTrip(init);
      InitIds(questions);
      LastQuestion(questions);
      OptionsReadBack(OptionRowsOf(init), OptionsMap(init), q.id, q.options, |q.options|);
      assert q.options[..|q.options|] == q.options;
    }
  }

  /** What the three maps say about one question. */
  ghost predicate MapsSay(questions: seq<Question>, q: Question) {
    && q.id in LabelMap(questions) && LabelMap(questions)[q.id] == Trim(q.shortTitle)
    && (q.id in DescriptionMap(questions) <==> q.description.Some?)
    && (q.description.Some? ==> DescriptionMap(questions)[q.id] == Trim(q.description.value))
    && OptionsOr(OptionsMap(questions), q.id) == TrimOptions(q.options)
  }

  lemma MapsSayLast(questions: seq<Question>)
    requires questions != [] && Faultless(questions)
    ensures MapsSay(questions, questions[|questions| - 1])
  {
    hide Faultless, TrimOption, Trim, QuestionIds, LabelMap, DescriptionMap, OptionsMap;
    var init := questions[..|questions| - 1];
    FaultlessPrefix(questions);
    DescriptionsRoundTrip(init);
    OptionsRoundTrip(init);
    LabelsUnfold(questions);
    DescriptionsUnfold(questions);
    OptionsUnfold(questions);
  }

  lemma MapsSayStill(questions: seq<Question>, q: Question)
    requires questions != [] && MapsSay(questions[..|questions| - 1], q) && q.id != questions[|questions| - 1].id
    ensures MapsSay(questions, q)
  {
    hide TrimOptions, Trim, LabelMap, DescriptionMap, OptionsMap;
    LabelsUnfold(questions);
    DescriptionsUnfold(questions);
    OptionsUnfold(questions);
  }

  lemma IdIsListed(questions: seq<Question>, i: nat)
    requires i < |questions|
    ensures questions[i].id in QuestionIds(questions)
  {
  }

  /** What the three maps say about each of the questions they were made from. */
  lemma {:induction false} MapsAt(questions: seq<Question>, i: nat)
    requires Faultless(questions) && i < |questions|
    ensures MapsSay(questions, questions[i])
  {
    hide *;
    if i == |questions| - 1 {
      MapsSayLast(questions);
    } else {
      var init := questions[..|questions| - 1];
      FaultlessPrefix(questions);
      MapsAt(init, i);
      IdIsListed(init, i);
      MapsSayStill(questions, questions[i]);
    }
  }

  lemma KindsReadBack(kind: QuestionKind)
    ensures KindOf(KindName(kind)) == Some(kind)
  {
  }

  lemma QuestionHeadReads(q: Question)
    requires IsIdentifier(q.id) && Bounded(q.title, 240).Some? && (NeedsChoices(q.kind) <==> q.options != [])
    ensures forall options: OptionMap :: OptionsOr(options, q.id) == TrimOptions(q.options) ==>
      QuestionRow(QuestionHead(q)[0], options)
    ensures forall labels, descriptions, options: OptionMap ::
      (&& OptionsOr(options, q.id) == TrimOptions(q.options)
       && q.id in labels && labels[q.id] == Trim(q.shortTitle)
       && (if q.description.Some? then q.id in descriptions && descriptions[q.id] == Trim(q.description.value)
           else q.id !in descriptions)) ==>
      QuestionOf(QuestionHead(q)[0], labels, descriptions, options) == TrimQuestion(q)
  {
    hide IsIdentifier, Bounded, OptionsOr, TrimOption;
    KindsReadBack(q.kind);
    BoundedSettles(q.title, 240);
  }

  lemma QuestionReadBack(questions: seq<Question>, k: nat)
    requires Faultless(questions) && k < |questions|
    ensures var row := QuestionHead(questions[k])[0];
      && QuestionRow(row, OptionsMap(questions))
      && QuestionOf(row, LabelMap(questions), DescriptionMap(questions), OptionsMap(questions))
         == TrimQuestion(questions[k])
      && row[1] !in QuestionIds(TrimQuestions(questions[..k]))
  {
    hide LabelMap, DescriptionMap, OptionsMap, QuestionRow, QuestionOf, TrimQuestion, OptionsOr, Bounded, Trim,
         BadOption, IsIdentifier, TrimQuestions, TrimOptions, QuestionIds;
    MapsAt(questions, k);
    TrimmedQuestionIds(questions[..k]);
    assert QuestionFault(questions, k).None?;
    QuestionHeadReads(questions[k]);
  }

  lemma {:induction false} QuestionsReadBack(questions: seq<Question>, k: nat)
    requires Faultless(questions) && k <= |questions|
    ensures QuestionsFrom(QuestionRowsOf(questions[..k]), LabelMap(questions), DescriptionMap(questions),
                          OptionsMap(questions)) == Some(TrimQuestions(questions[..k]))
  {
    hide LabelMap, DescriptionMap, OptionsMap, TrimQuestion, QuestionOf, QuestionRow, QuestionIds, Faultless;
    if k == 0 {
      assert TrimQuestions(questions[..k]) == [];
    } else {
      QuestionsReadBack(questions, k - 1);
      QuestionReadBack(questions, k - 1);
      assert questions[..k][..k - 1] == questions[..k - 1];
      var rows := QuestionRowsOf(questions[..k]);
      assert rows[..|rows| - 1] == QuestionRowsOf(questions[..k - 1]);
      assert rows[|rows| - 1] == QuestionHead(questions[k - 1])[0];
      assert TrimQuestions(questions[..k]) == TrimQuestions(questions[..k - 1]) + [TrimQuestion(questions[k - 1])];
      assert QuestionsFrom(rows, LabelMap(questions), DescriptionMap(questions), OptionsMap(questions))
          == AddQuestion(TrimQuestions(questions[..k - 1]), rows[|rows| - 1], LabelMap(questions),
                         DescriptionMap(questions), OptionsMap(questions));
    }
  }

  lemma TrimmedQuestionIds(questions: seq<Question>)
    ensures QuestionIds(TrimQuestions(questions)) == QuestionIds(questions)
  {
    var trimmed := TrimQuestions(questions);
    forall q | q in questions ensures q.id in QuestionIds(trimmed) {
      var i :| 0 <= i < |questions| && questions[i] == q;
      assert trimmed[i] in trimmed && trimmed[i].id == q.id;
    }
    forall q | q in trimmed ensures q.id in QuestionIds(questions) {
      var i :| 0 <= i < |questions| && trimmed[i] == q;
      assert questions[i] in questions && questions[i].id == q.id;
    }
  }

  lemma {:induction false} QuestionRowCount(questions: seq<Question>)
    ensures |QuestionRowsOf(questions)| == |questions|
  {
    if questions != [] { QuestionRowCount(questions[..|questions| - 1]); }
  }

  /** Valid questions are read back trimmed, in order, with their options in order. */
  lemma QuestionsRoundTrip(questions: seq<Question>, tags: seq<TagRow>)
    requires ValidateQuestions(questions).Ok?
    requires Rows(tags, "question") == QuestionRowsOf(questions)
    requires Rows(tags, "label") == LabelRowsOf(questions)
    requires Rows(tags, "description") == DescriptionRowsOf(questions)
    requires Rows(tags, "option") == OptionRowsOf(questions)
    ensures ParsedQuestions(tags) == Some(TrimQuestions(questions))
  {
    hide Rows, ValidateQuestions, Faultless, KeyedTextOf, KeyedOptionsOf, QuestionsFrom, QuestionRowsOf, LabelRowsOf,
         DescriptionRowsOf, OptionRowsOf, LabelMap, DescriptionMap, OptionsMap, TrimQuestions, QuestionIds;
    FaultlessWhenValid(questions);
    LabelsRoundTrip(questions);
    DescriptionsRoundTrip(questions);
    OptionsRoundTrip(questions);
    QuestionsReadBack(questions, |questions|);
    assert questions[..|questions|] == questions;
    QuestionRowCount(questions);
    TrimmedQuestionIds(questions);
  }

  lemma TrimmedOptionsFine(options: seq<QuestionOption>, k: nat)
    requires k < |options| && !BadOption(options, k)
    ensures !BadOption(TrimOptions(options), k) && TrimOption(TrimOption(options[k])) == TrimOption(options[k])
  {
    assert TrimOptions(options)[..k] == TrimOptions(options[..k]);
    TrimmedOptionIds(options[..k]);
    BoundedSettles(options[k].title, 120);
    if options[k].description.Some? { BoundedSettles(options[k].description.value, 300); }
  }

  lemma TrimmedQuestionFaultless(questions: seq<Question>, i: nat)
    requires i < |questions| && QuestionFault(questions, i).None?
    ensures QuestionFault(TrimQuestions(questions), i).None?
    ensures TrimQuestion(TrimQuestion(questions[i])) == TrimQuestion(questions[i])
  {
    var q := questions[i];
    assert TrimQuestions(questions)[..i] == TrimQuestions(questions[..i]);
    TrimmedQuestionIds(questions[..i]);
    BoundedSettles(q.title, 240);
    BoundedSettles(q.shortTitle, 40);
    if q.description.Some? { BoundedSettles(q.description.value, 500); }
    forall k | 0 <= k < |q.options|
      ensures !BadOption(TrimOptions(q.options), k) && TrimOption(TrimOption(q.options[k])) == TrimOption(q.options[k])
    {
      TrimmedOptionsFine(q.options, k);
    }
    assert TrimOptions(TrimOptions(q.options)) == TrimOptions(q.options);
  }

  /** Trimming keeps questions valid and settles after one application. */
  lemma TrimmedQuestionsValid(questions: seq<Question>)
    requires ValidateQuestions(questions).Ok?
    ensures ValidateQuestions(TrimQuestions(questions)).Ok?
    ensures TrimQuestions(TrimQuestions(questions)) == TrimQuestions(questions)
  {
    FaultlessWhenValid(questions);
    forall i | 0 <= i < |questions|
      ensures QuestionFault(TrimQuestions(questions), i).None?
      ensures TrimQuestion(TrimQuestion(questions[i])) == TrimQuestion(questions[i])
    {
      TrimmedQuestionFaultless(questions, i);
    }
    ValidWhenFaultless(TrimQuestions(questions), |questions|);
  }

  // ----- the item -----

  lemma TextTagRoundTrip(tags: seq<TagRow>, name: string, text: string, max: nat)
    requires Rows(tags, name) == TextTag(name, text) && (text != "" ==> Bounded(text, max).Some?)
    ensures Optional(tags, name, max).Some? && Optional(tags, name, max).value.UnwrapOr("") == Trim(text)
  {
    if text != "" { BoundedSettles(text, max); }
  }

  /** What composing an item has checked. */
  lemma ComposedFacts(item: FrozenSpokenItem, key: KeyParser)
    requires ComposeSpokenItem(item, key).Ok?
    ensures Bounded(item.subject, 80).Some? && Bounded(item.body, 40_000).Some?
    ensures item.agentName != "" ==> Bounded(item.agentName, 80).Some?
    ensures item.summary != "" ==> Bounded(item.summary, 280).Some?
    ensures item.attach.Some? ==> IsLowerHex(item.attach.value.parentId, 64)
    ensures ValidArtifact(item.audio, false) && StartsWith(item.audio.mediaType, "audio/")
    ensures |item.attachments| <= 12 && forall a <- item.attachments :: ValidArtifact(a, true)
    ensures ValidateQuestions(item.questions).Ok?
  {
    hide Bounded, IsLowerHex, ValidArtifact, StartsWith, ValidateQuestions, ItemTags;
  }

  /** What the delivered event shows of a composed item. */
  lemma DeliveredFacts(item: FrozenSpokenItem, key: KeyParser, event: Event)
    requires ComposeSpokenItem(item, key).Ok? && Delivers(event, ComposeSpokenItem(item, key).value)
    ensures event.kind == 9 && event.createdAt == item.createdAt && event.content == item.body
    ensures Rows(event.tags, "h") == [["h", item.groupId]]
    ensures forall name :: name != "h" ==> Rows(event.tags, name) == Rows(ItemTags(item), name)
  {
    hide Bounded, IsLowerHex, ValidArtifact, StartsWith, ValidateQuestions, ItemTags, Rows;
  }

  lemma TextRoundTrip(item: FrozenSpokenItem, key: KeyParser, event: Event)
    requires ComposeSpokenItem(item, key).Ok? && Delivers(event, ComposeSpokenItem(item, key).value)
    ensures var tags := event.tags;
      && Marker(tags) == Some(("item", VERSION)) && GroupMatches(tags, item.groupId)
      && Unique(tags, "title", 80) == Some(Trim(item.subject))
      && Optional(tags, "agent", 80).Some? && Optional(tags, "agent", 80).value.UnwrapOr("") == Trim(item.agentName)
      && Optional(tags, "summary", 280).Some? && Optional(tags, "summary", 280).value.UnwrapOr("") == Trim(item.summary)
      && Bounded(event.content, 40_000) == Some(Trim(item.body))
  {
    hide *;
    ComposedFacts(item, key);
    DeliveredFacts(item, key, event);
    SingleRows(item);
    TextTagRoundTrip(event.tags, "agent", item.agentName, 80);
    TextTagRoundTrip(event.tags, "summary", item.summary, 280);
    MarkerReads(event.tags, item.groupId);
    TitleReads(event.tags, item.subject);
    BoundedTrims(item.body, 40_000);
  }

  lemma MarkerReads(tags: seq<TagRow>, group: string)
    requires Rows(tags, "tts29") == [["tts29", "item", VERSION]] && Rows(tags, "h") == [["h", group]]
    ensures Marker(tags) == Some(("item", VERSION)) && GroupMatches(tags, group)
  {
    hide Rows;
  }

  lemma TitleReads(tags: seq<TagRow>, subject: string)
    requires Rows(tags, "title") == [["title", subject]] && Bounded(subject, 80).Some?
    ensures Unique(tags, "title", 80) == Some(Trim(subject))
  {
    hide Rows, Trim;
  }

  lemma LinkReads(tags: seq<TagRow>, attach: Option<AttachLink>)
    requires Rows(tags, "e") == AttachTags(attach) && (attach.Some? ==> IsLowerHex(attach.value.parentId, 64))
    ensures AttachLinkOf(tags) == Some(attach)
  {
    hide Rows, IsLowerHex;
  }

  lemma AudioReads(audio: DurableArtifact)
    requires ValidArtifact(audio, false) && StartsWith(audio.mediaType, "audio/")
    ensures Artifact(ArtifactRow(audio, "audio"), "audio", false) == Some(TrimArtifact(audio))
    ensures "audio/" <= Trim(audio.mediaType)
  {
    hide Artifact, ArtifactRow, Trim;
    ArtifactRoundTrip(audio, false);
    TrimKeepsPrefix(audio.mediaType, "audio/");
  }

  lemma PartsRoundTrip(item: FrozenSpokenItem, key: KeyParser, event: Event)
    requires ComposeSpokenItem(item, key).Ok? && Delivers(event, ComposeSpokenItem(item, key).value)
    ensures var tags := event.tags;
      && Rows(tags, "audio") == [ArtifactRow(item.audio, "audio")]
      && Artifact(Rows(tags, "audio")[0], "audio", false) == Some(TrimArtifact(item.audio))
      && "audio/" <= Trim(item.audio.mediaType)
      && Rows(tags, "attachment") == AttachmentTags(item.attachments) && |item.attachments| <= 12
      && AttachLinkOf(tags) == Some(item.attach)
      && ParsedQuestions(tags) == Some(TrimQuestions(item.questions))
  {
    hide *;
    ComposedFacts(item, key);
    DeliveredFacts(item, key, event);
    ArtifactAndLinkRows(item);
    QuestionRowsOfItem(item);
    AudioReads(item.audio);
    LinkReads(event.tags, item.attach);
    QuestionsRoundTrip(item.questions, event.tags);
  }

  /** The printed rows read back, field by field; the labels alone decide acceptance. */
  lemma FieldsRoundTrip(item: FrozenSpokenItem, key: KeyParser, event: Event)
    requires ComposeSpokenItem(item, key).Ok? && Delivers(event, ComposeSpokenItem(item, key).value)
    ensures ItemAccepted(event) <==> LabelsBounded(item)
    ensures LabelsBounded(item) ==> ItemOf(event) == Received(item, event)
  {
    hide Rows, Artifact, ParsedQuestions, ArtifactList, AttachLinkOf, Bounded, Trim, LabelsBounded,
         TrimQuestions, TrimArtifacts, Optional, Unique, ValidArtifact, ItemTags;
    TextRoundTrip(item, key, event);
    PartsRoundTrip(item, key, event);
    AttachmentsAccepted(item);
  }

  /** The event NMP signs for an intent: the group row, then the intent's rows. */
  function SignedEvent(intent: WriteIntent, id: string): Event {
    Event(id, intent.author, intent.createdAt, 9, [["h", intent.group]] + intent.tags, intent.content)
  }

  lemma SignedDelivers(intent: WriteIntent, id: string)
    requires Rows(intent.tags, "h") == []
    ensures Delivers(SignedEvent(intent, id), intent)
  {
    forall name ensures Rows(SignedEvent(intent, id).tags, name)
                     == (if name == "h" then [["h", intent.group]] else []) + Rows(intent.tags, name)
    {
      RowsConcat([["h", intent.group]], intent.tags, name);
      assert Rows([["h", intent.group]], name) == if name == "h" then [["h", intent.group]] else [];
    }
  }

  /** Every composed item can be delivered. */
  lemma ItemCanBeDelivered(item: FrozenSpokenItem, key: KeyParser, id: string)
    requires ComposeSpokenItem(item, key).Ok?
    ensures var intent := ComposeSpokenItem(item, key).value; Delivers(SignedEvent(intent, id), intent)
  {
    hide Rows, ItemTags, ValidateSpokenItem, Delivers, SignedEvent, QuestionTags;
    RowsOfItem(item, "h");
    QuestionTagsHaveNoOther(item.questions, "h");
    SignedDelivers(ComposeSpokenItem(item, key).value, id);
  }

  /** The round trip: the delivered event of a valid item parses, as that item trimmed, if and only
      if every attachment label is bounded. */
  lemma ItemRoundTrip(item: FrozenSpokenItem, key: KeyParser, event: Event)
    requires ComposeSpokenItem(item, key).Ok? && Delivers(event, ComposeSpokenItem(item, key).value)
    ensures Parse(event, item.groupId)
         == if LabelsBounded(item) then Some(ItemEvent(Received(item, event))) else None
  {
    hide ItemAccepted, ItemOf, LabelsBounded, Received, Marker, GroupMatches;
    TextRoundTrip(item, key, event);
    FieldsRoundTrip(item, key, event);
  }

  function SampleArtifact(media: string, caption: Option<string>): DurableArtifact {
    DurableArtifact("https://a", seq(64, _ => 'a'), media, 1, caption)
  }

  /** One attachment, whose label is a single space. */
  function BlankLabelItem(): FrozenSpokenItem {
    FrozenSpokenItem("k", 1, "g", "", "s", "", "b", SampleArtifact("audio/mpeg", None),
                     [SampleArtifact("a/b", Some(" "))], [], None)
  }

  lemma SampleArtifactValid(media: string, caption: Option<string>)
    requires Tight(media) && '/' in media && 0 < |media| <= 128
    ensures ValidArtifact(SampleArtifact(media, caption), caption.Some?)
  {
    hide Trim, ValidArtifact;
    TightIsFixed(seq(64, _ => 'a'));
    TightIsFixed("https://a");
    TightIsFixed(media);
    ValidMeansFields(SampleArtifact(media, caption), caption.Some?);
  }

  lemma BlankLabelItemIsValid(key: KeyParser)
    requires key("k") == Some("k")
    ensures ComposeSpokenItem(BlankLabelItem(), key).Ok?
  {
    hide ValidArtifact, ItemTags, SampleArtifact, Bounded, ValidateQuestions;
    assert "audio/mpeg"[5] == '/' && "a/b"[1] == '/';
    SampleArtifactValid("audio/mpeg", None);
    SampleArtifactValid("a/b", Some(" "));
    ShortTextsFit();
    SampleMedia("audio/mpeg", None);
    assert forall a <- BlankLabelItem().attachments :: a == SampleArtifact("a/b", Some(" "));
  }

  lemma ShortTextsFit()
    ensures Bounded("g", 128).Some? && Bounded("s", 80).Some? && Bounded("b", 40_000).Some? && ValidateQuestions([]).Ok?
  {
    hide Trim;
    TightIsFixed("g");
    TightIsFixed("s");
    TightIsFixed("b");
  }

  lemma SampleMedia(media: string, caption: Option<string>)
    ensures SampleArtifact(media, caption).mediaType == media
  {
  }

  /** Labels are the gap between validation and parsing: this item is valid and composed, and every
      event that delivers it is rejected. */
  lemma BlankLabelIsLost(key: KeyParser, event: Event)
    requires key("k") == Some("k")
    ensures ComposeSpokenItem(BlankLabelItem(), key).Ok?
    ensures Delivers(event, ComposeSpokenItem(BlankLabelItem(), key).value) ==> Parse(event, "g").None?
  {
    hide ComposeSpokenItem, Delivers, Parse;
    var item := BlankLabelItem();
    BlankLabelItemIsValid(key);
    assert item.attachments[0] in item.attachments && Bounded(" ", 120).None?;
    if Delivers(event, ComposeSpokenItem(item, key).value) { ItemRoundTrip(item, key, event); }
  }

  /** Freezing and composing what was received is accepted again and reparses to the same item:
      one round trip settles the text. */
  lemma RoundTripSettles(item: FrozenSpokenItem, key: KeyParser, event: Event, again: Event)
    requires ComposeSpokenItem(item, key).Ok? && Delivers(event, ComposeSpokenItem(item, key).value)
    requires LabelsBounded(item) && key(event.pubkey) == Some(event.pubkey)
    ensures var second := Refreeze(Received(item, event), item.groupId);
      && ComposeSpokenItem(second, key).Ok?
      && (Delivers(again, ComposeSpokenItem(second, key).value) ==>
            Parse(again, item.groupId) == Some(ItemEvent(Received(item, event).(id := again.id))))
  {
    var second := Refreeze(Received(item, event), item.groupId);
    SettledItem(item, key, event);
    if Delivers(again, ComposeSpokenItem(second, key).value) {
      ItemRoundTrip(second, key, again);
    }
  }

  lemma SettledText(item: FrozenSpokenItem, key: KeyParser)
    requires ComposeSpokenItem(item, key).Ok?
    ensures Bounded(Trim(item.subject), 80).Some? && Bounded(Trim(item.body), 40_000).Some?
    ensures Trim(item.agentName) != "" ==> Bounded(Trim(item.agentName), 80).Some?
    ensures Trim(item.summary) != "" ==> Bounded(Trim(item.summary), 280).Some?
    ensures forall text <- [item.subject, item.body, item.agentName, item.summary, item.audio.url] ::
      Trim(Trim(text)) == Trim(text)
  {
    hide ValidArtifact, ValidateQuestions, ItemTags, Trim, IsLowerHex;
    BoundedSettles(item.subject, 80);
    BoundedSettles(item.body, 40_000);
    if item.agentName != "" { BoundedSettles(item.agentName, 80); }
    if item.summary != "" { BoundedSettles(item.summary, 280); }
    TrimSettles(item.agentName);
    TrimSettles(item.summary);
    TrimSettles(item.audio.url);
  }

  lemma SettledAttachments(attachments: seq<DurableArtifact>)
    requires forall a <- attachments ::
      ValidArtifact(a, true) && a.caption.Some? && Bounded(a.caption.value, 120).Some?
    ensures forall a <- TrimArtifacts(attachments) ::
      ValidArtifact(a, true) && a.caption.Some? && Bounded(a.caption.value, 120).Some?
    ensures TrimArtifacts(TrimArtifacts(attachments)) == TrimArtifacts(attachments)
  {
    hide ValidArtifact, Bounded, Trim;
    var trimmed := TrimArtifacts(attachments);
    forall i | 0 <= i < |attachments|
      ensures ValidArtifact(trimmed[i], true) && TrimArtifact(trimmed[i]) == trimmed[i]
      ensures trimmed[i].caption.Some? && Bounded(trimmed[i].caption.value, 120).Some?
    {
      assert attachments[i] in attachments;
      TrimmedArtifactValid(attachments[i], true);
      BoundedSettles(attachments[i].caption.value, 120);
    }
    forall a | a in trimmed ensures ValidArtifact(a, true) && a.caption.Some? && Bounded(a.caption.value, 120).Some? {
      var i :| 0 <= i < |trimmed| && trimmed[i] == a;
    }
  }

  /** A received item is valid, has bounded labels, and is its own trimming. */
  lemma SettledItem(item: FrozenSpokenItem, key: KeyParser, event: Event)
    requires ComposeSpokenItem(item, key).Ok? && Delivers(event, ComposeSpokenItem(item, key).value)
    requires LabelsBounded(item) && key(event.pubkey) == Some(event.pubkey)
    ensures var second := Refreeze(Received(item, event), item.groupId);
      && ComposeSpokenItem(second, key).Ok? && LabelsBounded(second)
      && forall again: Event :: again.pubkey == event.pubkey && again.createdAt == event.createdAt ==>
           Received(second, again) == Received(item, event).(id := again.id)
  {
    hide Bounded, Trim, ValidArtifact, ValidateQuestions, TrimQuestions, TrimArtifacts, TrimArtifact, ItemTags, Rows;
    SettledText(item, key);
    TrimmedArtifactValid(item.audio, false);
    assert TrimArtifact(item.audio).mediaType == Trim(item.audio.mediaType)
        && TrimArtifact(item.audio).url == Trim(item.audio.url) by { TrimArtifactFields(item.audio); }
    TrimKeepsPrefix(item.audio.mediaType, "audio/");
    SettledAttachments(item.attachments);
    TrimmedCount(item.attachments);
    TrimmedQuestionsValid(item.questions);
  }

  lemma TrimArtifactFields(a: DurableArtifact)
    ensures TrimArtifact(a).mediaType == Trim(a.mediaType) && TrimArtifact(a).url == Trim(a.url)
  {
  }

  lemma TrimmedCount(attachments: seq<DurableArtifact>)
    ensures |TrimArtifacts(attachments)| == |attachments|
  {
  }
}
