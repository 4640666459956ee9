/** Validating a frozen item and printing it as tag rows (protocol/src/compose.rs). */
module Composer {
  import opened Contract
  import opened Text
  import opened Tags
  import opened Parser

  datatype ComposeError = InvalidAuthor | InvalidField(field: string) | InvalidTag

  /** NMP's unsigned group write: kind 9, pinned to one group, signed by `author`. */
  datatype WriteIntent = WriteIntent(
    author: string, group: string, createdAt: nat, content: string, tags: seq<TagRow>)

  /** `PublicKey::parse`: the canonical hexadecimal key, when the text is a key. */
  type KeyParser = string -> Option<string>

  function ComposeSpokenItem(item: FrozenSpokenItem, key: KeyParser): Result<WriteIntent, ComposeError> {
    var _ :- ValidateSpokenItem(item, key);
    if key(item.author).None? then Err(InvalidAuthor)
    else Ok(WriteIntent(key(item.author).value, item.groupId, item.createdAt, item.body, ItemTags(item)))
  }

  function ValidateSpokenItem(item: FrozenSpokenItem, key: KeyParser): Result<(), ComposeError> {
    if key(item.author).None? then Err(InvalidAuthor)
    else if Bounded(item.groupId, 128).None? then Err(InvalidField("group_id"))
    else if Bounded(item.subject, 80).None? || Bounded(item.body, 40_000).None? then
      Err(InvalidField("subject_or_body"))
    else if item.agentName != "" && Bounded(item.agentName, 80).None? then Err(InvalidField("agent_name"))
    else if item.summary != "" && Bounded(item.summary, 280).None? then Err(InvalidField("summary"))
    else if item.attach.Some? && !IsLowerHex(item.attach.value.parentId, 64) then Err(InvalidField("attach"))
    else if !ValidArtifact(item.audio, false) || !StartsWith(item.audio.mediaType, "audio/") then
      Err(InvalidField("audio"))
    else if |item.attachments| > 12 || exists a <- item.attachments :: !ValidArtifact(a, true) then
      Err(InvalidField("attachments"))
    else ValidateQuestions(item.questions)
  }

  predicate BadOption(options: seq<QuestionOption>, k: nat)
    requires k < |options|
  {
    var option := options[k];
    || !IsIdentifier(option.id)
    || option.id in OptionIds(options[..k])
    || Bounded(option.title, 120).None?
    || (option.description.Some? && Bounded(option.description.value, 300).None?)
  }

  /** The first check the i-th question fails, given the questions before it. */
  function QuestionFault(questions: seq<Question>, i: nat): Option<string>
    requires i < |questions|
  {
    var q := questions[i];
    if !IsIdentifier(q.id) || q.id in QuestionIds(questions[..i]) || Bounded(q.title, 240).None?
       || Bounded(q.shortTitle, 40).None?
       || (q.description.Some? && Bounded(q.description.value, 500).None?) then Some("question")
    else if NeedsChoices(q.kind) == (q.options == []) || |q.options| > 8 then Some("question_options")
    else if exists k | 0 <= k < |q.options| :: BadOption(q.options, k) then Some("question_option")
    else None
  }

  /** The fault of the first faulty question among the first `n`. */
  function FirstFault(questions: seq<Question>, n: nat): Option<string>
    requires n <= |questions|
  {
    if n == 0 then None
    else if FirstFault(questions, n - 1).Some? then FirstFault(questions, n - 1)
    else QuestionFault(questions, n - 1)
  }

  function ValidateQuestions(questions: seq<Question>): Result<(), ComposeError> {
    if |questions| > 3 then Err(InvalidField("questions"))
    else
      match FirstFault(questions, |questions|)
      case Some(field) => Err(InvalidField(field))
      case None => Ok(())
  }

  lemma {:induction false} FaultStays(questions: seq<Question>, n: nat, m: nat)
    requires n <= m <= |questions| && FirstFault(questions, n).Some?
    ensures FirstFault(questions, m) == FirstFault(questions, n)
  {
    hide QuestionFault;
    if n < m { FaultStays(questions, n, m - 1); }
  }

  lemma {:induction false} NoFaultBefore(questions: seq<Question>, n: nat, i: nat)
    requires i < n <= |questions| && FirstFault(questions, n).None?
    ensures QuestionFault(questions, i).None? && FirstFault(questions, i).None?
  {
    hide QuestionFault;
    if i < n - 1 { NoFaultBefore(questions, n - 1, i); }
  }

  /** `validate_questions` with its two id sets. */
  method CheckQuestions(questions: seq<Question>) returns (r: Result<(), ComposeError>)
    ensures r == ValidateQuestions(questions)
  {
    hide QuestionIds, IsIdentifier, Bounded, BadOption;
    if |questions| > 3 { return Err(InvalidField("questions")); }
    var questionIds: set<string> := {};
    NoIds();
    for i := 0 to |questions|
      invariant questionIds == QuestionIds(questions[..i])
      invariant FirstFault(questions, i).None?
    {
      var question := questions[i];
      if FirstFault(questions, i + 1).Some? { FaultStays(questions, i + 1, |questions|); }
      QuestionIdsGrow(questions[..i], question);
      assert questions[..i + 1] == questions[..i] + [question];
      if !IsIdentifier(question.id) || question.id in questionIds || Bounded(question.title, 240).None?
         || Bounded(question.shortTitle, 40).None?
         || (question.description.Some? && Bounded(question.description.value, 500).None?)
      {
        return Err(InvalidField("question"));
      }
      questionIds := questionIds + {question.id};
      if NeedsChoices(question.kind) == (question.options == []) || |question.options| > 8 {
        return Err(InvalidField("question_options"));
      }
      var fine := CheckOptions(question.options);
      if !fine { return Err(InvalidField("question_option")); }
    }
    r := Ok(());
  }

  lemma NoIds()
    ensures QuestionIds([]) == {} && OptionIds([]) == {}
  {
  }

  /** The inner loop over one question's options. */
  method CheckOptions(options: seq<QuestionOption>) returns (fine: bool)
    ensures fine <==> forall k :: 0 <= k < |options| ==> !BadOption(options, k)
  {
    var optionIds: set<string> := {};
    for k := 0 to |options|
      invariant optionIds == OptionIds(options[..k])
      invariant forall j :: 0 <= j < k ==> !BadOption(options, j)
    {
      var option := options[k];
      OptionIdsGrow(options[..k], option);
      assert options[..k + 1] == options[..k] + [option];
      if !IsIdentifier(option.id) || option.id in optionIds || Bounded(option.title, 120).None?
         || (option.description.Some? && Bounded(option.description.value, 300).None?)
      {
        assert BadOption(options, k);
        return false;
      }
      optionIds := optionIds + {option.id};
    }
    fine := true;
  }

  function ArtifactName(withLabel: bool): string {
    if withLabel then "attachment" else "audio"
  }

  predicate ValidArtifact(value: DurableArtifact, withLabel: bool) {
    Artifact(ArtifactRow(value, ArtifactName(withLabel)), ArtifactName(withLabel), withLabel).Some?
  }

  function ArtifactRow(value: DurableArtifact, name: string): TagRow {
    [name, value.url, value.sha256, value.mediaType, Decimal(value.byteCount)]
    + (if value.caption.Some? then [value.caption.value] else [])
  }

  // ----- printing -----

  function KindName(kind: QuestionKind): string {
    match kind
    case SingleChoice => "single"
    case MultipleChoice => "multiple"
    case Freeform => "freeform"
  }

  function AttachmentTags(attachments: seq<DurableArtifact>): seq<TagRow> {
    seq(|attachments|, i requires 0 <= i < |attachments| => ArtifactRow(attachments[i], "attachment"))
  }

  function OptionTag(question: string, option: QuestionOption): TagRow {
    ["option", question, option.id, option.title]
    + (if option.description.Some? then [option.description.value] else [])
  }

  function OptionTags(question: string, options: seq<QuestionOption>): seq<TagRow> {
    seq(|options|, i requires 0 <= i < |options| => OptionTag(question, options[i]))
  }

  function DescriptionTags(q: Question): seq<TagRow> {
    if q.description.Some? then [["description", q.id, q.description.value]] else []
  }

  function QuestionHead(q: Question): seq<TagRow> {
    [["question", q.id, KindName(q.kind), q.title]]
  }

  function LabelTag(q: Question): seq<TagRow> {
    [["label", q.id, q.shortTitle]]
  }

  function QuestionTagsOf(q: Question): seq<TagRow> {
    QuestionHead(q) + LabelTag(q)
    + DescriptionTags(q) + OptionTags(q.id, q.options)
  }

  function QuestionTags(questions: seq<Question>): seq<TagRow> {
    if questions == [] then []
    else QuestionTags(questions[..|questions| - 1]) + QuestionTagsOf(questions[|questions| - 1])
  }

  function TextTag(name: string, value: string): seq<TagRow> {
    if value == "" then [] else [[name, value]]
  }

  function AttachTags(attach: Option<AttachLink>): seq<TagRow> {
    if attach.Some? then [["e", attach.value.parentId, "", "attach"]] else []
  }

  /** The tags of an item in publication order. */
  function ItemTags(item: FrozenSpokenItem): seq<TagRow> {
    [["tts29", "item", VERSION]] + [["title", item.subject]]
    + TextTag("agent", item.agentName) + TextTag("summary", item.summary)
    + [ArtifactRow(item.audio, "audio")] + AttachmentTags(item.attachments)
    + AttachTags(item.attach) + QuestionTags(item.questions)
  }

  /** `tags`: optional rows are inserted behind the title, everything else is pushed. */
  method PrintTags(item: FrozenSpokenItem) returns (result: seq<TagRow>)
    ensures result == ItemTags(item)
  {
    result := [["tts29", "item", VERSION], ["title", item.subject], ArtifactRow(item.audio, "audio")];
    if item.summary != "" { result := result[..2] + [["summary", item.summary]] + result[2..]; }
    if item.agentName != "" { result := result[..2] + [["agent", item.agentName]] + result[2..]; }
    assert result == [["tts29", "item", VERSION]] + [["title", item.subject]]
      + TextTag("agent", item.agentName) + TextTag("summary", item.summary)
      + [ArtifactRow(item.audio, "audio")];
    result := result + AttachmentTags(item.attachments);
    if item.attach.Some? { result := result + [["e", item.attach.value.parentId, "", "attach"]]; }
    var questions := PrintQuestions(item.questions);
    result := result + questions;
  }

  /** The loop of `tags` over the questions and their options. */
  method PrintQuestions(questions: seq<Question>) returns (result: seq<TagRow>)
    ensures result == QuestionTags(questions)
  {
    result := [];
    for i := 0 to |questions|
      invariant result == QuestionTags(questions[..i])
    {
      var question := questions[i];
      ghost var before := result;
      result := result + [["question", question.id, KindName(question.kind), question.title]];
      result := result + [["label", question.id, question.shortTitle]];
      if question.description.Some? {
        result := result + [["description", question.id, question.description.value]];
      }
      var options := PrintOptions(question);
      result := result + options;
      assert result == before + QuestionTagsOf(question);
      assert questions[..i + 1][..i] == questions[..i];
    }
    assert questions[..|questions|] == questions;
  }

  method PrintOptions(question: Question) returns (result: seq<TagRow>)
    ensures result == OptionTags(question.id, question.options)
  {
    result := [];
    for k := 0 to |question.options|
      invariant result == OptionTags(question.id, question.options[..k])
    {
      var option := question.options[k];
      var value := ["option", question.id, option.id, option.title];
      if option.description.Some? { value := value + [option.description.value]; }
      assert value == OptionTag(question.id, option);
      result := result + [value];
    }
    assert question.options[..|question.options|] == question.options;
  }

  /** A signed event that carries an intent: NMP adds the group row and nothing a reader looks for. */
  ghost predicate Delivers(event: Event, intent: WriteIntent) {
    && event.kind == 9 && event.pubkey == intent.author && event.createdAt == intent.createdAt
    && event.content == intent.content
    && Rows(event.tags, "h") == [["h", intent.group]]
    && forall name :: name != "h" ==> Rows(event.tags, name) == Rows(intent.tags, name)
  }
}
