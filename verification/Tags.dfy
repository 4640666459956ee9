/** Reading one event's tag rows (protocol/src/parse/tags.rs). */
module Tags {
  import opened Contract
  import opened Text

  type TagRow = seq<string>

  const MAX_ARTIFACT_BYTES := 250 * 1024 * 1024

  predicate Named(row: TagRow, name: string) {
    row != [] && row[0] == name
  }

  /** The rows whose first value is `name`, in order. */
  function Rows(tags: seq<TagRow>, name: string): seq<TagRow> {
    if tags == [] then []
    else (if Named(tags[0], name) then [tags[0]] else []) + Rows(tags[1..], name)
  }

  function Unique(tags: seq<TagRow>, name: string, max: nat): Option<string> {
    var matches := Rows(tags, name);
    if |matches| != 1 || |matches[0]| != 2 then None else Bounded(matches[0][1], max)
  }

  /** `None` rejects the event; `Some(None)` means the tag is absent. */
  function Optional(tags: seq<TagRow>, name: string, max: nat): Option<Option<string>> {
    var matches := Rows(tags, name);
    if matches == [] then Some(None)
    else if |matches| == 1 && |matches[0]| == 2 && Bounded(matches[0][1], max).Some? then
      Some(Bounded(matches[0][1], max))
    else None
  }

  function Marker(tags: seq<TagRow>): Option<(string, string)> {
    var matches := Rows(tags, "tts29");
    if |matches| == 1 && |matches[0]| == 3 then Some((matches[0][1], matches[0][2])) else None
  }

  predicate GroupMatches(tags: seq<TagRow>, group: string) {
    Rows(tags, "h") == [["h", group]]
  }

  function AttachLinkOf(tags: seq<TagRow>): Option<Option<AttachLink>> {
    var matches := Rows(tags, "e");
    if matches == [] then Some(None)
    else if |matches| == 1 && |matches[0]| == 4 && matches[0][2] == "" && matches[0][3] == "attach"
         && IsLowerHex(matches[0][1], 64) then
      Some(Some(AttachLink(matches[0][1])))
    else None
  }

  function RootEvent(tags: seq<TagRow>): Option<string> {
    var matches := Rows(tags, "e");
    if |matches| != 1 || |matches[0]| != 4 || matches[0][3] != "root" then None
    else if IsLowerHex(matches[0][1], 64) && matches[0][2] == "" then Some(matches[0][1])
    else None
  }

  function Artifact(row: TagRow, name: string, withLabel: bool): Option<DurableArtifact> {
    if |row| != (if withLabel then 6 else 5) || !Named(row, name) then None
    else
      var url, sha256, media := Bounded(row[1], 2048), Bounded(row[2], 64), Bounded(row[3], 128);
      var bytes := ParseU64(row[4]);
      if url.None? || sha256.None? || media.None? || bytes.None? then None
      else if !StartsWith(url.value, "https://") || !IsLowerHex(sha256.value, 64)
              || '/' !in media.value || bytes.value == 0 || bytes.value > MAX_ARTIFACT_BYTES then None
      else
        Some(DurableArtifact(url.value, sha256.value, media.value, bytes.value,
                             if withLabel then Bounded(row[5], 120) else None))
  }

  // ----- rows keyed by question id -----

  predicate KeyedTextRow(row: TagRow, max: nat) {
    |row| == 3 && IsIdentifier(row[1]) && Bounded(row[2], max).Some?
  }

  /** Text keyed by question id: one malformed row or repeated id rejects the event. */
  function KeyedTextOf(rows: seq<TagRow>, max: nat): Option<map<string, string>> {
    if rows == [] then Some(map[])
    else
      var prior, last := KeyedTextOf(rows[..|rows| - 1], max), rows[|rows| - 1];
      if prior.None? || !KeyedTextRow(last, max) || last[1] in prior.value then None
      else Some(prior.value[last[1] := Bounded(last[2], max).value])
  }

  lemma {:induction false} KeyedTextPrefix(rows: seq<TagRow>, k: nat, max: nat)
    requires k <= |rows| && KeyedTextOf(rows[..k], max).None?
    ensures KeyedTextOf(rows, max).None?
  {
    if k < |rows| {
      assert rows[..|rows| - 1][..k] == rows[..k];
      KeyedTextPrefix(rows[..|rows| - 1], k, max);
    } else {
      assert rows[..k] == rows;
    }
  }

  lemma KeyedTextSnoc(rows: seq<TagRow>, row: TagRow, max: nat)
    requires KeyedTextOf(rows, max).Some? && KeyedTextRow(row, max) && row[1] !in KeyedTextOf(rows, max).value
    ensures KeyedTextOf(rows + [row], max) == Some(KeyedTextOf(rows, max).value[row[1] := Bounded(row[2], max).value])
  {
    hide KeyedTextRow, Bounded;
    assert (rows + [row])[..|rows|] == rows;
  }

  lemma KeyedTextStep(rows: seq<TagRow>, k: nat, max: nat, result: map<string, string>)
    requires k < |rows| && KeyedTextOf(rows[..k], max) == Some(result)
    ensures var row := rows[k];
      if !KeyedTextRow(row, max) || row[1] in result then KeyedTextOf(rows, max).None?
      else KeyedTextOf(rows[..k + 1], max) == Some(result[row[1] := Bounded(row[2], max).value])
  {
    hide KeyedTextRow, Bounded;
    assert rows[..k + 1][..k] == rows[..k] && rows[..k + 1][k] == rows[k];
    if KeyedTextOf(rows[..k + 1], max).None? { KeyedTextPrefix(rows, k + 1, max); }
  }

  /** `keyed_text`. */
  method KeyedText(tags: seq<TagRow>, name: string, max: nat) returns (r: Option<map<string, string>>)
    ensures r == KeyedTextOf(Rows(tags, name), max)
  {
    hide KeyedTextOf, Rows, Bounded, IsIdentifier;
    var rows := Rows(tags, name);
    var result: map<string, string> := map[];
    NoKeyedText(max);
    for k := 0 to |rows|
      invariant KeyedTextOf(rows[..k], max) == Some(result)
    {
      var value := rows[k];
      KeyedTextStep(rows, k, max, result);
      if |value| != 3 { return None; }
      var text := Bounded(value[2], max);
      if !IsIdentifier(value[1]) || text.None? || value[1] in result { return None; }
      result := result[value[1] := text.value];
    }
    assert rows[..|rows|] == rows;
    r := Some(result);
  }

  lemma NoKeyedText(max: nat)
    ensures KeyedTextOf([], max) == Some(map[])
  {
  }

  predicate OptionRow(row: TagRow) {
    && (|row| == 4 || |row| == 5) && IsIdentifier(row[1]) && IsIdentifier(row[2])
    && Bounded(row[3], 120).Some?
    && (|row| == 5 && row[4] != "" ==> Bounded(row[4], 300).Some?)
  }

  function OptionOf(row: TagRow): QuestionOption
    requires OptionRow(row)
  {
    QuestionOption(row[2], Bounded(row[3], 120).value,
                   if |row| == 5 && row[4] != "" then Bounded(row[4], 300) else None)
  }

  type OptionMap = map<string, seq<QuestionOption>>

  function OptionsOr(options: OptionMap, id: string): seq<QuestionOption> {
    if id in options then options[id] else []
  }

  function OptionIds(options: seq<QuestionOption>): set<string> {
    set option <- options :: option.id
  }

  /** One option row added to the options read so far. */
  function AddOption(options: OptionMap, row: TagRow): Option<OptionMap> {
    if !OptionRow(row) then None
    else
      var values := OptionsOr(options, row[1]);
      if |values| == 8 || row[2] in OptionIds(values) then None
      else Some(options[row[1] := values + [OptionOf(row)]])
  }

  /** Options grouped by question in row order, at most eight each, option ids distinct per question. */
  function KeyedOptionsOf(rows: seq<TagRow>): Option<OptionMap> {
    if rows == [] then Some(map[])
    else
      var prior := KeyedOptionsOf(rows[..|rows| - 1]);
      if prior.None? then None else AddOption(prior.value, rows[|rows| - 1])
  }

  lemma {:induction false} KeyedOptionsPrefix(rows: seq<TagRow>, k: nat)
    requires k <= |rows| && KeyedOptionsOf(rows[..k]).None?
    ensures KeyedOptionsOf(rows).None?
  {
    if k < |rows| {
      assert rows[..|rows| - 1][..k] == rows[..k];
      KeyedOptionsPrefix(rows[..|rows| - 1], k);
    } else {
      assert rows[..k] == rows;
    }
  }

  lemma OptionsSnoc(rows: seq<TagRow>, row: TagRow)
    ensures KeyedOptionsOf(rows + [row])
         == if KeyedOptionsOf(rows).None? then None else AddOption(KeyedOptionsOf(rows).value, row)
  {
    hide AddOption;
    assert (rows + [row])[..|rows|] == rows;
  }

  lemma KeyedOptionsStep(rows: seq<TagRow>, k: nat, options: OptionMap)
    requires k < |rows| && KeyedOptionsOf(rows[..k]) == Some(options)
    ensures KeyedOptionsOf(rows[..k + 1]) == AddOption(options, rows[k])
    ensures AddOption(options, rows[k]).None? ==> KeyedOptionsOf(rows).None?
  {
    assert rows[..k + 1][..k] == rows[..k] && rows[..k + 1][k] == rows[k];
    if AddOption(options, rows[k]).None? { KeyedOptionsPrefix(rows, k + 1); }
  }

  /** The (question, option) pairs read so far. */
  predicate Pairs(seen: set<(string, string)>, options: OptionMap) {
    && (forall p <- seen :: p.1 in OptionIds(OptionsOr(options, p.0)))
    && (forall q <- options, o <- OptionIds(options[q]) :: (q, o) in seen)
  }

  lemma PairsGrow(seen: set<(string, string)>, options: OptionMap, row: TagRow)
    requires Pairs(seen, options) && AddOption(options, row).Some?
    ensures Pairs(seen + {(row[1], row[2])}, AddOption(options, row).value)
  {
    OptionIdsGrow(OptionsOr(options, row[1]), OptionOf(row));
  }

  /** `keyed_options`: remembering (question, option) pairs finds the same repeats. */
  method KeyedOptions(tags: seq<TagRow>) returns (r: Option<OptionMap>)
    ensures r == KeyedOptionsOf(Rows(tags, "option"))
  {
    var rows := Rows(tags, "option");
    var result: OptionMap := map[];
    var seen: set<(string, string)> := {};
    for k := 0 to |rows|
      invariant KeyedOptionsOf(rows[..k]) == Some(result)
      invariant Pairs(seen, result)
    {
      var value := rows[k];
      KeyedOptionsStep(rows, k, result);
      if (|value| != 4 && |value| != 5) || !IsIdentifier(value[1]) || !IsIdentifier(value[2]) { return None; }
      if (value[1], value[2]) in seen { return None; }
      ghost var before, grown := seen, result;
      seen := seen + {(value[1], value[2])};
      var values := OptionsOr(result, value[1]);
      if |values| == 8 { return None; }
      var description := if |value| == 5 && value[4] != "" then Bounded(value[4], 300) else None;
      if |value| == 5 && value[4] != "" && description.None? { return None; }
      var title := Bounded(value[3], 120);
      if title.None? { return None; }
      result := result[value[1] := values + [QuestionOption(value[2], title.value, description)]];
      PairsGrow(before, grown, value);
    }
    assert rows[..|rows|] == rows;
    r := Some(result);
  }

  lemma OptionIdsGrow(options: seq<QuestionOption>, option: QuestionOption)
    ensures OptionIds(options + [option]) == OptionIds(options) + {option.id}
  {
    assert forall o :: o in options + [option] <==> o in options || o == option;
  }

  // ----- questions -----

  function KindOf(name: string): Option<QuestionKind> {
    match name
    case "single" => Some(SingleChoice)
    case "multiple" => Some(MultipleChoice)
    case "freeform" => Some(Freeform)
    case _ => None
  }

  predicate NeedsChoices(kind: QuestionKind) {
    kind.SingleChoice? || kind.MultipleChoice?
  }

  predicate QuestionRow(row: TagRow, options: OptionMap) {
    && |row| == 4 && IsIdentifier(row[1]) && KindOf(row[2]).Some? && Bounded(row[3], 240).Some?
    && (NeedsChoices(KindOf(row[2]).value) <==> OptionsOr(options, row[1]) != [])
  }

  function QuestionOf(row: TagRow, labels: map<string, string>, descriptions: map<string, string>,
                      options: OptionMap): Question
    requires QuestionRow(row, options)
  {
    var title := Bounded(row[3], 240).value;
    Question(row[1], KindOf(row[2]).value,
             if row[1] in labels then labels[row[1]] else title, title,
             if row[1] in descriptions then Some(descriptions[row[1]]) else None,
             OptionsOr(options, row[1]))
  }

  function QuestionIds(questions: seq<Question>): set<string> {
    set question <- questions :: question.id
  }

  /** One question row added to the questions read so far. */
  function AddQuestion(questions: seq<Question>, row: TagRow, labels: map<string, string>,
                       descriptions: map<string, string>, options: OptionMap): Option<seq<Question>>
  {
    if !QuestionRow(row, options) || row[1] in QuestionIds(questions) then None
    else Some(questions + [QuestionOf(row, labels, descriptions, options)])
  }

  /** The questions the rows define, reading labels, descriptions and options by id. */
  function QuestionsFrom(rows: seq<TagRow>, labels: map<string, string>, descriptions: map<string, string>,
                         options: OptionMap): Option<seq<Question>>
  {
    if rows == [] then Some([])
    else
      var prior := QuestionsFrom(rows[..|rows| - 1], labels, descriptions, options);
      if prior.None? then None else AddQuestion(prior.value, rows[|rows| - 1], labels, descriptions, options)
  }

  lemma {:induction false} QuestionsPrefix(rows: seq<TagRow>, k: nat, labels: map<string, string>,
                                           descriptions: map<string, string>, options: OptionMap)
    requires k <= |rows| && QuestionsFrom(rows[..k], labels, descriptions, options).None?
    ensures QuestionsFrom(rows, labels, descriptions, options).None?
  {
    if k < |rows| {
      assert rows[..|rows| - 1][..k] == rows[..k];
      QuestionsPrefix(rows[..|rows| - 1], k, labels, descriptions, options);
    } else {
      assert rows[..k] == rows;
    }
  }

  lemma QuestionsStep(rows: seq<TagRow>, k: nat, questions: seq<Question>, labels: map<string, string>,
                      descriptions: map<string, string>, options: OptionMap)
    requires k < |rows| && QuestionsFrom(rows[..k], labels, descriptions, options) == Some(questions)
    ensures QuestionsFrom(rows[..k + 1], labels, descriptions, options)
         == AddQuestion(questions, rows[k], labels, descriptions, options)
    ensures AddQuestion(questions, rows[k], labels, descriptions, options).None?
        ==> QuestionsFrom(rows, labels, descriptions, options).None?
  {
    assert rows[..k + 1][..k] == rows[..k] && rows[..k + 1][k] == rows[k];
    if AddQuestion(questions, rows[k], labels, descriptions, options).None? {
      QuestionsPrefix(rows, k + 1, labels, descriptions, options);
    }
  }

  lemma NothingAsked(labels: map<string, string>, descriptions: map<string, string>, options: OptionMap)
    ensures QuestionsFrom([], labels, descriptions, options) == Some([]) && QuestionIds([]) == {}
  {
  }

  /** What an event's question rows mean, or `None` when they reject the event: at most three
      questions, and no label, description or option for a question that is not asked. */
  function ParsedQuestions(tags: seq<TagRow>): Option<seq<Question>> {
    var labels := KeyedTextOf(Rows(tags, "label"), 40);
    var descriptions := KeyedTextOf(Rows(tags, "description"), 500);
    var options := KeyedOptionsOf(Rows(tags, "option"));
    if |Rows(tags, "question")| > 3 || labels.None? || descriptions.None? || options.None? then None
    else
      var questions := QuestionsFrom(Rows(tags, "question"), labels.value, descriptions.value, options.value);
      if questions.None? then None
      else if labels.value.Keys + descriptions.value.Keys + options.value.Keys <= QuestionIds(questions.value) then
        questions
      else None
  }

  lemma QuestionIdsGrow(questions: seq<Question>, question: Question)
    ensures QuestionIds(questions + [question]) == QuestionIds(questions) + {question.id}
  {
    assert forall q :: q in questions + [question] <==> q in questions || q == question;
  }

  /** The loop of `questions`, which drains the options it hands out. */
  method ReadQuestions(rows: seq<TagRow>, labels: map<string, string>, descriptions: map<string, string>,
                       keyed: OptionMap)
    returns (r: Option<seq<Question>>, rest: OptionMap)
    ensures r == QuestionsFrom(rows, labels, descriptions, keyed)
    ensures r.Some? ==> rest == keyed - QuestionIds(r.value)
  {
    hide QuestionsFrom, Bounded, IsIdentifier, KindOf, QuestionIds;
    NothingAsked(labels, descriptions, keyed);
    var seen: set<string> := {};
    var result: seq<Question> := [];
    rest := keyed;
    for k := 0 to |rows|
      invariant QuestionsFrom(rows[..k], labels, descriptions, keyed) == Some(result)
      invariant seen == QuestionIds(result)
      invariant rest == keyed - seen
    {
      var value := rows[k];
      QuestionsStep(rows, k, result, labels, descriptions, keyed);
      if |value| != 4 || value[1] in seen { return None, rest; }
      var id := value[1];
      assert OptionsOr(rest, id) == OptionsOr(keyed, id);
      seen := seen + {id};
      if !IsIdentifier(id) { return None, rest; }
      var kind := KindOf(value[2]);
      if kind.None? { return None, rest; }
      var title := Bounded(value[3], 240);
      if title.None? { return None, rest; }
      var options := OptionsOr(rest, id);
      rest := rest - {id};
      if NeedsChoices(kind.value) == (options == []) { return None, rest; }
      var question := Question(
        id, kind.value, if id in labels then labels[id] else title.value, title.value,
        if id in descriptions then Some(descriptions[id]) else None, options);
      QuestionIdsGrow(result, question);
      result := result + [question];
    }
    assert rows[..|rows|] == rows;
    r := Some(result);
  }

  /** `questions`: what the loop leaves undrained belongs to no asked question. */
  method Questions(tags: seq<TagRow>) returns (r: Option<seq<Question>>)
    ensures r == ParsedQuestions(tags)
  {
    var rows := Rows(tags, "question");
    if |rows| > 3 { return None; }
    var labels := KeyedText(tags, "label", 40);
    if labels.None? { return None; }
    var descriptions := KeyedText(tags, "description", 500);
    if descriptions.None? { return None; }
    var options := KeyedOptions(tags);
    if options.None? { return None; }
    var result, rest := ReadQuestions(rows, labels.value, descriptions.value, options.value);
    if result.None? { return None; }
    var known := QuestionIds(result.value);
    DrainedMeansKnown(options.value, known);
    if !(labels.value.Keys <= known) || !(descriptions.value.Keys <= known) || rest != map[] { return None; }
    r := result;
  }

  lemma DrainedMeansKnown(options: OptionMap, seen: set<string>)
    ensures options - seen == map[] <==> options.Keys <= seen
  {
    if options - seen == map[] {
      forall id | id in options ensures id in seen { assert id in seen || id in options - seen; }
    }
  }
}
