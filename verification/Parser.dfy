/** From a group event to a typed product event (protocol/src/parse/mod.rs). */
module Parser {
  import opened Contract
  import opened Text
  import opened Tags

  const VERSION := "1"

  datatype Related<+T> = Related(rootId: string, value: T)

  datatype Reaction = Reaction(
    eventId: string, author: string, createdAt: nat, emoji: string, active: bool)

  datatype ParsedEvent =
    | ItemEvent(item: SpokenItem)
    | AnswerEvent(answer: Related<AnswerBundle>)
    | AcknowledgementEvent(acknowledgement: Related<Acknowledgement>)
    | ReactionEvent(reaction: Related<Reaction>)

  /** `parse`: kind 9, this group, one known marker, and a well-formed body. */
  function Parse(event: Event, group: string): Option<ParsedEvent> {
    if event.kind != 9 || !GroupMatches(event.tags, group) then None
    else
      var marker :- Marker(event.tags);
      if marker.1 != VERSION then None
      else
        match marker.0
        case "item" => var item :- ParseItem(event); Some(ItemEvent(item))
        case "answer" => var answer :- ParseAnswer(event); Some(AnswerEvent(answer))
        case "ack" => var ack :- ParseAcknowledgement(event); Some(AcknowledgementEvent(ack))
        case "reaction" => var reaction :- ParseReaction(event); Some(ReactionEvent(reaction))
        case _ => None
  }

  function ArtifactList(rows: seq<TagRow>): Option<seq<DurableArtifact>> {
    if rows == [] then Some([])
    else
      var prior :- ArtifactList(rows[..|rows| - 1]);
      var last :- Artifact(rows[|rows| - 1], "attachment", true);
      Some(prior + [last])
  }

  /** Every check `parse_item` makes: one audio row, labelled attachments, at most one parent link,
      bounded text and acceptable questions. */
  predicate ItemAccepted(event: Event) {
    var tags := event.tags;
    && |Rows(tags, "audio")| == 1
    && Artifact(Rows(tags, "audio")[0], "audio", false).Some?
    && StartsWith(Artifact(Rows(tags, "audio")[0], "audio", false).value.mediaType, "audio/")
    && |Rows(tags, "attachment")| <= 12
    && ArtifactList(Rows(tags, "attachment")).Some?
    && (forall a <- ArtifactList(Rows(tags, "attachment")).value :: a.caption.Some?)
    && AttachLinkOf(tags).Some?
    && Optional(tags, "agent", 80).Some?
    && Unique(tags, "title", 80).Some?
    && Optional(tags, "summary", 280).Some?
    && Bounded(event.content, 40_000).Some?
    && ParsedQuestions(tags).Some?
  }

  function ItemOf(event: Event): SpokenItem
    requires ItemAccepted(event)
  {
    var tags := event.tags;
    var audio := Artifact(Rows(tags, "audio")[0], "audio", false).value;
    SpokenItem(
      event.id, event.pubkey, event.createdAt, Optional(tags, "agent", 80).value.UnwrapOr(""),
      Unique(tags, "title", 80).value, Optional(tags, "summary", 280).value.UnwrapOr(""),
      Bounded(event.content, 40_000).value, Some(audio.url), audio,
      ArtifactList(Rows(tags, "attachment")).value, ParsedQuestions(tags).value, None, None, [],
      AttachLinkOf(tags).value, [])
  }

  function ParseItem(event: Event): Option<SpokenItem> {
    if ItemAccepted(event) then Some(ItemOf(event)) else None
  }

  function BoundedAll(values: seq<string>, max: nat): Option<seq<string>> {
    if values == [] then Some([])
    else
      var prior :- BoundedAll(values[..|values| - 1], max);
      var last :- Bounded(values[|values| - 1], max);
      Some(prior + [last])
  }

  function AnsweredIds(answers: seq<QuestionAnswer>): set<string> {
    set answer <- answers :: answer.questionId
  }

  /** One answer row added to the answers read so far. */
  function AddAnswer(answers: seq<QuestionAnswer>, row: TagRow): Option<seq<QuestionAnswer>> {
    if |row| < 3 || |row| > 10 || !IsIdentifier(row[1]) || row[1] in AnsweredIds(answers) then None
    else
      var values :- BoundedAll(row[2..], 4_000);
      Some(answers + [QuestionAnswer(row[1], values)])
  }

  function AnswersFrom(rows: seq<TagRow>): Option<seq<QuestionAnswer>> {
    if rows == [] then Some([])
    else
      var prior :- AnswersFrom(rows[..|rows| - 1]);
      AddAnswer(prior, rows[|rows| - 1])
  }

  function ParseAnswer(event: Event): Option<Related<AnswerBundle>> {
    var rows := Rows(event.tags, "answer");
    if rows == [] || |rows| > 3 then None
    else
      var answers :- AnswersFrom(rows);
      var root :- RootEvent(event.tags);
      Some(Related(root, AnswerBundle(event.id, event.pubkey, event.createdAt, answers)))
  }

  lemma {:induction false} AnswersPrefix(rows: seq<TagRow>, k: nat)
    requires k <= |rows| && AnswersFrom(rows[..k]).None?
    ensures AnswersFrom(rows).None?
  {
    if k < |rows| {
      assert rows[..|rows| - 1][..k] == rows[..k];
      AnswersPrefix(rows[..|rows| - 1], k);
    } else {
      assert rows[..k] == rows;
    }
  }

  lemma AnswersStep(rows: seq<TagRow>, k: nat, answers: seq<QuestionAnswer>)
    requires k < |rows| && AnswersFrom(rows[..k]) == Some(answers)
    ensures AnswersFrom(rows[..k + 1]) == AddAnswer(answers, rows[k])
    ensures AddAnswer(answers, rows[k]).None? ==> AnswersFrom(rows).None?
  {
    assert rows[..k + 1][..k] == rows[..k] && rows[..k + 1][k] == rows[k];
    if AddAnswer(answers, rows[k]).None? { AnswersPrefix(rows, k + 1); }
  }

  /** `parse_answer` with its `seen` set and growing `answers` vector. */
  method ReadAnswer(event: Event) returns (r: Option<Related<AnswerBundle>>)
    ensures r == ParseAnswer(event)
  {
    var rows := Rows(event.tags, "answer");
    if rows == [] || |rows| > 3 { return None; }
    var seen: set<string> := {};
    var answers: seq<QuestionAnswer> := [];
    for k := 0 to |rows|
      invariant AnswersFrom(rows[..k]) == Some(answers)
      invariant seen == AnsweredIds(answers)
    {
      var value := rows[k];
      AnswersStep(rows, k, answers);
      if |value| < 3 || |value| > 10 { return None; }
      if !IsIdentifier(value[1]) || value[1] in seen { return None; }
      seen := seen + {value[1]};
      var values := BoundedAll(value[2..], 4_000);
      if values.None? { return None; }
      AnsweredIdsGrow(answers, QuestionAnswer(value[1], values.value));
      answers := answers + [QuestionAnswer(value[1], values.value)];
    }
    assert rows[..|rows|] == rows;
    var root := RootEvent(event.tags);
    if root.None? { return None; }
    r := Some(Related(root.value, AnswerBundle(event.id, event.pubkey, event.createdAt, answers)));
  }

  lemma AnsweredIdsGrow(answers: seq<QuestionAnswer>, answer: QuestionAnswer)
    ensures AnsweredIds(answers + [answer]) == AnsweredIds(answers) + {answer.questionId}
  {
    assert forall a :: a in answers + [answer] <==> a in answers || a == answer;
  }

  function StateOf(name: string): Option<AcknowledgementState> {
    match name
    case "active" => Some(Active)
    case "heard" => Some(Heard)
    case "dismissed" => Some(Dismissed)
    case "archived" => Some(Archived)
    case _ => None
  }

  function ParseAcknowledgement(event: Event): Option<Related<Acknowledgement>> {
    var name :- Unique(event.tags, "state", 16);
    var state :- StateOf(name);
    var root :- RootEvent(event.tags);
    var reason :- Optional(event.tags, "reason", 500);
    Some(Related(root, Acknowledgement(event.id, event.pubkey, event.createdAt, state, reason)))
  }

  function ParseReaction(event: Event): Option<Related<Reaction>> {
    var rows := Rows(event.tags, "reaction");
    if |rows| != 1 || |rows[0]| != 3 || (rows[0][2] != "add" && rows[0][2] != "remove") then None
    else
      var root :- RootEvent(event.tags);
      var emoji :- Bounded(rows[0][1], 16);
      Some(Related(root, Reaction(event.id, event.pubkey, event.createdAt, emoji, rows[0][2] == "add")))
  }

  /** The id, author and time a parsed event carries, whichever kind it is. */
  function Stamp(parsed: ParsedEvent): (string, string, nat) {
    match parsed
    case ItemEvent(i) => (i.id, i.author, i.createdAt)
    case AnswerEvent(a) => (a.value.eventId, a.value.author, a.value.createdAt)
    case AcknowledgementEvent(a) => (a.value.eventId, a.value.author, a.value.createdAt)
    case ReactionEvent(a) => (a.value.eventId, a.value.author, a.value.createdAt)
  }

  /** A parsed item has no projected state yet. */
  predicate Bare(item: SpokenItem) {
    item.answer.None? && item.acknowledgement.None? && item.reactions == [] && item.children == []
  }

  /** Every parsed event is stamped by its own event. */
  lemma ParsedIdentity(event: Event, group: string)
    requires Parse(event, group).Some?
    ensures Stamp(Parse(event, group).value) == (event.id, event.pubkey, event.createdAt)
    ensures Parse(event, group).value.ItemEvent? ==> Bare(Parse(event, group).value.item)
  {
    var marker := Marker(event.tags).value;
    if marker.0 == "item" {
      assert ParseItem(event).Some?;
    } else if marker.0 == "answer" {
      assert ParseAnswer(event).Some?;
    } else if marker.0 == "ack" {
      assert ParseAcknowledgement(event).Some?;
    } else {
      assert ParseReaction(event).Some?;
    }
  }
}
