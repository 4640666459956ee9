/** The data-only spoken-item values shared by every component (contract/src/lib.rs). */
module Contract {

  datatype Option<+T> = None | Some(value: T) {
    predicate IsFailure() { None? }

    function PropagateFailure<U>(): Option<U>
      requires None?
    {
      None
    }

    function Extract(): T
      requires Some?
    {
      value
    }

    function UnwrapOr(default: T): T {
      if Some? then value else default
    }
  }

  datatype Result<+T, +E> = Ok(value: T) | Err(error: E) {
    predicate IsFailure() { Err? }

    function PropagateFailure<U>(): Result<U, E>
      requires Err?
    {
      Err(error)
    }

    function Extract(): T
      requires Ok?
    {
      value
    }
  }

  /** `caption` is the source's `label`, a reserved word here. */
  datatype DurableArtifact = DurableArtifact(
    url: string, sha256: string, mediaType: string, byteCount: nat, caption: Option<string>)

  datatype QuestionKind = SingleChoice | MultipleChoice | Freeform

  datatype QuestionOption = QuestionOption(id: string, title: string, description: Option<string>)

  datatype Question = Question(
    id: string, kind: QuestionKind, shortTitle: string, title: string,
    description: Option<string>, options: seq<QuestionOption>)

  datatype QuestionAnswer = QuestionAnswer(questionId: string, values: seq<string>)

  datatype AnswerBundle = AnswerBundle(
    eventId: string, author: string, createdAt: nat, answers: seq<QuestionAnswer>)

  datatype AcknowledgementState = Active | Heard | Dismissed | Archived

  datatype Acknowledgement = Acknowledgement(
    eventId: string, author: string, createdAt: nat, state: AcknowledgementState,
    reason: Option<string>)

  datatype ReactionSummary = ReactionSummary(emoji: string, count: nat, authors: seq<string>)

  datatype AttachLink = AttachLink(parentId: string)

  datatype SpokenItem = SpokenItem(
    id: string, author: string, createdAt: nat, agentName: string, subject: string,
    summary: string, body: string, audioUrl: Option<string>, audio: DurableArtifact,
    attachments: seq<DurableArtifact>, questions: seq<Question>, answer: Option<AnswerBundle>,
    acknowledgement: Option<Acknowledgement>, reactions: seq<ReactionSummary>,
    attach: Option<AttachLink>, children: seq<SpokenItem>)

  /** The immutable item a producer freezes before publication (protocol/src/compose.rs). */
  datatype FrozenSpokenItem = FrozenSpokenItem(
    author: string, createdAt: nat, groupId: string, agentName: string, subject: string,
    summary: string, body: string, audio: DurableArtifact, attachments: seq<DurableArtifact>,
    questions: seq<Question>, attach: Option<AttachLink>)

  /** A Nostr event as NMP hands it over; a tag is a row of strings. */
  datatype Event = Event(
    id: string, pubkey: string, createdAt: nat, kind: nat, tags: seq<seq<string>>,
    content: string)
}
