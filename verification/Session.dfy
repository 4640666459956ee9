/**
 `Session` (core/src/session.rs): the rows, the projected queue, the account and the answers in flight. `sent` is the
 engine's log of accepted answers, whose position is the receipt; `history` records what happened to submissions.
 */
module Session {
  import opened Contract
  import opened Text
  import opened Composer
  import opened Answers
  import opened Projection
  import Identity
  import Projector

  datatype SubmissionPhase = Sending | Sent | Failed

  datatype Submission = Submission(
    itemId: string, phase: SubmissionPhase, receiptId: Option<nat>, eventId: Option<string>, error: Option<string>)

  /** NMP's write status; the relay-bound ones name the relay they come from. */
  datatype WriteStatus =
    | Signed(event: string)
    | Acked(relay: string)
    | Rejected(relay: string, reason: string)
    | GaveUp(relay: string)
    | OutcomeUnknown(relay: string)
    | Cancelled
    | ReplaceableConflict
    | FailedBecause(reason: string)
    | OtherStatus

  datatype Happening =
    | Submitted(itemId: string, receipt: nat)
    | Reported(itemId: string, receipt: nat, status: WriteStatus)
    | Closed(itemId: string, receipt: nat)
    | Errored(itemId: string)
    | Framed(visible: set<string>)

  datatype KernelPhase = Starting | Listening | HasFailed | Stopped

  /** NMP's acquisition evidence: the sources it has asked and those that fell short. */
  datatype Evidence = Evidence(sources: nat, shortfall: nat)

  const NO_EVIDENCE := Evidence(0, 0)

  datatype State = State(
    host: string, group: string, identity: Identity.State, rows: seq<Event>, evidence: Evidence, phase: KernelPhase,
    items: seq<SpokenItem>, counted: Evidence, rejected: nat, error: Option<string>,
    submissions: map<string, Submission>, sent: seq<WriteIntent>, history: seq<Happening>, shown: seq<Event>)

  /** `find_item`: the first item with the id, looking below each item before its next sibling. */
  function FindItem(items: seq<SpokenItem>, id: string): Option<SpokenItem> {
    if items == [] then None
    else if items[0].id == id then Some(items[0])
    else
      var below := FindItem(items[0].children, id);
      if below.Some? then below else FindItem(items[1..], id)
  }

  function VisibleIds(items: seq<SpokenItem>): set<string> {
    if items == [] then {}
    else VisibleIds(items[..|items| - 1]) + {items[|items| - 1].id} + VisibleIds(items[|items| - 1].children)
  }

  // ----- answers as text -----

  function FirstQuestion(questions: seq<Question>, id: string): Option<Question> {
    if questions == [] then None
    else if questions[0].id == id then Some(questions[0])
    else FirstQuestion(questions[1..], id)
  }

  function FirstOption(options: seq<QuestionOption>, id: string): Option<QuestionOption> {
    if options == [] then None
    else if options[0].id == id then Some(options[0])
    else FirstOption(options[1..], id)
  }

  function Join(parts: seq<string>, separator: string): string {
    if parts == [] then ""
    else if |parts| == 1 then parts[0]
    else parts[0] + separator + Join(parts[1..], separator)
  }

  function Titles(options: seq<QuestionOption>, values: seq<string>): seq<string> {
    seq(|values|, i requires 0 <= i < |values| =>
      var option := FirstOption(options, values[i]);
      if option.Some? then option.value.title else values[i])
  }

  function AnswerLines(questions: seq<Question>, answers: seq<QuestionAnswer>): seq<string> {
    if answers == [] then []
    else
      var question := FirstQuestion(questions, answers[0].questionId);
      (if question.Some? then [question.value.title + ": "
                               + Join(Titles(question.value.options, answers[0].values), ", ")]
       else []) + AnswerLines(questions, answers[1..])
  }

  function AnswerContent(item: SpokenItem, answers: seq<QuestionAnswer>): string {
    Join(AnswerLines(item.questions, answers), "\n")
  }

  function Describe(error: RelatedComposeError): string {
    match error
    case BadAuthor => "the answer author is not a public key"
    case BadGroup => "the answer group is invalid"
    case BadRoot => "the answer root is not an event id"
    case BadContent => "the answer content is invalid"
    case BadAnswer => "the answer values are invalid"
  }

  // ----- what each call does -----

  function FailureOf(host: string, status: WriteStatus): Option<string> {
    match status
    case Rejected(relay, reason) => if relay == host then Some("The group rejected the answer: " + reason) else None
    case GaveUp(relay) => if relay == host then Some("The answer could not reach the group.") else None
    case OutcomeUnknown(relay) =>
      if relay == host then Some("The answer delivery outcome is unknown; do not send it again blindly.") else None
    case Cancelled => Some("The answer was cancelled.")
    case ReplaceableConflict => Some("The answer conflicted before publication.")
    case FailedBecause(reason) => Some(reason)
    case _ => None
  }

  /** The effect of one status on the submission it is about. */
  function Told(host: string, sub: Submission, status: WriteStatus): Submission {
    if status.Signed? then sub.(eventId := Some(status.event))
    else if status.Acked? && status.relay == host then sub.(phase := Sent, error := None)
    else if FailureOf(host, status).Some? then sub.(phase := Failed, error := FailureOf(host, status))
    else sub
  }

  function Ended(sub: Submission): Submission {
    if sub.phase.Sending? then
      sub.(phase := Failed, error := Some("Answer evidence closed before the group acknowledged it."))
    else sub
  }

  ghost function ReprojectOf(s: State): State {
    if s.rows == [] then s
    else
      var viewer, events := Identity.ActivePubkey(s.identity), ParseAll(s.rows, s.group);
      s.(phase := Listening, items := Projected(viewer, events), counted := s.evidence,
         rejected := RejectedCount(viewer, events), error := None, shown := s.rows)
  }

  function Retain(submissions: map<string, Submission>, visible: set<string>): map<string, Submission> {
    map id | id in submissions && id in visible :: submissions[id]
  }

  ghost function UpdateRowsOf(s: State, rows: seq<Event>, evidence: Evidence): State {
    var t := ReprojectOf(s.(rows := rows, evidence := evidence));
    var visible := VisibleIds(t.items);
    t.(submissions := Retain(t.submissions, visible),
       history := t.history + [Framed(visible)])
  }

  /** Composing a frozen answer and handing it to the engine. */
  ghost function SendOf(s: State, itemId: string, frozen: FrozenAnswer, key: KeyParser, refusal: Option<string>)
    : (State, Result<nat, string>)
  {
    match ComposeAnswer(frozen, key)
    case Err(error) => (s, Err(Describe(error)))
    case Ok(intent) =>
      if refusal.Some? then (s, Err("NMP refused the answer: " + refusal.value))
      else
        var receipt: nat := |s.sent|;
        (s.(submissions := s.submissions[itemId := Submission(itemId, Sending, Some(receipt), None, None)],
            sent := s.sent + [intent], history := s.history + [Submitted(itemId, receipt)]), Ok(receipt))
  }

  ghost function SubmitOf(s: State, itemId: string, answers: seq<QuestionAnswer>, now: nat, key: KeyParser,
                          refusal: Option<string>): (State, Result<nat, string>)
  {
    var author := Identity.ActivePubkey(s.identity);
    var item := FindItem(s.items, itemId);
    if author.None? then (s, Err("Log in before answering."))
    else if itemId in s.submissions && s.submissions[itemId].phase.Sending? then
      (s, Err("That answer is already being sent."))
    else if item.None? then (s, Err("The question is no longer in the bounded queue."))
    else if item.value.questions == [] then (s, Err("That update has no questions."))
    else if item.value.answer.Some? then (s, Err("That question already has an answer."))
    else if !ValidAnswer(item.value.questions, AnswerBundle("", author.value, now, answers)) then
      (s, Err("The selected answer is not valid for this question."))
    else
      var content := AnswerContent(item.value, answers);
      SendOf(s, itemId, FrozenAnswer(author.value, now, s.group, item.value.id, content, answers), key, refusal)
  }

  function StatusOf(s: State, itemId: string, receipt: nat, status: WriteStatus): State {
    var t := s.(history := s.history + [Reported(itemId, receipt, status)]);
    if itemId !in s.submissions || s.submissions[itemId].receiptId != Some(receipt) then t
    else t.(submissions := s.submissions[itemId := Told(s.host, s.submissions[itemId], status)])
  }

  function ClosedOf(s: State, itemId: string, receipt: nat): State {
    var t := s.(history := s.history + [Closed(itemId, receipt)]);
    if itemId !in s.submissions || s.submissions[itemId].receiptId != Some(receipt) then t
    else t.(submissions := s.submissions[itemId := Ended(s.submissions[itemId])])
  }

  function ActionErrorOf(s: State, itemId: Option<string>, error: string): State {
    if itemId.None? then s.(error := Some(error))
    else s.(submissions := s.submissions[itemId.value := Submission(itemId.value, Failed, None, None, Some(error))],
            history := s.history + [Errored(itemId.value)])
  }

  /** `compose_answer` with its checks in order. */
  method Compose(answer: FrozenAnswer, key: KeyParser) returns (r: Result<WriteIntent, RelatedComposeError>)
    ensures r == ComposeAnswer(answer, key)
  {
    if key(answer.author).None? { return Err(BadAuthor); }
    if Bounded(answer.groupId, 128).None? { return Err(BadGroup); }
    if !IsHexId(answer.rootEventId) { return Err(BadRoot); }
    if Bounded(answer.content, 4_000).None? { return Err(BadContent); }
    var checked := ValidateAnswers(answer.answers);
    if checked.Err? { return Err(checked.error); }
    return Ok(WriteIntent(key(answer.author).value, answer.groupId, answer.createdAt, answer.content,
                          AnswerTags(answer)));
  }

  class Session {
    const host: string
    const group: string
    const key: KeyParser
    const identity: Identity.IdentityController
    var rows: seq<Event>
    var evidence: Evidence
    var phase: KernelPhase
    var items: seq<SpokenItem>
    var counted: Evidence
    var rejected: nat
    var error: Option<string>
    var submissions: map<string, Submission>
    var sent: seq<WriteIntent>
    ghost var history: seq<Happening>
    ghost var shown: seq<Event>

    constructor (host: string, group: string, key: KeyParser)
      ensures this.key == key && fresh(identity)
      ensures Contents()
          == State(host, group, Identity.NEW, [], NO_EVIDENCE, Listening, [], NO_EVIDENCE, 0, None, map[], [], [], [])
    {
      var controller := new Identity.IdentityController();
      this.host, this.group, this.key, this.identity := host, group, key, controller;
      rows, evidence, phase, items, counted := [], NO_EVIDENCE, Listening, [], NO_EVIDENCE;
      rejected, error, submissions, sent, history, shown := 0, None, map[], [], [], [];
    }

    ghost function Contents(): State
      reads this, identity
    {
      State(host, group, identity.Contents(), rows, evidence, phase, items, counted, rejected, error, submissions, sent,
            history, shown)
    }

    method Reproject()
      modifies this
      ensures Contents() == ReprojectOf(old(Contents()))
    {
      hide Projected, RejectedCount, ParseAll;
      if rows != [] {
        var viewer := identity.Active();
        items, rejected := Projector.Project(group, viewer, rows);
        phase, counted, error, shown := Listening, evidence, None, rows;
      }
    }

    method UpdateRows(rows: seq<Event>, evidence: Evidence)
      modifies this
      ensures Contents() == UpdateRowsOf(old(Contents()), rows, evidence)
    {
      hide ReprojectOf, VisibleIds, Retain;
      this.rows, this.evidence := rows, evidence;
      Reproject();
      var visible := VisibleIds(items);
      submissions := Retain(submissions, visible);
      history := history + [Framed(visible)];
    }

    method Login(pubkey: Option<string>, persist: bool, replies: Identity.Replies)
      modifies this, identity
      ensures Contents() == ReprojectOf(old(Contents()).(identity :=
        Identity.LoginOf(old(Contents()).identity, pubkey, persist, replies)))
    {
      identity.Login(pubkey, persist, replies);
      Reproject();
    }

    method Logout()
      modifies identity
      ensures Contents() == old(Contents()).(identity := Identity.LogoutOf(old(Contents()).identity))
    {
      identity.Logout();
    }

    method CredentialResult(requestId: nat, succeeded: bool, error: Option<string>, replies: Identity.Replies)
      modifies this, identity
      ensures Contents() == ReprojectOf(old(Contents()).(identity :=
        Identity.ResultOf(old(Contents()).identity, requestId, succeeded, error, replies)))
    {
      identity.CredentialResult(requestId, succeeded, error, replies);
      Reproject();
    }

    /** The tail of `submit_answer`: compose, publish, remember. */
    method Send(itemId: string, frozen: FrozenAnswer, refusal: Option<string>) returns (r: Result<nat, string>)
      modifies this
      ensures (Contents(), r) == SendOf(old(Contents()), itemId, frozen, key, refusal)
    {
      hide ComposeAnswer, Describe;
      var intent := Compose(frozen, key);
      if intent.Err? { return Err(Describe(intent.error)); }
      if refusal.Some? { return Err("NMP refused the answer: " + refusal.value); }
      var receipt := |sent|;
      sent := sent + [intent.value];
      submissions := submissions[itemId := Submission(itemId, Sending, Some(receipt), None, None)];
      history := history + [Submitted(itemId, receipt)];
      return Ok(receipt);
    }

    method SubmitAnswer(itemId: string, answers: seq<QuestionAnswer>, now: nat, refusal: Option<string>)
      returns (r: Result<nat, string>)
      modifies this
      ensures (Contents(), r) == SubmitOf(old(Contents()), itemId, answers, now, key, refusal)
    {
      hide SendOf, ValidAnswer, FindItem, AnswerContent;
      var author := identity.Active();
      if author.None? { return Err("Log in before answering."); }
      if itemId in submissions && submissions[itemId].phase.Sending? {
        return Err("That answer is already being sent.");
      }
      var item := FindItem(items, itemId);
      if item.None? { return Err("The question is no longer in the bounded queue."); }
      if item.value.questions == [] { return Err("That update has no questions."); }
      if item.value.answer.Some? { return Err("That question already has an answer."); }
      var valid := CheckAnswer(item.value.questions, AnswerBundle("", author.value, now, answers));
      if !valid { return Err("The selected answer is not valid for this question."); }
      var content := AnswerContent(item.value, answers);
      r := Send(itemId, FrozenAnswer(author.value, now, group, item.value.id, content, answers), refusal);
    }

    method ReceiptStatus(itemId: string, receiptId: nat, status: WriteStatus)
      modifies this
      ensures Contents() == StatusOf(old(Contents()), itemId, receiptId, status)
    {
      history := history + [Reported(itemId, receiptId, status)];
      if itemId !in submissions { return; }
      var submission := submissions[itemId];
      if submission.receiptId != Some(receiptId) { return; }
      match status {
        case Signed(event) => submission := submission.(eventId := Some(event));
        case Acked(relay) =>
          if relay == host {
            submission := submission.(phase := Sent);
            submission := submission.(error := None);
          }
        case _ =>
          if FailureOf(host, status).Some? {
            submission := submission.(phase := Failed, error := FailureOf(host, status));
          }
      }
      submissions := submissions[itemId := submission];
    }

    method ReceiptClosed(itemId: string, receiptId: nat)
      modifies this
      ensures Contents() == ClosedOf(old(Contents()), itemId, receiptId)
    {
      history := history + [Closed(itemId, receiptId)];
      if itemId !in submissions { return; }
      var submission := submissions[itemId];
      if submission.receiptId == Some(receiptId) && submission.phase.Sending? {
        submission :=
            submission.(phase := Failed, error := Some("Answer evidence closed before the group acknowledged it."));
      }
      submissions := submissions[itemId := submission];
    }

    method ActionError(itemId: Option<string>, error: string)
      modifies this
      ensures Contents() == ActionErrorOf(old(Contents()), itemId, error)
    {
      if itemId.Some? {
        submissions := submissions[itemId.value := Submission(itemId.value, Failed, None, None, Some(error))];
        history := history + [Errored(itemId.value)];
      } else {
        this.error := Some(error);
      }
    }
  }
}
