/** Producer requests and job records (daemon/src/model.rs, daemon/src/request.rs). */
module Jobs {
  import opened Contract
  import opened Text

  type Bytes = seq<bv8>

  datatype ProducerRequest = ProducerRequest(
    requestId: string, groupId: string, voice: string, agentName: string, subject: string,
    summary: string, body: string, attachments: seq<DurableArtifact>, questions: seq<Question>,
    attach: Option<AttachLink>)

  datatype LocalAudioArtifact = LocalAudioArtifact(path: string, sha256: string, mediaType: string, byteCount: nat)

  datatype MembershipEvidence = MembershipEvidence(eventId: string, receiptId: Option<nat>)

  datatype JobPhase =
    | Admitted
    | Synthesized(audio: LocalAudioArtifact)
    | ArtifactsDurable(item: FrozenSpokenItem)
    | AuthorizationAccepted(item: FrozenSpokenItem, receiptId: nat)
    | AuthorAuthorized(item: FrozenSpokenItem, evidence: MembershipEvidence)
    | PublicationAccepted(item: FrozenSpokenItem, membership: Option<MembershipEvidence>, receiptId: nat)
    | Published(item: FrozenSpokenItem, membership: Option<MembershipEvidence>, receiptId: nat, eventId: string)
  {
    predicate HasItem() { !Admitted? && !Synthesized? }

    /** How many saved advances are left. */
    function Rank(): nat {
      match this
      case Admitted => 6
      case Synthesized(_) => 5
      case ArtifactsDurable(_) => 4
      case AuthorizationAccepted(_, _) => 3
      case AuthorAuthorized(_, _) => 2
      case PublicationAccepted(_, _, _) => 1
      case Published(_, _, _, _) => 0
    }
  }

  datatype JobRecord = JobRecord(
    schemaVersion: nat, requestDigest: string, author: string, createdAt: nat,
    request: ProducerRequest, phase: JobPhase)

  datatype JournalError = Io | InvalidId(id: string) | Corrupt(id: string)

  datatype ProducerError =
    | InvalidRequest(field: string)
    | RequestConflict(id: string)
    | JobNotFound(id: string)
    | Journal(error: JournalError)
    | Capability(stage: string, reason: string)

  /** Everything about a job that admission fixes. */
  predicate SameIdentity(a: JobRecord, b: JobRecord) {
    a.(phase := b.phase) == b
  }

  function FrozenItem(job: JobRecord, audio: DurableArtifact): FrozenSpokenItem {
    FrozenSpokenItem(job.author, job.createdAt, job.request.groupId, job.request.agentName, job.request.subject,
                     job.request.summary, job.request.body, audio, job.request.attachments, job.request.questions,
                     job.request.attach)
  }

  function SameRequest(existing: JobRecord, digest: string, author: string): Result<JobRecord, ProducerError> {
    if existing.requestDigest == digest && existing.author == author then Ok(existing)
    else Err(RequestConflict(existing.request.requestId))
  }

  /** `validate_request_id` and the journal's `valid_request_id`: the identifier rule. */
  predicate ValidRequestId(id: string) {
    IsIdentifier(id)
  }

  /** The metadata checks of `validate_local_audio` on the bytes read back from `path`. */
  predicate ValidLocalAudio(audio: LocalAudioArtifact, path: string, bytes: Bytes, sha256: Bytes -> string) {
    && audio.path == path && audio.byteCount > 0 && audio.byteCount == |bytes|
    && StartsWith(audio.mediaType, "audio/") && IsLowerHex(audio.sha256, 64) && audio.sha256 == sha256(bytes)
  }

  predicate SameBytes(durable: DurableArtifact, audio: LocalAudioArtifact) {
    durable.sha256 == audio.sha256 && durable.byteCount == audio.byteCount && durable.mediaType == audio.mediaType
  }
}
