/** The premises of tree completion can be met: a new tree of two nodes, whatever the digest. */
module TreeReadiness {
  import opened Contract
  import opened Text
  import opened Composer
  import opened RoundTrip
  import opened Jobs
  import opened Publisher
  import opened Runner
  import opened Production
  import opened CleanRun
  import opened Trees
  import opened TreeCompletion
  import Runs

  type Digest = ProducerRequest -> string

  function SetupWith(digest: Digest): Setup {
    SampleSetup().(digest := digest)
  }

  /** The speech is this request's; the relay shows no membership when it is heard, and otherwise stays silent. */
  function WorldFor(id: string, heard: bool): World {
    var audio := LocalAudioArtifact(AudioPath(SampleSetup(), id), seq(64, _ => 'a'), "audio/mpeg", 1);
    SampleWorld().(synthesized := Ok(audio), frames := if heard then SampleWorld().frames else [])
  }

  function PlainRequest(id: string, attach: Option<AttachLink>): ProducerRequest {
    ProducerRequest(id, "g", "", "", "s", "", "b", [], [], attach)
  }

  function PlainItem(attach: Option<AttachLink>): FrozenSpokenItem {
    FrozenSpokenItem("k", 1, "g", "", "s", "", "b", SampleArtifact("audio/mpeg", None), [], [], attach)
  }

  lemma PlainItemComposes(attach: Option<AttachLink>, key: KeyParser)
    requires key("k") == Some("k") && (attach.Some? ==> IsLowerHex(attach.value.parentId, 64))
    ensures ComposeSpokenItem(PlainItem(attach), key).Ok? && ValidateSpokenItem(PlainItem(attach), key).Ok?
  {
    hide ValidArtifact, ItemTags, SampleArtifact, Bounded, ValidateQuestions, IsLowerHex;
    assert "audio/mpeg"[5] == '/';
    SampleArtifactValid("audio/mpeg", None);
    SampleMedia("audio/mpeg", None);
    ShortTextsFit();
  }

  lemma PlainIsPublishable(digest: Digest, known: bool, id: string, attach: Option<AttachLink>)
    requires ValidRequestId(id) && (attach.Some? ==> IsLowerHex(attach.value.parentId, 64))
    ensures var setup, request := SetupWith(digest), PlainRequest(id, attach);
      && Publishable(setup, map[], MembersIf(known, "k"), request, "k", 1, (_: nat) => WorldFor(id, !known))
      && ItemAhead(RecordFor(setup, map[], request, "k", 1), (_: nat) => WorldFor(id, !known), 1) == PlainItem(attach)
  {
    hide ValidateSpokenItem, ComposeSpokenItem, Relay, IsIdentifier;
    var setup, request := SetupWith(digest), PlainRequest(id, attach);
    PlainItemComposes(attach, setup.host.key);
    NobodyShown(setup.host, "k");
    RelayAlike(setup.host, id);
    assert FrozenItem(Fresh(setup, request, "k", 1), SampleArtifact("audio/mpeg", None)) == PlainItem(attach);
  }

  lemma RelayAlike(host: Host, id: string)
    ensures Relay(host, "k", WorldFor(id, true)) == Relay(host, "k", SampleWorld())
  {
  }

  // ----- the tree -----

  const LEAF := Narration("m", [], [])

  const PAIR := Narration("m", [], [Narrated("s", LEAF)])

  function IdAt(path: TreePath): string {
    if path == [] then "r" else "r-0"
  }

  ghost function PairContext(digest: Digest): PublicationContext {
    PublicationContext(SetupWith(digest), "", "", "k", 1,
      (path: TreePath) => Moment(Ok("b"), (_: nat) => Err(""), (_: nat) => WorldFor(IdAt(path), path == [])))
  }

  lemma PairShape()
    ensures NarratedOf(PAIR.attachments) == [Narrated("s", LEAF)] && NarratedOf(LEAF.attachments) == []
    ensures ChildRequestId("r", 0) == "r-0" && ValidRequestId("r") && ValidRequestId("r-0")
    ensures forall uploads ::
        DurableOf(PAIR.attachments, uploads) == Ok([]) && DurableOf(LEAF.attachments, uploads) == Ok([])
  {
    assert PAIR.attachments[..0] == [];
  }

  /** A new tree of two nodes is ready although the relay is silent about the second. */
  lemma TreeReadinessIsPossible(digest: Digest)
    ensures HashesAreIds(SetupWith(digest).host) && DistinctIds("r", PAIR)
    ensures TreeReady(PairContext(digest), Runs.EMPTY, false, [], "r", "s", "", PAIR, None)
    ensures PairContext(digest).env([0]).worlds(4).frames == []
  {
    hide Publishable, ItemAhead, RecordFor, ValidRequestId, ComposeSpokenItem, PlainItem, DistinctIds;
    var c, s := PairContext(digest), Runs.EMPTY;
    var id := seq(64, _ => 'a');
    PairShape();
    PairIsDistinct();
    PlainIsPublishable(digest, false, "r", None);
    PlainItemComposes(None, c.setup.host.key);
    PlainIsPublishable(digest, true, "r-0", Some(AttachLink(id)));
    assert EventAhead(c, s, [], PlainRequest("r", None)) == id;
    assert LearnsAny(s, {"r"}) by { assert "r" in {"r"}; }
    hide WorldFor, LearnsAny, EventAhead;
    assert KidsReady(c, s, true, [], "r", PAIR, id, 1);
    assert KidsReady(c, s, true, [0], "r-0", LEAF,
                     EventAhead(c, s, [0], PlainRequest("r-0", Some(AttachLink(id)))), 0);
    assert TreeReady(c, s, true, [0], "r-0", "s", "", LEAF, Some(id));
    assert KidsReady(c, s, true, [], "r", PAIR, id, 0);
  }

  lemma PairIsDistinct()
    ensures DistinctIds("r", PAIR)
  {
    hide DistinctIds;
    PairShape();
    assert ParentsShort("r-0", LEAF);
    assert ParentsShort("r", PAIR);
    ShortTreesAreDistinct("r", PAIR);
  }
}
