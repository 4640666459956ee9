/** Whole trees through any number of failed attempts (daemon/src/production.rs `publish_tree`, `publish_node`). */
module TreeRuns {
  import opened Contract
  import opened Composer
  import opened Jobs
  import opened Publisher
  import opened Runner
  import opened Runs
  import opened Production
  import opened Trees

  function EventOf(s: State, id: string): string {
    if id in s.jobs && s.jobs[id].phase.Published? then s.jobs[id].phase.eventId else ""
  }

  /** The node is published as a child of `parent`, NMP never had another event for it, and so on below. */
  ghost predicate TreePublished(setup: Setup, s: State, id: string, narration: Narration, parent: Option<string>)
    decreases narration
  {
    var narrated := NarratedOf(narration.attachments);
    && NodePublished(setup, s, id, parent)
    && forall k | 0 <= k < |narrated| ::
         narrated[k] in narration.attachments
         && TreePublished(setup, s, ChildRequestId(id, k), narrated[k].narration, Some(EventOf(s, id)))
  }

  ghost predicate NodePublished(setup: Setup, s: State, id: string, parent: Option<string>) {
    && id in s.jobs && s.jobs[id].phase.Published?
    && s.jobs[id].request.attach == (if parent.Some? then Some(AttachLink(parent.value)) else None)
    && s.jobs[id].phase.item.attach == s.jobs[id].request.attach
    && (forall write <- s.nmp.writes :: write.Spoken? && write.requestId == id ==>
          EventIdOf(setup.host, write) == EventOf(s, id))
  }

  /** The event ids below `id` in post-order, from its k-th narrated attachment on. */
  ghost function Descendants(s: State, id: string, narration: Narration, k: nat): seq<string>
    requires k <= |NarratedOf(narration.attachments)|
    decreases narration, |NarratedOf(narration.attachments)| - k
  {
    var narrated := NarratedOf(narration.attachments);
    if k == |narrated| then []
    else
      assert narrated[k] in narration.attachments;
      var child := ChildRequestId(id, k);
      Descendants(s, child, narrated[k].narration, 0) + [EventOf(s, child)] + Descendants(s, id, narration, k + 1)
  }

  // ----- what is published stays -----

  lemma NodeStays(setup: Setup, s: State, t: State, id: string, parent: Option<string>)
    requires Later(s, t) && Inv(setup, t) && NodePublished(setup, s, id, parent)
    ensures NodePublished(setup, t, id, parent) && EventOf(t, id) == EventOf(s, id)
  {
    assert JobLater(s.jobs[id], t.jobs[id]);
    SpokenIsPublished(setup, t, id);
  }

  lemma {:induction false} TreeStays(setup: Setup, s: State, t: State, id: string, narration: Narration,
                                     parent: Option<string>)
    requires Later(s, t) && Inv(setup, t) && TreePublished(setup, s, id, narration, parent)
    ensures TreePublished(setup, t, id, narration, parent) && EventOf(t, id) == EventOf(s, id)
    ensures Descendants(t, id, narration, 0) == Descendants(s, id, narration, 0)
    decreases narration, |NarratedOf(narration.attachments)| + 1
  {
    hide Later, Inv, NodePublished, EventOf, NarratedOf;
    var narrated := NarratedOf(narration.attachments);
    NodeStays(setup, s, t, id, parent);
    forall k | 0 <= k < |narrated|
      ensures narrated[k] in narration.attachments
      ensures TreePublished(setup, t, ChildRequestId(id, k), narrated[k].narration, Some(EventOf(t, id)))
    {
      assert narrated[k] in narration.attachments;
      TreeStays(setup, s, t, ChildRequestId(id, k), narrated[k].narration, Some(EventOf(s, id)));
    }
    ListStays(setup, s, t, id, narration, 0, EventOf(s, id));
  }

  /** The children from `k` on are published. */
  ghost predicate KidsPublished(setup: Setup, s: State, id: string, narration: Narration, event: string, k: nat) {
    var narrated := NarratedOf(narration.attachments);
    forall j | k <= j < |narrated| ::
      TreePublished(setup, s, ChildRequestId(id, j), narrated[j].narration, Some(event))
  }

  lemma {:induction false} ListStays(setup: Setup, s: State, t: State, id: string, narration: Narration, k: nat,
                                     event: string)
    requires k <= |NarratedOf(narration.attachments)|
    requires Later(s, t) && Inv(setup, t) && KidsPublished(setup, s, id, narration, event, k)
    ensures KidsPublished(setup, t, id, narration, event, k)
    ensures Descendants(t, id, narration, k) == Descendants(s, id, narration, k)
    decreases narration, |NarratedOf(narration.attachments)| - k
  {
    hide Later, Inv, NodePublished, EventOf, NarratedOf, TreePublished;
    var narrated := NarratedOf(narration.attachments);
    if k < |narrated| {
      assert narrated[k] in narration.attachments;
      TreeStays(setup, s, t, ChildRequestId(id, k), narrated[k].narration, Some(event));
      ListStays(setup, s, t, id, narration, k + 1, event);
    }
  }

  // ----- publishing a node -----

  /** The journal's digest tells requests apart, as a collision-free hash of their serialization does. */
  ghost predicate DigestsTellApart(setup: Setup) {
    forall a: ProducerRequest, b: ProducerRequest :: setup.digest(a) == setup.digest(b) ==> a == b
  }

  lemma SameDigestSameRequest(setup: Setup, s: State, id: string, request: ProducerRequest)
    requires DigestsTellApart(setup) && Inv(setup, s) && id in s.jobs
    requires s.jobs[id].requestDigest == setup.digest(request)
    ensures s.jobs[id].request == request
    ensures s.jobs[id].phase.HasItem() ==> s.jobs[id].phase.item.attach == request.attach
  {
    assert JobSound(setup, s.nmp.writes, id, s.jobs[id]);
  }

  lemma NodeRecorded(c: PublicationContext, s: State, request: ProducerRequest, parent: Option<string>,
                     worlds: nat -> World)
    requires DigestsTellApart(c.setup) && Inv(c.setup, s)
    requires request.attach == if parent.Some? then Some(AttachLink(parent.value)) else None
    ensures var (t, r) := PublishAsOf(c.setup, s, request, c.author, c.createdAt, worlds);
      && Inv(c.setup, t) && Later(s, t) && Touches(s, t, request.requestId)
      && (r.Ok? ==> r.value.phase.Published? && NodePublished(c.setup, t, request.requestId, parent)
                    && r.value.phase.eventId == EventOf(t, request.requestId))
      && (r.Err? ==> r.error != EXCEEDED)
  {
    var (t, r) := PublishAsOf(c.setup, s, request, c.author, c.createdAt, worlds);
    PublishAsSound(c.setup, s, request, c.author, c.createdAt, worlds);
    if r.Ok? {
      SameDigestSameRequest(c.setup, t, request.requestId, request);
      SpokenIsPublished(c.setup, t, request.requestId);
    }
  }

  /** A published tree with the event ids `publish_tree` reports for it. */
  ghost predicate Reported(setup: Setup, s: State, id: string, narration: Narration, parent: Option<string>,
                           p: TreePublication)
  {
    && TreePublished(setup, s, id, narration, parent)
    && p.rootEventId == EventOf(s, id) && p.childEventIds == Descendants(s, id, narration, 0)
  }

  lemma {:induction false} NodeOutcome(c: PublicationContext, s: State, path: TreePath, id: string, title: string,
                                       summary: string, narration: Narration, parent: Option<string>)
    requires DigestsTellApart(c.setup) && Inv(c.setup, s)
    ensures var (t, r) := PublishNodeOf(c, s, path, id, title, summary, narration, parent);
      && Inv(c.setup, t) && Later(s, t)
      && (r.Ok? ==> Reported(c.setup, t, id, narration, parent, r.value))
      && (r.Err? ==> r.error != EXCEEDED)
    decreases narration, 1, 0
  {
    hide *;
    NodeErrors();
    LaterSelf(s);
    NodeUnfolds(c, s, path, id, title, summary, narration, parent);
    var now := c.env(path);
    if now.text.Ok? {
      var durable := DurableOf(narration.attachments, now.uploads);
      if !durable.Err? {
        var request := NodeRequest(c, id, title, summary, now.text.value, durable.value, narration.questions, parent);
        RequestOf(c, id, title, summary, now.text.value, durable.value, narration.questions, parent);
        NodeRecorded(c, s, request, parent, now.worlds);
        var (t, r) := PublishAsOf(c.setup, s, request, c.author, c.createdAt, now.worlds);
        if !r.Err? {
          var event := r.value.phase.eventId;
          KidsOutcome(c, t, path, id, narration, event, 0);
          var (u, below) := PublishChildrenOf(c, t, path, id, narration, event, 0);
          Chain(s, t, u);
          if !below.Err? {
            NodeStays(c.setup, t, u, id, parent);
            WholeTree(c.setup, u, id, narration, parent, event, below.value);
          }
        }
      }
    }
  }

  lemma NodeErrors()
    ensures forall reason: string :: Capability("read_message", reason) != EXCEEDED
    ensures forall reason: string :: Capability("attachment_upload", reason) != EXCEEDED
    ensures Capability("publication", "spoken node did not reach publication") != EXCEEDED
  {
    assert |"read_message"| != |"publication"| && |"attachment_upload"| != |"publication"|;
    assert |"spoken node did not reach publication"| != |"producer exceeded its bounded stage count"|;
  }

  lemma LaterSelf(s: State)
    ensures Later(s, s)
  {
    LaterReflexive(s);
  }

  lemma Chain(a: State, b: State, c: State)
    requires Later(a, b) && Later(b, c)
    ensures Later(a, c)
  {
    LaterTransitive(a, b, c);
  }

  lemma RequestOf(c: PublicationContext, id: string, title: string, summary: string, body: string,
                  attachments: seq<DurableArtifact>, questions: seq<Question>, parent: Option<string>)
    ensures var request := NodeRequest(c, id, title, summary, body, attachments, questions, parent);
      request.requestId == id && request.attach == if parent.Some? then Some(AttachLink(parent.value)) else None
  {
  }

  lemma WholeTree(setup: Setup, s: State, id: string, narration: Narration, parent: Option<string>, event: string,
                  below: seq<string>)
    requires NodePublished(setup, s, id, parent) && event == EventOf(s, id)
    requires KidsPublished(setup, s, id, narration, event, 0) && below == Descendants(s, id, narration, 0)
    ensures Reported(setup, s, id, narration, parent, TreePublication(event, below))
  {
    hide NodePublished, EventOf, NarratedOf;
    var narrated := NarratedOf(narration.attachments);
    forall k | 0 <= k < |narrated| ensures narrated[k] in narration.attachments { assert narrated[k] in narrated; }
  }

  lemma {:induction false} KidsOutcome(c: PublicationContext, s: State, path: TreePath, id: string,
                                       narration: Narration, event: string, k: nat)
    requires k <= |NarratedOf(narration.attachments)|
    requires DigestsTellApart(c.setup) && Inv(c.setup, s)
    ensures var (t, r) := PublishChildrenOf(c, s, path, id, narration, event, k);
      && Inv(c.setup, t) && Later(s, t)
      && (r.Ok? ==> KidsPublished(c.setup, t, id, narration, event, k) && r.value == Descendants(t, id, narration, k))
      && (r.Err? ==> r.error != EXCEEDED)
    decreases narration, 0, |NarratedOf(narration.attachments)| - k
  {
    hide *;
    LaterSelf(s);
    KidsUnfold(c, s, path, id, narration, event, k);
    if k < |NarratedOf(narration.attachments)| {
      var child, childId := NarratedOf(narration.attachments)[k], ChildRequestId(id, k);
      NodeOutcome(c, s, path + [k], childId, child.caption, "", child.narration, Some(event));
      var (t, r) := PublishNodeOf(c, s, path + [k], childId, child.caption, "", child.narration, Some(event));
      if !r.Err? {
        KidsOutcome(c, t, path, id, narration, event, k + 1);
        var (u, rest) := PublishChildrenOf(c, t, path, id, narration, event, k + 1);
        Chain(s, t, u);
        if !rest.Err? { OneMoreKid(c.setup, t, u, id, narration, event, k, r.value); }
      }
    } else {
      NoMoreKids(c.setup, s, id, narration, event);
    }
  }

  lemma NoMoreKids(setup: Setup, s: State, id: string, narration: Narration, event: string)
    ensures var n := |NarratedOf(narration.attachments)|;
      KidsPublished(setup, s, id, narration, event, n) && Descendants(s, id, narration, n) == []
  {
  }

  lemma KidsUnfold(c: PublicationContext, s: State, path: TreePath, id: string, narration: Narration, event: string,
                   k: nat)
    requires k <= |NarratedOf(narration.attachments)|
    ensures var narrated := NarratedOf(narration.attachments);
      if k == |narrated| then PublishChildrenOf(c, s, path, id, narration, event, k) == (s, Ok([]))
      else
        narrated[k] in narration.attachments && narrated[k].Narrated? &&
        var (t, child) := PublishNodeOf(c, s, path + [k], ChildRequestId(id, k), narrated[k].caption, "",
                                        narrated[k].narration, Some(event));
        if child.Err? then PublishChildrenOf(c, s, path, id, narration, event, k) == (t, Err(child.error))
        else
          var (u, rest) := PublishChildrenOf(c, t, path, id, narration, event, k + 1);
          PublishChildrenOf(c, s, path, id, narration, event, k)
            == if rest.Err? then (u, rest)
               else (u, Ok(child.value.childEventIds + [child.value.rootEventId] + rest.value))
  {
    hide PublishNodeOf, ChildRequestId, NarratedOf;
    var narrated := NarratedOf(narration.attachments);
    if k < |narrated| { assert narrated[k] in narrated; }
  }

  lemma OneMoreKid(setup: Setup, t: State, u: State, id: string, narration: Narration, event: string, k: nat,
                   p: TreePublication)
    requires k < |NarratedOf(narration.attachments)| && NarratedOf(narration.attachments)[k].Narrated?
    requires Later(t, u) && Inv(setup, u)
    requires Reported(setup, t, ChildRequestId(id, k), NarratedOf(narration.attachments)[k].narration, Some(event), p)
    requires KidsPublished(setup, u, id, narration, event, k + 1)
    ensures KidsPublished(setup, u, id, narration, event, k)
    ensures p.childEventIds + [p.rootEventId] + Descendants(u, id, narration, k + 1) == Descendants(u, id, narration, k)
  {
    hide NodePublished, EventOf, NarratedOf, TreePublished, Later, Inv, ChildRequestId;
    var child := NarratedOf(narration.attachments)[k];
    TreeStays(setup, t, u, ChildRequestId(id, k), child.narration, Some(event));
    DescendantsUnfold(u, id, narration, k);
    hide Descendants;
  }

  lemma DescendantsUnfold(s: State, id: string, narration: Narration, k: nat)
    requires k < |NarratedOf(narration.attachments)| && NarratedOf(narration.attachments)[k].Narrated?
    ensures var child := NarratedOf(narration.attachments)[k];
      Descendants(s, id, narration, k)
        == Descendants(s, ChildRequestId(id, k), child.narration, 0) + [EventOf(s, ChildRequestId(id, k))]
           + Descendants(s, id, narration, k + 1)
  {
    hide NarratedOf, EventOf, ChildRequestId;
  }

  // ----- any number of attempts -----

  /** One thing that happens to the daemon: an attempt to publish a tree, or any other action. */
  datatype Attempt = Publish(c: PublicationContext, tree: SpokenTree, signing: Signing) | Other(a: Action)

  ghost function Try(setup: Setup, s: State, attempt: Attempt): State {
    match attempt
    case Publish(c, tree, signing) => PublishTreeOf(c.(setup := setup), s, tree, signing).0
    case Other(a) => Do(setup, s, a)
  }

  ghost function TryAll(setup: Setup, s: State, attempts: seq<Attempt>): State {
    if attempts == [] then s
    else Try(setup, TryAll(setup, s, attempts[..|attempts| - 1]), attempts[|attempts| - 1])
  }

  lemma TryKeeps(setup: Setup, s: State, attempt: Attempt)
    requires DigestsTellApart(setup) && Inv(setup, s)
    ensures Inv(setup, Try(setup, s, attempt)) && Later(s, Try(setup, s, attempt))
  {
    match attempt
    case Publish(c, tree, signing) =>
      LaterReflexive(s);
      TreeUnfolds(c.(setup := setup), s, tree, signing);
      if signing.signer.Ok? { RootOutcome(c.(setup := setup, author := signing.signer.value), s, tree); }
      hide PublishRootOf, PublishTreeOf, Inv, Later;
    case Other(a) => StepKeeps(setup, s, a);
  }

  lemma {:induction false} TryAllKeeps(setup: Setup, s: State, attempts: seq<Attempt>)
    requires DigestsTellApart(setup) && Inv(setup, s)
    ensures Inv(setup, TryAll(setup, s, attempts)) && Later(s, TryAll(setup, s, attempts))
  {
    hide Inv, JobLater, Try;
    if attempts == [] {
      LaterReflexive(s);
    } else {
      var middle := TryAll(setup, s, attempts[..|attempts| - 1]);
      TryAllKeeps(setup, s, attempts[..|attempts| - 1]);
      TryKeeps(setup, middle, attempts[|attempts| - 1]);
      LaterTransitive(s, middle, TryAll(setup, s, attempts));
    }
  }

  /** A tree published after any number of failed attempts, restarts and other work: the root's and every narrated
      node's event is the only one NMP ever had for it, before or after; each child names its parent's event; the
      reported child ids are the descendants in post-order. Nothing that happens later changes any of it. */
  lemma TreeExactlyOnce(setup: Setup, attempts: seq<Attempt>, c: PublicationContext, tree: SpokenTree,
                        signing: Signing, more: seq<Attempt>)
    requires DigestsTellApart(setup) && c.setup == setup
    ensures
      var (t, r) := PublishTreeOf(c, TryAll(setup, EMPTY, attempts), tree, signing);
      && (r.Ok? ==> Reported(setup, t, tree.requestId, tree.narration, None, r.value)
                    && Reported(setup, TryAll(setup, t, more), tree.requestId, tree.narration, None, r.value))
      && (r.Err? ==> r.error != EXCEEDED)
  {
    EmptyIsSound(setup);
    TryAllKeeps(setup, EMPTY, attempts);
    var s := TryAll(setup, EMPTY, attempts);
    var (t, r) := PublishTreeOf(c, s, tree, signing);
    TreeErrors();
    LaterReflexive(s);
    TreeUnfolds(c, s, tree, signing);
    if signing.signer.Ok? { RootOutcome(c.(author := signing.signer.value), s, tree); }
    hide PublishRootOf, PublishTreeOf, Inv, TryAll, TreePublished;
    assert r.Ok? || r.Err?;
    if r.Ok? {
      TryAllKeeps(setup, t, more);
      TreeStays(setup, t, TryAll(setup, t, more), tree.requestId, tree.narration, None);
    }
  }

  lemma TreeErrors()
    ensures ProducerError.InvalidRequest("group_id") != EXCEEDED
    ensures forall reason: string :: Capability("request_identity", reason) != EXCEEDED
    ensures forall reason: string :: Capability("request_identity_cleanup", reason) != EXCEEDED
  {
    assert |"request_identity"| != |"publication"| && |"request_identity_cleanup"| != |"publication"|;
  }

  lemma RootOutcome(c: PublicationContext, s: State, tree: SpokenTree)
    requires DigestsTellApart(c.setup) && Inv(c.setup, s)
    ensures var (t, r) := PublishRootOf(c, s, tree);
      && Inv(c.setup, t) && Later(s, t)
      && (r.Ok? ==> Reported(c.setup, t, tree.requestId, tree.narration, None, r.value))
      && (r.Err? ==> r.error != EXCEEDED)
  {
    NodeOutcome(c, s, [], tree.requestId, tree.title, tree.summary.UnwrapOr(""), tree.narration, None);
    hide PublishNodeOf, Inv, Later, Reported;
  }

  // ----- trees that can never be published -----

  /** The event the node at `path` is attached to: its parent's, or the whole tree's link for the root. */
  ghost function LinkAt(s: State, id: string, parent: Option<string>, path: TreePath): Option<string> {
    if path == [] then parent else Some(EventOf(s, NodeId(id, path[..|path| - 1])))
  }

  lemma {:induction false} PublishedAt(setup: Setup, s: State, id: string, narration: Narration, parent: Option<string>,
                                       path: TreePath)
    requires TreePublished(setup, s, id, narration, parent) && Within(narration, path)
    ensures NodePublished(setup, s, NodeId(id, path), LinkAt(s, id, parent, path))
    decreases |path|
  {
    hide NodePublished, EventOf, NarratedOf, ChildRequestId, NodeId;
    NodeIdOfRoot(id);
    if path != [] {
      var k, rest := path[0], path[1..];
      var child := NarratedOf(narration.attachments)[k];
      assert path == [k] + rest;
      NodeIdFront(id, k, rest);
      PublishedAt(setup, s, ChildRequestId(id, k), child.narration, Some(EventOf(s, id)), rest);
      if rest == [] {
        assert path[..|path| - 1] == [];
      } else {
        assert path[..|path| - 1] == [k] + rest[..|rest| - 1];
        NodeIdFront(id, k, rest[..|rest| - 1]);
      }
    }
  }

  lemma OneLink(setup: Setup, s: State, id: string, parent: Option<string>, parent2: Option<string>)
    requires NodePublished(setup, s, id, parent) && NodePublished(setup, s, id, parent2)
    ensures parent == parent2
  {
    hide EventOf;
  }

  /** In a published tree, nodes that share an id are attached to one and the same event. */
  lemma SharedIdsShareLinks(setup: Setup, s: State, root: string, narration: Narration, parent: Option<string>,
                            a: TreePath, b: TreePath)
    requires TreePublished(setup, s, root, narration, parent) && Within(narration, a) && Within(narration, b)
    requires SharesId(root, a, b)
    ensures NodeId(root, a) == NodeId(root, b) && LinkAt(s, root, parent, a) == LinkAt(s, root, parent, b)
  {
    SharesIdExact(root, a, b);
    PublishedAt(setup, s, root, narration, parent, a);
    PublishedAt(setup, s, root, narration, parent, b);
    hide *;
    OneLink(setup, s, NodeId(root, a), LinkAt(s, root, parent, a), LinkAt(s, root, parent, b));
  }

  /** Event ids tell apart items with different links, as collision-free hashes of their tags do. */
  ghost predicate LinksTellApart(host: Host) {
    forall a: FrozenSpokenItem, b: FrozenSpokenItem ::
      SpokenId(host, a) == SpokenId(host, b) && SpokenId(host, a) != "" ==> a.attach == b.attach
  }

  /** Published nodes with one event are attached to one event. */
  lemma SameEventSameLink(setup: Setup, s: State, id: string, parent: Option<string>, id2: string,
                          parent2: Option<string>)
    requires Inv(setup, s) && LinksTellApart(setup.host)
    requires NodePublished(setup, s, id, parent) && NodePublished(setup, s, id2, parent2)
             && EventOf(s, id) == EventOf(s, id2)
    ensures parent == parent2
  {
    JobAt(setup, s, id);
    JobAt(setup, s, id2);
    hide Inv, SpokenId, ValidateSpokenItem, FrozenItem;
  }

  /** In a published tree an event belongs to one depth. */
  lemma {:induction false} EventsKeepDepth(setup: Setup, s: State, root: string, narration: Narration, a: TreePath,
                                           b: TreePath)
    requires Inv(setup, s) && LinksTellApart(setup.host) && TreePublished(setup, s, root, narration, None)
    requires Within(narration, a) && Within(narration, b) && EventOf(s, NodeId(root, a)) == EventOf(s, NodeId(root, b))
    ensures |a| == |b|
    decreases |a|
  {
    hide Inv, TreePublished, Within, NodeId, EventOf, NodePublished, LinksTellApart;
    PublishedAt(setup, s, root, narration, None, a);
    PublishedAt(setup, s, root, narration, None, b);
    SameEventSameLink(setup, s, NodeId(root, a), LinkAt(s, root, None, a), NodeId(root, b), LinkAt(s, root, None, b));
    if a != [] && b != [] {
      ParentIsWithin(narration, a);
      ParentIsWithin(narration, b);
      EventsKeepDepth(setup, s, root, narration, a[..|a| - 1], b[..|b| - 1]);
    }
  }

  lemma {:induction false} ParentIsWithin(narration: Narration, path: TreePath)
    requires path != [] && Within(narration, path)
    ensures Within(narration, path[..|path| - 1])
    decreases |path|
  {
    hide NarratedOf;
    if |path| > 1 {
      var child := NarratedOf(narration.attachments)[path[0]].narration;
      ParentIsWithin(child, path[1..]);
      assert path[..|path| - 1][1..] == path[1..][..|path| - 2];
    }
  }

  /** Nodes of different depths that share an id are never published together; when one of them is the root, this needs
      nothing of the hashes, for the root is attached to nothing. */
  lemma ClashIsUnpublished(setup: Setup, s: State, root: string, narration: Narration, a: TreePath, b: TreePath)
    requires Inv(setup, s) && Within(narration, a) && Within(narration, b) && |a| < |b| && SharesId(root, a, b)
    requires a == [] || LinksTellApart(setup.host)
    ensures !TreePublished(setup, s, root, narration, None)
  {
    hide Inv, TreePublished, SharesId, Within, NodeId, EventOf, LinksTellApart;
    if TreePublished(setup, s, root, narration, None) {
      SharedIdsShareLinks(setup, s, root, narration, None, a, b);
      if a != [] { EventsKeepDepth(setup, s, root, narration, a, b); }
    }
  }

  /** A tree in which two nodes of different depths share an id is never published, on any attempt in any sound
      state. */
  lemma ClashingTreesNeverPublish(c: PublicationContext, s: State, tree: SpokenTree, signing: Signing,
                                  a: TreePath, b: TreePath)
    requires DigestsTellApart(c.setup) && Inv(c.setup, s)
    requires Within(tree.narration, a) && Within(tree.narration, b) && |a| < |b| && SharesId(tree.requestId, a, b)
    requires a == [] || LinksTellApart(c.setup.host)
    ensures PublishTreeOf(c, s, tree, signing).1.Err?
  {
    hide PublishTreeOf, PublishRootOf, Inv, Later, TreePublished, SharesId, Within, LinksTellApart;
    TreeUnfolds(c, s, tree, signing);
    if signing.signer.Ok? {
      var d := c.(author := signing.signer.value);
      RootOutcome(d, s, tree);
      ClashIsUnpublished(c.setup, PublishRootOf(d, s, tree).0, tree.requestId, tree.narration, a, b);
    }
    var r := PublishTreeOf(c, s, tree, signing).1;
    assert r.Ok? || r.Err?;
  }

  /** How a clash shows: a node whose id is journaled for another link is refused as a conflict, and nothing changes,
      whenever its files and the journal can be read. */
  lemma OtherLinkConflicts(c: PublicationContext, s: State, path: TreePath, id: string, title: string, summary: string,
                           narration: Narration, parent: Option<string>)
    requires DigestsTellApart(c.setup) && Inv(c.setup, s) && id in s.jobs
    requires s.jobs[id].request.attach != if parent.Some? then Some(AttachLink(parent.value)) else None
    requires
      var now := c.env(path);
      now.text.Ok? && DurableOf(narration.attachments, now.uploads).Ok? && now.worlds(0).readable
    ensures PublishNodeOf(c, s, path, id, title, summary, narration, parent) == (s, Err(RequestConflict(id)))
  {
    hide PublishNodeOf, PublishAsOf, Inv, DurableOf, AdmitOf, PublishChildrenOf;
    var now := c.env(path);
    var durable := DurableOf(narration.attachments, now.uploads).value;
    var request := NodeRequest(c, id, title, summary, now.text.value, durable, narration.questions, parent);
    NodeUnfolds(c, s, path, id, title, summary, narration, parent);
    RequestOf(c, id, title, summary, now.text.value, durable, narration.questions, parent);
    AdmissionConflicts(c.setup, s, request, c.author, c.createdAt, now.worlds(0));
    PublishAsUnfolds(c.setup, s, request, c.author, c.createdAt, now.worlds);
    assert s.(jobs := s.jobs) == s;
  }

  lemma AdmissionConflicts(setup: Setup, s: State, request: ProducerRequest, author: string, createdAt: nat, w: World)
    requires DigestsTellApart(setup) && Inv(setup, s) && request.requestId in s.jobs && w.readable
    requires s.jobs[request.requestId].request != request
    ensures AdmitOf(setup, s.jobs, request, author, createdAt, w) == (s.jobs, Err(RequestConflict(request.requestId)))
  {
    assert JobSound(setup, s.nmp.writes, request.requestId, s.jobs[request.requestId]);
    hide Inv, JobSound, ValidRequestId;
  }

  // ----- parents before children -----

  /** A journaled child's parent is published, and every write of the child came after the parent's. */
  ghost predicate ParentFirst(s: State, child: string, parent: string) {
    child in s.jobs ==>
      && parent in s.jobs && s.jobs[parent].phase.Published?
      && forall i | 0 <= i < |s.nmp.writes| :: s.nmp.writes[i].Spoken? && s.nmp.writes[i].requestId == child ==>
           s.jobs[parent].phase.receiptId < i
  }

  ghost predicate ParentsFirst(s: State, links: set<(string, string)>) {
    forall l <- links :: ParentFirst(s, l.0, l.1)
  }

  /** Touching `id` is in order when it is nobody's child or its parent is published. */
  ghost predicate MayTouch(s: State, links: set<(string, string)>, id: string) {
    forall l <- links :: l.0 == id ==> l.1 in s.jobs && s.jobs[l.1].phase.Published?
  }

  lemma NoWriteWithoutJob(setup: Setup, s: State, id: string)
    requires Inv(setup, s) && id !in s.jobs
    ensures forall write <- s.nmp.writes :: write.Spoken? ==> write.requestId != id
  {
    forall write | write in s.nmp.writes && write.Spoken? ensures write.requestId != id {
      assert WriteSound(s.jobs, write);
    }
  }

  lemma LinkStays(setup: Setup, s: State, t: State, l: (string, string), id: string)
    requires Inv(setup, s) && Later(s, t) && Touches(s, t, id) && ParentFirst(s, l.0, l.1)
    requires l.0 == id && l.0 in t.jobs && l.0 !in s.jobs ==> l.1 in s.jobs && s.jobs[l.1].phase.Published?
    ensures ParentFirst(t, l.0, l.1)
  {
    if l.0 in t.jobs {
      if l.0 !in s.jobs { NoWriteWithoutJob(setup, s, l.0); }
      assert JobLater(s.jobs[l.1], t.jobs[l.1]);
      assert JobSound(setup, s.nmp.writes, l.1, s.jobs[l.1]);
      hide Inv, Later, JobSound;
      forall i | 0 <= i < |t.nmp.writes| && t.nmp.writes[i].Spoken? && t.nmp.writes[i].requestId == l.0
        ensures t.jobs[l.1].phase.receiptId < i
      {
        if i < |s.nmp.writes| { assert t.nmp.writes[i] == s.nmp.writes[i] && s.nmp.writes[i] in s.nmp.writes; }
      }
    }
  }

  lemma LinksStay(setup: Setup, s: State, t: State, links: set<(string, string)>, id: string)
    requires Inv(setup, s) && Later(s, t) && Touches(s, t, id) && ParentsFirst(s, links)
    requires MayTouch(s, links, id) || id in s.jobs || id !in t.jobs
    ensures ParentsFirst(t, links)
  {
    hide Inv, Later, Touches, ParentFirst;
    forall l | l in links ensures ParentFirst(t, l.0, l.1) { LinkStays(setup, s, t, l, id); }
  }

  ghost predicate OneParent(links: set<(string, string)>) {
    forall l <- links, m <- links :: l.0 == m.0 ==> l == m
  }

  lemma {:induction false} NodeInOrder(c: PublicationContext, s: State, path: TreePath, id: string, title: string,
                                       summary: string, narration: Narration, parent: Option<string>,
                                       links: set<(string, string)>)
    requires DigestsTellApart(c.setup) && Inv(c.setup, s) && ParentsFirst(s, links) && OneParent(links)
    requires LinksOf(id, narration, 0) <= links && MayTouch(s, links, id)
    ensures ParentsFirst(PublishNodeOf(c, s, path, id, title, summary, narration, parent).0, links)
    decreases narration, 1, 0
  {
    hide *;
    NodeUnfolds(c, s, path, id, title, summary, narration, parent);
    var now := c.env(path);
    if now.text.Ok? {
      var durable := DurableOf(narration.attachments, now.uploads);
      if !durable.Err? {
        var request := NodeRequest(c, id, title, summary, now.text.value, durable.value, narration.questions, parent);
        RequestOf(c, id, title, summary, now.text.value, durable.value, narration.questions, parent);
        NodeRecorded(c, s, request, parent, now.worlds);
        var (t, r) := PublishAsOf(c.setup, s, request, c.author, c.createdAt, now.worlds);
        LinksStay(c.setup, s, t, links, id);
        if !r.Err? {
          assert r.Ok?;
          NodeIsPublished(c.setup, t, id, parent);
          KidsInOrder(c, t, path, id, narration, r.value.phase.eventId, 0, links);
        }
      }
    }
  }

  lemma NodeIsPublished(setup: Setup, s: State, id: string, parent: Option<string>)
    requires NodePublished(setup, s, id, parent)
    ensures id in s.jobs && s.jobs[id].phase.Published?
  {
  }

  lemma {:induction false} KidsInOrder(c: PublicationContext, s: State, path: TreePath, id: string,
                                       narration: Narration, event: string, k: nat, links: set<(string, string)>)
    requires k <= |NarratedOf(narration.attachments)|
    requires DigestsTellApart(c.setup) && Inv(c.setup, s) && ParentsFirst(s, links) && OneParent(links)
    requires LinksOf(id, narration, k) <= links && id in s.jobs && s.jobs[id].phase.Published?
    ensures ParentsFirst(PublishChildrenOf(c, s, path, id, narration, event, k).0, links)
    decreases narration, 0, |NarratedOf(narration.attachments)| - k
  {
    hide *;
    KidsUnfold(c, s, path, id, narration, event, k);
    if k < |NarratedOf(narration.attachments)| {
      var child, childId := NarratedOf(narration.attachments)[k], ChildRequestId(id, k);
      KidLinks(s, id, narration, k, links);
      NodeInOrder(c, s, path + [k], childId, child.caption, "", child.narration, Some(event), links);
      NodeOutcome(c, s, path + [k], childId, child.caption, "", child.narration, Some(event));
      var (t, r) := PublishNodeOf(c, s, path + [k], childId, child.caption, "", child.narration, Some(event));
      StaysPublished(s, t, id);
      if !r.Err? { KidsInOrder(c, t, path, id, narration, event, k + 1, links); }
    }
  }

  lemma StaysPublished(s: State, t: State, id: string)
    requires Later(s, t) && id in s.jobs && s.jobs[id].phase.Published?
    ensures id in t.jobs && t.jobs[id].phase.Published?
  {
    assert JobLater(s.jobs[id], t.jobs[id]);
  }

  lemma KidLinks(s: State, id: string, narration: Narration, k: nat, links: set<(string, string)>)
    requires k < |NarratedOf(narration.attachments)| && LinksOf(id, narration, k) <= links && OneParent(links)
    requires id in s.jobs && s.jobs[id].phase.Published?
    ensures var child := NarratedOf(narration.attachments)[k];
      && child.Narrated? && child in narration.attachments
      && LinksOf(ChildRequestId(id, k), child.narration, 0) <= links && LinksOf(id, narration, k + 1) <= links
      && MayTouch(s, links, ChildRequestId(id, k))
  {
    hide NarratedOf, ChildRequestId;
    var child := NarratedOf(narration.attachments)[k];
    assert child in NarratedOf(narration.attachments);
    assert (ChildRequestId(id, k), id) in LinksOf(id, narration, k);
  }

  /** The attempt publishes a tree of the family, or does not admit one of its child ids by hand. */
  ghost predicate InFamily(attempt: Attempt, links: set<(string, string)>) {
    match attempt
    case Publish(_, tree, _) =>
      LinksOf(tree.requestId, tree.narration, 0) <= links && forall l <- links :: l.0 != tree.requestId
    case Other(Admit(request, _, _, _)) => forall l <- links :: l.0 != request.requestId
    case Other(_) => true
  }

  lemma TryInOrder(setup: Setup, s: State, attempt: Attempt, links: set<(string, string)>)
    requires DigestsTellApart(setup) && Inv(setup, s) && ParentsFirst(s, links) && OneParent(links)
             && InFamily(attempt, links)
    ensures ParentsFirst(Try(setup, s, attempt), links)
  {
    match attempt
    case Publish(c, tree, signing) =>
      assert MayTouch(s, links, tree.requestId);
      TreeUnfolds(c.(setup := setup), s, tree, signing);
      if signing.signer.Ok? {
        var d := c.(setup := setup, author := signing.signer.value);
        NodeInOrder(d, s, [], tree.requestId, tree.title, tree.summary.UnwrapOr(""), tree.narration, None, links);
      }
      hide PublishRootOf, PublishTreeOf, PublishNodeOf, Inv, ParentsFirst;
    case Other(a) => ActionInOrder(setup, s, a, links);
  }

  lemma ActionInOrder(setup: Setup, s: State, a: Action, links: set<(string, string)>)
    requires Inv(setup, s) && ParentsFirst(s, links) && InFamily(Other(a), links)
    ensures ParentsFirst(Do(setup, s, a), links)
  {
    StepKeeps(setup, s, a);
    var t := Do(setup, s, a);
    match a
    case Admit(request, author, createdAt, w) =>
      AdmitTouches(setup, s, request, author, createdAt, w);
      hide AdmitOf, Inv, ParentsFirst, Later, Touches;
      assert MayTouch(s, links, request.requestId);
      LinksStay(setup, s, t, links, request.requestId);
    case Advance(id, w) =>
      AdvanceTouches(setup, s, id, w);
      AdvanceCreatesNothing(setup, s, id, w);
      hide AdvanceOf, Inv, ParentsFirst, Later, Touches;
      LinksStay(setup, s, t, links, id);
    case Restart => hide Inv;
    case OtherWrite(event) =>
      hide Inv;
      forall l | l in links ensures ParentFirst(t, l.0, l.1) { assert ParentFirst(s, l.0, l.1); }
  }

  lemma AdvanceCreatesNothing(setup: Setup, s: State, id: string, w: World)
    requires Inv(setup, s)
    ensures id in AdvanceOf(setup, s, id, w).0.jobs ==> id in s.jobs
  {
    assert id in s.jobs ==> JobSound(setup, s.nmp.writes, id, s.jobs[id]);
    AdvanceShape(setup, s, id, w);
    hide AdvanceOf, EffectOf, Inv;
  }

  /** Through any number of attempts on trees whose child ids each have one parent, NMP accepts a parent before any of
      its children, and no child is even journaled until its parent is published. */
  lemma {:induction false} ParentsAreFirst(setup: Setup, attempts: seq<Attempt>, links: set<(string, string)>)
    requires DigestsTellApart(setup) && OneParent(links) && forall attempt <- attempts :: InFamily(attempt, links)
    ensures ParentsFirst(TryAll(setup, EMPTY, attempts), links)
  {
    hide Inv, Try, InFamily;
    if attempts != [] {
      var init := attempts[..|attempts| - 1];
      assert attempts[|attempts| - 1] in attempts;
      ParentsAreFirst(setup, init, links);
      EmptyIsSound(setup);
      TryAllKeeps(setup, EMPTY, init);
      TryInOrder(setup, TryAll(setup, EMPTY, init), attempts[|attempts| - 1], links);
    }
  }

  /** In particular for one tree whose nodes have their own ids, retried any number of times. */
  lemma RetriedTreeInOrder(setup: Setup, tree: SpokenTree, attempts: seq<Attempt>)
    requires DigestsTellApart(setup) && DistinctIds(tree.requestId, tree.narration)
    requires forall attempt <- attempts :: if attempt.Publish? then attempt.tree == tree else !attempt.a.Admit?
    ensures ParentsFirst(TryAll(setup, EMPTY, attempts), LinksOf(tree.requestId, tree.narration, 0))
  {
    DistinctIsRooted(tree.requestId, tree.narration);
    ParentsAreFirst(setup, attempts, LinksOf(tree.requestId, tree.narration, 0));
  }
}
