/** `ProductionProducer` (daemon/src/production.rs): publishing one item, and a whole spoken tree. */
module Production {
  import opened Contract
  import opened Text
  import opened Jobs
  import opened Runner

  datatype Narration = Narration(message: string, questions: seq<Question>, attachments: seq<TreeAttachment>)

  datatype TreeAttachment = File(caption: string, file: string) | Narrated(caption: string, narration: Narration)

  datatype SpokenTree = SpokenTree(
    requestId: string, groupId: string, title: string, summary: Option<string>, narration: Narration)

  datatype TreePublication = TreePublication(rootEventId: string, childEventIds: seq<string>)

  /** A node's position: the index of each narrated attachment on the way down. */
  type TreePath = seq<nat>

  /** The world while one node is published: its message file, the upload of its k-th attachment, and the
      answers to its admission (0) and its advances (1 to 6). */
  datatype Moment = Moment(text: Result<string, string>, uploads: nat -> Result<DurableArtifact, string>,
                           worlds: nat -> World)

  type Moments = TreePath -> Moment

  const EXCEEDED := Capability("publication", "producer exceeded its bounded stage count")

  // ----- publish_as -----

  /** The stage loop from its k-th iteration. */
  ghost function StagesOf(setup: Setup, s: State, id: string, job: JobRecord, worlds: nat -> World, k: nat)
    : (State, Outcome)
    requires 1 <= k <= 7
    decreases 7 - k
  {
    if job.phase.Published? then (s, Ok(job))
    else if k == 7 then (s, Err(EXCEEDED))
    else
      var (t, r) := AdvanceOf(setup, s, id, worlds(k));
      if r.Err? then (t, r) else StagesOf(setup, t, id, r.value, worlds, k + 1)
  }

  ghost function PublishAsOf(setup: Setup, s: State, request: ProducerRequest, author: string, createdAt: nat,
                       worlds: nat -> World): (State, Outcome)
  {
    var (jobs, r) := AdmitOf(setup, s.jobs, request, author, createdAt, worlds(0));
    if r.Err? then (s.(jobs := jobs), r) else StagesOf(setup, s.(jobs := jobs), request.requestId, r.value, worlds, 1)
  }

  lemma PublishAsUnfolds(setup: Setup, s: State, request: ProducerRequest, author: string, createdAt: nat,
                         worlds: nat -> World)
    ensures var (jobs, r) := AdmitOf(setup, s.jobs, request, author, createdAt, worlds(0));
      PublishAsOf(setup, s, request, author, createdAt, worlds)
        == if r.Err? then (s.(jobs := jobs), r)
           else StagesOf(setup, s.(jobs := jobs), request.requestId, r.value, worlds, 1)
  {
    hide AdmitOf, StagesOf;
  }

  lemma StagesUnfold(setup: Setup, s: State, id: string, job: JobRecord, worlds: nat -> World, k: nat)
    requires 1 <= k <= 7
    ensures job.phase.Published? ==> StagesOf(setup, s, id, job, worlds, k) == (s, Ok(job))
    ensures !job.phase.Published? && k == 7 ==> StagesOf(setup, s, id, job, worlds, k) == (s, Err(EXCEEDED))
    ensures !job.phase.Published? && k < 7 ==>
      var (t, r) := AdvanceOf(setup, s, id, worlds(k));
      StagesOf(setup, s, id, job, worlds, k) == if r.Err? then (t, r)
          else StagesOf(setup, t, id, r.value, worlds, k + 1)
  {
    hide AdvanceOf;
  }

  // ----- the tree -----

  /** `child_request_id`: at most 60 characters of the parent's id, a dash and the index. */
  function ChildRequestId(parent: string, index: nat): string {
    (if |parent| <= 60 then parent else parent[..60]) + (['-'] + Decimal(index))
  }

  function NarratedOf(attachments: seq<TreeAttachment>): (list: seq<TreeAttachment>)
    ensures forall a <- list :: a in attachments && a.Narrated?
  {
    if attachments == [] then []
    else
      var rest, last := NarratedOf(attachments[..|attachments| - 1]), attachments[|attachments| - 1];
      if last.Narrated? then rest + [last] else rest
  }

  /** The uploads of the file attachments in order, or the first failure. */
  function DurableOf(attachments: seq<TreeAttachment>, uploads: nat -> Result<DurableArtifact, string>)
    : Result<seq<DurableArtifact>, string>
  {
    if attachments == [] then Ok([])
    else
      var k := |attachments| - 1;
      var before :- DurableOf(attachments[..k], uploads);
      if attachments[k].Narrated? then Ok(before)
      else
        var artifact :- uploads(k);
        Ok(before + [artifact])
  }

  /** What one publication of a tree uses throughout. */
  datatype PublicationContext = PublicationContext(
    setup: Setup, voice: string, agentName: string, author: string, createdAt: nat, env: Moments)

  function NodeRequest(c: PublicationContext, id: string, title: string, summary: string, body: string,
                       attachments: seq<DurableArtifact>, questions: seq<Question>,
                       parent: Option<string>): ProducerRequest
  {
    ProducerRequest(id, c.setup.host.groupId, c.voice, c.agentName, title, summary, body, attachments, questions,
                    if parent.Some? then Some(AttachLink(parent.value)) else None)
  }

  /** `publish_node`: the node's event id and the event ids of its narrated descendants. */
  ghost function PublishNodeOf(c: PublicationContext, s: State, path: TreePath, id: string, title: string,
                               summary: string, narration: Narration, parent: Option<string>)
    : (State, Result<TreePublication, ProducerError>)
    decreases narration, 1, 0
  {
    var now := c.env(path);
    if now.text.Err? then (s, Err(Capability("read_message", now.text.error)))
    else
      var durable := DurableOf(narration.attachments, now.uploads);
      if durable.Err? then (s, Err(Capability("attachment_upload", durable.error)))
      else
        var request := NodeRequest(c, id, title, summary, now.text.value, durable.value, narration.questions, parent);
        var (t, r) := PublishAsOf(c.setup, s, request, c.author, c.createdAt, now.worlds);
        if r.Err? then (t, Err(r.error))
        else if !r.value.phase.Published? then
          (t, Err(Capability("publication", "spoken node did not reach publication")))
        else
          var event := r.value.phase.eventId;
          var (u, below) := PublishChildrenOf(c, t, path, id, narration, event, 0);
          if below.Err? then (u, Err(below.error)) else (u, Ok(TreePublication(event, below.value)))
  }

  /** The loop over a node's narrated attachments from the k-th. */
  ghost function PublishChildrenOf(c: PublicationContext, s: State, path: TreePath, id: string, narration: Narration,
                                   event: string, k: nat)
    : (State, Result<seq<string>, ProducerError>)
    requires k <= |NarratedOf(narration.attachments)|
    decreases narration, 0, |NarratedOf(narration.attachments)| - k
  {
    var narrated := NarratedOf(narration.attachments);
    if k == |narrated| then (s, Ok([]))
    else
      assert narrated[k] in narration.attachments;
      var (t, child) := PublishNodeOf(c, s, path + [k], ChildRequestId(id, k), narrated[k].caption, "",
                                      narrated[k].narration, Some(event));
      if child.Err? then (t, Err(child.error))
      else
        var (u, rest) := PublishChildrenOf(c, t, path, id, narration, event, k + 1);
        if rest.Err? then (u, rest)
        else (u, Ok(child.value.childEventIds + [child.value.rootEventId] + rest.value))
  }

  /** Opening the request's signing identity, which yields its author, and closing it afterwards. */
  datatype Signing = Signing(signer: Result<string, string>, closed: Result<(), string>)

  /** A failed cleanup hides whatever the publication returned. */
  function Closed<T>(signing: Signing, r: Result<T, ProducerError>): Result<T, ProducerError> {
    if signing.closed.Err? then Err(Capability("request_identity_cleanup", signing.closed.error)) else r
  }

  /** `publish`: one request under the configured group, signed as the request's identity. */
  ghost function PublishOf(setup: Setup, s: State, request: ProducerRequest, createdAt: nat, signing: Signing,
                           worlds: nat -> World): (State, Outcome)
  {
    if request.groupId != setup.host.groupId then (s, Err(InvalidRequest("group_id")))
    else if signing.signer.Err? then (s, Err(Capability("request_identity", signing.signer.error)))
    else
      var (t, r) := PublishAsOf(setup, s, request, signing.signer.value, createdAt, worlds);
      (t, Closed(signing, r))
  }

  /** `publish_tree`: the root, then every narrated child, signed as the request's identity. */
  ghost function PublishTreeOf(c: PublicationContext, s: State, tree: SpokenTree, signing: Signing)
    : (State, Result<TreePublication, ProducerError>)
  {
    if tree.groupId != c.setup.host.groupId then (s, Err(InvalidRequest("group_id")))
    else if signing.signer.Err? then (s, Err(Capability("request_identity", signing.signer.error)))
    else
      var (t, r) := PublishRootOf(c.(author := signing.signer.value), s, tree);
      (t, Closed(signing, r))
  }

  ghost function PublishRootOf(c: PublicationContext, s: State, tree: SpokenTree)
    : (State, Result<TreePublication, ProducerError>)
  {
    PublishNodeOf(c, s, [], tree.requestId, tree.title, tree.summary.UnwrapOr(""), tree.narration, None)
  }

  class ProductionProducer {
    const runner: ProducerRunner
    const voice: string

    constructor (runner: ProducerRunner, voice: string)
      requires runner.Valid()
      ensures this.runner == runner && this.voice == voice
    {
      this.runner, this.voice := runner, voice;
    }

    method PublishAs(request: ProducerRequest, author: string, createdAt: nat, worlds: nat -> World)
      returns (r: Outcome)
      requires runner.Valid()
      modifies runner.journal, runner.publisher
      ensures runner.Valid()
      ensures (runner.Contents(), r)
          == PublishAsOf(runner.setup, old(runner.Contents()), request, author, createdAt, worlds)
    {
      hide *;
      ghost var before := runner.Contents();
      PublishAsUnfolds(runner.setup, before, request, author, createdAt, worlds);
      r := runner.Admit(request, author, createdAt, worlds(0));
      if r.Err? { return; }
      var job := r.value;
      ghost var result := PublishAsOf(runner.setup, before, request, author, createdAt, worlds);
      for k := 1 to 7
        invariant runner.Valid()
        invariant StagesOf(runner.setup, runner.Contents(), request.requestId, job, worlds, k) == result
      {
        StagesUnfold(runner.setup, runner.Contents(), request.requestId, job, worlds, k);
        if job.phase.Published? { return Ok(job); }
        var next := runner.Advance(request.requestId, worlds(k));
        if next.Err? { return next; }
        job := next.value;
      }
      StagesUnfold(runner.setup, runner.Contents(), request.requestId, job, worlds, 7);
      if job.phase.Published? { return Ok(job); }
      return Err(EXCEEDED);
    }

    method PublishNode(c: PublicationContext, path: TreePath, id: string, title: string, summary: string,
                       narration: Narration, parent: Option<string>, children: seq<string>)
      returns (r: Result<string, ProducerError>, publishedChildren: seq<string>)
      requires runner.Valid() && c.setup == runner.setup && c.voice == voice
      modifies runner.journal, runner.publisher
      ensures runner.Valid()
      ensures var (t, published) :=
          PublishNodeOf(c, old(runner.Contents()), path, id, title, summary, narration, parent);
        && runner.Contents() == t
        && (if published.Err? then r == Err(published.error)
            else r == Ok(published.value.rootEventId)
                 && publishedChildren == children + published.value.childEventIds)
      decreases narration
    {
      hide *;
      ghost var s := runner.Contents();
      NodeUnfolds(c, s, path, id, title, summary, narration, parent);
      publishedChildren := children;
      var now := c.env(path);
      if now.text.Err? { return Err(Capability("read_message", now.text.error)), children; }
      var uploaded, narrated := Sort(narration.attachments, now.uploads);
      if uploaded.Err? { return Err(Capability("attachment_upload", uploaded.error)), children; }
      var request := NodeRequest(c, id, title, summary, now.text.value, uploaded.value, narration.questions, parent);
      var job := PublishAs(request, c.author, c.createdAt, now.worlds);
      if job.Err? { return Err(job.error), children; }
      if !job.value.phase.Published? {
        return Err(Capability("publication", "spoken node did not reach publication")), children;
      }
      var event := job.value.phase.eventId;
      ghost var all := PublishChildrenOf(c, runner.Contents(), path, id, narration, event, 0);
      NothingDone(all, children);
      for k := 0 to |narrated|
        invariant runner.Valid()
        invariant Continues(all, PublishChildrenOf(c, runner.Contents(), path, id, narration, event, k),
                            children, publishedChildren)
      {
        ChildrenUnfold(c, runner.Contents(), path, id, narration, event, k, all, children, publishedChildren);
        assert narrated[k] in narration.attachments;
        var child;
        child, publishedChildren := PublishNode(c, path + [k], ChildRequestId(id, k), narrated[k].caption, "",
                                                 narrated[k].narration, Some(event), publishedChildren);
        if child.Err? { return child, publishedChildren; }
        publishedChildren := publishedChildren + [child.value];
      }
      AllDone(c, runner.Contents(), path, id, narration, event, all, children, publishedChildren);
      return Ok(event), publishedChildren;
    }

    /** Files uploaded in order and narrated attachments set aside. */
    method Sort(attachments: seq<TreeAttachment>, uploads: nat -> Result<DurableArtifact, string>)
      returns (durable: Result<seq<DurableArtifact>, string>, narrated: seq<TreeAttachment>)
      ensures durable == DurableOf(attachments, uploads)
      ensures durable.Ok? ==> narrated == NarratedOf(attachments)
    {
      var files: seq<DurableArtifact> := [];
      narrated := [];
      for k := 0 to |attachments|
        invariant DurableOf(attachments[..k], uploads) == Ok(files)
        invariant narrated == NarratedOf(attachments[..k])
      {
        assert attachments[..k + 1][..k] == attachments[..k];
        match attachments[k]
        case File(_, _) =>
          var artifact := uploads(k);
          if artifact.Err? {
            FirstFailure(attachments, uploads, k + 1);
            return Err(artifact.error), narrated;
          }
          files := files + [artifact.value];
        case Narrated(_, _) => narrated := narrated + [attachments[k]];
      }
      assert attachments[..|attachments|] == attachments;
      return Ok(files), narrated;
    }

    method Publish(request: ProducerRequest, createdAt: nat, signing: Signing, worlds: nat -> World)
      returns (r: Outcome)
      requires runner.Valid()
      modifies runner.journal, runner.publisher
      ensures runner.Valid()
      ensures (runner.Contents(), r)
          == PublishOf(runner.setup, old(runner.Contents()), request, createdAt, signing, worlds)
    {
      hide PublishAsOf;
      if request.groupId != runner.setup.host.groupId { return Err(InvalidRequest("group_id")); }
      if signing.signer.Err? { return Err(Capability("request_identity", signing.signer.error)); }
      var result := PublishAs(request, signing.signer.value, createdAt, worlds);
      if signing.closed.Err? { return Err(Capability("request_identity_cleanup", signing.closed.error)); }
      return result;
    }

    method PublishTree(c: PublicationContext, tree: SpokenTree, signing: Signing)
      returns (r: Result<TreePublication, ProducerError>)
      requires runner.Valid() && c.setup == runner.setup && c.voice == voice
      modifies runner.journal, runner.publisher
      ensures runner.Valid()
      ensures (runner.Contents(), r) == PublishTreeOf(c, old(runner.Contents()), tree, signing)
    {
      hide *;
      ghost var s := runner.Contents();
      TreeUnfolds(c, s, tree, signing);
      if tree.groupId != runner.setup.host.groupId { return Err(InvalidRequest("group_id")); }
      if signing.signer.Err? { return Err(Capability("request_identity", signing.signer.error)); }
      var d := c.(author := signing.signer.value);
      var summary := tree.summary.UnwrapOr("");
      var root, children := PublishNode(d, [], tree.requestId, tree.title, summary, tree.narration, None, []);
      ghost var published := PublishRootOf(d, s, tree).1;
      assert published.Err?
          || published == Ok(TreePublication(published.value.rootEventId, published.value.childEventIds));
      if signing.closed.Err? { return Err(Capability("request_identity_cleanup", signing.closed.error)); }
      if root.Err? { return Err(root.error); }
      assert [] + published.value.childEventIds == published.value.childEventIds;
      return Ok(TreePublication(root.value, children));
    }
  }

  /** `rest` is what is left of `all` once `done` has been published after `before`. */
  ghost predicate Continues(all: (State, Result<seq<string>, ProducerError>),
                            rest: (State, Result<seq<string>, ProducerError>), before: seq<string>, done: seq<string>)
  {
    && all.0 == rest.0
    && (rest.1.Err? ==> all.1 == rest.1)
    && (rest.1.Ok? ==> all.1.Ok? && before + all.1.value == done + rest.1.value)
  }

  lemma NothingDone(all: (State, Result<seq<string>, ProducerError>), before: seq<string>)
    ensures Continues(all, all, before, before)
  {
    assert all.1.Ok? || all.1.Err?;
  }

  lemma NodeUnfolds(c: PublicationContext, s: State, path: TreePath, id: string, title: string, summary: string,
                    narration: Narration, parent: Option<string>)
    ensures var result, now := PublishNodeOf(c, s, path, id, title, summary, narration, parent), c.env(path);
      if now.text.Err? then result == (s, Err(Capability("read_message", now.text.error)))
      else
        var durable := DurableOf(narration.attachments, now.uploads);
        if durable.Err? then result == (s, Err(Capability("attachment_upload", durable.error)))
        else
          var request := NodeRequest(c, id, title, summary, now.text.value, durable.value, narration.questions, parent);
          var (t, r) := PublishAsOf(c.setup, s, request, c.author, c.createdAt, now.worlds);
          if r.Err? then result == (t, Err(r.error))
          else if !r.value.phase.Published? then
            result == (t, Err(Capability("publication", "spoken node did not reach publication")))
          else
            var event := r.value.phase.eventId;
            var (u, below) := PublishChildrenOf(c, t, path, id, narration, event, 0);
            result == if below.Err? then (u, Err(below.error)) else (u, Ok(TreePublication(event, below.value)))
  {
    hide PublishAsOf, DurableOf, PublishChildrenOf, NodeRequest;
  }

  lemma TreeUnfolds(c: PublicationContext, s: State, tree: SpokenTree, signing: Signing)
    ensures tree.groupId != c.setup.host.groupId ==>
      PublishTreeOf(c, s, tree, signing) == (s, Err(InvalidRequest("group_id")))
    ensures tree.groupId == c.setup.host.groupId && signing.signer.Err? ==>
      PublishTreeOf(c, s, tree, signing) == (s, Err(Capability("request_identity", signing.signer.error)))
    ensures tree.groupId == c.setup.host.groupId && !signing.signer.Err? ==>
      var d := c.(author := signing.signer.value);
      var (t, r) := PublishRootOf(d, s, tree);
      && PublishRootOf(d, s, tree)
           == PublishNodeOf(d, s, [], tree.requestId, tree.title, tree.summary.UnwrapOr(""), tree.narration, None)
      && PublishTreeOf(c, s, tree, signing)
           == (t, if signing.closed.Err? then Err(Capability("request_identity_cleanup", signing.closed.error)) else r)
  {
    hide PublishNodeOf;
  }

  lemma ChildrenUnfold(c: PublicationContext, s: State, path: TreePath, id: string, narration: Narration, event: string,
                       k: nat, all: (State, Result<seq<string>, ProducerError>), before: seq<string>, done: seq<string>)
    requires k < |NarratedOf(narration.attachments)|
    requires Continues(all, PublishChildrenOf(c, s, path, id, narration, event, k), before, done)
    ensures var child := NarratedOf(narration.attachments)[k];
      child in narration.attachments && child.Narrated? &&
      var (t, r) :=
          PublishNodeOf(c, s, path + [k], ChildRequestId(id, k), child.caption, "", child.narration, Some(event));
      if r.Err? then all == (t, Err(r.error))
      else Continues(all, PublishChildrenOf(c, t, path, id, narration, event, k + 1), before,
                     done + r.value.childEventIds + [r.value.rootEventId])
  {
    hide PublishNodeOf, ChildRequestId, NarratedOf;
    var child := NarratedOf(narration.attachments)[k];
    assert child in narration.attachments;
    var (t, r) :=
        PublishNodeOf(c, s, path + [k], ChildRequestId(id, k), child.caption, "", child.narration, Some(event));
    if r.Ok? {
      var rest := PublishChildrenOf(c, t, path, id, narration, event, k + 1).1;
      var now := r.value.childEventIds + [r.value.rootEventId];
      if rest.Ok? {
        assert done + (now + rest.value) == done + r.value.childEventIds + [r.value.rootEventId] + rest.value;
      }
    }
  }

  lemma AllDone(c: PublicationContext, s: State, path: TreePath, id: string, narration: Narration, event: string,
                all: (State, Result<seq<string>, ProducerError>), before: seq<string>, done: seq<string>)
    requires Continues(all, PublishChildrenOf(c, s, path, id, narration, event, |NarratedOf(narration.attachments)|),
                       before, done)
    ensures all.0 == s && all.1.Ok? && before + all.1.value == done
  {
  }

  lemma {:induction false} FirstFailure(attachments: seq<TreeAttachment>,
                                        uploads: nat -> Result<DurableArtifact, string>, n: nat)
    requires n <= |attachments| && DurableOf(attachments[..n], uploads).Err?
    ensures DurableOf(attachments, uploads) == DurableOf(attachments[..n], uploads)
  {
    if n == |attachments| {
      assert attachments[..n] == attachments;
    } else {
      var init := attachments[..|attachments| - 1];
      assert init[..n] == attachments[..n];
      FirstFailure(init, uploads, n);
    }
  }
}
