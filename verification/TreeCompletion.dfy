/** After any failed attempts, an attempt whose node requests are unchanged and whose world answers what is left of
    every node publishes the whole tree. */
module TreeCompletion {
  import opened Contract
  import opened Jobs
  import opened Publisher
  import opened Runner
  import opened Runs
  import opened Production
  import opened CleanRun
  import opened Trees
  import opened TreeRuns

  /** The node's request under the context's answers: its message and the uploads of its files. */
  function RequestAt(c: PublicationContext, path: TreePath, id: string, title: string, summary: string,
                     narration: Narration, parent: Option<string>): Option<ProducerRequest>
  {
    var now := c.env(path);
    if now.text.Err? || DurableOf(narration.attachments, now.uploads).Err? then None
    else Some(NodeRequest(c, id, title, summary, now.text.value, DurableOf(narration.attachments, now.uploads).value,
                          narration.questions, parent))
  }

  /** The event id the node has or will get. */
  function EventAhead(c: PublicationContext, s: State, path: TreePath, request: ProducerRequest): string {
    var job := RecordFor(c.setup, s.jobs, request, c.author, c.createdAt);
    SpokenId(c.setup.host, ItemAhead(job, c.env(path).worlds, 1))
  }

  /** Some node of these ids has yet to settle its authorization, and so will make the author a known member. */
  ghost predicate LearnsAny(s: State, ids: set<string>) {
    exists id <- ids :: id in s.jobs ==> s.jobs[id].phase.Rank() >= 3
  }

  function MembersIf(known: bool, author: string): map<string, string> {
    if known then map[author := ""] else map[]
  }

  /** In this state every node from here down can be published: nothing is journaled under its id, or its own request at
      whatever phase a failed attempt left it. The relay is asked about the author only until some node has settled its
      authorization. */
  ghost predicate TreeReady(c: PublicationContext, s: State, known: bool, path: TreePath, id: string, title: string,
                            summary: string, narration: Narration, parent: Option<string>)
    decreases narration, |NarratedOf(narration.attachments)| + 1
  {
    var request := RequestAt(c, path, id, title, summary, narration, parent);
    && request.Some?
    && Publishable(c.setup, s.jobs, MembersIf(known, c.author), request.value, c.author, c.createdAt,
                   c.env(path).worlds)
    && KidsReady(c, s, known || LearnsAny(s, {id}), path, id, narration, EventAhead(c, s, path, request.value), 0)
  }

  /** Likewise for the children from the k-th on, with what the ones before them have taught. */
  ghost predicate KidsReady(c: PublicationContext, s: State, known: bool, path: TreePath, id: string,
                            narration: Narration, event: string, k: nat)
    requires k <= |NarratedOf(narration.attachments)|
    decreases narration, |NarratedOf(narration.attachments)| - k
  {
    var narrated := NarratedOf(narration.attachments);
    k < |narrated| ==>
      var child, childId := narrated[k], ChildRequestId(id, k);
      && child in narration.attachments
      && TreeReady(c, s, known, path + [k], childId, child.caption, "", child.narration, Some(event))
      && KidsReady(c, s, known || LearnsAny(s, NodeIds(childId, child.narration)), path, id, narration, event, k + 1)
  }

  // ----- what publishing elsewhere leaves alone -----

  /** Only jobs of `ids` may differ, and an author once known stays known. */
  ghost predicate Only(s: State, t: State, ids: set<string>, author: string) {
    && (forall id: string :: id !in ids ==> (id in t.jobs <==> id in s.jobs))
    && (forall id <- s.jobs :: id !in ids && id in t.jobs ==> t.jobs[id] == s.jobs[id])
    && CachedIsId(t.nmp.members, author) && (author in s.nmp.members ==> author in t.nmp.members)
  }

  lemma OnlyTransitive(a: State, b: State, d: State, ids: set<string>, more: set<string>, author: string)
    requires Only(a, b, ids, author) && Only(b, d, more, author)
    ensures Only(a, d, ids + more, author)
  {
    hide CachedIsId;
  }

  lemma SamePublishable(c: PublicationContext, s: State, t: State, known: bool, ids: set<string>,
                        request: ProducerRequest, worlds: nat -> World)
    requires Only(s, t, ids, c.author) && request.requestId !in ids
    requires Publishable(c.setup, s.jobs, MembersIf(known, c.author), request, c.author, c.createdAt, worlds)
    ensures RecordFor(c.setup, t.jobs, request, c.author, c.createdAt)
         == RecordFor(c.setup, s.jobs, request, c.author, c.createdAt)
    ensures Publishable(c.setup, t.jobs, MembersIf(known, c.author), request, c.author, c.createdAt, worlds)
  {
    hide CachedIsId, Serves, Speaks, Uploads, Admits, MembersIf;
  }

  lemma SameLearns(s: State, t: State, ids: set<string>, more: set<string>, author: string)
    requires Only(s, t, ids, author) && more !! ids
    ensures LearnsAny(t, more) == LearnsAny(s, more)
  {
    hide CachedIsId;
  }

  lemma LearnsUnion(s: State, ids: set<string>, more: set<string>)
    ensures LearnsAny(s, ids + more) <==> LearnsAny(s, ids) || LearnsAny(s, more)
  {
  }

  lemma {:induction false} TreeStillReady(c: PublicationContext, s: State, t: State, known: bool, ids: set<string>,
                                          path: TreePath, id: string, title: string, summary: string,
                                          narration: Narration, parent: Option<string>)
    requires Only(s, t, ids, c.author) && NodeIds(id, narration) !! ids
    requires TreeReady(c, s, known, path, id, title, summary, narration, parent)
    ensures TreeReady(c, t, known, path, id, title, summary, narration, parent)
    decreases narration, |NarratedOf(narration.attachments)| + 1
  {
    hide *;
    TheNodeIds(id, narration);
    var request := ReadyRequest(c, s, known, path, id, title, summary, narration, parent);
    SamePublishable(c, s, t, known, ids, request, c.env(path).worlds);
    SameEventAhead(c, s, t, path, request);
    SameLearns(s, t, ids, {id}, c.author);
    KidsStillReady(c, s, t, known || LearnsAny(s, {id}), ids, path, id, narration, EventAhead(c, s, path, request), 0);
    TreeIsReady(c, t, known, path, id, title, summary, narration, parent);
  }

  lemma SameEventAhead(c: PublicationContext, s: State, t: State, path: TreePath, request: ProducerRequest)
    requires RecordFor(c.setup, t.jobs, request, c.author, c.createdAt)
          == RecordFor(c.setup, s.jobs, request, c.author, c.createdAt)
    ensures EventAhead(c, t, path, request) == EventAhead(c, s, path, request)
  {
    hide RecordFor;
  }

  lemma TreeIsReady(c: PublicationContext, s: State, known: bool, path: TreePath, id: string, title: string,
                    summary: string, narration: Narration, parent: Option<string>)
    requires
      var request := RequestAt(c, path, id, title, summary, narration, parent);
      && request.Some?
      && Publishable(c.setup, s.jobs, MembersIf(known, c.author), request.value, c.author, c.createdAt,
                     c.env(path).worlds)
      && KidsReady(c, s, known || LearnsAny(s, {id}), path, id, narration, EventAhead(c, s, path, request.value), 0)
    ensures TreeReady(c, s, known, path, id, title, summary, narration, parent)
  {
    hide Publishable, RequestAt, EventAhead, LearnsAny, MembersIf;
  }

  lemma {:induction false} KidsStillReady(c: PublicationContext, s: State, t: State, known: bool, ids: set<string>,
                                          path: TreePath, id: string, narration: Narration, event: string, k: nat)
    requires k <= |NarratedOf(narration.attachments)|
    requires Only(s, t, ids, c.author) && IdsBelow(id, narration, k) !! ids
    requires KidsReady(c, s, known, path, id, narration, event, k)
    ensures KidsReady(c, t, known, path, id, narration, event, k)
    decreases narration, |NarratedOf(narration.attachments)| - k
  {
    hide *;
    if k < |NarratedOf(narration.attachments)| {
      var child, childId := NarratedOf(narration.attachments)[k], ChildRequestId(id, k);
      IdsUnfold(id, narration, k);
      KidIsReady(c, s, known, path, id, narration, event, k);
      TreeStillReady(c, s, t, known, ids, path + [k], childId, child.caption, "", child.narration, Some(event));
      SameLearns(s, t, ids, NodeIds(childId, child.narration), c.author);
      KidsStillReady(c, s, t, known || LearnsAny(s, NodeIds(childId, child.narration)), ids, path, id, narration, event,
                     k + 1);
    }
    KidsAreReady(c, t, known, path, id, narration, event, k);
  }

  lemma KidIsReady(c: PublicationContext, s: State, known: bool, path: TreePath, id: string, narration: Narration,
                   event: string, k: nat)
    requires k < |NarratedOf(narration.attachments)| && KidsReady(c, s, known, path, id, narration, event, k)
    ensures var child, childId := NarratedOf(narration.attachments)[k], ChildRequestId(id, k);
      && child in narration.attachments
      && TreeReady(c, s, known, path + [k], childId, child.caption, "", child.narration, Some(event))
      && KidsReady(c, s, known || LearnsAny(s, NodeIds(childId, child.narration)), path, id, narration, event, k + 1)
  {
    hide TreeReady, NarratedOf, NodeIds, ChildRequestId, LearnsAny;
  }

  lemma KidsAreReady(c: PublicationContext, s: State, known: bool, path: TreePath, id: string, narration: Narration,
                     event: string, k: nat)
    requires k <= |NarratedOf(narration.attachments)|
    requires k < |NarratedOf(narration.attachments)| ==>
      var child, childId := NarratedOf(narration.attachments)[k], ChildRequestId(id, k);
      && child in narration.attachments
      && TreeReady(c, s, known, path + [k], childId, child.caption, "", child.narration, Some(event))
      && KidsReady(c, s, known || LearnsAny(s, NodeIds(childId, child.narration)), path, id, narration, event, k + 1)
    ensures KidsReady(c, s, known, path, id, narration, event, k)
  {
    hide TreeReady, NarratedOf, NodeIds, ChildRequestId, LearnsAny;
  }

  // ----- publishing -----

  /** Knowing the author is all the cache is needed for. */
  lemma KnownIsEnough(c: PublicationContext, s: State, known: bool, request: ProducerRequest, worlds: nat -> World)
    requires Publishable(c.setup, s.jobs, MembersIf(known, c.author), request, c.author, c.createdAt, worlds)
    requires known ==> c.author in s.nmp.members
    ensures Publishable(c.setup, s.jobs, s.nmp.members, request, c.author, c.createdAt, worlds)
  {
    hide Serves, Speaks, Uploads, Admits;
  }

  /** The node's own publication succeeds with the expected event. */
  lemma NodeCompletes(c: PublicationContext, s: State, known: bool, path: TreePath, id: string,
                      request: ProducerRequest)
    requires Inv(c.setup, s) && HashesAreIds(c.setup.host) && CachedIsId(s.nmp.members, c.author)
             && request.requestId == id
    requires Publishable(c.setup, s.jobs, MembersIf(known, c.author), request, c.author, c.createdAt,
                         c.env(path).worlds)
    requires known ==> c.author in s.nmp.members
    ensures var (t, r) := PublishAsOf(c.setup, s, request, c.author, c.createdAt, c.env(path).worlds);
      && Inv(c.setup, t) && Only(s, t, {id}, c.author)
      && r.Ok? && r.value.phase.Published? && r.value.phase.eventId == EventAhead(c, s, path, request)
      && (known || LearnsAny(s, {id}) ==> c.author in t.nmp.members)
  {
    hide PublishAsOf, Inv, Publishable, HashesAreIds, CachedIsId, Later, ItemAhead, RecordFor, Owed, MembershipAhead,
         SpokenAhead, Learns, LearnsAny, MembersIf;
    KnownIsEnough(c, s, known, request, c.env(path).worlds);
    CooperativeWorldPublishes(c.setup, s, request, c.author, c.createdAt, c.env(path).worlds);
    PublishAsSound(c.setup, s, request, c.author, c.createdAt, c.env(path).worlds);
    RecordsAuthor(c.setup, s.jobs, s.nmp.members, request, c.author, c.createdAt, c.env(path).worlds);
    NodeLearns(c, s, request);
  }

  lemma NodeLearns(c: PublicationContext, s: State, request: ProducerRequest)
    ensures var job := RecordFor(c.setup, s.jobs, request, c.author, c.createdAt);
      && (LearnsAny(s, {request.requestId}) ==> Learns(s.nmp.members, job))
      && (c.author in s.nmp.members && job.author == c.author ==> Learns(s.nmp.members, job))
  {
  }

  lemma {:induction false} TreeCompletes(c: PublicationContext, s: State, known: bool, path: TreePath, id: string,
                                         title: string, summary: string, narration: Narration, parent: Option<string>)
    requires Inv(c.setup, s) && HashesAreIds(c.setup.host) && CachedIsId(s.nmp.members, c.author)
    requires TreeReady(c, s, known, path, id, title, summary, narration, parent) && DistinctIds(id, narration)
    requires known ==> c.author in s.nmp.members
    ensures var (t, r) := PublishNodeOf(c, s, path, id, title, summary, narration, parent);
      && r.Ok? && Inv(c.setup, t) && Only(s, t, NodeIds(id, narration), c.author)
      && (known || LearnsAny(s, NodeIds(id, narration)) ==> c.author in t.nmp.members)
    decreases narration, 1, 0
  {
    hide *;
    NodeUnfolds(c, s, path, id, title, summary, narration, parent);
    var request := ReadyRequest(c, s, known, path, id, title, summary, narration, parent);
    var event, after := EventAhead(c, s, path, request), known || LearnsAny(s, {id});
    NodeCompletes(c, s, known, path, id, request);
    var t := PublishAsOf(c.setup, s, request, c.author, c.createdAt, c.env(path).worlds).0;
    RootIdIsItsOwn(id, narration);
    TheNodeIds(id, narration);
    KidsStillReady(c, s, t, after, {id}, path, id, narration, event, 0);
    OnlyMeans(s, t, {id}, c.author);
    KidsComplete(c, t, after, path, id, narration, event, 0);
    var u := PublishChildrenOf(c, t, path, id, narration, event, 0).0;
    OnlyTransitive(s, t, u, {id}, IdsBelow(id, narration, 0), c.author);
    SameLearns(s, t, {id}, IdsBelow(id, narration, 0), c.author);
    LearnsUnion(s, {id}, IdsBelow(id, narration, 0));
  }

  lemma RootIdIsItsOwn(id: string, narration: Narration)
    requires DistinctIds(id, narration)
    ensures IdsBelow(id, narration, 0) !! {id}
  {
    hide IdsBelow, NodeIds, NarratedOf, ChildRequestId;
  }

  lemma OnlyMeans(s: State, t: State, ids: set<string>, author: string)
    requires Only(s, t, ids, author)
    ensures CachedIsId(t.nmp.members, author) && (author in s.nmp.members ==> author in t.nmp.members)
  {
  }

  lemma TheNodeIds(id: string, narration: Narration)
    ensures NodeIds(id, narration) == {id} + IdsBelow(id, narration, 0)
  {
  }

  lemma ReadyRequest(c: PublicationContext, s: State, known: bool, path: TreePath, id: string, title: string,
                     summary: string, narration: Narration, parent: Option<string>) returns (request: ProducerRequest)
    requires TreeReady(c, s, known, path, id, title, summary, narration, parent)
    ensures RequestAt(c, path, id, title, summary, narration, parent) == Some(request) && request.requestId == id
    ensures c.env(path).text.Ok? && DurableOf(narration.attachments, c.env(path).uploads).Ok?
    ensures request == NodeRequest(c, id, title, summary, c.env(path).text.value,
                                   DurableOf(narration.attachments, c.env(path).uploads).value, narration.questions,
                                   parent)
    ensures Publishable(c.setup, s.jobs, MembersIf(known, c.author), request, c.author, c.createdAt, c.env(path).worlds)
    ensures KidsReady(c, s, known || LearnsAny(s, {id}), path, id, narration, EventAhead(c, s, path, request), 0)
  {
    hide Publishable, DurableOf, KidsReady, EventAhead, LearnsAny, MembersIf;
    request := RequestAt(c, path, id, title, summary, narration, parent).value;
  }

  lemma {:induction false} KidsComplete(c: PublicationContext, s: State, known: bool, path: TreePath, id: string,
                                        narration: Narration, event: string, k: nat)
    requires k <= |NarratedOf(narration.attachments)| && DistinctIds(id, narration)
    requires Inv(c.setup, s) && HashesAreIds(c.setup.host) && CachedIsId(s.nmp.members, c.author)
    requires KidsReady(c, s, known, path, id, narration, event, k) && (known ==> c.author in s.nmp.members)
    ensures var (t, r) := PublishChildrenOf(c, s, path, id, narration, event, k);
      && r.Ok? && Inv(c.setup, t) && Only(s, t, IdsBelow(id, narration, k), c.author)
      && (known || LearnsAny(s, IdsBelow(id, narration, k)) ==> c.author in t.nmp.members)
    decreases narration, 0, |NarratedOf(narration.attachments)| - k
  {
    hide *;
    KidsUnfold(c, s, path, id, narration, event, k);
    if k == |NarratedOf(narration.attachments)| {
      NothingTouched(s, id, narration, c.author);
    } else {
      var child, childId := NarratedOf(narration.attachments)[k], ChildRequestId(id, k);
      var own, later := NodeIds(childId, child.narration), IdsBelow(id, narration, k + 1);
      var after := known || LearnsAny(s, own);
      KidIsReady(c, s, known, path, id, narration, event, k);
      KidIsDistinct(id, narration, k);
      TreeCompletes(c, s, known, path + [k], childId, child.caption, "", child.narration, Some(event));
      var t := PublishNodeOf(c, s, path + [k], childId, child.caption, "", child.narration, Some(event)).0;
      KidsStillReady(c, s, t, after, own, path, id, narration, event, k + 1);
      OnlyMeans(s, t, own, c.author);
      KidsComplete(c, t, after, path, id, narration, event, k + 1);
      var u := PublishChildrenOf(c, t, path, id, narration, event, k + 1).0;
      OnlyTransitive(s, t, u, own, later, c.author);
      IdsUnfold(id, narration, k);
      SameLearns(s, t, own, later, c.author);
      LearnsUnion(s, own, later);
    }
  }

  lemma KidIsDistinct(id: string, narration: Narration, k: nat)
    requires k < |NarratedOf(narration.attachments)| && DistinctIds(id, narration)
    ensures DistinctIds(ChildRequestId(id, k), NarratedOf(narration.attachments)[k].narration)
    ensures NodeIds(ChildRequestId(id, k), NarratedOf(narration.attachments)[k].narration)
        !! IdsBelow(id, narration, k + 1)
  {
    hide IdsBelow, NodeIds, NarratedOf, ChildRequestId;
  }

  lemma NothingTouched(s: State, id: string, narration: Narration, author: string)
    requires CachedIsId(s.nmp.members, author)
    ensures Only(s, s, IdsBelow(id, narration, |NarratedOf(narration.attachments)|), author)
    ensures !LearnsAny(s, IdsBelow(id, narration, |NarratedOf(narration.attachments)|))
  {
  }

  /** After any attempts, however they failed: an attempt on a tree whose nodes have their own ids, and whose journaled
      nodes are this attempt's own requests at any phase, publishes every node when the world answers what is left of
      each. */
  lemma CooperativeTreePublishes(setup: Setup, attempts: seq<Attempt>, c: PublicationContext, tree: SpokenTree,
                                 signing: Signing)
    requires DigestsTellApart(setup) && HashesAreIds(setup.host) && c.setup == setup
    requires signing.signer == Ok(c.author) && signing.closed.Ok? && tree.groupId == setup.host.groupId
    requires DistinctIds(tree.requestId, tree.narration)
    requires
      var s := TryAll(setup, EMPTY, attempts);
      && CachedIsId(s.nmp.members, c.author)
      && TreeReady(c, s, c.author in s.nmp.members, [], tree.requestId, tree.title, tree.summary.UnwrapOr(""),
                   tree.narration, None)
    ensures
      var (t, r) := PublishTreeOf(c, TryAll(setup, EMPTY, attempts), tree, signing);
      r.Ok? && Reported(setup, t, tree.requestId, tree.narration, None, r.value)
  {
    hide *;
    var s := TryAll(setup, EMPTY, attempts);
    EmptyIsSound(setup);
    TryAllKeeps(setup, EMPTY, attempts);
    TreeCompletes(c, s, c.author in s.nmp.members, [], tree.requestId, tree.title, tree.summary.UnwrapOr(""),
                  tree.narration, None);
    assert c.(author := c.author) == c;
    TreeUnfolds(c, s, tree, signing);
    RootOutcome(c, s, tree);
  }

  /** In particular for a tree without over-long parent ids. */
  lemma CooperativeShortTreePublishes(setup: Setup, attempts: seq<Attempt>, c: PublicationContext, tree: SpokenTree,
                                      signing: Signing)
    requires DigestsTellApart(setup) && HashesAreIds(setup.host) && c.setup == setup
    requires signing.signer == Ok(c.author) && signing.closed.Ok? && tree.groupId == setup.host.groupId
    requires ParentsShort(tree.requestId, tree.narration)
    requires
      var s := TryAll(setup, EMPTY, attempts);
      && CachedIsId(s.nmp.members, c.author)
      && TreeReady(c, s, c.author in s.nmp.members, [], tree.requestId, tree.title, tree.summary.UnwrapOr(""),
                   tree.narration, None)
    ensures
      var (t, r) := PublishTreeOf(c, TryAll(setup, EMPTY, attempts), tree, signing);
      r.Ok? && Reported(setup, t, tree.requestId, tree.narration, None, r.value)
  {
    hide *;
    ShortTreesAreDistinct(tree.requestId, tree.narration);
    CooperativeTreePublishes(setup, attempts, c, tree, signing);
  }
}
