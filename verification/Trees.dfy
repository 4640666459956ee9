/** What publication promises (daemon/src/production.rs) over whole runs: bounded stages, idempotent republication,
    derived request ids, and trees whose every node is published once, below its parent, through any retries. */
module Trees {
  import opened Contract
  import opened Text
  import opened Composer
  import opened Jobs
  import opened Journal
  import opened Publisher
  import opened Runner
  import opened Runs
  import opened Production

  /** Only the job `id` and writes of its own are new. */
  ghost predicate Touches(s: State, t: State, id: string) {
    && (forall other: string :: other != id ==> (other in t.jobs <==> other in s.jobs))
    && (forall other <- s.jobs :: other != id && other in t.jobs ==> t.jobs[other] == s.jobs[other])
    && s.nmp.writes <= t.nmp.writes
    && (forall i :: |s.nmp.writes| <= i < |t.nmp.writes| && t.nmp.writes[i].Spoken? ==> t.nmp.writes[i].requestId == id)
  }

  lemma TouchesTransitive(a: State, b: State, c: State, id: string)
    requires Touches(a, b, id) && Touches(b, c, id)
    ensures Touches(a, c, id)
  {
  }

  lemma AdvanceTouches(setup: Setup, s: State, id: string, w: World)
    requires Inv(setup, s)
    ensures Touches(s, AdvanceOf(setup, s, id, w).0, id)
  {
    assert id in s.jobs ==> JobSound(setup, s.nmp.writes, id, s.jobs[id]);
    hide AdvanceOf, EffectOf, Inv, Reaches, ValidateSpokenItem, TokenReceipt;
    AdvanceShape(setup, s, id, w);
    if Reaches(s, id, w) {
      ReachesItsJob(s, id, w);
      EffectAppends(setup, s.nmp, s.jobs[id], w);
      var t := AdvanceOf(setup, s, id, w).0;
      hide JobSound, Touches;
      TouchesBy(s, t, id);
    } else {
      TouchesSelf(s, id);
      hide Touches;
    }
  }

  lemma TouchesBy(s: State, t: State, id: string)
    requires t.jobs == s.jobs || (id in t.jobs && t.jobs == s.jobs[id := t.jobs[id]])
    requires t.nmp.writes == s.nmp.writes
             || (|t.nmp.writes| == |s.nmp.writes| + 1 && s.nmp.writes <= t.nmp.writes
                 && (t.nmp.writes[|s.nmp.writes|].Spoken? ==> t.nmp.writes[|s.nmp.writes|].requestId == id))
    ensures Touches(s, t, id)
  {
  }

  lemma ReachesItsJob(s: State, id: string, w: World)
    requires Reaches(s, id, w)
    ensures id in s.jobs
  {
  }

  lemma AdmitTouches(setup: Setup, s: State, request: ProducerRequest, author: string, createdAt: nat, w: World)
    requires Inv(setup, s)
    ensures var (jobs, r) := AdmitOf(setup, s.jobs, request, author, createdAt, w);
      && Touches(s, s.(jobs := jobs), request.requestId)
      && (r.Ok? ==> request.requestId in jobs && jobs[request.requestId] == r.value
                    && r.value.requestDigest == setup.digest(request) && r.value.author == author)
      && (r.Err? ==> r.error != EXCEEDED)
  {
    hide IsIdentifier, JobSound, OnePerToken;
  }

  lemma AdvanceErrors(setup: Setup, s: State, id: string, w: World)
    ensures var r := AdvanceOf(setup, s, id, w).1; r.Err? ==> r.error != EXCEEDED
  {
    hide SaveOf, ValidRequestId;
    if id in s.jobs { EffectErrors(setup, s.nmp, s.jobs[id], w); }
    hide EffectOf;
  }

  lemma EffectErrors(setup: Setup, nmp: Nmp, job: JobRecord, w: World)
    ensures var r := EffectOf(setup, nmp, job, w).1; r.Err? ==> r.error != EXCEEDED
  {
    hide AuthorizeOf, ResumeAuthorizationOf, AcceptOf, AwaitHostAck, ValidateSpokenItem, ValidLocalAudio, IsLowerHex;
    StageNames();
  }

  lemma StageNames()
    ensures forall stage: string :: |stage| != 11 ==> stage != "publication"
  {
  }

  // ----- publish_as -----

  lemma {:induction false} StagesKeep(setup: Setup, s: State, id: string, job: JobRecord, worlds: nat -> World, k: nat)
    requires 1 <= k <= 7 && Inv(setup, s) && id in s.jobs && s.jobs[id] == job && job.phase.Rank() <= 7 - k
    ensures var (t, r) := StagesOf(setup, s, id, job, worlds, k);
      && Inv(setup, t) && Later(s, t) && Touches(s, t, id)
      && (r.Ok? ==> r.value.phase.Published? && id in t.jobs && t.jobs[id] == r.value)
      && (r.Err? ==> r.error != EXCEEDED)
    decreases 7 - k
  {
    hide Inv, AdvanceOf, StagesOf, Touches;
    StagesUnfold(setup, s, id, job, worlds, k);
    if job.phase.Published? {
      LaterReflexive(s);
      TouchesSelf(s, id);
    } else {
      var (t, r) := AdvanceOf(setup, s, id, worlds(k));
      assert r.Ok? || r.Err?;
      AdvanceKeeps(setup, s, id, worlds(k));
      AdvanceTouches(setup, s, id, worlds(k));
      AdvanceLowersRank(setup, s, id, worlds(k));
      AdvanceErrors(setup, s, id, worlds(k));
      hide Later, JobLater;
      if r.Ok? {
        StagesKeep(setup, t, id, r.value, worlds, k + 1);
        var u := StagesOf(setup, t, id, r.value, worlds, k + 1).0;
        LaterTransitive(s, t, u);
        TouchesTransitive(s, t, u, id);
      }
    }
  }

  lemma TouchesSelf(s: State, id: string)
    ensures Touches(s, s, id)
  {
  }

  /** Publishing keeps every job sound and settled, touches its own job alone, and never runs out of stages: it either
      returns the journaled published record of this very request and author, or reports what failed. */
  lemma PublishAsSound(setup: Setup, s: State, request: ProducerRequest, author: string, createdAt: nat,
                       worlds: nat -> World)
    requires Inv(setup, s)
    ensures var (t, r) := PublishAsOf(setup, s, request, author, createdAt, worlds);
      && Inv(setup, t) && Later(s, t) && Touches(s, t, request.requestId)
      && (r.Ok? ==> r.value.phase.Published? && request.requestId in t.jobs && t.jobs[request.requestId] == r.value
                    && r.value.requestDigest == setup.digest(request) && r.value.author == author)
      && (r.Err? ==> r.error != EXCEEDED)
  {
    hide AdmitOf, Inv, Touches, StagesOf, PublishAsOf, JobLater, Later;
    var id := request.requestId;
    PublishAsUnfolds(setup, s, request, author, createdAt, worlds);
    AdmitKeeps(setup, s, request, author, createdAt, worlds(0));
    AdmitTouches(setup, s, request, author, createdAt, worlds(0));
    var (jobs, r) := AdmitOf(setup, s.jobs, request, author, createdAt, worlds(0));
    assert r.Ok? || r.Err?;
    if r.Ok? {
      var t := s.(jobs := jobs);
      StagesKeep(setup, t, id, r.value, worlds, 1);
      var u := StagesOf(setup, t, id, r.value, worlds, 1).0;
      LaterTransitive(s, t, u);
      TouchesTransitive(s, t, u, id);
      LaterAt(t, u, id);
      IdentityKept(t.jobs[id], u.jobs[id]);
    }
  }

  lemma LaterAt(s: State, t: State, id: string)
    requires Later(s, t) && id in s.jobs
    ensures id in t.jobs && JobLater(s.jobs[id], t.jobs[id])
  {
    hide JobLater;
  }

  lemma IdentityKept(before: JobRecord, after: JobRecord)
    requires JobLater(before, after)
    ensures after.requestDigest == before.requestDigest && after.author == before.author
             && after.request == before.request
  {
  }

  /** Whatever timestamp and whatever answers a retry meets, a published request returns its one record and changes
      nothing; another request or author under the same id is refused and changes nothing. */
  lemma RepublishIsIdempotent(setup: Setup, s: State, request: ProducerRequest, author: string, createdAt: nat,
                              worlds: nat -> World)
    requires Inv(setup, s) && request.requestId in s.jobs && s.jobs[request.requestId].phase.Published?
    requires worlds(0).readable
    ensures var job := s.jobs[request.requestId];
      PublishAsOf(setup, s, request, author, createdAt, worlds)
        == (s, if setup.digest(job.request) == setup.digest(request) && job.author == author then Ok(job)
               else Err(RequestConflict(request.requestId)))
  {
    assert JobSound(setup, s.nmp.writes, request.requestId, s.jobs[request.requestId]);
    hide AdvanceOf, IsIdentifier, Inv;
  }

  /** Two publications of one request id that both succeed, with anything at all in between, return the same record. */
  lemma PublishedOnce(setup: Setup, before: seq<Action>, request: ProducerRequest, author: string, createdAt: nat,
                      worlds: nat -> World, between: seq<Action>, again: ProducerRequest, author2: string,
                      createdAt2: nat, worlds2: nat -> World)
    requires again.requestId == request.requestId
    ensures
      var (s, first) := PublishAsOf(setup, Run(setup, EMPTY, before), request, author, createdAt, worlds);
      var (t, second) := PublishAsOf(setup, Run(setup, s, between), again, author2, createdAt2, worlds2);
      first.Ok? && second.Ok? ==>
        (&& second.value == first.value && first.value.phase.Published?
         && (forall write <- t.nmp.writes :: write.Spoken? && write.requestId == request.requestId ==>
               EventIdOf(setup.host, write) == first.value.phase.eventId))
  {
    var start := Run(setup, EMPTY, before);
    EmptyIsSound(setup);
    RunKeeps(setup, EMPTY, before);
    var (s, first) := PublishAsOf(setup, start, request, author, createdAt, worlds);
    PublishAsSound(setup, start, request, author, createdAt, worlds);
    RunKeeps(setup, s, between);
    var m := Run(setup, s, between);
    var (t, second) := PublishAsOf(setup, m, again, author2, createdAt2, worlds2);
    PublishAsSound(setup, m, again, author2, createdAt2, worlds2);
    hide PublishAsOf, Run, Inv, Touches;
    if first.Ok? && second.Ok? {
      var id := request.requestId;
      assert JobLater(s.jobs[id], m.jobs[id]) && JobLater(m.jobs[id], t.jobs[id]);
      SpokenIsPublished(setup, t, id);
    }
  }

  lemma SpokenIsPublished(setup: Setup, s: State, id: string)
    requires Inv(setup, s) && id in s.jobs && s.jobs[id].phase.Published?
    ensures forall write <- s.nmp.writes :: write.Spoken? && write.requestId == id ==>
              EventIdOf(setup.host, write) == s.jobs[id].phase.eventId
  {
    assert JobSound(setup, s.nmp.writes, id, s.jobs[id]);
    forall write | write in s.nmp.writes && write.Spoken? && write.requestId == id
      ensures EventIdOf(setup.host, write) == s.jobs[id].phase.eventId
    {
      assert WriteSound(s.jobs, write);
    }
  }

  // ----- derived request ids -----

  function Kept60(id: string): string {
    if |id| <= 60 then id else id[..60]
  }

  /** Two derived ids agree exactly when the kept parts of the parents and the indices do. */
  lemma ChildIdExact(parent: string, index: nat, parent2: string, index2: nat)
    ensures ChildRequestId(parent, index) == ChildRequestId(parent2, index2)
        <==> Kept60(parent) == Kept60(parent2) && index == index2
  {
    DecimalReads(index);
    DecimalReads(index2);
    hide Decimal;
    if ChildRequestId(parent, index) == ChildRequestId(parent2, index2) {
      SplitAtLast('-', Kept60(parent), Decimal(index), Kept60(parent2), Decimal(index2));
    }
  }

  /** From 60 characters on a child's id no longer grows: the child of a child at the same index gets its parent's own
      id, so two nodes of one tree share a request id. The shared id is valid for every index below 1000. */
  lemma LongParentsCollide(root: string, index: nat)
    requires ValidRequestId(root) && |root| >= 60
    ensures NodeId(root, [index, index]) == NodeId(root, [index]) && [index, index] != [index]
    ensures index < 1000 ==> ValidRequestId(NodeId(root, [index]))
  {
    hide ValidRequestId, ChildRequestId, Decimal;
    NodeIdFront(root, index, []);
    NodeIdFront(root, index, [index]);
    NodeIdFront(ChildRequestId(root, index), index, []);
    assert [index] + [] == [index] && [index] + [index] == [index, index];
    ChildKeeps(root, index);
    KeptOfKept(root, ['-'] + Decimal(index));
    ChildIdExact(ChildRequestId(root, index), index, root, index);
    if index < 1000 {
      ShortDecimals(index);
      ChildIdValid(root, index);
    }
  }

  lemma ShortDecimals(n: nat)
    requires n < 1000
    ensures |Decimal(n)| <= 3
  {
    if n >= 10 {
      assert |Decimal(n / 10 / 10)| == 1;
      assert |Decimal(n / 10)| <= 2;
    }
  }

  /** A derived id of a valid parent is itself valid exactly when it is at most 64 characters long. */
  lemma ChildIdValid(parent: string, index: nat)
    requires ValidRequestId(parent)
    ensures ValidRequestId(ChildRequestId(parent, index)) <==> |Kept60(parent)| + 1 + |Decimal(index)| <= 64
  {
    DecimalReads(index);
    hide Decimal;
    var id := ChildRequestId(parent, index);
    forall i | 0 <= i < |id| ensures IsIdentifierChar(id[i]) {
      assert id[i] == if i < |Kept60(parent)| then parent[i] else if i == |Kept60(parent)| then '-'
                      else Decimal(index)[i - |Kept60(parent)| - 1];
    }
  }

  /** The request id of the node at `path`. */
  function NodeId(root: string, path: TreePath): string {
    if path == [] then root else ChildRequestId(NodeId(root, path[..|path| - 1]), path[|path| - 1])
  }

  /** No node above `path` has an id over 60 characters. */
  ghost predicate ShortAbove(root: string, path: TreePath) {
    forall j | 0 <= j < |path| :: |NodeId(root, path[..j])| <= 60
  }

  lemma ShortParent(root: string, path: TreePath)
    requires path != [] && ShortAbove(root, path)
    ensures ShortAbove(root, path[..|path| - 1]) && |NodeId(root, path[..|path| - 1])| <= 60
    ensures |NodeId(root, path)| > |NodeId(root, path[..|path| - 1])|
  {
    var init := path[..|path| - 1];
    forall j | 0 <= j < |init| ensures |NodeId(root, init[..j])| <= 60 { assert init[..j] == path[..j]; }
  }

  lemma {:induction false} DeeperIsLonger(root: string, path: TreePath)
    requires ShortAbove(root, path)
    ensures |NodeId(root, path)| >= |root| && (path != [] ==> |NodeId(root, path)| > |root|)
  {
    if path != [] {
      ShortParent(root, path);
      DeeperIsLonger(root, path[..|path| - 1]);
    }
  }

  /** Different nodes have different request ids as long as no parent's id exceeds 60 characters. */
  lemma {:induction false} NodeIdsAreDistinct(root: string, a: TreePath, b: TreePath)
    requires ShortAbove(root, a) && ShortAbove(root, b) && NodeId(root, a) == NodeId(root, b)
    ensures a == b
    decreases |a|
  {
    DeeperIsLonger(root, a);
    DeeperIsLonger(root, b);
    if a != [] {
      var parent, parent2 := a[..|a| - 1], b[..|b| - 1];
      ShortParent(root, a);
      ShortParent(root, b);
      ChildIdExact(NodeId(root, parent), a[|a| - 1], NodeId(root, parent2), b[|b| - 1]);
      NodeIdsAreDistinct(root, parent, parent2);
      assert a == parent + [a[|a| - 1]] && b == parent2 + [b[|b| - 1]];
    }
  }

  // ----- exactly which nodes share a request id -----

  /** The id of the node at `path` were nothing ever cut off. */
  function Uncut(root: string, path: TreePath): string {
    if path == [] then root else Uncut(root, path[..|path| - 1]) + (['-'] + Decimal(path[|path| - 1]))
  }

  lemma KeptOfKept(id: string, more: string)
    ensures Kept60(Kept60(id) + more) == Kept60(id + more)
  {
  }

  /** Cutting on the way down keeps the same 60 characters as cutting once. */
  lemma {:induction false} KeptIsUncut(root: string, path: TreePath)
    ensures Kept60(NodeId(root, path)) == Kept60(Uncut(root, path))
  {
    hide Kept60, Decimal;
    if path != [] {
      var init, more := path[..|path| - 1], ['-'] + Decimal(path[|path| - 1]);
      KeptIsUncut(root, init);
      ChildKeeps(NodeId(root, init), path[|path| - 1]);
      KeptOfKept(NodeId(root, init), more);
      KeptOfKept(Uncut(root, init), more);
    }
  }

  lemma ChildKeeps(parent: string, index: nat)
    ensures ChildRequestId(parent, index) == Kept60(parent) + (['-'] + Decimal(index))
  {
    hide Decimal;
  }

  lemma {:induction false} UncutStartsWithRoot(root: string, path: TreePath)
    ensures root <= Uncut(root, path)
  {
    hide Decimal;
    if path != [] { UncutStartsWithRoot(root, path[..|path| - 1]); }
  }

  /** Two nodes below the root have one id exactly when they have the same last index and the uncut paths of their
      parents agree on their first 60 characters. */
  lemma SharedIdExact(root: string, a: TreePath, b: TreePath)
    requires a != [] && b != []
    ensures NodeId(root, a) == NodeId(root, b)
       <==> a[|a| - 1] == b[|b| - 1]
            && Kept60(Uncut(root, a[..|a| - 1])) == Kept60(Uncut(root, b[..|b| - 1]))
  {
    KeptIsUncut(root, a[..|a| - 1]);
    KeptIsUncut(root, b[..|b| - 1]);
    hide Kept60, Uncut, ChildRequestId;
    ChildIdExact(NodeId(root, a[..|a| - 1]), a[|a| - 1], NodeId(root, b[..|b| - 1]), b[|b| - 1]);
  }

  /** A node below the root has the root's own id exactly when the root is longer than 60 characters and ends there in
      the node's index, however deep the node is. */
  lemma RootIdExact(root: string, path: TreePath)
    requires path != []
    ensures NodeId(root, path) == root <==> |root| > 60 && root[60..] == ['-'] + Decimal(path[|path| - 1])
  {
    var init, index := path[..|path| - 1], path[|path| - 1];
    KeptIsUncut(root, init);
    UncutStartsWithRoot(root, init);
    ChildKeeps(NodeId(root, init), index);
    hide Uncut, ChildRequestId, Decimal;
    if |root| > 60 {
      assert root == root[..60] + root[60..];
      assert (root[..60] + (['-'] + Decimal(index)))[60..] == ['-'] + Decimal(index);
    }
  }

  /** The two cases together, decided from the root and the two paths alone. */
  ghost predicate SharesId(root: string, a: TreePath, b: TreePath) {
    if a == [] && b == [] then true
    else if a == [] || b == [] then
      var path := if a == [] then b else a;
      |root| > 60 && root[60..] == ['-'] + Decimal(path[|path| - 1])
    else
      a[|a| - 1] == b[|b| - 1] && Kept60(Uncut(root, a[..|a| - 1])) == Kept60(Uncut(root, b[..|b| - 1]))
  }

  lemma SharesIdExact(root: string, a: TreePath, b: TreePath)
    ensures NodeId(root, a) == NodeId(root, b) <==> SharesId(root, a, b)
  {
    hide *;
    NodeIdOfRoot(root);
    SharesIdMeans(root, a, b);
    if a != [] && b != [] {
      SharedIdExact(root, a, b);
    } else if b != [] {
      RootIdExact(root, b);
    } else if a != [] {
      RootIdExact(root, a);
    }
  }

  lemma NodeIdOfRoot(root: string)
    ensures NodeId(root, []) == root
  {
  }

  lemma SharesIdMeans(root: string, a: TreePath, b: TreePath)
    ensures a == [] && b == [] ==> SharesId(root, a, b)
    ensures a == [] && b != [] ==> (SharesId(root, a, b) <==> |root| > 60 && root[60..] == ['-'] + Decimal(b[|b| - 1]))
    ensures a != [] && b == [] ==> (SharesId(root, a, b) <==> |root| > 60 && root[60..] == ['-'] + Decimal(a[|a| - 1]))
    ensures a != [] && b != [] ==>
      SharesId(root, a, b)
      == (a[|a| - 1] == b[|b| - 1] && Kept60(Uncut(root, a[..|a| - 1])) == Kept60(Uncut(root, b[..|b| - 1])))
  {
    hide Decimal, Kept60, Uncut;
  }

  /** Under a root of 60 characters or more nodes share an id exactly when they have the same last index. */
  lemma LongRootShares(root: string, a: TreePath, b: TreePath)
    requires |root| >= 60 && a != [] && b != []
    ensures SharesId(root, a, b) <==> a[|a| - 1] == b[|b| - 1]
  {
    hide Decimal;
    UncutStartsWithRoot(root, a[..|a| - 1]);
    UncutStartsWithRoot(root, b[..|b| - 1]);
    hide Uncut;
  }

  /** A root of 60 characters and an index: it is its own child of that index. */
  lemma RootMeetsChild(stem: string, index: nat)
    requires |stem| == 60
    ensures var root := stem + (['-'] + Decimal(index)); NodeId(root, [index]) == root
  {
    var root := stem + (['-'] + Decimal(index));
    assert root[60..] == ['-'] + Decimal(index) && [index][0] == index;
    RootIdExact(root, [index]);
  }

  /** Under a root of 59 characters all cousins of one index meet. */
  lemma CousinsMeet(root: string, i: nat, j: nat, index: nat)
    requires |root| == 59
    ensures NodeId(root, [i, index]) == NodeId(root, [j, index])
  {
    SharedIdExact(root, [i, index], [j, index]);
    assert [i, index][..1] == [i] && [j, index][..1] == [j] && [i][..0] == [] && [j][..0] == [];
    assert Uncut(root, []) == root;
    assert Kept60(Uncut(root, [i])) == root + ['-'] == Kept60(Uncut(root, [j]));
  }

  // ----- the nodes of a tree -----

  /** `path` leads to a node of the tree. */
  predicate Within(narration: Narration, path: TreePath)
    decreases |path|
  {
    path == []
    || (path[0] < |NarratedOf(narration.attachments)|
        && Within(NarratedOf(narration.attachments)[path[0]].narration, path[1..]))
  }

  lemma {:induction false} NodeIdFront(root: string, k: nat, rest: TreePath)
    ensures NodeId(root, [k] + rest) == NodeId(ChildRequestId(root, k), rest)
  {
    hide ChildRequestId;
    var path := [k] + rest;
    if rest == [] {
      assert path == [k] && path[..0] == [] && NodeId(root, path[..0]) == root;
    } else {
      assert path[..|path| - 1] == [k] + rest[..|rest| - 1];
      NodeIdFront(root, k, rest[..|rest| - 1]);
    }
  }

  /** The ids below `id`, from its k-th narrated attachment on. */
  ghost function IdsBelow(id: string, narration: Narration, k: nat): set<string>
    requires k <= |NarratedOf(narration.attachments)|
    decreases narration, |NarratedOf(narration.attachments)| - k
  {
    var narrated := NarratedOf(narration.attachments);
    if k == |narrated| then {}
    else
      assert narrated[k] in narration.attachments;
      {ChildRequestId(id, k)} + IdsBelow(ChildRequestId(id, k), narrated[k].narration, 0)
          + IdsBelow(id, narration, k + 1)
  }

  ghost function NodeIds(id: string, narration: Narration): set<string> {
    {id} + IdsBelow(id, narration, 0)
  }

  /** No id occurs twice in the tree. */
  ghost predicate DistinctIds(id: string, narration: Narration)
    decreases narration
  {
    var narrated := NarratedOf(narration.attachments);
    && id !in IdsBelow(id, narration, 0)
    && forall k | 0 <= k < |narrated| ::
         && narrated[k] in narration.attachments && DistinctIds(ChildRequestId(id, k), narrated[k].narration)
         && NodeIds(ChildRequestId(id, k), narrated[k].narration) !! IdsBelow(id, narration, k + 1)
  }

  lemma IdsUnfold(id: string, narration: Narration, k: nat)
    requires k < |NarratedOf(narration.attachments)|
    ensures NarratedOf(narration.attachments)[k] in narration.attachments
    ensures IdsBelow(id, narration, k)
         == NodeIds(ChildRequestId(id, k), NarratedOf(narration.attachments)[k].narration)
             + IdsBelow(id, narration, k + 1)
  {
    hide NarratedOf, ChildRequestId;
    assert NarratedOf(narration.attachments)[k] in NarratedOf(narration.attachments);
  }

  /** Every id below a node is the id of some path below it. */
  lemma {:induction false} PathOfId(id: string, narration: Narration, k: nat, x: string) returns (path: TreePath)
    requires k <= |NarratedOf(narration.attachments)| && x in IdsBelow(id, narration, k)
    ensures path != [] && path[0] >= k && Within(narration, path) && NodeId(id, path) == x
    decreases narration, |NarratedOf(narration.attachments)| - k
  {
    hide NarratedOf, ChildRequestId, NodeId;
    var narrated := NarratedOf(narration.attachments);
    assert k < |narrated|;
    assert narrated[k] in narrated && narrated[k] in narration.attachments;
    if x == ChildRequestId(id, k) {
      path := [k];
      NodeIdFront(id, k, []);
      NodeIdOfRoot(ChildRequestId(id, k));
      assert path[1..] == [] && [k] + [] == path;
    } else if x in IdsBelow(ChildRequestId(id, k), narrated[k].narration, 0) {
      var rest := PathOfId(ChildRequestId(id, k), narrated[k].narration, 0, x);
      path := [k] + rest;
      NodeIdFront(id, k, rest);
      assert path[1..] == rest;
    } else {
      path := PathOfId(id, narration, k + 1, x);
    }
  }

  /** The id of every path below a node is below it. */
  lemma {:induction false} IdOfPath(id: string, narration: Narration, path: TreePath)
    requires path != [] && Within(narration, path)
    ensures NarratedOf(narration.attachments)[path[0]] in narration.attachments
    ensures NodeId(id, path)
         in NodeIds(ChildRequestId(id, path[0]), NarratedOf(narration.attachments)[path[0]].narration)
    decreases |path|
  {
    hide NarratedOf, ChildRequestId, NodeId;
    var k, rest := path[0], path[1..];
    var child := NarratedOf(narration.attachments)[k];
    assert child in NarratedOf(narration.attachments);
    assert path == [k] + rest;
    NodeIdFront(id, k, rest);
    if rest == [] {
      NodeIdOfRoot(ChildRequestId(id, k));
    } else {
      IdOfPath(ChildRequestId(id, k), child.narration, rest);
      KidIdsBelow(ChildRequestId(id, k), child.narration, 0, rest[0]);
    }
  }

  lemma {:induction false} KidIdsBelow(id: string, narration: Narration, from: nat, k: nat)
    requires from <= k < |NarratedOf(narration.attachments)|
    ensures NarratedOf(narration.attachments)[k] in narration.attachments
    ensures NodeIds(ChildRequestId(id, k), NarratedOf(narration.attachments)[k].narration)
        <= IdsBelow(id, narration, from)
    decreases k - from
  {
    hide *;
    IdsUnfold(id, narration, from);
    if from < k { KidIdsBelow(id, narration, from + 1, k); }
  }

  /** Different nodes have different ids. */
  ghost predicate PathsDistinct(id: string, narration: Narration) {
    forall a: TreePath, b: TreePath ::
      Within(narration, a) && Within(narration, b) && NodeId(id, a) == NodeId(id, b) ==> a == b
  }

  lemma {:induction false} DistinctPaths(id: string, narration: Narration, a: TreePath, b: TreePath)
    requires DistinctIds(id, narration) && Within(narration, a) && Within(narration, b)
             && NodeId(id, a) == NodeId(id, b)
    requires a == [] || (b != [] && a[0] <= b[0])
    ensures a == b
    decreases |a| + |b|
  {
    hide NarratedOf, ChildRequestId, NodeId, NodeIds, IdsBelow;
    NodeIdOfRoot(id);
    if b != [] {
      IdOfPath(id, narration, b);
      if a == [] {
        KidIdsBelow(id, narration, 0, b[0]);
      } else {
        IdOfPath(id, narration, a);
        if a[0] < b[0] {
          KidIdsBelow(id, narration, a[0] + 1, b[0]);
        } else {
          var k := a[0];
          assert a == [k] + a[1..] && b == [k] + b[1..];
          NodeIdFront(id, k, a[1..]);
          NodeIdFront(id, k, b[1..]);
          var child, childId := NarratedOf(narration.attachments)[k].narration, ChildRequestId(id, k);
          if a[1..] == [] || (b[1..] != [] && a[1..][0] <= b[1..][0]) {
            DistinctPaths(childId, child, a[1..], b[1..]);
          } else {
            DistinctPaths(childId, child, b[1..], a[1..]);
          }
        }
      }
    }
  }

  lemma {:induction false} PathsMakeDistinct(id: string, narration: Narration)
    requires PathsDistinct(id, narration)
    ensures DistinctIds(id, narration)
    decreases narration
  {
    hide NarratedOf, ChildRequestId, NodeId, NodeIds, IdsBelow;
    var narrated := NarratedOf(narration.attachments);
    if id in IdsBelow(id, narration, 0) {
      var path := PathOfId(id, narration, 0, id);
      NodeIdOfRoot(id);
      assert Within(narration, []);
      assert false;
    }
    forall k | 0 <= k < |narrated|
      ensures narrated[k] in narration.attachments && DistinctIds(ChildRequestId(id, k), narrated[k].narration)
      ensures NodeIds(ChildRequestId(id, k), narrated[k].narration) !! IdsBelow(id, narration, k + 1)
    {
      IdsUnfold(id, narration, k);
      KidPathsDistinct(id, narration, k);
      PathsMakeDistinct(ChildRequestId(id, k), narrated[k].narration);
      forall x | x in NodeIds(ChildRequestId(id, k), narrated[k].narration) ensures x !in IdsBelow(id, narration, k + 1)
      {
        if x in IdsBelow(id, narration, k + 1) {
          var here := PathAtKid(id, narration, k, x);
          var there := PathOfId(id, narration, k + 1, x);
          assert false;
        }
      }
    }
  }

  lemma KidPathsDistinct(id: string, narration: Narration, k: nat)
    requires PathsDistinct(id, narration) && k < |NarratedOf(narration.attachments)|
    ensures PathsDistinct(ChildRequestId(id, k), NarratedOf(narration.attachments)[k].narration)
  {
    hide NarratedOf, ChildRequestId, NodeId;
    var child := NarratedOf(narration.attachments)[k].narration;
    forall a: TreePath, b: TreePath
      | Within(child, a) && Within(child, b) && NodeId(ChildRequestId(id, k), a) == NodeId(ChildRequestId(id, k), b)
      ensures a == b
    {
      NodeIdFront(id, k, a);
      NodeIdFront(id, k, b);
      assert ([k] + a)[1..] == a && ([k] + b)[1..] == b;
      assert Within(narration, [k] + a) && Within(narration, [k] + b);
    }
  }

  /** An id at or below the k-th child is at a path that starts with `k`. */
  lemma PathAtKid(id: string, narration: Narration, k: nat, x: string) returns (path: TreePath)
    requires k < |NarratedOf(narration.attachments)|
    requires x in NodeIds(ChildRequestId(id, k), NarratedOf(narration.attachments)[k].narration)
    ensures path != [] && path[0] == k && Within(narration, path) && NodeId(id, path) == x
  {
    hide NarratedOf, ChildRequestId, NodeId, IdsBelow;
    var child, rest: TreePath := NarratedOf(narration.attachments)[k].narration, [];
    if x != ChildRequestId(id, k) { rest := PathOfId(ChildRequestId(id, k), child, 0, x); }
    NodeIdOfRoot(ChildRequestId(id, k));
    path := [k] + rest;
    NodeIdFront(id, k, rest);
    assert path[1..] == rest;
  }

  /** Exactly when every node of a tree has its own request id: no two of its paths share one by the rule above. */
  lemma DistinctIdsExact(root: string, narration: Narration)
    ensures DistinctIds(root, narration)
       <==> forall a: TreePath, b: TreePath :: Within(narration, a) && Within(narration, b) && a != b ==>
           !SharesId(root, a, b)
  {
    hide SharesId, NodeId, DistinctIds;
    forall a: TreePath, b: TreePath ensures NodeId(root, a) == NodeId(root, b) <==> SharesId(root, a, b) {
      SharesIdExact(root, a, b);
    }
    if DistinctIds(root, narration) {
      forall a: TreePath, b: TreePath | Within(narration, a) && Within(narration, b) && a != b
        ensures !SharesId(root, a, b)
      {
        if NodeId(root, a) == NodeId(root, b) { DistinctMeansOnePath(root, narration, a, b); }
      }
    } else if PathsDistinct(root, narration) {
      PathsMakeDistinct(root, narration);
    }
  }

  lemma OneStep(narration: Narration, k: nat)
    ensures Within(narration, [k]) <==> k < |NarratedOf(narration.attachments)|
  {
    hide NarratedOf;
    assert [k][1..] == [];
  }

  lemma TwoSteps(narration: Narration, k: nat, j: nat)
    requires k < |NarratedOf(narration.attachments)|
    ensures Within(narration, [k, j])
       <==> j < |NarratedOf(NarratedOf(narration.attachments)[k].narration.attachments)|
  {
    hide NarratedOf;
    assert [k, j][1..] == [j];
    OneStep(NarratedOf(narration.attachments)[k].narration, j);
  }

  /** No child has narrated children of its own. */
  predicate Flat(narration: Narration) {
    forall child <- NarratedOf(narration.attachments) :: NarratedOf(child.narration.attachments) == []
  }

  /** No child's index is what the root holds behind its first 60 characters. */
  ghost predicate RootSpared(root: string, narration: Narration) {
    forall k: nat | k < |NarratedOf(narration.attachments)| :: !SharesId(root, [], [k])
  }

  /** A tree under a root of 60 characters or more has distinct ids exactly when it is at most one level deep and the
      root does not itself end, behind 60 characters, in the index of one of its children. */
  lemma LongRootDistinct(root: string, narration: Narration)
    requires |root| >= 60
    ensures DistinctIds(root, narration) <==> Flat(narration) && RootSpared(root, narration)
  {
    hide DistinctIds, SharesId, NarratedOf, Within, Flat;
    var narrated := NarratedOf(narration.attachments);
    DistinctIdsExact(root, narration);
    if DistinctIds(root, narration) {
      NestedClashes(root, narration);
      forall k: nat | k < |narrated| ensures !SharesId(root, [], [k]) {
        OneStep(narration, k);
        TheRootIsWithin(narration);
        assert [k] != [];
      }
    } else if Flat(narration) {
      var a: TreePath, b: TreePath :| Within(narration, a) && Within(narration, b) && a != b && SharesId(root, a, b);
      ShallowPath(narration, a);
      ShallowPath(narration, b);
      if a != [] && b != [] {
        LongRootShares(root, a, b);
      } else {
        SharesEitherWay(root, a, b);
      }
    }
  }

  lemma TheRootIsWithin(narration: Narration)
    ensures Within(narration, [])
  {
  }

  /** A child's first child has the id of the root's first child. */
  lemma NestedClashes(root: string, narration: Narration)
    requires |root| >= 60 && DistinctIds(root, narration)
    ensures Flat(narration)
  {
    hide DistinctIds, SharesId, NarratedOf, Within;
    var narrated := NarratedOf(narration.attachments);
    DistinctIdsExact(root, narration);
    forall child | child in narrated ensures NarratedOf(child.narration.attachments) == [] {
      var k :| 0 <= k < |narrated| && narrated[k] == child;
      OneStep(narration, 0);
      TwoSteps(narration, k, 0);
      LongRootShares(root, [k, 0], [0]);
      assert [k, 0] != [0];
    }
  }

  lemma SharesEitherWay(root: string, a: TreePath, b: TreePath)
    ensures SharesId(root, a, b) == SharesId(root, b, a)
  {
    hide Decimal, Kept60, Uncut;
  }

  lemma ShallowPath(narration: Narration, path: TreePath)
    requires Flat(narration) && Within(narration, path)
    ensures path == [] || (path == [path[0]] && path[0] < |NarratedOf(narration.attachments)|)
  {
    hide NarratedOf;
    if path != [] {
      assert NarratedOf(narration.attachments)[path[0]] in NarratedOf(narration.attachments);
      assert path[1..] == [];
      assert path == [path[0]] + path[1..];
    }
  }

  // ----- the links of a tree -----

  /** (child id, parent id) for every node below `id`, from its k-th narrated attachment on. */
  ghost function LinksOf(id: string, narration: Narration, k: nat): set<(string, string)>
    requires k <= |NarratedOf(narration.attachments)|
    decreases narration, |NarratedOf(narration.attachments)| - k
  {
    var narrated := NarratedOf(narration.attachments);
    if k == |narrated| then {}
    else
      assert narrated[k] in narration.attachments;
      {(ChildRequestId(id, k), id)} + LinksOf(ChildRequestId(id, k), narrated[k].narration, 0)
      + LinksOf(id, narration, k + 1)
  }

  /** No id that has narrated children exceeds 60 characters. */
  ghost predicate ParentsShort(id: string, narration: Narration)
    decreases narration
  {
    var narrated := NarratedOf(narration.attachments);
    && (narrated != [] ==> |id| <= 60)
    && forall k | 0 <= k < |narrated| ::
         narrated[k] in narration.attachments && ParentsShort(ChildRequestId(id, k), narrated[k].narration)
  }

  /** Each child has one parent and the root is nobody's child. */
  ghost predicate Rooted(links: set<(string, string)>, root: string) {
    && (forall l <- links, m <- links :: l.0 == m.0 ==> l == m)
    && (forall l <- links :: l.0 != root)
  }

  lemma {:induction false} ShortPaths(id: string, narration: Narration, path: TreePath)
    requires ParentsShort(id, narration) && Within(narration, path)
    ensures ShortAbove(id, path)
    decreases |path|
  {
    hide NarratedOf, ChildRequestId, NodeId;
    if path != [] {
      var k, rest := path[0], path[1..];
      ShortPaths(ChildRequestId(id, k), NarratedOf(narration.attachments)[k].narration, rest);
      NodeIdOfRoot(id);
      forall j | 0 <= j < |path| ensures |NodeId(id, path[..j])| <= 60 {
        if j == 0 {
          assert path[..j] == [];
        } else {
          assert path[..j] == [k] + rest[..j - 1];
          NodeIdFront(id, k, rest[..j - 1]);
        }
      }
    }
  }

  /** Without over-long parent ids every node has its own id. */
  lemma ShortTreesAreDistinct(root: string, narration: Narration)
    requires ParentsShort(root, narration)
    ensures DistinctIds(root, narration)
  {
    hide ParentsShort, ShortAbove, NodeId, DistinctIds, Within;
    forall a: TreePath, b: TreePath | Within(narration, a) && Within(narration, b) && NodeId(root, a) == NodeId(root, b)
      ensures a == b
    {
      ShortPaths(root, narration, a);
      ShortPaths(root, narration, b);
      NodeIdsAreDistinct(root, a, b);
    }
    PathsMakeDistinct(root, narration);
  }

  /** Every link below a node leads from a path to the path without its last step. */
  lemma {:induction false} LinkPath(id: string, narration: Narration, k: nat, l: (string, string))
    returns (path: TreePath)
    requires k <= |NarratedOf(narration.attachments)| && l in LinksOf(id, narration, k)
    ensures path != [] && path[0] >= k && Within(narration, path)
    ensures NodeId(id, path) == l.0 && NodeId(id, path[..|path| - 1]) == l.1
    decreases narration, |NarratedOf(narration.attachments)| - k
  {
    hide NarratedOf, ChildRequestId, NodeId;
    var narrated := NarratedOf(narration.attachments);
    assert k < |narrated|;
    var childId := ChildRequestId(id, k);
    assert narrated[k] in narrated && narrated[k] in narration.attachments;
    if l == (childId, id) {
      path := [k];
      NodeIdFront(id, k, []);
      NodeIdOfRoot(childId);
      NodeIdOfRoot(id);
      assert path[1..] == [] && [k] + [] == path && path[..0] == [];
    } else if l in LinksOf(childId, narrated[k].narration, 0) {
      var rest := LinkPath(childId, narrated[k].narration, 0, l);
      path := [k] + rest;
      NodeIdFront(id, k, rest);
      NodeIdFront(id, k, rest[..|rest| - 1]);
      assert path[1..] == rest && path[..|path| - 1] == [k] + rest[..|rest| - 1];
    } else {
      path := LinkPath(id, narration, k + 1, l);
    }
  }

  lemma DistinctMeansOnePath(id: string, narration: Narration, a: TreePath, b: TreePath)
    requires DistinctIds(id, narration) && Within(narration, a) && Within(narration, b)
             && NodeId(id, a) == NodeId(id, b)
    ensures a == b
  {
    hide *;
    if a == [] || (b != [] && a[0] <= b[0]) {
      DistinctPaths(id, narration, a, b);
    } else {
      DistinctPaths(id, narration, b, a);
    }
  }

  /** A tree whose nodes have their own ids gives each child one parent. */
  lemma DistinctIsRooted(root: string, narration: Narration)
    requires DistinctIds(root, narration)
    ensures Rooted(LinksOf(root, narration, 0), root)
  {
    hide LinksOf, DistinctIds, NodeId, Within;
    var links := LinksOf(root, narration, 0);
    forall l, m | l in links && m in links && l.0 == m.0 ensures l == m {
      var a := LinkPath(root, narration, 0, l);
      var b := LinkPath(root, narration, 0, m);
      DistinctMeansOnePath(root, narration, a, b);
    }
    forall l | l in links ensures l.0 != root {
      var a := LinkPath(root, narration, 0, l);
      NodeIdOfRoot(root);
      TheRootIsWithin(narration);
      if l.0 == root { DistinctMeansOnePath(root, narration, [], a); }
    }
  }
}
