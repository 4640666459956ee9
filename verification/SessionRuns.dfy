/** Receipts stay with their own submissions, and accepted answers are answers, after any interleaving of events. */
module SessionRuns {
  import opened Contract
  import opened Text
  import opened Parser
  import opened Composer
  import opened Answers
  import opened Forest
  import opened Projection
  import opened Session
  import Identity

  /** One runtime event. A refused answer becomes an error on its item, whatever was there. */
  datatype Occurrence =
    | Rows(rows: seq<Event>, evidence: Evidence)
    | Account(call: Identity.Call)
    | Answer(itemId: string, answers: seq<QuestionAnswer>, now: nat, refusal: Option<string>)
    | Status(itemId: string, receipt: nat, status: WriteStatus)
    | Close(itemId: string, receipt: nat)
    | Fault(error: string)

  ghost function Step(key: KeyParser, s: State, e: Occurrence): State {
    match e
    case Rows(rows, evidence) => UpdateRowsOf(s, rows, evidence)
    case Account(call) =>
      var t := s.(identity := Identity.Do(s.identity, call));
      if call.Login? || call.CredentialResult? then ReprojectOf(t) else t
    case Answer(itemId, answers, now, refusal) =>
      var (t, r) := SubmitOf(s, itemId, answers, now, key, refusal);
      if r.Err? then ActionErrorOf(t, Some(itemId), r.error) else t
    case Status(itemId, receipt, status) => StatusOf(s, itemId, receipt, status)
    case Close(itemId, receipt) => ClosedOf(s, itemId, receipt)
    case Fault(error) => ActionErrorOf(s, None, error)
  }

  ghost function Run(key: KeyParser, s: State, events: seq<Occurrence>): State {
    if events == [] then s else Step(key, Run(key, s, events[..|events| - 1]), events[|events| - 1])
  }

  function Start(host: string, group: string): State {
    State(host, group, Identity.NEW, [], NO_EVIDENCE, Listening, [], NO_EVIDENCE, 0, None, map[], [], [], [])
  }

  // ----- the account of submissions -----

  /** Whose entry an item has: nobody's, an error's, or a receipt's. */
  function Owner(history: seq<Happening>, itemId: string): Option<Option<nat>> {
    if history == [] then None
    else
      var before, last := Owner(history[..|history| - 1], itemId), history[|history| - 1];
      match last
      case Submitted(id, receipt) => if id == itemId then Some(Some(receipt)) else before
      case Errored(id) => if id == itemId then Some(None) else before
      case Framed(visible) => if itemId in visible then before else None
      case _ => before
  }

  /** A receipt's own statuses folded from `Sending`, deaf to everything else. */
  function Fold(host: string, history: seq<Happening>, itemId: string, receipt: nat): Option<Submission> {
    if history == [] then None
    else
      var before, last := Fold(host, history[..|history| - 1], itemId, receipt), history[|history| - 1];
      if last == Submitted(itemId, receipt) then Some(Submission(itemId, Sending, Some(receipt), None, None))
      else if before.None? then None
      else
        match last
        case Reported(id, r, status) => if id == itemId && r == receipt then Some(Told(host, before.value, status))
            else before
        case Closed(id, r) => if id == itemId && r == receipt then Some(Ended(before.value)) else before
        case _ => before
  }

  /** Every entry belongs to its last owner and, for a receipt, is exactly that receipt's own story. */
  ghost predicate Isolated(s: State) {
    && (forall id :: id in s.submissions <==> Owner(s.history, id).Some?)
    && (forall id <- s.submissions :: Entry(s, id))
  }

  ghost predicate Entry(s: State, id: string)
    requires id in s.submissions
  {
    var sub := s.submissions[id];
    && sub.itemId == id && Owner(s.history, id) == Some(sub.receiptId)
    && (sub.receiptId.Some? ==> Fold(s.host, s.history, id, sub.receiptId.value) == Some(sub))
    && (sub.receiptId.None? ==> sub.phase.Failed? && sub.eventId.None? && sub.error.Some?)
  }

  /** Receipts are numbered in the order they were issued. */
  ghost predicate Numbered(s: State) {
    && (forall h <- s.history :: h.Submitted? ==> h.receipt < |s.sent|)
    && (forall i, j :: 0 <= i < j < |s.history| && s.history[i].Submitted? && s.history[j].Submitted? ==>
          s.history[i].receipt < s.history[j].receipt)
  }

  /** What a step does to the submissions: one happening at most, and one entry at most. */
  ghost predicate Recorded(s: State, t: State, h: Happening) {
    && t.host == s.host && t.history == s.history + [h] && t.sent == s.sent
  }

  lemma OwnerStep(history: seq<Happening>, h: Happening, id: string)
    ensures Owner(history + [h], id)
         == if h.Submitted? && h.itemId == id then Some(Some(h.receipt))
            else if h == Errored(id) then Some(None)
            else if h.Framed? && id !in h.visible then None
            else Owner(history, id)
  {
    assert (history + [h])[..|history|] == history;
  }

  lemma FoldStep(host: string, history: seq<Happening>, h: Happening, id: string, receipt: nat)
    ensures var before := Fold(host, history, id, receipt);
      Fold(host, history + [h], id, receipt)
        == if h == Submitted(id, receipt) then Some(Submission(id, Sending, Some(receipt), None, None))
           else if before.None? then None
           else if h.Reported? && h.itemId == id && h.receipt == receipt then Some(Told(host, before.value, h.status))
           else if h.Closed? && h.itemId == id && h.receipt == receipt then Some(Ended(before.value))
           else before
  {
    assert (history + [h])[..|history|] == history;
  }

  /** An entry the happening is not about stays as it is. */
  lemma EntryStays(s: State, t: State, h: Happening, id: string)
    requires t.host == s.host && t.history == s.history + [h] && id in s.submissions && Entry(s, id)
    requires id in t.submissions && t.submissions[id] == s.submissions[id]
    requires h.Framed? ==> id in h.visible
    requires !h.Framed? && h.itemId == id ==>
      (h.Reported? || h.Closed?) && s.submissions[id].receiptId != Some(h.receipt)
    ensures Entry(t, id)
  {
    OwnerStep(s.history, h, id);
    if s.submissions[id].receiptId.Some? { FoldStep(s.host, s.history, h, id, s.submissions[id].receiptId.value); }
    hide Owner, Fold;
  }

  /** The numbering survives a happening that issues no receipt. */
  lemma NumberedStays(s: State, t: State, h: Happening)
    requires Numbered(s) && t.history == s.history + [h] && t.sent == s.sent && !h.Submitted?
    ensures Numbered(t)
  {
  }

  lemma FrameKeeps(s: State, t: State, visible: set<string>)
    requires Isolated(s) && Numbered(s) && Recorded(s, t, Framed(visible))
    requires t.submissions == Retain(s.submissions, visible)
    ensures Isolated(t) && Numbered(t)
  {
    NumberedStays(s, t, Framed(visible));
    forall id ensures id in t.submissions <==> Owner(t.history, id).Some? { OwnerStep(s.history, Framed(visible), id); }
    hide Owner, Fold, Numbered;
    forall id | id in t.submissions ensures Entry(t, id) { EntryStays(s, t, Framed(visible), id); }
  }

  lemma ErrorKeeps(s: State, itemId: string, error: string)
    requires Isolated(s) && Numbered(s)
    ensures var t := ActionErrorOf(s, Some(itemId), error); Isolated(t) && Numbered(t)
  {
    var t, h := ActionErrorOf(s, Some(itemId), error), Errored(itemId);
    NumberedStays(s, t, h);
    forall id ensures id in t.submissions <==> Owner(t.history, id).Some? { OwnerStep(s.history, h, id); }
    hide Numbered, Owner, Fold;
    forall id | id in t.submissions ensures Entry(t, id) {
      OwnerStep(s.history, h, id);
      if id != itemId { EntryStays(s, t, h, id); }
    }
  }

  /** At most one happening, and any receipt it issues is new. */
  ghost predicate Records(s: State, t: State) {
    && |s.sent| <= |t.sent| && s.history <= t.history && |t.history| <= |s.history| + 1
    && (|t.history| > |s.history| && t.history[|s.history|].Submitted? ==> t.history[|s.history|].receipt >= |s.sent|)
  }

  /** A refused answer changes nothing; an accepted one changes the submissions and adds one intent and one
      happening. */
  lemma SubmitShape(key: KeyParser, s: State, itemId: string, answers: seq<QuestionAnswer>, now: nat,
                    refusal: Option<string>)
    ensures var (t, r) := SubmitOf(s, itemId, answers, now, key, refusal);
      && (r.Err? ==> t == s)
      && t == s.(submissions := t.submissions, sent := t.sent, history := t.history)
      && (r.Ok? ==> |t.sent| == |s.sent| + 1 && t.history == s.history + [Submitted(itemId, |s.sent|)])
  {
    hide ValidAnswer, ComposeAnswer, FindItem, AnswerContent, Describe, Identity.ActivePubkey;
  }

  lemma SubmitRecords(key: KeyParser, s: State, itemId: string, answers: seq<QuestionAnswer>, now: nat,
                      refusal: Option<string>)
    ensures var (t, r) := SubmitOf(s, itemId, answers, now, key, refusal);
      && Records(s, t) && (r.Err? ==> t == s)
      && t.items == s.items && t.shown == s.shown && t.group == s.group && t.rows == s.rows
  {
    hide SubmitOf;
    SubmitShape(key, s, itemId, answers, now, refusal);
    var r := SubmitOf(s, itemId, answers, now, key, refusal).1;
    assert r.Ok? || r.Err?;
  }

  /** The answer an accepted submission freezes. */
  function FrozenFor(s: State, item: SpokenItem, answers: seq<QuestionAnswer>, author: string, now: nat): FrozenAnswer {
    FrozenAnswer(author, now, s.group, item.id, AnswerContent(item, answers), answers)
  }

  lemma WhatAcceptanceMeans(key: KeyParser, s: State, itemId: string, answers: seq<QuestionAnswer>, now: nat,
                            refusal: Option<string>)
    ensures
      var (t, r) := SubmitOf(s, itemId, answers, now, key, refusal);
      var author, item := Identity.ActivePubkey(s.identity), FindItem(s.items, itemId);
      r.Ok? ==>
        && r.value == |s.sent| && author.Some? && item.Some?
        && ValidAnswers(item.value.questions, answers)
        && ComposeAnswer(FrozenFor(s, item.value, answers, author.value, now), key).Ok?
        && t.host == s.host && t.history == s.history + [Submitted(itemId, |s.sent|)]
        && t.sent == s.sent + [ComposeAnswer(FrozenFor(s, item.value, answers, author.value, now), key).value]
        && t.submissions == s.submissions[itemId := Submission(itemId, Sending, Some(|s.sent|), None, None)]
  {
    hide ValidAnswers, ComposeAnswer, FindItem, AnswerContent;
  }

  lemma SubmitKeeps(key: KeyParser, s: State, itemId: string, answers: seq<QuestionAnswer>, now: nat,
                    refusal: Option<string>)
    requires Isolated(s) && Numbered(s)
    ensures var t := SubmitOf(s, itemId, answers, now, key, refusal).0; Isolated(t) && Numbered(t)
  {
    hide SubmitOf, FrozenFor, FindItem, ValidAnswers, ComposeAnswer, Numbered, Owner, Fold;
    WhatAcceptanceMeans(key, s, itemId, answers, now, refusal);
    SubmitRecords(key, s, itemId, answers, now, refusal);
    var (t, r) := SubmitOf(s, itemId, answers, now, key, refusal);
    assert r.Ok? || r.Err?;
    if r.Ok? {
      var receipt: nat := |s.sent|;
      var h := Submitted(itemId, receipt);
      SubmitNumbers(s, t, h);
      forall id ensures id in t.submissions <==> Owner(t.history, id).Some? { OwnerStep(s.history, h, id); }
      forall id | id in t.submissions ensures Entry(t, id) {
        OwnerStep(s.history, h, id);
        FoldStep(s.host, s.history, h, id, receipt);
        if id != itemId { EntryStays(s, t, h, id); }
      }
    }
  }

  /** A submission takes the next receipt. */
  lemma SubmitNumbers(s: State, t: State, h: Happening)
    requires Numbered(s) && h.Submitted? && h.receipt == |s.sent|
    requires t.history == s.history + [h] && |t.sent| == |s.sent| + 1
    ensures Numbered(t)
  {
    forall i, j | 0 <= i < j < |t.history| && t.history[i].Submitted? && t.history[j].Submitted?
      ensures t.history[i].receipt < t.history[j].receipt
    {
      if j == |s.history| { assert t.history[i] in s.history; }
    }
  }

  lemma StatusKeeps(s: State, itemId: string, receipt: nat, status: WriteStatus)
    requires Isolated(s) && Numbered(s)
    ensures var t := StatusOf(s, itemId, receipt, status); Isolated(t) && Numbered(t)
  {
    var t, h := StatusOf(s, itemId, receipt, status), Reported(itemId, receipt, status);
    NumberedStays(s, t, h);
    forall id ensures id in t.submissions <==> Owner(t.history, id).Some? { OwnerStep(s.history, h, id); }
    hide Numbered, Owner, Fold, FailureOf;
    forall id | id in t.submissions ensures Entry(t, id) {
      OwnerStep(s.history, h, id);
      FoldStep(s.host, s.history, h, id, receipt);
      assert Entry(s, id);
      if id != itemId || s.submissions[id].receiptId != Some(receipt) { EntryStays(s, t, h, id); }
    }
  }

  lemma ClosedKeeps(s: State, itemId: string, receipt: nat)
    requires Isolated(s) && Numbered(s)
    ensures var t := ClosedOf(s, itemId, receipt); Isolated(t) && Numbered(t)
  {
    var t, h := ClosedOf(s, itemId, receipt), Closed(itemId, receipt);
    NumberedStays(s, t, h);
    forall id ensures id in t.submissions <==> Owner(t.history, id).Some? { OwnerStep(s.history, h, id); }
    hide Numbered, Owner, Fold;
    forall id | id in t.submissions ensures Entry(t, id) {
      OwnerStep(s.history, h, id);
      FoldStep(s.host, s.history, h, id, receipt);
      assert Entry(s, id);
      if id != itemId || s.submissions[id].receiptId != Some(receipt) { EntryStays(s, t, h, id); }
    }
  }

  /** Parts of the state the submissions' account does not mention. */
  lemma ElsewhereKeeps(s: State, t: State)
    requires Isolated(s) && Numbered(s)
    requires t.host == s.host && t.history == s.history && t.submissions == s.submissions && t.sent == s.sent
    ensures Isolated(t) && Numbered(t)
  {
    forall id | id in t.submissions ensures Entry(t, id) { assert Entry(s, id); }
  }

  lemma StepKeeps(key: KeyParser, s: State, e: Occurrence)
    requires Isolated(s) && Numbered(s)
    ensures Isolated(Step(key, s, e)) && Numbered(Step(key, s, e))
  {
    hide Isolated, Numbered, SubmitOf, StatusOf, ClosedOf, Projected, RejectedCount, ParseAll, VisibleIds;
    match e
    case Rows(rows, evidence) =>
      var t := ReprojectOf(s.(rows := rows, evidence := evidence));
      ElsewhereKeeps(s, t);
      FrameKeeps(t, UpdateRowsOf(s, rows, evidence), VisibleIds(t.items));
    case Account(call) => ElsewhereKeeps(s, Step(key, s, e));
    case Answer(itemId, answers, now, refusal) =>
      var (t, r) := SubmitOf(s, itemId, answers, now, key, refusal);
      SubmitKeeps(key, s, itemId, answers, now, refusal);
      if r.Err? { ErrorKeeps(t, itemId, r.error); }
    case Status(itemId, receipt, status) => StatusKeeps(s, itemId, receipt, status);
    case Close(itemId, receipt) => ClosedKeeps(s, itemId, receipt);
    case Fault(error) => ElsewhereKeeps(s, Step(key, s, e));
  }

  lemma {:induction false} RunKeeps(key: KeyParser, s: State, events: seq<Occurrence>)
    requires Isolated(s) && Numbered(s)
    ensures Isolated(Run(key, s, events)) && Numbered(Run(key, s, events))
  {
    hide Isolated, Numbered, Step;
    if events != [] {
      RunKeeps(key, s, events[..|events| - 1]);
      StepKeeps(key, Run(key, s, events[..|events| - 1]), events[|events| - 1]);
    }
  }

  lemma StartKeeps(host: string, group: string)
    ensures Isolated(Start(host, group)) && Numbered(Start(host, group))
  {
  }

  /** After any interleaving of rows, logins, answers, statuses, closures and errors over any items and receipts: an
      item shows an entry exactly when something still owns it, and an entry carrying a receipt has the phase, event id
      and error of that receipt's own statuses folded from `Sending`, whatever other receipts went through. */
  lemma ReceiptsAreIsolated(key: KeyParser, host: string, group: string, events: seq<Occurrence>)
    ensures var s := Run(key, Start(host, group), events);
      && (forall id :: id in s.submissions <==> Owner(s.history, id).Some?)
      && (forall id <- s.submissions :: s.submissions[id].receiptId.Some? ==>
            var receipt := s.submissions[id].receiptId.value;
            Owner(s.history, id) == Some(Some(receipt))
                && Fold(s.host, s.history, id, receipt) == Some(s.submissions[id]))
  {
    StartKeeps(host, group);
    RunKeeps(key, Start(host, group), events);
    hide Run, Owner, Fold, Numbered;
    var s := Run(key, Start(host, group), events);
    forall id | id in s.submissions ensures Entry(s, id) {}
  }

  // ----- superseded receipts stay gone -----

  lemma {:induction false} OwnerWasSubmitted(history: seq<Happening>, id: string, receipt: nat) returns (at: nat)
    requires Owner(history, id) == Some(Some(receipt))
    ensures at < |history| && history[at] == Submitted(id, receipt)
    ensures forall k | at < k < |history| ::
        history[k] != Errored(id) && !(history[k].Submitted? && history[k].itemId == id)
                                              && !(history[k].Framed? && id !in history[k].visible)
  {
    var n := |history| - 1;
    if history[n] == Submitted(id, receipt) { return n; }
    at := OwnerWasSubmitted(history[..n], id, receipt);
    assert history[at] == history[..n][at];
    forall k | at < k < |history|
      ensures history[k] != Errored(id) && !(history[k].Submitted? && history[k].itemId == id)
              && !(history[k].Framed? && id !in history[k].visible)
    {
      if k < n { assert history[k] == history[..n][k]; }
    }
  }

  /** Once a receipt no longer owns its item's entry, it never does again. */
  lemma GoneReceiptsStayGone(key: KeyParser, host: string, group: string, events: seq<Occurrence>,
                             more: seq<Occurrence>, id: string, receipt: nat)
    requires var s := Run(key, Start(host, group), events);
      receipt < |s.sent| && Owner(s.history, id) != Some(Some(receipt))
    ensures var t := Run(key, Run(key, Start(host, group), events), more);
      Owner(t.history, id) != Some(Some(receipt))
      && (id in t.submissions ==> t.submissions[id].receiptId != Some(receipt))
  {
    var s := Run(key, Start(host, group), events);
    StartKeeps(host, group);
    RunKeeps(key, Start(host, group), events);
    RunKeeps(key, s, more);
    StaysGone(key, s, more, id, receipt);
    var t := Run(key, s, more);
    hide Run, Owner, Numbered;
    if id in t.submissions { assert Entry(t, id); }
  }

  lemma {:induction false} StaysGone(key: KeyParser, s: State, more: seq<Occurrence>, id: string, receipt: nat)
    requires receipt < |s.sent| && Owner(s.history, id) != Some(Some(receipt))
    ensures var t := Run(key, s, more); receipt < |t.sent| && Owner(t.history, id) != Some(Some(receipt))
  {
    if more != [] {
      hide Owner, Step;
      StaysGone(key, s, more[..|more| - 1], id, receipt);
      StepKeepsGone(key, Run(key, s, more[..|more| - 1]), more[|more| - 1], id, receipt);
    }
  }

  lemma StepKeepsGone(key: KeyParser, s: State, e: Occurrence, id: string, receipt: nat)
    requires receipt < |s.sent| && Owner(s.history, id) != Some(Some(receipt))
    ensures var t := Step(key, s, e); receipt < |t.sent| && Owner(t.history, id) != Some(Some(receipt))
  {
    var t := Step(key, s, e);
    StepRecords(key, s, e);
    hide Step, Owner;
    if t.history != s.history {
      assert t.history == s.history + [t.history[|s.history|]];
      OwnerStep(s.history, t.history[|s.history|], id);
    }
  }

  lemma StepRecords(key: KeyParser, s: State, e: Occurrence)
    ensures Records(s, Step(key, s, e))
  {
    hide SubmitOf, Projected, RejectedCount, ParseAll, VisibleIds, Told, Ended, Retain;
    match e
    case Answer(itemId, answers, now, refusal) => SubmitRecords(key, s, itemId, answers, now, refusal);
    case _ =>
  }

  // ----- the items on display -----

  lemma {:induction false} FindConcat(a: seq<SpokenItem>, b: seq<SpokenItem>, id: string)
    ensures FindItem(a + b, id) == if FindItem(a, id).Some? then FindItem(a, id) else FindItem(b, id)
  {
    if a == [] {
      assert a + b == b;
    } else {
      assert (a + b)[1..] == a[1..] + b;
      FindConcat(a[1..], b, id);
    }
  }

  /** An item can be answered exactly when it is among the visible ids submissions are pruned to. */
  lemma {:induction false} FoundIsVisible(items: seq<SpokenItem>, id: string)
    ensures FindItem(items, id).Some? <==> id in VisibleIds(items)
    ensures FindItem(items, id).Some? ==> FindItem(items, id).value.id == id
  {
    if items != [] {
      var init, last := items[..|items| - 1], items[|items| - 1];
      FoundIsVisible(init, id);
      FoundIsVisible(last.children, id);
      assert items == init + [last];
      FindConcat(init, [last], id);
      assert [last][1..] == [];
    }
  }

  /** Whatever is found in the forest is the resolved item of that id. */
  lemma {:induction false} FoundIsResolved(items: Items, ids: seq<string>, depth: nat, id: string)
    requires Keyed(items) && Elements(ids) <= items.Keys && depth <= MAX_ATTACH_DEPTH
    requires FindItem(Subtrees(items, ids, depth), id).Some?
    ensures id in items
    ensures var found := FindItem(Subtrees(items, ids, depth), id).value;
      found == items[id].(children := found.children)
    decreases MAX_ATTACH_DEPTH - depth, |ids|
  {
    hide *;
    if ids == [] {
      NoSubtrees(items, depth);
      NothingFound(id);
    } else {
      var init, last := ids[..|ids| - 1], ids[|ids| - 1];
      SubtreesSnoc(items, ids, depth);
      var tree := Subtree(items, last, depth);
      FindConcat(Subtrees(items, init, depth), [tree], id);
      if FindItem(Subtrees(items, init, depth), id).Some? {
        FoundIsResolved(items, init, depth, id);
      } else {
        SubtreeId(items, last, depth);
        FindInTree(items, last, depth, id);
        if last != id { FoundIsResolved(items, FirstKids(items, last), depth + 1, id); }
      }
    }
  }

  lemma NothingFound(id: string)
    ensures FindItem([], id).None?
  {
  }

  lemma FindInTree(items: Items, root: string, depth: nat, id: string)
    requires root in items && depth <= MAX_ATTACH_DEPTH && Subtree(items, root, depth).id == root
    ensures Elements(FirstKids(items, root)) <= items.Keys
    ensures Subtree(items, root, depth) == items[root].(children := Subtree(items, root, depth).children)
    ensures var found := FindItem([Subtree(items, root, depth)], id);
      if root == id then found == Some(Subtree(items, root, depth))
      else if depth < MAX_ATTACH_DEPTH then found == FindItem(Subtrees(items, FirstKids(items, root), depth + 1), id)
      else found.None?
  {
    KidsAreItems(items, root);
    hide FirstKids, Kids, Subtrees, Elements;
    var tree := Subtree(items, root, depth);
    assert [tree][1..] == [] && FindItem([], id).None?;
  }

  /** The queue on display is a projection of the rows last shown, all of them events of the group. */
  ghost predicate Shows(s: State) {
    && (s.items == [] || exists viewer :: s.items == Projected(viewer, ParseAll(s.shown, s.group)))
    && forall row <- s.shown :: IsLowerHex(row.id, 64)
  }

  /** Rows carry event ids. */
  ghost predicate RealRows(e: Occurrence) {
    e.Rows? ==> forall row <- e.rows :: IsLowerHex(row.id, 64)
  }

  ghost predicate RowsReal(s: State) {
    forall row <- s.rows :: IsLowerHex(row.id, 64)
  }

  lemma ReprojectShows(s: State)
    requires Shows(s) && RowsReal(s)
    ensures Shows(ReprojectOf(s)) && RowsReal(ReprojectOf(s)) && ReprojectOf(s).group == s.group
  {
    hide Projected, RejectedCount, ParseAll;
    if s.rows != [] {
      var viewer, t := Identity.ActivePubkey(s.identity), ReprojectOf(s);
      assert t.items == Projected(viewer, ParseAll(t.shown, t.group));
    }
  }

  lemma StepShows(key: KeyParser, s: State, e: Occurrence)
    requires Shows(s) && RowsReal(s) && RealRows(e)
    ensures Shows(Step(key, s, e)) && RowsReal(Step(key, s, e)) && Step(key, s, e).group == s.group
  {
    hide SubmitOf, Projected, RejectedCount, ParseAll, VisibleIds, Told, Ended, Retain, Shows, RowsReal;
    SameRows(s, Step(key, s, e));
    match e
    case Rows(rows, evidence) =>
      NewRows(s, rows, evidence);
      ReprojectShows(s.(rows := rows, evidence := evidence));
      SameDisplay(ReprojectOf(s.(rows := rows, evidence := evidence)), Step(key, s, e));
    case Account(call) =>
      var t := s.(identity := Identity.Do(s.identity, call));
      SameDisplay(s, t);
      ReprojectShows(t);
    case Answer(itemId, answers, now, refusal) =>
      SubmitRecords(key, s, itemId, answers, now, refusal);
      SameDisplay(s, Step(key, s, e));
    case Status(_, _, _) => SameDisplay(s, Step(key, s, e));
    case Close(_, _) => SameDisplay(s, Step(key, s, e));
    case Fault(_) => SameDisplay(s, Step(key, s, e));
  }

  lemma SameDisplay(s: State, t: State)
    requires Shows(s) && t.items == s.items && t.shown == s.shown && t.group == s.group
    ensures Shows(t) && (RowsReal(s) && t.rows == s.rows ==> RowsReal(t))
  {
  }

  lemma SameRows(s: State, t: State)
    requires RowsReal(s)
    ensures t.rows == s.rows ==> RowsReal(t)
  {
  }

  lemma NewRows(s: State, rows: seq<Event>, evidence: Evidence)
    requires Shows(s) && forall row <- rows :: IsLowerHex(row.id, 64)
    ensures Shows(s.(rows := rows, evidence := evidence)) && RowsReal(s.(rows := rows, evidence := evidence))
  {
  }

  lemma {:induction false} RunShows(key: KeyParser, host: string, group: string, events: seq<Occurrence>)
    requires forall e <- events :: RealRows(e)
    ensures var s := Run(key, Start(host, group), events); Shows(s) && RowsReal(s) && s.group == group
  {
    hide Shows, RowsReal, RealRows, Step;
    StartShows(host, group);
    if events != [] {
      assert events[|events| - 1] in events;
      RunShows(key, host, group, events[..|events| - 1]);
      StepShows(key, Run(key, Start(host, group), events[..|events| - 1]), events[|events| - 1]);
    }
  }

  lemma StartShows(host: string, group: string)
    ensures Shows(Start(host, group)) && RowsReal(Start(host, group))
  {
  }

  /** An item on display was parsed from one of the rows shown, and its questions are that event's. */
  lemma ShownItemWasParsed(s: State, id: string) returns (asked: Event)
    requires Shows(s) && FindItem(s.items, id).Some?
    ensures asked in s.shown && asked.id == id && ParseItem(asked).Some?
    ensures FindItem(s.items, id).value.id == id
    ensures FindItem(s.items, id).value.questions == ParseItem(asked).value.questions
  {
    hide ParseItem, Parse, ParseAll, Projected, FindItem, ItemsOf;
    var viewer :| s.items == Projected(viewer, ParseAll(s.shown, s.group)) by { NotEmptyWhenFound(s.items, id); }
    var parsed := ParseAll(s.shown, s.group);
    FoundInProjection(viewer, parsed, id);
    ItemsMembers(parsed);
    asked := RowOf(s.shown, s.group, ItemsOf(parsed)[id]);
    ParsedItemIsItsEvents(asked, s.group, ItemsOf(parsed)[id]);
  }

  lemma NotEmptyWhenFound(items: seq<SpokenItem>, id: string)
    requires FindItem(items, id).Some?
    ensures items != []
  {
  }

  /** A projected item is the parsed one in everything its event said. */
  lemma FoundInProjection(viewer: Option<string>, parsed: Events, id: string)
    requires FindItem(Projected(viewer, parsed), id).Some?
    ensures id in ItemsOf(parsed) && ItemsOf(parsed)[id].id == id
    ensures var found := FindItem(Projected(viewer, parsed), id).value;
      found.id == id && found.questions == ItemsOf(parsed)[id].questions
  {
    hide FindItem, Subtrees, FirstTops, ItemsOf, SelectAnswer, AckBy, Summaries;
    ItemsMembers(parsed);
    FoundIsResolved(Resolve(viewer, parsed), FirstTops(Resolve(viewer, parsed)), 0, id);
  }

  lemma RowOf(rows: seq<Event>, group: string, item: SpokenItem) returns (row: Event)
    requires Some(ItemEvent(item)) in ParseAll(rows, group)
    ensures row in rows && Parse(row, group) == Some(ItemEvent(item))
  {
    hide Parse;
    var parsed := ParseAll(rows, group);
    var k :| 0 <= k < |parsed| && parsed[k] == Some(ItemEvent(item));
    row := rows[k];
  }

  lemma ParsedItemIsItsEvents(row: Event, group: string, item: SpokenItem)
    requires Parse(row, group) == Some(ItemEvent(item))
    ensures ParseItem(row) == Some(item) && item.id == row.id
  {
    hide ItemAccepted;
  }

  /** Whenever an answer is accepted in any run, what reaches the group is an answer to that very item that fits its
      questions: composing and trimming never turn an accepted answer into a rejected one. */
  lemma AcceptedAnswersAreValid(key: KeyParser, host: string, group: string, events: seq<Occurrence>, itemId: string,
                                answers: seq<QuestionAnswer>, now: nat, refusal: Option<string>, event: Event)
    requires forall e <- events :: RealRows(e)
    requires
      var (t, r) := SubmitOf(Run(key, Start(host, group), events), itemId, answers, now, key, refusal);
      r.Ok? && r.value < |t.sent| && Delivers(event, t.sent[r.value])
    ensures
      var item, read := FindItem(Run(key, Start(host, group), events).items, itemId), Parse(event, group);
      item.Some? && read.Some? && read.value.AnswerEvent? && read.value.answer.rootId == itemId
      && ValidAnswer(item.value.questions, read.value.answer.value)
  {
    hide *;
    RunShows(key, host, group, events);
    var s := Run(key, Start(host, group), events);
    WhatAcceptanceMeans(key, s, itemId, answers, now, refusal);
    var asked := ShownItemWasParsed(s, itemId);
    RowIsReal(s, asked);
    var item := FindItem(s.items, itemId).value;
    var author := Identity.ActivePubkey(s.identity).value;
    FrozenFacts(s, item, answers, author, now);
    AcceptedAnswersSurvive(asked, group, FrozenFor(s, item, answers, author, now), key, event);
  }

  lemma FrozenFacts(s: State, item: SpokenItem, answers: seq<QuestionAnswer>, author: string, now: nat)
    ensures var frozen := FrozenFor(s, item, answers, author, now);
      frozen.rootEventId == item.id && frozen.groupId == s.group && frozen.answers == answers
  {
  }

  lemma RowIsReal(s: State, row: Event)
    requires Shows(s) && row in s.shown
    ensures IsLowerHex(row.id, 64)
  {
  }
}
