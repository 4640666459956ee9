# TTS29 in Dafny

A model of the parts of TTS29 whose correctness is not visible in any one function: the producer daemon that
publishes narrated items through crashes, the wire format it prints and everyone parses, the queue every client
projects from an unordered bag of events, the session and identity state machines of the client kernel, and the
read-along transcript.

`dafny verify dfyconfig.toml` checks the whole project.

## How it is laid out

| file | what it holds |
|---|---|
| `Contract`, `Text` | the shared values; Rust string trimming, bounds, decimal numbers and string order |
| `Tags`, `Parser`, `Composer` | reading and printing tag rows, with the loops of the source proved against functions |
| `RoundTrip`, `Answers` | printing then parsing, for items and for answers; validity and selection of answers |
| `Order`, `Latest`, `Forest` | sorting, last-writer-wins maps and the bounded forest, as mathematics |
| `Projection`, `Projector` | what the queue is, and the source's loops that compute it |
| `Jobs`, `Files`, `Journal`, `Members`, `Publisher`, `Runner` | job records, staged files, the journal, the relay's membership frames, the NMP store and the seven-phase job machine |
| `Runs`, `CleanRun` | what holds over whole runs of one runner, and when a publication completes from wherever it stands |
| `Production`, `Trees`, `TreeRuns`, `TreeCompletion`, `TreeReadiness` | the publication of spoken trees: once, in order, when it completes, and when it cannot |
| `Cluster`, `ClusterRuns` | many processes on one journal and one NMP store, one file operation at a time |
| `Identity`, `Session`, `SessionRuns`, `AcceptedRun` | accounts, answers in flight and their receipts, and a run in which an answer is accepted |
| `Sentences`, `Transcript`, `Segments`, `ReadAlong` | the read-along document |

Where the source changes things step by step there is a method or a class, proved equal to a function of the inputs or
of the old state; the properties are lemmas about those functions. Effects that the code cannot control (the
synthesizer, the uploader, the relay, the engine, how many file operations succeed before a fault) are inputs, so every
statement is for all of their answers. Hashes and key parsing are function-valued parameters.

## Where the code and its documentation differ

The model follows the code.

- `docs/protocol.md` sorts items by descending `(created_at, event_id)`; `project` sorts by descending `created_at` and
  breaks ties by ascending id (`core/src/projection.rs:116-121`).
- Its comment on `assemble_subtree` and the document say cycles and overflow are dropped and counted. An attach cycle is
  never reached from a top-level item, so it vanishes without being counted (`Forest.CyclesVanish`), and of what the
  depth and width bounds cut only the direct links are counted, not what hangs beneath them (`Forest.ForestCutExact`).
- A numbered line without a space behind its full stop loses the character there: of "1.foo" only "oo" is spoken
  (`Segments.SpeechGivenUp`, `Segments.LetterBehindTheStopIsLost`).
- `valid_artifact` accepts an attachment label that `parse_item` refuses, so an accepted item can be unreadable; the
  exact condition is in `RoundTrip.ItemRoundTrip` and an instance in `RoundTrip.BlankLabelIsLost`.
- An answer rooted at an upper-case event id is composed but read by nobody (`Answers.AnswerRoundTrip`, with an instance
  in `Answers.UpperCaseRootIsLost`).
- The source bounds a derived request id by keeping 60 characters of its parent's, so nodes of one tree can share an id.
  `Trees.SharesIdExact` says exactly when two nodes do and `Trees.DistinctIdsExact` exactly when a tree has no such pair;
  `Trees.RootMeetsChild`, `Trees.LongParentsCollide` and `Trees.CousinsMeet` are instances. A tree in which nodes of
  different depths share an id fails on every attempt (`TreeRuns.ClashingTreesNeverPublish`); where the node's files and
  the journal can be read it is refused as a conflict (`TreeRuns.OtherLinkConflicts`). Nodes of one depth that share an
  id can only be published when their parents are one event (`TreeRuns.SharedIdsShareLinks`).

## Model

| member | source | states |
|---|---|---|
| Text.DecimalRoundTrip | protocol/src/parse/tags.rs:82-107 | a byte count written in decimal is read back as itself exactly when it fits a u64 |
| Tags.KeyedText | protocol/src/parse/tags.rs:157-170 | the loop over keyed rows gives the map of bounded texts, or nothing on a malformed or repeated key |
| Tags.KeyedOptions | protocol/src/parse/tags.rs:171-199 | the loop with its set of (question, option) pairs gives each question's options in order, or nothing on a fault or repeat |
| Tags.Questions | protocol/src/parse/tags.rs:108-156 | the drained label, description and option maps give the same questions as reading the rows one by one, and leftovers refuse the event |
| Parser.ReadAnswer | protocol/src/parse/mod.rs:97-130 | the loop with its `seen` set reads exactly the answers of the event, or refuses it |
| Composer.CheckQuestions | protocol/src/compose.rs:107-146 | the nested loops with their id sets report the first fault of the first faulty question |
| Composer.PrintTags | protocol/src/compose.rs:157-199 | the pushed rows are the item's rows in their fixed order |
| RoundTrip.ItemRoundTrip | protocol/src/compose.rs:47-213 | an accepted item, delivered as composed, parses to itself with free text trimmed exactly when every attachment label is bounded, and is refused otherwise |
| RoundTrip.BlankLabelIsLost | protocol/src/compose.rs:148-156 | a concrete item that validates, composes and yet parses to nothing |
| RoundTrip.RoundTripSettles | protocol/src/parse/mod.rs:52-95 | composing the parsed item again is accepted and parses to the identical item |
| RoundTrip.QuestionsRoundTrip | protocol/src/parse/tags.rs:108-156 | valid questions come back in order with their kinds, titles, descriptions and options trimmed |
| Answers.CheckAnswer | protocol/src/answer.rs:5-33 | the loop over an id map and an answered set decides exactly the declarative validity of an answer |
| Answers.BestIsGreatest | protocol/src/answer.rs:35-51 | the selected answer is a candidate and no other has a greater (created_at, event_id) |
| Answers.BestOfSameSet | protocol/src/answer.rs:35-51 | selection depends only on the set of candidates |
| Answers.ValidateAnswers | protocol/src/related.rs:80-99 | the loop with its id set accepts exactly the composable answers |
| Answers.AnswerRoundTrip | protocol/src/related.rs:45-78 | a composed answer is read as an answer to its root with trimmed values exactly when the root id is lower-case hexadecimal |
| Answers.UpperCaseRootIsLost | protocol/src/related.rs:45-78 | a concrete answer is composed whether its root is written in upper or lower case, and read only in lower case |
| Answers.TrimmingQuestionsKeepsSelection | daemon/src/answer_wait.rs:187-198 | selecting with the producer's untrimmed questions and with the parsed ones gives the same answer |
| Answers.AcceptedAnswersSurvive | protocol/src/parse/mod.rs:97-130 | an answer valid for a parsed item is still valid for it after composing, delivery and parsing |
| Order.FirstByRank | core/src/projection.rs:105-122 | an id is among the first n of a sorted listing exactly when fewer than n others come before it |
| Order.ListingUnique | core/src/projection.rs:105-122 | a sorted listing of a set is unique, so any sort gives the same one |
| Latest.LatestIsGreatest | core/src/projection.rs:198-211 | replacing by the later entry keeps, per key, a received entry that no other beats |
| Latest.LatestOfSameSet | core/src/projection.rs:198-211 | the kept entries depend only on the set of entries, whatever their order and repetition |
| Forest.PlacementExact | core/src/projection.rs:93-137 | an item is placed exactly when its chain ends at one of the first 40 shown top-level items at depth at most 3, and it and each ancestor below the root are among the first 12 siblings |
| Forest.ForestInOrder | core/src/projection.rs:105-123 | the trees are the first tops newest first, then by ascending id, and every node's children are its first kids by (created_at, id) |
| Forest.ForestDistinctAndBounded | core/src/projection.rs:124-137 | for arbitrary links no id occurs twice in the forest and it has at most 75,400 nodes |
| Forest.ForestCutExact | core/src/projection.rs:158-196 | the links counted while assembling are exactly the links from placed nodes to items not placed |
| Forest.CyclesVanish | core/src/projection.rs:93-104 | an attached item with a present parent whose chain never reaches a top-level item is neither placed nor counted |
| Forest.StraysVanish | core/src/projection.rs:93-104 | a child of an orphan and an item attached to itself are such items |
| Projection.ProjectionIgnoresOrder | core/src/projection.rs:17-137 | with one event per id, permuting or repeating rows does not change the projected queue |
| Projection.RejectionIgnoresOrder | core/src/projection.rs:28-104 | permuting rows does not change the rejection count |
| Projection.ForeignAcksAreInvisible | core/src/projection.rs:75-91 | acknowledgements by anyone but the viewer never affect the projected items |
| Projection.ClientAndDaemonAgree | daemon/src/answer_wait.rs:187-198 | for the same rows the client's answer on the parsed item is the one the daemon selects from the producer's own questions |
| Projector.FoldRows | core/src/projection.rs:28-58 | the fold into four maps and a counter yields the items, the answers by root, the latest acknowledgements and reactions, and the unparsed rows |
| Projector.CountUnknownAnswers | core/src/projection.rs:60-65 | the sum over the answer map counts the answers to unknown roots |
| Projector.ResolveItems | core/src/projection.rs:75-91 | draining answers and acknowledgements item by item resolves every item as if nothing had been drained, and counts the unfit answers |
| Projector.ReactionSummaries | core/src/projection.rs:213-237 | grouping then sorting gives one summary per active emoji, its distinct reactors in order and their number |
| Projector.IndexChildren | core/src/projection.rs:93-104 | every attached item is listed under its present parent once, every unattached one as a top, and the rest are counted as orphans |
| Projector.AssembleSubtree | core/src/projection.rs:158-196 | with the shared visited set and counter: a fresh node is never refused, yields its whole bounded subtree, marks exactly its ids and counts exactly its cut links |
| Projector.Project | core/src/projection.rs:17-154 | the loops compute the projected queue and the exact rejection count |
| Journal.PathsAreDistinct | daemon/src/journal.rs:61-72 | record files and staged files of valid ids, processes and counters never share a path |
| Journal.FileJobJournal.Load | daemon/src/journal.rs:96-106 | a reader finds no record or the complete one, and never a corrupt one |
| Journal.FileJobJournal.Insert | daemon/src/journal.rs:108-123 | whichever operation fails, the record is either not visible or linked whole, and an existing record stays |
| Journal.FileJobJournal.Save | daemon/src/journal.rs:125-129 | whichever operation fails, readers see the old record or the whole new one |
| Members.ObserveMembership | daemon/src/nmp_publisher.rs:141-202 | the loop over row deltas answers, once the host's source reconciles, with the least id among the current rows that authorize the member, and refuses more than four rows, a refusing host or frames that end early |
| Publisher.NmpPublisher.Authorize | daemon/src/nmp_publisher.rs:51-100 | the cache, then the group bound, then what the relay's frames show, then the refusals of token and write, then one membership write per correlation token |
| Publisher.NmpPublisher.ResumeAuthorization | daemon/src/nmp_publisher.rs:102-120 | an acknowledgement fills the cache; a duplicate-member refusal falls back to it |
| Runner.ProducerRunner.Admit | daemon/src/runner.rs:109-138 | admission journals one record per id, also against a rival admission, and answers with the journaled one or a conflict |
| Runner.ProducerRunner.Advance | daemon/src/runner.rs:140-261 | load, effect, save: the new journal, store and cache for every answer of the world and every fault |
| Runs.ExactlyOnce | daemon/src/runner.rs:140-261 | in every run with lost saves and restarts, all spoken writes of a job are its one journaled item with one event id, it has at most one membership write, and a published record carries that item's id and receipt |
| Runs.SettledOnce | daemon/src/runner.rs:140-261 | a job's request, digest, author and time, its frozen item and its published record never change again, and its rank never rises |
| Runs.AdvanceLowersRank | daemon/src/runner.rs:146-261 | a successful advance journals what it returns and strictly lowers a rank of at most 6; a failed one never raises it |
| CleanRun.CooperativeWorldPublishes | daemon/src/production.rs:357-379 | from every sound state, with no record or this request's record at any phase, a world that answers the remaining stages well gets the one frozen item published; the log gains exactly the writes still owed, at most one of each kind and none once the receipt is journaled |
| Trees.PublishAsSound | daemon/src/production.rs:357-379 | publishing never exceeds its six stages and returns the journaled published record of this request and author |
| Trees.RepublishIsIdempotent | daemon/src/request.rs:25-37 | a published request returns its one record for any timestamp and changes nothing; another digest or author is refused |
| Trees.PublishedOnce | daemon/src/production.rs:357-379 | two successful publications of one id with anything between return one record, and all its spoken writes carry one event id |
| Trees.ChildIdExact | daemon/src/production.rs:389-394 | derived ids agree exactly when the first 60 characters of the parents and the indices agree |
| Trees.SharesIdExact | daemon/src/production.rs:389-394 | two nodes of a tree have one id exactly when the rule on root and paths says so: below the root, equal last indices and equal first 60 characters of the parents' uncut paths; with the root, a root over 60 characters that ends there in the node's index |
| Trees.DistinctIdsExact | daemon/src/production.rs:322-338 | all nodes of a tree have their own ids exactly when no two of its paths share one by that rule |
| Trees.LongRootDistinct | daemon/src/production.rs:322-338 | under a root of 60 characters or more that is so exactly for trees one level deep whose root does not end in a child's index |
| Trees.ChildIdValid | daemon/src/request.rs:39-48 | a derived id of a valid parent is valid exactly when it is at most 64 characters long |
| Trees.NodeIdsAreDistinct | daemon/src/production.rs:322-338 | with no parent id over 60 characters, different paths in a tree have different request ids |
| TreeRuns.TreeExactlyOnce | daemon/src/production.rs:211-342 | a tree published after any failed attempts and restarts has one event per node, each child naming its parent's event, child ids reported in post-order, unchanged by anything later |
| TreeRuns.ParentsAreFirst | daemon/src/production.rs:313-341 | through any number of attempts on any family of trees, a parent's write precedes every write of its children |
| TreeRuns.RetriedTreeInOrder | daemon/src/production.rs:313-341 | the same for one tree whose nodes have their own ids |
| TreeRuns.SharedIdsShareLinks | daemon/src/production.rs:260-342 | in a published tree nodes that share an id are attached to one and the same event |
| TreeRuns.ClashingTreesNeverPublish | daemon/src/production.rs:211-342 | a tree in which nodes of different depths share an id fails on every attempt in every sound state; for the root and a descendant whatever the hashes |
| TreeRuns.OtherLinkConflicts | daemon/src/request.rs:25-37 | a node whose id is journaled for another link is refused as a conflict and changes nothing, when its files and the journal can be read |
| TreeCompletion.CooperativeTreePublishes | daemon/src/production.rs:211-342 | after any attempts, however they failed, an attempt with unchanged node requests on a tree with distinct ids publishes the whole tree when the world answers what is left of every node, the relay only about the first node that still has to be authorized |
| TreeReadiness.TreeReadinessIsPossible | daemon/src/production.rs:260-342 | a new tree of two nodes, with the relay silent about the second, meets the premises of completion, whatever the digest |
| Production.ProductionProducer.PublishNode | daemon/src/production.rs:260-342 | the recursion with its shared child list publishes the node, then its narrated attachments in order |
| Production.ProductionProducer.PublishTree | daemon/src/production.rs:211-258 | after the group check and the request identity: root and children are those of the recursive publication, signed by that identity, unless closing it fails |
| ClusterRuns.ReadersAgree | daemon/src/journal.rs:95-130 | under every interleaving of file operations and crashes, records and audio are read whole or not at all, all successful admissions agree with the record, and its identity and the committed audio never change |
| ClusterRuns.RunnersFreezeOneItem | daemon/src/kokoro.rs:128-204 | when uploads depend only on content, all processes freeze one and the same item |
| ClusterRuns.RunnersAuthorizeOnce | daemon/src/nmp_publisher.rs:51-139 | under every interleaving all processes together write at most one membership, every item any of them sends is the record's but for its audio, and a published record names its own write's event |
| ClusterRuns.RunnersSendOneItem | daemon/src/nmp_publisher.rs:104-139 | when uploads depend only on content, every spoken write of every process is one item with one event id, the one in the published record |
| ClusterRuns.NextKeeps | daemon/src/runner.rs:109-138 | each single operation, failure or crash of any process keeps the agreement and takes nothing back |
| Identity.AlwaysCoherent | core/src/identity.rs:51-203 | in every reachable state the phase is a function of account and pending request; the engine's registrations are the held one and those it failed to remove, its active account the held one or one it failed to clear, and neither failure leaves anything behind while it obeys |
| Identity.SettledAtMostOnce | core/src/identity.rs:117-203 | credential requests are settled at most once each exactly until the u64 ids run out |
| Identity.StaleResultsChangeNothing | core/src/identity.rs:117-130 | a result for anything but the pending request, or for one already settled, changes nothing |
| Identity.ShutdownReleasesEverything | core/src/identity.rs:159-189 | shutdown leaves no registration and no active account but what the engine fails to remove or clear then or failed to before |
| Identity.IdentityController.CredentialResult | core/src/identity.rs:117-157 | the result activates, removes, detaches or restores as the pending request and the engine's answers, failures included, say |
| Session.Session.SubmitAnswer | core/src/session.rs:78-137 | the checks in order, the frozen answer, and one new `Sending` entry under a new receipt |
| Session.Session.ReceiptStatus | core/src/session.rs:139-177 | a status changes only the entry that carries its receipt |
| Session.Session.UpdateRows | core/src/session.rs:50-57 | rows and evidence reproject the queue unless the rows are empty, and entries of invisible items go |
| SessionRuns.ReceiptsAreIsolated | core/src/session.rs:126-208 | after any interleaving an entry with a receipt is that receipt's own statuses folded from `Sending`, and an entry exists exactly while something owns it |
| SessionRuns.GoneReceiptsStayGone | core/src/session.rs:193-208 | a superseded or pruned receipt never shows again |
| SessionRuns.FoundIsVisible | core/src/session.rs:230-245 | an item can be found exactly when it is among the visible ids |
| SessionRuns.AcceptedAnswersAreValid | core/src/session.rs:95-124 | whenever an answer is accepted in any run, what is delivered parses as a valid answer to that item |
| AcceptedRun.AnswerIsAccepted | core/src/session.rs:78-124 | a run of a login and one delivered item in which an answer is accepted and can be delivered |
| Sentences.SplitSentences | apple/TTS29Package/Sources/TTS29Feature/TranscriptModel.swift:192-220 | the nested scanner ends and gives the sentences cut at each first terminal mark before whitespace |
| Sentences.SplitConserves | apple/TTS29Package/Sources/TTS29Feature/TranscriptModel.swift:192-220 | the sentences keep every visible character in order, none is empty, and there are none exactly for blank text |
| Sentences.SentencesWeighTheText | apple/TTS29Package/Sources/TTS29Feature/TranscriptModel.swift:182-186 | the sentences' weights add up to the text's weight |
| Transcript.Segment | apple/TTS29Package/Sources/TTS29Feature/TranscriptModel.swift:109-166 | the loop with its pending lists gives the blocks of feeding the lines one by one |
| Transcript.NewDocument | apple/TTS29Package/Sources/TTS29Feature/TranscriptModel.swift:42-74 | the two cursors lay blocks and sentences on the timeline by their shares of the total weight |
| Segments.SegmentKeepsWhatIsSpoken | apple/TTS29Package/Sources/TTS29Feature/TranscriptModel.swift:109-178 | the visible characters of a body are, line by line in document order, what each line gives up and what it says, and the blocks hold exactly what the lines say, in that order |
| Segments.SpeechGivenUp | apple/TTS29Package/Sources/TTS29Feature/TranscriptModel.swift:109-178 | a line gives up exactly this much speech: a fence all of it, a numbered item its number and one character more exactly when a letter or digit stands right behind the full stop, any other line none |
| Segments.LetterBehindTheStopIsLost | apple/TTS29Package/Sources/TTS29Feature/TranscriptModel.swift:109-178 | "1.foo" gives up "1.f" and says "oo" |
| ReadAlong.BlocksPartitionTheTimeline | apple/TTS29Package/Sources/TTS29Feature/TranscriptModel.swift:42-53 | blocks are numbered from 0 and split [0, 1] into consecutive nonempty intervals |
| ReadAlong.LookupsMoveForward | apple/TTS29Package/Sources/TTS29Feature/TranscriptModel.swift:89-103 | both lookups are monotone in progress for every body |
| ReadAlong.LookupsAgreeExactly | apple/TTS29Package/Sources/TTS29Feature/TranscriptModel.swift:89-103 | the sentence and block lookups agree at every progress exactly when each block but the last is one sentence or speaks in all of them |

## Left out

- NMP's engine, relays, signing and storage: a write log whose position is the receipt, one membership write per
  correlation token, and an answer per call. The group timeline refusal of `compose_group_send` and 64-bit receipt
  numbers are not modelled.
- SHA-256, `PublicKey::parse`, NIP-01 event ids and JSON: function-valued parameters. That the request digest tells
  requests apart is a stated premise of the tree theorems only.
- The status loop behind `await_host_ack`: one answer. The deadline of the membership frames: frames that end early. A
  refusal of the observation itself is not told apart from that.
- HTTP to Kokoro and Blossom, TLS, the MCP server, configuration, sockets, the C interface, threads and channels.
- Journal.FileJobJournal.Reopen: a new process is given an id no staged file of an older one carries; `Cluster` allows the
  same id to come back and its staging to fail.
- Runner.ProducerRunner.Admit: a record is never removed, so the branch for one that vanished after `AlreadyExists` is absent.
- ClusterRuns.ReadersAgree: progress is not claimed, since a slow process may save an older phase over a newer one.
- ClusterRuns.RunnersSendOneItem: how often the one item is sent is not bounded, since a process that lost its save, or
  runs behind another, sends it again; the event id makes the copies one event.
- Maps are drained in any key order where the source drains sorted maps, which covers the sorted order.
- Characters stand for Unicode scalars: grapheme clusters, normalisation and the difference between them are not modelled.
- Transcript fractions are real numbers, not floating point, and a progress that is not a number is left out.
- SwiftUI views, playback, Keychain, playback rates and now-playing information.
- Group bootstrap, the answer wait loop with its timeouts, and wall-clock time other than `created_at`.
