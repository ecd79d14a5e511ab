# Verified model of the Musecat backend core

This project models the parts of the backend that are state machines or algorithms and proves what they promise. Each
request handler or worker transaction is one atomic step on an in-memory store that rolls back on failure; statements
about the system quantify over all runs of such steps.

- **Community translation** (`Translation.dfy`): a worker claims a record, calls a provider between two transactions,
  and completes or fails the claim, in any interleaving with edits, deletes, lease expiry and crashed workers. A stored
  translation is always that of the current text, and claims are bounded by the number of edits.
- **Messaging** (`Script.dfy`, `Conversation.dfy`, `Messaging.dfy`, `Handlers.dfy`, `History.dfy`, `Paging.dfy`): a
  numbered append-only log per conversation with three writers (messages, scripted replies, status entries), an inquiry
  status recorded inside the log, a walk through a snapshot of a reply script, idempotent create and send, read cursors,
  notices, and the pages each viewer gets, also while the log grows.
- **Game catalog** (`Catalog.dfy`): versioned records in a reference hierarchy with archive, restore, revert, batch
  reconcile, optimistic revisions, an audit log and operation-id replay. The changelog determines the catalog, active
  records have active parents, reverts are round trips, and batches reach exactly the requested set once.
- **Offline boundaries** (`Boundary.dfy`): ray casting with a bounding-box shortcut over GeoJSON linear rings (section
  3.1.6 of RFC 7946), and the fold over city boundaries.
- **GeoNames hierarchy** (`Hierarchy.dfy`): a recursive search over a possibly cyclic parent graph decides which city
  absorbs each section.
- **Notifications** (`Inbox.dfy`, `Recovery.dfy`, `Fanout.dfy`): recovery detection over an unbounded probe trace, and
  resumable exactly-once fan-out with a cursor.
- **Aggregation and top-k** (`Passport.dfy`, `Search.dfy`): single-pass loops against declarative definitions.

Every handler that changes state is a method of a class whose contract equates the new state and the answer with a
function of the old state; the theorems are about runs of these functions. The `...Outcomes.dfy` files say without
naming these functions what each accepted request leaves behind and when it is accepted.
`dafny verify dfyconfig.toml` checks everything.

Where code and comment disagree the model follows the code: the comment at geo/offline.go:127-130 says a city
boundary is used only when a unique polygon contains the coordinate, but the fold at geo/offline.go:310-323 resolves on
any odd number of matches. `ThreeMatchesResolve` shows it on three overlapping boundaries and `UniqueCityExactly` says
exactly when the rule holds. Three more statements are exact conditions of this kind: `DaysAgree` (the per-day sets
count an arcade once a day), `ShortcutExactly` (malformed positions can let the bounding box change an answer) and
`RevertRoundTrip` (a revert of a revert is refused in three cases, each shown on a concrete run).

Assumptions: SHA-256 hashes and derived ids are injective, so a hash is modelled by what it hashes; environment facts
(who is staff or an owner, rate limits, blocks, what the provider or another table answers) are arbitrary values that
each step brings along; `Set` followed by `Save` writes only the named fields of the stored row; floating-point numbers
are reals, distances are arbitrary non-negative leg lengths.

## Model

| member | source | states |
|---|---|---|
| `CommunityTranslation.StoredTranslationIsCurrent` | handlers/community/worker.go:106-212 | In every run of edits (with any `now`), deletes, claims, reclaims, answers, failures and crashes, a record has a translation exactly if it is active, `ready` and not empty, and then it is the translation of its current title and body; attempts stay within five |
| `CommunityTranslation.InvRun` | handlers/community/worker.go:55-104 | The invariant behind it holds in every run of requests and any number of concurrent workers |
| `CommunityTranslation.DeletedPostsHaveNoComments` | handlers/community/post.go:206-252 | A visible comment always belongs to a visible post |
| `CommunityTranslation.ServedIsFaithful` | handlers/community/post.go:407-440 | What is served is the current original, or what the provider returned for the current original in the requested locale |
| `CommunityTranslation.EventuallyClaimable` | handlers/community/worker.go:139-155 | A record becomes claimable at some time exactly if it is active, not `ready` and has attempts left, whatever became of earlier workers |
| `CommunityTranslation.PotentialStep` | handlers/community/worker.go:119-129 | Without an edit of the record, the measure of in-flight claims with an outdated hash and attempts left never rises, and each claim uses one unit |
| `CommunityTranslation.ClaimsWithoutEdits` | handlers/community/worker.go:159-187 | From any reachable state, a record nobody edits is claimed at most as often as its measure says |
| `CommunityTranslation.ClaimsAreBounded` | handlers/community/worker.go:119-176 | Over a whole run, e accepted edits allow fewer than 6^(e+1) claims of a record |
| `CommunityTranslation.OldClaimNumberCanMatch` | handlers/community/worker.go:166-176 | Concrete run in which an attempt reset lets an old claim pass the attempt test; the hash test still keeps its answer out |
| `CommunityTranslation.CommunityStore.CreatePost` | handlers/community/post.go:79-123 | A new post starts pending, with the hash of its content and the edit window as delay |
| `CommunityTranslation.CommunityStore.UpdatePost` | handlers/community/post.go:126-203 | An accepted edit replaces the content and resets status, attempts, lease and translations; a refused one changes nothing |
| `CommunityTranslation.CommunityStore.DeletePost` | handlers/community/post.go:206-252 | Deletion retires the post and erases its active comments, and only those |
| `CommunityTranslation.CommunityStore.CreateComment` | handlers/community/social.go:105-166 | A comment needs an active post; a reply needs an active target under it and may only name the thread of its target; an empty body is `ready` at once |
| `CommunityTranslation.CommunityStore.UpdateComment` | handlers/community/social.go:168-238 | An accepted comment edit resets the translation state; an empty body is `ready` at once |
| `CommunityTranslation.CommunityStore.EraseComment` | handlers/community/social.go:259-267 | Erasing clears body, lease and translations |
| `CommunityTranslation.CommunityStore.DeleteComment` | handlers/community/social.go:240-257 | Only the author can delete a comment, and only while its post is active |
| `CommunityTranslation.CommunityStore.ClaimTranslation` | handlers/community/worker.go:106-137 | A claim is taken exactly if the record is claimable; it starts the lease and counts the attempt |
| `CommunityTranslation.CommunityStore.CompleteTranslation` | handlers/community/worker.go:157-187 | An answer is stored only for the attempt in progress and an unchanged source; a changed source resets the record |
| `CommunityTranslation.CommunityStore.FailTranslation` | handlers/community/worker.go:189-212 | A failure ends the attempt in progress and sets the retry delay while attempts are left |
| `Messaging.LogIsNumbered` | service/messaging/write.go:401-424 | In every reachable state sequences are exactly 1..last_sequence and last_message is the highest message that is not a dedicated status entry |
| `Messaging.StatusIsRecorded` | service/messaging/status.go:10-47 | The changes recorded in the log form an unbroken chain from `waiting` to the stored status, none of them idle |
| `Messaging.PromptIsCurrent` | service/messaging/bot.go:153-214 | An active prompt is the last message, its node exists in the snapshot and offers choices; the automatic messages are a walk through the snapshot from its start |
| `Messaging.SnapshotIsFixed` | service/messaging/bot.go:180-186 | Later configurations never change the snapshot an inquiry was opened with |
| `Messaging.LogAndCursorsGrow` | service/messaging/write.go:453-503 | The log is append-only; a read cursor never moves back nor past last_sequence |
| `Messaging.ReadIsNotPushed` | service/messaging/notification.go:128-155 | A notice at or below a cursor its user once had is marked read in every later state, hence not deliverable |
| `Messaging.SentOnce` | service/messaging/write.go:341-349 | After a send, the same request in any later state with access returns the same message and changes nothing; another payload under the key is refused |
| `Messaging.CreatedOnce` | service/messaging/write.go:216-229 | After an inquiry is created, the same request in any later state returns it; another inbox, opening or payload under the key is refused; nothing changes |
| `Messaging.PairSharesOne` | service/messaging/write.go:183-214 | Once created, a direct conversation is what either user gets in any later state |
| `Messaging.InvRun` | service/messaging/write.go:139-543 | All conversation invariants, and at most one inquiry per requester and key and one conversation per pair, hold in every run |
| `Conversations.SendingKeeps` | service/messaging/write.go:315-396 | A send keeps numbering, status chain, key uniqueness, cursors and the script walk, and only extends the log |
| `Conversations.OpenedKeeps` | service/messaging/write.go:251-305 | A new inquiry satisfies all invariants, with or without script and initial choice |
| `Conversations.StatusSettingKeeps` | service/messaging/write.go:507-543 | A status request keeps all invariants |
| `Conversations.ReadingKeeps` | service/messaging/write.go:453-503 | A read request keeps all invariants and marks the notices it passes |
| `Conversations.TransitionLeads` | service/messaging/bot.go:188-214 | An accepted choice belongs to the requester and leads along the snapshot: to a choice target of the current node or to the start |
| `ReplyScript.LeadsToNode` | service/messaging/bot.go:44-77 | In a validated script every such step ends at an existing node with a non-empty id |
| `ReplyScript.Validate` | service/messaging/bot.go:44-77 | The validation loops accept exactly the scripts with distinct, well-formed nodes and choices, an existing start and no dangling target |
| `ReplyScript.FindNode` | service/messaging/bot.go:153-164 | A node is found exactly if its id is in the script |
| `Conversations.Prior` | service/messaging/write.go:37-39 | The retry lookup finds a message of that sender and key exactly if there is one |
| `MessagingHandlers.Room.ChangeInquiryStatus` | service/messaging/status.go:10-47 | Nothing happens for an equal status; otherwise the change goes on the given message or on a new entry that leaves last_message alone |
| `MessagingHandlers.Room.SaveMessage` | service/messaging/write.go:397-449 | The message, counters, status and notices after the step-by-step writes |
| `MessagingHandlers.Room.NotifyMessage` | service/messaging/notification.go:60-126 | Exactly one notice for each recipient of the audience |
| `MessagingHandlers.Room.AppendBotReply` | service/messaging/bot.go:153-187 | Appends what the node says and stores the new prompt, or fails for an unknown node |
| `MessagingHandlers.Room.AnswerMessage` | service/messaging/write.go:379-388 | After a message: the chosen reply, or the end of an open prompt |
| `MessagingHandlers.Room.Send` | service/messaging/write.go:315-396 | The whole send with all its refusals |
| `MessagingHandlers.Room.SetStatus` | service/messaging/write.go:507-543 | The whole status request, including the refusal when the entry key is taken |
| `MessagingHandlers.Room.SetRead` | service/messaging/write.go:453-503 | The cursor becomes the maximum; exactly the notices up to it are marked read |
| `MessagingHandlers.MessagingStore.SendMessage` | service/messaging/write.go:311-396 | A send on a stored conversation changes that conversation as `Room.Send` says and no other |
| `MessagingHandlers.MessagingStore.CreateInquiry` | service/messaging/write.go:139-305 | The whole creation of an inquiry, with replay, conflict and the refusal of each unsuitable inbox, arcade, script or request |
| `MessagingHandlers.MessagingStore.SetStatus` | service/messaging/write.go:507-543 | A status request on a stored conversation changes that conversation as `Room.SetStatus` says and no other |
| `MessagingHandlers.MessagingStore.SetRead` | service/messaging/write.go:453-503 | A read request on a stored conversation changes that conversation as `Room.SetRead` says and no other |
| `MessagingHandlers.FindBot` | service/messaging/bot.go:123-147 | An inquiry from an arcade gets that arcade's enabled, valid script, one to the team its verification script, and one without context none; other contexts are refused |
| `MessagingHandlers.MessagingStore.CreateDm` | service/messaging/write.go:183-214 | Creation of a direct conversation, or the existing one of the pair |
| `MessageHistory.OutsiderHistory` | service/messaging/query.go:489-538 | In every reachable state, the items of any page an outsider gets are the named stretch of the log minus its dedicated status entries; the page tells the sequence of the last visible message and shows no status change |
| `MessageHistory.PagingIsComplete` | service/messaging/query.go:500-545 | In every reachable state and for any page size, asking for pages with the `nextAfter` of the last one from the start, or with `nextBefore` from the end, ends and yields every message the viewer may see exactly once and in order |
| `MessagePaging.PagingWhileGrowing` | service/messaging/query.go:500-545 | While the conversation goes on between pages, a walk by `nextAfter` shows each message visible at its end once and in order, a walk by `nextBefore` each one visible at its start; a walk that has not ended has shown full pages only |
| `MessageHistory.PageIs` | service/messaging/query.go:489-545 | A page is the stretch of the visible messages that its two bounds and limit name, with a cursor at its inner end exactly if more remain |
| `MessageHistory.LastSeen` | service/messaging/query.go:531-538 | The stored last message is the last one an outsider can see |
| `MessageHistory.ReverseRows` | service/messaging/query.go:517-519 | Reverses the rows in place |
| `MessageHistory.Rows` | service/messaging/query.go:507-519 | Fetching one row too many, truncating and reversing yields the oldest or newest rows in ascending order |
| `MessageHistory.History` | service/messaging/query.go:476-547 | The whole page with its pagination checks, latest sequence and cursors |
| `GameCatalog.ActiveHaveActiveParents` | handlers/gamecatalog/management.go:885-923 | In every run of create, update, archive, restore, revert and batch requests active records have active parents, compatibilities join one series, and no two join the same version and cabinet |
| `GameCatalog.ChainIsUnbroken` | handlers/gamecatalog/management.go:1061-1086 | The entries of a record form an unbroken chain to the stored record, from its original or from a create at revision 1; the revision of a created record counts its entries |
| `GameCatalog.InvRun` | handlers/gamecatalog/management.go:356-457 | The catalog is what replaying its changelog yields, and all invariants hold, in every run; records and log entries are never lost and fixed links never change |
| `GameCatalog.RevertRestores` | handlers/gamecatalog/management.go:459-529 | In every reachable state, reverting a change with a `before` succeeds exactly if the record can return to it (for a version, its stored day must be ten characters long), and then restores fields and archived flag under the next revision |
| `GameCatalog.RevertRoundTrip` | handlers/gamecatalog/management.go:820-849 | Reverting any change and then that revert brings the record back two revisions later and touches nothing else; it is refused exactly if a series needs an archived manufacturer, the record is to be archived while it is in use outside the catalog, or it is a version whose stored day is not ten characters long |
| `GameCatalog.RefusedForManufacturer` | handlers/gamecatalog/management.go:820-849 | Concrete run in which reverting the revert of a series is refused because its manufacturer was archived |
| `GameCatalog.RefusedWhileInUse` | handlers/gamecatalog/management.go:500-508 | Concrete run in which reverting the revert of a cabinet's archive is refused because a game is installed in that cabinet |
| `GameCatalog.RefusedForDay` | handlers/gamecatalog/management.go:767-771 | Concrete run in which reverting the revert of a version is refused because the day it was stored with reads back longer than an entered one |
| `GameCatalog.OriginalValid` | handlers/gamecatalog/management.go:820-832 | A record that a revert could change had valid names, numbers and prices, so that only the stored day of a version can fail the validator on the way back |
| `GameCatalog.SnapshotApplies` | handlers/gamecatalog/management.go:820-832 | Applying a snapshot of a record reproduces its fields, or is refused for the reasons listed |
| `GameCatalog.BatchReconciles` | handlers/gamecatalog/management.go:209-341 | A batch that is carried out leaves exactly the requested cabinets active; it switches exactly the links on which request and expectation differ, each in one logged revision, and touches nothing else |
| `GameCatalog.BatchSucceedsExactly` | handlers/gamecatalog/management.go:209-341 | A batch is carried out exactly if request and expectation are well formed, version and cabinets can be joined, the expectation is met, no link to be dropped is in use, and the derived ids of all its changes are new |
| `GameCatalog.ExpectedIsActive` | handlers/gamecatalog/management.go:630-647 | The expectation check passes only if the expected cabinets are all active ones |
| `GameCatalog.BatchHappensOnce` | handlers/gamecatalog/management.go:649-697 | After a batch that changed something, the same request by the same actor is a replay in every later state with version and cabinets active, and changes nothing |
| `GameCatalog.OperationHappensOnce` | handlers/gamecatalog/management.go:1088-1100 | A logged operation id answers the same request by the same actor from the log in every later state and refuses any other |
| `GameCatalog.LateDuplicateRefused` | handlers/gamecatalog/management.go:369-374 | A duplicate that slipped past the early replay check still changes nothing |
| `GameCatalog.AppliedFacts` | handlers/gamecatalog/management.go:707-818 | Accepted values are valid, keep fixed links, and put new records and series under active parents |
| `GameCatalog.ChangedAdmissible` | handlers/gamecatalog/management.go:396-436 | Update, archive and restore keep every record anchored in the hierarchy |
| `GameCatalog.RevertedAdmissible` | handlers/gamecatalog/management.go:478-508 | So does a revert, with or without a snapshot to return to |
| `GameCatalog.IntentsAre` | handlers/gamecatalog/management.go:649-683 | The derived operation ids of a batch are those of the cabinets on which request and expectation differ |
| `GameCatalog.ValidateCabinets` | handlers/gamecatalog/management.go:617-628 | The loop accepts exactly active cabinets of the version's series under an active version |
| `GameCatalog.EnsureExpected` | handlers/gamecatalog/management.go:630-647 | The loops compare the active rows with the expectation in both directions |
| `GameCatalog.CompatibilityReplay` | handlers/gamecatalog/management.go:649-683 | The two loops find a replay exactly if there are intents and all were logged by this request |
| `GameCatalog.IndexRows` | handlers/gamecatalog/management.go:246-249 | The index by cabinet answers like a search through the rows |
| `GameCatalog.Catalog.Save` | handlers/gamecatalog/management.go:438-450 | The record and its log entry are stored together or not at all |
| `GameCatalog.Catalog.Mutate` | handlers/gamecatalog/management.go:356-457 | The whole create, update, archive or restore with all its refusals |
| `GameCatalog.Catalog.RevertChange` | handlers/gamecatalog/management.go:459-529 | The whole revert with all its refusals |
| `GameCatalog.Catalog.ActivateRequested` | handlers/gamecatalog/management.go:250-297 | The loop that restores or creates requested links |
| `GameCatalog.Catalog.ArchiveOthers` | handlers/gamecatalog/management.go:299-331 | The loop that archives links not requested |
| `GameCatalog.Catalog.ReplaceCompatibilities` | handlers/gamecatalog/management.go:209-341 | The whole batch; a failure rolls everything back |
| `OfflineBoundary.PointInRing` | geo/offline.go:419-434 | The loop computes the parity of the edges that cross the eastward ray, for every ring |
| `OfflineBoundary.CrossesIsSideTest` | geo/offline.go:425-430 | The crossing test with its division is a test of the side of the edge on which the point lies |
| `OfflineBoundary.CrossesSymmetric` | geo/offline.go:425-430 | The crossing test does not depend on the direction of an edge |
| `OfflineBoundary.RotationInvariant` | geo/offline.go:419-434 | Starting a ring at another vertex changes nothing |
| `OfflineBoundary.ReversalInvariant` | geo/offline.go:419-434 | Reversing a ring changes nothing |
| `OfflineBoundary.ClosingVertexInvariant` | geo/offline.go:419-434 | Repeating the first vertex at the end (section 3.1.6 of RFC 7946) changes nothing |
| `OfflineBoundary.ChordSplits` | geo/offline.go:419-434 | A ring cut by a chord between two of its vertices is the exclusive-or of the parts |
| `OfflineBoundary.TriangleMembership` | geo/offline.go:419-434 | On a triangle the test accepts the interior and nothing outside the closed triangle |
| `OfflineBoundary.PointInPolygonRings` | geo/offline.go:407-417 | A polygon is its outer ring without its holes |
| `OfflineBoundary.BoundaryFeature.SetBounds` | geo/offline.go:210-245 | The bounds are the tight box of all usable positions; failure exactly if there is none |
| `OfflineBoundary.BoundaryFeature.Contains` | geo/offline.go:369-405 | With or without bounds the lookup answers what the geometry says, for every geometry without open breaks |
| `OfflineBoundary.OutsideBox` | geo/offline.go:369-383 | No point outside the box is in a geometry without open breaks, west of it included |
| `OfflineBoundary.ShortcutExactly` | geo/offline.go:369-373 | The shortcut changes no answer exactly if no latitude at which a ring breaks off at a malformed position leaks |
| `OfflineBoundary.OutsideGeometry` | geo/offline.go:407-434 | Outside the box, a geometry with malformed positions holds exactly the points west of it at its leaking latitudes |
| `OfflineBoundary.WellFormedUnbroken` | geo/offline.go:419-423 | A geometry whose positions all have both coordinates has no open break |
| `OfflineBoundary.MalformedPositionDefeatsShortcut` | geo/offline.go:371-373 | Concrete malformed ring for which the shortcut does change the answer |
| `OfflineBoundary.ResolveCity` | geo/offline.go:310-323 | The fold over the boundaries resolves to the last match exactly if the number of matches is odd |
| `OfflineBoundary.UniqueCityExactly` | geo/offline.go:310-323 | The documented rule of a unique matching city holds exactly if the number of matches is one or even |
| `OfflineBoundary.ThreeMatchesResolve` | geo/offline.go:310-323 | Three concrete rings around one point, for any country, resolve to the last although none is unique |
| `OfflineBoundary.NearestParameterIsNearest` | geo/offline.go:350-359 | The clamped parameter gives the point of the segment closest to the origin |
| `PassportHierarchy.RootSearch.Roots` | passportcities/hierarchy.go:44-57 | The recursive search terminates on any parent graph and marks exactly what it has to |
| `PassportHierarchy.FindRoots` | passportcities/hierarchy.go:58-67 | A fresh search finds exactly the cities reachable through sections |
| `PassportHierarchy.ReadCatalog` | passportcities/hierarchy.go:15-97 | Each emitted city has exactly the sorted non-blank names of its own and of the sections whose only reachable city it is; the first invalid line is reported |
| `PassportHierarchy.LineOrderIrrelevant` | passportcities/hierarchy.go:28-95 | The catalog does not depend on order or repetition of hierarchy lines |
| `PassportHierarchy.ReadPlaces` | passportcities/hierarchy.go:19-27 | Later places with the same id win, and the order of appearance is kept |
| `PassportHierarchy.AbsorbSections` | passportcities/hierarchy.go:58-74 | Sections give their names to their only city, whatever the order |
| `PassportHierarchy.Emit` | passportcities/hierarchy.go:75-95 | Cities leave in order of appearance with sorted aliases, sections do not |
| `PassportHierarchy.SortedList` | passportcities/hierarchy.go:80-90 | A set of names is listed in ascending order |
| `PassportHierarchy.SortedUnique` | passportcities/hierarchy.go:80-90 | There is only one such list |
| `AimeRecovery.RecoveryIsEarned` | service/usernotification/aime.go:186-218 | Recovery is declared by a probe that ends an unbroken window of available probes at least 15 minutes long, begun no earlier than the first candidate, after both channels were told |
| `AimeRecovery.NoGapInWindow` | service/usernotification/aime.go:196-208 | With clocks that do not go back, neighbouring probes in such a window are at most ten minutes apart |
| `AimeRecovery.IncidentAndRecoveryAreFinal` | service/usernotification/aime.go:174-218 | An open incident, the first candidate and a declared recovery never change again |
| `AimeRecovery.SubscribersAreTold` | service/usernotification/aime.go:263-312 | After recovery, once there were enough drains, every former subscriber who neither unsubscribed nor withdrew has exactly one notice and no subscription is left |
| `AimeRecovery.SubscriptionsRunOut` | service/usernotification/aime.go:263-312 | Each drain removes up to a full batch and nothing adds a subscription |
| `AimeRecovery.NoticesAreUnique` | service/usernotification/aime.go:286-305 | No user has two notices for an incident, and only the open incident has notices |
| `AimeRecovery.Monitor.RecordProbe` | service/usernotification/aime.go:169-248 | The new state after a probe, step by step |
| `AimeRecovery.Monitor.SetSubscription` | service/usernotification/aime.go:130-167 | A user has at most one subscription, refused when there is nothing to wait for |
| `AimeRecovery.Monitor.DrainRecoveries` | service/usernotification/aime.go:263-312 | The subscriptions and notices after one batch |
| `AnnouncementFanout.ExactlyOnce` | service/usernotification/announcement.go:18-71 | When a publication is done, every user who existed at publication and has not withdrawn has exactly one row for it, over all runs of batches, rollbacks, withdrawals and changes |
| `AnnouncementFanout.NeverTwice` | service/usernotification/announcement.go:48-71 | No user ever has two rows for an announcement |
| `AnnouncementFanout.BatchProgress` | service/usernotification/announcement.go:28-46 | A batch finishes the publication exactly if fewer than a hundred users remain, and otherwise handles a hundred |
| `AnnouncementFanout.FanoutEnds` | service/usernotification/announcement.go:18-46 | With m users to go, m/100 + 1 committed batches anywhere in a run finish a publication, whatever else happens in between, unless a user is created as of before publication |
| `AnnouncementFanout.RemainingNeverGrows` | service/usernotification/announcement.go:28-46 | Nothing puts a user back in front of the cursor, except a user created as of before publication |
| `AnnouncementFanout.Fanout.PostBatch` | service/usernotification/announcement.go:33-41 | The loop posts to each user of the batch and leaves the cursor behind the last |
| `AnnouncementFanout.Fanout.FanoutBatch` | service/usernotification/announcement.go:18-46 | The rows, cursor and flag after one committed batch |
| `Inbox.Mailbox.Post` | service/usernotification/announcement.go:48-71 | One row per user and event, with its deliveries unless they are suppressed |
| `Inbox.Mailbox.EnqueueDevices` | service/usernotification/notifications.go:44-80 | One delivery for each device of the user in an offered locale |
| `Inbox.PostedUnique` | service/usernotification/announcement.go:48-71 | Posting keeps rows unique per user and event |
| `Inbox.Lowest` | service/usernotification/announcement.go:28-34 | A query sorted by id with a limit: sorted, distinct, of the right length |
| `VisitPassport.LoadPassport` | handlers/user/passport.go:124-263 | The single loop over all visits computes the declarative summary |
| `VisitPassport.TotalsAgree` | handlers/user/passport.go:124-198 | Visits equal the sums over months, weekdays and stamps; cities and unplaced visits add up, and so do arcades per city and unclassified ones |
| `VisitPassport.DaysAgree` | handlers/user/passport.go:160-163 | The per-day arcade sets add up to the visits exactly if no arcade is visited twice on one day |
| `VisitPassport.YearsAgree` | handlers/user/passport.go:234-263 | Yearly visits add up to all visits, yearly discoveries to all distinct arcades |
| `VisitPassport.DistanceAgrees` | handlers/user/passport.go:140-147 | All-time distance exceeds the yearly sum by exactly the legs that cross years |
| `ArcadeSearch.BuildArcadeResults` | handlers/search/search.go:295-347 | The bounded insertion loop returns the first `limit` of all matches sorted by score and original index |
| `ArcadeSearch.InsertInPlace` | handlers/search/search.go:327-339 | Shifting and truncating in place inserts the result at its position |
| `ArcadeSearch.RankedIsSorted` | handlers/search/search.go:349-354 | The reference is sorted and a permutation of the matches |
| `ArcadeSearch.SortedUnique` | handlers/search/search.go:349-354 | There is only one such arrangement |
| `ArcadeSearch.InsertThenTake` | handlers/search/search.go:327-339 | Truncating after every insertion loses nothing of the answer |
| `ArcadeSearch.ScoreIsLexicographic` | handlers/search/search.go:303-320 | With distances below 10^9 the order is lexicographic in text rank, distance and index |
| `CommunityOutcomes.AnswerOutcome` | handlers/community/worker.go:157-187 | In every reachable state, an answer for the attempt in progress of a record with the text that was translated is stored, with `ready` and the time; one for another text sends the record back; any other changes nothing |
| `CommunityOutcomes.TranslationIsServed` | handlers/community/worker.go:106-187 | A post that is claimed after its edit window and answered is served in each locale of the answer |
| `CommunityOutcomes.ServedExactly` | handlers/community/post.go:407-440 | A visible record is served in the requested locale exactly if translations are public and the provider answered for its current text in that locale |
| `CommunityOutcomes.ClaimOutcome` | handlers/community/worker.go:106-155 | A claim is taken exactly while attempts are left, the delay is over and no lease of ten minutes runs; it counts the attempt and takes along the current text |
| `CommunityOutcomes.FailureOutcome` | handlers/community/worker.go:189-225 | A failure of the attempt in progress is recorded with a delay of one, five, fifteen or sixty minutes by its number |
| `CommunityOutcomes.CreatePostOutcome` | handlers/community/post.go:79-123 | A new post holds what was written and waits for its edit window of five minutes |
| `CommunityOutcomes.UpdatePostOutcome` | handlers/community/post.go:126-203 | The author's edit inside the window gives the post the new title and body and sends it back to be translated; any other request changes nothing |
| `CommunityOutcomes.DeletePostOutcome` | handlers/community/post.go:206-252 | The author's deletion takes the post and exactly its comments out of view |
| `CommunityOutcomes.CreateCommentOutcome` | handlers/community/social.go:105-166 | A comment holds what was written, in the thread of the comment it answers |
| `CommunityOutcomes.UpdateCommentOutcome` | handlers/community/social.go:168-238 | The author's edit inside the window gives the comment the new text and sends it back to be translated |
| `CommunityOutcomes.DeleteCommentOutcome` | handlers/community/social.go:240-267 | The author's deletion clears text and translations of the comment |
| `MessagingOutcomes.StatusFollowsLastWord` | service/messaging/write.go:427-438 | In every reachable inquiry, the status is what the last entry that is no automatic reply leads to: its own target for a status entry, waiting for a message of a user or guest, recognised for an answer |
| `MessagingOutcomes.SendOutcome` | service/messaging/write.go:315-449 | A sent message is the next entry exactly as it was sent, under an identity its sender may use; it sets the status, is announced to exactly those concerned, and moves the script; nothing else changes |
| `MessagingOutcomes.SendExactly` | service/messaging/write.go:315-396 | A message is sent exactly if it is well formed and new, its sender takes part and may use the identity, the limits are kept and its choice is offered |
| `MessagingOutcomes.SendRefusals` | service/messaging/write.go:315-396 | The answer to every message that is not sent |
| `MessagingOutcomes.StatusOutcome` | service/messaging/write.go:507-543 | Whoever answers for the inbox sets the status they name, recorded in an entry of its own that leaves the last message alone |
| `MessagingOutcomes.ReadOutcome` | service/messaging/write.go:453-503 | A read request moves the cursor to the maximum of the two, marks exactly the reader's notices up to it, and changes nothing else |
| `MessagingOutcomes.OpenedOutcome` | service/messaging/write.go:251-305 | A new inquiry is the greeting of its script if it has one, the first message, and the answer to a choice made at once |
| `MessagingOutcomes.CreateExactly` | service/messaging/write.go:139-250 | An inquiry is created exactly for a well-formed first message to an inbox that takes it, under a new key, with a script that may be used |
| `MessagingOutcomes.DmOutcome` | service/messaging/write.go:183-214 | A direct conversation starts empty between the two; exactly who is refused |
| `ReplyScript.ValidIs` | service/messaging/bot.go:44-77 | A valid script, spelled out limit by limit |
| `ReplyScript.TrimIs` | service/messaging/bot.go:44-77 | Trimming removes white space at both ends and nothing else |
| `MessageHistory.PageOutcome` | service/messaging/query.go:476-547 | In every reachable state, exactly which queries get a page, and what each item and the latest sequence say |
| `CatalogOutcomes.CreateOutcome` | handlers/gamecatalog/management.go:382-410 | A record is created exactly from acceptable values under a new operation id; it holds the values field by field, active and in revision 1, and is logged |
| `CatalogOutcomes.UpdateOutcome` | handlers/gamecatalog/management.go:402-410 | An update is accepted exactly for acceptable values; the record then holds them field by field and keeps its archived flag and fixed links |
| `CatalogOutcomes.ArchiveOutcome` | handlers/gamecatalog/management.go:410-424 | Exactly an active record that nothing needs is archived, with its fields as they are |
| `CatalogOutcomes.RestoreOutcome` | handlers/gamecatalog/management.go:425-436 | Exactly an archived record whose references are active is restored, with its fields as they are |
| `CatalogOutcomes.OtherwiseUnchanged` | handlers/gamecatalog/management.go:356-457 | A request that names no stored record in its revision or no operation of its own changes nothing |
| `CatalogOutcomes.MutateRefusals` | handlers/gamecatalog/management.go:356-457 | The answers to unnamed, unknown and stale records and to archive and restore conflicts |
| `CatalogOutcomes.UndoOutcome` | handlers/gamecatalog/management.go:486-499 | Reverting a creation archives the record exactly if nothing needs it |
| `CatalogOutcomes.ReturnOutcome` | handlers/gamecatalog/management.go:499-529 | Reverting another change puts its snapshot back, exactly under the conditions spelled out |
| `CatalogOutcomes.BatchOutcome` | handlers/gamecatalog/management.go:209-341 | A batch is carried out exactly under conditions spelled out on the request and the stored records |
| `RecoveryOutcomes.RecoveredExactly` | service/usernotification/aime.go:186-218 | In every run, recovery is declared exactly if some probe is the fourth of four counted ones no more than ten minutes apart, in an open incident of which both channels were told |
| `RecoveryOutcomes.CountedPicks` | service/usernotification/aime.go:196-208 | The counted probes are the first available one after another finding, and then always the first that comes five minutes or more after the last |
| `RecoveryOutcomes.IncidentIs` | service/usernotification/aime.go:193-195 | The incident is the time of the first blocked probe |
| `RecoveryOutcomes.SubscriptionOutcome` | service/usernotification/aime.go:130-167 | The subscriptions after a request, row by row |
| `DeliveryOutcomes.BatchDeliveries` | service/usernotification/notifications.go:44-80 | In every reachable state, a batch pushes each new row to exactly the devices of its own user in an offered language, unless pushing is suppressed; deliveries of old rows stay |
| `DeliveryOutcomes.DrainDeliveries` | service/usernotification/notifications.go:44-80 | In every reachable state, a drain pushes each new notice to exactly the devices of its own user; deliveries of old rows stay |
| `DeliveryOutcomes.BatchRecipients` | service/usernotification/announcement.go:28-46 | A batch gives a row exactly to the hundred with the lowest ids among those who come after the cursor, existed at publication and have not withdrawn |
| `DeliveryOutcomes.DrainRecipients` | service/usernotification/aime.go:263-312 | A drain only adds notices of the incident, for subscribers who have not withdrawn |
| `PassportOutcomes.NumbersAre` | handlers/user/passport.go:124-263 | Every count, by month, weekday, arcade and city, is the number of the visits it is about |
| `PassportOutcomes.DaysAre` | handlers/user/passport.go:160-163 | The arcades of each day, and the years with visits |
| `PassportOutcomes.DistanceIs` | handlers/user/passport.go:140-147 | The distance is the sum of the legs between neighbouring located visits of the selected year |
| `ArcadeSearch.TopResults` | handlers/search/search.go:295-347 | The results belong to matches, are in order, and leave out a match only if the list is full of better ones |
| `PassportHierarchy.AliasExactly` | passportcities/hierarchy.go:58-90 | The aliases of a city are its non-blank own ones and those of the sections from which it is the only city that can be climbed to |
| `PassportHierarchy.IndexIs` | passportcities/hierarchy.go:19-27 | The last place with an id is kept |
| `PassportHierarchy.CityIdsJoin` | passportcities/hierarchy.go:75-95 | Places that are no sections leave in their order |
| `OfflineBoundary.TriangleWithHole` | geo/offline.go:385-417 | A hole is cut out and a MultiPolygon is the union of its parts |
| `OfflineBoundary.MatchesAre` | geo/offline.go:310-323 | The matching boundaries are those of the country, or of none, that belong to a city and hold the point |

## Left out

- HTTP routing, authentication middleware, multipart parsing, image checks, file serving, event streams and cron
  registration: plumbing around the modelled steps.
- The worker's batch query (filter and limit of 25): covered by arbitrary interleavings of claims.
- Photo and flair checks of posts and comments: one acceptance flag each.
- Likes, author summaries and list responses of the community: simple reads and counters.
- DTO building, party names, unread counts, conversation lists and previews of messaging: simple reads. The latest
  sequence in summaries is the one `LastSeen` is about.
- Direct-message preferences, blocks, reports and legacy imports: independent of the log.
- MessagingHandlers.Room.NotifyMessage: models each notice but not its device deliveries (at most twenty a recipient),
  which are rows written beside it.
- What is stored as an arcade's script or built as a verification script: an arbitrary configuration, which `FindBot`
  accepts or refuses.
- ReplyScript.Validate: does not model the limit of 60000 bytes on the encoded configuration; lengths count characters.
- GameCatalog.RevertRestores: takes a stored `before` as an already decoded optional snapshot and leaves out the
  timestamps, because value encodings of the database are not part of this model. The exception is `released_on`: each
  entered day brings along the text that its date field reads back, and a text of ten characters reads back unchanged.
- GameCatalog.RevertRoundTrip: rests on the same decoded snapshots.
- GameCatalog.SnapshotApplies: likewise.
- Catalog listing, `alias_of`, reasons, actor tags and the price validator's internals: not part of the protocol; a
  price carries the validator's verdict.
- How installations and campaigns change: each request brings along arbitrary ones, and what they block follows from
  them.
- The order in which Go visits the sets of a batch's replay check: fixed to list order; it only selects which refusal is
  reported.
- OfflineBoundary.BoundaryFeature.Contains: leaves out the fallback to raw geometry for features whose coordinates are
  not kept after decoding.
- Country and time zone parts of boundary resolution and the map projection behind the exterior distance;
  `NearestParameterIsNearest` covers its segment step.
- PassportHierarchy.ReadCatalog: leaves out the reading and filtering of GeoNames files and errors of the scanner and of
  the accepting callback.
- AimeRecovery.Monitor.RecordProbe: leaves out the probe history rows and their trimming.
- Parts of an Aime time below a millisecond; the two operations flags are set by arbitrary steps.
- Inbox.Mailbox.EnqueueDevices: leaves out the arcade preference filter, which only applies to `report_created` rows.
- Report and reaction notifications and device registration: simple inserts and deletes.
- VisitPassport.LoadPassport: leaves out countries, dates on stamps, the filling of empty months and the daily maximum.
- Stamp sorting, top arcades, names and photos and location parsing in the passport.
- Text rank and token matching, user search and address normalisation in search; the limit is positive as the query
  parser guarantees (handlers/search/search.go:128-145).
- AnnouncementFanout: a cursor is the id of the last user handled; ids are positive numbers and 0 is the empty cursor.
