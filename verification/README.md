# Verified model of the chat service

A Dafny model of the parts of the chat service whose correctness spans several functions, stores or
whole runs, with proofs of what they promise. `dafny verify dfyconfig.toml` checks everything.

* **Ephemeral delivery** (`RealtimeRedis`, `Messaging`, `Admission`, `Reconciliation`, `Handshake`,
  `HandshakeOutcomes`, `HandshakeRuns`, `ReconciliationOutcomes`, `ReconciliationLaws`,
  `ReconciliationIdempotence`, `ReconciliationReach`, `ReconciliationStarvation`, `LateNotices`, `IndexLaws`,
  `IndexRuns`, `StrayMembers`). The offer - ready - send - new - ack handshake over
  PostgreSQL and Redis. A transaction is a function to the database it commits and the *sequence* of Redis
  states its writes go through, so a stop after any Redis write and before the commit is a step of its own.
  The step system adds lost presence, expired attempts, a full Redis loss, abandoned sends, upgrades, closes,
  votes, the purge and the clock. `send` is two transactions with the attempt kept in memory between them.
* **Conversations and the grace vote** (`Persistence`, `Voting`, `VotingRuns`, `VotingLaws`, `VoteOutcomes`,
  `WorkerErasure`, `ResolutionPass`). The idempotent write, the lazily filtered history, acceptance, the 30 s window and a vote
  that readers resolve lazily and a worker eagerly.
* **Sessions and device handoff** (`Identity`, `Transfers`, `IdentityRuns`, `IdentityLaws`, `IdentityOutcomes`,
  `TransferLaws`, `TransferOutcomes`).
  Refresh families with reuse detection, the single live session, the upload grant of the replaced session
  and the purge.
* **Replay** (`Replay`, `ReplayLaws`, `RelayOutcomes`, `ReplayRoom`, `RoomOutcomes`, `ReplayMerge`, `ReplayVotes`). The relay script, the
  producer, the receiving browser and the votes it is shown meanwhile.
* **Smaller cores**: the rate limiter (`Limiter`, `LimiterLaws`, `BucketLaws`, `LimiterOutcomes`), keyset pages
  (`Pagination`, `PaginationLaws`, `HistoryWalk`), Base64URL and the layouts on it (`Base64Url`, `BigEndian`,
  `Cursor`, `Invitation`, `FormatOutcomes`), which rows come first (`OrderOutcomes`) and backup retention
  (`Retention`).

Services that change their tables in place are classes whose methods follow the statements of the source and
are proved equal to a function of the old state (`Messaging.Messenger.SendFirst` is `SendFirstTx`); the laws
are proved about those functions and about every run of them. The modules named `...Outcomes` tie them to the
outside: they say in terms of rows, keys, requests and literal limits what each operation must do and answer, so
that a service that loses, refuses or miscounts something fails them even where every invariant would hold. `Ordering` and `Wrappers` are shared helpers.

## Assumptions

One global nondecreasing clock, read once per transaction (`Record` and a vote access read it at each of the
moments the source does). Each transaction is one atomic step under its lock. Identifiers, tokens and sockets
are fresh. SHA-256 is injective, the HMAC any function, encryption invertible. A key is gone from the
instant its time to live ends. Timeouts are positive and at most 30 days. The purge does not run while a
suspended send is 30 days old.

## Findings

* A client can be told that a message failed although its row says delivered, or still waits. `state` knows no
  event that has outlived its 30 days (python/chat/delivery_store.py:42-45), so a retry of a delivered message
  finds no ready attempt and is answered with a failure (python/chat/messaging.py:132-153), and the first
  repair loop reports an attempt as failed whose row it leaves alone (python/chat/reconciliation.py:27-57).
  `LateNotices.RetryAfterTheEnd` and `RepairAfterTheEnd` give such runs for any timeouts, and
  `RetryAfterThePurge` one in which the row of the delivered message is already purged.
  `HandshakeRuns.NoticeAgreesIff` is the exact condition for every transaction after any run: the notice
  agrees with the row exactly when the event is alive, or the row had failed or expired. About a message
  without a row, never recorded or purged, a notice is always a failure (`RowlessNoticeFails`).
* The sorted sets of Redis do not always hold exactly the attempts that belong in them, and `active` does not
  always equal a scan. The key of an attempt expires, its members do not (python/chat/realtime_redis.py:95-128),
  and only a later read removes them (141-157). `StrayMembers` has three runs for any timeouts: an expired
  attempt leaves members behind (`ExpiryLeavesMembers`), 1000 of them hide a live attempt from a read
  (`ExpiredMembersHideOne`), and an identifier offered again is found in the index of the socket that answered
  its first offer (`SecondLifeIsFoundElsewhere`). After every run each attempt is right in the sets it belongs
  to (`IndexRuns.MembersAreRight`), so an index equals a scan exactly when it has no member whose attempt is
  gone or belongs elsewhere (`IndexAfterRun`), and a read returns the first 1000 of the scan exactly when it
  meets none that belongs elsewhere and strays push none of the 1000 out (`ReadAfterRun`). Without expiry all
  indexes agree (`IndexesAgreeWithoutExpiry`).
* A reconciliation pass need not finish min(1000, n) of n overdue deliveries: `pending` also returns waiting
  rows whose event has outlived its 30 days and is not purged yet, and the repair skips them, so 1000 such
  rows starve an overdue one. `ReconciliationStarvation.OutlivedRowsCanStarve` gives a run from the empty
  stores that ends there, for any delivery timeout below 30 days. Two things must have failed before: 1000
  rows outlive their events only when no pass and no status read ended them after their deadlines, so the
  reconciler was idle for weeks; and the worker cleans up before it reconciles (python/chat/worker.py:96-116),
  so outlived rows meet a pass only after a failed cleanup or within one cleanup interval. For every state of
  both stores, `ReconciliationReach.PassFinishes` says exactly which overdue rows a pass finishes, and
  `PassKeepsItsLimit` exactly when it finishes min(1000, n) of them; `OnePassProgress` gives a bound that
  always holds.
* A replay is split exactly when a rejected vote dropped a grace copy of it and is withdrawn before its end:
  the room is shown no vote, an approval or another vote (`ReplayMerge.EndOffersAllIff`,
  `StandsUnlessWithdrawn`, `WithdrawnRejectionSplits`). The server never takes a rejection back, so this
  needs an answer read before the acceptance and applied after the rejection, 30 s later at least
  (`ReplayVotes.LateAnswerWithdraws`); the browser gives a request up after 15 s (web/public/api.js:108), and
  with answers applied within 30 s of their reading merging is all or nothing (`ReplayVotes.EndToEnd`).
* A list of more than 500 items is never merged. After a merge the room keeps its 500 newest messages, so
  copies that were just merged can go at once: a message stays exactly when everything fits or enough of the
  others are older, and all stay exactly when all fit (`ReplayMerge.MergedStaysIff`). A full room of newer
  messages loses what a complete replay brings (`ReplayMerge.FullRoomLosesOlder`).

## Model

| member | source | states |
|---|---|---|
| HandshakeRuns.RunInvariant | python/chat/messaging.py:76-220 | Every reachable state of the two stores, with a stop possible after any Redis write of any transaction, keeps rows, attempts, suspended sends, payloads, notices and retained offers consistent. |
| HandshakeRuns.OutcomesAgree | python/chat/messaging.py:135-144 | Over all interleavings of both halves of send, retries, acks, status reads and both repair loops, the delivered and failed frames about a row that are committed while its event lives never mix and agree with the row; every later frame tells of a failure, so all of them agree with it exactly when it ended so or none came late. A purged identifier that is recorded again starts anew. |
| HandshakeRuns.NoticeAgreesIff | python/chat/delivery_store.py:42-45 | After any run the frame of a transaction about a row agrees with the row it leaves exactly when the event is alive, or the row had failed or expired. |
| LateNotices.RetryAfterTheEnd | python/chat/messaging.py:132-153 | Whatever the timeouts, some run tells the sender that a message was delivered and 30 days later that it failed, over a row that stays delivered. |
| LateNotices.RepairAfterTheEnd | python/chat/reconciliation.py:27-57 | Whatever the timeouts, some run tells the sender that a message failed while its row still waits. |
| LateNotices.RetryAfterThePurge | python/chat/messaging.py:132-153 | Whatever the timeouts, some run tells the sender that a message was delivered and, after its row was purged, answers a retry with a failure. |
| HandshakeRuns.RowlessNoticeFails | python/chat/messaging.py:132-153 | A frame about a message without a row, never recorded or purged, is always a failure. |
| HandshakeRuns.SettledForGood | python/chat/delivery_store.py:60-66 | A delivered, failed or expired row never changes again while its event is there. |
| HandshakeRuns.PayloadOnlyWhileWaiting | python/chat/realtime_redis.py:109-139 | In every reachable state a readable payload belongs to a committed row of that recipient that is still waiting and whose deadline has not passed. |
| HandshakeRuns.NothingForwardedAfterTheEnd | python/chat/websocket_api.py:204-210 | The listener's test passes only for deliveries that are still waiting. |
| HandshakeRuns.DeliveredOnlyByReadyAck | python/chat/messaging.py:199-220 | The step that delivers an ephemeral message is an admitted and accepted ack of its recipient, before the deadline, over the very connection whose ready answer was accepted and saved at an earlier step. |
| HandshakeRuns.OfferedIsNeverStored | python/chat/messaging.py:145-156 | After an offer over a socket, a send of that identifier over the same socket within the attempt's retention never stores it, whatever upgrades, retries, lost presence and Redis losses come between. |
| HandshakeRuns.ContentOnlyWhenStored | python/chat/persistence.py:254-278 | Content rows exist only for events whose mode at sending was stored. |
| Handshake.StopKeeps | python/chat/messaging.py:181-197 | A stop between any Redis write of a transaction and its commit leaves a state that satisfies the invariant. |
| Handshake.CommitKeeps | python/chat/messaging.py:76-220 | Every committed transaction of handshake and reconciler keeps the invariant. |
| Messaging.Messenger.Offer | python/chat/messaging.py:76-106 | Statement by statement the offer transaction, with every refusal. |
| Messaging.Messenger.Ready | python/chat/messaging.py:108-122 | Statement by statement the ready transaction, which binds the attempt to one socket. |
| Messaging.Messenger.SendFirst | python/chat/messaging.py:124-180 | The first transaction of a send: duplicates answered from the durable state, gates, record, deadline, and the attempt handed to the second. |
| Messaging.Messenger.SendSecond | python/chat/messaging.py:181-197 | The second transaction of a send: lost peer, passed deadline, settled row or payload and publication. |
| Messaging.Messenger.Ack | python/chat/messaging.py:199-220 | The acknowledgement, with every refusal, and the row and attempt it finishes. |
| Messaging.AckAcceptedIff | python/chat/messaging.py:199-215 | An ack is accepted exactly for a live row of its user in its conversation that has not failed or expired and, when that waits in ephemeral mode, over its recorded connection, in time and with its payload there. |
| Messaging.PlanProceedsIff | python/chat/messaging.py:132-156 | A send is recorded exactly when no live event has its identifier, it is permitted, its socket is present, and a stored one finds no attempt and an ephemeral one its own attempt, ready, in time and connected. |
| HandshakeOutcomes.StoredSendIsRecorded | python/chat/messaging.py:157-198 | A stored send that meets no obstacle leaves the event, its content and a waiting row for the other member, all stamped then, changes nothing in Redis and gets no error. |
| HandshakeOutcomes.EphemeralSendIsRecorded | python/chat/messaging.py:151-170 | An ephemeral send over its ready attempt leaves event and waiting row with connection and deadline, and hands the attempt to the second transaction. |
| HandshakeOutcomes.NewSendStopsIff | python/chat/messaging.py:145-156 | A send of a new identifier is stopped exactly when it meets one of the listed obstacles, with the reply of the first of them, and then changes nothing. |
| HandshakeOutcomes.RepeatedSendAnswers | python/chat/messaging.py:134-144 | A send of a known identifier changes nothing; it is answered with the delivery, the failure or silence its row stands for, or as a conflict when it is another message. |
| HandshakeOutcomes.StoredAckDelivers | python/chat/messaging.py:205-220 | The recipient's ack of a waiting stored message leaves its row delivered then, and tells the sender so. |
| HandshakeOutcomes.EphemeralAckDeliversIff | python/chat/messaging.py:205-220 | The recipient's ack of a waiting ephemeral message delivers exactly over its connection, before the deadline, with attempt and payload there; otherwise it is refused with the reason. |
| HandshakeOutcomes.SettledAckAnswers | python/chat/messaging.py:207-220 | An ack of a settled row changes no table and repeats the delivery or is refused. |
| HandshakeOutcomes.OfferAnswers | python/chat/messaging.py:80-101 | A permitted offer of a new identifier leaves one open attempt for the other member with its deadline; each other case has its refusal and changes nothing. |
| HandshakeOutcomes.ReadyAnswers | python/chat/messaging.py:112-121 | A permitted ready answer binds the attempt to its socket exactly when the offer is there for this user, open, in time and not bound elsewhere. |
| HandshakeOutcomes.SecondHalfAnswers | python/chat/messaging.py:182-197 | The second half of a send publishes the payload until the deadline exactly while the row waits, the recipient is connected and the deadline lies ahead; a lost recipient fails row and attempt. |
| HandshakeOutcomes.StatusAnswers | python/chat/messaging.py:61-74 | A status read tells only sender and recipient who are inside, and expires a waiting ephemeral row whose deadline has passed. |
| IndexRuns.MembersAreRight | python/chat/realtime_redis.py:95-128 | After every run, stops, expiry and Redis losses included, each attempt is in every sorted set it belongs to exactly while it should be, with its deadline. |
| IndexRuns.IndexAfterRun | python/chat/realtime_redis.py:141-157 | After every run an index holds all that a scan finds, and equals the scan exactly when no member's attempt is gone or belongs elsewhere; for the deadlines exactly when every member has its attempt. |
| IndexRuns.ReadAfterRun | python/chat/realtime_redis.py:141-157 | After every run a read returns the first 1000 attempts of a scan in deadline order exactly when it meets no attempt that belongs elsewhere and stray members push none of them out; for at most 1000 deadlines always. |
| IndexRuns.IndexUnlessReused | python/chat/realtime_redis.py:95-157 | An index none of whose members was offered again over the leftovers of an expired attempt meets no stranger, and equals a scan exactly when every member has its attempt. |
| IndexRuns.CleanUnlessExpired | python/chat/realtime_redis.py:95-128 | As long as its attempt never expires, all four sets hold a message exactly where they should. |
| IndexRuns.IndexesAgreeWithoutExpiry | python/chat/realtime_redis.py:95-128 | After every run without expiry, stops, losses and both repairs included, all four sets agree with all attempts. |
| IndexRuns.ReadsAgreeWithoutExpiry | python/chat/realtime_redis.py:141-157 | There a read takes exactly the first 1000 attempts of a scan. |
| IndexRuns.ReadIsSteps | python/chat/realtime_redis.py:141-157 | The removals of a read are single steps of the system, so others may come between them. |
| IndexLaws.ReadHeals | python/chat/realtime_redis.py:149-157 | A read of at most 1000 members leaves the index without those whose attempt is gone, and the others as they were. |
| IndexLaws.WriteOwns | python/chat/realtime_redis.py:95-128 | Whatever the sets held before, a completed create or save leaves its message right in all sets its attempt belongs to. |
| StrayMembers.ExpiryLeavesMembers | python/chat/realtime_redis.py:95-107 | Whatever the timeouts, some run ends with a completed create and a deadline whose attempt is gone. |
| StrayMembers.ExpiredMembersHideOne | python/chat/realtime_redis.py:141-157 | Whatever the timeouts, some run ends with one live attempt that a read does not return. |
| StrayMembers.SecondLifeIsFoundElsewhere | python/chat/realtime_redis.py:141-157 | Whatever the timeouts, some run ends with an attempt that the index of a socket returns though it never answered it. |
| RealtimeRedis.CreateKeepsIndexes | python/chat/realtime_redis.py:95-107 | Indexes that agree with all attempts agree after a completed create. |
| RealtimeRedis.SaveKeepsIndexes | python/chat/realtime_redis.py:109-128 | Indexes that agree with all attempts agree after a completed save that moves no attempt. |
| RealtimeRedis.ActiveIsFullScan | python/chat/realtime_redis.py:141-157 | With indexes that agree, reading one equals a scan of all attempts in deadline order, up to its limit. |
| RealtimeRedis.RedisServer.SaveAttempt | python/chat/realtime_redis.py:109-128 | The commands of one save on the attempt, the payload and the four sorted sets. |
| RealtimeRedis.RedisServer.Announce | python/chat/realtime_redis.py:56-65 | A first announcement needs an absent key and a renewal a present one, so a lost connection stays lost. |
| Reconciliation.Reconciler.ReconcileOnce | python/chat/reconciliation.py:16-86 | A pass is the repair of the indexed attempts, then of the batch of pending rows. |
| ReconciliationOutcomes.AttemptRepairs | python/chat/reconciliation.py:22-57 | The first loop copies a settled row to its attempt in silence, fails an attempt past its deadline, without its socket or beyond hope of a row, with the reason and its row with it, and leaves every other one. |
| ReconciliationOutcomes.RowRepairs | python/chat/reconciliation.py:67-86 | The second loop ends a waiting row of a living event exactly when it has no deadline ahead or its socket is gone, as expired or failed, and takes its payload. |
| OrderOutcomes.EarliestDeadlinesFirst | python/chat/realtime_redis.py:141-157 | An index read takes at most 1000 members, those with the earliest deadlines. |
| OrderOutcomes.MostUrgentFirst | python/chat/delivery_store.py:47-53 | The batch of pending rows has at most 1000, those without a deadline first and then by deadline. |
| OrderOutcomes.PendingAre | python/chat/delivery_store.py:47-53 | Pending are exactly the waiting rows of messages sent in ephemeral mode, in the conversation and over the socket the pass is about. |
| ReconciliationLaws.OnePassProgress | python/chat/reconciliation.py:16-86 | From any state of both stores one pass finishes at least min(n, 1000) of n overdue deliveries less the outlived rows, and all of them when both together are fewer than 1000. |
| ReconciliationReach.PassFinishes | python/chat/reconciliation.py:16-86 | From any state of both stores, a pass finishes an overdue delivery exactly when the first loop reads an attempt of it that must fail, or fewer than 1000 of the pending rows that loop leaves sort before it. |
| ReconciliationReach.FirstLoopFinishes | python/chat/reconciliation.py:19-57 | The first loop finishes a pending row exactly when its event lives, its attempt is among the first 1000 of the index and has a reason to fail. |
| ReconciliationReach.PassKeepsItsLimit | python/chat/delivery_store.py:47-53 | A pass finishes min(1000, n) of n overdue deliveries exactly when it reaches all that the first loop leaves, or n is at least 1000 and the first loop ends at least as many as there are outlived rows in the batch. |
| ReconciliationReach.OverdueEndsWhenListed | python/chat/reconciliation.py:30-51 | In every reachable state the first loop ends exactly the overdue rows whose attempt is live and among the first 1000 of the index. |
| ReconciliationStarvation.OutlivedRowsCanStarve | python/chat/delivery_store.py:42-53 | Whatever the timeouts, with less than 30 days for a delivery, some run of the two stores ends with one overdue delivery that a pass leaves waiting behind 1000 outlived rows. |
| ReconciliationIdempotence.SecondPassIsIdle | python/chat/reconciliation.py:16-86 | With at most 1000 candidates for each loop a second pass at the same instant and presence changes neither store. |
| ReconciliationIdempotence.SecondPassAfterAnyRun | python/chat/reconciliation.py:16-86 | So it does after every run, with stale index members, crashes and Redis losses. |
| Persistence.Database.RecordMessage | python/chat/persistence.py:219-289 | The idempotent write in its order: lock, duplicate check, guards, event, content, delivery, counter. |
| VoteOutcomes.WriteAnswers | python/chat/persistence.py:219-251 | A write is recorded exactly when sender and peer are inside, the conversation is neither closed nor voting and has grace left below five; a known identifier is a duplicate of the same message and a conflict with any other. |
| VoteOutcomes.StoredIsRead | python/chat/persistence.py:254-319 | In every run a permitted stored message can be read by both members, with its content, from then on for 30 days. |
| Persistence.Database.Purge | python/chat/worker.py:22-43 | Expired contents and expired events with their cascades go, nothing else. |
| VoteOutcomes.PurgeAnswers | python/chat/worker.py:22-43 | The purge removes exactly the events and contents whose time has come, with the contents and rows of those events. |
| VotingRuns.RunInvariant | python/chat/conversation_store.py:94-113 | In every run an accepted conversation has one vote of both members, 30 s long, and each event and content row fits its window. |
| VotingLaws.WindowIsEmpty | python/chat/persistence.py:228-289 | No event is stamped strictly inside the 30 s after the acceptance, and grace content is exactly the stored content recorded before it. |
| VotingLaws.BallotsFreeze | python/chat/vote_store.py:66-92 | Electorate and deadline of a vote never change, ballots are only added, and after the deadline neither ballots nor result change, whoever leaves. |
| VoteOutcomes.BallotsAreCast | python/chat/vote_store.py:84-92 | In every run the ballots of a vote are exactly the first choices its members cast before its end. |
| VoteOutcomes.ApprovedIffBothSaidYes | python/chat/vote_store.py:66-82 | In every run a vote past its end is approved exactly when both members cast yes before the end. |
| VoteOutcomes.MajorityOfTheElectorate | python/chat/vote_store.py:66-75 | Of any electorate, a due vote is approved exactly when the eligible members whose ballot is yes are more than half of it. |
| VoteOutcomes.GraceIsReadableIff | python/chat/persistence.py:306-313 | In every run grace content stays readable until the end of the vote, and afterwards exactly when both members said yes. |
| VoteOutcomes.ResolutionDeletesIff | python/chat/vote_store.py:76-81 | In every run the resolution of a due vote deletes the grace content of its conversation, and nothing else, exactly when they did not. |
| VoteOutcomes.AccessAnswers | python/chat/voting.py:48-77 | In every run an access shows the verdict, the yes and no votes cast in time and the viewer's own choice; a second, different choice conflicts, a late one has expired, and outsiders find no vote. |
| VoteOutcomes.CastCountsOnce | python/chat/voting.py:60-69 | A first choice in time raises exactly its own count by one and becomes the viewer's own. |
| VoteOutcomes.AccessLeaves | python/chat/voting.py:57-72 | An access first closes a due vote; then a first choice in time is added, a late one closes, and anything else leaves the vote. |
| VotingLaws.GraceIsCounted | python/chat/persistence.py:282-288 | The grace counter is the number of events recorded while pending, and never passes min(5, limit). |
| VotingLaws.RecordedOncePerLife | python/chat/persistence.py:219-250 | Conservation: an identifier is recorded exactly once per life of its event row, however many retries come. |
| VotingLaws.RetryRepeatsOriginal | python/chat/persistence.py:213-217 | A retry is a duplicate exactly when it repeats the original write, a conflict otherwise, and changes nothing either way. |
| VotingLaws.PurgedStaysPurged | python/chat/vote_store.py:76-81 | Content deleted by a lost vote is never brought back by a retry. |
| WorkerErasure.ResolversAreInvisible | python/chat/voting.py:48-105 | Who resolves a vote, and when, cannot be observed: leaving out of a run any requests that record nothing - worker visits, reads of votes and histories, repeated acceptances, refused requests, late ballots included - changes no answer to the others. |
| WorkerErasure.WorkerIsInvisible | python/chat/voting.py:79-105 | Leaving every worker visit out of a run changes no answer any client got. |
| WorkerErasure.SchedulesAgree | python/chat/voting.py:48-105 | Two runs with the same recording requests give them the same answers, whatever worker schedules, reads and retries surround them. |
| WorkerErasure.HistoryUnmovedByResolve | python/chat/persistence.py:306-313 | A reader at t sees the same list before and after the vote is resolved at t. |
| Voting.Conversations.Resolve | python/chat/vote_store.py:66-82 | Resolution closes a due vote by majority and deletes the grace content of a lost one. |
| Voting.Conversations.AccessVote | python/chat/voting.py:48-77 | One access: lazy resolution, conflict, late ballot and second resolution, reply. |
| Voting.Conversations.ResolveVotesOnce | python/chat/voting.py:79-105 | The worker asks for the due votes in the order of their end, at most 1000, visits them and counts the ones it closed. |
| ResolutionPass.PassClosesFirst | python/chat/voting.py:79-105 | After any run a pass closes min(1000, n) of n due votes, exactly those with fewer than 1000 due votes before them. |
| Voting.Conversations.ChangeConversation | python/chat/conversations.py:109-170 | Accept, upgrade, close and leave with their refusals. |
| VoteOutcomes.AcceptanceAnswers | python/chat/conversations.py:135-160 | Only a host who is inside accepts; a first acceptance opens a 30 s vote of both members without ballots. |
| VoteOutcomes.AcceptingAgain | python/chat/conversations.py:153-160 | A repeated acceptance closes the vote if it is due and shows it. |
| VoteOutcomes.LeaveAndCloseAnswer | python/chat/conversations.py:121-143 | Leaving and closing close the conversation for a member who is inside, and only leaving ends the membership. |
| VoteOutcomes.UpgradeAnswers | python/chat/conversations.py:144-170 | Only a host who is inside upgrades, and only an active conversation, which is in stored mode from then on. |
| OrderOutcomes.FirstEndedFirst | python/chat/voting.py:79-105 | A pass takes at most 1000 due votes, those that ended first. |
| IdentityRuns.RunInvariant | python/chat/identity_store.py:97-147 | Over every run of sign-ups, recoveries, exchanges, refreshes, logouts and purges the tables stay well formed, and what ever was issued is still there while its session is. |
| IdentityLaws.OneSessionOneToken | python/chat/identity.py:94-109 | A user never has two unrevoked sessions, and an unrevoked session has exactly one usable token, its current one. |
| IdentityLaws.SucceedsOnce | python/chat/identity.py:111-148 | A token that was exchanged once is never exchanged again. |
| IdentityLaws.TwoPresentationsKill | python/chat/identity.py:129-136 | After one token was presented and processed twice, no session of its family is ever live again. |
| IdentityLaws.DeadMeansRefused | python/chat/identity_store.py:51-65 | Tokens of a dead family are refused and its sessions do not authenticate. |
| IdentityLaws.ReplayIsRecognised | python/chat/worker.py:28-42 | Until 30 days after the last expiry of its session an exchanged token that comes back is answered as reuse: the purge never forgets it earlier. |
| IdentityOutcomes.RefreshAnswers | python/chat/identity.py:111-148 | A refresh exchanges exactly the unused token of a live session of an active user; session and new token then end 30 days later; a used token ends its family; each other case has its refusal. |
| IdentityOutcomes.RefreshedLivesOn | python/chat/identity_store.py:117-133 | After a refresh, whatever else happens, as long as nobody logs it out, replaces it or presents its tokens, the session lives and its new token is exchanged exactly until 30 days later. |
| IdentityOutcomes.LogoutAnswers | python/chat/identity.py:150-155 | A logout by a live session revokes exactly that session and its tokens. |
| IdentityOutcomes.LogoutIsFinal | python/chat/identity.py:150-155 | In every run after a logout the session never authenticates again and none of its tokens is exchanged. |
| IdentityOutcomes.RecoverAnswers | python/chat/identity.py:75-92 | A recovery with the right phrase revokes every session of an active user and opens one of 30 days. |
| IdentityOutcomes.ExchangeAnswers | python/chat/identity.py:94-109 | An exchange revokes every session of the user, opens one, and lets the live session it replaced, and no other, upload for it until its own end and at most for 24 hours. |
| IdentityRuns.PurgeSession | python/chat/worker.py:40-42 | The purge removes a session exactly when it expired more than 30 days ago. |
| Identity.IdentityStore.RefreshToken | python/chat/identity.py:111-148 | Statement by statement a refresh, in the order that lets a reuse revoke its family and still be reported. |
| Identity.IdentityStore.ExchangeBootstrap | python/chat/identity.py:94-109 | An exchange: predecessor, revocation, new session, grant. |
| IdentityOutcomes.RevokeEnds | python/chat/identity_store.py:135-147 | A revocation stamps exactly the chosen sessions and their tokens with the present, and a stamp that is there stays. |
| Identity.IdentityStore.PurgeOnce | python/chat/worker.py:22-43 | The deletes on grants, tokens and sessions in order. |
| IdentityOutcomes.PurgeAnswers | python/chat/worker.py:22-43 | The purge keeps exactly the sessions that ended at most 30 days ago with all their tokens, and the grants in time whose sessions both stay. |
| Transfers.TransferService.AccessTransfer | python/chat/transfers.py:71-112 | Upload, fetch and delete through the guard, the grant and the script. |
| TransferLaws.UploadOrigin | python/chat/transfers.py:82-98 | A successful upload comes from the transfer's own live session or from the one session that was live just before the exchange that created that session. |
| TransferLaws.UploadedOnce | python/chat/transfers.py:31-49 | After one upload no other succeeds, and a fetch returns what was uploaded with the first deadline. |
| TransferLaws.BlobWithinDeadline | python/chat/transfers.py:60-67 | A blob is readable only within 24 hours of the transfer's creation. |
| TransferOutcomes.UploadIsFetched | python/chat/transfers.py:31-49 | After a successful upload, in every continuation without a delete of the transfer or a loss of Redis, the live session it is for gets exactly what was uploaded until 24 hours after the creation, and afterwards that it is gone. |
| TransferOutcomes.NotReadyBeforeUpload | python/chat/transfers.py:46-47 | Until somebody uploads, the session that opened a transfer is told that nothing is there yet. |
| TransferOutcomes.RemovedIsGone | python/chat/transfers.py:42-44 | A transfer that was deleted or lost stays gone in every continuation, for whoever asks and for whatever action. |
| TransferOutcomes.ReplacedSessionUploads | python/chat/transfers.py:82-98 | After any run, the live session that a bootstrap exchange replaces uploads at once for the transfer its successor opens, and the successor fetches it. |
| TransferOutcomes.AccessAnswers | python/chat/transfers.py:71-112 | Who is let in, whose transfer it is, and what each action then answers and changes. |
| Replay.RelayServer.RunScript | python/chat/replay.py:16-47 | The relay script on one key and the frames it publishes. |
| Replay.RelayServer.Handle | python/chat/replay.py:54-87 | One frame through the gates - permission, active conversation, accepted and connected peer, rate limit - and the script. |
| ReplayLaws.RelayedInOrder | python/chat/replay.py:16-47 | For any calls of any sockets a replay publishes begin, items from 0 without gaps, and an end that counts them. |
| ReplayLaws.ReplayHistory | python/chat_client/recovery.py:80-105 | The producer yields begin, one numbered item per message and end, up to 2^32 - 1 items. |
| ReplayLaws.RelayedIsPrefix | python/chat/replay.py:54-87 | What the relay publishes for a fresh replay is a prefix of what its producer meant to send. |
| RelayOutcomes.BeginAnswers | python/chat/replay.py:54-74 | A begin by a permitted sender is published, to the other member and its first socket, exactly when that member accepted and has a socket, no such replay stands and both sockets are connected; with a socket missing nothing is published and the key is gone. |
| RelayOutcomes.NextAnswers | python/chat/replay.py:20-45 | An item or end is published exactly from the socket that began the replay, with the next number, before the end, with both sockets connected; each other case has its refusal. |
| RelayOutcomes.SentIsPublished | python/chat/replay.py:54-87 | Whatever other sockets do, what a producer who is let in sends in order within 15 minutes, with both sockets connected, is published exactly, to the member and socket chosen at the begin. |
| ReplayRoom.ChatRoom.OnReplay | web/public/chat.js:279-298 | The receiver's automaton: begin, numbered items, counted end, errors that forget the replay. |
| ReplayRoom.ChatRoom.OnVote | web/public/chat.js:72-80 | A late open vote does not undo a result, and a rejection removes grace copies, those under way too. |
| ReplayMerge.EndOffersAllIff | web/public/chat.js:279-298 | Whatever frames are lost, repeated or reordered and whatever votes are shown, an end that counts offers the room every allowed copy of the sender's list exactly when the vote is rejected then or no rejection dropped a copy meanwhile. |
| ReplayMerge.AllOrNothing | web/public/chat.js:279-298 | As long as the room forgets no rejection, a frame of a replay changes no message or merges the sender's whole list, less held identifiers and rejected grace. |
| ReplayMerge.StandsUnlessWithdrawn | web/public/chat.js:72-80 | A view makes the room forget its rejection exactly when it is none, an approval or another vote that is not rejected. |
| ReplayVotes.ReadIsServed | python/chat/voting.py:30-77 | The answer to a read of the vote at the end of a run is what the server shows then. |
| ReplayVotes.RejectionIsFinal | python/chat/voting.py:31-77 | After an answer that showed the vote rejected, no answer applied later shows it withdrawn, in whatever order the answers of one server run arrive within 30 s of their reading. |
| ReplayVotes.EndToEnd | python/chat/replay.py:16-47 | From the sender's list through the relay to the room, with the votes of a run of the server, a frame changes no message or merges the whole list. |
| ReplayVotes.LateAnswerWithdraws | web/public/chat.js:72-80 | Some run lets an answer that is applied 30 s after its reading withdraw a rejection. |
| ReplayMerge.WholeDeliveryMerges | web/public/chat.js:279-298 | A readable replay of at most 500 items that arrives whole is merged. |
| RoomOutcomes.SentArrives | web/public/chat.js:279-298 | From the sender to the room: a readable list that is sent so is published whole, and a room with space that gets those frames in order holds every item that is not rejected grace. |
| RoomOutcomes.DeliveryArrives | web/public/chat.js:279-298 | Into a room with space a readable replay brings exactly the copies that are new and not void, with the sender's text, identifier and time, grace exactly when older than the acceptance. |
| RoomOutcomes.FrameAnswers | web/public/chat.js:279-298 | What each frame does: begin anew, collect the next readable item up to the 500th, merge on the right count, ignore other replays, forget on anything else. |
| RoomOutcomes.MessageArrives | web/public/chat.js:188-211 | A message takes the place of the one with its identifier or is added, the 501st pushes out one that is not newer than any that stays, and rejected grace is refused. |
| RoomOutcomes.VoteShows | web/public/chat.js:72-80 | A view of the vote is taken unless it shows open what was seen decided, and a rejection removes exactly the grace copies, from the messages and from a replay under way. |
| RoomOutcomes.PruneKeeps | web/public/chat.js:212-216 | Time takes exactly the messages whose end has come. |
| ReplayMerge.MergeContents | web/public/chat.js:291-294 | A merge keeps what is there and adds exactly the new, valid copies. |
| ReplayMerge.TrimKeepsNewest | web/public/chat.js:205-211 | Trimming leaves at most 500 messages and drops none newer than one it keeps. |
| ReplayMerge.TrimKeepsIff | web/public/chat.js:205-211 | Trimming keeps a message exactly when at least as many others are older as there are too many. |
| ReplayMerge.MergedStaysIff | web/public/chat.js:291-296 | After a merge a held or merged message stays exactly when everything fits or enough others are older, and all stay exactly when all fit. |
| ReplayMerge.PlayStaysDistinct | web/public/chat.js:193-211 | Whatever happens to a room, its messages keep distinct identifiers, as the laws of merging and trimming ask. |
| ReplayMerge.FullRoomLosesOlder | web/public/chat.js:205-211 | A full room of newer messages loses the copy that a counted end merges. |
| ReplayMerge.WithdrawnRejectionSplits | web/public/chat.js:72-80 | A rejected vote followed by any view that withdraws it splits a replay. |
| Limiter.RateKey.CheckWindow | python/chat/identity_redis.py:33-38 | The sliding-window half of the script on one key. |
| Limiter.RateKey.CheckBucket | python/chat/identity_redis.py:25-32 | The token-bucket half of the script on one key. |
| LimiterLaws.WindowDecidesByRecord | python/chat/identity_redis.py:33-38 | An arrival is admitted exactly when fewer than the limit were admitted in the window that ends now, so a refusal means the window is full. |
| LimiterLaws.WindowBound | python/chat/identity_redis.py:33-38 | Among arrivals less than a window apart at most the limit are admitted. |
| LimiterLaws.WindowExpiryIsInvisible | python/chat/identity_redis.py:33-38 | A key that ends decides like one that never does. |
| BucketLaws.BucketDecidesByRecord | python/chat/identity_redis.py:25-32 | An arrival is admitted exactly when, on the stretch from every earlier arrival, one more stays within burst + elapsed * limit / window. |
| BucketLaws.BurstBound | python/chat/identity_redis.py:25-32 | In any stretch at most burst + elapsed * limit / window are admitted. |
| BucketLaws.BucketExpiryIsInvisible | python/chat/identity_redis.py:25-32 | A bucket whose key ends decides like one that never loses its state. |
| LimiterOutcomes.LifeIs | python/chat/identity_redis.py:25-32 | A bucket is kept for the least whole number of milliseconds that covers the window and the time in which it fills. |
| Pagination.HistoryReader.ReadPage | python/chat/resources.py:81-102 | One page: access checks, one row more than the page, and the next cursor. |
| PaginationLaws.PageIsPrefix | python/chat/persistence.py:291-319 | A page lists the newest rows under its cursor, and what it omits lies under the next one. |
| OrderOutcomes.NewestFirst | python/chat/persistence.py:314-315 | A page runs from the newest message down, and messages of one moment from the greatest identifier. |
| PaginationLaws.ListingIs | python/chat/resources.py:81-102 | Who is refused a history, and that a page has at most its limit of rows, all readable by the viewer, at the place of their event and under the cursor. |
| PaginationLaws.WalkFinds | python/chat/resources.py:91-97 | A row visible for every page is returned or lies under the cursor the walk stopped at. |
| PaginationLaws.WalkIsList | python/chat/resources.py:81-102 | Over an unchanging history a walk ends exactly when its pages can hold all rows, with the sorted list. |
| HistoryWalk.WalkOverRun | python/chat/persistence.py:291-319 | Interleaved with any run of the service a walk returns no message twice and misses none that every page could see. |
| Base64Url.DecodeIsInverse | python/chat/protocol.py:14-41 | A text decodes to octets exactly when it is their encoding and their number is within bounds. |
| Base64Url.AcceptedIsTidy | python/chat/protocol.py:29-41 | Accepted are exactly the texts of the alphabet with no single left-over letter and no left-over bit, of a length within bounds. |
| Base64Url.EncodedLength | python/chat/protocol.py:30 | The length gate is exactly the length of the longest legal text. |
| FormatOutcomes.BitsAre | python/chat/protocol.py:14-15 | Three octets and their four letters spell one number, most significant first, and short groups are filled with zero bits. |
| FormatOutcomes.TestVectors | python/chat/protocol.py:14-15 | The test vectors of section 10 of RFC 4648, without padding. |
| Cursor.CursorIsInverse | python/chat/pagination.py:24-41 | A text decodes to a position exactly when it is its cursor: every microsecond of the years 1 to 9999 comes back, before 1970 too. |
| Cursor.CursorIsBound | python/chat/pagination.py:30-41 | A cursor is refused for another kind or scope. |
| FormatOutcomes.CursorOctets | python/chat/pagination.py:17-27 | A cursor is 42 octets: version, kind 1 or 2, scope or zeros, the signed moment most significant first, and the identifier. |
| Invitation.CodeIsInverse | python/chat/invitation_codes.py:23-41 | A code decodes to a token exactly when it is its code, for generations 1 to 2^32 - 1 and 64-bit times. |
| Invitation.CodeNeedsItsSecret | python/chat/invitation_codes.py:30-36 | Under another secret a code is accepted exactly when both authenticate its payload alike. |
| FormatOutcomes.CodeOctets | python/chat/invitation_codes.py:11-27 | A code is 62 octets: version, identifier, generation in four octets, time in eight, 1 for stored and 0 for ephemeral, and the authenticator of these 30. |
| Retention.BackupDirectory.RetainCopies | python/chat/backup.py:93-108 | The job keeps the last seven days and the newest copy of each of the four newest weeks. |
| Retention.RetainedIff | python/chat/backup.py:98-108 | A copy stays exactly when it is at most seven days old, or the newest of its week with fewer than four later weeks that have copies. |
| Retention.WeekIs | python/chat/backup.py:100 | Weeks begin on Mondays at midnight. |
| Retention.IncrementalIsOneShot | python/chat/backup.py:93-108 | With any copies added in between, an earlier retention changes nothing of what a later one keeps. |
| Retention.ScheduleIsOneShot | python/chat/backup.py:93-108 | After any schedule the directory holds what one retention of all copies ever made would keep. |

## Left out

- Cryptography (JWT, Argon2, AES-GCM, crypto_box, HMAC internals, Web Push encryption), HTTP routing, DTO validation, mail, push delivery, metrics, the UI: library calls and plumbing.
- Lock modes, deadlocks and statement timeouts of PostgreSQL: each transaction is one step; freedom from lock cycles is not claimed.
- A crash between the Redis commands of one create or save: each call completes; a crash between calls is modelled.
- Handshake.Offer and the other handshake steps: session checks (`authenticate`), rate-limit calls, push jobs, pending-offer frames on connect and the set of a user's sockets are not part of the step system; a socket has a fixed owner and a fresh identifier.
- HandshakeRuns.OutcomesAgree: frames about an identifier that has no row: the failure of a send that was never offered, after which it may be offered, sent and delivered, and the failure of a retry whose delivered row was purged.
- IndexRuns.ReadIsSteps: an attempt made between the look at a member and its removal; the two are one step.
- Handshake.Discard: a sorted set that expires as a whole does so after every attempt that belongs in it, so its expiry is a run of single removals.
- Messaging.Messenger.Offer: the session check, the rate limit and the push job of an offer.
- Messaging.Messenger.Ready: the session check.
- Messaging.Messenger.SendFirst: the session check, the rate limit and the push job of a stored send.
- RealtimeRedis.RedisServer.SaveAttempt: the times to live of the attempt and of the index of a connection, and the offer key the same pipeline deletes.
- RealtimeRedis.RedisServer.Announce: the time to live of the presence key (a lapse is the step Vanish) and the set of a user's connections.
- Reconciliation.Reconciler.ReconcileOnce: the laws of one pass take its transactions at one instant with nothing in between; in the step system every repair is a step of its own and may interleave with everything.
- Handshake.Guard: the purge does not run while a send has been suspended for 30 days; a row chosen for repair is ephemeral, as the pending query guarantees.
- Voting.Conversations.ResolveVotesOnce: votes that end together are visited in the order of their conversations instead of their own identifiers, the visits share one clock reading, and nothing runs between them.
- Voting.Conversations: publication of vote events, read and list endpoints, inactive users and conversations with more than host and guest.
- Persistence.Conversation: invitation codes' generation counters and the expiry checks of `redeem`; a redeemed conversation is fresh and pending.
- Account deletion and its cascades; the Redis channel that announces revoked sessions; WebSocket tickets; e-mail verification.
- Identity.IdentityStore.ExchangeBootstrap: the check of the bootstrap token and its one use are inputs, as is the check of the phrase in a recovery.
- Transfers.TransferService.AccessTransfer: the size and encoding checks of a blob before the transaction (Base64Url covers the encoding).
- ReplayLaws.ReplayHistory: the producer's errors on a timestamp without a zone and on encryption.
- ReplayRoom.ChatRoom.OnVote: the outbox of own messages, which a rejection and trimming also clean; decryption is an input of an item.
- ReplayVotes.EndToEnd: a room begins without a vote and without a replay, as the browser makes it, and an answer is applied less than 30 s after the server read it; a browser suspended between its network and its code can exceed that.
- Limiter.Rule: floating-point rounding; times and tokens are real numbers.
- The list of conversations: its cursor walks over `updated_at`, which moves while the walk goes on; only the fixed stamps of messages are covered by HistoryWalk.
- Backup files, encryption and streaming; ISO weeks are numbered by their Mondays instead of named by year and week.
