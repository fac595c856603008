# Outbox, idempotency, mediator and paging: a verified model

This project models the concurrent core of the backend and proves what it promises.

* **The transactional outbox** (`Users`, `Outbox`, `Protocol*`, `Entities`, `Persistence`, `Collecting`, `Handlers`,
  `RelayJob`, `Messaging`, `Delivery`). `Protocol` is a step machine: any number of handler transactions (look up, mutate and save, build the
  outbox rows, commit or abort) and any number of relays (select and lock, call the publisher row by row, commit the
  batch) interleave freely over the committed tables, the row locks and an append-only stream, and each of them may
  stop for good before any of its steps. `ProtocolSafety` is the invariant every step keeps; `ProtocolTheorems` says
  what it means; `ProtocolProgress` counts attempts; `ProtocolTiming` adds the clock, and `ProtocolDrain` says the
  work gets done. The code that runs in one
  process is modelled in its own form, as classes that mutate fields and share lists, and is proved to do what the
  steps do (`HandlerRefinesSteps`, `RelayRefinesSteps`). `Delivery` follows the messages to the consumer.
* **Idempotency keys** (`Requests`, `Idempotency`, `IdempotencyProtocol`, `IdempotencyRuns`). The store and the behavior
  as classes, and again a step machine in which requests read the cache, lock, run, store, release or crash in any
  order under a running clock, and every call to the store may raise, with or without its effect. The code does not read the cache again once it holds the lock, so the guarantee is
  stated for what it is, with runs that show what it is not.
* **The mediator** (`Mediation`, `Gatekeeping`): the loop over reversed behaviors is a right fold, the fold nests properly, and the
  configured order keeps bad requests away from the idempotency store and the handlers.
* **Paging** (`Paging`): one total order, slices of it, and what following `has_next` collects.

The reference definitions are independent of the protocol: `Users.Serial` runs commands one after the other,
`Users.Replay` folds events, `Users.LegalTrace` describes traces position by position, `ProtocolProgress.Remaining`
counts what is left to do, `Paging.IsListing` says what a sorted table is. What the operations do to columns, fields and
answers is spelled out apart from them, in values and numbers: `Users.StepEffect`, `Outbox.AttemptEnds`,
`Outbox.Spells`, `Handlers.Outcome`, `Paging.Shows` and the statements of `Gatekeeping`.

`ProtocolTheorems.Reachable` means: some interleaving leads there from an empty database. Clocks are readings carried
by the steps, and only these theorems assume anything of them: those of `ProtocolTiming`, those of `ProtocolDrain`
(a clock past every delay), `BoundedOvertaking` (rows added later carry later timestamps) and those of
`IdempotencyProtocol` (a clock that does not go back).

What the environment does is a parameter or a step: identifiers and clock readings (`Stamp`, `clock`, `at`), the rows
the relay's query returns (any selection that `Outbox.IsSelection` allows), the answers of the publisher and whether a
call that raised reached the broker (`Answer`), the JSON library (`Codec`, lossless where a lemma says so) and the hash
of a request (`Hash`, collision free where a lemma says so), the reading of an identifier's text (`IdParser`), whether
the database takes a relay's commit (`accepted`), which calls to the idempotency store raise (`Faults`), and whether a
Redis client decodes its responses (`Handed`).

Where the documentation and the code disagree the model follows the code:

* `backend/docs/outbox.md:33` and `:51-52` say skip-locked selection prevents double publishing. It keeps batches
  disjoint (`BatchesDisjoint`); a relay that dies after an append and before its commit still causes a second copy
  (`CrashAddsCopy`, and `DeadRelaysDeliverAgain` for a whole run with any number of them). `ExactCopies` counts the
  copies exactly, and `CleanRunPublishesOnce` says when there is one.
* `backend/docs/messaging.md:69-73` says the worker reacts to a registration by sending a welcome email. The worker
  builds its client without response decoding (`backend/src/app/infrastructure/background_jobs/worker.py:46`), so the
  names of all fields are bytes, the lookup of the event type finds nothing, and every entry is acknowledged unseen
  (`WorkerIgnoresEverything`, `WorkerResponse`). An event reaches a handler exactly when the client decodes and there is
  a handler for its type (`EventReachesHandler`). All lemmas about decoding speak of a client that decodes, as the web
  process's does.
* `backend/docs/messaging.md:32-34` says a message that fails five times is dead-lettered. The consumer reads new entries
  only and asks for the first pending entry of its own, so the number it compares with five is an arbitrary answer of
  the broker here, and no retry is claimed.
* `backend/docs/api.md:99-102` says a processed key and payload short-circuits. That holds for reads after the store
  (`ReadAfterStoreReplays`), not for overlapping requests (`OverlapRunsTwice`). Nor does it hold for a handler that
  returns null (`NullRunsAgain`); that is about the behavior for any handler, and the handlers of the users domain all
  return a user.
* `backend/src/app/application/common/interfaces/idempotency.py:20-21` wants another payload under a used key to be an
  error; the behavior runs it and overwrites the record (`OtherPayloadOverwrites`).
* `backend/src/app/application/common/behaviors/idempotency.py:40-44` wants handlers to return plain JSON. Those of the
  users domain return a data object, of which the store keeps the text, so a replay never equals the first answer
  (`ObjectReplayedAsText`; `ReplayIsSound` has the exact condition).

## Model

| member | source | states |
|---|---|---|
| ProtocolTheorems.CommittedHistoryIsSerial | backend/src/app/infrastructure/persistence/repositories/sqlalchemy_user_repository.py:54-76 | in every reachable state the committed users and outbox rows are those of the committed commands run alone in commit order: histories are serializable, no update is lost, one row per event |
| ProtocolTheorems.SaveIffUnchanged | backend/src/app/infrastructure/persistence/repositories/sqlalchemy_user_repository.py:58-73 | the version-checked update takes effect exactly when the committed row still equals the loaded one and the command is legal on it; otherwise the transaction ends and leaves nothing |
| ProtocolTheorems.OnlyCommitsWrite | backend/src/app/infrastructure/persistence/unit_of_work.py:57-64 | only a commit changes users or adds outbox rows, both at once, and exactly as the command run alone would; every other step leaves users, log and row contents as they are |
| ProtocolTheorems.OutboxReplaysToUsers | backend/src/app/domain/users/entities/user.py:48-97 | replaying a user's outbox rows gives its committed email, name and status; the trace is legal; its saves number version + 1, and events plus silent renames make up the same number; nobody else has rows |
| ProtocolTheorems.EmailsUnique | backend/src/app/infrastructure/persistence/models/user_model.py:20-29 | committed emails are pairwise distinct and every stored text is one its value object would build |
| ProtocolTheorems.SecondRegistrationRefused | backend/src/app/application/users/handlers/register_user_handler.py:36-45 | of two registrations with one email that both passed the lookup, the one that commits second, however much later in any run, is refused and leaves neither a user row nor an event |
| ProtocolTheorems.TakenEmailRefused | backend/src/app/infrastructure/persistence/models/user_model.py:20-22 | in any reachable state, a registration whose email is taken by now is refused at its commit and leaves nothing |
| ProtocolTheorems.BothLookupsPass | backend/src/app/application/users/handlers/register_user_handler.py:36-43 | such a pair exists: a run from the empty database in which both lookups find the email free and the first may commit |
| ProtocolTheorems.NoEventLost | backend/src/app/infrastructure/persistence/outbox/relay.py:33-83 | no committed row is processing; each is published with a copy in the stream, or still retryable, or parked with its attempts used up, never two of these (a limit of zero leaves every row pending); exactly published rows have a processing time, and failed ones an error of at most 2000 characters |
| ProtocolTheorems.StreamOnlyCommitted | backend/src/app/infrastructure/persistence/outbox/relay.py:58-67 | each stream message is that of a committed row, whose event was raised by a committed command in the commit that wrote its user |
| ProtocolTheorems.RowTellsCommand | backend/src/app/infrastructure/persistence/unit_of_work.py:72-93 | every committed outbox row tells one committed command in full: event id, aggregate, type and payload, with the name just before a rename and the reason of a deactivation |
| ProtocolTheorems.BatchOutcome | backend/src/app/infrastructure/persistence/outbox/relay.py:55-83 | what a committed batch leaves of each row, column by column: attempt count, status, error of at most 2000 characters, processing time, creation time; a row whose call raised can be selected again exactly from 10, 20, ..., 1280 seconds after it, while attempts remain |
| ProtocolTheorems.SelectionIs | backend/src/app/infrastructure/persistence/outbox/relay.py:36-47 | a query takes unlocked rows that are pending or failed, available and short of the limit, oldest first, all of them or the batch size |
| ProtocolTheorems.ExactCopies | backend/src/app/infrastructure/persistence/outbox/relay.py:45-83 | exact number of stream copies of a row: one if published or in flight, one per relay that delivered it and died before its commit, one per raised call that had reached the broker |
| ProtocolTheorems.BatchesDisjoint | backend/src/app/infrastructure/persistence/outbox/relay.py:36-47 | relays at work at the same time hold different rows |
| ProtocolTheorems.CleanRunPublishesOnce | backend/src/app/infrastructure/persistence/outbox/relay.py:45-83 | without crashes and ambiguous failures each row has at most one copy, and one exactly when it is published or in flight |
| ProtocolTheorems.PublishedIsFinal | backend/src/app/infrastructure/persistence/outbox/relay.py:38-42 | no step of any process changes a published row |
| ProtocolSafety.StepKeepsInv | backend/src/app/infrastructure/persistence/outbox/relay.py:33-83 | every step of every transaction and relay keeps the whole invariant: serial tables, sound transactions, owned locks, row status machine, exact stream counts |
| ProtocolSafety.CommitExecutes | backend/src/app/infrastructure/persistence/unit_of_work.py:57-64 | linearisation point: what a transaction commits is what its command does when run alone on the tables of that moment |
| ProtocolSafety.WrittenRow | backend/src/app/infrastructure/persistence/outbox/relay.py:49-53 | a committed batch gives each of its rows the outcome of its own call and touches no other row |
| ProtocolProgress.StepSpendsAttempts | backend/src/app/infrastructure/persistence/outbox/relay.py:38-57 | remaining attempts fall by at least the batch length at every committed batch and rise only by the limit for each added row |
| ProtocolProgress.RemainingIs | backend/src/app/infrastructure/persistence/outbox/relay.py:38-42 | the attempts left, row by row |
| ProtocolProgress.AttemptsAccount | backend/src/app/infrastructure/persistence/outbox/relay.py:38-57 | over any run, attempts committed plus attempts left never exceed those at the start plus the limit per added row |
| ProtocolProgress.AttemptsBounded | backend/src/app/infrastructure/persistence/outbox/relay.py:38-57 | with N rows in the end, at most N times the limit non-empty batches commit, whatever the publisher does |
| ProtocolProgress.BoundedOvertaking | backend/src/app/infrastructure/persistence/outbox/relay.py:36-53 | batches pass over a due row at most floor(R / batch size) times, plus once per relay that dies, R being the attempts left to the rows no newer than it |
| ProtocolDrain.RoundsDrain | backend/src/app/infrastructure/persistence/outbox/relay.py:33-53 | however calls end and whichever due rows the queries take: after as many batches as there were attempts left, run past every delay, no row can be retried; with a limit above zero each is published or parked |
| ProtocolDrain.RoundsPublish | backend/src/app/infrastructure/persistence/outbox/relay.py:33-83 | and when the publisher takes every message, every row that could be retried is published by then |
| ProtocolDrain.OutboxDrains | backend/src/app/infrastructure/persistence/outbox/relay.py:33-53 | from every reachable state with no relay at work, for every publisher, there is a protocol run of one relay with that many batches to a state with no row to retry, changing nothing but delivery columns and the stream |
| ProtocolTiming.RetriesBackOff | backend/src/app/infrastructure/persistence/outbox/relay.py:55-73 | attempt k on a row starts no earlier than 5 * (2^k - 2) seconds after its creation for k up to 9, and 2550 + 1280 * (k - 9) seconds after that, in every run whose clock does not go back during a publish call |
| ProtocolTiming.DeliveredInOrder | backend/src/app/infrastructure/persistence/outbox/relay.py:36-53 | one crash-free relay, no failed call, distinct timestamps: when an event is in the stream, so are all earlier ones of its aggregate, once each and before it |
| Users.SerialReplays | backend/src/app/domain/users/entities/user.py:48-97 | after any serial history every row is the replay of its own events |
| Users.ReplayAcceptsLegalTraces | backend/src/app/domain/users/entities/user.py:76-97 | the replay accepts exactly the traces that start with a registration, chain renames from the name just before to another one, and end at the first deactivation |
| Users.VersionCountsSaves | backend/src/app/application/users/handlers/rename_user_handler.py:28-35 | version counts the saves after registration; each save raised one event except renames to the name the user had |
| Users.SaveBuildsOnPredecessor | backend/src/app/infrastructure/persistence/repositories/sqlalchemy_user_repository.py:58-75 | each committed save was computed from the row at the version just before, changes that user only, and only what its command names |
| Users.EventHasItsCommand | backend/src/app/domain/users/entities/user.py:65-93 | every event was raised by one command, alone, in the step that wrote its user's row |
| Users.HistoryStep | backend/src/app/domain/users/entities/user.py:48-97 | each command of a history has exactly the effect of its kind: the whole row it writes, registration time included, and the whole event it raises, under its own identifiers and times, with both names or the reason |
| Users.CommandAccepted | backend/src/app/domain/users/entities/user.py:76-97 | a history can go on with exactly the registrations of a free id and email and the changes of active users |
| Users.SerialEmails | backend/src/app/infrastructure/persistence/models/user_model.py:22-26 | serial histories keep emails distinct and texts valid |
| Outbox.RowKeepsEvent | backend/src/app/infrastructure/persistence/unit_of_work.py:72-93 | an outbox row keeps the event: body, aggregate and id can be read back, and no envelope field is in the payload |
| Outbox.RowColumns | backend/src/app/infrastructure/persistence/unit_of_work.py:72-93 | a new row column by column, with event type and payload by name |
| Outbox.AttemptColumns | backend/src/app/infrastructure/persistence/outbox/relay.py:55-83 | one attempt column by column, the delay in seconds by number |
| Outbox.MessageIdentifiesRow | backend/src/app/infrastructure/persistence/outbox/relay.py:60-66 | two rows with the same message are the same row, by the outbox-id header |
| Outbox.HandlerSeesEvent | backend/src/app/infrastructure/messaging/redis_streams.py:35-43 | from event through row, stream entry and decoder, read as text: the message has the event's type, aggregate, id and fields, on the topic the consumer reads |
| Outbox.ConsumerJudgesEvent | backend/src/app/infrastructure/messaging/redis_streams.py:96-122 | read as text, the entry of an event with a handler is never skipped or undecodable; it is acknowledged exactly when the handler accepts that event or the broker answers five deliveries or more |
| Outbox.BackoffRange | backend/src/app/infrastructure/persistence/outbox/relay.py:71-73 | every delay lies in 10..1280 seconds and a later one is never shorter |
| Outbox.TotalBackoffClosedForm | backend/src/app/infrastructure/persistence/outbox/relay.py:71-73 | the sum of the delays before attempt k in closed form |
| Outbox.SelectionExists | backend/src/app/infrastructure/persistence/outbox/relay.py:36-47 | whatever is in the table and locked, the query has a result: due, unlocked, oldest first, cut at the limit |
| Messaging.RoundTrip | backend/src/app/infrastructure/messaging/redis_streams.py:96-109 | decoding what publish encodes gives the message back, whatever JSON its payload holds, exactly when no header is named key, event_type or payload |
| Messaging.DeadLettersKeepEntries | backend/src/app/infrastructure/messaging/redis_streams.py:117-120 | what is set aside are the whole entries judged so, in order, under their stream's dead-letter name |
| Messaging.SeenIfDecoded | backend/src/app/infrastructure/messaging/redis_streams.py:97-101 | an entry whose type has a handler is ignored exactly when the client does not decode, and reaches the handler when it does |
| Messaging.UndecodedIsIgnored | backend/src/app/infrastructure/messaging/redis_streams.py:97-104 | an entry left as bytes is acknowledged unseen, or raises if a handler is registered under the empty name |
| Messaging.UuidTextInjective | backend/src/app/infrastructure/persistence/outbox/relay.py:61-65 | the text of an identifier determines it |
| Messaging.UuidTextReads | backend/src/app/infrastructure/persistence/outbox/relay.py:61-65 | that text is 36 characters, dashed in the usual places, whose lower-case hexadecimal digits spell the identifier |
| Messaging.StreamConsumer.AddHandler | backend/src/app/infrastructure/messaging/redis_streams.py:55-56 | one handler per event type, the last one registered |
| Messaging.StreamConsumer.HandleEntry | backend/src/app/infrastructure/messaging/redis_streams.py:96-122 | one entry: its verdict, the acknowledgement and the dead letter it causes, and nothing else |
| Messaging.StreamConsumer.HandleResponse | backend/src/app/infrastructure/messaging/redis_streams.py:85-94 | one response: entries are judged in order, exactly the settled ones are acknowledged, and an undecodable entry ends the loop with the later ones untouched |
| Entities.User.NewUser | backend/src/app/domain/users/entities/user.py:48-72 | a new aggregate and its one event are those of the registration |
| Entities.User.ChangeName | backend/src/app/domain/users/entities/user.py:76-88 | rename in place: refused when deactivated, silent for the same name, else one event with both names |
| Entities.User.Disable | backend/src/app/domain/users/entities/user.py:90-97 | deactivate in place: refused the second time, else one event |
| Entities.User.CollectEvents | backend/src/app/domain/shared/aggregate_root.py:53-56 | hands out the very buffer and starts a new one |
| Persistence.MapperRoundTrip | backend/src/app/infrastructure/persistence/mappers/user_mapper.py:17-36 | to_domain of to_model is the identity exactly on normal-form texts, to_model of to_domain likewise, and to_domain refuses exactly bad texts and unknown statuses |
| Persistence.Session.Update | backend/src/app/infrastructure/persistence/repositories/sqlalchemy_user_repository.py:60-71 | the update changes one row exactly when id and version match, and nothing else |
| Persistence.Session.Commit | backend/src/app/infrastructure/persistence/unit_of_work.py:64 | all writes of the transaction become visible at once, or, when a key or the unique index is violated, none |
| Persistence.AtomicWriteIs | backend/src/app/infrastructure/persistence/models/user_model.py:20-29 | a transaction's writes are refused exactly when a user key is taken or used twice, two users would share an email, or an outbox key is taken or used twice; otherwise the tables are the old ones with the new rows |
| Persistence.UserRepository.GetById | backend/src/app/infrastructure/persistence/repositories/sqlalchemy_user_repository.py:31-33 | the aggregate of the row this transaction sees, none, or the value object's refusal |
| Persistence.UserRepository.GetByEmail | backend/src/app/infrastructure/persistence/repositories/sqlalchemy_user_repository.py:35-38 | none exactly when no row this transaction sees has the email |
| Persistence.UserRepository.Add | backend/src/app/infrastructure/persistence/repositories/sqlalchemy_user_repository.py:54-56 | queues the row and moves the aggregate's events to the sink, in order, leaving none behind |
| Persistence.UserRepository.Save | backend/src/app/infrastructure/persistence/repositories/sqlalchemy_user_repository.py:58-76 | on a match writes the row at the next version and moves the events; on a conflict changes nothing at all |
| Persistence.UnitOfWork.Enter | backend/src/app/infrastructure/persistence/unit_of_work.py:37-41 | the repository's sink and the pending list are one object |
| Persistence.UnitOfWork.Commit | backend/src/app/infrastructure/persistence/unit_of_work.py:57-64 | one outbox row per pending event, in order, with the tables' own changes or not at all; afterwards sink and pending list differ |
| Persistence.UnitOfWork.Rollback | backend/src/app/infrastructure/persistence/unit_of_work.py:66-69 | no write and no event survives, and sink and pending list differ |
| Collecting.CollectAll | backend/src/app/infrastructure/persistence/repositories/sqlalchemy_user_repository.py:54-76 | any sequence of adds and saves, of any aggregates and as often as one likes, leaves the rows, the view and the pending events that the same calls leave on values, and fails exactly at the first conflict |
| Collecting.CallsAddUp | backend/src/app/infrastructure/persistence/repositories/sqlalchemy_user_repository.py:54-76 | of such calls: the events are those each aggregate had raised, once each, in the order of first calls; a saved aggregate is seen at its version plus the number of its saves |
| Collecting.CommitAll | backend/src/app/infrastructure/persistence/unit_of_work.py:37-69 | a whole unit of work over any calls: it succeeds exactly when no save conflicts and no key is violated, and then writes exactly their users and one outbox row per event; otherwise it changes nothing |
| Persistence.AddAfterCommit | backend/src/app/infrastructure/persistence/unit_of_work.py:37-64 | a user added after the commit is written without its events: one commit per unit of work |
| Handlers.RegisterUserHandler.Handle | backend/src/app/application/users/handlers/register_user_handler.py:30-45 | the first failing check, or the user with its outbox row; nothing changes on failure; a reserved name is refused in whatever case it is written, and no other |
| Handlers.RenameUserHandler.Handle | backend/src/app/application/users/handlers/rename_user_handler.py:22-37 | a malformed id or name, a reserved name, an unknown or deactivated user, in that order; else the renamed row and its event, if any; nothing changes on failure |
| Handlers.DeactivateUserHandler.Handle | backend/src/app/application/users/handlers/deactivate_user_handler.py:15-28 | a malformed id, an unknown or an already deactivated user, in that order; else the deactivated row and its event |
| Handlers.AnswersMean | backend/src/app/application/users/handlers/register_user_handler.py:36-45 | what the three handlers answer and write, spelled out: each error with its condition, the user row, and the outbox row of the event |
| Handlers.ReachableTablesAreSound | backend/src/app/infrastructure/persistence/mappers/user_mapper.py:17-25 | every reachable table meets what the handlers assume of it |
| Handlers.HandlerRefinesSteps | backend/src/app/application/users/handlers/register_user_handler.py:30-45 | from any reachable state in which the user is not being written, steps of one transaction and of nothing else lead to the very answer and tables of the handler method, and leave the stream, the relays, every lock and every other transaction as they were |
| RelayJob.OutboxRelay.RelayOnce | backend/src/app/infrastructure/persistence/outbox/relay.py:33-53 | the table with every row of the batch attempted with its own answer, or as it was when the commit is refused; the stream with what the calls appended either way; the number of rows |
| RelayJob.OutboxRelay.ProcessRow | backend/src/app/infrastructure/persistence/outbox/relay.py:55-83 | one row in place: never left processing, one more attempt, published or failed with its delay |
| RelayJob.RelaySession.Commit | backend/src/app/infrastructure/persistence/outbox/relay.py:52 | all loaded rows are written back at once, or none is |
| RelayJob.RelayRefinesSteps | backend/src/app/infrastructure/persistence/outbox/relay.py:33-83 | protocol steps of one relay lead to the very table and stream of RelayOnce, for every answer of the publisher and of the database, and change nothing else |
| Delivery.CrashAddsCopy | backend/src/app/infrastructure/persistence/outbox/relay.py:45-52 | from any state in which a row can be selected, a relay that appends it and dies leaves tables, locks and relays as they were and the stream one copy longer |
| Delivery.DeadRelaysDeliverAgain | backend/src/app/infrastructure/persistence/outbox/relay.py:45-83 | for every n, and any batch size and limit above zero, a run from the empty database that ends with one row, published in its first attempt, and n + 1 copies of it |
| Delivery.StreamTellsEvents | backend/src/app/infrastructure/messaging/redis_streams.py:103-109 | every entry of every reachable stream, read as text, decodes to the whole of a committed event: its type, aggregate, id and fields |
| Delivery.StreamSpellsCommands | backend/src/app/infrastructure/messaging/redis_streams.py:35-43 | every entry of every reachable stream, spelled out: stream, key, event type, payload and outbox-id, from the command whose commit wrote it |
| Delivery.StartConsumer | backend/src/app/infrastructure/background_jobs/worker.py:54-57 | the worker's consumer has exactly one handler, for registrations |
| Delivery.WorkerIgnoresEverything | backend/src/app/infrastructure/background_jobs/worker.py:46-57 | with the client the worker builds, every entry is acknowledged unseen, registrations included |
| Delivery.WorkerResponse | backend/src/app/infrastructure/messaging/redis_streams.py:82-101 | over any response, the worker's consumer acknowledges all of it, handles nothing and sets nothing aside |
| Delivery.EventReachesHandler | backend/src/app/infrastructure/messaging/redis_streams.py:96-122 | in every reachable stream, with no handler under the empty name: the entry of an event reaches a handler exactly when there is one for its type and the client decodes, and is acknowledged unseen otherwise |
| Delivery.DecodingConsumerWelcomes | backend/src/app/application/users/handlers/user_registered_integration_handler.py:19-23 | with a client that decodes, the handler for registrations would get exactly the committed registrations, with email and name, and all other events would be acknowledged unseen |
| ValueObjects.ConstructionIsIdempotent | backend/src/app/domain/users/value_objects/email.py:19-29 | a normalised email or name builds itself again |
| ValueObjects.SameAccount | backend/src/app/domain/users/value_objects/email.py:19-21 | two texts give the same email exactly when they agree after trimming and lower-casing |
| ValueObjects.StripTrims | backend/src/app/domain/users/value_objects/display_name.py:17-19 | stripping leaves no Unicode whitespace at either end and leaves trimmed text alone |
| ValueObjects.StripRemoves | backend/src/app/domain/users/value_objects/display_name.py:17-19 | stripping removes the spaces around a text and nothing else |
| ValueObjects.DisplayNameIs | backend/src/app/domain/users/value_objects/display_name.py:17-25 | a display name is the text without the spaces around it, 1 to 120 characters long |
| ValueObjects.EmailIs | backend/src/app/domain/users/value_objects/email.py:9-29 | an email is the text without the spaces around it, in lower case: word, at sign, word, dot, word, at most 254 characters |
| ValueObjects.SameAccountLetters | backend/src/app/domain/users/value_objects/email.py:19-21 | two texts give the same email exactly when, without the spaces around them, they are equal but for the case of letters |
| ValueObjects.PolicyIs | backend/src/app/domain/users/services/reserved_name_policy.py:15-25 | the policy refuses exactly the five words, in any mixture of cases, with or without spaces around |
| Requests.FingerprintIdentifies | backend/src/app/application/common/behaviors/idempotency.py:25-29 | equal fingerprints exactly for equal commands, although the class is not hashed |
| Requests.ChecksAgree | backend/src/app/application/users/commands/register_user.py:14-20 | whatever the value objects accept passes the command's own check |
| Idempotency.RedisIdempotencyStore.GetCachedResult | backend/src/app/infrastructure/caching/redis_idempotency_store.py:25-32 | the result in force for the key when the fingerprint matches, else null, or the exception |
| Idempotency.RedisIdempotencyStore.StoreResult | backend/src/app/infrastructure/caching/redis_idempotency_store.py:34-42 | replaces the key's record, whatever it was, for a day, with the result or, if it is not plain JSON, its text; a call that raises may have done so or not |
| Idempotency.RedisIdempotencyStore.TryAcquireLock | backend/src/app/infrastructure/caching/redis_idempotency_store.py:44-48 | sets the lock for thirty seconds exactly when none is in force; a call that raises may have done so or not |
| Idempotency.RedisIdempotencyStore.ReleaseLock | backend/src/app/infrastructure/caching/redis_idempotency_store.py:50-51 | deletes the lock, whoever holds it; a call that raises may have done so or not |
| Idempotency.IdempotencyBehavior.Handle | backend/src/app/application/common/behaviors/idempotency.py:50-77 | whichever calls to the store raise: the handler is called once or not at all, not when a result is cached or the lock is held; the result is stored only when it returned; the release is tried on every path that got the lock, and its exception replaces any other answer |
| IdempotencyProtocol.MutualExclusion | backend/src/app/application/common/behaviors/idempotency.py:67-77 | over all interleavings, exceptions and crashes, as long as no request has outlived its lock, at most one per key is between taking and giving back the lock |
| IdempotencyProtocol.LocksGivenBack | backend/src/app/application/common/behaviors/idempotency.py:72-77 | every lock in the store belongs to a request in progress, whatever handlers do and however long they take, unless a request crashed, a lock call raised after taking effect, or a release raised without effect |
| IdempotencyProtocol.HandlerStarts | backend/src/app/infrastructure/caching/redis_idempotency_store.py:44-48 | a handler starts exactly when its key has no lock in force, and then holds one for thirty seconds from that instant |
| IdempotencyProtocol.LocksExpire | backend/src/app/application/common/behaviors/idempotency.py:21 | no lock lasts more than thirty seconds from now, so one left behind blocks its key no longer |
| IdempotencyProtocol.ReplayIsSound | backend/src/app/infrastructure/caching/redis_idempotency_store.py:25-42 | a replay is what the store keeps of a result that a handler run for the same key and fingerprint returned less than a day ago, with nothing written under the key since; it equals that result exactly when the result is plain JSON |
| IdempotencyProtocol.ReadAfterStoreReplays | backend/src/app/application/common/behaviors/idempotency.py:62-65 | a request that reads after a non-null result was stored, within the day and before another store, gets that result and never reaches the handler |
| IdempotencyProtocol.LateRunReadEarly | backend/src/app/application/common/behaviors/idempotency.py:62-73 | a handler run that starts with a stored result in force belongs to a request whose cache read came before that store |
| IdempotencyProtocol.ApartRunsOnce | backend/src/app/application/common/behaviors/idempotency.py:56-77 | when requests with a key do not overlap, none gets past the cache while a non-null result for it is in force |
| IdempotencyRuns.OverlapRunsTwice | backend/src/app/application/common/behaviors/idempotency.py:62-73 | a run with overlapping duplicates in which no lock is ever outlived, whose second handler starts with the first result stored and in force |
| IdempotencyRuns.OverrunRunsBeside | backend/src/app/infrastructure/caching/redis_idempotency_store.py:44-51 | a run in which a request outlives its lock, another runs beside it, and the first one's release lets a third in |
| IdempotencyRuns.OtherPayloadOverwrites | backend/src/app/infrastructure/caching/redis_idempotency_store.py:30-42 | a run in which another payload under the key runs and replaces the record, and the first payload runs again |
| IdempotencyRuns.NullRunsAgain | backend/src/app/application/common/behaviors/idempotency.py:62-65 | for a handler that returns null, which those of the users domain never do: a run in which the stored result is not replayed |
| IdempotencyRuns.FailedRequestIsReplayed | backend/src/app/application/common/behaviors/idempotency.py:72-77 | a run in which storing the result raises after taking effect: the request is answered with the failure and the next one with the result |
| IdempotencyRuns.ObjectReplayedAsText | backend/src/app/infrastructure/caching/redis_idempotency_store.py:37-42 | for a result that is not plain JSON, such as the user object: a run in which the first request is answered with the object and the next with its text |
| IdempotencyRuns.BehaviorRefinesSteps | backend/src/app/application/common/behaviors/idempotency.py:56-77 | a run of protocol steps of one request leads to the very store and answer of the behavior method, whichever calls to the store raise |
| Mediation.Mediator.Send | backend/src/app/application/common/mediator.py:35-57 | the loop over reversed behaviors equals the right fold; an unregistered request type touches nothing |
| Mediation.WrapSplits | backend/src/app/application/common/mediator.py:43-57 | for every behavior list: a pipeline is its front part around the pipeline of the rest |
| Mediation.WrapNests | backend/src/app/application/common/mediator.py:43-57 | for every list of behaviors that call the next step at most once and with the request they were given: the request passes them in order to the first that stops it or to the handler, then exactly those it passed act on the way out, in reverse |
| Mediation.TwiceIsNoLayer | backend/src/app/application/common/mediator.py:50-57 | a behavior that calls the next step twice, which the source accepts, is not of that kind, however one cuts it |
| Mediation.ConfiguredNests | backend/src/app/composition/container.py:89-98 | the configured pipeline nests like that, for every handler; logging and performance stop nothing, and validation and authorization stop exactly the requests they turn away |
| Mediation.TurnedAwayUntouched | backend/src/app/application/common/behaviors/validation.py:21-30 | an invalid or unauthorised request reaches neither the idempotency store nor a handler; validation speaks first |
| Mediation.AdmittedIsServed | backend/src/app/application/common/behaviors/authorization.py:22-36 | an admitted request is served by the idempotency protocol around the handler, whichever calls to the store raise: the handler is called once or not at all, with the log around it |
| Gatekeeping.RenameGuarded | backend/src/app/application/common/behaviors/authorization.py:28-36 | a rename is denied, with nothing called and nothing changed, for a blank name, for a caller who is not authenticated, and for one without users:write, in that order, and gets through otherwise |
| Gatekeeping.DeactivationGuarded | backend/src/app/application/users/commands/deactivate_user.py:9-14 | a deactivation likewise, with nothing to validate |
| Gatekeeping.RegistrationGuarded | backend/src/app/application/users/commands/register_user.py:14-20 | a registration needs no caller; it is denied for an address without an at sign and for a blank name, naming the fields |
| Gatekeeping.LookupGuarded | backend/src/app/application/users/queries/get_user.py:9-11 | looking up one user needs nothing |
| Gatekeeping.ListGuarded | backend/src/app/application/users/queries/list_users.py:15-21 | a list is denied for a negative offset and a limit outside 1 to 100, naming the fields |
| Gatekeeping.KeyedCommand | backend/src/app/application/common/behaviors/idempotency.py:56-77 | an admitted command with a key is answered with the result in force and no handler call, or with a conflict and no handler call, or by one handler call whose result is kept for a day and whose lock is given back |
| Gatekeeping.UnkeyedRequest | backend/src/app/application/common/behaviors/idempotency.py:56-57 | without a key, and for every query, the handler is called once and the store is left alone |
| Gatekeeping.KindsTellClasses | backend/src/app/application/common/mediator.py:35-38 | each class of request is dispatched to a handler of its own |
| Paging.SameBounds | backend/src/app/application/common/dto/pagination.py:26-30 | the page request and the query's own check accept the same offsets and limits |
| Paging.ListingUnique | backend/src/app/infrastructure/persistence/repositories/sqlalchemy_user_repository.py:41-46 | newest first, then by id, is a total order: a table has one listing |
| Paging.ListingExists | backend/src/app/infrastructure/persistence/repositories/sqlalchemy_user_repository.py:41-50 | every table has a listing, as long as the count |
| Paging.ListPageIs | backend/src/app/application/users/handlers/list_users_handler.py:14-24 | on a sound table a page is the slice of the listing and the total, and reading rows back never fails |
| Paging.FollowCollects | backend/src/app/application/common/dto/pagination.py:42-48 | following has_next from any offset collects exactly the rest of the listing |
| Paging.DtoIdentifies | backend/src/app/application/users/dto/user_dto.py:26-35 | a page item determines the user it shows |
| Paging.PagesPartition | backend/src/app/infrastructure/persistence/repositories/sqlalchemy_user_repository.py:40-52 | for any allowed limit, following has_next ends after max(1, ceil(total / limit)) pages that together are the whole table, in order, with each user at exactly one place |
| Paging.PageShows | backend/src/app/application/users/dto/user_dto.py:26-35 | the items of a page show, field by field, the users of the listing from the offset on, as many as the limit allows; total, has_next and has_previous in numbers |
| Paging.ListingOrder | backend/src/app/infrastructure/persistence/repositories/sqlalchemy_user_repository.py:41-46 | newest registration first, equal ones by identifier |
| Paging.FollowShows | backend/src/app/application/common/dto/pagination.py:42-48 | following has_next shows, field by field, all users of the listing in turn, in just as many pages as the limit needs |

## Left out

- Postgres, SQLAlchemy and Redis internals appear as step rules: atomic commit, a written row locked until its transaction ends, skip-locked selection, unique keys checked at commit, stream append, set-if-absent with expiry (a key is in force until strictly before its expiry instant). A registration's insert and its commit are one step.
- Protocol.FlushNext: reads the clock once for a transaction's rows, because no handler builds more than one; Persistence.UnitOfWork.Commit reads it once per row.
- A broker that takes a message after the client has given up on the call is not modelled; a call that raised has either appended by then or never will.
- The rows' own `max_attempts` column, which the relay ignores for its constructor value.
- Persistence.UnitOfWork.Commit: several commits in one unit of work keep the contract but lose the later events (`AddAfterCommit`); reuse of an aggregate after a failed commit is not modelled. No handler does either.
- The session's identity map: each handler loads one aggregate in a session of its own.
- Redelivery and "five failures means dead-lettered" (`backend/docs/messaging.md:32-34`), for the reason given above; the read loop of the consumer beyond one response, and its start and stop.
- Mediation.WrapNests: says nothing of behaviors that call the next step more than once or with another request; `WrapSplits` covers them.
- Delivery order with several relays, failed calls or equal timestamps: the code does not give it.
- What bytes a text is encoded as; the JSON codec and the hash themselves; a result that holds plain JSON only in part.
- ValueObjects.ConstructionIsIdempotent: does not model the lower case of letters outside ASCII in an email.
- ValueObjects.SameAccount: does not model the lower case of letters outside ASCII in an email; whitespace is Unicode's.
- Persistence.Session.Commit: a commit that fails for another reason than a constraint is not among its outcomes; in the protocol it is `Abort`.
- How the library reads an identifier's text (a parameter of the handlers); GetUserQuery's handler; roles; the correlation id.
- Paging.PagesPartition: the table does not change between pages.
- The aggregate type of an event class whose module path ends in `domain` (the source would fail on it); the user events' path does not.
- HTTP routes, schemas, exception mapping, log contents, tracing, settings, tokens and passwords, email, health checks, migrations, the plain cache and the frontend.
