# Knowledge_Worker message core, modelled in Dafny

Knowledge_Worker ingests policy documents. Its core is message-driven and
strictly sequential:

- **Commands and events.** A `CreateDocument` command, a `DocumentCreated`
  event and so on are handed to a **message bus**. The bus pops them from a
  FIFO queue and calls the handlers registered for each message type.
- **Handlers and storage.** Every handler works inside a **unit of work**. Its
  **repositories** hand out model objects and remember them in a `seen` set.
- **Event harvesting.** After each successful handler call, the bus harvests
  the events those objects hold and appends them to the queue.
- **Wiring.** A **bootstrap** function binds each handler to the dependencies
  its signature names.
- **Graph.** A separate routine turns documents, topics, entities and
  stakeholders into a node/edge graph with node degrees.

The model has one module per component:

| module | models |
|---|---|
| `Messages` | commands, events, error kinds and the docx comment tuple |
| `Domain` | model classes, their declared fields and defaults, pydantic presence validation, `compose_DocumentCreated_event`, and the `Aggregate` class (fields, `events` buffer, linked rows) |
| `Store` | the database as in-memory tables, link tables and changelog; a `Session` class with its flush/commit/rollback |
| `Repository` | the `Repository` class: `add`, `get`, `list`, `update`, `delete`, link rows, and the `seen` set |
| `UnitOfWork` | the `UnitOfWork` class: enter/exit, commit/rollback, the fake unit of work of the tests, and `collect_new_events` |
| `MessageBus` | the `Bus` class: `handle`, `handle_event` with its 3-attempt retry, `handle_command`; a specification function of a whole run |
| `Registries` | EVENT_HANDLERS / COMMAND_HANDLERS of both handler modules |
| `Bootstrap` | `bootstrap` and `inject_dependencies` |
| `DocumentHandlers` | `add_new_document`, `add_document_comments`, the analysis fan-out and `filter_entities` |
| `EntityHandlers` | `process_reviewed_entity` and its steps, and `consolidate_canonical_entities` |
| `LegacyHandlers` | the handlers of the older `src/` tree |
| `Graph` | the body of `get_node_edge_graph_data` after its four reads |
| `Scenarios` | the three concrete tests of `tests/unit/test_handlers.py` |

How the model is built:

- **Imperative code stays imperative.** Code that mutates state is modelled
  with classes and methods with loop invariants: the bus queue, buffer
  draining, the `seen` set, the `setattr` loop, the link loops and the graph
  loops.
- **Methods are proved against specifications.** Each method's postcondition
  ties its result or new state to a pure function: `RunFrom`, `Retry`,
  `Deliveries`, `Overwrite`, `Joined`, `LinkRaw`, `EdgesOf`, `Degrees`,
  `FinalNodes` and so on.
- **The promises are lemmas about those functions.** These include FIFO order,
  the retry bound, termination, idempotent draining, version + 1 with one
  changelog row, link tables that only grow, and degrees summing to twice the
  edges.

Handlers are opaque to the bus. A `Behaviour` gives the reply of the n-th
handler call of a run, which covers every deterministic world the handlers
could act on.

The source tree holds two snapshots of the same package:

- `src/core/...` is the older one: its unit of work, bus, bootstrap and
  handlers.
- `core/...` is the newer one: its handlers, repositories and models.

`core/service_layer/unit_of_work.py` and `core/service_layer/messagebus.py`
are not among the modelled files. The `src` unit of work, extended with the
`raw_topics`, `raw_entities` and `entities` repositories the core handlers
use, stands in: `UnitOfWork(legacy = false)` carries those five
repositories.

Three properties of the code that the model states:

- **Breadth-first order.** `handle` appends every harvested event to the back
  of the queue. So the messages already waiting are all handled before any
  event a later step produces, and an event's own events wait behind the
  events produced with it (`MessageBus.WaitingMessagesFirst`).
- **Sequential delivery.** `handle_event` calls an event's handlers one after
  another, in registration order, each to completion before the next
  (`MessageBus.DeliveriesInOrder`).
- **Not-found behaviour per class.** A read of a missing row fails
  differently by repository class:
  - a Document read raises `NoResultFound`;
  - an Entity read yields None, and `original_object.version` then raises
    AttributeError.

  Both are modelled (`Repository.Lookup`, `Repository.Repository.Update`).

Two unit-of-work variants run the handlers:

- **The SQL unit of work.** Its repositories' `_add`s raise as written (see
  Findings): the Document `_add` passes `processed_at`, which `DocumentORM`
  does not declare; the Comment, RawTopic, RawEntity and Entity `_add`s
  rebuild the model from a flushed row whose audit fields are NULL. The
  as-written adds are `Repository.DocumentAddAsWritten`,
  `Repository.ChildAddAsWritten` and `Repository.RawEntityAddAsWritten`. The
  handlers are modelled over the corrected adds, which store the row and
  return the new object.
- **The fake unit of work of `tests/unit/test_handlers.py`.** It is
  `UnitOfWork(legacy = false, fake = true)`. Only its Document and Comment
  repositories exist, and they keep their rows across scopes. Their `add`
  builds the model before storing it and never touches `seen`; the Document
  `add` gives the document an empty summary. The handlers' uses of
  `raw_entities`, `raw_topics`, `entities` and `_update` are modelled as the
  AttributeError they raise there.

## Model

| member | source | states |
|---|---|---|
| MessageBus.Bus.Handle | src/core/service_layer/messagebus.py:25-34 | the queue starts as [message] and is popped from the front until it is empty or a step raises; failure, calls, popped messages and leftover queue are those of the run function HandleRun |
| MessageBus.Bus.HandleEvent | src/core/service_layer/messagebus.py:36-54 | an event type with no registry entry raises; otherwise every registered handler is delivered in turn, and the events collected after each successful call are appended to the back of the queue |
| MessageBus.Bus.HandleCommand | src/core/service_layer/messagebus.py:56-64 | a command makes exactly one call, to the handler of its type; a missing handler or a raising one fails the step; otherwise the collected events go to the back of the queue |
| MessageBus.DeliverAll | src/core/service_layer/messagebus.py:37-54 | the loop over an event's handlers produces exactly the calls of the specification Deliveries |
| MessageBus.Deliver | src/core/service_layer/messagebus.py:39-54 | the retry loop produces exactly the calls of the specification Retry |
| MessageBus.RetryBound | src/core/service_layer/messagebus.py:39-54 | one delivery makes between 1 and 3 calls, all of the same handler on the same message, numbered 1, 2, ...; it stops at the first call that returns, and gives up only after 3 calls that all raised |
| MessageBus.DeliveriesInOrder | src/core/service_layer/messagebus.py:37 | the handlers of an event begin in registration order, each exactly once, whatever the earlier ones did (a handler that fails all attempts does not stop the later ones) |
| MessageBus.DeliveriesBound | src/core/service_layer/messagebus.py:37-46 | delivering an event makes at most 3 calls per handler, all on that event |
| MessageBus.StepDispatch | src/core/service_layer/messagebus.py:29-34 | a foreign message raises; an event raises only when its type is unregistered and otherwise starts its handlers in order; a command calls exactly its handler once and raises when that handler is missing or raised |
| MessageBus.FailedStepEnqueuesNothing | src/core/service_layer/messagebus.py:46-47 | a step that raises enqueues no event: events are collected only after a handler returns |
| MessageBus.StepDecreases | src/core/service_layer/messagebus.py:25-28 | when handlers yield only lower-ranked events, each pop-and-append strictly decreases the queue's lexicographic rank count, so `handle` terminates |
| MessageBus.StepRanksLower | src/core/service_layer/messagebus.py:47 | every event enqueued by one step ranks below the message that step handled |
| MessageBus.WaitingMessagesFirst | src/core/service_layer/messagebus.py:25-28 | FIFO: the messages waiting at any point are popped in their order before anything enqueued later, or are still waiting in that order if `handle` raised first |
| MessageBus.RunOutcome | src/core/service_layer/messagebus.py:49-64 | a run that did not raise emptied its queue; a run that raised stopped at the last message it popped, because of a foreign message, an unregistered event type, or a missing or raising command handler, never because an event handler failed |
| MessageBus.CallsAreNumbered | src/core/service_layer/messagebus.py:25-64 | every call in a run's log carries the behaviour's reply at its own position: no call is skipped or repeated |
| UnitOfWork.UnitOfWork.CollectNewEvents | src/core/service_layer/unit_of_work.py:29-33 | every object the Document repository has seen is visited before any the Comment repository has seen, each once; each buffer is yielded front first and left empty; objects' fields are untouched; an already drained unit of work yields nothing |
| UnitOfWork.DrainEach | src/core/service_layer/unit_of_work.py:31-33 | the objects of one `seen` set are visited once each in some order; the result is their buffers concatenated in that order, and every buffer ends empty |
| UnitOfWork.ConcatAppend | src/core/service_layer/unit_of_work.py:30 | draining one group of buffers then another yields the first group's events before the second's |
| UnitOfWork.ConcatEmpty | src/core/service_layer/unit_of_work.py:32-33 | a drain yields nothing exactly when every buffer is empty |
| Domain.Aggregate.Drain | src/core/service_layer/unit_of_work.py:32-33 | `while object.events: yield object.events.pop(0)` returns the buffer in order and leaves it empty |
| UnitOfWork.NewRepositories | src/core/service_layer/unit_of_work.py:49-53 | a new repository of each class over the given session, each with an empty `seen` |
| UnitOfWork.UnitOfWork.constructor | src/core/service_layer/unit_of_work.py:45-73 | a new unit of work is valid, has seen nothing and has not committed, and only the tests' fake one has its repositories before its first scope |
| UnitOfWork.UnitOfWork.Open | src/core/service_layer/unit_of_work.py:49-53 | a fresh session on the database and fresh, empty repositories over it, which from then on exist |
| UnitOfWork.UnitOfWork.Enter | src/core/service_layer/unit_of_work.py:49-53 | a real unit of work starts each scope with a fresh session and nothing seen; the fake one keeps its repositories and rows |
| UnitOfWork.UnitOfWork.Commit | src/core/service_layer/unit_of_work.py:59-60 | a real commit publishes the session's rows to the database; the tests' fake one (tests/unit/test_handlers.py:73-77) only sets `committed` |
| UnitOfWork.UnitOfWork.Rollback | src/core/service_layer/unit_of_work.py:65-66 | a real rollback drops the session's uncommitted rows; the tests' fake one (tests/unit/test_handlers.py:79-80) changes nothing |
| UnitOfWork.UnitOfWork.Exit | src/core/service_layer/unit_of_work.py:20-27 | leaving the scope always rolls back, so only what was committed lasts |
| UnitOfWork.UnitOfWork.CommitThenExit | src/core/service_layer/unit_of_work.py:23-27 | a commit followed by leaving the scope keeps exactly the session's rows |
| UnitOfWork.UnitOfWork.Finish | src/core/service_layer/unit_of_work.py:59-66 | after a handler's scope ends, a real unit of work stores the database's previous rows if something was caught and the session's rows if not, and the fake one keeps the session's rows and is marked committed |
| Store.Session.Commit | src/core/service_layer/unit_of_work.py:59-60 | the session's rows become the database's |
| Store.Session.Rollback | src/core/service_layer/unit_of_work.py:65-66 | the session's rows revert to the database's |
| Store.Session.Flush | core/adapters/repository.py:26-27 | the session holds the flushed rows |
| Store.NextIdFresh | tests/unit/test_handlers.py:27 | a new row's id is fresh and above every id in use, and in a table of ids 1..n it is n + 1, as the fakes' `len + 1` |
| Store.NewRowSpec | core/adapters/repository.py:180-185 | the stored row holds exactly the declared fields: the assigned id, and the given value of every other declared field given |
| Store.InsertSpec | core/adapters/repository.py:286-291 | `session.add; flush` stores the row under a fresh id and changes no other row of its table |
| Store.InsertAllAddsOnePerEntry | core/service_layer/handlers.py:65-67 | one add per entry adds exactly one row per entry to its table, keeps every existing row, and leaves other tables, links and changelog alone |
| Store.OverwriteOnlyNamed | core/adapters/repository.py:129-132 | `_update` changes only attributes named in `fields`, each to the updated object's value; the stored version changes only when "version" is named |
| Store.OverwriteOne | core/adapters/repository.py:354-357 | naming one field copies that field alone; naming one the object lacks copies nothing |
| Store.CopyFields | core/adapters/repository.py:267-270 | the `for key, value in dict(updated_obj).items()` loop yields exactly the overwrite specification |
| Store.KeysOf | core/adapters/repository.py:146 | every row id of a table, each once, as many as there are rows |
| Store.AddLinkAppends | core/adapters/repository.py:313-321 | a link is appended to its own table, unless its id pair is already there (IntegrityError); nothing else changes |
| Store.AddLinkKeepsKeysUnique | core/adapters/repository.py:313-316 | adding a link keeps the link table's id pairs unique |
| Store.JoinedSpec | core/adapters/repository.py:164-168 | a document's `entities` are exactly the existing entities a DocumentEntity link ties to it, never more than the links |
| Store.Join | core/adapters/repository.py:341-345 | the join loop yields exactly the join specification |
| Repository.Lookup | core/adapters/repository.py:293-299 | an Entity read yields None for a missing id, the read of any other class raises; a present id yields its stored row |
| Repository.RawEntityLinks | core/adapters/repository.py:305-311 | `get_raw_entities` yields the entity's raw-entity links, or None when the entity does not exist |
| Repository.LinksFrom | core/adapters/repository.py:308 | the links returned are exactly those of the table that start at the entity |
| Repository.FirstMissing | src/core/adapters/repository.py:69-75 | the src Comment `_add` fails exactly when one of its five keys is missing, and names a missing one |
| Repository.Load | core/adapters/repository.py:156-170 | a listed object holds its stored row, no events, and its linked rows |
| Repository.RawEntityAddAsWrittenRaises | core/adapters/repository.py:224-229 | as written, a valid raw-entity record is flushed (one more row) and the add then raises |
| Repository.DocumentAddAsWrittenRaises | core/adapters/repository.py:113-117 | as written, every CreateDocument makes `DocumentORM(**document)` raise TypeError on `processed_at`, which DocumentORM does not declare; nothing is flushed |
| Repository.ChildAddAsWrittenRaises | core/adapters/repository.py:180-185 | as written, a record without audit fields is flushed and the model rebuilt from the row then fails validation, for every class but Document |
| Repository.FakeBuildSpec | tests/unit/test_handlers.py:56-58 | the fake `add` constructs the model exactly when the record has no `id` and gives every required field; a record without audit fields is refused |
| Repository.FakeDocumentBuilds | tests/unit/test_handlers.py:23-30 | the fake Document `add` always constructs the document from a CreateDocument |
| Repository.FakeLookup | tests/unit/test_handlers.py:32-33 | the fake `get` yields the stored row exactly when the id is stored, else None |
| Repository.Repository.constructor | src/core/adapters/repository.py:36-39 | each concrete repository starts with an empty `seen` |
| Repository.Repository.Add | core/adapters/repository.py:58-61 | `add` stores the row under the next id and records the returned object in `seen`; the src Comment `_add` raises on a missing key before anything is written; the tests' fake Comment `add` stores the record only when it constructs a Comment, and never touches `seen` |
| Repository.Repository.AddDocument | core/adapters/repository.py:113-122 | the document row is flushed, then the new document composes its DocumentCreated event (records keyed "doc_id" by the src repository); a comment date that does not parse raises and leaves `seen` alone; the tests' fake `add` composes first, so a bad date stores nothing, stores an empty summary, and never touches `seen` |
| Repository.Repository.Get | core/adapters/repository.py:83-87 | `get` records the result in `seen` only when one was found; None and a raise leave `seen` alone; the tests' fake `get` yields the stored row or None and never touches `seen` |
| Repository.Repository.List | core/adapters/repository.py:89-93 | one new object per stored row, each holding its row and its linked rows, all recorded in `seen`; the src repositories leave `seen` alone |
| Repository.Repository.Update | core/adapters/repository.py:63-81 | reads the original (a missing one raises before any write), sets version to original + 1, copies only the named fields, records the object in `seen`, and appends exactly one changelog row (class name, id, original, revised); the tests' fake repositories, which have no `_update`, raise after the version bump and write nothing |
| Repository.UpdatedSpec | core/adapters/repository.py:19-28 | an update rewrites one row of its own table and appends exactly one change holding the original and the revised snapshot; nothing else changes |
| Repository.Repository.Delete | core/adapters/repository.py:275-278 | `delete` removes the row and commits; a missing row raises and changes nothing |
| Repository.Repository.AddLinkRow | core/adapters/repository.py:313-321 | `add_raw_entity` / `add_document_entity` flush the link row, or fail on a duplicate id pair without writing |
| Domain.Construct | core/domain/model.py:8-13 | a model that fails validation raises a validation error of its own class |
| Domain.ConstructSucceeds | core/domain/model.py:8-13 | constructing a model succeeds exactly when every required field is given and not None; the model then holds every declared field and keeps what was given |
| Domain.VersionDefaultsToOne | core/domain/model.py:13 | every model has a version: 1 unless one was given |
| Domain.ComposedEvent | core/domain/model.py:56-76 | no comments: nothing appended; comments whose dates all parse: exactly one DocumentCreated of this document, one record per comment in order |
| Domain.CommentRecordsOk | core/domain/model.py:62-73 | the records are composed exactly when every comment's date parses, for any parse predicate |
| Domain.CommentRecordsMatch | core/domain/model.py:58-73 | the records match the docx comments one to one and in order, fields taken positionally, each carrying the document id |
| Domain.CommentRecordsFirstBadDate | core/domain/model.py:67-69 | a failed composition reports the first comment whose date does not parse |
| Domain.Aggregate.ComposeDocumentCreated | core/domain/model.py:56-76 | appends exactly the composed events to `events` and changes no field; a bad date appends nothing |
| Domain.Aggregate.LegacyComposeDocumentCreated | src/core/domain/model.py:28-40 | the same, with each record's document id under "doc_id" |
| Registries.CoreCommandsOnePerType | core/service_layer/handlers.py:486-504 | every command type but ProcessDocument maps to exactly one handler, and no two types share one |
| Registries.CoreEventsRegistered | core/service_layer/handlers.py:470-484 | every event type is registered; DocumentCreated has three handlers in a fixed order, CommentCreated none |
| Registries.CoreDocumentCreatedHandlers | core/service_layer/handlers.py:471-478 | a DocumentCreated event starts exactly its three handlers, in order, and does not raise |
| Registries.CoreCommentCreatedHandlers | core/service_layer/handlers.py:479 | a CommentCreated event calls nothing |
| Registries.CoreRejectsProcessDocument | core/service_layer/handlers.py:486 | the core bus has no ProcessDocument handler: such a command raises before any call |
| Registries.LegacyRegistry | src/core/service_layer/handlers.py:63-72 | DocumentCreated starts the comment handler then the logger; CreateDocument and ProcessDocument are the only commands; an unregistered DocumentProcessed raises |
| Bootstrap.InjectSpec | src/core/bootstrap.py:38-42 | a dependency is bound exactly when its name is a parameter of the handler; nothing is added; with every name a parameter the dependencies are kept as they are |
| Bootstrap.InjectAppend | src/core/bootstrap.py:38-42 | injection distributes over concatenation, so the bound dependencies keep the dependencies' order |
| Bootstrap.InjectDependencies | src/core/bootstrap.py:12-16 | from the three dependencies, each whose name is a parameter is bound, in the dict's order |
| Bootstrap.BindAll | src/core/bootstrap.py:19-22 | each handler of a list is kept with its name and wrapped, in the same order |
| Bootstrap.BootKeepsRegistry | src/core/bootstrap.py:18-29 | the rebuilt registries have the same message types and, for each, the same handler names in the same order, each wrapping its own handler |
| Bootstrap.CoreEventHandlerInjection | src/core/bootstrap.py:18-24 | the comment handler gets the bus's unit of work, the analysis handler also the analysis connector, the loggers nothing |
| Bootstrap.CoreCommandHandlerInjection | src/core/bootstrap.py:26-29 | the command handlers get the unit of work, and the consolidation handler also the consolidation connector |
| Bootstrap.BootSuppliesEveryParameter | src/core/bootstrap.py:31-43 | every parameter after the message except `*args`/`**kwargs` is bound, and a handler naming `uow` gets the bus's own unit of work |
| DocumentHandlers.FilterEntitiesSpec | core/service_layer/handlers.py:175-179 | ids None: the input unchanged; otherwise exactly the rows whose id is listed, never more rows |
| DocumentHandlers.KeepMembers | core/service_layer/handlers.py:178 | a row is kept exactly when it is selected |
| DocumentHandlers.KeepAppend | core/service_layer/handlers.py:178 | filtering keeps order: filtering a concatenation concatenates the filtered parts |
| DocumentHandlers.KeepEverything | core/service_layer/handlers.py:178 | a filter selecting every row returns the rows unchanged |
| DocumentHandlers.NewestSpec | core/service_layer/handlers.py:29-34 | none found exactly when no document has the filepath; the one found has it and the highest version, and is the first of that version |
| DocumentHandlers.Newest | core/service_layer/handlers.py:32-34 | the position found is within the list |
| DocumentHandlers.LatestSpec | core/service_layer/handlers.py:29-34 | with integer versions nothing raises, and the document found is one of the filepath's with the highest version, or none for a new filepath |
| DocumentHandlers.VersionedRow | core/service_layer/handlers.py:35-39 | a new filepath keeps the command's version and previous version; otherwise version = latest's + 1 and previous version = latest's id |
| DocumentHandlers.Versioned | core/service_layer/handlers.py:35-37 | the versioned message is still a CreateDocument |
| DocumentHandlers.ListRows | core/adapters/repository.py:89-93 | the listed rows are exactly the table's rows, one per row, and only objects of the repository's class join `seen` |
| DocumentHandlers.ListDocuments | core/service_layer/handlers.py:30 | `uow.documents.list()` yields exactly the stored documents, one per row |
| DocumentHandlers.AddThenCommit | core/service_layer/handlers.py:39-49 | the document row is stored and committed, and the returned document holds its DocumentCreated event; a bad comment date returns UnboundLocalError; on the SQL unit of work the document is in `seen`; on the fake one it is not, the stored summary is empty, and a bad comment date stores nothing |
| DocumentHandlers.AddNewDocument | core/service_layer/handlers.py:23-49 | the listed documents are the stored ones; a version that cannot be compared stores nothing; otherwise the versioned row is stored and committed, and the new document holds its event; on the SQL unit of work it is in `seen`; on the fake one it is not, its summary is empty, and a bad comment date stores nothing |
| DocumentHandlers.StoreComments | core/service_layer/handlers.py:65-74 | the SQL unit of work stores one comment row per record, in order, each committed; the fake one stores, in order, exactly the records that construct a Comment |
| DocumentHandlers.StoreComment | core/service_layer/handlers.py:66-74 | one iteration: the add, a rollback when it raised, then the commit |
| DocumentHandlers.FakeCommentsWithoutAudit | tests/unit/test_handlers.py:56-58 | the fake stores none of the records without audit fields, which is every record a DocumentCreated event carries |
| DocumentHandlers.FakeCommentsComplete | tests/unit/test_handlers.py:56-58 | on records that each construct a Comment, the fake stores exactly what the SQL add stores |
| DocumentHandlers.AddDocumentComments | core/service_layer/handlers.py:60-74 | the SQL unit of work stores exactly one comment row per record of the event, in order; the fake one those that construct a Comment; an event without a list raises TypeError and stores nothing |
| DocumentHandlers.RawEntityRowsSpec | core/service_layer/handlers.py:93-101 | one raw-entity row per analysed entity, in order, each of this document |
| DocumentHandlers.SubtopicRowsSpec | core/service_layer/handlers.py:112-121 | one raw-topic row per subtopic, in order |
| DocumentHandlers.RawTopicRowsSpec | core/service_layer/handlers.py:103-121 | one raw-topic row per topic plus one per subtopic, all with this document's id |
| DocumentHandlers.AddRows | core/service_layer/handlers.py:93-101 | the add loop of a raw repository stores exactly the given rows in order |
| DocumentHandlers.AddTopic | core/service_layer/handlers.py:104-121 | a topic's row, then its subtopics' rows |
| DocumentHandlers.AddTopics | core/service_layer/handlers.py:104-121 | the topic loop stores every topic's row and then its subtopics' rows, topic after topic, and nothing else |
| DocumentHandlers.Analysed | core/service_layer/handlers.py:93-121 | the fan-out leaves the documents table alone |
| DocumentHandlers.FanOut | core/service_layer/handlers.py:93-121 | on the SQL unit of work the two loops flush exactly the rows of the analysis specification; on the fake one, which has no raw repositories, the first iteration raises AttributeError and nothing is written |
| DocumentHandlers.SummarisedSpec | core/service_layer/handlers.py:123-130 | recording the summary changes only the stored document's summary (its version stays, "version" not being named), leaves all else alone, and logs two changes whose revised snapshot has version + 1 |
| DocumentHandlers.SummaryKeepsVersion | core/service_layer/handlers.py:123-124 | setting the summary keeps the version, and the revised object is one above it |
| DocumentHandlers.UpdateDocument | core/adapters/repository.py:63-81 | a document update bumps the object's version to the stored one + 1 and writes the named fields; a non-integer stored version raises before any change; the fake repository, without `_update`, raises after the bump and writes nothing |
| DocumentHandlers.RecordSummary | core/service_layer/handlers.py:123-130 | the summary is written, the document gets exactly DocumentProcessed(doc.id) appended, and is in `seen`; a non-integer version, or the fake repository's missing `_update`, raises before anything is written |
| DocumentHandlers.AnalyseAndRecord | core/service_layer/handlers.py:93-130 | the raw rows, then the summary, with the failure case when the version is not an integer; on the fake unit of work the failure FakeAnalysisFailure and nothing written |
| DocumentHandlers.AnalyseRecordFinish | core/service_layer/handlers.py:132-137 | a caught failure rolls back and the scope commits; on the fake unit of work the `try` always raises and nothing is stored |
| DocumentHandlers.GetDocumentTopicsEntitiesAndSummary | core/service_layer/handlers.py:77-137 | the document is fetched and analysed; on success the raw entities, raw topics and summary are stored and a document holding DocumentProcessed is in `seen`; any failure is caught and rolled back; the scope always commits; on the fake unit of work something is always caught (a missing document's `.text`, a missing raw repository or `_update`) and nothing is stored |
| EntityHandlers.RawIds | core/service_layer/handlers.py:308-309 | one raw-entity id per link, in order |
| EntityHandlers.RawIdsOfLinks | core/service_layer/handlers.py:306-310 | a raw entity is among the entity's links exactly when that pair is linked |
| EntityHandlers.LinkEachAppends | core/service_layer/handlers.py:307-314 | the link loop only appends links from the entity to reviewed ids not linked before the call; no table changes |
| EntityHandlers.LinkEachLinksAll | core/service_layer/handlers.py:307-314 | when the loop completes, every reviewed id is linked |
| EntityHandlers.LinkEachStops | core/service_layer/handlers.py:314-318 | the loop fails only on a reviewed id whose link already exists |
| EntityHandlers.LinkEachSucceeds | core/service_layer/handlers.py:307-314 | reviewed ids without repeats never make the loop fail |
| EntityHandlers.LinkRawSpec | core/service_layer/handlers.py:304-318 | links are created only for reviewed ids not linked at the start, none is removed; on completion every reviewed id is linked; a missing entity completes only for an empty list |
| EntityHandlers.LinkDocsAppends | core/service_layer/handlers.py:323-329 | the document-link loop only appends links from raw entities' documents to the entity |
| EntityHandlers.LinkDocsLinksAll | core/service_layer/handlers.py:323-329 | on completion each raw entity's document is linked to the entity |
| EntityHandlers.LinkDocsCovers | core/service_layer/handlers.py:321-333 | on completion, every raw entity linked to the entity has a document, and that document is linked to the entity |
| EntityHandlers.EntityUpdateSpec | core/adapters/repository.py:349-361 | an entity update succeeds exactly when the entity exists with an integer version, and then rewrites that one row; a failure changes nothing |
| EntityHandlers.HallucinatedNameKeepsEntity | core/service_layer/handlers.py:273-285 | a mismatched name raises, and the entity keeps its name and description and gains no link |
| EntityHandlers.RenamedOverwrite | core/service_layer/handlers.py:287-294 | the update writes exactly the reviewed name and description |
| EntityHandlers.MatchedNameUpdatesEntity | core/service_layer/handlers.py:286-301 | a matching name updates only name and description, keeps every other entity, and links the reviewed raw entities |
| EntityHandlers.NewEntityRow | core/service_layer/handlers.py:234-241 | the new entity holds the reviewed name and description, and version 1 |
| EntityHandlers.CreatedAndLinked | core/service_layer/handlers.py:223-226 | a new entity is stored under the next id and the reviewed raw entities are linked to it |
| EntityHandlers.UnknownIdCreatesEntity | core/service_layer/handlers.py:204-217 | an id naming no entity: a new entity is created and linked; it raises only when linking fails |
| EntityHandlers.NoIdCreatesAndLinksEntity | core/service_layer/handlers.py:222-227 | no id: a new entity is created; on completion every reviewed raw entity and its document is linked to it |
| EntityHandlers.NewKeepsKeyed | core/service_layer/handlers.py:222-227 | the no-id branch keeps every entity row keyed by its own id |
| EntityHandlers.KnownKeepsKeyed | core/service_layer/handlers.py:218-221 | the known-id branch keeps every entity row keyed by its own id |
| EntityHandlers.UnknownKeepsKeyed | core/service_layer/handlers.py:204-217 | the unknown-id branch keeps every entity row keyed by its own id |
| EntityHandlers.ProcessKeepsKeyed | core/service_layer/handlers.py:198-231 | processing any reviewed item keeps every entity row keyed by its own id |
| EntityHandlers.ConsolidatedKeepsKeyed | core/service_layer/handlers.py:157-165 | consolidating any list of items keeps every entity row keyed by its own id |
| EntityHandlers.FakeConsolidatesNothing | core/service_layer/handlers.py:157-165 | on the tests' fake unit of work, which has no `entities`, every item raises and is rolled back, so consolidation changes nothing |
| EntityHandlers.FailedNewEntityLeavesNoTrace | core/service_layer/handlers.py:160-165 | with a real unit of work, a no-id item that fails leaves no trace after the rollback |
| EntityHandlers.UpdateEntity | core/service_layer/handlers.py:214-217 | `entities.update` as a step on the session's and the database's rows |
| EntityHandlers.CreateNewEntity | core/service_layer/handlers.py:234-245 | an entity with the reviewed name and description is added under the next id and recorded in `seen` |
| EntityHandlers.LinkRawEntities | core/service_layer/handlers.py:304-318 | the loop yields the link specification; a failure is raised as EntityProcessingError |
| EntityHandlers.LinkDocumentEntities | core/service_layer/handlers.py:321-333 | the loop yields the document-link specification; a failure is raised as EntityProcessingError |
| EntityHandlers.UpdateExistingEntity | core/service_layer/handlers.py:270-301 | a mismatched name appends the hallucination event, sends it up and raises; with the `Entity(...)` of lines 287-291 corrected, a matching name updates name and description and links the raw entities |
| EntityHandlers.CreateAndLinkEntity | core/service_layer/handlers.py:222-227 | the no-id branch as its outcome specification |
| EntityHandlers.CreateHallucinatedEntity | core/service_layer/handlers.py:204-217 | the unknown-id branch as its outcome specification; on success the new entity holds the hallucination event |
| EntityHandlers.ProcessReviewedEntity | core/service_layer/handlers.py:198-231 | the three branches on `canonical_entity_id` and on whether `get` finds it, each as its outcome specification |
| EntityHandlers.ProcessOne | core/service_layer/handlers.py:157-165 | an item is processed, and rolled back when it raised; on the fake unit of work it always raises |
| EntityHandlers.ProcessEach | core/service_layer/handlers.py:157-165 | the loop over the reviewed items yields the consolidation specification |
| EntityHandlers.ConsolidateCanonicalEntities | core/service_layer/handlers.py:140-172 | items that cannot be loaded raise, the error is caught and returned, and nothing is stored; otherwise every item is processed in order, failures rolled back, and the scope commits; on the fake unit of work nothing changes |
| EntityHandlers.ExistingEntityAsWrittenFails | core/service_layer/handlers.py:287-291 | as written, the Entity built without audit fields always fails validation |
| LegacyHandlers.LegacyAddNewDocument | src/core/service_layer/handlers.py:11-30 | the same versioning rule, with nothing caught: a failure rolls back; otherwise the scope commits and the new document is returned, holding its event with records keyed "doc_id" |
| LegacyHandlers.LegacyAddThenCommit | src/core/service_layer/handlers.py:24-28 | the add, then, unless it raised, the commit |
| LegacyHandlers.ProcessDocument | src/core/service_layer/handlers.py:32-37 | `process_document` only reads: on a unit of work never entered it raises AttributeError; otherwise it fails exactly when the document is missing; it writes nothing |
| LegacyHandlers.AddComment | src/core/adapters/repository.py:15-18 | the src Comment `add` stores a record exactly when it holds the five keys, and only then records the result in `seen` |
| LegacyHandlers.KeptOne | src/core/adapters/repository.py:68-79 | one record is stored, restricted to its five keys, when it has them all; otherwise nothing changes |
| LegacyHandlers.KeptCommentsInsertsAccepted | src/core/service_layer/handlers.py:47-49 | adding records one by one stores exactly the accepted ones, in order |
| LegacyHandlers.AcceptedSize | src/core/adapters/repository.py:69-75 | never more accepted records than given; all when each has the five keys; none when each lacks one |
| LegacyHandlers.DocIdRecordsAllRefused | src/core/domain/model.py:33-39 | the "doc_id" records of the src composer are all refused by the src Comment `_add`: no comment is ever stored |
| LegacyHandlers.DocumentIdRecordsComplete | core/domain/model.py:63-71 | every "document_id" record holds the five keys the src Comment `_add` reads |
| LegacyHandlers.DocumentIdRecordsAllKept | core/domain/model.py:62-73 | with "document_id" records, one comment row is stored per docx comment |
| LegacyHandlers.AddOneAsWritten | src/core/service_layer/handlers.py:48-59 | one iteration as written always rolls back, so a real unit of work stores nothing |
| LegacyHandlers.LegacyAddDocumentComments | src/core/service_layer/handlers.py:42-59 | as written, nothing is stored on a real unit of work; only the fake one keeps the accepted records |
| LegacyHandlers.StoreCommentsAsWritten | src/core/service_layer/handlers.py:47-59 | the as-written loop keeps the accepted records only on the fake unit of work |
| LegacyHandlers.AddOneIntended | src/core/service_layer/handlers.py:48-59 | one iteration as intended: an accepted record is stored, and the new comment holds its CommentCreated event |
| LegacyHandlers.RecordCommentCreated | src/core/service_layer/handlers.py:51-53 | the new comment gets exactly CommentCreated(its id, the document id) appended |
| LegacyHandlers.AddDocumentCommentsIntended | src/core/service_layer/handlers.py:42-59 | as intended: every accepted record is stored in order, each new comment holding its CommentCreated event |
| LegacyHandlers.StoreCommentsIntended | src/core/service_layer/handlers.py:47-59 | the intended loop stores every accepted record |
| Graph.NodeIdInjective | web/routers/graphs.py:38-46 | two nodes share an id string only when they share group and record id, so `node_degrees` can be keyed by (group, id) |
| Graph.NatStrInjective | web/routers/graphs.py:38 | different naturals have different decimal strings |
| Graph.IntStrInjective | web/routers/graphs.py:52 | different integers have different `f"{i}"` strings |
| Graph.GroupNames | web/routers/graphs.py:44 | no group name holds a '-', and the four are distinct |
| Graph.NodesForSpec | web/routers/graphs.py:37-47 | the k-th node of a group is the node of the k-th record, with degree 0 |
| Graph.BuildNodes | web/routers/graphs.py:37-90 | the four loops build the documents', topics', entities' and stakeholders' nodes in that order, and `node_degrees` maps every node id to 0 |
| Graph.AddNodes | web/routers/graphs.py:51-62 | one node of degree 0 per record is appended, and its id entered in `node_degrees` at 0 |
| Graph.NewNodeDegree | web/routers/graphs.py:48 | entering one more node at 0 keeps every entry at 0 |
| Graph.DocumentNodes | web/routers/graphs.py:37-48 | every document has a node |
| Graph.EdgesOfSpec | web/routers/graphs.py:93-102 | exactly one edge per (document, entity in its list), from `document-<id>` to `entity-<id>` |
| Graph.DocumentEdgesSpec | web/routers/graphs.py:94-102 | the j-th edge of a document runs to the node of the j-th entity in its list |
| Graph.EdgeSources | web/routers/graphs.py:95 | every edge starts at a document's node |
| Graph.AddEdges | web/routers/graphs.py:93-104 | the nested loop yields exactly the specified edges and the edge-end counts; it raises KeyError exactly when some edge target has no node |
| Graph.AddDocumentEdges | web/routers/graphs.py:94-104 | the inner loop over one document's entities, with the same error condition |
| Graph.RaiseDegrees | web/routers/graphs.py:103-104 | raising both ends of an appended edge keeps every count equal to the number of edge ends at its node |
| Graph.CountAppend | web/routers/graphs.py:103-104 | one more edge raises the count of its source and of its target by one each |
| Graph.DocumentEdgeTargets | web/routers/graphs.py:104 | a document's edges all end at nodes exactly when every entity in its list has a node |
| Graph.SetDegrees | web/routers/graphs.py:106-107 | each node's degree is read from `node_degrees` by its id |
| Graph.FinalNodesSpec | web/routers/graphs.py:106-107 | each node keeps its id, label and group, and its degree is the number of edge ends at it |
| Graph.DegreeSum | web/routers/graphs.py:106-107 | with distinct node ids and every edge end a node, the degrees sum to twice the number of edges |
| Graph.NodeEdgeGraph | web/routers/graphs.py:32-109 | the returned nodes and edges are the specified ones, each degree the number of edge ends at the node; KeyError exactly when a document lists an entity that has no node |
| Graph.GraphDegreeSum | web/routers/graphs.py:93-107 | with distinct record ids per kind and every listed entity a node, the returned degrees add up to twice the number of document-entity links |
| Scenarios.NewDocumentScenario | tests/unit/test_handlers.py:92-107 | a CreateDocument on an empty fake unit of work stores document 1 with its filepath, and the unit of work has committed |
| Scenarios.FirstDocument | tests/unit/test_handlers.py:106 | the first document the fake stores has id 1, the command's filepath and version 1 |
| Scenarios.FakeVersionedRow | tests/unit/test_handlers.py:23-30 | the fake `add` stores the versioned command's version, previous version and filepath, with an empty summary |
| Scenarios.DefaultCommandStored | core/domain/commands.py:25-36 | a CreateDocument with the dataclass defaults, for a filepath nothing is stored under, is stored with version 1, no previous version and revision 0 |
| Scenarios.SecondVersionScenario | tests/unit/test_handlers.py:109-136 | two CreateDocument commands for one filepath store document 2 with version 2 and previous version 1 |
| Scenarios.SecondDocument | tests/unit/test_handlers.py:135-136 | after the first add, the first document is the latest of its filepath, and the second add stores document 2 with version 2 and previous version 1 |
| Scenarios.NextVersion | core/service_layer/handlers.py:35-39 | next to document 1 of version 1, the new document is 2, of version 2, with previous version 1 |
| Scenarios.CommentScenario | tests/unit/test_handlers.py:138-152 | as written, the test's record lacks the audit fields the Comment model requires: the fake add raises, and no comment is stored, so `comments.get(reference=1)` is None |
| Scenarios.TestRecordRefused | tests/unit/test_handlers.py:138-148 | the fake comment store, given the test's record alone, stores nothing |
| Scenarios.OneComment | tests/unit/test_handlers.py:150-152 | one record added to an empty store is comment 1, holding the record's author |
| Scenarios.CommentBuildable | core/domain/model.py:92-98 | a comment record naming every required field but the id, none None, constructs a Comment |
| Scenarios.AuditedCommentStored | tests/unit/test_handlers.py:138-152 | the test's record with audit fields added is stored by the fake as comment 1, with author "author name 1" |
| Scenarios.AuditedCommentScenario | tests/unit/test_handlers.py:138-152 | with audit fields in the record, the DocumentCreated event stores comment 1 with author "author name 1" |

## Left out

- I/O, logging and `print`: left out.
- JSON snapshot encoding: changelog snapshots are rows.
- Dates: a timestamp is an integer parameter. `datetime.now()` is a parameter or left out. `strptime` is modelled as a shape check of the text (`Domain.IsIsoInstant`), which accepts only the zero-padded, upper-case, ASCII-digit subset of what `strptime` accepts.
- Domain.CommentRecordsOk: with `Domain.IsIsoInstant` as the parse, a date that `strptime("%Y-%m-%dT%H:%M:%SZ")` accepts but that is not zero-padded upper-case ASCII (unpadded one-digit fields, a space-padded day, a lower-case `t` or `z`, non-ASCII digits) counts as a bad date, so the composer is modelled as raising where the source composes the records.
- Domain.ComposedEvent: the same narrower date check as Domain.CommentRecordsOk.
- Retry back-off: `wait_exponential` is wall-clock timing, so only the attempt count is modelled.
- Concurrency: none. The code is sequential.
- ORM mapping and pydantic round trips: rows are maps from field to value. Stored rows are not re-validated when read back.
  - Validation is modelled only where handler code builds a model itself (`Domain.Construct`).
  - ORM relationship lists other than the document-entity join are not modelled.
  - Relationship staleness: the source reads `entity_obj.raw_entities` (core/adapters/repository.py:304-310), a relationship collection the session loads once; the model re-reads the link table every time.
- Object identity: `seen` holds object references (a `set<Aggregate>`), where Python compares `__hash__`/`__eq__` tuples (id, filepath, filename, version). Two equal-hash objects from two reads are two members here.
- Unit of work: `core/service_layer/unit_of_work.py` and `core/service_layer/messagebus.py` are not part of this model. The `src` versions stand in.
- `src` FakeUnitOfWork (src/core/service_layer/unit_of_work.py:69-87): not modelled as a class of its own, because it instantiates repository classes that do not exist. `UnitOfWork(legacy = true, fake = true)` keeps only its flag-setting `commit` and its no-op `rollback`.
- Fake ids: the tests' fakes number a new object `len + 1`; the model numbers it one above the largest id in use. The two agree on a table that only grows by `add`, as every table of the fake does.
- Fake object identity: the tests' fake `get` and `list` return the stored objects themselves, and the handlers then assign to them.
  - Repository.Repository.List: the tests' fake `_list` (tests/unit/test_handlers.py:35-36, 63-64) returns the stored objects, which still carry the DocumentCreated events composed at `add` (tests/unit/test_handlers.py:23-30), and `list` puts them in `seen`; `collect_new_events` would then yield those events again. The model lists fresh objects with empty event buffers.
  - DocumentHandlers.GetDocumentTopicsEntitiesAndSummary: on the fake unit of work with an analysis of no entity and no topic, `doc.summary = ...` and the version bump of `update` change the stored document even though `update` then raises. The model leaves the stored row as it was.
- SQL column defaults: a flushed row gets the declared model defaults (`Domain.Defaults`); the ORM's own `created_at` default is not modelled. The as-written adds fail on `last_modified_at`, which has no insert default.
- Repository.Repository.Add: on the SQL unit of work it follows the corrected Comment, RawTopic, RawEntity and Entity `_add`s; as written each raises after the flush (`Repository.ChildAddAsWrittenRaises`, `Repository.RawEntityAddAsWrittenRaises`).
- Repository.Repository.AddDocument: on the SQL unit of work of the newer tree it follows the corrected Document `_add`; as written it raises TypeError (`Repository.DocumentAddAsWrittenRaises`). The src Document `_add` works as modelled.
- DocumentHandlers.AddThenCommit: on the SQL unit of work it follows the corrected Document add; as written nothing is stored and the handler returns UnboundLocalError.
- DocumentHandlers.AddNewDocument: on the SQL unit of work it follows the corrected Document add; as written nothing is stored and the handler returns UnboundLocalError.
- DocumentHandlers.StoreComments: on the SQL unit of work it follows the corrected Comment add; as written every record raises after the flush and is rolled back, so nothing is stored.
- DocumentHandlers.AddDocumentComments: on the SQL unit of work it follows the corrected Comment add; as written no comment is stored.
- DocumentHandlers.AddRows: it follows the corrected RawEntity and RawTopic adds; as written the first add raises.
- DocumentHandlers.AddTopic: it follows the corrected RawTopic add; as written the first add raises.
- DocumentHandlers.FanOut: on the SQL unit of work it follows the corrected raw adds; as written the first add raises, and the handler rolls back and stores nothing.
- DocumentHandlers.AnalyseAndRecord: on the SQL unit of work it follows the corrected raw adds; as written it raises in the fan-out unless the analysis lists no entity and no topic.
- DocumentHandlers.AnalyseRecordFinish: on the SQL unit of work it follows the corrected raw adds, as AnalyseAndRecord does.
- DocumentHandlers.GetDocumentTopicsEntitiesAndSummary: on the SQL unit of work it follows the corrected raw adds; as written an analysis with an entity or a topic stores nothing.
- EntityHandlers.CreateNewEntity: it follows the corrected Entity `_add`; as written the add raises after the flush (`Repository.ChildAddAsWrittenRaises`), so `create_new_entity` always raises.
- EntityHandlers.CreatedAndLinked: it states the outcome with the corrected Entity add; as written no entity is created.
- EntityHandlers.UnknownIdCreatesEntity: it states the outcome with the corrected Entity add; as written the item always raises and is rolled back.
- EntityHandlers.NoIdCreatesAndLinksEntity: it states the outcome with the corrected Entity add; as written the item always raises and is rolled back.
- EntityHandlers.CreateAndLinkEntity: it follows the corrected Entity add; as written it always raises.
- EntityHandlers.CreateHallucinatedEntity: it follows the corrected Entity add; as written it always raises.
- EntityHandlers.UpdateExistingEntity: follows the corrected `Entity(...)` at core/service_layer/handlers.py:287-291; as written a matching name raises EntityUpdateError (`EntityHandlers.ExistingEntityAsWrittenFails`), which becomes EntityProcessingError (:228-231), and the item is rolled back (:160-165).
- EntityHandlers.KnownOutcome: states the known-id branch with the corrected `Entity(...)`; as written a matching name always fails and nothing is changed.
- EntityHandlers.ProcessReviewedEntity: follows the corrected `Entity(...)` and the corrected Entity add; as written the known-id branch with a matching name and both creating branches always raise.
- EntityHandlers.ProcessOne: follows the corrected `Entity(...)` and the corrected Entity add; as written every item raises and is rolled back.
- EntityHandlers.ProcessEach: follows the corrected `Entity(...)` and the corrected Entity add; as written every item raises and is rolled back, so the loop changes no stored row.
- EntityHandlers.ConsolidateCanonicalEntities: follows the corrected `Entity(...)` and the corrected Entity add; as written every item is rolled back and consolidation stores nothing.
- DocumentHandlers.AddTopics: it follows the corrected RawTopic `_add` (core/adapters/repository.py:205); as written the first add raises.
- EntityHandlers.LinkDocumentEntities: the source iterates `get_raw_entities`, which returns the `entity_obj.raw_entities` collection (core/adapters/repository.py:304-310, core/adapters/orm.py:99). `link_raw_entities` loaded that collection, identity-mapped, before flushing its new link rows from foreign-key columns only (core/adapters/repository.py:313-316), so the collection does not hold them. In the no-id branch, the only caller, it is empty, so as written no document is linked. The model reads the link table after the flush.
- EntityHandlers.NoIdCreatesAndLinksEntity: in the no-id branch (core/service_layer/handlers.py:222-227), `link_raw_entities` loads the new entity's `raw_entities` as empty before flushing the links, so as written `link_document_entities` finds no raw entity and links no document. The model states that every reviewed raw entity's document is linked.
- Store assumptions:
  - `DocumentHandlers.GetDocumentTopicsEntitiesAndSummary` assumes `Store.WellFormed`: every stored row holds its own key and only declared columns. The database guarantees this, and the handler code never checks it.
  - `EntityHandlers.ProcessReviewedEntity` and its callers assume `EntityHandlers.EntitiesKeyed` for the same reason.
- Registries: the entries of `EVENT_HANDLERS`/`COMMAND_HANDLERS` are (name, handler) pairs, and `handle_event`/`handle_command` call an entry directly. The model reduces an entry to its name and invokes its handler part.
- Handler behaviour on the bus: opaque (`MessageBus.Behaviour`). The handler modules are proved separately, and `MessageBus.Ranked` is the assumption that handlers only yield lower-ranked events, which is what termination needs.
- Bootstrap: handler identity is its name. `inspect.signature` is a table of the handlers' parameter names (`Bootstrap.Params`).
- External services: the analysis connector is a parameter `analyze` of `DocumentHandlers.GetDocumentTopicsEntitiesAndSummary`. `load_reviewed_canon_entities`, which reads a hard-coded JSON file, is a parameter `reviewed` of `EntityHandlers.ConsolidateCanonicalEntities` (None when the read raises).
- CRUD command handlers are registered, but their bodies are not modelled: `add_entity`, `add_stakeholder`, `update_stakeholder`, `update_entity`, `update_document_summary`, `create_topic`, `update_topic`, `delete_topic` and `delete_stakeholder`. They are single add/update/delete calls on repositories whose operations are modelled. `update_document_summary` reads the builtin `id` and `uow.entities`, so it never does what its name says.
- Topic and stakeholder repositories: their `delete` and field-selective `_update` are modelled in `Repository.Repository` (`HasDelete`, `HasUpdate`). The unit of work does not carry them, because no modelled handler uses them.
- Read-side views: the `views` reads in `web/routers/graphs.py` and the HTTP layer are not modelled. `Graph.NodeEdgeGraph` takes the four lists as parameters.
- Graph keys: `node_degrees` is keyed by `Graph.NodeKey` (group, id) rather than by the id string. `Graph.NodeIdInjective` proves the two are interchangeable. A node's `name` and `group` are derived from its key.
- Graph.NodeEdgeGraph: its error names some edge target that has no node, not necessarily the first one the loop meets.
- Scenarios: the tests hand the message to `bus.handle`, but the scenarios call the handler directly. The event handlers the bus would run next are not included. `Registries.CoreDocumentCreatedHandlers` states which handlers those are.
- Scenarios.CommentScenario: the comment date is kept as the string the test gives.
- UnitOfWork.UnitOfWork.CollectNewEvents: the `comments` repository is drained after `documents`, as in `src/core/service_layer/unit_of_work.py:30`. The raw-entity, raw-topic and entity repositories the newer handlers use are not drained, as in that file.

## Findings

| source | as written | input that shows it | evidently intended | confidence | as-written member | corrected member |
|---|---|---|---|---|---|---|
| src/core/domain/model.py:34 | the src composer keys each comment record "doc_id", but the src Comment `_add` reads `comment['document_id']` (src/core/adapters/repository.py:70) | a CreateDocument whose `doc_comments` holds one well-dated docx comment | the key "document_id", as in core/domain/model.py:64 | high, not executed | LegacyHandlers.DocIdRecordsAllRefused | LegacyHandlers.DocumentIdRecordsAllKept |
| core/service_layer/handlers.py:287-291 | `update_existing_entity` builds `Entity(id, entity_description, entity_name)` without the audit fields BaseDomainModel requires, so validation always fails and a matching name is never updated | any reviewed item whose `canonical_entity_id` names an entity of the same name | update name and description on the stored entity | high, not executed | EntityHandlers.ExistingEntityAsWrittenFails | EntityHandlers.MatchedNameUpdatesEntity |
| core/adapters/repository.py:228 | RawEntity `_add` calls `model_validate(**row)`, which takes the object positionally, so every add raises TypeError after the row is flushed | any complete raw-entity record from the analysis fan-out | `model_validate(row)` on a row that also carries the audit fields (see the next row), returning the new raw entity | high, not executed | Repository.RawEntityAddAsWrittenRaises | Repository.Repository.Add |
| core/adapters/repository.py:117 | the Document `_add` passes every command field to `DocumentORM`, including `processed_at`, which DocumentORM (core/adapters/orm.py:42-54) does not declare; every add raises TypeError, and `add_new_document` then raises UnboundLocalError at core/service_layer/handlers.py:49 | any CreateDocument | a DocumentORM that declares `processed_at`, as the src one does, so the row is stored and the new document returned | high, not executed | Repository.DocumentAddAsWrittenRaises | Repository.Repository.AddDocument |
| core/adapters/repository.py:180-185 | the Comment `_add` rebuilds a Comment from the flushed row; the handlers' records carry no audit fields, so `last_modified_at`, `created_by` and `last_modified_by` are NULL and validation raises; the RawTopic (:205) and Entity (:290) `_add`s do the same | a comment record of a DocumentCreated event, a raw-topic row of the fan-out, or the entity `create_new_entity` builds | rows that carry the audit fields, so that each add returns the new object | high, not executed | Repository.ChildAddAsWrittenRaises | Repository.Repository.Add |
| tests/unit/test_handlers.py:138-152 | the test's comment record has no audit fields, so the fake `model.Comment(**comment, id=...)` raises, nothing is stored, and the final `comments.get(reference=1).author` reads an attribute of None | the test as written | a record with the audit fields the Comment model requires | high, not executed | Scenarios.CommentScenario | Scenarios.AuditedCommentScenario |
| src/core/service_layer/handlers.py:53 | `uow.collect_new_event(...)` is not a method of the unit of work, so every iteration raises AttributeError and rolls back; a real unit of work stores no comment | a DocumentCreated event carrying one complete comment record | record the CommentCreated event on the new comment, where `collect_new_events` finds it | high, not executed | LegacyHandlers.LegacyAddDocumentComments | LegacyHandlers.AddDocumentCommentsIntended |
