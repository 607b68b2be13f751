/**
 * The handler registries the bus is built from: EVENT_HANDLERS and
 * COMMAND_HANDLERS of core/service_layer/handlers.py, whose entries are
 * (name, handler) pairs, and of the older src/core/service_layer/handlers.py,
 * whose entries are bare handlers. Either way an entry is reduced to the name
 * of its handler.
 */
module Registries {
  import opened Wrappers
  import opened Messages
  import opened MessageBus

  /** EVENT_HANDLERS of core/service_layer/handlers.py. */
  const CoreEvents: map<EventKind, seq<HandlerName>> := map[
    DocumentCreatedKind := ["add_document_comments", "get_document_topics_entities_and_summary", "log_document_creation"],
    CommentCreatedKind := [],
    DocumentProcessedKind := ["log_document_processed"],
    HallucinationKind := ["log_hallucination"]]

  /** COMMAND_HANDLERS of core/service_layer/handlers.py: ProcessDocument has no entry. */
  const CoreCommands: map<CommandKind, HandlerName> := map[
    AddStakeholderKind := "add_stakeholder",
    UpdateStakeholderKind := "update_stakeholder",
    AddEntityKind := "add_entity",
    UpdateEntityKind := "update_entity",
    UpdateDocumentSummaryKind := "update_document_summary",
    CreateDocumentKind := "add_new_document",
    ConsolidateCanonicalEntitiesKind := "consolidate_canonical_entities",
    CreateTopicKind := "create_topic",
    UpdateTopicKind := "update_topic",
    DeleteTopicKind := "delete_topic",
    DeleteStakeholderKind := "delete_stakeholder"]

  const Core: Registry := Registry(CoreEvents, CoreCommands)

  /** The registries of src/core/service_layer/handlers.py: DocumentProcessed is commented out. */
  const Legacy: Registry := Registry(
    map[DocumentCreatedKind := ["add_document_comments", "log_document_creation"], CommentCreatedKind := []],
    map[CreateDocumentKind := "add_new_document", ProcessDocumentKind := "process_document"])

  /**
   * Every command type but ProcessDocument has an entry, and no two command
   * types share a handler, so a command reaches exactly the handler of its
   * own type.
   */
  lemma CoreCommandsOnePerType()
    ensures forall k :: k in Core.commands <==> k != ProcessDocumentKind
    ensures forall k1, k2 :: k1 in Core.commands && k2 in Core.commands && k1 != k2 ==> Core.commands[k1] != Core.commands[k2]
  {
  }

  /** Every event type has an entry: DocumentCreated three handlers in a fixed order, CommentCreated none, the other two one each. */
  lemma CoreEventsRegistered()
    ensures forall k :: k in Core.events
    ensures Core.events[DocumentCreatedKind] ==
      ["add_document_comments", "get_document_topics_entities_and_summary", "log_document_creation"]
    ensures Core.events[CommentCreatedKind] == [] && |Core.events[DocumentProcessedKind]| == |Core.events[HallucinationKind]| == 1
  {
    forall k: EventKind
      ensures k in Core.events
    {
      match k
      case DocumentCreatedKind =>
      case DocumentProcessedKind =>
      case CommentCreatedKind =>
      case HallucinationKind =>
    }
  }

  /** A DocumentCreated event on the core bus starts exactly its three handlers, in order, and does not raise. */
  lemma CoreDocumentCreatedHandlers(b: Behaviour, e: Event, n: nat)
    requires e.DocumentCreated?
    ensures Step(Core, b, Evt(e), n).failure.None?
    ensures Starts(Step(Core, b, Evt(e), n).calls) ==
      ["add_document_comments", "get_document_topics_entities_and_summary", "log_document_creation"]
  {
    StepDispatch(Core, b, Evt(e), n);
  }

  /** A CommentCreated event on the core bus calls nothing and does not raise. */
  lemma CoreCommentCreatedHandlers(b: Behaviour, e: Event, n: nat)
    requires e.CommentCreated?
    ensures Step(Core, b, Evt(e), n) == StepResult([], None)
  {
    assert Core.events[EventKindOf(e)] == [];
  }

  /** The core bus has no handler for ProcessDocument: handing it one raises before any handler runs. */
  lemma CoreRejectsProcessDocument(b: Behaviour, c: Command, n: nat)
    requires c.ProcessDocument?
    ensures Step(Core, b, Cmd(c), n) == StepResult([], Some(NoCommandHandler(ProcessDocumentKind)))
  {
  }

  /**
   * The src registries: a DocumentCreated event starts the comment handler
   * and then the logger; CreateDocument and ProcessDocument are the only
   * commands; a DocumentProcessed event, having no entry, makes `handle` raise.
   */
  lemma LegacyRegistry(b: Behaviour, documentId: int, comments: Option<seq<CommentDict>>, n: nat)
    ensures Starts(Step(Legacy, b, Evt(DocumentCreated(documentId, comments)), n).calls) ==
      ["add_document_comments", "log_document_creation"]
    ensures forall k :: k in Legacy.commands <==> k == CreateDocumentKind || k == ProcessDocumentKind
    ensures Step(Legacy, b, Evt(DocumentProcessed(documentId)), n) == StepResult([], Some(NoEventHandlers(DocumentProcessedKind)))
  {
    StepDispatch(Legacy, b, Evt(DocumentCreated(documentId, comments)), n);
  }
}
