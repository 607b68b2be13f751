/**
 * The message taxonomy: the Command variants of core/domain/commands.py, the
 * Event variants of core/domain/events.py, the error kinds of
 * src/core/domain/error_messages.py, and the docx comment tuple of
 * core/domain/model.py that CreateDocument carries.
 */
module Messages {
  import opened Wrappers

  /** An instant. Dates are opaque here: they are compared, never computed with. */
  type Timestamp = int

  /** The actor the audit fields name when the caller gives none. */
  const DefaultActor: string := "ADMIN"

  /**
   * An attribute value: a string, an integer, an instant given as a
   * timestamp, a date parsed from its text, or None.
   */
  datatype Value = Str(text: string) | Number(number: int) | Time(at: Timestamp) | Instant(source: string) | Null

  /**
   * An attribute name of the models and of the dicts handed to repositories;
   * `Other` is any name no model declares (such as the placeholder field names
   * handlers pass to `update` only to publish an event).
   */
  datatype Field =
    | Id | CreatedAt | LastModifiedAt | CreatedBy | LastModifiedBy | Version
    | Filepath | Filename | Filetype | Text | HtmlText | PreviousVersionId
    | ProcessedAt | Summary | VersionComment | Revision
    | DocumentId | DocId | Author | ReferenceText | CommentText | CommentDate
    | TopicName | TopicDescription | TopicPrevalence
    | EntityName | EntityDescription | EntityPrevalence
    | StakeholderName | StakeholderType | StakeholderDescription
    | Other(name: string)

  /** A Python dict of comment attributes, keyed by attribute name. */
  type CommentDict = map<Field, Value>

  /** One comment read from a docx file: (reference_text, author, date, comment_text), in that order. */
  datatype DocxComment = DocxComment(referenceText: string, author: string, date: string, commentText: string)

  /** An item of the canonical-entity consolidator's answer (CanonicalEntityResponseItem). */
  datatype ReviewedEntity = ReviewedEntity(
    name: string,
    description: string,
    canonicalEntityId: Option<int>,
    rawEntityIds: seq<int>)

  /** The audit quadruple of CommandCreatedAudit, which every model also declares. */
  datatype Audit = Audit(createdAt: Timestamp, lastModifiedAt: Timestamp, createdBy: string, lastModifiedBy: string)

  /** The pair of CommandModifiedAudit. */
  datatype Modified = Modified(lastModifiedAt: Timestamp, lastModifiedBy: string)

  datatype Command =
    | CreateDocument(
        audit: Audit,
        filepath: string,
        filename: string,
        text: string,
        processedAt: Timestamp,
        docComments: Option<seq<DocxComment>>,
        revision: Option<int>,
        filetype: Option<string>,
        versionComment: Option<string>,
        htmlText: Option<string>,
        version: Option<int>,
        previousVersionId: Option<int>)
    | ProcessDocument(modified: Modified, documentId: int)
    | UpdateDocumentSummary(modified: Modified, id: int, summary: string)
    | ConsolidateCanonicalEntities(entityIds: Option<seq<int>>, rawEntityIds: Option<seq<int>>)
    | AddStakeholder(audit: Audit, stakeholderName: string, stakeholderType: string, stakeholderDescription: string)
    | UpdateStakeholder(audit: Audit, id: int, stakeholderName: string, stakeholderType: string, stakeholderDescription: string)
    | AddEntity(audit: Audit, entityName: string, entityDescription: string)
    | UpdateEntity(modified: Modified, id: int, entityName: string, entityDescription: string)
    | CreateTopic(audit: Audit, topicName: string, topicDescription: string)
    | UpdateTopic(modified: Modified, id: int, topicName: string, topicDescription: string)
    | DeleteTopic(modified: Modified, id: int)
    | DeleteStakeholder(modified: Modified, id: int)

  datatype Event =
    | DocumentCreated(documentId: int, comments: Option<seq<CommentDict>>)
    | DocumentProcessed(documentId: int)
    | CommentCreated(commentId: int, documentId: int)
    | ExistingCanonicalEntityHallucination(item: ReviewedEntity, entityId: int)

  /** What the bus is handed: a Command, an Event, or some other object. */
  datatype Message = Cmd(command: Command) | Evt(event: Event) | Foreign(description: string)

  /** The type of a command, the key of the command registry. */
  datatype CommandKind =
    | CreateDocumentKind | ProcessDocumentKind | UpdateDocumentSummaryKind
    | ConsolidateCanonicalEntitiesKind | AddStakeholderKind | UpdateStakeholderKind
    | AddEntityKind | UpdateEntityKind | CreateTopicKind | UpdateTopicKind
    | DeleteTopicKind | DeleteStakeholderKind

  /** The type of an event, the key of the event registry. */
  datatype EventKind = DocumentCreatedKind | DocumentProcessedKind | CommentCreatedKind | HallucinationKind

  function CommandKindOf(c: Command): CommandKind
  {
    match c
    case CreateDocument(_, _, _, _, _, _, _, _, _, _, _, _) => CreateDocumentKind
    case ProcessDocument(_, _) => ProcessDocumentKind
    case UpdateDocumentSummary(_, _, _) => UpdateDocumentSummaryKind
    case ConsolidateCanonicalEntities(_, _) => ConsolidateCanonicalEntitiesKind
    case AddStakeholder(_, _, _, _) => AddStakeholderKind
    case UpdateStakeholder(_, _, _, _, _) => UpdateStakeholderKind
    case AddEntity(_, _, _) => AddEntityKind
    case UpdateEntity(_, _, _, _) => UpdateEntityKind
    case CreateTopic(_, _, _) => CreateTopicKind
    case UpdateTopic(_, _, _, _) => UpdateTopicKind
    case DeleteTopic(_, _) => DeleteTopicKind
    case DeleteStakeholder(_, _) => DeleteStakeholderKind
  }

  function EventKindOf(e: Event): EventKind
  {
    match e
    case DocumentCreated(_, _) => DocumentCreatedKind
    case DocumentProcessed(_) => DocumentProcessedKind
    case CommentCreated(_, _) => CommentCreatedKind
    case ExistingCanonicalEntityHallucination(_, _) => HallucinationKind
  }

  /**
   * A CreateDocument command with the dataclass defaults: no comments,
   * revision 0, version 1 and no previous version.
   */
  function NewCreateDocument(audit: Audit, filepath: string, filename: string, text: string, processedAt: Timestamp): (c: Command)
    ensures c.CreateDocument? && c.version == Some(1) && c.previousVersionId == None
    ensures c.filepath == filepath && c.docComments == None && c.revision == Some(0)
  {
    CreateDocument(audit, filepath, filename, text, processedAt, None, Some(0), None, None, None, Some(1), None)
  }

  /** The error classes of the domain: EntityProcessingError and its three subclasses, and AddStakeholderError. */
  datatype ErrorKind =
    | EntityProcessingError
    | EntityNotFoundError
    | EntityCreationError
    | EntityUpdateError
    | AddStakeholderError

  /** Whether an error of kind `e` is caught by an `except base` clause. */
  predicate IsA(e: ErrorKind, base: ErrorKind)
  {
    e == base || (base == EntityProcessingError && e in {EntityNotFoundError, EntityCreationError, EntityUpdateError})
  }
}
