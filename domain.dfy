/**
 * The aggregates of core/domain/model.py (and the older src/core/domain/model.py):
 * the fields each model declares, what constructing one demands, and the
 * DocumentCreated event a new document composes from its docx comments.
 */
module Domain {
  import opened Wrappers
  import opened Messages

  /** The model classes that have a repository. */
  datatype Kind = DocumentKind | CommentKind | RawTopicKind | TopicKind | RawEntityKind | EntityKind | StakeholderKind

  /** `obj.__class__.__name__`: the entity_name a changelog row records. */
  function ClassName(k: Kind): string
  {
    match k
    case DocumentKind => "Document"
    case CommentKind => "Comment"
    case RawTopicKind => "RawTopic"
    case TopicKind => "Topic"
    case RawEntityKind => "RawEntity"
    case EntityKind => "Entity"
    case StakeholderKind => "Stakeholder"
  }

  /** Attributes by name: a stored row, a dict handed to a repository, or `dict(model)`. */
  type Row = map<Field, Value>

  /** Why an operation of the core raised. */
  datatype Fault =
    | Invalid(kind: Kind)                 // pydantic: a required field missing or None
    | BadDate(text: string)               // datetime.strptime: not "%Y-%m-%dT%H:%M:%SZ"
    | MissingKey(key: Field)              // a dict lookup found no such key
    | NoResult(kind: Kind, id: int)       // Query.one() found no row
    | NoneHasNo(attribute: string)        // an attribute read on None
    | DuplicateLink(left: int, right: int) // a link row whose primary key already exists
    | Unsupported(kind: Kind)             // the repository has no such method
    | Raised(error: ErrorKind)            // a domain error of error_messages.py
    | Unbound(name: string)               // a local variable read before assignment
    | NoneOperand                         // None compared or added to (a version that is not an integer)
    | BadResponse                         // a connector raised, or its response lacks an expected key
    | NullKey                             // a row flushed with a primary-key column that is None
    | BadCall(callee: string)             // a function called with arguments it does not accept
    | NoAttribute(name: string)           // an attribute the object does not define

  // ---------------------------------------------------------------------------
  // Declared fields

  /** The audit fields of BaseDomainModel, declared without defaults. */
  const AuditFields: set<Field> := {CreatedAt, LastModifiedAt, CreatedBy, LastModifiedBy}

  /** The fields each model declares with neither a default nor Optional: they must be given, and not None. */
  function Required(k: Kind): set<Field>
  {
    AuditFields + {Id} + OwnRequired(k)
  }

  /** The required fields model k declares beyond the audit fields and the id. */
  function OwnRequired(k: Kind): set<Field>
  {
    match k
    case DocumentKind => {Filepath, Filename, Text, ProcessedAt}
    case CommentKind => {DocumentId, Author, ReferenceText, CommentText, CommentDate}
    case RawTopicKind => {DocumentId, TopicName, TopicDescription, TopicPrevalence}
    case TopicKind => {TopicName, TopicDescription}
    case RawEntityKind => {DocumentId, EntityName, EntityDescription, EntityPrevalence}
    case EntityKind => {EntityName, EntityDescription}
    case StakeholderKind => {StakeholderName, StakeholderType, StakeholderDescription}
  }

  /** Fields declared Optional without a default (Document.summary and version_comment): they must be given, and may be None. */
  function RequiredNullable(k: Kind): set<Field>
  {
    if k == DocumentKind then {Summary, VersionComment} else {}
  }

  /** The declared defaults: version 1 on every model, and Document's optional fields. */
  function Defaults(k: Kind): Row
  {
    map[Version := Number(1)] +
    if k == DocumentKind then map[Filetype := Null, HtmlText := Null, PreviousVersionId := Null, Revision := Number(0)]
    else map[]
  }

  /** Every scalar field model k declares. */
  function Declared(k: Kind): set<Field>
  {
    Required(k) + RequiredNullable(k) + Defaults(k).Keys
  }

  /** No model declares a field outside the schema. */
  lemma UndeclaredOther(k: Kind, name: string)
    ensures Other(name) !in Declared(k)
  {
    assert Other(name) !in Required(k);
    assert Other(name) !in RequiredNullable(k);
    assert Other(name) !in Defaults(k);
  }

  /**
   * The model of kind k holding `attrs`: every declared field, taken from
   * `attrs` when given there, else its default, else None; other attributes
   * are dropped.
   */
  function Complete(k: Kind, attrs: Row): Row
  {
    map f | f in Declared(k) :: if f in attrs then attrs[f] else if f in Defaults(k) then Defaults(k)[f] else Null
  }

  /** Whether `Kind(**attrs)` passes pydantic's validation of presence. */
  predicate Validates(k: Kind, attrs: Row)
  {
    Meets(Required(k), RequiredNullable(k), attrs)
  }

  /** Every field of `required` is given and not None, and every field of `nullable` is given. */
  predicate Meets(required: set<Field>, nullable: set<Field>, attrs: Row)
  {
    && (forall f :: f in required ==> f in attrs && attrs[f] != Null)
    && (forall f :: f in nullable ==> f in attrs)
  }

  /** Constructing model k from `attrs` in handler code, as pydantic validates it. */
  function Construct(k: Kind, attrs: Row): (r: Result<Row, Fault>)
    ensures r.Err? ==> r.error == Invalid(k)
  {
    if Validates(k, attrs) then Ok(Complete(k, attrs)) else Err(Invalid(k))
  }

  /**
   * Construction succeeds exactly when every required field is given and not
   * None and every required-nullable field is given; the model then holds
   * every declared field and keeps what was given for them.
   */
  lemma ConstructSucceeds(k: Kind, attrs: Row)
    ensures Construct(k, attrs).Ok? <==>
      && (forall f :: f in Required(k) ==> f in attrs && attrs[f] != Null)
      && (forall f :: f in RequiredNullable(k) ==> f in attrs)
    ensures Construct(k, attrs).Ok? ==>
      && Construct(k, attrs).value.Keys == Declared(k)
      && (forall f :: f in Declared(k) && f in attrs ==> Construct(k, attrs).value[f] == attrs[f])
  {
  }

  /** A model always has a version: 1 unless one was given (core/domain/model.py:13). */
  lemma VersionDefaultsToOne(k: Kind, attrs: Row)
    ensures Version in Complete(k, attrs)
    ensures Version !in attrs ==> Complete(k, attrs)[Version] == Number(1)
    ensures Version in attrs ==> Complete(k, attrs)[Version] == attrs[Version]
  {
    assert Version in Defaults(k);
  }

  /** A field's value, None when the row lacks it. */
  function FieldOr(r: Row, f: Field): Value
  {
    if f in r then r[f] else Null
  }

  /** The integer held in field `f`, if it holds one. */
  function IntField(r: Row, f: Field): Option<int>
  {
    if f in r && r[f].Number? then Some(r[f].number) else None
  }

  // ---------------------------------------------------------------------------
  // Parsing a docx comment's date

  predicate IsDigit(c: char)
  {
    '0' <= c <= '9'
  }

  function DigitsAt(s: string, i: nat, n: nat): nat
    requires i + n <= |s|
    decreases n
  {
    if n == 0 then 0
    else
      var d := if IsDigit(s[i + n - 1]) then s[i + n - 1] as int - '0' as int else 0;
      10 * DigitsAt(s, i, n - 1) + d
  }

  predicate IsLeapYear(y: int)
  {
    y % 4 == 0 && (y % 100 != 0 || y % 400 == 0)
  }

  function DaysInMonth(y: int, m: int): int
  {
    if m == 2 then (if IsLeapYear(y) then 29 else 28)
    else if m in {4, 6, 9, 11} then 30
    else 31
  }

  /**
   * Whether `s` has the zero-padded, upper-case shape YYYY-MM-DDTHH:MM:SSZ in
   * ASCII digits and names an existing instant. This is the zero-padded subset
   * of what `datetime.strptime(s, "%Y-%m-%dT%H:%M:%SZ")` accepts: strptime
   * also takes one-digit fields, a space-padded day and a lower-case `t` or `z`.
   */
  predicate IsIsoInstant(s: string)
  {
    && |s| == 20
    && IsDigit(s[0]) && IsDigit(s[1]) && IsDigit(s[2]) && IsDigit(s[3]) && s[4] == '-'
    && IsDigit(s[5]) && IsDigit(s[6]) && s[7] == '-'
    && IsDigit(s[8]) && IsDigit(s[9]) && s[10] == 'T'
    && IsDigit(s[11]) && IsDigit(s[12]) && s[13] == ':'
    && IsDigit(s[14]) && IsDigit(s[15]) && s[16] == ':'
    && IsDigit(s[17]) && IsDigit(s[18]) && s[19] == 'Z'
    && 1 <= DigitsAt(s, 0, 4)
    && 1 <= DigitsAt(s, 5, 2) <= 12
    && 1 <= DigitsAt(s, 8, 2) <= DaysInMonth(DigitsAt(s, 0, 4), DigitsAt(s, 5, 2))
    && DigitsAt(s, 11, 2) <= 23 && DigitsAt(s, 14, 2) <= 59 && DigitsAt(s, 17, 2) <= 59
  }

  // ---------------------------------------------------------------------------
  // compose_DocumentCreated_event

  /** The key the comment records carry the document id under (core/domain/model.py:64). */
  const DocumentIdKey: Field := DocumentId

  /** The key the older composer uses instead (src/core/domain/model.py:34). */
  const LegacyDocumentIdKey: Field := DocId

  /** The record composed for one docx comment, its fields taken by position. */
  function CommentRecord(documentId: int, c: DocxComment, idKey: Field): CommentDict
  {
    map[idKey := Number(documentId),
        ReferenceText := Str(c.referenceText),
        Author := Str(c.author),
        CommentDate := Instant(c.date),
        CommentText := Str(c.commentText)]
  }

  /**
   * The comment records of a document, in order; the first date `parses`
   * rejects raises. (The composer passes IsIsoInstant.)
   */
  function CommentRecords(parses: string -> bool, documentId: int, cs: seq<DocxComment>, idKey: Field): Result<seq<CommentDict>, Fault>
  {
    if cs == [] then Ok([])
    else if !parses(cs[0].date) then Err(BadDate(cs[0].date))
    else
      match CommentRecords(parses, documentId, cs[1..], idKey)
      case Err(f) => Err(f)
      case Ok(rest) => Ok([CommentRecord(documentId, cs[0], idKey)] + rest)
  }

  /** The records are composed exactly when every comment's date parses. */
  lemma {:induction false} CommentRecordsOk(parses: string -> bool, documentId: int, cs: seq<DocxComment>, idKey: Field)
    ensures CommentRecords(parses, documentId, cs, idKey).Ok? <==> forall i :: 0 <= i < |cs| ==> parses(cs[i].date)
  {
    if cs != [] {
      CommentRecordsOk(parses, documentId, cs[1..], idKey);
      assert forall i :: 1 <= i < |cs| ==> cs[i] == cs[1..][i - 1];
    }
  }

  /** The records match the comments one to one and in order, each carrying the document id under `idKey`. */
  lemma {:induction false} CommentRecordsMatch(parses: string -> bool, documentId: int, cs: seq<DocxComment>, idKey: Field)
    requires CommentRecords(parses, documentId, cs, idKey).Ok?
    ensures var rs := CommentRecords(parses, documentId, cs, idKey).value;
      && |rs| == |cs|
      && forall i :: 0 <= i < |cs| ==> rs[i] == CommentRecord(documentId, cs[i], idKey)
  {
    if cs != [] {
      CommentRecordsMatch(parses, documentId, cs[1..], idKey);
      assert forall i :: 1 <= i < |cs| ==> cs[i] == cs[1..][i - 1];
    }
  }

  /** When composing fails, it reports the first comment whose date does not parse. */
  lemma {:induction false} CommentRecordsFirstBadDate(parses: string -> bool, documentId: int, cs: seq<DocxComment>, idKey: Field)
    requires CommentRecords(parses, documentId, cs, idKey).Err?
    ensures exists i :: (0 <= i < |cs| && CommentRecords(parses, documentId, cs, idKey).error == BadDate(cs[i].date)
        && !parses(cs[i].date) && forall j :: 0 <= j < i ==> parses(cs[j].date))
  {
    if parses(cs[0].date) {
      CommentRecordsFirstBadDate(parses, documentId, cs[1..], idKey);
      var i :| 0 <= i < |cs[1..]| && CommentRecords(parses, documentId, cs[1..], idKey).error == BadDate(cs[1..][i].date)
        && !parses(cs[1..][i].date) && forall j :: 0 <= j < i ==> parses(cs[1..][j].date);
      assert forall j :: 1 <= j < i + 1 ==> cs[j] == cs[1..][j - 1];
      assert cs[i + 1] == cs[1..][i];
    }
  }

  /** The events `compose_DocumentCreated_event` appends: none without comments, else one DocumentCreated. */
  function DocumentCreatedFor(documentId: int, docComments: Option<seq<DocxComment>>, idKey: Field): Result<seq<Event>, Fault>
  {
    match docComments
    case None => Ok([])
    case Some(cs) =>
      match CommentRecords(IsIsoInstant, documentId, cs, idKey)
      case Err(f) => Err(f)
      case Ok(rs) => Ok([DocumentCreated(documentId, Some(rs))])
  }

  /**
   * Without comments nothing is appended; with a list whose dates all parse,
   * exactly one DocumentCreated of this document, carrying one record per
   * comment in order; one bad date and nothing is composed.
   */
  lemma ComposedEvent(documentId: int, docComments: Option<seq<DocxComment>>, idKey: Field)
    ensures docComments.None? ==> DocumentCreatedFor(documentId, docComments, idKey) == Ok([])
    ensures docComments.Some? ==>
      (DocumentCreatedFor(documentId, docComments, idKey).Ok? <==>
         forall i :: 0 <= i < |docComments.value| ==> IsIsoInstant(docComments.value[i].date))
    ensures docComments.Some? && DocumentCreatedFor(documentId, docComments, idKey).Ok? ==>
      exists rs: seq<CommentDict> ::
        && DocumentCreatedFor(documentId, docComments, idKey).value == [DocumentCreated(documentId, Some(rs))]
        && |rs| == |docComments.value|
        && forall i :: 0 <= i < |rs| ==> rs[i] == CommentRecord(documentId, docComments.value[i], idKey)
  {
    if docComments.Some? {
      CommentRecordsOk(IsIsoInstant, documentId, docComments.value, idKey);
      if CommentRecords(IsIsoInstant, documentId, docComments.value, idKey).Ok? {
        CommentRecordsMatch(IsIsoInstant, documentId, docComments.value, idKey);
      }
    }
  }

  /**
   * A model object: its class, its fields, its `events` list, and the rows
   * of its `entities` list (a Document) or `documents` list (an Entity).
   */
  class Aggregate {
    const kind: Kind
    var fields: Row
    var events: seq<Event>
    var linked: seq<Row>

    constructor (kind: Kind, fields: Row)
      ensures this.kind == kind && this.fields == fields && events == [] && linked == []
    {
      this.kind := kind;
      this.fields := fields;
      events := [];
      linked := [];
    }

    /** compose_DocumentCreated_event of core/domain/model.py: comment records keyed by "document_id". */
    method ComposeDocumentCreated(docComments: Option<seq<DocxComment>>) returns (failure: Option<Fault>)
      requires IntField(fields, Id).Some?
      modifies this
      ensures fields == old(fields) && linked == old(linked)
      ensures var r := DocumentCreatedFor(IntField(fields, Id).value, docComments, DocumentIdKey);
        && (r.Ok? ==> failure.None? && events == old(events) + r.value)
        && (r.Err? ==> failure == Some(r.error) && events == old(events))
    {
      failure := Compose(docComments, DocumentIdKey);
    }

    /** compose_DocumentCreated_event of src/core/domain/model.py: comment records keyed by "doc_id". */
    method LegacyComposeDocumentCreated(docComments: Option<seq<DocxComment>>) returns (failure: Option<Fault>)
      requires IntField(fields, Id).Some?
      modifies this
      ensures fields == old(fields) && linked == old(linked)
      ensures var r := DocumentCreatedFor(IntField(fields, Id).value, docComments, LegacyDocumentIdKey);
        && (r.Ok? ==> failure.None? && events == old(events) + r.value)
        && (r.Err? ==> failure == Some(r.error) && events == old(events))
    {
      failure := Compose(docComments, LegacyDocumentIdKey);
    }

    method Compose(docComments: Option<seq<DocxComment>>, idKey: Field) returns (failure: Option<Fault>)
      requires IntField(fields, Id).Some?
      modifies this
      ensures fields == old(fields) && linked == old(linked)
      ensures var r := DocumentCreatedFor(IntField(fields, Id).value, docComments, idKey);
        && (r.Ok? ==> failure.None? && events == old(events) + r.value)
        && (r.Err? ==> failure == Some(r.error) && events == old(events))
    {
      var r := DocumentCreatedFor(IntField(fields, Id).value, docComments, idKey);
      if r.Err? {
        return Some(r.error);
      }
      events := events + r.value;
      return None;
    }

    /** `while object.events: yield object.events.pop(0)`: every pending event, front first; none is left. */
    method Drain() returns (popped: seq<Event>)
      modifies this
      ensures popped == old(events) && events == []
      ensures fields == old(fields) && linked == old(linked)
    {
      popped := [];
      while events != []
        invariant popped + events == old(events)
        invariant fields == old(fields) && linked == old(linked)
        decreases |events|
      {
        popped := popped + [events[0]];
        events := events[1..];
      }
    }
  }
}
