/**
 * The concrete cases of tests/unit/test_handlers.py, run on the tests' fake
 * unit of work over an empty store: the command and event handlers of
 * core/service_layer/handlers.py called as the bus calls them for the
 * message each test hands it. The fake Document repository stores the
 * command's attributes with an empty summary.
 */
module Scenarios {
  import opened Wrappers
  import opened Messages
  import opened Domain
  import opened Store
  import opened Repository
  import opened UnitOfWork
  import opened DocumentHandlers

  /** A row added to an empty table gets id 1 and is the table's only row. */
  lemma FirstRow(k: Kind, attrs: Row)
    ensures Table(Insert(EmptyDb, k, attrs), k) == map[1 := NewRow(EmptyDb, k, attrs)]
    ensures NewRow(EmptyDb, k, attrs).Keys == Declared(k)
    ensures NewRow(EmptyDb, k, attrs)[Id] == Number(1)
    ensures forall f :: f in Declared(k) && f in attrs && f != Id ==> NewRow(EmptyDb, k, attrs)[f] == attrs[f]
  {
    assert Table(EmptyDb, k) == map[];
    assert NextId(Table(EmptyDb, k)) == 1;
    InsertSpec(EmptyDb, k, attrs);
    NewRowSpec(EmptyDb, k, attrs);
  }

  /** With nothing listed the filepath is new. */
  lemma NothingListed(listed: seq<Row>, fp: string)
    requires |listed| == 0
    ensures Latest(listed, fp) == Ok(None)
  {
    NewestSpec(listed, fp);
  }

  /** The first document of an empty store: id 1, the command's filepath, version 1. */
  lemma FirstDocument(c: Command)
    requires c.CreateDocument? && c.version == Some(1)
    ensures var db := Insert(EmptyDb, DocumentKind, FakeDocumentAttrs(c));
      && db.documents == map[1 := NewRow(EmptyDb, DocumentKind, FakeDocumentAttrs(c))]
      && HasPath(db.documents[1], c.filepath)
      && IntField(db.documents[1], Id) == Some(1)
      && VersionOf(db.documents[1]) == Some(1)
  {
    var attrs := FakeDocumentAttrs(c);
    FirstRow(DocumentKind, attrs);
    FakeVersionedRow(EmptyDb, c, None);
    assert Filepath in Declared(DocumentKind) && Version in Declared(DocumentKind);
  }

  /**
   * The fake `add` stores the versioned command's version, previous version
   * and filepath as the SQL `add` does, and an empty summary.
   */
  lemma FakeVersionedRow(db: Db, c: Command, latest: Option<Row>)
    requires c.CreateDocument?
    ensures var row := NewRow(db, DocumentKind, FakeDocumentAttrs(Versioned(c, latest)));
      && (latest.None? ==> row[Version] == OptNumber(c.version) && row[PreviousVersionId] == OptNumber(c.previousVersionId))
      && (latest.Some? ==>
            && row[Version] == Number(Ver(latest.value) + 1)
            && row[PreviousVersionId] == OptNumber(IntField(latest.value, Id)))
      && row[Filepath] == Str(c.filepath)
      && row[Summary] == Str("")
  {
    var c' := Versioned(c, latest);
    var attrs := FakeDocumentAttrs(c');
    assert Version in attrs && PreviousVersionId in attrs && Filepath in attrs && Summary in attrs;
    assert attrs[Version] == OptNumber(c'.version) && attrs[PreviousVersionId] == OptNumber(c'.previousVersionId);
    assert attrs[Filepath] == Str(c.filepath) && attrs[Summary] == Str("");
    assert Version in Declared(DocumentKind) && PreviousVersionId in Declared(DocumentKind);
    assert Filepath in Declared(DocumentKind) && Summary in Declared(DocumentKind);
    NewRowSpec(db, DocumentKind, attrs);
  }

  /**
   * A CreateDocument with the dataclass defaults, for a filepath nothing is
   * stored under, is stored with version 1, no previous version and revision 0.
   */
  lemma DefaultCommandStored(db: Db, audit: Audit, filepath: string, filename: string, text: string, processedAt: Timestamp)
    ensures var c := NewCreateDocument(audit, filepath, filename, text, processedAt);
      var row := NewRow(db, DocumentKind, DocumentAttrs(Versioned(c, None)));
      && row[Version] == Number(1) && row[PreviousVersionId] == Null && row[Revision] == Number(0)
      && row[Filepath] == Str(filepath)
  {
    var c := NewCreateDocument(audit, filepath, filename, text, processedAt);
    VersionedRow(db, c, None);
    var attrs := DocumentAttrs(c);
    assert Revision in attrs && attrs[Revision] == Number(0);
    assert Revision in Declared(DocumentKind);
    NewRowSpec(db, DocumentKind, attrs);
  }

  /** The bus handling a CreateDocument without comments on the fake unit of work: the versioned command's row is stored. */
  method AddWithoutComments(uow: UnitOfWork, c: Command) returns (ghost listed: seq<Row>)
    requires uow.Valid() && uow.fake && !uow.legacy && c.CreateDocument? && c.docComments.None?
    modifies uow`session, uow`documents, uow`comments, uow`rawTopics, uow`rawEntities, uow`entities, uow`entered
    modifies uow`committed, uow.database, uow.session, uow.documents
    ensures uow.Valid() && uow.committed
    ensures forall row :: row in listed <==> exists id :: id in old(uow.Stored()).documents && old(uow.Stored()).documents[id] == row
    ensures |listed| == |old(uow.Stored()).documents|
    ensures Latest(listed, c.filepath).Ok? ==>
      uow.Stored() == Insert(old(uow.Stored()), DocumentKind, FakeDocumentAttrs(Versioned(c, Latest(listed, c.filepath).value)))
  {
    var r;
    r, listed := AddNewDocument(uow, c);
    if Latest(listed, c.filepath).Ok? {
      assert Versioned(c, Latest(listed, c.filepath).value).docComments.None?;
    }
  }

  /**
   * test_for_new_document: after a CreateDocument on an empty store, the
   * document with id 1 is stored and the unit of work has committed.
   */
  method NewDocumentScenario(audit: Audit, filepath: string, filename: string, text: string, processedAt: Timestamp)
    returns (stored: Db, committed: bool)
    ensures 1 in stored.documents && HasPath(stored.documents[1], filepath)
    ensures committed
  {
    var database := new Database(EmptyDb);
    var uow := new UnitOfWork(database, false, true);
    var c := NewCreateDocument(audit, filepath, filename, text, processedAt);
    assert uow.Stored() == EmptyDb;
    var listed := AddWithoutComments(uow, c);
    NothingListed(listed, c.filepath);
    assert Versioned(c, None) == c;
    FirstDocument(c);
    stored, committed := uow.session.working, uow.committed;
  }

  /** The only document of a table is the latest of its filepath. */
  lemma LatestOfOne(listed: seq<Row>, row: Row, fp: string)
    requires forall r :: r in listed <==> r == row
    requires HasPath(row, fp) && VersionOf(row).Some?
    ensures Latest(listed, fp) == Ok(Some(row))
  {
    assert row in listed;
    assert forall i :: 0 <= i < |listed| ==> listed[i] in listed;
    LatestSpec(listed, fp);
  }

  /** After the first add, the listed documents are the first one only, which is the latest of its filepath. */
  lemma FirstIsLatest(c: Command, listed: seq<Row>)
    requires c.CreateDocument? && c.version == Some(1)
    requires var first := Insert(EmptyDb, DocumentKind, FakeDocumentAttrs(c));
      forall r :: r in listed <==> exists id :: id in first.documents && first.documents[id] == r
    ensures var first := Insert(EmptyDb, DocumentKind, FakeDocumentAttrs(c));
      && 1 in first.documents && Latest(listed, c.filepath) == Ok(Some(first.documents[1]))
      && IntField(first.documents[1], Id) == Some(1) && VersionOf(first.documents[1]) == Some(1)
      && first.documents.Keys == {1}
  {
    var first := Insert(EmptyDb, DocumentKind, FakeDocumentAttrs(c));
    FirstDocument(c);
    var row := first.documents[1];
    assert forall r :: r in listed <==> r == row;
    LatestOfOne(listed, row, c.filepath);
  }

  /**
   * The second add for the same filepath: the first document is the latest,
   * and the second is stored under id 2 with version 2 and previous version 1.
   */
  lemma SecondDocument(c: Command, listed: seq<Row>)
    requires c.CreateDocument? && c.version == Some(1)
    requires var first := Insert(EmptyDb, DocumentKind, FakeDocumentAttrs(c));
      forall r :: r in listed <==> exists id :: id in first.documents && first.documents[id] == r
    ensures var first := Insert(EmptyDb, DocumentKind, FakeDocumentAttrs(c));
      && Latest(listed, c.filepath) == Ok(Some(first.documents[1]))
      && var db := Insert(first, DocumentKind, FakeDocumentAttrs(Versioned(c, Some(first.documents[1]))));
      && 2 in db.documents
      && VersionOf(db.documents[2]) == Some(2)
      && IntField(db.documents[2], PreviousVersionId) == Some(1)
  {
    FirstIsLatest(c, listed);
    var first := Insert(EmptyDb, DocumentKind, FakeDocumentAttrs(c));
    NextVersion(first, c, first.documents[1]);
  }

  /** After a table's only id 1 comes id 2. */
  lemma NextIdAfterOne(t: map<int, Row>)
    requires t.Keys == {1}
    ensures NextId(t) == 2
  {
    assert 1 in t;
  }

  /** Adding the next version to a table holding only document 1, of version 1: document 2, of version 2, previous version 1. */
  lemma NextVersion(first: Db, c: Command, row: Row)
    requires c.CreateDocument?
    requires first.documents.Keys == {1} && row == first.documents[1]
    requires IntField(row, Id) == Some(1) && VersionOf(row) == Some(1)
    ensures var db := Insert(first, DocumentKind, FakeDocumentAttrs(Versioned(c, Some(row))));
      && 2 in db.documents
      && VersionOf(db.documents[2]) == Some(2)
      && IntField(db.documents[2], PreviousVersionId) == Some(1)
  {
    var second := FakeDocumentAttrs(Versioned(c, Some(row)));
    FakeVersionedRow(first, c, Some(row));
    NextIdAfterOne(first.documents);
    InsertSpec(first, DocumentKind, second);
    NewRowSpec(first, DocumentKind, second);
    assert Version in Declared(DocumentKind) && PreviousVersionId in Declared(DocumentKind);
  }

  /**
   * test_for_existing_document: two CreateDocument commands for the same
   * filepath; the second document has id 2, version 2 and the first as its
   * previous version.
   */
  method SecondVersionScenario(audit: Audit, filepath: string, filename: string, text: string, processedAt: Timestamp)
    returns (stored: Db)
    ensures 2 in stored.documents
    ensures 2 in stored.documents ==> VersionOf(stored.documents[2]) == Some(2)
    ensures 2 in stored.documents ==> IntField(stored.documents[2], PreviousVersionId) == Some(1)
  {
    var database := new Database(EmptyDb);
    var uow := new UnitOfWork(database, false, true);
    var c := NewCreateDocument(audit, filepath, filename, text, processedAt);
    assert uow.Stored() == EmptyDb;
    ghost var listed := AddWithoutComments(uow, c);
    NothingListed(listed, c.filepath);
    assert Versioned(c, None) == c;
    listed := AddWithoutComments(uow, c);
    SecondDocument(c, listed);
    stored := uow.session.working;
  }

  /** One comment record added to an empty store is comment 1, holding the record's author. */
  lemma OneComment(record: CommentDict)
    requires Author in record
    ensures var db := InsertAll(EmptyDb, CommentKind, [record]);
      1 in db.comments && Author in db.comments[1] && db.comments[1][Author] == record[Author]
  {
    assert [record][..0] == [];
    FirstRow(CommentKind, record);
    assert Author in Declared(CommentKind);
  }

  /**
   * test_comments_added, as written: the event carries the test's record,
   * which has no audit fields, so `model.Comment(**comment, id=...)` raises,
   * the fake rollback does nothing, and no comment is stored. The test's
   * `comments.get(reference=1)` is then None, and reading its `author` raises.
   */
  method CommentScenario() returns (stored: Db)
    ensures stored.comments == map[]
  {
    var database := new Database(EmptyDb);
    var uow := new UnitOfWork(database, false, true);
    assert uow.Stored() == EmptyDb;
    var failure := AddDocumentComments(uow, DocumentCreated(1, Some([TestRecord()])));
    TestRecordRefused();
    stored := uow.session.working;
  }

  /** The comment record of test_comments_added. */
  function TestRecord(): CommentDict
  {
    map[ReferenceText := Str("reference text 1"), Author := Str("author name 1"),
        CommentDate := Str("2024-12-31T14:24:01Z"), CommentText := Str("comment text 1"), DocumentId := Number(1)]
  }

  /** The fake comment store refuses that record: it has no audit fields. */
  lemma TestRecordRefused()
    ensures FakeComments(EmptyDb, [TestRecord()]) == EmptyDb
  {
    assert LastModifiedAt !in TestRecord();
    FakeCommentsWithoutAudit(EmptyDb, [TestRecord()]);
  }

  /** A comment record naming every field model.Comment requires but the id, none of them None, constructs a Comment. */
  lemma CommentBuildable(record: CommentDict)
    requires Id !in record
    requires CreatedAt in record && record[CreatedAt] != Null && LastModifiedAt in record && record[LastModifiedAt] != Null
    requires CreatedBy in record && record[CreatedBy] != Null && LastModifiedBy in record && record[LastModifiedBy] != Null
    requires DocumentId in record && record[DocumentId] != Null && Author in record && record[Author] != Null
    requires ReferenceText in record && record[ReferenceText] != Null
    requires CommentText in record && record[CommentText] != Null && CommentDate in record && record[CommentDate] != Null
    ensures Buildable(CommentKind, record)
  {
    assert Required(CommentKind) - {Id} == AuditFields + {DocumentId, Author, ReferenceText, CommentText, CommentDate};
  }

  /** The test's comment record, with the audit fields the Comment model requires. */
  function AuditedRecord(audit: Audit): CommentDict
  {
    map[ReferenceText := Str("reference text 1"), Author := Str("author name 1"),
        CommentDate := Str("2024-12-31T14:24:01Z"), CommentText := Str("comment text 1"), DocumentId := Number(1),
        CreatedAt := Time(audit.createdAt), LastModifiedAt := Time(audit.lastModifiedAt),
        CreatedBy := Str(audit.createdBy), LastModifiedBy := Str(audit.lastModifiedBy)]
  }

  /** That record constructs a Comment, and names the test's author. */
  lemma AuditedRecordBuildable(audit: Audit)
    ensures Buildable(CommentKind, AuditedRecord(audit))
    ensures Author in AuditedRecord(audit) && AuditedRecord(audit)[Author] == Str("author name 1")
  {
    CommentBuildable(AuditedRecord(audit));
  }

  /**
   * test_comments_added with a record that also carries the audit fields, as
   * the Comment model requires: comment 1 is stored with the record's author.
   */
  method AuditedCommentScenario(audit: Audit) returns (stored: Db)
    ensures 1 in stored.comments && Author in stored.comments[1] && stored.comments[1][Author] == Str("author name 1")
  {
    var record := AuditedRecord(audit);
    var database := new Database(EmptyDb);
    var uow := new UnitOfWork(database, false, true);
    assert uow.Stored() == EmptyDb;
    var failure := AddDocumentComments(uow, DocumentCreated(1, Some([record])));
    AuditedCommentStored(audit);
    stored := uow.session.working;
  }

  /** The fake comment store, given that record alone, holds comment 1 with the test's author. */
  lemma AuditedCommentStored(audit: Audit)
    ensures var db := FakeComments(EmptyDb, [AuditedRecord(audit)]);
      1 in db.comments && Author in db.comments[1] && db.comments[1][Author] == Str("author name 1")
  {
    AuditedRecordBuildable(audit);
    FakeCommentsComplete(EmptyDb, [AuditedRecord(audit)]);
    OneComment(AuditedRecord(audit));
  }
}
