/**
 * The handlers of the older src/core/service_layer/handlers.py, run on the
 * src unit of work (`legacy`): `add_new_document` without any `try`,
 * `process_document`, which only fetches, and `add_document_comments`, whose
 * call to a method the unit of work does not have turns every iteration into
 * a rollback.
 */
module LegacyHandlers {
  import opened Wrappers
  import opened Messages
  import opened Domain
  import opened Store
  import opened Repository
  import opened UnitOfWork
  import opened DocumentHandlers

  // ---------------------------------------------------------------------------
  // What the src Comment repository keeps of a list of records

  /** The attributes the src Comment `_add` stores, for the records that hold all five keys it reads, in order. */
  function Accepted(cs: seq<CommentDict>): seq<Row>
  {
    if cs == [] then []
    else
      var c := cs[|cs| - 1];
      Accepted(cs[..|cs| - 1]) + (if FirstMissing(LegacyCommentKeys, c).Some? then [] else [LegacyCommentAttrs(c)])
  }

  /**
   * The store after one src Comment `add` per record, in order, where a record
   * missing one of the five keys raises KeyError before anything is flushed.
   */
  function KeptComments(db: Db, cs: seq<CommentDict>): Db
  {
    if cs == [] then db
    else
      var c := cs[|cs| - 1];
      var before := KeptComments(db, cs[..|cs| - 1]);
      if FirstMissing(LegacyCommentKeys, c).Some? then before else Insert(before, CommentKind, LegacyCommentAttrs(c))
  }

  /** Keeping one more record of a list keeps it on top of the records before it. */
  lemma KeptStep(db: Db, cs: seq<CommentDict>, i: int)
    requires 0 <= i < |cs|
    ensures KeptComments(db, cs[..i + 1]) == KeptComments(KeptComments(db, cs[..i]), [cs[i]])
  {
    assert cs[..i + 1][..i] == cs[..i] && cs[..i + 1][i] == cs[i];
    KeptOne(KeptComments(db, cs[..i]), cs[i]);
  }

  /** One record: stored when it holds the five keys, else nothing changes. */
  lemma KeptOne(db: Db, c: CommentDict)
    ensures KeptComments(db, [c]) == if FirstMissing(LegacyCommentKeys, c).Some? then db else Insert(db, CommentKind, LegacyCommentAttrs(c))
  {
    assert [c][..0] == [];
  }

  /** Adding the records one by one stores exactly the accepted ones, in order. */
  lemma {:induction false} KeptCommentsInsertsAccepted(db: Db, cs: seq<CommentDict>)
    ensures KeptComments(db, cs) == InsertAll(db, CommentKind, Accepted(cs))
    decreases |cs|
  {
    if cs != [] {
      var init := cs[..|cs| - 1];
      var c := cs[|cs| - 1];
      KeptCommentsInsertsAccepted(db, init);
      if FirstMissing(LegacyCommentKeys, c).None? {
        var a := Accepted(init) + [LegacyCommentAttrs(c)];
        assert a[..|a| - 1] == Accepted(init);
      } else {
        assert Accepted(cs) == Accepted(init);
      }
    }
  }

  /** A record is accepted exactly when it holds every key the src Comment `_add` reads. */
  lemma {:induction false} AcceptedSize(cs: seq<CommentDict>)
    ensures |Accepted(cs)| <= |cs|
    ensures (forall i :: 0 <= i < |cs| ==> FirstMissing(LegacyCommentKeys, cs[i]).None?) ==> |Accepted(cs)| == |cs|
    ensures (forall i :: 0 <= i < |cs| ==> FirstMissing(LegacyCommentKeys, cs[i]).Some?) ==> Accepted(cs) == []
    decreases |cs|
  {
    if cs != [] {
      var init := cs[..|cs| - 1];
      AcceptedSize(init);
      assert forall i :: 0 <= i < |init| ==> init[i] == cs[i];
    }
  }

  /**
   * As written, src/core/domain/model.py keys each composed comment record by
   * "doc_id" while the src Comment `_add` reads "document_id": every record
   * the src composer hands on is refused, so not one comment is stored.
   */
  lemma DocIdRecordsAllRefused(db: Db, documentId: int, cs: seq<DocxComment>)
    requires CommentRecords(IsIsoInstant, documentId, cs, LegacyDocumentIdKey).Ok?
    ensures KeptComments(db, CommentRecords(IsIsoInstant, documentId, cs, LegacyDocumentIdKey).value) == db
  {
    var rs := CommentRecords(IsIsoInstant, documentId, cs, LegacyDocumentIdKey).value;
    CommentRecordsMatch(IsIsoInstant, documentId, cs, LegacyDocumentIdKey);
    forall i | 0 <= i < |rs|
      ensures FirstMissing(LegacyCommentKeys, rs[i]).Some?
    {
      assert DocumentId !in rs[i];
    }
    AcceptedSize(rs);
    KeptCommentsInsertsAccepted(db, rs);
  }

  /** Every record the core composer builds holds the five keys the src Comment `_add` reads. */
  lemma DocumentIdRecordsComplete(documentId: int, cs: seq<DocxComment>)
    requires CommentRecords(IsIsoInstant, documentId, cs, DocumentIdKey).Ok?
    ensures var rs := CommentRecords(IsIsoInstant, documentId, cs, DocumentIdKey).value;
      && |rs| == |cs|
      && forall i :: 0 <= i < |rs| ==> FirstMissing(LegacyCommentKeys, rs[i]).None?
  {
    var rs := CommentRecords(IsIsoInstant, documentId, cs, DocumentIdKey).value;
    CommentRecordsMatch(IsIsoInstant, documentId, cs, DocumentIdKey);
    forall i | 0 <= i < |rs|
      ensures FirstMissing(LegacyCommentKeys, rs[i]).None?
    {
      var r := CommentRecord(documentId, cs[i], DocumentIdKey);
      assert DocumentId in r && ReferenceText in r && CommentText in r && CommentDate in r && Author in r;
      assert rs[i] == r;
    }
  }

  /**
   * With the records keyed by "document_id", as the src Comment `_add` reads
   * them, every comment of the document is stored: one new comment row per
   * docx comment, the document and entity tables unchanged.
   */
  lemma DocumentIdRecordsAllKept(db: Db, documentId: int, cs: seq<DocxComment>)
    requires CommentRecords(IsIsoInstant, documentId, cs, DocumentIdKey).Ok?
    ensures var kept := KeptComments(db, CommentRecords(IsIsoInstant, documentId, cs, DocumentIdKey).value);
      && |kept.comments| == |db.comments| + |cs|
      && kept.documents == db.documents && kept.entities == db.entities
  {
    var rs := CommentRecords(IsIsoInstant, documentId, cs, DocumentIdKey).value;
    DocumentIdRecordsComplete(documentId, cs);
    AcceptedSize(rs);
    KeptCommentsInsertsAccepted(db, rs);
    InsertAllAddsOnePerEntry(db, CommentKind, Accepted(rs));
    assert Table(db, DocumentKind) == db.documents && Table(db, EntityKind) == db.entities && Table(db, CommentKind) == db.comments;
  }

  // ---------------------------------------------------------------------------
  // add_new_document

  /**
   * `add_new_document(cmd, uow)` of the src handlers. As in the core handler
   * the documents are listed and sorted and the command versioned by the
   * newest document of its filepath, but nothing is caught: a version that
   * cannot be compared, or a comment date that does not parse, raises out of
   * the scope, which rolls back. The call to `collect_new_events` builds a
   * generator that is never iterated, so it does nothing; then the scope
   * commits and the new document, holding its DocumentCreated event, is
   * returned.
   */
  method LegacyAddNewDocument(uow: UnitOfWork, c: Command) returns (r: Result<Aggregate, Fault>, ghost listed: seq<Row>)
    requires uow.Valid() && uow.legacy && c.CreateDocument?
    modifies uow`session, uow`documents, uow`comments, uow`rawTopics, uow`rawEntities, uow`entities, uow`entered
    modifies uow`committed, uow.database, uow.session, uow.documents
    ensures uow.Valid()
    ensures forall row :: row in listed ==> exists id :: id in old(uow.Stored()).documents && old(uow.Stored()).documents[id] == row
    ensures forall id :: id in old(uow.Stored()).documents ==> old(uow.Stored()).documents[id] in listed
    ensures Latest(listed, c.filepath).Err? ==> r == Err(Latest(listed, c.filepath).error) && uow.Stored() == old(uow.Stored())
    ensures Latest(listed, c.filepath).Ok? ==>
      var c' := Versioned(c, Latest(listed, c.filepath).value);
      var composed := DocumentCreatedFor(NextId(old(uow.Stored()).documents), c'.docComments, LegacyDocumentIdKey);
      && (composed.Err? ==>
            && r == Err(composed.error)
            && uow.Stored() == if uow.fake then Insert(old(uow.Stored()), DocumentKind, DocumentAttrs(c')) else old(uow.Stored()))
      && (composed.Ok? ==>
            && uow.Stored() == Insert(old(uow.Stored()), DocumentKind, DocumentAttrs(c'))
            && r.Ok? && r.value in uow.documents.seen
            && r.value.fields == NewRow(old(uow.Stored()), DocumentKind, DocumentAttrs(c'))
            && r.value.events == composed.value
            && (uow.fake ==> uow.committed))
  {
    uow.Enter();
    var rows := ListDocuments(uow);
    listed := rows;
    var latest := Latest(rows, c.filepath);
    if latest.Err? {
      uow.Exit();
      return Err(latest.error), listed;
    }
    r := LegacyAddThenCommit(uow, Versioned(c, latest.value));
  }

  /** The `add`, then, unless it raised, the `commit` of the src `add_new_document`; then leaving the scope. */
  method LegacyAddThenCommit(uow: UnitOfWork, c: Command) returns (r: Result<Aggregate, Fault>)
    requires uow.Valid() && uow.legacy && c.CreateDocument? && uow.session.working == uow.Stored()
    modifies uow`committed, uow.database, uow.session, uow.documents
    ensures uow.Valid()
    ensures var composed := DocumentCreatedFor(NextId(old(uow.Stored()).documents), c.docComments, LegacyDocumentIdKey);
      && (composed.Err? ==>
            && r == Err(composed.error)
            && uow.Stored() == if uow.fake then Insert(old(uow.Stored()), DocumentKind, DocumentAttrs(c)) else old(uow.Stored()))
      && (composed.Ok? ==>
            && uow.Stored() == Insert(old(uow.Stored()), DocumentKind, DocumentAttrs(c))
            && r.Ok? && r.value in uow.documents.seen
            && r.value.fields == NewRow(old(uow.Stored()), DocumentKind, DocumentAttrs(c))
            && r.value.events == composed.value
            && (uow.fake ==> uow.committed))
  {
    assert !uow.documents.InMemory();
    var added := uow.documents.AddDocument(c);
    if added.Err? {
      uow.Exit();
      return Err(added.error);
    }
    uow.Commit();
    uow.Exit();
    r := added;
  }

  // ---------------------------------------------------------------------------
  // process_document

  /**
   * `process_document(cmd, uow)`: outside any scope, the document is fetched
   * through whatever session the unit of work holds and then dropped; `.one()`
   * raises when there is no such document. A unit of work that has never been
   * entered has no `documents` attribute yet, and reading it raises
   * AttributeError. Nothing is written.
   */
  method ProcessDocument(uow: UnitOfWork, c: Command) returns (failure: Option<Fault>)
    requires uow.Valid() && uow.legacy && c.ProcessDocument?
    modifies uow.documents
    ensures uow.Valid()
    ensures !uow.entered ==> failure == Some(NoAttribute("documents"))
    ensures uow.entered ==> (failure.None? <==> c.documentId in uow.session.working.documents)
    ensures uow.entered && failure.Some? ==> failure.value == NoResult(DocumentKind, c.documentId)
    ensures uow.documents.seen == old(uow.documents.seen) || (uow.entered && c.documentId in uow.session.working.documents)
  {
    if !uow.entered {
      return Some(NoAttribute("documents"));
    }
    var got := uow.documents.Get(c.documentId);
    assert Table(uow.session.working, DocumentKind) == uow.session.working.documents;
    failure := if got.Err? then Some(got.error) else None;
  }

  // ---------------------------------------------------------------------------
  // add_document_comments

  /** The src Comment repository's `add`, in the terms of KeptComments. */
  method AddComment(repo: Repository, record: CommentDict) returns (r: Result<Aggregate, Fault>)
    requires repo.legacy && repo.kind == CommentKind
    modifies repo, repo.session
    ensures repo.session.working == KeptComments(old(repo.session.working), [record])
    ensures r.Err? <==> FirstMissing(LegacyCommentKeys, record).Some?
    ensures r.Err? ==> repo.seen == old(repo.seen)
    ensures r.Ok? ==>
      && fresh(r.value) && r.value.kind == CommentKind && r.value.events == []
      && IntField(r.value.fields, Id).Some?
      && repo.seen == old(repo.seen) + {r.value}
  {
    KeptOne(repo.session.working, record);
    NewRowId(repo.session.working, CommentKind, LegacyCommentAttrs(record));
    r := repo.Add(record);
  }

  /**
   * One iteration of the src `add_document_comments` as written: the record
   * is added, and whether that raised KeyError or the next line raised
   * AttributeError (`uow.collect_new_event` is not a method of the unit of
   * work), the `except` rolls back and the `finally` commits.
   */
  method AddOneAsWritten(uow: UnitOfWork, record: CommentDict)
    requires uow.Valid() && uow.legacy && uow.Stored() == uow.session.working
    modifies uow`committed, uow.database, uow.session, uow.comments
    ensures uow.Valid() && uow.Stored() == uow.session.working && uow.committed == (old(uow.committed) || uow.fake)
    ensures uow.Stored() == if uow.fake then KeptComments(old(uow.Stored()), [record]) else old(uow.Stored())
  {
    var added := AddComment(uow.comments, record);
    uow.Rollback();
    uow.Commit();
  }

  /**
   * `add_document_comments(event, uow)` of the src handlers, as written. No
   * iteration can get past `uow.collect_new_event`, so every one rolls back:
   * on a real unit of work nothing is stored; only the fake one, whose
   * rollback does nothing, keeps the records the Comment repository accepted.
   * An event without a comment list raises TypeError when it is iterated.
   */
  method LegacyAddDocumentComments(uow: UnitOfWork, e: Event) returns (failure: Option<Fault>)
    requires uow.Valid() && uow.legacy && e.DocumentCreated?
    modifies uow`session, uow`documents, uow`comments, uow`rawTopics, uow`rawEntities, uow`entities, uow`entered
    modifies uow`committed, uow.database, uow.session, uow.comments
    ensures uow.Valid()
    ensures e.comments.None? ==> failure == Some(NoneHasNo("__iter__")) && uow.Stored() == old(uow.Stored())
    ensures e.comments.Some? ==>
      && failure.None?
      && uow.Stored() == if uow.fake then KeptComments(old(uow.Stored()), e.comments.value) else old(uow.Stored())
  {
    uow.Enter();
    if e.comments.None? {
      uow.Exit();
      return Some(NoneHasNo("__iter__"));
    }
    StoreCommentsAsWritten(uow, e.comments.value);
    uow.Exit();
    failure := None;
  }

  /** The loop of the src `add_document_comments` as written. */
  method StoreCommentsAsWritten(uow: UnitOfWork, cs: seq<CommentDict>)
    requires uow.Valid() && uow.legacy && uow.Stored() == uow.session.working
    modifies uow`committed, uow.database, uow.session, uow.comments
    ensures uow.Valid() && uow.Stored() == uow.session.working
    ensures uow.Stored() == if uow.fake then KeptComments(old(uow.Stored()), cs) else old(uow.Stored())
  {
    ghost var db0 := uow.Stored();
    var i := 0;
    while i < |cs|
      invariant 0 <= i <= |cs|
      invariant uow.Valid() && uow.Stored() == uow.session.working
      invariant uow.fake ==> uow.Stored() == KeptComments(db0, cs[..i])
      invariant !uow.fake ==> uow.Stored() == db0
    {
      AddOneAsWritten(uow, cs[i]);
      KeptStep(db0, cs, i);
      i := i + 1;
    }
    assert cs[..i] == cs;
  }

  /**
   * One iteration of `add_document_comments` as its author evidently meant
   * it: a record the Comment repository refuses is rolled back; an accepted
   * one gets its CommentCreated event recorded on the new comment, where
   * `collect_new_events` finds it; either way the `finally` commits.
   */
  method AddOneIntended(uow: UnitOfWork, record: CommentDict, documentId: int)
    requires uow.Valid() && uow.legacy && uow.Stored() == uow.session.working
    modifies uow`committed, uow.database, uow.session, uow.comments
    ensures uow.Valid() && uow.Stored() == uow.session.working && uow.committed == (old(uow.committed) || uow.fake)
    ensures uow.Stored() == KeptComments(old(uow.Stored()), [record])
    ensures old(uow.comments.seen) <= uow.comments.seen
    ensures forall a :: a in uow.comments.seen && a !in old(uow.comments.seen) ==>
      && fresh(a) && IntField(a.fields, Id).Some?
      && a.events == [CommentCreated(IntField(a.fields, Id).value, documentId)]
  {
    var added := AddComment(uow.comments, record);
    if added.Err? {
      uow.Rollback();
    } else {
      RecordCommentCreated(added.value, documentId);
      assert uow.comments.seen == old(uow.comments.seen) + {added.value};
    }
    uow.Commit();
  }

  /** `uow.collect_new_event(CommentCreated(comment_id=added_comment.id, ...))`, read as recording the event on the new comment. */
  method RecordCommentCreated(comment: Aggregate, documentId: int)
    requires IntField(comment.fields, Id).Some?
    modifies comment
    ensures comment.fields == old(comment.fields) && comment.linked == old(comment.linked)
    ensures comment.events == old(comment.events) + [CommentCreated(IntField(comment.fields, Id).value, documentId)]
  {
    comment.events := comment.events + [CommentCreated(IntField(comment.fields, Id).value, documentId)];
  }

  /**
   * `add_document_comments` of the src handlers as evidently intended: on a
   * real unit of work as on the fake one, every record the Comment
   * repository accepts is stored, in order, and each new comment holds the
   * CommentCreated event of its own id and the document's.
   */
  method AddDocumentCommentsIntended(uow: UnitOfWork, e: Event) returns (failure: Option<Fault>)
    requires uow.Valid() && uow.legacy && e.DocumentCreated?
    modifies uow`session, uow`documents, uow`comments, uow`rawTopics, uow`rawEntities, uow`entities, uow`entered
    modifies uow`committed, uow.database, uow.session, uow.comments
    ensures uow.Valid()
    ensures e.comments.None? ==> failure == Some(NoneHasNo("__iter__")) && uow.Stored() == old(uow.Stored())
    ensures e.comments.Some? ==>
      && failure.None?
      && uow.Stored() == KeptComments(old(uow.Stored()), e.comments.value)
      && forall a :: a in uow.comments.seen && a !in old(uow.comments.seen) ==>
           && IntField(a.fields, Id).Some?
           && a.events == [CommentCreated(IntField(a.fields, Id).value, e.documentId)]
  {
    uow.Enter();
    if e.comments.None? {
      uow.Exit();
      return Some(NoneHasNo("__iter__"));
    }
    assert forall a :: a in uow.comments.seen ==> a in old(uow.comments.seen);
    StoreCommentsIntended(uow, e.comments.value, e.documentId);
    uow.Exit();
    failure := None;
  }

  /** The loop of the src `add_document_comments` as evidently intended. */
  method StoreCommentsIntended(uow: UnitOfWork, cs: seq<CommentDict>, documentId: int)
    requires uow.Valid() && uow.legacy && uow.Stored() == uow.session.working
    modifies uow`committed, uow.database, uow.session, uow.comments
    ensures uow.Valid() && uow.Stored() == uow.session.working
    ensures uow.Stored() == KeptComments(old(uow.Stored()), cs)
    ensures old(uow.comments.seen) <= uow.comments.seen
    ensures forall a :: a in uow.comments.seen && a !in old(uow.comments.seen) ==>
      && IntField(a.fields, Id).Some?
      && a.events == [CommentCreated(IntField(a.fields, Id).value, documentId)]
  {
    var i := 0;
    while i < |cs|
      invariant 0 <= i <= |cs|
      invariant uow.Valid() && uow.Stored() == uow.session.working
      invariant uow.Stored() == KeptComments(old(uow.Stored()), cs[..i])
      invariant old(uow.comments.seen) <= uow.comments.seen
      invariant forall a :: a in uow.comments.seen && a !in old(uow.comments.seen) ==>
        && IntField(a.fields, Id).Some?
        && a.events == [CommentCreated(IntField(a.fields, Id).value, documentId)]
    {
      AddOneIntended(uow, cs[i], documentId);
      assert cs[..i + 1][..i] == cs[..i] && cs[..i + 1][i] == cs[i];
      i := i + 1;
    }
    assert cs[..i] == cs;
  }
}
