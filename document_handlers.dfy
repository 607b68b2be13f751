/**
 * The document handlers of core/service_layer/handlers.py: `add_new_document`
 * versions a document by its filepath, `add_document_comments` stores the
 * comments a DocumentCreated event carries, and
 * `get_document_topics_entities_and_summary` fans an analysis out into raw
 * entity and raw topic rows and records the summary. Also the pure
 * `filter_entities`.
 */
module DocumentHandlers {
  import opened Wrappers
  import opened Messages
  import opened Domain
  import opened Store
  import opened Repository
  import opened UnitOfWork

  // ---------------------------------------------------------------------------
  // filter_entities

  /** Whether the row's id is one of `ids` (`entity.id in ids`; an id that is not an integer never is). */
  predicate Selected(r: Row, ids: seq<int>)
  {
    IntField(r, Id).Some? && IntField(r, Id).value in ids
  }

  /** The rows whose id is in `ids`, in their order. */
  function Keep(rows: seq<Row>, ids: seq<int>): seq<Row>
  {
    if rows == [] then [] else (if Selected(rows[0], ids) then [rows[0]] else []) + Keep(rows[1..], ids)
  }

  /** `filter_entities(entities, ids)`: everything when `ids` is None, else the rows whose id is listed. */
  function FilterEntities(rows: seq<Row>, ids: Option<seq<int>>): seq<Row>
  {
    if ids.None? then rows else Keep(rows, ids.value)
  }

  /** The filter keeps exactly the selected rows and never more rows than it is given. */
  lemma {:induction false} KeepMembers(rows: seq<Row>, ids: seq<int>)
    ensures forall r :: r in Keep(rows, ids) <==> r in rows && Selected(r, ids)
    ensures |Keep(rows, ids)| <= |rows|
  {
    if rows != [] {
      KeepMembers(rows[1..], ids);
      assert forall r :: r in rows <==> r == rows[0] || r in rows[1..];
    }
  }

  /** Filtering keeps order: filtering a concatenation concatenates the filtered parts. */
  lemma {:induction false} KeepAppend(a: seq<Row>, b: seq<Row>, ids: seq<int>)
    ensures Keep(a + b, ids) == Keep(a, ids) + Keep(b, ids)
  {
    if a != [] {
      KeepAppend(a[1..], b, ids);
      assert (a + b)[1..] == a[1..] + b;
    } else {
      assert a + b == b;
    }
  }

  /** A filter that selects every row returns the rows unchanged. */
  lemma {:induction false} KeepEverything(rows: seq<Row>, ids: seq<int>)
    requires forall i :: 0 <= i < |rows| ==> Selected(rows[i], ids)
    ensures Keep(rows, ids) == rows
  {
    if rows != [] {
      KeepEverything(rows[1..], ids);
      assert [rows[0]] + rows[1..] == rows;
    }
  }

  /**
   * `filter_entities`: with ids None the input comes back unchanged; otherwise
   * exactly the rows whose id is in ids, in order, and no more of them.
   */
  lemma FilterEntitiesSpec(rows: seq<Row>, ids: Option<seq<int>>)
    ensures ids.None? ==> FilterEntities(rows, ids) == rows
    ensures ids.Some? ==> forall r :: r in FilterEntities(rows, ids) <==> r in rows && Selected(r, ids.value)
    ensures |FilterEntities(rows, ids)| <= |rows|
  {
    if ids.Some? {
      KeepMembers(rows, ids.value);
    }
  }

  // ---------------------------------------------------------------------------
  // add_new_document: the latest version of a filepath

  /** Whether the document is stored under filepath `fp`. */
  predicate HasPath(r: Row, fp: string)
  {
    Filepath in r && r[Filepath] == Str(fp)
  }

  /** The version the sort by `d.version` compares (0 for a version that is not an integer, which is never compared). */
  function Ver(r: Row): int
  {
    if VersionOf(r).Some? then VersionOf(r).value else 0
  }

  /**
   * The position `next` reaches after `sorted(..., key=version, reverse=True)`:
   * among the documents of filepath fp, the first one of highest version (the
   * sort is stable, so of equal versions the earlier comes first).
   */
  function Newest(docs: seq<Row>, fp: string): (r: Option<nat>)
    ensures r.Some? ==> r.value < |docs|
  {
    if docs == [] then None
    else
      var rest := Newest(docs[1..], fp);
      if !HasPath(docs[0], fp) then (if rest.Some? then Some(rest.value + 1) else None)
      else if rest.Some? && Ver(docs[1..][rest.value]) > Ver(docs[0]) then Some(rest.value + 1)
      else Some(0)
  }

  /**
   * No document is found exactly when none has the filepath; the one found has
   * it, no document of that filepath has a higher version, and every earlier
   * one of that filepath has a lower one.
   */
  lemma {:induction false} NewestSpec(docs: seq<Row>, fp: string)
    ensures Newest(docs, fp).None? <==> forall i :: 0 <= i < |docs| ==> !HasPath(docs[i], fp)
    ensures Newest(docs, fp).Some? ==>
      var n := Newest(docs, fp).value;
      && HasPath(docs[n], fp)
      && (forall j :: 0 <= j < |docs| && HasPath(docs[j], fp) ==> Ver(docs[j]) <= Ver(docs[n]))
      && (forall j :: 0 <= j < n && HasPath(docs[j], fp) ==> Ver(docs[j]) < Ver(docs[n]))
  {
    if docs != [] {
      NewestSpec(docs[1..], fp);
      assert forall j :: 1 <= j < |docs| ==> docs[j] == docs[1..][j - 1];
    }
  }

  /**
   * What the listing and the sort yield: a version that is not an integer
   * raises once the sort compares it (any list of two or more) or once the
   * found document's version is incremented; otherwise the newest document of
   * the filepath, if any.
   */
  function Latest(docs: seq<Row>, fp: string): (r: Result<Option<Row>, Fault>)
  {
    if |docs| >= 2 && exists i :: 0 <= i < |docs| && VersionOf(docs[i]).None? then Err(NoneOperand)
    else
      match Newest(docs, fp)
      case None => Ok(None)
      case Some(n) => if VersionOf(docs[n]).None? then Err(NoneOperand) else Ok(Some(docs[n]))
  }

  /**
   * When every listed version is an integer nothing raises, and the document
   * found is one of the filepath's with the highest version, or none when the
   * filepath is new.
   */
  lemma LatestSpec(docs: seq<Row>, fp: string)
    requires forall i :: 0 <= i < |docs| ==> VersionOf(docs[i]).Some?
    ensures Latest(docs, fp).Ok?
    ensures Latest(docs, fp).value.None? <==> forall i :: 0 <= i < |docs| ==> !HasPath(docs[i], fp)
    ensures Latest(docs, fp).value.Some? ==>
      var d := Latest(docs, fp).value.value;
      && d in docs && HasPath(d, fp) && VersionOf(d).Some?
      && (forall j :: 0 <= j < |docs| && HasPath(docs[j], fp) ==> VersionOf(docs[j]).value <= VersionOf(d).value)
  {
    NewestSpec(docs, fp);
  }

  /**
   * The command `add` receives: unchanged for a new filepath, else one version
   * past the latest document's, which becomes its previous version.
   */
  function Versioned(c: Command, latest: Option<Row>): (c': Command)
    requires c.CreateDocument?
    ensures c'.CreateDocument?
  {
    if latest.None? then c
    else c.(version := Some(Ver(latest.value) + 1), previousVersionId := IntField(latest.value, Id))
  }

  /**
   * The row stored for the versioned command: for a new filepath the command's
   * own version (1 unless given) and previous version (none unless given);
   * otherwise the latest document's version plus one, and its id as previous
   * version.
   */
  lemma VersionedRow(db: Db, c: Command, latest: Option<Row>)
    requires c.CreateDocument?
    ensures var row := NewRow(db, DocumentKind, DocumentAttrs(Versioned(c, latest)));
      && (latest.None? ==> row[Version] == OptNumber(c.version) && row[PreviousVersionId] == OptNumber(c.previousVersionId))
      && (latest.Some? ==>
            && row[Version] == Number(Ver(latest.value) + 1)
            && row[PreviousVersionId] == OptNumber(IntField(latest.value, Id)))
      && row[Filepath] == Str(c.filepath)
  {
    var c' := Versioned(c, latest);
    var attrs := DocumentAttrs(c');
    assert Version in attrs && PreviousVersionId in attrs && Filepath in attrs;
    assert attrs[Version] == OptNumber(c'.version) && attrs[PreviousVersionId] == OptNumber(c'.previousVersionId);
    assert attrs[Filepath] == Str(c.filepath);
    assert Version in Declared(DocumentKind) && PreviousVersionId in Declared(DocumentKind) && Filepath in Declared(DocumentKind);
    NewRowSpec(db, DocumentKind, attrs);
  }

  /**
   * `repository.list()` as the handlers read it: the rows of the listed
   * objects, which are exactly the rows of the table, each listed object
   * remembered in `seen` (except by the src repositories).
   */
  method ListRows(repo: Repository) returns (rows: seq<Row>)
    modifies repo
    ensures forall row :: row in rows ==> exists id :: id in Table(repo.session.working, repo.kind) && Table(repo.session.working, repo.kind)[id] == row
    ensures forall id :: id in Table(repo.session.working, repo.kind) ==> Table(repo.session.working, repo.kind)[id] in rows
    ensures |rows| == |Table(repo.session.working, repo.kind)|
    ensures forall a :: a in old(repo.seen) ==> a in repo.seen
    ensures forall a :: a in repo.seen ==> a in old(repo.seen) || a.kind == repo.kind
  {
    var objs, ids := repo.List();
    ghost var t := Table(repo.session.working, repo.kind);
    rows := [];
    var i := 0;
    while i < |objs|
      invariant 0 <= i <= |objs| && |rows| == i
      invariant forall j :: 0 <= j < i ==> ids[j] in t && rows[j] == t[ids[j]]
    {
      rows := rows + [objs[i].fields];
      i := i + 1;
    }
    forall id | id in t
      ensures t[id] in rows
    {
      var j :| 0 <= j < |ids| && ids[j] == id;
      assert rows[j] == t[id];
    }
  }

  /** `uow.documents.list()`: the rows of the documents the session holds, each one listed. */
  method ListDocuments(uow: UnitOfWork) returns (rows: seq<Row>)
    requires uow.Valid()
    modifies uow.documents
    ensures uow.Valid()
    ensures forall row :: row in rows ==> exists id :: id in uow.session.working.documents && uow.session.working.documents[id] == row
    ensures forall id :: id in uow.session.working.documents ==> uow.session.working.documents[id] in rows
    ensures |rows| == |uow.session.working.documents|
  {
    rows := ListRows(uow.documents);
    assert Table(uow.session.working, DocumentKind) == uow.session.working.documents;
  }

  /**
   * The `add` and the `finally: uow.commit()` of `add_new_document`, then
   * leaving the scope. The tests' fake `add` composes the event before it
   * stores the document, and leaves `seen` alone.
   */
  method AddThenCommit(uow: UnitOfWork, c: Command) returns (r: Result<Aggregate, Fault>)
    requires uow.Valid() && !uow.legacy && c.CreateDocument?
    modifies uow`committed, uow.database, uow.session, uow.documents
    ensures uow.Valid()
    ensures !uow.fake ==> uow.Stored() == Insert(old(uow.session.working), DocumentKind, DocumentAttrs(c))
    ensures !uow.fake ==>
      var composed := DocumentCreatedFor(NextId(old(uow.session.working).documents), c.docComments, DocumentIdKey);
      && (composed.Err? ==> r == Err(Unbound("new_doc")))
      && (composed.Ok? ==>
            && r.Ok? && r.value in uow.documents.seen
            && r.value.fields == NewRow(old(uow.session.working), DocumentKind, DocumentAttrs(c))
            && r.value.events == composed.value)
    ensures uow.fake ==>
      var composed := DocumentCreatedFor(NextId(old(uow.session.working).documents), c.docComments, DocumentIdKey);
      && uow.committed && uow.documents.seen == old(uow.documents.seen)
      && (composed.Err? ==> r == Err(Unbound("new_doc")) && uow.Stored() == old(uow.session.working))
      && (composed.Ok? ==>
            && uow.Stored() == Insert(old(uow.session.working), DocumentKind, FakeDocumentAttrs(c))
            && r.Ok? && r.value !in uow.documents.seen
            && r.value.fields == NewRow(old(uow.session.working), DocumentKind, FakeDocumentAttrs(c))
            && r.value.events == composed.value)
  {
    ghost var before := uow.session.working;
    if uow.fake {
      FakeDocumentBuilds(before, c);
      assert uow.documents.InMemory();
    } else {
      assert !uow.documents.InMemory();
    }
    var added := uow.documents.AddDocument(c);
    uow.CommitThenExit();
    r := if added.Err? then Err(Unbound("new_doc")) else added;
  }

  /**
   * `add_new_document(cmd, uow)`. Inside the scope the documents are listed
   * and sorted; if one has the command's filepath, the command takes the next
   * version and that document as previous version; the document is added.
   * Whatever raises is swallowed, the `finally` commits, and the `return`
   * then raises UnboundLocalError unless the add returned. So: a version that
   * cannot be compared leaves the store as it was; otherwise the versioned
   * row is stored even when composing its event fails, and the new document,
   * holding its DocumentCreated event, is in the Document repository's `seen`.
   * On the tests' fake unit of work a comment date that does not parse stores
   * nothing, the stored document has an empty summary, and the new document
   * is not in `seen`, so its event is never collected.
   */
  method AddNewDocument(uow: UnitOfWork, c: Command) returns (r: Result<Aggregate, Fault>, ghost listed: seq<Row>)
    requires uow.Valid() && !uow.legacy && c.CreateDocument?
    modifies uow`session, uow`documents, uow`comments, uow`rawTopics, uow`rawEntities, uow`entities, uow`entered
    modifies uow`committed, uow.database, uow.session, uow.documents
    ensures uow.Valid()
    ensures forall row :: row in listed ==> exists id :: id in old(uow.Stored()).documents && old(uow.Stored()).documents[id] == row
    ensures forall id :: id in old(uow.Stored()).documents ==> old(uow.Stored()).documents[id] in listed
    ensures |listed| == |old(uow.Stored()).documents|
    ensures Latest(listed, c.filepath).Err? ==> r == Err(Unbound("new_doc")) && uow.Stored() == old(uow.Stored())
    ensures Latest(listed, c.filepath).Ok? && !uow.fake ==>
      var c' := Versioned(c, Latest(listed, c.filepath).value);
      var composed := DocumentCreatedFor(NextId(old(uow.Stored()).documents), c'.docComments, DocumentIdKey);
      && uow.Stored() == Insert(old(uow.Stored()), DocumentKind, DocumentAttrs(c'))
      && (composed.Err? ==> r == Err(Unbound("new_doc")))
      && (composed.Ok? ==>
            && r.Ok? && r.value in uow.documents.seen
            && r.value.fields == NewRow(old(uow.Stored()), DocumentKind, DocumentAttrs(c'))
            && r.value.events == composed.value)
    ensures Latest(listed, c.filepath).Ok? && uow.fake ==>
      var c' := Versioned(c, Latest(listed, c.filepath).value);
      var composed := DocumentCreatedFor(NextId(old(uow.Stored()).documents), c'.docComments, DocumentIdKey);
      && (composed.Err? ==> r == Err(Unbound("new_doc")) && uow.Stored() == old(uow.Stored()))
      && (composed.Ok? ==>
            && uow.Stored() == Insert(old(uow.Stored()), DocumentKind, FakeDocumentAttrs(c'))
            && r.Ok? && r.value !in uow.documents.seen
            && r.value.fields == NewRow(old(uow.Stored()), DocumentKind, FakeDocumentAttrs(c'))
            && r.value.events == composed.value)
    ensures uow.fake ==> uow.committed
  {
    uow.Enter();
    ghost var db0 := uow.session.working;
    assert db0 == old(uow.Stored());
    var rows := ListDocuments(uow);
    listed := rows;
    var latest := Latest(rows, c.filepath);
    if latest.Err? {
      uow.CommitThenExit();
      return Err(Unbound("new_doc")), listed;
    }
    r := AddThenCommit(uow, Versioned(c, latest.value));
  }

  // ---------------------------------------------------------------------------
  // add_document_comments

  /**
   * The comments the tests' fake unit of work holds after one `add` per
   * record, in order: a record that does not construct a Comment raises, is
   * caught, and the fake rollback leaves the comments as they were.
   */
  function FakeComments(db: Db, cs: seq<CommentDict>): Db
  {
    if cs == [] then db
    else
      var before := FakeComments(db, cs[..|cs| - 1]);
      if FakeBuild(before, CommentKind, cs[|cs| - 1]).Ok? then Insert(before, CommentKind, cs[|cs| - 1]) else before
  }

  /** Records without `last_modified_at`, as DocumentCreated events carry them, are all refused: nothing is stored. */
  lemma {:induction false} FakeCommentsWithoutAudit(db: Db, cs: seq<CommentDict>)
    requires forall i :: 0 <= i < |cs| ==> LastModifiedAt !in cs[i]
    ensures FakeComments(db, cs) == db
  {
    if cs != [] {
      FakeCommentsWithoutAudit(db, cs[..|cs| - 1]);
      FakeBuildSpec(db, CommentKind, cs[|cs| - 1]);
    }
  }

  /** Records that each construct a Comment are all stored, in order, as the SQL repository stores them. */
  lemma {:induction false} FakeCommentsComplete(db: Db, cs: seq<CommentDict>)
    requires forall i :: 0 <= i < |cs| ==> Buildable(CommentKind, cs[i])
    ensures FakeComments(db, cs) == InsertAll(db, CommentKind, cs)
  {
    if cs != [] {
      FakeCommentsComplete(db, cs[..|cs| - 1]);
      FakeBuildSpec(FakeComments(db, cs[..|cs| - 1]), CommentKind, cs[|cs| - 1]);
    }
  }

  /**
   * The loop of `add_document_comments`: each comment is added, a failed add
   * is rolled back, and the `finally` commits. The corrected SQL `add` stores
   * every record; the tests' fake `add` only those that construct a Comment.
   */
  method StoreComments(uow: UnitOfWork, cs: seq<CommentDict>)
    requires uow.Valid() && !uow.legacy && uow.Stored() == uow.session.working
    modifies uow`committed, uow.database, uow.session, uow.comments
    ensures uow.Valid() && uow.Stored() == uow.session.working
    ensures !uow.fake ==> uow.session.working == InsertAll(old(uow.session.working), CommentKind, cs)
    ensures uow.fake ==> uow.session.working == FakeComments(old(uow.session.working), cs)
    ensures uow.fake && cs != [] ==> uow.committed
  {
    var i := 0;
    while i < |cs|
      invariant 0 <= i <= |cs|
      invariant uow.Valid() && uow.Stored() == uow.session.working
      invariant !uow.fake ==> uow.session.working == InsertAll(old(uow.session.working), CommentKind, cs[..i])
      invariant uow.fake ==> uow.session.working == FakeComments(old(uow.session.working), cs[..i])
      invariant uow.fake && i > 0 ==> uow.committed
    {
      StoreComment(uow, cs[i]);
      assert cs[..i + 1][..i] == cs[..i];
      i := i + 1;
    }
    assert cs[..i] == cs;
  }

  /** One iteration of that loop: the `add`, the rollback when it raised, and the `finally` commit. */
  method StoreComment(uow: UnitOfWork, record: CommentDict)
    requires uow.Valid() && !uow.legacy && uow.Stored() == uow.session.working
    modifies uow`committed, uow.database, uow.session, uow.comments
    ensures uow.Valid() && uow.Stored() == uow.session.working
    ensures !uow.fake ==> uow.session.working == Insert(old(uow.session.working), CommentKind, record)
    ensures uow.fake ==>
      && uow.committed
      && uow.session.working ==
           if FakeBuild(old(uow.session.working), CommentKind, record).Ok?
           then Insert(old(uow.session.working), CommentKind, record)
           else old(uow.session.working)
  {
    if !uow.fake {
      assert !uow.comments.InMemory();
      var added := uow.comments.Add(record);
      uow.Commit();
      return;
    }
    assert uow.comments.InMemory();
    var added := uow.comments.Add(record);
    if added.Err? {
      uow.Rollback();
    }
    uow.Commit();
  }

  /**
   * `add_document_comments(event, uow)`: one comment row per record the event
   * carries, in order, each committed as it is added (on the tests' fake unit
   * of work, one per record that constructs a Comment); an event without a
   * comment list raises TypeError when it is iterated, and the scope rolls
   * back, so nothing is stored.
   */
  method AddDocumentComments(uow: UnitOfWork, e: Event) returns (failure: Option<Fault>)
    requires uow.Valid() && !uow.legacy && e.DocumentCreated?
    modifies uow`session, uow`documents, uow`comments, uow`rawTopics, uow`rawEntities, uow`entities, uow`entered
    modifies uow`committed, uow.database, uow.session, uow.comments
    ensures uow.Valid()
    ensures e.comments.None? ==> failure == Some(NoneHasNo("__iter__")) && uow.Stored() == old(uow.Stored())
    ensures e.comments.Some? && !uow.fake ==>
      && failure.None?
      && uow.Stored() == InsertAll(old(uow.Stored()), CommentKind, e.comments.value)
      && |uow.Stored().comments| == |old(uow.Stored()).comments| + |e.comments.value|
    ensures e.comments.Some? && uow.fake ==>
      && failure.None?
      && uow.Stored() == FakeComments(old(uow.Stored()), e.comments.value)
      && (e.comments.value != [] ==> uow.committed)
  {
    uow.Enter();
    if e.comments.None? {
      uow.Exit();
      return Some(NoneHasNo("__iter__"));
    }
    ghost var db0 := uow.session.working;
    StoreComments(uow, e.comments.value);
    uow.Exit();
    if !uow.fake {
      InsertAllAddsOnePerEntry(db0, CommentKind, e.comments.value);
    }
    failure := None;
  }

  // ---------------------------------------------------------------------------
  // get_document_topics_entities_and_summary

  /** An entity, topic or subtopic of the analysis: its name, description and prevalence. */
  datatype Mention = Mention(name: string, description: string, prevalence: Value)

  /** A topic of the analysis with its subtopics (an absent or empty list alike: none). */
  datatype AnalysedTopic = AnalysedTopic(topic: Mention, subtopics: seq<Mention>)

  /** The `document_analysis` part of the analysis connector's response. */
  datatype Analysis = Analysis(entities: seq<Mention>, topics: seq<AnalysedTopic>, summary: string)

  /** The dict handed to `raw_entities.add` for one entity of document `docId`. */
  function RawEntityRow(docId: int, m: Mention): Row
  {
    map[DocumentId := Number(docId), EntityName := Str(m.name), EntityDescription := Str(m.description),
        EntityPrevalence := m.prevalence]
  }

  /** The dict handed to `raw_topics.add` for one topic or subtopic of document `docId`. */
  function RawTopicRow(docId: int, m: Mention): Row
  {
    map[DocumentId := Number(docId), TopicName := Str(m.name), TopicDescription := Str(m.description),
        TopicPrevalence := m.prevalence]
  }

  /** The raw entity rows, one per entity, in order. */
  function RawEntityRows(docId: int, ms: seq<Mention>): seq<Row>
  {
    if ms == [] then [] else RawEntityRows(docId, ms[..|ms| - 1]) + [RawEntityRow(docId, ms[|ms| - 1])]
  }

  /** The raw topic rows of one topic: the topic's, then one per subtopic, in order. */
  function TopicGroup(docId: int, t: AnalysedTopic): seq<Row>
  {
    [RawTopicRow(docId, t.topic)] + SubtopicRows(docId, t.subtopics)
  }

  function SubtopicRows(docId: int, ms: seq<Mention>): seq<Row>
  {
    if ms == [] then [] else SubtopicRows(docId, ms[..|ms| - 1]) + [RawTopicRow(docId, ms[|ms| - 1])]
  }

  /** The raw topic rows of every topic, group after group. */
  function RawTopicRows(docId: int, ts: seq<AnalysedTopic>): seq<Row>
  {
    if ts == [] then [] else RawTopicRows(docId, ts[..|ts| - 1]) + TopicGroup(docId, ts[|ts| - 1])
  }

  /** How many subtopics the topics hold altogether. */
  function SubtopicCount(ts: seq<AnalysedTopic>): nat
  {
    if ts == [] then 0 else SubtopicCount(ts[..|ts| - 1]) + |ts[|ts| - 1].subtopics|
  }

  /** The rows of a list of mentions: one per mention, each of this document and carrying the mention. */
  lemma {:induction false} RawEntityRowsSpec(docId: int, ms: seq<Mention>)
    ensures |RawEntityRows(docId, ms)| == |ms|
    ensures forall i :: 0 <= i < |ms| ==> RawEntityRows(docId, ms)[i] == RawEntityRow(docId, ms[i])
  {
    if ms != [] {
      RawEntityRowsSpec(docId, ms[..|ms| - 1]);
    }
  }

  lemma {:induction false} SubtopicRowsSpec(docId: int, ms: seq<Mention>)
    ensures |SubtopicRows(docId, ms)| == |ms|
    ensures forall i :: 0 <= i < |ms| ==> SubtopicRows(docId, ms)[i] == RawTopicRow(docId, ms[i])
  {
    if ms != [] {
      SubtopicRowsSpec(docId, ms[..|ms| - 1]);
    }
  }

  /**
   * One raw topic row per topic and one per subtopic, every one of them
   * belonging to the analysed document.
   */
  lemma {:induction false} RawTopicRowsSpec(docId: int, ts: seq<AnalysedTopic>)
    ensures |RawTopicRows(docId, ts)| == |ts| + SubtopicCount(ts)
    ensures forall r :: r in RawTopicRows(docId, ts) ==> DocumentId in r && r[DocumentId] == Number(docId)
  {
    if ts != [] {
      RawTopicRowsSpec(docId, ts[..|ts| - 1]);
      SubtopicRowsSpec(docId, ts[|ts| - 1].subtopics);
      assert forall r :: r in TopicGroup(docId, ts[|ts| - 1]) ==> DocumentId in r && r[DocumentId] == Number(docId);
    }
  }

  /**
   * `raw_entities.add` or `raw_topics.add` once per row, in order (the
   * corrected `add`: see the as-written RawEntity `_add` below).
   */
  method AddRows(repo: Repository, rows: seq<Row>)
    requires !repo.legacy && (repo.kind == RawEntityKind || repo.kind == RawTopicKind)
    modifies repo, repo.session
    ensures repo.session.working == InsertAll(old(repo.session.working), repo.kind, rows)
    ensures forall a :: a in old(repo.seen) ==> a in repo.seen
    ensures forall a :: a in repo.seen ==> a in old(repo.seen) || a.kind == repo.kind
  {
    var i := 0;
    while i < |rows|
      invariant 0 <= i <= |rows|
      invariant repo.session.working == InsertAll(old(repo.session.working), repo.kind, rows[..i])
      invariant forall a :: a in old(repo.seen) ==> a in repo.seen
      invariant forall a :: a in repo.seen ==> a in old(repo.seen) || a.kind == repo.kind
    {
      var added := repo.Add(rows[i]);
      assert rows[..i + 1][..i] == rows[..i];
      i := i + 1;
    }
    assert rows[..i] == rows;
  }

  /** One topic: `raw_topics.add` for the topic, then, when it has subtopics, for each of them. */
  method AddTopic(repo: Repository, docId: int, t: AnalysedTopic)
    requires !repo.legacy && repo.kind == RawTopicKind
    modifies repo, repo.session
    ensures repo.session.working == InsertAll(old(repo.session.working), RawTopicKind, TopicGroup(docId, t))
    ensures forall a :: a in old(repo.seen) ==> a in repo.seen
    ensures forall a :: a in repo.seen ==> a in old(repo.seen) || a.kind == repo.kind
  {
    AddRows(repo, [RawTopicRow(docId, t.topic)]);
    if t.subtopics != [] {
      AddRows(repo, SubtopicRows(docId, t.subtopics));
    }
    InsertAllAppend(old(repo.session.working), RawTopicKind, [RawTopicRow(docId, t.topic)], SubtopicRows(docId, t.subtopics));
  }

  /** The two loops of the fan-out: the rows of the analysed document, as flushed (not yet committed). */
  function Analysed(db: Db, docId: int, a: Analysis): (r: Db)
    ensures r.documents == db.documents
  {
    var mid := InsertAll(db, RawEntityKind, RawEntityRows(docId, a.entities));
    InsertAllAddsOnePerEntry(db, RawEntityKind, RawEntityRows(docId, a.entities));
    InsertAllAddsOnePerEntry(mid, RawTopicKind, RawTopicRows(docId, a.topics));
    assert Table(mid, DocumentKind) == Table(db, DocumentKind);
    InsertAll(mid, RawTopicKind, RawTopicRows(docId, a.topics))
  }

  /**
   * The loops of `get_document_topics_entities_and_summary`: a raw entity per
   * entity, then for each topic a raw topic and a raw topic per subtopic. The
   * tests' fake unit of work has neither `raw_entities` nor `raw_topics`, so
   * there the first iteration raises AttributeError.
   */
  method FanOut(uow: UnitOfWork, docId: int, a: Analysis) returns (failure: Option<Fault>)
    requires uow.Valid() && !uow.legacy
    modifies uow.rawEntities, uow.rawTopics, uow.session
    ensures uow.Valid()
    ensures !uow.fake ==> failure.None? && uow.session.working == Analysed(old(uow.session.working), docId, a)
    ensures uow.fake ==>
      && uow.session.working == old(uow.session.working)
      && failure == if a.entities != [] then Some(NoAttribute("raw_entities"))
                    else if a.topics != [] then Some(NoAttribute("raw_topics"))
                    else None
  {
    if uow.fake {
      if a.entities != [] {
        return Some(NoAttribute("raw_entities"));
      }
      return if a.topics != [] then Some(NoAttribute("raw_topics")) else None;
    }
    assert uow.documents != uow.rawEntities && uow.documents != uow.rawTopics;
    assert uow.comments != uow.rawEntities && uow.comments != uow.rawTopics;
    failure := None;
    AddRows(uow.rawEntities, RawEntityRows(docId, a.entities));
    AddTopics(uow.rawTopics, docId, a.topics);
  }

  /** The topic loop of the fan-out: every topic's group of rows, in order. */
  method AddTopics(repo: Repository, docId: int, topics: seq<AnalysedTopic>)
    requires !repo.legacy && repo.kind == RawTopicKind
    modifies repo, repo.session
    ensures repo.session.working == InsertAll(old(repo.session.working), RawTopicKind, RawTopicRows(docId, topics))
  {
    ghost var before := repo.session.working;
    var i := 0;
    while i < |topics|
      invariant 0 <= i <= |topics|
      invariant repo.session.working == InsertAll(before, RawTopicKind, RawTopicRows(docId, topics[..i]))
    {
      AddTopic(repo, docId, topics[i]);
      InsertAllAppend(before, RawTopicKind, RawTopicRows(docId, topics[..i]), TopicGroup(docId, topics[i]));
      assert topics[..i + 1][..i] == topics[..i];
      i := i + 1;
    }
    assert topics[..i] == topics;
  }

  /** The field the handlers pass to `update` only so that the object's new event is collected; no model declares it. */
  const Placeholder: Field := Other("no ORM field to update, just adding an event to the uow...")

  /**
   * The two updates of the analysed document: `update(doc, ["summary"])`
   * after the summary is set, then `update(doc, [placeholder])` after the
   * DocumentProcessed event is appended.
   */
  function Summarised(db: Db, docId: int, summary: string): Db
    requires docId in db.documents && VersionOf(db.documents[docId]).Some?
  {
    var original := db.documents[docId];
    var revised := original[Summary := Str(summary)][Version := Number(Ver(original) + 1)];
    var first := Updated(db, DocumentKind, docId, revised, {Summary});
    Updated(first, DocumentKind, docId, revised[Version := Number(Ver(first.documents[docId]) + 1)], {Placeholder})
  }

  /**
   * Recording the summary changes the stored document's summary and nothing
   * else (its stored version stays, since "version" is not among the fields
   * named), leaves every other row alone, and logs two changes whose revised
   * snapshot carries the stored version plus one.
   */
  lemma SummarisedSpec(db: Db, docId: int, summary: string)
    requires docId in db.documents && VersionOf(db.documents[docId]).Some?
    requires db.documents[docId].Keys <= Declared(DocumentKind)
    ensures var original := db.documents[docId];
      var revised := original[Summary := Str(summary)][Version := Number(Ver(original) + 1)];
      && Summarised(db, docId, summary).documents == db.documents[docId := original[Summary := Str(summary)]]
      && Summarised(db, docId, summary).changelog == db.changelog +
           [Change("Document", docId, original, revised), Change("Document", docId, original[Summary := Str(summary)], revised)]
      && VersionOf(revised) == Some(Ver(original) + 1)
    ensures forall k :: k != DocumentKind ==> Table(Summarised(db, docId, summary), k) == Table(db, k)
    ensures Summarised(db, docId, summary).entityRawEntities == db.entityRawEntities
    ensures Summarised(db, docId, summary).documentEntities == db.documentEntities
  {
    var original := db.documents[docId];
    var summarised := original[Summary := Str(summary)];
    var revised := summarised[Version := Number(Ver(original) + 1)];
    OverwriteOne(original, revised, Summary);
    var first := Updated(db, DocumentKind, docId, revised, {Summary});
    UpdatedSpec(db, DocumentKind, docId, revised, {Summary});
    assert first.documents[docId] == summarised;
    SummaryKeepsVersion(original, summary);
    assert Placeholder !in revised by {
      UndeclaredOther(DocumentKind, Placeholder.name);
    }
    OverwriteOne(summarised, revised, Placeholder);
    var second := Updated(first, DocumentKind, docId, revised, {Placeholder});
    UpdatedSpec(first, DocumentKind, docId, revised, {Placeholder});
    assert second.documents == db.documents[docId := summarised];
    assert second.changelog == db.changelog +
      [Change("Document", docId, original, revised), Change("Document", docId, summarised, revised)];
    assert revised[Version := Number(Ver(first.documents[docId]) + 1)] == revised;
    assert Summarised(db, docId, summary) == second;
  }

  /** Setting the summary leaves the version as it was, and the revised object one above it. */
  lemma SummaryKeepsVersion(original: Row, summary: string)
    requires VersionOf(original).Some?
    ensures Ver(original[Summary := Str(summary)]) == Ver(original)
    ensures VersionOf(original[Summary := Str(summary)][Version := Number(Ver(original) + 1)]) == Some(Ver(original) + 1)
  {
    assert original[Summary := Str(summary)][Version] == original[Version];
  }

  /**
   * One `update(doc, fields)` of a stored document: the object's version
   * becomes the stored one plus one and the named fields are written, unless
   * the stored version is not an integer, which raises before anything changes.
   * The tests' fake Document repository has no `_update`: it raises once the
   * version is bumped.
   */
  method UpdateDocument(repo: Repository, doc: Aggregate, docId: int, fields: set<Field>) returns (failure: Option<Fault>)
    requires !repo.legacy && repo.kind == DocumentKind && doc.kind == DocumentKind
    requires IntField(doc.fields, Id) == Some(docId) && docId in repo.session.working.documents
    modifies repo, repo.session, repo.session.database, doc
    ensures doc.events == old(doc.events)
    ensures VersionOf(old(repo.session.working.documents[docId])).None? ==>
      && failure == Some(NoneHasNo("version")) && doc.fields == old(doc.fields) && repo.seen == old(repo.seen)
      && repo.session.working == old(repo.session.working)
      && repo.session.database.state == old(repo.session.database.state)
    ensures VersionOf(old(repo.session.working.documents[docId])).Some? ==>
      doc.fields == old(doc.fields)[Version := Number(Ver(old(repo.session.working.documents[docId])) + 1)]
    ensures VersionOf(old(repo.session.working.documents[docId])).Some? && !repo.InMemory() ==>
      && failure.None? && repo.seen == old(repo.seen) + {doc}
      && repo.session.working == Updated(old(repo.session.working), DocumentKind, docId, doc.fields, fields)
    ensures VersionOf(old(repo.session.working.documents[docId])).Some? && repo.InMemory() ==>
      && failure == Some(Unsupported(DocumentKind)) && repo.seen == old(repo.seen)
      && repo.session.working == old(repo.session.working)
      && repo.session.database.state == old(repo.session.database.state)
  {
    failure := repo.Update(doc, fields);
  }

  /**
   * `doc.summary = ...; update(doc, ["summary"])`, then
   * `doc.events.append(DocumentProcessed(doc.id)); update(doc, [placeholder])`.
   * A stored version that is not an integer makes the first update raise
   * before it writes anything; so does the fake repository's missing `_update`.
   */
  method RecordSummary(repo: Repository, doc: Aggregate, docId: int, summary: string) returns (failure: Option<Fault>)
    requires !repo.legacy && repo.kind == DocumentKind && doc.kind == DocumentKind
    requires docId in repo.session.working.documents && doc.fields == repo.session.working.documents[docId]
    requires IntField(doc.fields, Id) == Some(docId)
    modifies doc, repo, repo.session, repo.session.database
    ensures repo.seen <= old(repo.seen) + {doc}
    ensures VersionOf(old(repo.session.working.documents[docId])).None? ==>
      && failure == Some(NoneHasNo("version"))
      && repo.session.working == old(repo.session.working)
      && repo.session.database.state == old(repo.session.database.state)
    ensures VersionOf(old(repo.session.working.documents[docId])).Some? && !repo.InMemory() ==>
      && failure.None?
      && repo.session.working == Summarised(old(repo.session.working), docId, summary)
      && doc.events == old(doc.events) + [DocumentProcessed(docId)] && doc in repo.seen
    ensures VersionOf(old(repo.session.working.documents[docId])).Some? && repo.InMemory() ==>
      && failure == Some(Unsupported(DocumentKind))
      && repo.session.working == old(repo.session.working)
      && repo.session.database.state == old(repo.session.database.state)
  {
    ghost var db := repo.session.working;
    doc.fields := doc.fields[Summary := Str(summary)];
    failure := UpdateDocument(repo, doc, docId, {Summary});
    if failure.Some? {
      return;
    }
    assert !repo.InMemory() && VersionOf(db.documents[docId]).Some?;
    ghost var original := db.documents[docId];
    ghost var revised := doc.fields;
    assert revised == original[Summary := Str(summary)][Version := Number(Ver(original) + 1)];
    ghost var first := Updated(db, DocumentKind, docId, revised, {Summary});
    OverwriteOne(original, revised, Summary);
    UpdatedSpec(db, DocumentKind, docId, revised, {Summary});
    SummaryKeepsVersion(original, summary);
    assert VersionOf(first.documents[docId]).Some? && Ver(first.documents[docId]) == Ver(original);
    doc.events := doc.events + [DocumentProcessed(docId)];
    failure := UpdateDocument(repo, doc, docId, {Placeholder});
    assert doc.fields == revised;
  }

  /**
   * What the `try` raises on the tests' fake unit of work, once the document
   * and the analysis are in hand: the missing raw repositories first, then the
   * update (a version that is not an integer, else the missing `_update`).
   */
  function FakeAnalysisFailure(doc: Row, a: Analysis): Fault
  {
    if a.entities != [] then NoAttribute("raw_entities")
    else if a.topics != [] then NoAttribute("raw_topics")
    else if VersionOf(doc).None? then NoneHasNo("version")
    else Unsupported(DocumentKind)
  }

  /**
   * The body of the `try` once the document and the analysis are in hand:
   * the raw rows are added, then the summary recorded.
   */
  method AnalyseAndRecord(uow: UnitOfWork, doc: Aggregate, docId: int, a: Analysis) returns (failure: Option<Fault>)
    requires uow.Valid() && !uow.legacy && doc.kind == DocumentKind
    requires docId in uow.session.working.documents && doc.fields == uow.session.working.documents[docId]
    requires IntField(doc.fields, Id) == Some(docId)
    modifies doc, uow.documents, uow.rawEntities, uow.rawTopics, uow.session, uow.database
    ensures uow.Valid()
    ensures uow.fake ==>
      && failure == Some(FakeAnalysisFailure(old(uow.session.working.documents[docId]), a))
      && uow.session.working == old(uow.session.working) && uow.database.state == old(uow.database.state)
    ensures !uow.fake ==>
      var analysed := Analysed(old(uow.session.working), docId, a);
      if VersionOf(old(uow.session.working.documents[docId])).None? then
        && failure == Some(NoneHasNo("version"))
        && uow.session.working == analysed && uow.database.state == old(uow.database.state)
      else
        && failure.None?
        && uow.session.working == Summarised(analysed, docId, a.summary)
        && doc.events == old(doc.events) + [DocumentProcessed(docId)] && doc in uow.documents.seen
  {
    ghost var db := uow.session.working;
    failure := FanOut(uow, docId, a);
    if failure.Some? {
      return;
    }
    assert uow.session.working.documents == db.documents;
    failure := RecordSummary(uow.documents, doc, docId, a.summary);
  }

  /** `AnalyseAndRecord`, then the end of the scope: roll back what was caught, commit, leave. */
  method AnalyseRecordFinish(uow: UnitOfWork, doc: Aggregate, docId: int, a: Analysis) returns (caught: Option<Fault>)
    requires uow.Valid() && !uow.legacy && doc.kind == DocumentKind && uow.Stored() == uow.session.working
    requires docId in uow.session.working.documents && doc.fields == uow.session.working.documents[docId]
    requires IntField(doc.fields, Id) == Some(docId)
    modifies doc, uow`committed, uow.documents, uow.rawEntities, uow.rawTopics, uow.session, uow.database
    ensures uow.Valid() && (uow.fake ==> uow.committed)
    ensures uow.fake ==>
      caught == Some(FakeAnalysisFailure(old(uow.session.working).documents[docId], a)) && uow.Stored() == old(uow.Stored())
    ensures !uow.fake ==>
      var db := old(uow.session.working);
      if VersionOf(db.documents[docId]).None? then
        && caught == Some(NoneHasNo("version")) && uow.Stored() == db
      else
        && caught.None?
        && uow.Stored() == Summarised(Analysed(db, docId, a), docId, a.summary)
        && doc.events == old(doc.events) + [DocumentProcessed(docId)] && doc in uow.documents.seen
  {
    caught := AnalyseAndRecord(uow, doc, docId, a);
    uow.Finish(caught.Some?);
  }

  /**
   * `get_document_topics_entities_and_summary`: the created document is
   * fetched and its text handed to the analysis connector (`analyze`, which
   * yields None when it raises or its response lacks a key); the raw entities,
   * raw topics and summary are written; any exception is caught and rolled
   * back, and the scope always commits. On the tests' fake unit of work a
   * missing document is None, whose `.text` raises, and whatever the analysis
   * holds the `try` raises before anything is written.
   */
  method GetDocumentTopicsEntitiesAndSummary(uow: UnitOfWork, e: Event, analyze: Value -> Option<Analysis>)
    returns (caught: Option<Fault>)
    requires uow.Valid() && !uow.legacy && e.DocumentCreated? && WellFormed(uow.Stored())
    modifies uow`session, uow`documents, uow`comments, uow`rawTopics, uow`rawEntities, uow`entities, uow`entered
    modifies uow`committed, uow.database, uow.session, uow.documents, uow.rawEntities, uow.rawTopics
    ensures uow.Valid() && (uow.fake ==> uow.committed)
    ensures uow.fake ==> caught.Some? && uow.Stored() == old(uow.Stored())
    ensures var db := old(uow.Stored());
      if e.documentId !in db.documents then
        && caught == Some(if uow.fake then NoneHasNo("text") else NoResult(DocumentKind, e.documentId))
        && uow.Stored() == db
      else if analyze(FieldOr(db.documents[e.documentId], Text)).None? then
        caught == Some(BadResponse) && uow.Stored() == db
      else
        var a := analyze(FieldOr(db.documents[e.documentId], Text)).value;
        if uow.fake then
          caught == Some(FakeAnalysisFailure(db.documents[e.documentId], a))
        else if VersionOf(db.documents[e.documentId]).None? then
          caught == Some(NoneHasNo("version")) && uow.Stored() == db
        else
          && caught.None?
          && uow.Stored() == Summarised(Analysed(db, e.documentId, a), e.documentId, a.summary)
          && exists d :: d in uow.documents.seen && d.events == [DocumentProcessed(e.documentId)]
  {
    uow.Enter();
    var got := uow.documents.Get(e.documentId);
    if got.Err? || got.value.None? {
      caught := Some(if got.Err? then got.error else NoneHasNo("text"));
      uow.Finish(true);
      return;
    }
    var doc := got.value.value;
    var analysis := analyze(FieldOr(doc.fields, Text));
    if analysis.None? {
      caught := Some(BadResponse);
      uow.Finish(true);
      return;
    }
    caught := AnalyseRecordFinish(uow, doc, e.documentId, analysis.value);
  }
}
