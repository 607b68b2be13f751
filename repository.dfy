/**
 * The repositories of core/adapters/repository.py and of the older
 * src/core/adapters/repository.py: `add`, `get` and `list` hand out model
 * objects and remember them in `seen`; `update` bumps the version, copies the
 * named fields onto the stored row and logs the change; the entity repository
 * also writes the link tables. Also the in-memory Document and Comment
 * repositories of tests/unit/test_handlers.py, and the SQL `_add`s as written.
 */
module Repository {
  import opened Wrappers
  import opened Messages
  import opened Domain
  import opened Store

  /** The classes whose repository defines `_update`. */
  predicate HasUpdate(k: Kind)
  {
    k == DocumentKind || k == TopicKind || k == EntityKind || k == StakeholderKind
  }

  /** The classes whose repository defines `delete`. */
  predicate HasDelete(k: Kind)
  {
    k == TopicKind || k == StakeholderKind
  }

  /**
   * What `_get(reference)` yields: the stored row; for an Entity, None when
   * there is none (`.first()`); for the other classes NoResultFound (`.one()`).
   */
  function Lookup(db: Db, k: Kind, id: int): (r: Result<Option<Row>, Fault>)
    ensures r.Ok? && r.value.Some? <==> id in Table(db, k)
    ensures r.Ok? && r.value.Some? ==> r.value.value == Table(db, k)[id]
    ensures r.Ok? && r.value.None? <==> id !in Table(db, k) && k == EntityKind
    ensures r.Err? <==> id !in Table(db, k) && k != EntityKind
  {
    if id in Table(db, k) then Ok(Some(Table(db, k)[id]))
    else if k == EntityKind then Ok(None)
    else Err(NoResult(k, id))
  }

  /** The attributes `asdict(cmd)` hands the document table, `doc_comments` removed. */
  function DocumentAttrs(c: Command): Row
    requires c.CreateDocument?
  {
    map[CreatedAt := Time(c.audit.createdAt), LastModifiedAt := Time(c.audit.lastModifiedAt),
        CreatedBy := Str(c.audit.createdBy), LastModifiedBy := Str(c.audit.lastModifiedBy),
        Filepath := Str(c.filepath), Filename := Str(c.filename), Text := Str(c.text),
        ProcessedAt := Time(c.processedAt), Revision := OptNumber(c.revision),
        Filetype := OptStr(c.filetype), VersionComment := OptStr(c.versionComment),
        HtmlText := OptStr(c.htmlText), Version := OptNumber(c.version),
        PreviousVersionId := OptNumber(c.previousVersionId)]
  }

  function OptNumber(n: Option<int>): Value
  {
    if n.Some? then Number(n.value) else Null
  }

  function OptStr(s: Option<string>): Value
  {
    if s.Some? then Str(s.value) else Null
  }

  /** The keys the src Comment `_add` reads from its record, in the order it reads them. */
  const LegacyCommentKeys: seq<Field> := [DocumentId, ReferenceText, CommentText, CommentDate, Author]

  /** The first key of `keys` the record lacks, if any. */
  function FirstMissing(keys: seq<Field>, attrs: Row): (r: Option<Field>)
    ensures r.None? <==> forall i :: 0 <= i < |keys| ==> keys[i] in attrs
    ensures r.Some? ==> r.value in keys && r.value !in attrs
  {
    if keys == [] then None
    else if keys[0] !in attrs then Some(keys[0])
    else FirstMissing(keys[1..], attrs)
  }

  /** The attributes the src Comment `_add` passes on: exactly its five keys. */
  function LegacyCommentAttrs(attrs: Row): Row
  {
    map f | f in attrs && f in LegacyCommentKeys :: attrs[f]
  }

  /** The rows an Aggregate of class k with this id lists as linked after `_list`. */
  function Linked(db: Db, k: Kind, id: int): seq<Row>
  {
    if k == DocumentKind then EntitiesOf(db, id)
    else if k == EntityKind then DocumentsOf(db, id)
    else []
  }

  /** The links of EntitiesRawEntities whose entity is `entityId`, in insertion order. */
  function LinksFrom(links: seq<Link>, entityId: int): (r: seq<Link>)
    ensures forall l :: l in r <==> l in links && l.left == entityId
  {
    if links == [] then []
    else (if links[0].left == entityId then [links[0]] else []) + LinksFrom(links[1..], entityId)
  }

  /** `get_raw_entities(reference)`: the entity's raw-entity links, or None when there is no such entity. */
  function RawEntityLinks(db: Db, entityId: int): (r: Option<seq<Link>>)
    ensures r.Some? <==> entityId in db.entities
    ensures r.Some? ==> forall l :: l in r.value <==> l in db.entityRawEntities && l.left == entityId
  {
    if entityId in db.entities then Some(LinksFrom(db.entityRawEntities, entityId)) else None
  }

  /** One object of `_list`: the stored row, with its linked rows for a Document or an Entity. */
  method Load(db: Db, k: Kind, id: int) returns (obj: Aggregate)
    requires id in Table(db, k)
    ensures fresh(obj) && obj.kind == k && obj.fields == Table(db, k)[id] && obj.events == []
    ensures obj.linked == Linked(db, k, id)
  {
    obj := new Aggregate(k, Table(db, k)[id]);
    if k == DocumentKind {
      obj.linked := Join(db.documentEntities, id, false, db.entities);
    } else if k == EntityKind {
      obj.linked := Join(db.documentEntities, id, true, db.documents);
    }
  }

  /** The objects a list holds. */
  function Members(objs: seq<Aggregate>): set<Aggregate>
  {
    set a | a in objs
  }

  /**
   * What a successful `update` leaves in the session: the stored row with the
   * named fields of the revised object copied onto it, and one changelog row
   * holding the stored original and the revised object.
   */
  function Updated(db: Db, k: Kind, id: int, revised: Row, fields: set<Field>): Db
    requires id in Table(db, k)
  {
    Logged(WithTable(db, k, Table(db, k)[id := Overwrite(Table(db, k)[id], revised, fields)]),
           Change(ClassName(k), id, Table(db, k)[id], revised))
  }

  /** An update rewrites one row of its own table, and appends one change to the log; nothing else changes. */
  lemma UpdatedSpec(db: Db, k: Kind, id: int, revised: Row, fields: set<Field>)
    requires id in Table(db, k)
    ensures Table(Updated(db, k, id, revised, fields), k) == Table(db, k)[id := Overwrite(Table(db, k)[id], revised, fields)]
    ensures forall j :: j != k ==> Table(Updated(db, k, id, revised, fields), j) == Table(db, j)
    ensures Updated(db, k, id, revised, fields).entityRawEntities == db.entityRawEntities
    ensures Updated(db, k, id, revised, fields).documentEntities == db.documentEntities
    ensures Updated(db, k, id, revised, fields).changelog == db.changelog + [Change(ClassName(k), id, Table(db, k)[id], revised)]
  {
    var t := Table(db, k)[id := Overwrite(Table(db, k)[id], revised, fields)];
    forall j | j != k
      ensures Table(Updated(db, k, id, revised, fields), j) == Table(db, j)
    {
      WithTableOthers(db, k, t, j);
    }
  }

  /** The integer value of a version, if it holds one. */
  function VersionOf(r: Row): Option<int>
  {
    IntField(r, Version)
  }

  /**
   * The RawEntity `_add` as written: the row is flushed, then
   * `RawEntity.model_validate(**row)` hands the row's attributes as keyword
   * arguments to a method that takes the object positionally, which raises
   * TypeError. `Repository.Add` models the evidently intended `_add`, which
   * validates the flushed row and returns it.
   */
  function RawEntityAddAsWritten(db: Db, attrs: Row): (Db, Result<Row, Fault>)
  {
    (Insert(db, RawEntityKind, attrs), Err(BadCall("model_validate")))
  }

  /**
   * Whatever the record, even a complete one, the as-written add raises, and
   * it does so only after the row is flushed into the session.
   */
  lemma RawEntityAddAsWrittenRaises(db: Db, attrs: Row)
    requires Validates(RawEntityKind, attrs)
    ensures RawEntityAddAsWritten(db, attrs).1.Err?
    ensures |Table(RawEntityAddAsWritten(db, attrs).0, RawEntityKind)| == |Table(db, RawEntityKind)| + 1
  {
    InsertSpec(db, RawEntityKind, attrs);
  }

  /** The columns of the Documents table: every field model.Document declares except `processed_at`. */
  function DocumentColumns(): set<Field>
  {
    Declared(DocumentKind) - {ProcessedAt}
  }

  /**
   * The Document `_add` as written: `DocumentORM(**asdict(cmd))` receives every
   * attribute of the command, and the mapped class's constructor raises
   * TypeError for one the table has no column for, before anything reaches
   * the session. Only a command whose attributes are all columns would be
   * flushed and read back as a model.
   */
  function DocumentAddAsWritten(db: Db, c: Command): (Db, Result<Row, Fault>)
    requires c.CreateDocument?
  {
    if DocumentAttrs(c).Keys <= DocumentColumns() then
      (Insert(db, DocumentKind, DocumentAttrs(c)), Construct(DocumentKind, NewRow(db, DocumentKind, DocumentAttrs(c))))
    else (db, Err(BadCall("DocumentORM")))
  }

  /**
   * Every CreateDocument carries `processed_at`, which the Documents table
   * lacks, so the as-written Document `add` raises for every command and
   * stores nothing.
   */
  lemma DocumentAddAsWrittenRaises(db: Db, c: Command)
    requires c.CreateDocument?
    ensures DocumentAddAsWritten(db, c) == (db, Err(BadCall("DocumentORM")))
  {
    assert ProcessedAt in DocumentAttrs(c);
    assert ProcessedAt !in DocumentColumns();
  }

  /**
   * The `_add` of the Comment, RawTopic, RawEntity and Entity repositories as
   * written: the row is flushed, then the model is rebuilt from the flushed
   * row, whose columns the record did not set read back as None (for a
   * RawEntity, through the call RawEntityAddAsWritten describes).
   */
  function ChildAddAsWritten(db: Db, k: Kind, attrs: Row): (Db, Result<Row, Fault>)
    requires k != DocumentKind
  {
    if k == RawEntityKind then RawEntityAddAsWritten(db, attrs)
    else (Insert(db, k, attrs), Construct(k, NewRow(db, k, attrs)))
  }

  /**
   * A record without `last_modified_at` (which the table only fills on
   * update) flushes a row whose `last_modified_at` is None, and the model
   * rebuilt from it fails validation: the as-written add raises after the
   * flush, for every kind of record.
   */
  lemma ChildAddAsWrittenRaises(db: Db, k: Kind, attrs: Row)
    requires k != DocumentKind && LastModifiedAt !in attrs
    ensures ChildAddAsWritten(db, k, attrs).1.Err?
    ensures ChildAddAsWritten(db, k, attrs).0 == Insert(db, k, attrs)
  {
    if k != RawEntityKind {
      NewRowSpec(db, k, attrs);
      assert LastModifiedAt in Required(k);
      assert NewRow(db, k, attrs)[LastModifiedAt] == Null;
    }
  }

  // ---------------------------------------------------------------------------
  // The in-memory repositories of the handler tests

  /** The attributes the tests' fake Document `add` builds its document from: the command's, with an empty summary. */
  function FakeDocumentAttrs(c: Command): Row
    requires c.CreateDocument?
  {
    DocumentAttrs(c)[Summary := Str("")]
  }

  /**
   * The model the tests' fake `add` constructs, `Model(**attrs, id=...)`: an
   * `id` among the attributes is a keyword given twice, which raises
   * TypeError; otherwise pydantic validates the attributes with the new id.
   */
  function FakeBuild(db: Db, k: Kind, attrs: Row): (r: Result<Row, Fault>)
    ensures r.Ok? ==> r.value == NewRow(db, k, attrs)
  {
    if Id in attrs then Err(BadCall(ClassName(k)))
    else Construct(k, attrs[Id := Number(NextId(Table(db, k)))])
  }

  /**
   * Whether `Model(**attrs, id=...)` constructs: no `id` among the attributes,
   * every other required field given and not None, every required-nullable
   * field given.
   */
  predicate Buildable(k: Kind, attrs: Row)
  {
    Id !in attrs && Meets(Required(k) - {Id}, RequiredNullable(k), attrs)
  }

  /**
   * The fake `add` accepts a record exactly when it is buildable, whatever
   * is stored already; a record without audit fields is refused.
   */
  lemma FakeBuildSpec(db: Db, k: Kind, attrs: Row)
    ensures FakeBuild(db, k, attrs).Ok? <==> Buildable(k, attrs)
    ensures LastModifiedAt !in attrs ==> FakeBuild(db, k, attrs).Err?
  {
    assert LastModifiedAt in Required(k) && LastModifiedAt != Id;
    if Id !in attrs {
      WithIdValidates(k, attrs, NextId(Table(db, k)));
    }
  }

  /** Adding the id to a record without one validates exactly when the record is buildable. */
  lemma WithIdValidates(k: Kind, attrs: Row, id: int)
    requires Id !in attrs
    ensures Validates(k, attrs[Id := Number(id)]) <==> Buildable(k, attrs)
  {
    WithIdMeets(Required(k), RequiredNullable(k), attrs, Number(id));
  }

  /** Adding a non-null id to a record without one meets exactly the requirements the record meets on its other fields. */
  lemma WithIdMeets(required: set<Field>, nullable: set<Field>, attrs: Row, v: Value)
    requires Id in required && Id !in nullable && Id !in attrs && v != Null
    ensures Meets(required, nullable, attrs[Id := v]) <==> Meets(required - {Id}, nullable, attrs)
  {
  }

  /** The command supplies every field model.Document requires but the id and the summary, none of them None. */
  lemma DocumentAttrsFields(c: Command)
    requires c.CreateDocument?
    ensures var attrs := DocumentAttrs(c);
      && CreatedAt in attrs && attrs[CreatedAt] != Null
      && LastModifiedAt in attrs && attrs[LastModifiedAt] != Null
      && CreatedBy in attrs && attrs[CreatedBy] != Null
      && LastModifiedBy in attrs && attrs[LastModifiedBy] != Null
      && Filepath in attrs && attrs[Filepath] != Null
      && Filename in attrs && attrs[Filename] != Null
      && Text in attrs && attrs[Text] != Null
      && ProcessedAt in attrs && attrs[ProcessedAt] != Null
      && VersionComment in attrs
      && Id !in attrs
  {
  }

  /** Such attributes, given an id and a summary, construct a document. */
  lemma DocumentValidates(given: Row, id: int, summary: Value)
    requires CreatedAt in given && given[CreatedAt] != Null
    requires LastModifiedAt in given && given[LastModifiedAt] != Null
    requires CreatedBy in given && given[CreatedBy] != Null
    requires LastModifiedBy in given && given[LastModifiedBy] != Null
    requires Filepath in given && given[Filepath] != Null
    requires Filename in given && given[Filename] != Null
    requires Text in given && given[Text] != Null
    requires ProcessedAt in given && given[ProcessedAt] != Null
    requires VersionComment in given
    ensures Validates(DocumentKind, given[Summary := summary][Id := Number(id)])
  {
    assert Required(DocumentKind) == {CreatedAt, LastModifiedAt, CreatedBy, LastModifiedBy, Id, Filepath, Filename, Text, ProcessedAt};
  }

  /** Every CreateDocument builds a document in the fake `add`: the command supplies every field model.Document requires. */
  lemma FakeDocumentBuilds(db: Db, c: Command)
    requires c.CreateDocument?
    ensures FakeBuild(db, DocumentKind, FakeDocumentAttrs(c)).Ok?
  {
    var id := NextId(Table(db, DocumentKind));
    DocumentAttrsFields(c);
    DocumentValidates(DocumentAttrs(c), id, Str(""));
    assert Id !in FakeDocumentAttrs(c);
    assert FakeBuild(db, DocumentKind, FakeDocumentAttrs(c)) == Construct(DocumentKind, FakeDocumentAttrs(c)[Id := Number(id)]);
  }

  /** What the tests' fake `get(reference)` yields: the stored object of that id, or None. */
  function FakeLookup(db: Db, k: Kind, id: int): (r: Option<Row>)
    ensures r.Some? <==> id in Table(db, k)
    ensures r.Some? ==> r.value == Table(db, k)[id]
  {
    if id in Table(db, k) then Some(Table(db, k)[id]) else None
  }

  /**
   * A repository over one class's table. `legacy` marks the src repositories,
   * whose Comment `_add` reads exactly five keys, and whose `list` leaves
   * `seen` alone. `fake` marks a repository of the tests' fake unit of work,
   * which has in-memory repositories for documents and comments only.
   */
  class Repository {
    const kind: Kind
    const legacy: bool
    const fake: bool
    const session: Session
    var seen: set<Aggregate>

    constructor (kind: Kind, legacy: bool, fake: bool, session: Session)
      ensures this.kind == kind && this.legacy == legacy && this.fake == fake && this.session == session && seen == {}
    {
      this.kind := kind;
      this.legacy := legacy;
      this.fake := fake;
      this.session := session;
      seen := {};
    }

    /**
     * Whether this is FakeDocumentsRepository or FakeCommentsRepository: their
     * `add` and `get` bypass `seen`, `add` constructs the model before storing
     * it, `get` yields None for a missing id, and there is no `_update`.
     */
    predicate InMemory()
    {
      fake && !legacy && (kind == DocumentKind || kind == CommentKind)
    }

    /**
     * `add(attrs)` of every class but Document: the row is flushed under the
     * next id and the returned object is remembered in `seen`. The src Comment
     * `_add` first reads its five keys and raises on the first one missing.
     * The tests' fake Comment `add` constructs the comment first, and stores
     * it only when that succeeds; it leaves `seen` alone.
     */
    method Add(attrs: Row) returns (r: Result<Aggregate, Fault>)
      requires kind != DocumentKind
      modifies this, session
      ensures InMemory() ==>
        var built := FakeBuild(old(session.working), kind, attrs);
        && seen == old(seen)
        && (built.Err? ==> r == Err(built.error) && session.working == old(session.working))
        && (built.Ok? ==>
              && r.Ok? && fresh(r.value) && r.value.kind == kind && r.value.fields == built.value
              && r.value.events == [] && r.value.linked == []
              && session.working == Insert(old(session.working), kind, attrs))
      ensures !InMemory() && legacy && kind == CommentKind && FirstMissing(LegacyCommentKeys, attrs).Some? ==>
        && r == Err(MissingKey(FirstMissing(LegacyCommentKeys, attrs).value))
        && session.working == old(session.working) && seen == old(seen)
      ensures !InMemory() && !(legacy && kind == CommentKind && FirstMissing(LegacyCommentKeys, attrs).Some?) ==>
        var given := if legacy && kind == CommentKind then LegacyCommentAttrs(attrs) else attrs;
        && r.Ok? && fresh(r.value) && r.value.kind == kind
        && r.value.fields == NewRow(old(session.working), kind, given)
        && r.value.events == [] && r.value.linked == []
        && session.working == Insert(old(session.working), kind, given)
        && seen == old(seen) + {r.value}
    {
      if InMemory() {
        var built := FakeBuild(session.working, kind, attrs);
        if built.Err? {
          return Err(built.error);
        }
        session.Flush(Insert(session.working, kind, attrs));
        var comment := new Aggregate(kind, built.value);
        return Ok(comment);
      }
      var given := attrs;
      if legacy && kind == CommentKind {
        var missing := FirstMissing(LegacyCommentKeys, attrs);
        if missing.Some? {
          return Err(MissingKey(missing.value));
        }
        given := LegacyCommentAttrs(attrs);
      }
      var row := NewRow(session.working, kind, given);
      session.Flush(Insert(session.working, kind, given));
      var obj := new Aggregate(kind, row);
      seen := seen + {obj};
      r := Ok(obj);
    }

    /**
     * `add(cmd)` of the Document repository: the row is flushed, then the new
     * document composes its DocumentCreated event; a comment date that does
     * not parse raises before `seen` is touched. The src repository's
     * document composes with the src model, which keys each record "doc_id".
     */
    method AddDocument(c: Command) returns (r: Result<Aggregate, Fault>)
      requires kind == DocumentKind && c.CreateDocument?
      modifies this, session
      ensures InMemory() ==>
        var built := FakeBuild(old(session.working), DocumentKind, FakeDocumentAttrs(c));
        var composed := DocumentCreatedFor(NextId(old(session.working).documents), c.docComments, DocumentIdKey);
        && seen == old(seen)
        && (built.Err? ==> r == Err(built.error) && session.working == old(session.working))
        && (built.Ok? && composed.Err? ==> r == Err(composed.error) && session.working == old(session.working))
        && (built.Ok? && composed.Ok? ==>
              && r.Ok? && fresh(r.value) && r.value.kind == DocumentKind && r.value.fields == built.value
              && r.value.events == composed.value && r.value.linked == []
              && session.working == Insert(old(session.working), DocumentKind, FakeDocumentAttrs(c)))
      ensures !InMemory() ==> session.working == Insert(old(session.working), DocumentKind, DocumentAttrs(c))
      ensures !InMemory() ==>
        var key := if legacy then LegacyDocumentIdKey else DocumentIdKey;
        var composed := DocumentCreatedFor(NextId(old(session.working).documents), c.docComments, key);
        && (composed.Err? ==> r == Err(composed.error) && seen == old(seen))
        && (composed.Ok? ==>
              && r.Ok? && fresh(r.value) && r.value.kind == DocumentKind
              && r.value.fields == NewRow(old(session.working), DocumentKind, DocumentAttrs(c))
              && r.value.events == composed.value && r.value.linked == []
              && seen == old(seen) + {r.value})
    {
      if InMemory() {
        var built := FakeBuild(session.working, DocumentKind, FakeDocumentAttrs(c));
        if built.Err? {
          return Err(built.error);
        }
        NewRowId(session.working, DocumentKind, FakeDocumentAttrs(c));
        var doc := new Aggregate(DocumentKind, built.value);
        var failed := doc.ComposeDocumentCreated(c.docComments);
        if failed.Some? {
          return Err(failed.value);
        }
        session.Flush(Insert(session.working, DocumentKind, FakeDocumentAttrs(c)));
        return Ok(doc);
      }
      var attrs := DocumentAttrs(c);
      var row := NewRow(session.working, DocumentKind, attrs);
      NewRowId(session.working, DocumentKind, attrs);
      session.Flush(Insert(session.working, DocumentKind, attrs));
      var obj := new Aggregate(DocumentKind, row);
      var failure;
      if legacy {
        failure := obj.LegacyComposeDocumentCreated(c.docComments);
      } else {
        failure := obj.ComposeDocumentCreated(c.docComments);
      }
      if failure.Some? {
        return Err(failure.value);
      }
      seen := seen + {obj};
      r := Ok(obj);
    }

    /**
     * `get(reference)`: the stored object, remembered in `seen` only when one
     * was found. The tests' fake `get` yields the object or None, and leaves
     * `seen` alone.
     */
    method Get(id: int) returns (r: Result<Option<Aggregate>, Fault>)
      modifies this
      ensures InMemory() ==>
        var found := FakeLookup(session.working, kind, id);
        && seen == old(seen)
        && (found.None? ==> r == Ok(None))
        && (found.Some? ==>
              && r.Ok? && r.value.Some? && fresh(r.value.value)
              && r.value.value.kind == kind && r.value.value.fields == found.value
              && r.value.value.events == [] && r.value.value.linked == [])
      ensures !InMemory() ==>
        var found := Lookup(session.working, kind, id);
        && (found.Err? ==> r == Err(found.error) && seen == old(seen))
        && (found == Ok(None) ==> r == Ok(None) && seen == old(seen))
        && (found.Ok? && found.value.Some? ==>
              && r.Ok? && r.value.Some? && fresh(r.value.value)
              && r.value.value.kind == kind && r.value.value.fields == found.value.value
              && r.value.value.events == [] && r.value.value.linked == []
              && seen == old(seen) + {r.value.value})
    {
      if InMemory() {
        var stored := FakeLookup(session.working, kind, id);
        if stored.None? {
          return Ok(None);
        }
        var obj := new Aggregate(kind, stored.value);
        return Ok(Some(obj));
      }
      var found := Lookup(session.working, kind, id);
      if found.Err? {
        return Err(found.error);
      }
      if found.value.None? {
        return Ok(None);
      }
      var obj := new Aggregate(kind, found.value.value);
      seen := seen + {obj};
      r := Ok(Some(obj));
    }

    /**
     * `list()`: one new object per stored row, in no particular order, each
     * Document holding its linked entities and each Entity its linked
     * documents; all remembered in `seen`, except by the src repositories.
     */
    method List() returns (objs: seq<Aggregate>, ghost ids: seq<int>)
      modifies this
      ensures |objs| == |ids| == |Table(session.working, kind)|
      ensures forall id :: id in ids <==> id in Table(session.working, kind)
      ensures forall i, j :: 0 <= i < j < |ids| ==> ids[i] != ids[j] && objs[i] != objs[j]
      ensures forall i :: 0 <= i < |objs| ==>
        && ids[i] in Table(session.working, kind)
        && fresh(objs[i]) && objs[i].kind == kind && objs[i].events == []
        && objs[i].fields == Table(session.working, kind)[ids[i]]
        && objs[i].linked == Linked(session.working, kind, ids[i])
      ensures seen == if legacy then old(seen) else old(seen) + Members(objs)
    {
      var t := Table(session.working, kind);
      var keys := KeysOf(t);
      objs := [];
      var i := 0;
      while i < |keys|
        invariant 0 <= i <= |keys| && |objs| == i && seen == old(seen)
        invariant forall a, b :: 0 <= a < b < i ==> objs[a] != objs[b]
        invariant forall a :: 0 <= a < i ==>
          && keys[a] in t && fresh(objs[a]) && objs[a].kind == kind && objs[a].events == []
          && objs[a].fields == t[keys[a]] && objs[a].linked == Linked(session.working, kind, keys[a])
      {
        var obj := Load(session.working, kind, keys[i]);
        assert forall a :: 0 <= a < i ==> objs[a] != obj;
        objs := objs + [obj];
        i := i + 1;
      }
      ids := keys;
      if !legacy {
        seen := seen + Members(objs);
      }
    }

    /**
     * `update(updated_obj, fields)`: the stored original is read (a missing one
     * raises before anything is written); the object's version becomes the
     * original's plus one; `_update` copies the named fields onto the stored row
     * and commits; the object is remembered in `seen` and one changelog row
     * (class name, id, original, updated) is flushed. A class without `_update`
     * raises after the version bump; so do the tests' fake repositories, whose
     * `get` yields None for a missing original.
     */
    method Update(obj: Aggregate, fields: set<Field>) returns (failure: Option<Fault>)
      requires !legacy && obj.kind == kind && IntField(obj.fields, Id).Some?
      modifies this, session, session.database, obj
      ensures obj.events == old(obj.events) && obj.linked == old(obj.linked)
      ensures var id := IntField(old(obj.fields), Id).value;
        var found := if InMemory() then Ok(FakeLookup(old(session.working), kind, id)) else Lookup(old(session.working), kind, id);
        if found.Err? || found.value.None? || VersionOf(found.value.value).None? then
          && failure == Some(if found.Err? then found.error else NoneHasNo("version"))
          && obj.fields == old(obj.fields) && session.working == old(session.working)
          && session.database.state == old(session.database.state) && seen == old(seen)
        else
          var original := found.value.value;
          var revised := old(obj.fields)[Version := Number(VersionOf(original).value + 1)];
          && obj.fields == revised
          && if !HasUpdate(kind) || InMemory() then
               && failure == Some(Unsupported(kind))
               && session.working == old(session.working)
               && session.database.state == old(session.database.state) && seen == old(seen)
             else
               var written := WithTable(old(session.working), kind,
                                        Table(old(session.working), kind)[id := Overwrite(original, revised, fields)]);
               && failure.None?
               && session.database.state == written
               && session.working == Updated(old(session.working), kind, id, revised, fields)
               && seen == old(seen) + {obj}
    {
      var id := IntField(obj.fields, Id).value;
      var found := if InMemory() then Ok(FakeLookup(session.working, kind, id)) else Lookup(session.working, kind, id);
      if found.Err? {
        return Some(found.error);
      }
      if found.value.None? || VersionOf(found.value.value).None? {
        return Some(NoneHasNo("version"));
      }
      var original := found.value.value;
      obj.fields := obj.fields[Version := Number(VersionOf(original).value + 1)];
      if !HasUpdate(kind) || InMemory() {
        return Some(Unsupported(kind));
      }
      var row := CopyFields(original, obj.fields, fields);
      var written := WithTable(session.working, kind, Table(session.working, kind)[id := row]);
      session.Flush(written);
      session.Commit();
      seen := seen + {obj};
      session.Flush(written.(changelog := written.changelog + [Change(ClassName(kind), id, original, obj.fields)]));
      failure := None;
    }

    /** `delete(id)` of the Topic and Stakeholder repositories: the row is removed and the session commits. */
    method Delete(id: int) returns (failure: Option<Fault>)
      requires !legacy
      modifies session, session.database
      ensures !HasDelete(kind) ==>
        failure == Some(Unsupported(kind)) && session.working == old(session.working)
        && session.database.state == old(session.database.state)
      ensures HasDelete(kind) && id !in Table(old(session.working), kind) ==>
        failure == Some(NoResult(kind, id)) && session.working == old(session.working)
        && session.database.state == old(session.database.state)
      ensures HasDelete(kind) && id in Table(old(session.working), kind) ==>
        && failure.None?
        && session.working == Store.Delete(old(session.working), kind, id)
        && session.database.state == session.working
    {
      if !HasDelete(kind) {
        return Some(Unsupported(kind));
      }
      if id !in Table(session.working, kind) {
        return Some(NoResult(kind, id));
      }
      session.Flush(Store.Delete(session.working, kind, id));
      session.Commit();
      failure := None;
    }

    /** `add_raw_entity` and `add_document_entity` of the Entity repository: the link row is flushed. */
    method AddLinkRow(which: LinkTable, l: Link) returns (failure: Option<Fault>)
      requires !legacy && kind == EntityKind
      modifies session
      ensures var added := AddLink(old(session.working), which, l);
        && (added.Err? ==> failure == Some(added.error) && session.working == old(session.working))
        && (added.Ok? ==> failure.None? && session.working == added.value)
    {
      var added := AddLink(session.working, which, l);
      if added.Err? {
        return Some(added.error);
      }
      session.Flush(added.value);
      failure := None;
    }
  }
}
