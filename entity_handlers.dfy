/**
 * The canonical-entity consolidation of core/service_layer/handlers.py:
 * `process_reviewed_entity` and the steps it is made of (`create_new_entity`,
 * `update_existing_entity`, `link_raw_entities`, `link_document_entities`),
 * and the `consolidate_canonical_entities` handler that runs it over the
 * reviewed items. Each step is specified by a function of the rows before
 * it; the methods carry the steps out on the Entity repository.
 */
module EntityHandlers {
  import opened Wrappers
  import opened Messages
  import opened Domain
  import opened Store
  import opened Repository
  import opened UnitOfWork

  /** The rows the session holds and the rows its database holds: `update` commits on its own, so the two part. */
  datatype State = State(session: Db, database: Db)

  /** The field the hallucination branches pass to `update` only so that the entity's new event is collected. */
  const EventOnly: Field := Other("No fields to update, just sending up the event.")

  /** The dict `create_new_entity` hands `entities.add`. */
  function EntityAttrs(item: ReviewedEntity): Row
  {
    map[EntityName := Str(item.name), EntityDescription := Str(item.description)]
  }

  /** Every stored entity holds its own primary key in its id field. */
  predicate EntitiesKeyed(db: Db)
  {
    forall i :: i in db.entities ==> IntField(db.entities[i], Id) == Some(i)
  }

  /** A link table only grows: what it held is still its prefix. */
  predicate Extends(before: seq<Link>, after: seq<Link>)
  {
    |before| <= |after| && after[..|before|] == before
  }

  /** A link present before is present after the table grows. */
  lemma HasKeyExtends(before: seq<Link>, after: seq<Link>, left: int, right: int)
    requires Extends(before, after) && HasKey(before, left, right)
    ensures HasKey(after, left, right)
  {
    var i :| 0 <= i < |before| && before[i].left == left && before[i].right == right;
    assert after[i] == before[i];
  }

  // ---------------------------------------------------------------------------
  // link_raw_entities

  /** `[linked_entity.raw_entity_id for linked_entity in linked_raw_entities]`. */
  function RawIds(links: seq<Link>): (r: seq<int>)
    ensures |r| == |links| && forall i :: 0 <= i < |links| ==> r[i] == links[i].right
  {
    seq(|links|, i requires 0 <= i < |links| => links[i].right)
  }

  /** A raw entity is among the entity's links exactly when the entity is linked to it. */
  lemma RawIdsOfLinks(db: Db, entityId: int)
    ensures forall id :: id in RawIds(LinksFrom(db.entityRawEntities, entityId)) <==> HasKey(db.entityRawEntities, entityId, id)
  {
    var links := LinksFrom(db.entityRawEntities, entityId);
    forall id | HasKey(db.entityRawEntities, entityId, id)
      ensures id in RawIds(links)
    {
      var i :| 0 <= i < |db.entityRawEntities| && db.entityRawEntities[i].left == entityId && db.entityRawEntities[i].right == id;
      assert db.entityRawEntities[i] in links;
      var j :| 0 <= j < |links| && links[j] == db.entityRawEntities[i];
      assert RawIds(links)[j] == id;
    }
    forall id | id in RawIds(links)
      ensures HasKey(db.entityRawEntities, entityId, id)
    {
      var j :| 0 <= j < |links| && RawIds(links)[j] == id;
      assert links[j] in db.entityRawEntities;
      var i :| 0 <= i < |db.entityRawEntities| && db.entityRawEntities[i] == links[j];
    }
  }

  /**
   * The loop of `link_raw_entities` from `ids` on: a link (entity, id) is
   * flushed for each id not among `before`, the raw-entity ids linked when the
   * call began; the first flush that fails stops the loop with its error.
   */
  function LinkEach(db: Db, entityId: int, before: seq<int>, ids: seq<int>): (Db, Option<Fault>)
    decreases |ids|
  {
    if ids == [] then (db, None)
    else if ids[0] in before then LinkEach(db, entityId, before, ids[1..])
    else match AddLink(db, EntityRawEntities, Link(entityId, ids[0], ""))
      case Err(e) => (db, Some(e))
      case Ok(next) => LinkEach(next, entityId, before, ids[1..])
  }

  /**
   * `link_raw_entities(entity_id, raw_entity_ids)`: the links read once, then
   * the loop; with no such entity the read gives None, which the first
   * iteration fails to iterate.
   */
  function LinkRaw(db: Db, entityId: int, ids: seq<int>): (Db, Option<Fault>)
  {
    match RawEntityLinks(db, entityId)
    case None => if ids == [] then (db, None) else (db, Some(NoneHasNo("__iter__")))
    case Some(links) => LinkEach(db, entityId, RawIds(links), ids)
  }

  /**
   * The loop only appends links, each from the entity to a reviewed id not
   * among `before`; it touches no table and no other link table.
   */
  lemma {:induction false} LinkEachAppends(db: Db, entityId: int, before: seq<int>, ids: seq<int>)
    ensures var d := LinkEach(db, entityId, before, ids).0;
      && (forall k :: Table(d, k) == Table(db, k))
      && d.documentEntities == db.documentEntities && d.changelog == db.changelog
      && Extends(db.entityRawEntities, d.entityRawEntities)
      && (forall i :: |db.entityRawEntities| <= i < |d.entityRawEntities| ==>
            && d.entityRawEntities[i].left == entityId && d.entityRawEntities[i].right in ids
            && d.entityRawEntities[i].right !in before && d.entityRawEntities[i].description == "")
    decreases |ids|
  {
    if ids == [] {
      assert db.entityRawEntities[..|db.entityRawEntities|] == db.entityRawEntities;
    } else {
      var rest := ids[1..];
      assert forall id :: id in rest ==> id in ids;
      if ids[0] in before {
        LinkEachAppends(db, entityId, before, rest);
      } else {
        var l := Link(entityId, ids[0], "");
        AddLinkAppends(db, EntityRawEntities, l);
        if AddLink(db, EntityRawEntities, l).Ok? {
          var next := AddLink(db, EntityRawEntities, l).value;
          LinkEachAppends(next, entityId, before, rest);
          LinkedThenAppended(db, next, LinkEach(next, entityId, before, rest).0, entityId, before, ids);
        } else {
          assert db.entityRawEntities[..|db.entityRawEntities|] == db.entityRawEntities;
        }
      }
    }
  }

  /** One link flushed, then the rest of the loop appending links: the two appends together. */
  lemma LinkedThenAppended(db: Db, next: Db, d: Db, entityId: int, before: seq<int>, ids: seq<int>)
    requires ids != [] && ids[0] !in before
    requires (forall k :: Table(next, k) == Table(db, k)) && next.changelog == db.changelog
    requires next.entityRawEntities == db.entityRawEntities + [Link(entityId, ids[0], "")]
    requires next.documentEntities == db.documentEntities
    requires (forall k :: Table(d, k) == Table(next, k))
    requires d.documentEntities == next.documentEntities && d.changelog == next.changelog
    requires Extends(next.entityRawEntities, d.entityRawEntities)
    requires forall i :: |next.entityRawEntities| <= i < |d.entityRawEntities| ==>
      && d.entityRawEntities[i].left == entityId && d.entityRawEntities[i].right in ids[1..]
      && d.entityRawEntities[i].right !in before && d.entityRawEntities[i].description == ""
    ensures (forall k :: Table(d, k) == Table(db, k))
    ensures d.documentEntities == db.documentEntities && d.changelog == db.changelog
    ensures Extends(db.entityRawEntities, d.entityRawEntities)
    ensures forall i :: |db.entityRawEntities| <= i < |d.entityRawEntities| ==>
      && d.entityRawEntities[i].left == entityId && d.entityRawEntities[i].right in ids
      && d.entityRawEntities[i].right !in before && d.entityRawEntities[i].description == ""
  {
    assert forall id :: id in ids[1..] ==> id in ids;
    assert d.entityRawEntities[..|db.entityRawEntities|] == next.entityRawEntities[..|db.entityRawEntities|];
    assert d.entityRawEntities[|db.entityRawEntities|] == next.entityRawEntities[|db.entityRawEntities|];
  }

  /** When the loop completes, every reviewed id not among `before` is linked to the entity. */
  lemma {:induction false} LinkEachLinksAll(db: Db, entityId: int, before: seq<int>, ids: seq<int>)
    requires LinkEach(db, entityId, before, ids).1.None?
    ensures forall id :: id in ids && id !in before ==> HasKey(LinkEach(db, entityId, before, ids).0.entityRawEntities, entityId, id)
    decreases |ids|
  {
    if ids != [] {
      var rest := ids[1..];
      if ids[0] in before {
        LinkEachLinksAll(db, entityId, before, rest);
      } else {
        var l := Link(entityId, ids[0], "");
        AddLinkAppends(db, EntityRawEntities, l);
        var next := AddLink(db, EntityRawEntities, l).value;
        LinkEachLinksAll(next, entityId, before, rest);
        LinkEachAppends(next, entityId, before, rest);
        var d := LinkEach(next, entityId, before, rest).0;
        assert HasKey(next.entityRawEntities, entityId, ids[0]) by {
          assert next.entityRawEntities[|db.entityRawEntities|] == l;
        }
        HasKeyExtends(next.entityRawEntities, d.entityRawEntities, entityId, ids[0]);
      }
    }
  }

  /** When the loop stops, it is on a reviewed id not among `before` whose link already exists. */
  lemma {:induction false} LinkEachStops(db: Db, entityId: int, before: seq<int>, ids: seq<int>)
    requires LinkEach(db, entityId, before, ids).1.Some?
    ensures exists id :: id in ids && id !in before && LinkEach(db, entityId, before, ids).1 == Some(DuplicateLink(entityId, id))
    decreases |ids|
  {
    var rest := ids[1..];
    assert forall id :: id in rest ==> id in ids;
    if ids[0] in before {
      LinkEachStops(db, entityId, before, rest);
    } else {
      var l := Link(entityId, ids[0], "");
      AddLinkAppends(db, EntityRawEntities, l);
      if AddLink(db, EntityRawEntities, l).Ok? {
        LinkEachStops(AddLink(db, EntityRawEntities, l).value, entityId, before, rest);
      }
    }
  }

  /** A pair absent from a table is absent after another pair is appended. */
  lemma HasKeyAppend(links: seq<Link>, l: Link, left: int, right: int)
    requires !HasKey(links, left, right) && (l.left, l.right) != (left, right)
    ensures !HasKey(links + [l], left, right)
  {
    forall i | 0 <= i < |links + [l]|
      ensures !((links + [l])[i].left == left && (links + [l])[i].right == right)
    {
      if i < |links| {
        assert (links + [l])[i] == links[i];
      }
    }
  }

  /** Whether no id occurs twice. */
  predicate Distinct(ids: seq<int>)
  {
    forall i, j :: 0 <= i < j < |ids| ==> ids[i] != ids[j]
  }

  /** A list without repeats has none after its head either, and its head does not recur. */
  lemma DistinctTail(ids: seq<int>)
    requires ids != [] && Distinct(ids)
    ensures Distinct(ids[1..]) && ids[0] !in ids[1..]
  {
    forall i, j | 0 <= i < j < |ids[1..]|
      ensures ids[1..][i] != ids[1..][j]
    {
      assert ids[1..][i] == ids[i + 1] && ids[1..][j] == ids[j + 1];
    }
  }

  /** Reviewed ids without repeats never make the loop fail when none of them is linked but those among `before`. */
  lemma {:induction false} LinkEachSucceeds(db: Db, entityId: int, before: seq<int>, ids: seq<int>)
    requires Distinct(ids)
    requires forall id :: id in ids && id !in before ==> !HasKey(db.entityRawEntities, entityId, id)
    ensures LinkEach(db, entityId, before, ids).1.None?
    decreases |ids|
  {
    if ids != [] {
      var rest := ids[1..];
      DistinctTail(ids);
      assert forall id :: id in rest ==> id in ids;
      if ids[0] in before {
        LinkEachSucceeds(db, entityId, before, rest);
      } else {
        var l := Link(entityId, ids[0], "");
        AddLinkAppends(db, EntityRawEntities, l);
        var next := AddLink(db, EntityRawEntities, l).value;
        forall id | id in rest && id !in before
          ensures !HasKey(next.entityRawEntities, entityId, id)
        {
          HasKeyAppend(db.entityRawEntities, l, entityId, id);
        }
        LinkEachSucceeds(next, entityId, before, rest);
      }
    }
  }

  /**
   * `link_raw_entities` creates a link only for reviewed ids not linked to the
   * entity when the call began, and never removes one. When it completes,
   * every reviewed id is linked to the entity; with no such entity it
   * completes only for an empty list. For an existing entity and reviewed ids
   * without repeats it always completes.
   */
  lemma LinkRawSpec(db: Db, entityId: int, ids: seq<int>)
    ensures var d := LinkRaw(db, entityId, ids).0;
      && (forall k :: Table(d, k) == Table(db, k))
      && d.documentEntities == db.documentEntities && d.changelog == db.changelog
      && Extends(db.entityRawEntities, d.entityRawEntities)
      && (forall i :: |db.entityRawEntities| <= i < |d.entityRawEntities| ==>
            && d.entityRawEntities[i].left == entityId && d.entityRawEntities[i].right in ids
            && !HasKey(db.entityRawEntities, entityId, d.entityRawEntities[i].right))
    ensures LinkRaw(db, entityId, ids).1.None? <==>
      ids == [] || (entityId in db.entities && LinkEach(db, entityId, RawIds(LinksFrom(db.entityRawEntities, entityId)), ids).1.None?)
    ensures LinkRaw(db, entityId, ids).1.None? ==>
      forall id :: id in ids ==> HasKey(LinkRaw(db, entityId, ids).0.entityRawEntities, entityId, id)
    ensures entityId in db.entities && Distinct(ids) ==>
      LinkRaw(db, entityId, ids).1.None?
  {
    if entityId in db.entities {
      var before := RawIds(LinksFrom(db.entityRawEntities, entityId));
      RawIdsOfLinks(db, entityId);
      LinkEachAppends(db, entityId, before, ids);
      var d := LinkEach(db, entityId, before, ids).0;
      if LinkEach(db, entityId, before, ids).1.None? {
        LinkEachLinksAll(db, entityId, before, ids);
        forall id | id in ids
          ensures HasKey(d.entityRawEntities, entityId, id)
        {
          if id in before {
            HasKeyExtends(db.entityRawEntities, d.entityRawEntities, entityId, id);
          }
        }
      }
      if Distinct(ids) {
        LinkEachSucceeds(db, entityId, before, ids);
      }
    } else {
      assert db.entityRawEntities[..|db.entityRawEntities|] == db.entityRawEntities;
    }
  }

  // ---------------------------------------------------------------------------
  // link_document_entities

  /**
   * The loop of `link_document_entities` from `links` on: for each raw entity
   * the entity is linked to, a link from that raw entity's document to the
   * entity is flushed. A raw entity that does not exist has no
   * `document_id` to read, one whose document id is None makes a link whose
   * key is None, and a link whose pair exists fails to flush.
   */
  function LinkDocsFrom(db: Db, entityId: int, links: seq<Link>): (Db, Option<Fault>)
    decreases |links|
  {
    if links == [] then (db, None)
    else if links[0].right !in db.rawEntities then (db, Some(NoneHasNo("document_id")))
    else match IntField(db.rawEntities[links[0].right], DocumentId)
      case None => (db, Some(NullKey))
      case Some(docId) =>
        match AddLink(db, DocumentEntities, Link(docId, entityId, ""))
        case Err(e) => (db, Some(e))
        case Ok(next) => LinkDocsFrom(next, entityId, links[1..])
  }

  /** `link_document_entities(entity_id)`: the entity's raw-entity links as they stand, then the loop. */
  function LinkDocs(db: Db, entityId: int): (Db, Option<Fault>)
  {
    match RawEntityLinks(db, entityId)
    case None => (db, Some(NoneHasNo("__iter__")))
    case Some(links) => LinkDocsFrom(db, entityId, links)
  }

  /** The document a raw entity belongs to, if it exists and names one. */
  function DocumentOf(db: Db, rawId: int): Option<int>
  {
    if rawId in db.rawEntities then IntField(db.rawEntities[rawId], DocumentId) else None
  }

  /**
   * The loop only appends links, each from the document of a raw entity among
   * `links` to the entity; it touches no table and no other link table.
   */
  lemma {:induction false} LinkDocsAppends(db: Db, entityId: int, links: seq<Link>)
    ensures var d := LinkDocsFrom(db, entityId, links).0;
      && (forall k :: Table(d, k) == Table(db, k))
      && d.entityRawEntities == db.entityRawEntities && d.changelog == db.changelog
      && Extends(db.documentEntities, d.documentEntities)
      && (forall i :: |db.documentEntities| <= i < |d.documentEntities| ==>
            && d.documentEntities[i].right == entityId && d.documentEntities[i].description == ""
            && exists l :: l in links && DocumentOf(db, l.right) == Some(d.documentEntities[i].left))
    decreases |links|
  {
    if links != [] && DocumentOf(db, links[0].right).Some? {
      var l := Link(DocumentOf(db, links[0].right).value, entityId, "");
      AddLinkAppends(db, DocumentEntities, l);
      if AddLink(db, DocumentEntities, l).Ok? {
        var next := AddLink(db, DocumentEntities, l).value;
        var rest := links[1..];
        assert forall r :: DocumentOf(next, r) == DocumentOf(db, r);
        assert forall x :: x in rest ==> x in links;
        LinkDocsAppends(next, entityId, rest);
        var d := LinkDocsFrom(next, entityId, rest).0;
        assert d.documentEntities[..|db.documentEntities|] == next.documentEntities[..|db.documentEntities|];
        assert d.documentEntities[|db.documentEntities|] == l;
        return;
      }
    }
    assert db.documentEntities[..|db.documentEntities|] == db.documentEntities;
  }

  /** When the loop completes, the document of every raw entity among `links` is linked to the entity. */
  lemma {:induction false} LinkDocsLinksAll(db: Db, entityId: int, links: seq<Link>)
    requires LinkDocsFrom(db, entityId, links).1.None?
    ensures forall l :: l in links ==>
      DocumentOf(db, l.right).Some? && HasKey(LinkDocsFrom(db, entityId, links).0.documentEntities, DocumentOf(db, l.right).value, entityId)
    decreases |links|
  {
    if links != [] {
      var l := Link(DocumentOf(db, links[0].right).value, entityId, "");
      AddLinkAppends(db, DocumentEntities, l);
      var next := AddLink(db, DocumentEntities, l).value;
      var rest := links[1..];
      assert forall r :: DocumentOf(next, r) == DocumentOf(db, r);
      LinkDocsLinksAll(next, entityId, rest);
      LinkDocsAppends(next, entityId, rest);
      assert HasKey(next.documentEntities, l.left, entityId) by {
        assert next.documentEntities[|db.documentEntities|] == l;
      }
      HasKeyExtends(next.documentEntities, LinkDocsFrom(next, entityId, rest).0.documentEntities, l.left, entityId);
      assert forall x :: x in links ==> x == links[0] || x in rest;
    }
  }

  // ---------------------------------------------------------------------------
  // update on the Entity repository

  /**
   * What `entities.update(obj, fields)` does to the session and the database
   * (Repository.Update for an Entity): the stored entity must exist and hold
   * an integer version; the named fields are then written, committed, and the
   * change logged in the session.
   */
  function EntityUpdate(s: State, id: int, obj: Row, fields: set<Field>): (State, Option<Fault>)
  {
    if id !in s.session.entities || VersionOf(s.session.entities[id]).None? then (s, Some(NoneHasNo("version")))
    else
      var original := s.session.entities[id];
      var revised := obj[Version := Number(VersionOf(original).value + 1)];
      (State(Updated(s.session, EntityKind, id, revised, fields),
             WithTable(s.session, EntityKind, s.session.entities[id := Overwrite(original, revised, fields)])), None)
  }

  /** The reviewed name and description on the stored entity: the Entity `update_existing_entity` evidently means to build. */
  function Renamed(existing: Row, item: ReviewedEntity): Row
  {
    existing[EntityName := Str(item.name)][EntityDescription := Str(item.description)]
  }

  /**
   * `Entity(id=..., entity_description=..., entity_name=...)` of
   * `update_existing_entity` as written: the audit fields BaseDomainModel
   * declares without defaults are not given, so validation fails.
   */
  function ExistingEntityAsWritten(id: int, item: ReviewedEntity): Result<Row, Fault>
  {
    Construct(EntityKind, map[Id := Number(id), EntityDescription := Str(item.description), EntityName := Str(item.name)])
  }

  /** Whatever the reviewed item, the entity `update_existing_entity` builds fails validation, so no name ever changes. */
  lemma ExistingEntityAsWrittenFails(id: int, item: ReviewedEntity)
    ensures ExistingEntityAsWritten(id, item) == Err(Invalid(EntityKind))
  {
    assert CreatedAt in Required(EntityKind);
  }

  // ---------------------------------------------------------------------------
  // process_reviewed_entity

  /**
   * `update_existing_entity` for the stored entity `id`: a name that differs
   * from the reviewed one is a hallucination, recorded by an event-only update
   * and then raised; otherwise the name and description are updated and the
   * reviewed raw entities linked. The flag says whether it raised.
   */
  function KnownOutcome(s: State, id: int, item: ReviewedEntity): (State, bool)
    requires id in s.session.entities
  {
    var existing := s.session.entities[id];
    if FieldOr(existing, EntityName) != Str(item.name) then
      (EntityUpdate(s, id, existing, {EventOnly}).0, true)
    else
      var u := EntityUpdate(s, id, Renamed(existing, item), {EntityName, EntityDescription});
      if u.1.Some? then (u.0, true)
      else
        var l := LinkRaw(u.0.session, id, item.rawEntityIds);
        (State(l.0, u.0.database), l.1.Some?)
  }

  /**
   * An id was given but names no entity: a new entity is created, the reviewed
   * raw entities linked to it, and an event-only update sends up the
   * hallucination event the new entity holds.
   */
  function UnknownOutcome(s: State, item: ReviewedEntity): (State, bool)
  {
    var e := NextId(s.session.entities);
    var l := LinkRaw(Insert(s.session, EntityKind, EntityAttrs(item)), e, item.rawEntityIds);
    if l.1.Some? then (State(l.0, s.database), true)
    else
      var u := EntityUpdate(State(l.0, s.database), e, NewRow(s.session, EntityKind, EntityAttrs(item)), {EventOnly});
      (u.0, u.1.Some?)
  }

  /** No id was given: a new entity is created, the reviewed raw entities linked to it, and their documents linked to it. */
  function NewOutcome(s: State, item: ReviewedEntity): (State, bool)
  {
    var e := NextId(s.session.entities);
    var l := LinkRaw(Insert(s.session, EntityKind, EntityAttrs(item)), e, item.rawEntityIds);
    if l.1.Some? then (State(l.0, s.database), true)
    else
      var d := LinkDocs(l.0, e);
      (State(d.0, s.database), d.1.Some?)
  }

  /** `process_reviewed_entity`: the three branches on `canonical_entity_id` and on whether `entities.get` finds it. */
  function ProcessOutcome(s: State, item: ReviewedEntity): (State, bool)
  {
    match item.canonicalEntityId
    case None => NewOutcome(s, item)
    case Some(id) => if id in s.session.entities then KnownOutcome(s, id, item) else UnknownOutcome(s, item)
  }

  // ---------------------------------------------------------------------------
  // What process_reviewed_entity promises

  /** A successful entity update rewrites that one entity row and nothing else the session holds but the changelog. */
  lemma EntityUpdateSpec(s: State, id: int, obj: Row, fields: set<Field>)
    ensures EntityUpdate(s, id, obj, fields).1.None? <==> id in s.session.entities && VersionOf(s.session.entities[id]).Some?
    ensures EntityUpdate(s, id, obj, fields).1.Some? ==> EntityUpdate(s, id, obj, fields).0 == s
    ensures EntityUpdate(s, id, obj, fields).1.None? ==>
      var d := EntityUpdate(s, id, obj, fields).0.session;
      var original := s.session.entities[id];
      && d.entities == s.session.entities[id := Overwrite(original, obj[Version := Number(VersionOf(original).value + 1)], fields)]
      && (forall k :: k != EntityKind ==> Table(d, k) == Table(s.session, k))
      && d.entityRawEntities == s.session.entityRawEntities && d.documentEntities == s.session.documentEntities
  {
    if id in s.session.entities && VersionOf(s.session.entities[id]).Some? {
      var original := s.session.entities[id];
      UpdatedSpec(s.session, EntityKind, id, obj[Version := Number(VersionOf(original).value + 1)], fields);
    }
  }

  /**
   * A reviewed name that differs from the stored entity's is a hallucination:
   * processing raises, and the entity keeps its name and description and
   * gains no raw-entity link.
   */
  lemma HallucinatedNameKeepsEntity(s: State, item: ReviewedEntity)
    requires item.canonicalEntityId.Some? && item.canonicalEntityId.value in s.session.entities
    requires FieldOr(s.session.entities[item.canonicalEntityId.value], EntityName) != Str(item.name)
    ensures var id := item.canonicalEntityId.value;
      var d := ProcessOutcome(s, item).0.session;
      && ProcessOutcome(s, item).1
      && id in d.entities
      && FieldOr(d.entities[id], EntityName) == FieldOr(s.session.entities[id], EntityName)
      && FieldOr(d.entities[id], EntityDescription) == FieldOr(s.session.entities[id], EntityDescription)
      && d.entityRawEntities == s.session.entityRawEntities
  {
    var id := item.canonicalEntityId.value;
    var original := s.session.entities[id];
    EntityUpdateSpec(s, id, original, {EventOnly});
    if EntityUpdate(s, id, original, {EventOnly}).1.None? {
      OverwriteOnlyNamed(original, original[Version := Number(VersionOf(original).value + 1)], {EventOnly});
    }
  }

  /** The stored row with the reviewed name and description written over it: all `update` copies of the renamed entity. */
  lemma RenamedOverwrite(original: Row, item: ReviewedEntity, version: Value)
    ensures Overwrite(original, Renamed(original, item)[Version := version], {EntityName, EntityDescription}) == Renamed(original, item)
  {
    var revised := Renamed(original, item)[Version := version];
    OverwriteOnlyNamed(original, revised, {EntityName, EntityDescription});
    assert Overwrite(original, revised, {EntityName, EntityDescription}).Keys == Renamed(original, item).Keys;
  }

  /**
   * A reviewed name equal to the stored entity's (with a stored version):
   * the entity's name and description become the reviewed ones, its other
   * fields and every other entity stay, and the reviewed raw entities are
   * linked to it; processing raises only when linking fails, which reviewed
   * ids without repeats never make it do.
   */
  lemma MatchedNameUpdatesEntity(s: State, item: ReviewedEntity)
    requires item.canonicalEntityId.Some? && item.canonicalEntityId.value in s.session.entities
    requires FieldOr(s.session.entities[item.canonicalEntityId.value], EntityName) == Str(item.name)
    requires VersionOf(s.session.entities[item.canonicalEntityId.value]).Some?
    ensures var id := item.canonicalEntityId.value;
      var d := ProcessOutcome(s, item).0.session;
      && d.entities == s.session.entities[id := Renamed(s.session.entities[id], item)]
      && (Distinct(item.rawEntityIds) ==> !ProcessOutcome(s, item).1)
      && (!ProcessOutcome(s, item).1 ==> forall r :: r in item.rawEntityIds ==> HasKey(d.entityRawEntities, id, r))
  {
    var id := item.canonicalEntityId.value;
    var original := s.session.entities[id];
    EntityUpdateSpec(s, id, Renamed(original, item), {EntityName, EntityDescription});
    RenamedOverwrite(original, item, Number(VersionOf(original).value + 1));
    var u := EntityUpdate(s, id, Renamed(original, item), {EntityName, EntityDescription});
    LinkRawSpec(u.0.session, id, item.rawEntityIds);
    assert Table(u.0.session, EntityKind) == u.0.session.entities;
  }

  /** The entity `add` stores for a reviewed item: the reviewed name and description, and version 1. */
  lemma NewEntityRow(db: Db, item: ReviewedEntity)
    ensures var row := NewRow(db, EntityKind, EntityAttrs(item));
      && FieldOr(row, EntityName) == Str(item.name) && FieldOr(row, EntityDescription) == Str(item.description)
      && VersionOf(row) == Some(1)
  {
    NewRowSpec(db, EntityKind, EntityAttrs(item));
    VersionDefaultsToOne(EntityKind, EntityAttrs(item)[Id := Number(NextId(db.entities))]);
    assert EntityName in Declared(EntityKind) && EntityDescription in Declared(EntityKind);
  }

  /** A new entity is added under the next id and the reviewed raw entities linked to it. */
  lemma CreatedAndLinked(db: Db, item: ReviewedEntity)
    ensures var e := NextId(db.entities);
      var l := LinkRaw(Insert(db, EntityKind, EntityAttrs(item)), e, item.rawEntityIds);
      && e !in db.entities
      && l.0.entities == db.entities[e := NewRow(db, EntityKind, EntityAttrs(item))]
      && l.0.rawEntities == db.rawEntities && l.0.documentEntities == db.documentEntities
      && (Distinct(item.rawEntityIds) ==> l.1.None?)
      && (l.1.None? ==> forall r :: r in item.rawEntityIds ==> HasKey(l.0.entityRawEntities, e, r))
  {
    var e := NextId(db.entities);
    var created := Insert(db, EntityKind, EntityAttrs(item));
    InsertSpec(db, EntityKind, EntityAttrs(item));
    LinkRawSpec(created, e, item.rawEntityIds);
    assert Table(created, RawEntityKind) == db.rawEntities;
  }

  /**
   * A given id that names no entity: a new entity with the reviewed name and
   * description is stored under the next id, every existing entity stays, and
   * the reviewed raw entities are linked to it; processing raises only when
   * linking fails, which reviewed ids without repeats never make it do.
   */
  lemma UnknownIdCreatesEntity(s: State, item: ReviewedEntity)
    requires item.canonicalEntityId.Some? && item.canonicalEntityId.value !in s.session.entities
    ensures var e := NextId(s.session.entities);
      var d := ProcessOutcome(s, item).0.session;
      && e !in s.session.entities && e in d.entities
      && FieldOr(d.entities[e], EntityName) == Str(item.name)
      && FieldOr(d.entities[e], EntityDescription) == Str(item.description)
      && (forall j :: j in s.session.entities ==> j in d.entities && d.entities[j] == s.session.entities[j])
      && (Distinct(item.rawEntityIds) ==> !ProcessOutcome(s, item).1)
      && (!ProcessOutcome(s, item).1 ==> forall r :: r in item.rawEntityIds ==> HasKey(d.entityRawEntities, e, r))
  {
    assert ProcessOutcome(s, item) == UnknownOutcome(s, item);
    UnknownOutcomeSpec(s, item);
  }

  /** The outcome of the unknown-id branch, as UnknownIdCreatesEntity states it. */
  lemma UnknownOutcomeSpec(s: State, item: ReviewedEntity)
    ensures var e := NextId(s.session.entities);
      var d := UnknownOutcome(s, item).0.session;
      && e !in s.session.entities && e in d.entities
      && FieldOr(d.entities[e], EntityName) == Str(item.name)
      && FieldOr(d.entities[e], EntityDescription) == Str(item.description)
      && (forall j :: j in s.session.entities ==> j in d.entities && d.entities[j] == s.session.entities[j])
      && (Distinct(item.rawEntityIds) ==> !UnknownOutcome(s, item).1)
      && (!UnknownOutcome(s, item).1 ==> forall r :: r in item.rawEntityIds ==> HasKey(d.entityRawEntities, e, r))
  {
    var e := NextId(s.session.entities);
    var row := NewRow(s.session, EntityKind, EntityAttrs(item));
    CreatedAndLinked(s.session, item);
    NewEntityRow(s.session, item);
    var l := LinkRaw(Insert(s.session, EntityKind, EntityAttrs(item)), e, item.rawEntityIds);
    if l.1.None? {
      var u := EntityUpdate(State(l.0, s.database), e, row, {EventOnly});
      EntityUpdateSpec(State(l.0, s.database), e, row, {EventOnly});
      OverwriteOnlyNamed(row, row[Version := Number(2)], {EventOnly});
      assert UnknownOutcome(s, item) == (u.0, u.1.Some?);
      assert u.0.session.entities == l.0.entities[e := Overwrite(row, row[Version := Number(2)], {EventOnly})];
    }
  }

  /**
   * When `link_document_entities` completes, every raw entity linked to the
   * entity beforehand has a document, and that document is linked to the
   * entity; the tables stay as they were.
   */
  lemma LinkDocsCovers(db: Db, entityId: int, ids: seq<int>)
    requires forall r :: r in ids ==> HasKey(db.entityRawEntities, entityId, r)
    requires LinkDocs(db, entityId).1.None?
    ensures var d := LinkDocs(db, entityId).0;
      && (forall k :: Table(d, k) == Table(db, k)) && d.entityRawEntities == db.entityRawEntities
      && forall r :: r in ids ==> DocumentOf(db, r).Some? && HasKey(d.documentEntities, DocumentOf(db, r).value, entityId)
  {
    var links := LinksFrom(db.entityRawEntities, entityId);
    LinkDocsAppends(db, entityId, links);
    LinkDocsLinksAll(db, entityId, links);
    forall r | r in ids
      ensures exists l :: l in links && l.right == r
    {
      var i :| 0 <= i < |db.entityRawEntities| && db.entityRawEntities[i].left == entityId && db.entityRawEntities[i].right == r;
      assert db.entityRawEntities[i] in links;
    }
  }

  /**
   * No id given: a new entity with the reviewed name and description is
   * stored under the next id, every existing entity stays, and when
   * processing completes every reviewed raw entity is linked to it and the
   * document of each of them is linked to it too.
   */
  lemma NoIdCreatesAndLinksEntity(s: State, item: ReviewedEntity)
    requires item.canonicalEntityId.None?
    ensures var e := NextId(s.session.entities);
      var d := ProcessOutcome(s, item).0.session;
      && e !in s.session.entities && e in d.entities
      && FieldOr(d.entities[e], EntityName) == Str(item.name)
      && FieldOr(d.entities[e], EntityDescription) == Str(item.description)
      && (forall j :: j in s.session.entities ==> j in d.entities && d.entities[j] == s.session.entities[j])
      && (!ProcessOutcome(s, item).1 ==> forall r :: r in item.rawEntityIds ==>
            && HasKey(d.entityRawEntities, e, r)
            && DocumentOf(s.session, r).Some? && HasKey(d.documentEntities, DocumentOf(s.session, r).value, e))
  {
    assert ProcessOutcome(s, item) == NewOutcome(s, item);
    NewOutcomeSpec(s, item);
  }

  /** The outcome of the no-id branch, as NoIdCreatesAndLinksEntity states it. */
  lemma NewOutcomeSpec(s: State, item: ReviewedEntity)
    ensures var e := NextId(s.session.entities);
      var d := NewOutcome(s, item).0.session;
      && e !in s.session.entities && e in d.entities
      && FieldOr(d.entities[e], EntityName) == Str(item.name)
      && FieldOr(d.entities[e], EntityDescription) == Str(item.description)
      && (forall j :: j in s.session.entities ==> j in d.entities && d.entities[j] == s.session.entities[j])
      && (!NewOutcome(s, item).1 ==> forall r :: r in item.rawEntityIds ==>
            && HasKey(d.entityRawEntities, e, r)
            && DocumentOf(s.session, r).Some? && HasKey(d.documentEntities, DocumentOf(s.session, r).value, e))
  {
    var e := NextId(s.session.entities);
    CreatedAndLinked(s.session, item);
    NewEntityRow(s.session, item);
    var l := LinkRaw(Insert(s.session, EntityKind, EntityAttrs(item)), e, item.rawEntityIds);
    if l.1.None? {
      assert e in l.0.entities;
      var linked := LinkDocs(l.0, e);
      assert linked == LinkDocsFrom(l.0, e, LinksFrom(l.0.entityRawEntities, e));
      LinkDocsAppends(l.0, e, LinksFrom(l.0.entityRawEntities, e));
      assert linked.0.entities == Table(linked.0, EntityKind) == Table(l.0, EntityKind);
      assert NewOutcome(s, item).0.session == linked.0;
      if linked.1.None? {
        LinkDocsCovers(l.0, e, item.rawEntityIds);
        assert forall r :: DocumentOf(l.0, r) == DocumentOf(s.session, r);
      }
    }
  }

  /** An update that does not name the id field keeps every entity row keyed by its own id, in the session and in the database. */
  lemma EntityUpdateKeepsKeyed(s: State, id: int, obj: Row, fields: set<Field>)
    requires EntitiesKeyed(s.session) && EntitiesKeyed(s.database) && Id !in fields
    ensures EntitiesKeyed(EntityUpdate(s, id, obj, fields).0.session)
    ensures EntitiesKeyed(EntityUpdate(s, id, obj, fields).0.database)
  {
    EntityUpdateSpec(s, id, obj, fields);
    if EntityUpdate(s, id, obj, fields).1.None? {
      var original := s.session.entities[id];
      OverwriteOnlyNamed(original, obj[Version := Number(VersionOf(original).value + 1)], fields);
    }
  }

  /** Adding an entity and linking raw entities to it keeps every entity row keyed by its own id. */
  lemma CreatedKeepsKeyed(db: Db, item: ReviewedEntity)
    requires EntitiesKeyed(db)
    ensures EntitiesKeyed(LinkRaw(Insert(db, EntityKind, EntityAttrs(item)), NextId(db.entities), item.rawEntityIds).0)
  {
    CreatedAndLinked(db, item);
    NewRowId(db, EntityKind, EntityAttrs(item));
  }

  /** The branch for an item with no id keeps every entity row keyed by its own id. */
  lemma NewKeepsKeyed(s: State, item: ReviewedEntity)
    requires EntitiesKeyed(s.session) && EntitiesKeyed(s.database)
    ensures EntitiesKeyed(NewOutcome(s, item).0.session) && EntitiesKeyed(NewOutcome(s, item).0.database)
  {
    var e := NextId(s.session.entities);
    CreatedKeepsKeyed(s.session, item);
    var l := LinkRaw(Insert(s.session, EntityKind, EntityAttrs(item)), e, item.rawEntityIds);
    if l.1.None? {
      LinkDocsAppends(l.0, e, LinksFrom(l.0.entityRawEntities, e));
      assert LinkDocs(l.0, e).0.entities == Table(LinkDocs(l.0, e).0, EntityKind);
    }
  }

  /** The branch for an id naming an entity keeps every entity row keyed by its own id. */
  lemma KnownKeepsKeyed(s: State, id: int, item: ReviewedEntity)
    requires id in s.session.entities && EntitiesKeyed(s.session) && EntitiesKeyed(s.database)
    ensures EntitiesKeyed(KnownOutcome(s, id, item).0.session) && EntitiesKeyed(KnownOutcome(s, id, item).0.database)
  {
    var existing := s.session.entities[id];
    if FieldOr(existing, EntityName) != Str(item.name) {
      EntityUpdateKeepsKeyed(s, id, existing, {EventOnly});
    } else {
      EntityUpdateKeepsKeyed(s, id, Renamed(existing, item), {EntityName, EntityDescription});
      var u := EntityUpdate(s, id, Renamed(existing, item), {EntityName, EntityDescription});
      if u.1.None? {
        var l := LinkRaw(u.0.session, id, item.rawEntityIds);
        LinkRawSpec(u.0.session, id, item.rawEntityIds);
        assert l.0.entities == Table(l.0, EntityKind) == Table(u.0.session, EntityKind) == u.0.session.entities;
        assert KnownOutcome(s, id, item).0 == State(l.0, u.0.database);
      }
    }
  }

  /** The branch for an id naming no entity keeps every entity row keyed by its own id. */
  lemma UnknownKeepsKeyed(s: State, item: ReviewedEntity)
    requires EntitiesKeyed(s.session) && EntitiesKeyed(s.database)
    ensures EntitiesKeyed(UnknownOutcome(s, item).0.session) && EntitiesKeyed(UnknownOutcome(s, item).0.database)
  {
    var e := NextId(s.session.entities);
    CreatedKeepsKeyed(s.session, item);
    var l := LinkRaw(Insert(s.session, EntityKind, EntityAttrs(item)), e, item.rawEntityIds);
    EntityUpdateKeepsKeyed(State(l.0, s.database), e, NewRow(s.session, EntityKind, EntityAttrs(item)), {EventOnly});
  }

  /** Processing a reviewed item keeps every entity row keyed by its own id, in the session and in the database. */
  lemma ProcessKeepsKeyed(s: State, item: ReviewedEntity)
    requires EntitiesKeyed(s.session) && EntitiesKeyed(s.database)
    ensures EntitiesKeyed(ProcessOutcome(s, item).0.session) && EntitiesKeyed(ProcessOutcome(s, item).0.database)
  {
    match item.canonicalEntityId {
      case None => NewKeepsKeyed(s, item);
      case Some(id) =>
        if id in s.session.entities {
          KnownKeepsKeyed(s, id, item);
        } else {
          UnknownKeepsKeyed(s, item);
        }
    }
  }

  // ---------------------------------------------------------------------------
  // consolidate_canonical_entities

  /**
   * The rows after `consolidate_canonical_entities` has processed `items` in
   * order: an item that raises is followed by `uow.rollback()`, which a real
   * unit of work answers by dropping the session's uncommitted rows. The
   * tests' fake unit of work has no `entities`, so there every item raises
   * before it changes anything, and its rollback does nothing.
   */
  function Consolidated(s: State, items: seq<ReviewedEntity>, fake: bool): State
    decreases |items|
  {
    if items == [] then s
    else ConsolidateStep(Consolidated(s, items[..|items| - 1], fake), items[|items| - 1], fake)
  }

  /** One item of the loop: processed, then rolled back if it raised. */
  function ConsolidateStep(s: State, item: ReviewedEntity, fake: bool): State
  {
    if fake then s
    else
      var p := ProcessOutcome(s, item);
      if p.1 then State(p.0.database, p.0.database) else p.0
  }

  /** On the tests' fake unit of work consolidation leaves every row as it was. */
  lemma {:induction false} FakeConsolidatesNothing(s: State, items: seq<ReviewedEntity>)
    ensures Consolidated(s, items, true) == s
    decreases |items|
  {
    if items != [] {
      FakeConsolidatesNothing(s, items[..|items| - 1]);
    }
  }

  /** Consolidation keeps every entity row keyed by its own id, in the session and in the database. */
  lemma {:induction false} ConsolidatedKeepsKeyed(s: State, items: seq<ReviewedEntity>, fake: bool)
    requires EntitiesKeyed(s.session) && EntitiesKeyed(s.database)
    ensures EntitiesKeyed(Consolidated(s, items, fake).session) && EntitiesKeyed(Consolidated(s, items, fake).database)
    decreases |items|
  {
    if items != [] {
      ConsolidatedKeepsKeyed(s, items[..|items| - 1], fake);
      ProcessKeepsKeyed(Consolidated(s, items[..|items| - 1], fake), items[|items| - 1]);
      assert Consolidated(s, items, fake) == ConsolidateStep(Consolidated(s, items[..|items| - 1], fake), items[|items| - 1], fake);
    }
  }

  /**
   * With a real unit of work, an item without an id that fails leaves no
   * trace: nothing it did was committed, and the rollback drops the new
   * entity and its links from the session.
   */
  lemma FailedNewEntityLeavesNoTrace(s: State, item: ReviewedEntity)
    requires item.canonicalEntityId.None? && ProcessOutcome(s, item).1
    ensures Consolidated(s, [item], false) == State(s.database, s.database)
  {
    assert [item][..0] == [];
  }

  // ---------------------------------------------------------------------------
  // The handlers, over the Entity repository of a unit of work

  /** `uow.entities.update(obj, fields)`, read as a step on the session's and the database's rows. */
  method UpdateEntity(repo: Repository, obj: Aggregate, fields: set<Field>) returns (failure: Option<Fault>)
    requires !repo.legacy && repo.kind == EntityKind && obj.kind == EntityKind && IntField(obj.fields, Id).Some?
    modifies repo, repo.session, repo.session.database, obj
    ensures var u := EntityUpdate(State(old(repo.session.working), old(repo.session.database.state)),
                                  IntField(old(obj.fields), Id).value, old(obj.fields), fields);
      State(repo.session.working, repo.session.database.state) == u.0 && failure == u.1
    ensures obj.events == old(obj.events)
    ensures old(repo.seen) <= repo.seen <= old(repo.seen) + {obj}
  {
    failure := repo.Update(obj, fields);
  }

  /** `create_new_entity`: an entity with the reviewed name and description is added under the next id. */
  method CreateNewEntity(repo: Repository, item: ReviewedEntity) returns (entity: Aggregate)
    requires !repo.legacy && repo.kind == EntityKind
    modifies repo, repo.session
    ensures fresh(entity) && entity.kind == EntityKind && entity.events == []
    ensures entity.fields == NewRow(old(repo.session.working), EntityKind, EntityAttrs(item))
    ensures IntField(entity.fields, Id) == Some(NextId(old(repo.session.working).entities))
    ensures repo.session.working == Insert(old(repo.session.working), EntityKind, EntityAttrs(item))
    ensures repo.seen == old(repo.seen) + {entity}
  {
    NewRowId(repo.session.working, EntityKind, EntityAttrs(item));
    var added := repo.Add(EntityAttrs(item));
    entity := added.value;
  }

  /**
   * `link_raw_entities(entity_id, raw_entity_ids)`: the links are read once,
   * then a link is flushed for each reviewed id not among them; the first
   * failure is raised as an EntityProcessingError. Nothing is committed.
   */
  method LinkRawEntities(repo: Repository, entityId: int, ids: seq<int>) returns (failure: Option<Fault>)
    requires !repo.legacy && repo.kind == EntityKind
    modifies repo.session
    ensures var l := LinkRaw(old(repo.session.working), entityId, ids);
      repo.session.working == l.0 && (failure.Some? <==> l.1.Some?)
    ensures failure.Some? ==> failure == Some(Raised(EntityProcessingError))
  {
    var links := RawEntityLinks(repo.session.working, entityId);
    if links.None? {
      return if ids == [] then None else Some(Raised(EntityProcessingError));
    }
    var before := RawIds(links.value);
    var i := 0;
    while i < |ids|
      invariant 0 <= i <= |ids|
      invariant LinkEach(repo.session.working, entityId, before, ids[i..]) == LinkEach(old(repo.session.working), entityId, before, ids)
    {
      assert ids[i..][1..] == ids[i + 1..];
      if ids[i] !in before {
        var flushed := repo.AddLinkRow(EntityRawEntities, Link(entityId, ids[i], ""));
        if flushed.Some? {
          return Some(Raised(EntityProcessingError));
        }
      }
      i := i + 1;
    }
    failure := None;
  }

  /**
   * `link_document_entities(entity_id)`: for each raw entity the entity is
   * linked to, a link from that raw entity's document to the entity is
   * flushed; the first failure is raised as an EntityProcessingError.
   */
  method LinkDocumentEntities(repo: Repository, entityId: int) returns (failure: Option<Fault>)
    requires !repo.legacy && repo.kind == EntityKind
    modifies repo.session
    ensures var l := LinkDocs(old(repo.session.working), entityId);
      repo.session.working == l.0 && (failure.Some? <==> l.1.Some?)
    ensures failure.Some? ==> failure == Some(Raised(EntityProcessingError))
  {
    var links := RawEntityLinks(repo.session.working, entityId);
    if links.None? {
      return Some(Raised(EntityProcessingError));
    }
    var rest := links.value;
    while rest != []
      invariant LinkDocsFrom(repo.session.working, entityId, rest) == LinkDocs(old(repo.session.working), entityId)
      decreases |rest|
    {
      var raw := rest[0].right;
      if raw !in repo.session.working.rawEntities {
        return Some(Raised(EntityProcessingError));
      }
      var docId := IntField(repo.session.working.rawEntities[raw], DocumentId);
      if docId.None? {
        return Some(Raised(EntityProcessingError));
      }
      var flushed := repo.AddLinkRow(DocumentEntities, Link(docId.value, entityId, ""));
      if flushed.Some? {
        return Some(Raised(EntityProcessingError));
      }
      rest := rest[1..];
    }
    failure := None;
  }

  /**
   * `update_existing_entity` for an entity just loaded: a differing name
   * appends the hallucination event to the loaded entity, sends it up with an
   * event-only update and raises; otherwise the entity with the reviewed
   * name and description is updated and the reviewed raw entities linked.
   */
  method UpdateExistingEntity(repo: Repository, existing: Aggregate, item: ReviewedEntity) returns (failure: Option<Fault>)
    requires !repo.legacy && repo.kind == EntityKind && existing.kind == EntityKind
    requires IntField(existing.fields, Id).Some? && IntField(existing.fields, Id).value in repo.session.working.entities
    requires existing.fields == repo.session.working.entities[IntField(existing.fields, Id).value]
    modifies repo, repo.session, repo.session.database, existing
    ensures var id := IntField(old(existing.fields), Id).value;
      var k := KnownOutcome(State(old(repo.session.working), old(repo.session.database.state)), id, item);
      && State(repo.session.working, repo.session.database.state) == k.0 && (failure.Some? <==> k.1)
    ensures existing.events == old(existing.events) +
      if FieldOr(old(existing.fields), EntityName) != Str(item.name)
      then [ExistingCanonicalEntityHallucination(item, IntField(old(existing.fields), Id).value)] else []
    ensures old(repo.seen) <= repo.seen
  {
    var id := IntField(existing.fields, Id).value;
    if FieldOr(existing.fields, EntityName) != Str(item.name) {
      existing.events := existing.events + [ExistingCanonicalEntityHallucination(item, id)];
      var updated := UpdateEntity(repo, existing, {EventOnly});
      return if updated.Some? then updated else Some(Raised(EntityUpdateError));
    }
    var renamed := new Aggregate(EntityKind, Renamed(existing.fields, item));
    var updated := UpdateEntity(repo, renamed, {EntityName, EntityDescription});
    if updated.Some? {
      return Some(Raised(EntityUpdateError));
    }
    var linked := LinkRawEntities(repo, id, item.rawEntityIds);
    if linked.Some? {
      return Some(Raised(EntityUpdateError));
    }
    failure := None;
  }

  /** The branch of `process_reviewed_entity` for an item with no id. */
  method CreateAndLinkEntity(repo: Repository, item: ReviewedEntity) returns (failure: Option<Fault>)
    requires !repo.legacy && repo.kind == EntityKind
    modifies repo, repo.session
    ensures var p := NewOutcome(State(old(repo.session.working), repo.session.database.state), item);
      State(repo.session.working, repo.session.database.state) == p.0 && (failure.Some? <==> p.1)
  {
    var entity := CreateNewEntity(repo, item);
    var e := IntField(entity.fields, Id).value;
    failure := LinkRawEntities(repo, e, item.rawEntityIds);
    if failure.None? {
      failure := LinkDocumentEntities(repo, e);
    }
  }

  /**
   * The branch of `process_reviewed_entity` for an id naming no entity: the
   * new entity, once linked, holds the hallucination event and is updated
   * to send it up.
   */
  method CreateHallucinatedEntity(repo: Repository, item: ReviewedEntity) returns (failure: Option<Fault>)
    requires !repo.legacy && repo.kind == EntityKind
    modifies repo, repo.session, repo.session.database
    ensures var p := UnknownOutcome(State(old(repo.session.working), old(repo.session.database.state)), item);
      State(repo.session.working, repo.session.database.state) == p.0 && (failure.Some? <==> p.1)
    ensures failure.None? ==>
      exists a :: a in repo.seen && a.events == [ExistingCanonicalEntityHallucination(item, NextId(old(repo.session.working.entities)))]
  {
    var entity := CreateNewEntity(repo, item);
    var e := IntField(entity.fields, Id).value;
    failure := LinkRawEntities(repo, e, item.rawEntityIds);
    if failure.None? {
      entity.events := entity.events + [ExistingCanonicalEntityHallucination(item, e)];
      failure := UpdateEntity(repo, entity, {EventOnly});
      assert entity in repo.seen;
    }
  }

  /**
   * `process_reviewed_entity`: with no id a new entity is created and linked
   * to the reviewed raw entities and their documents; with an id naming no
   * entity a new entity is created, linked, and made to send up the
   * hallucination event; with an id naming an entity that entity is updated.
   * Whatever fails is raised as an EntityProcessingError.
   */
  method ProcessReviewedEntity(repo: Repository, item: ReviewedEntity) returns (failure: Option<Fault>)
    requires !repo.legacy && repo.kind == EntityKind
    requires EntitiesKeyed(repo.session.working)
    modifies repo, repo.session, repo.session.database
    ensures var p := ProcessOutcome(State(old(repo.session.working), old(repo.session.database.state)), item);
      && State(repo.session.working, repo.session.database.state) == p.0
      && (failure.Some? <==> p.1) && (failure.Some? ==> failure == Some(Raised(EntityProcessingError)))
    ensures item.canonicalEntityId.Some? && item.canonicalEntityId.value in old(repo.session.working.entities) &&
            FieldOr(old(repo.session.working.entities[item.canonicalEntityId.value]), EntityName) != Str(item.name) ==>
      exists a :: a in repo.seen && a.events == [ExistingCanonicalEntityHallucination(item, item.canonicalEntityId.value)]
    ensures item.canonicalEntityId.Some? && item.canonicalEntityId.value !in old(repo.session.working.entities) && failure.None? ==>
      exists a :: a in repo.seen && a.events == [ExistingCanonicalEntityHallucination(item, NextId(old(repo.session.working.entities)))]
  {
    match item.canonicalEntityId {
      case None =>
        failure := CreateAndLinkEntity(repo, item);
      case Some(id) =>
        var found := repo.Get(id);
        if found.value.None? {
          failure := CreateHallucinatedEntity(repo, item);
        } else {
          var existing := found.value.value;
          failure := UpdateExistingEntity(repo, existing, item);
          assert existing in repo.seen;
        }
    }
    if failure.Some? {
      failure := Some(Raised(EntityProcessingError));
    }
  }

  /** One turn of the loop of `consolidate_canonical_entities`: the item is processed, and rolled back if it raised. */
  method ProcessOne(uow: UnitOfWork, item: ReviewedEntity)
    requires uow.Valid() && !uow.legacy
    requires EntitiesKeyed(uow.session.working)
    modifies uow.database, uow.session, uow.entities
    ensures uow.Valid()
    ensures State(uow.session.working, uow.database.state) ==
      ConsolidateStep(State(old(uow.session.working), old(uow.database.state)), item, uow.fake)
  {
    var failure: Option<Fault>;
    if uow.fake {
      // `uow.entities` raises AttributeError, re-raised as EntityProcessingError
      failure := Some(Raised(EntityProcessingError));
    } else {
      failure := ProcessReviewedEntity(uow.entities, item);
    }
    if failure.Some? {
      uow.Rollback();
    }
  }

  /** The loop of `consolidate_canonical_entities` over the reviewed items, within the scope. */
  method ProcessEach(uow: UnitOfWork, items: seq<ReviewedEntity>)
    requires uow.Valid() && !uow.legacy
    requires EntitiesKeyed(uow.session.working) && EntitiesKeyed(uow.database.state)
    modifies uow.database, uow.session, uow.entities
    ensures uow.Valid()
    ensures State(uow.session.working, uow.database.state) ==
      Consolidated(State(old(uow.session.working), old(uow.database.state)), items, uow.fake)
  {
    ghost var start := State(uow.session.working, uow.database.state);
    var i := 0;
    while i < |items|
      invariant 0 <= i <= |items| && uow.Valid()
      invariant State(uow.session.working, uow.database.state) == Consolidated(start, items[..i], uow.fake)
    {
      ConsolidatedKeepsKeyed(start, items[..i], uow.fake);
      ProcessOne(uow, items[i]);
      assert items[..i + 1][..i] == items[..i];
      i := i + 1;
    }
    assert items[..|items|] == items;
  }

  /**
   * `consolidate_canonical_entities`: the reviewed items (`reviewed`, None when
   * they cannot be loaded, which raises and is caught) are processed in order
   * within one scope; an item that raises is rolled back and the loop goes on;
   * the scope ends with `uow.commit()`.
   */
  method ConsolidateCanonicalEntities(uow: UnitOfWork, c: Command, reviewed: Option<seq<ReviewedEntity>>)
    returns (caught: Option<Fault>)
    requires uow.Valid() && !uow.legacy && c.ConsolidateCanonicalEntities?
    requires EntitiesKeyed(uow.Stored()) && EntitiesKeyed(uow.database.state)
    modifies uow`session, uow`documents, uow`comments, uow`rawTopics, uow`rawEntities, uow`entities, uow`entered
    modifies uow`committed, uow.database, uow.session, uow.entities
    ensures uow.Valid() && (uow.fake ==> uow.committed)
    ensures reviewed.None? ==> caught == Some(Raised(EntityProcessingError)) && uow.Stored() == old(uow.Stored())
    ensures reviewed.Some? ==>
      && caught.None?
      && uow.Stored() == Consolidated(State(old(uow.Stored()), old(uow.database.state)), reviewed.value, uow.fake).session
    ensures uow.fake ==> uow.Stored() == old(uow.Stored())
  {
    uow.Enter();
    if reviewed.None? {
      caught := Some(Raised(EntityProcessingError));
      uow.Finish(true);
      return;
    }
    ghost var start := State(uow.session.working, uow.database.state);
    ProcessEach(uow, reviewed.value);
    if uow.fake {
      FakeConsolidatesNothing(start, reviewed.value);
    }
    uow.Finish(false);
    caught := None;
  }
}
