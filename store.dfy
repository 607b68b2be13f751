/**
 * The database the repositories of core/adapters/repository.py talk to,
 * modelled as in-memory tables: one map from id to row per model class, the
 * two link tables the handlers write (EntitiesRawEntities and
 * DocumentEntities, each keyed by its id pair) and the changelog. A Session
 * works on its own copy, which `commit` publishes and `rollback` discards.
 */
module Store {
  import opened Wrappers
  import opened Messages
  import opened Domain

  /** A link row: (entity_id, raw_entity_id) or (document_id, entity_id), with its description. */
  datatype Link = Link(left: int, right: int, description: string)

  /** A changelog row: the updated aggregate's class name and id, and its snapshots before and after. */
  datatype Change = Change(entityName: string, entityId: int, previous: Row, revised: Row)

  /** Which link table. */
  datatype LinkTable = EntityRawEntities | DocumentEntities

  datatype Db = Db(
    documents: map<int, Row>,
    comments: map<int, Row>,
    rawTopics: map<int, Row>,
    topics: map<int, Row>,
    rawEntities: map<int, Row>,
    entities: map<int, Row>,
    stakeholders: map<int, Row>,
    entityRawEntities: seq<Link>,
    documentEntities: seq<Link>,
    changelog: seq<Change>)

  const EmptyDb: Db := Db(map[], map[], map[], map[], map[], map[], map[], [], [], [])

  /** The table of model class k. */
  function Table(db: Db, k: Kind): map<int, Row>
  {
    match k
    case DocumentKind => db.documents
    case CommentKind => db.comments
    case RawTopicKind => db.rawTopics
    case TopicKind => db.topics
    case RawEntityKind => db.rawEntities
    case EntityKind => db.entities
    case StakeholderKind => db.stakeholders
  }

  /** `db` with the table of class k replaced by `t`. */
  function WithTable(db: Db, k: Kind, t: map<int, Row>): (r: Db)
    ensures Table(r, k) == t
    ensures r.entityRawEntities == db.entityRawEntities && r.documentEntities == db.documentEntities
    ensures r.changelog == db.changelog
  {
    match k
    case DocumentKind => db.(documents := t)
    case CommentKind => db.(comments := t)
    case RawTopicKind => db.(rawTopics := t)
    case TopicKind => db.(topics := t)
    case RawEntityKind => db.(rawEntities := t)
    case EntityKind => db.(entities := t)
    case StakeholderKind => db.(stakeholders := t)
  }

  /** `db` with one more changelog row; every table and link stays. */
  function Logged(db: Db, c: Change): (r: Db)
    ensures forall k :: Table(r, k) == Table(db, k)
    ensures r.entityRawEntities == db.entityRawEntities && r.documentEntities == db.documentEntities
    ensures r.changelog == db.changelog + [c]
  {
    db.(changelog := db.changelog + [c])
  }

  /** Replacing one table leaves every other table as it was. */
  lemma WithTableOthers(db: Db, k: Kind, t: map<int, Row>, j: Kind)
    requires j != k
    ensures Table(WithTable(db, k, t), j) == Table(db, j)
  {
  }

  function Links(db: Db, which: LinkTable): seq<Link>
  {
    match which
    case EntityRawEntities => db.entityRawEntities
    case DocumentEntities => db.documentEntities
  }

  // ---------------------------------------------------------------------------
  // Primary keys

  /** The largest element of a finite nonempty set exists. */
  lemma {:induction false} MaxExists(s: set<int>)
    requires exists y :: y in s
    ensures exists m :: m in s && forall k :: k in s ==> k <= m
  {
    var x :| x in s;
    if exists y :: y in s - {x} {
      MaxExists(s - {x});
      var m :| m in s - {x} && forall k :: k in s - {x} ==> k <= m;
      assert forall k :: k in s ==> k == x || k in s - {x};
      if x > m {
        assert forall k :: k in s ==> k <= x;
      } else {
        assert forall k :: k in s ==> k <= m;
      }
    } else {
      assert forall k :: k in s ==> k == x || k in s - {x};
    }
  }

  function MaxOf(s: set<int>): (m: int)
    requires exists y :: y in s
    ensures m in s && forall k :: k in s ==> k <= m
  {
    MaxExists(s);
    var m :| m in s && forall k :: k in s ==> k <= m; m
  }

  /** The id an autoincrement primary key gives the next row: one past the largest, 1 in an empty table. */
  function NextId(t: map<int, Row>): int
  {
    if exists y :: y in t then MaxOf(t.Keys) + 1 else 1
  }

  /** The next id is fresh and above every id in use; in a table of ids 1..n it is n + 1. */
  lemma NextIdFresh(t: map<int, Row>)
    ensures NextId(t) !in t
    ensures forall k :: k in t ==> k < NextId(t)
    ensures (forall k :: k in t ==> 1 <= k) ==> 1 <= NextId(t)
    ensures (forall k :: k in t <==> 1 <= k <= |t|) ==> NextId(t) == |t| + 1
  {
    if (forall k :: k in t <==> 1 <= k <= |t|) && exists y :: y in t {
      RangeSize(t.Keys, |t|);
      assert |t| in t.Keys;
    }
  }

  /** A set holding exactly 1..n has n elements. */
  lemma {:induction false} RangeSize(s: set<int>, n: nat)
    requires forall k :: k in s <==> 1 <= k <= n
    ensures |s| == n
  {
    if n > 0 {
      RangeSize(s - {n}, n - 1);
    } else {
      assert forall k :: k !in s;
    }
  }

  // ---------------------------------------------------------------------------
  // Writes

  /** The row `Kind(**attrs)` is stored as: the given attributes with the assigned id, completed with defaults. */
  function NewRow(db: Db, k: Kind, attrs: Row): Row
  {
    Complete(k, attrs[Id := Number(NextId(Table(db, k)))])
  }

  /** `session.add(row); session.flush()`: the row stored under the next id of its table. */
  function Insert(db: Db, k: Kind, attrs: Row): Db
  {
    WithTable(db, k, Table(db, k)[NextId(Table(db, k)) := NewRow(db, k, attrs)])
  }

  /** A new row holds every declared field, its assigned id, and the given value of every other declared field. */
  lemma NewRowSpec(db: Db, k: Kind, attrs: Row)
    ensures NewRow(db, k, attrs).Keys == Declared(k)
    ensures NewRow(db, k, attrs)[Id] == Number(NextId(Table(db, k)))
    ensures forall f :: f in Declared(k) && f in attrs && f != Id ==> NewRow(db, k, attrs)[f] == attrs[f]
  {
    assert Id in Declared(k);
  }

  /** The new row's id field holds the next id of its table. */
  lemma NewRowId(db: Db, k: Kind, attrs: Row)
    ensures IntField(NewRow(db, k, attrs), Id) == Some(NextId(Table(db, k)))
  {
    assert Id in Declared(k);
  }

  /** The row is stored under a fresh id and no other row of its table changes. */
  lemma InsertSpec(db: Db, k: Kind, attrs: Row)
    ensures NextId(Table(db, k)) !in Table(db, k)
    ensures Table(Insert(db, k, attrs), k) == Table(db, k)[NextId(Table(db, k)) := NewRow(db, k, attrs)]
    ensures forall i :: i in Table(db, k) ==> i in Table(Insert(db, k, attrs), k) && Table(Insert(db, k, attrs), k)[i] == Table(db, k)[i]
  {
    NextIdFresh(Table(db, k));
  }

  /** One `add` per entry of `rows`, in order. */
  function InsertAll(db: Db, k: Kind, rows: seq<Row>): Db
  {
    if rows == [] then db else Insert(InsertAll(db, k, rows[..|rows| - 1]), k, rows[|rows| - 1])
  }

  /**
   * Adding a sequence of rows adds exactly one row per entry to the table of
   * class k, keeps every row already there, and leaves the other tables, the
   * link tables and the changelog alone.
   */
  lemma {:induction false} InsertAllAddsOnePerEntry(db: Db, k: Kind, rows: seq<Row>)
    ensures |Table(InsertAll(db, k, rows), k)| == |Table(db, k)| + |rows|
    ensures Table(db, k).Keys <= Table(InsertAll(db, k, rows), k).Keys
    ensures forall i :: i in Table(db, k) ==> Table(InsertAll(db, k, rows), k)[i] == Table(db, k)[i]
    ensures forall j :: j != k ==> Table(InsertAll(db, k, rows), j) == Table(db, j)
    ensures InsertAll(db, k, rows).documentEntities == db.documentEntities
    ensures InsertAll(db, k, rows).entityRawEntities == db.entityRawEntities
    ensures InsertAll(db, k, rows).changelog == db.changelog
    decreases |rows|
  {
    if rows != [] {
      var before := InsertAll(db, k, rows[..|rows| - 1]);
      InsertAllAddsOnePerEntry(db, k, rows[..|rows| - 1]);
      InsertSpec(before, k, rows[|rows| - 1]);
      assert |Table(InsertAll(db, k, rows), k)| == |Table(before, k)| + 1;
      forall j | j != k
        ensures Table(InsertAll(db, k, rows), j) == Table(db, j)
      {
        WithTableOthers(before, k, Table(InsertAll(db, k, rows), k), j);
      }
    }
  }

  /** Adding two sequences of rows one after the other adds their concatenation. */
  lemma {:induction false} InsertAllAppend(db: Db, k: Kind, a: seq<Row>, b: seq<Row>)
    ensures InsertAll(db, k, a + b) == InsertAll(InsertAll(db, k, a), k, b)
    decreases |b|
  {
    if b == [] {
      assert a + b == a;
    } else {
      InsertAllAppend(db, k, a, b[..|b| - 1]);
      assert (a + b)[..|a + b| - 1] == a + b[..|b| - 1];
      assert (a + b)[|a + b| - 1] == b[|b| - 1];
    }
  }

  /** Every stored row holds its own primary key in its id field, and no column its model does not declare. */
  predicate WellFormed(db: Db)
  {
    forall k: Kind, i :: i in Table(db, k) ==> IntField(Table(db, k)[i], Id) == Some(i) && Table(db, k)[i].Keys <= Declared(k)
  }

  /** The stored row after `setattr(stored, key, value)` for every (key, value) of `updated` with key in `fields`. */
  function Overwrite(stored: Row, updated: Row, fields: set<Field>): Row
  {
    map f | f in stored.Keys + (updated.Keys * fields) :: if f in updated && f in fields then updated[f] else stored[f]
  }

  /**
   * Only attributes named in `fields` change, and each takes the updated
   * object's value; in particular the version changes only when "version" is named.
   */
  lemma OverwriteOnlyNamed(stored: Row, updated: Row, fields: set<Field>)
    ensures forall f :: f in stored && f !in fields ==> Overwrite(stored, updated, fields)[f] == stored[f]
    ensures forall f :: f in updated && f in fields ==> Overwrite(stored, updated, fields)[f] == updated[f]
    ensures Overwrite(stored, updated, fields).Keys == stored.Keys + (updated.Keys * fields)
    ensures Version in stored && Version !in fields ==> Overwrite(stored, updated, fields)[Version] == stored[Version]
  {
  }

  /** Naming one field the updated object holds copies that field alone; naming one it lacks copies nothing. */
  lemma OverwriteOne(stored: Row, updated: Row, f: Field)
    ensures f in updated ==> Overwrite(stored, updated, {f}) == stored[f := updated[f]]
    ensures f !in updated ==> Overwrite(stored, updated, {f}) == stored
  {
    if f in updated {
      assert Overwrite(stored, updated, {f}).Keys == stored[f := updated[f]].Keys;
    } else {
      assert Overwrite(stored, updated, {f}).Keys == stored.Keys;
    }
  }

  /** The `for key, value in dict(updated_obj).items()` loop of the `_update` methods. */
  method CopyFields(stored: Row, updated: Row, fields: set<Field>) returns (row: Row)
    ensures row == Overwrite(stored, updated, fields)
  {
    row := stored;
    var rest := updated.Keys;
    while rest != {}
      invariant rest <= updated.Keys
      invariant row.Keys == stored.Keys + ((updated.Keys - rest) * fields)
      invariant forall f :: f in row ==> row[f] == if f in updated && f !in rest && f in fields then updated[f] else stored[f]
      decreases rest
    {
      var key :| key in rest;
      if key in fields {
        row := row[key := updated[key]];
      }
      rest := rest - {key};
    }
  }

  /** The ids of a table's rows, each once, in no particular order (`query(...).all()`). */
  method KeysOf(t: map<int, Row>) returns (ids: seq<int>)
    ensures forall id :: id in ids <==> id in t
    ensures forall i :: 0 <= i < |ids| ==> ids[i] in t
    ensures forall i, j :: 0 <= i < j < |ids| ==> ids[i] != ids[j]
    ensures |ids| == |t|
  {
    ids := [];
    var rest := t.Keys;
    while exists y :: y in rest
      invariant rest <= t.Keys
      invariant |ids| + |rest| == |t|
      invariant forall id :: id in ids <==> id in t && id !in rest
      invariant forall i, j :: 0 <= i < j < |ids| ==> ids[i] != ids[j]
      decreases rest
    {
      var id :| id in rest;
      ids := ids + [id];
      rest := rest - {id};
    }
  }

  /** The rows a table holds after one is deleted. */
  function Delete(db: Db, k: Kind, id: int): Db
  {
    WithTable(db, k, Table(db, k) - {id})
  }

  /** Whether a link table already holds the primary key (left, right). */
  predicate HasKey(links: seq<Link>, left: int, right: int)
  {
    exists i :: 0 <= i < |links| && links[i].left == left && links[i].right == right
  }

  /** `session.add(link); session.flush()`: appended, unless its id pair is taken (IntegrityError). */
  function AddLink(db: Db, which: LinkTable, l: Link): Result<Db, Fault>
  {
    if HasKey(Links(db, which), l.left, l.right) then Err(DuplicateLink(l.left, l.right))
    else match which
      case EntityRawEntities => Ok(db.(entityRawEntities := db.entityRawEntities + [l]))
      case DocumentEntities => Ok(db.(documentEntities := db.documentEntities + [l]))
  }

  /** A link that is added is appended to its own table; nothing else changes. */
  lemma AddLinkAppends(db: Db, which: LinkTable, l: Link)
    ensures AddLink(db, which, l).Err? <==> HasKey(Links(db, which), l.left, l.right)
    ensures AddLink(db, which, l).Err? ==> AddLink(db, which, l).error == DuplicateLink(l.left, l.right)
    ensures AddLink(db, which, l).Ok? ==>
      var next := AddLink(db, which, l).value;
      && (forall k :: Table(next, k) == Table(db, k)) && next.changelog == db.changelog
      && (which == EntityRawEntities ==> next.entityRawEntities == db.entityRawEntities + [l] && next.documentEntities == db.documentEntities)
      && (which == DocumentEntities ==> next.documentEntities == db.documentEntities + [l] && next.entityRawEntities == db.entityRawEntities)
  {
  }

  /** No two links of a table share their id pair. */
  ghost predicate KeysUnique(links: seq<Link>)
  {
    forall i, j :: 0 <= i < j < |links| ==> (links[i].left, links[i].right) != (links[j].left, links[j].right)
  }

  /**
   * Adding a link keeps its table's primary keys unique; it fails exactly when
   * the pair is present, and otherwise appends the link and changes nothing else.
   */
  lemma AddLinkKeepsKeysUnique(db: Db, which: LinkTable, l: Link)
    requires KeysUnique(Links(db, which))
    ensures AddLink(db, which, l).Err? <==> HasKey(Links(db, which), l.left, l.right)
    ensures AddLink(db, which, l).Ok? ==>
      && Links(AddLink(db, which, l).value, which) == Links(db, which) + [l]
      && KeysUnique(Links(AddLink(db, which, l).value, which))
      && (forall k :: Table(AddLink(db, which, l).value, k) == Table(db, k))
      && AddLink(db, which, l).value.changelog == db.changelog
  {
    if AddLink(db, which, l).Ok? {
      var links' := Links(AddLink(db, which, l).value, which);
      forall i, j | 0 <= i < j < |links'|
        ensures (links'[i].left, links'[i].right) != (links'[j].left, links'[j].right)
      {
        if j == |links'| - 1 {
          assert links'[i] == Links(db, which)[i];
        }
      }
    }
  }

  // ---------------------------------------------------------------------------
  // The document <-> entity join

  /**
   * The rows of `t` reached through the links whose `left` (or, with
   * fromRight, whose `right`) is `id`, in link order, skipping links to rows
   * that do not exist.
   */
  function Joined(links: seq<Link>, id: int, fromRight: bool, t: map<int, Row>): seq<Row>
  {
    if links == [] then []
    else Reached(links[0], id, fromRight, t) + Joined(links[1..], id, fromRight, t)
  }

  /** The end of a link that is looked up by, and the end it leads to. */
  function Near(l: Link, fromRight: bool): int { if fromRight then l.right else l.left }
  function Far(l: Link, fromRight: bool): int { if fromRight then l.left else l.right }

  /** What one link contributes to the join. */
  function Reached(l: Link, id: int, fromRight: bool, t: map<int, Row>): seq<Row>
  {
    if Near(l, fromRight) == id && Far(l, fromRight) in t then [t[Far(l, fromRight)]] else []
  }

  /**
   * A row is joined exactly when some link from `id` reaches it; the join
   * never holds more rows than there are links.
   */
  lemma {:induction false} JoinedSpec(links: seq<Link>, id: int, fromRight: bool, t: map<int, Row>)
    ensures |Joined(links, id, fromRight, t)| <= |links|
    ensures forall r :: r in Joined(links, id, fromRight, t) <==>
      exists i :: (0 <= i < |links| && Near(links[i], fromRight) == id && Far(links[i], fromRight) in t
        && r == t[Far(links[i], fromRight)])
  {
    if links != [] {
      JoinedSpec(links[1..], id, fromRight, t);
      assert forall i :: 1 <= i < |links| ==> links[i] == links[1..][i - 1];
      forall r | r in Joined(links, id, fromRight, t)
        ensures exists i :: (0 <= i < |links| && Near(links[i], fromRight) == id && Far(links[i], fromRight) in t
          && r == t[Far(links[i], fromRight)])
      {
        if r !in Joined(links[1..], id, fromRight, t) {
          assert r in Reached(links[0], id, fromRight, t);
        } else {
          var i :| (0 <= i < |links[1..]| && Near(links[1..][i], fromRight) == id && Far(links[1..][i], fromRight) in t
            && r == t[Far(links[1..][i], fromRight)]);
          assert links[i + 1] == links[1..][i];
        }
      }
    }
  }

  /** The inner `for link in links` loop of Document `_list` (and Entity `_list`). */
  method Join(links: seq<Link>, id: int, fromRight: bool, t: map<int, Row>) returns (rows: seq<Row>)
    ensures rows == Joined(links, id, fromRight, t)
  {
    rows := [];
    var rest := links;
    while rest != []
      invariant Joined(links, id, fromRight, t) == rows + Joined(rest, id, fromRight, t)
      decreases |rest|
    {
      var l := rest[0];
      var found := [];
      if Near(l, fromRight) == id && Far(l, fromRight) in t {
        found := [t[Far(l, fromRight)]];
      }
      Associate(rows, found, Joined(rest[1..], id, fromRight, t));
      rows := rows + found;
      rest := rest[1..];
    }
  }

  lemma Associate<T>(a: seq<T>, b: seq<T>, c: seq<T>)
    ensures a + (b + c) == (a + b) + c
  {
  }

  /** The entities a document's `entities` list holds after Document `_list`. */
  function EntitiesOf(db: Db, documentId: int): seq<Row>
  {
    Joined(db.documentEntities, documentId, false, db.entities)
  }

  /** The documents an entity's `documents` list holds after Entity `_list`. */
  function DocumentsOf(db: Db, entityId: int): seq<Row>
  {
    Joined(db.documentEntities, entityId, true, db.documents)
  }

  // ---------------------------------------------------------------------------
  // Database and session

  /** The committed state of the database. */
  class Database {
    var state: Db

    constructor (initial: Db)
      ensures state == initial
    {
      state := initial;
    }
  }

  /** A session: the database it was opened on, and the rows it has flushed but not committed. */
  class Session {
    const database: Database
    var working: Db

    constructor (database: Database)
      ensures this.database == database && working == database.state
    {
      this.database := database;
      working := database.state;
    }

    /** `session.commit()`: the flushed rows become the database's. */
    method Commit()
      modifies database
      ensures database.state == working
    {
      database.state := working;
    }

    /** `session.rollback()`: everything flushed since the last commit is discarded. */
    method Rollback()
      modifies this
      ensures working == database.state
    {
      working := database.state;
    }

    /** `session.add(...); session.flush()` of some change to the rows. */
    method Flush(db: Db)
      modifies this
      ensures working == db
    {
      working := db;
    }
  }
}
