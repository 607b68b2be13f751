/**
 * The unit of work of src/core/service_layer/unit_of_work.py: a scope that
 * opens a session and its repositories, publishes with `commit`, discards
 * with `rollback` (which leaving the scope always calls), and harvests the
 * events the aggregates its repositories have seen are holding.
 */
module UnitOfWork {
  import opened Wrappers
  import opened Messages
  import opened Domain
  import opened Store
  import opened Repository

  /** The events of several buffers, one buffer after the other. */
  function Concat(buffers: seq<seq<Event>>): seq<Event>
  {
    if buffers == [] then [] else Concat(buffers[..|buffers| - 1]) + buffers[|buffers| - 1]
  }

  /** Draining one group of buffers, then another, yields the two in that order. */
  lemma {:induction false} ConcatAppend(a: seq<seq<Event>>, b: seq<seq<Event>>)
    ensures Concat(a + b) == Concat(a) + Concat(b)
    decreases |b|
  {
    if b != [] {
      ConcatAppend(a, b[..|b| - 1]);
      assert (a + b)[..|a + b| - 1] == a + b[..|b| - 1];
      assert (a + b)[|a + b| - 1] == b[|b| - 1];
      assert Concat(a + b) == Concat(a + b[..|b| - 1]) + b[|b| - 1];
      assert Concat(b) == Concat(b[..|b| - 1]) + b[|b| - 1];
    } else {
      assert a + b == a;
    }
  }

  /** Empty buffers yield nothing, and buffers that yield nothing are all empty. */
  lemma {:induction false} ConcatEmpty(buffers: seq<seq<Event>>)
    ensures Concat(buffers) == [] <==> forall i :: 0 <= i < |buffers| ==> buffers[i] == []
  {
    if buffers != [] {
      ConcatEmpty(buffers[..|buffers| - 1]);
      assert forall i :: 0 <= i < |buffers| - 1 ==> buffers[..|buffers| - 1][i] == buffers[i];
    }
  }

  /**
   * The body of `for object in repository.seen` for one repository: each
   * object in turn, in no particular order, has its buffer drained front
   * first. `order` is the order the objects were visited in and `buffers` what
   * each one held.
   */
  method DrainEach(objs: set<Aggregate>) returns (collected: seq<Event>, ghost order: seq<Aggregate>, ghost buffers: seq<seq<Event>>)
    modifies objs
    ensures |order| == |buffers|
    ensures forall a :: a in order <==> a in objs
    ensures forall i, j :: 0 <= i < j < |order| ==> order[i] != order[j]
    ensures forall i :: 0 <= i < |order| ==> order[i] in objs && buffers[i] == old(order[i].events) && order[i].events == []
    ensures forall a :: a in objs ==> a.fields == old(a.fields) && a.linked == old(a.linked)
    ensures collected == Concat(buffers)
  {
    collected, order, buffers := [], [], [];
    var rest := objs;
    while exists y :: y in rest
      invariant rest <= objs
      invariant |order| == |buffers|
      invariant forall a :: a in order <==> a in objs && a !in rest
      invariant forall i, j :: 0 <= i < j < |order| ==> order[i] != order[j]
      invariant forall i :: 0 <= i < |order| ==> order[i] in objs && buffers[i] == old(order[i].events) && order[i].events == []
      invariant forall a :: a in rest ==> a.events == old(a.events)
      invariant forall a :: a in objs ==> a.fields == old(a.fields) && a.linked == old(a.linked)
      invariant collected == Concat(buffers)
      decreases rest
    {
      var obj :| obj in rest;
      var popped := obj.Drain();
      assert (buffers + [popped])[..|buffers|] == buffers;
      collected := collected + popped;
      order, buffers := order + [obj], buffers + [popped];
      rest := rest - {obj};
    }
  }

  /**
   * A new, empty repository of every class over session `s`; for the tests'
   * fake unit of work, the in-memory Document and Comment repositories.
   */
  method NewRepositories(s: Session, legacy: bool, fake: bool)
    returns (d: Repository, c: Repository, rt: Repository, re: Repository, e: Repository)
    ensures fresh(d) && fresh(c) && fresh(rt) && fresh(re) && fresh(e)
    ensures d.kind == DocumentKind && d.session == s && d.legacy == legacy && d.fake == (fake && !legacy) && d.seen == {}
    ensures c.kind == CommentKind && c.session == s && c.legacy == legacy && c.fake == (fake && !legacy) && c.seen == {}
    ensures rt.kind == RawTopicKind && rt.session == s && !rt.legacy && rt.seen == {}
    ensures re.kind == RawEntityKind && re.session == s && !re.legacy && re.seen == {}
    ensures e.kind == EntityKind && e.session == s && !e.legacy && e.seen == {}
  {
    d := new Repository(DocumentKind, legacy, fake && !legacy, s);
    c := new Repository(CommentKind, legacy, fake && !legacy, s);
    rt := new Repository(RawTopicKind, false, false, s);
    re := new Repository(RawEntityKind, false, false, s);
    e := new Repository(EntityKind, false, false, s);
  }

  /**
   * A unit of work. `legacy` marks the src one, whose repositories are the
   * src Document and Comment repositories; the other five repositories are
   * those the core handlers use. `fake` marks the FakeUnitOfWork of the
   * handler tests: its repositories outlive a scope, `commit` only raises the
   * `committed` flag and `rollback` does nothing; its Document and Comment
   * repositories are the in-memory ones, and it has no other repository,
   * which the handlers that reach for one account for.
   */
  class UnitOfWork {
    const legacy: bool
    const fake: bool
    const database: Database
    var session: Session
    var documents: Repository
    var comments: Repository
    var rawTopics: Repository
    var rawEntities: Repository
    var entities: Repository
    var committed: bool
    /** Whether the repositories exist as attributes: the SQL unit of work creates them in `__enter__`. */
    var entered: bool

    /** Each repository serves its class over this unit's session, and has seen only objects of its class. */
    ghost predicate Valid()
      reads this, documents, comments
    {
      && session.database == database
      && documents.kind == DocumentKind && documents.session == session && documents.legacy == legacy
      && comments.kind == CommentKind && comments.session == session && comments.legacy == legacy
      && documents.fake == (fake && !legacy) && comments.fake == (fake && !legacy)
      && rawTopics.kind == RawTopicKind && rawTopics.session == session && !rawTopics.legacy
      && rawEntities.kind == RawEntityKind && rawEntities.session == session && !rawEntities.legacy
      && entities.kind == EntityKind && entities.session == session && !entities.legacy
      && (forall a :: a in documents.seen ==> a.kind == DocumentKind)
      && (forall a :: a in comments.seen ==> a.kind == CommentKind)
    }

    ghost function Repositories(): set<Repository>
      reads this
    {
      {documents, comments, rawTopics, rawEntities, entities}
    }

    /** Whether no repository has seen anything yet. */
    ghost predicate Unseen()
      reads this, Repositories()
    {
      && documents.seen == {} && comments.seen == {} && rawTopics.seen == {}
      && rawEntities.seen == {} && entities.seen == {}
    }

    /** The rows that last: the database's for a real unit of work, the session's for the fake one. */
    ghost function Stored(): Db
      reads this, session, database
    {
      if fake then session.working else database.state
    }

    /** A unit of work over `database`; the fake one builds its repositories (and a session) at once. */
    constructor (database: Database, legacy: bool, fake: bool)
      ensures this.database == database && this.legacy == legacy && this.fake == fake
      ensures Valid() && Unseen() && !committed && session.working == database.state
      ensures entered == (fake && !legacy)
    {
      this.database := database;
      this.legacy := legacy;
      this.fake := fake;
      committed := false;
      entered := fake && !legacy;
      var s := new Session(database);
      var d, c, rt, re, e := NewRepositories(s, legacy, fake);
      session, documents, comments, rawTopics, rawEntities, entities := s, d, c, rt, re, e;
    }

    /** A new session on the database and a new, empty repository of every class over it. */
    method Open()
      modifies this`session, this`documents, this`comments, this`rawTopics
      modifies this`rawEntities, this`entities, this`entered
      ensures Valid() && Unseen() && fresh(session) && fresh(documents) && fresh(comments) && fresh(rawTopics)
      ensures fresh(rawEntities) && fresh(entities)
      ensures session.working == database.state && entered
    {
      entered := true;
      var s := new Session(database);
      var d, c, rt, re, e := NewRepositories(s, legacy, fake);
      session, documents, comments, rawTopics, rawEntities, entities := s, d, c, rt, re, e;
    }

    /**
     * `__enter__`: a real unit of work opens a new session and new repositories,
     * so every scope starts with nothing seen; the fake one keeps its own.
     */
    method Enter()
      requires Valid()
      modifies this`session, this`documents, this`comments, this`rawTopics
      modifies this`rawEntities, this`entities, this`entered
      ensures Valid() && Stored() == old(Stored()) && session.working == Stored() && entered
      ensures !fake ==> Unseen() && fresh(session) && fresh(Repositories())
      ensures fake ==> session == old(session) && Repositories() == old(Repositories())
      ensures fake ==> documents == old(documents) && comments == old(comments)
      ensures fake ==> session.working == old(session.working)
    {
      if !fake {
        Open();
      } else {
        entered := true;
      }
    }

    /** `commit`: the session's rows become the database's; the fake one records that it committed. */
    method Commit()
      requires Valid()
      modifies this`committed, database
      ensures !fake ==> database.state == session.working && committed == old(committed)
      ensures fake ==> committed && database.state == old(database.state)
    {
      if fake {
        committed := true;
      } else {
        session.Commit();
      }
    }

    /** `rollback`: the session's uncommitted rows are dropped; the fake one does nothing. */
    method Rollback()
      requires Valid()
      modifies session
      ensures !fake ==> session.working == database.state
      ensures fake ==> session.working == old(session.working)
    {
      if !fake {
        session.Rollback();
      }
    }

    /** `__exit__`: leaving the scope always rolls back, so only what was committed lasts. */
    method Exit()
      requires Valid()
      modifies session
      ensures !fake ==> session.working == database.state
      ensures fake ==> session.working == old(session.working)
    {
      Rollback();
    }

    /**
     * A `finally: uow.commit()` at the end of a handler's scope, then leaving
     * the scope: what the session holds is what lasts, and the session goes on
     * holding it.
     */
    method CommitThenExit()
      requires Valid()
      modifies this`committed, database, session
      ensures Valid()
      ensures session.working == old(session.working) && Stored() == session.working
      ensures fake ==> committed
    {
      Commit();
      Exit();
    }

    /**
     * The end of a handler's scope: `except: uow.rollback()` when something
     * was caught, then `finally: uow.commit()` and leaving the scope.
     */
    method Finish(caught: bool)
      requires Valid()
      modifies this`committed, database, session
      ensures Valid() && (fake ==> committed)
      ensures Stored() == session.working
      ensures Stored() == if caught && !fake then old(database.state) else old(session.working)
    {
      if caught {
        Rollback();
      }
      CommitThenExit();
    }

    /** Whether every object the Document and Comment repositories have seen has an empty buffer. */
    ghost predicate Drained()
      reads this, documents, comments, documents.seen, comments.seen
    {
      forall a :: a in documents.seen + comments.seen ==> a.events == []
    }

    /**
     * `collect_new_events`, consumed to the end: every object the Document
     * repository has seen is visited before any the Comment repository has
     * seen, each object once, and each object's buffer is drained front first,
     * so that what is yielded is the Document objects' buffers one after the
     * other, then the Comment objects'. Afterwards no buffer holds anything, and
     * a unit of work already drained yields nothing.
     */
    method CollectNewEvents() returns (collected: seq<Event>,
                                       ghost documentOrder: seq<Aggregate>, ghost documentBuffers: seq<seq<Event>>,
                                       ghost commentOrder: seq<Aggregate>, ghost commentBuffers: seq<seq<Event>>)
      requires Valid()
      modifies documents.seen, comments.seen
      ensures Drained()
      ensures collected == Concat(documentBuffers) + Concat(commentBuffers)
      ensures |documentOrder| == |documentBuffers| && |commentOrder| == |commentBuffers|
      ensures forall a :: a in documentOrder <==> a in documents.seen
      ensures forall a :: a in commentOrder <==> a in comments.seen
      ensures forall i, j :: 0 <= i < j < |documentOrder| ==> documentOrder[i] != documentOrder[j]
      ensures forall i, j :: 0 <= i < j < |commentOrder| ==> commentOrder[i] != commentOrder[j]
      ensures forall i :: 0 <= i < |documentOrder| ==>
        documentOrder[i] in documents.seen && documentBuffers[i] == old(documentOrder[i].events)
      ensures forall i :: 0 <= i < |commentOrder| ==>
        commentOrder[i] in comments.seen && commentBuffers[i] == old(commentOrder[i].events)
      ensures forall a :: a in documents.seen ==> a.fields == old(a.fields) && a.linked == old(a.linked)
      ensures forall a :: a in comments.seen ==> a.fields == old(a.fields) && a.linked == old(a.linked)
      ensures old(Drained()) ==> collected == []
    {
      var first;
      first, documentOrder, documentBuffers := DrainEach(documents.seen);
      assert forall a :: a in comments.seen ==> a !in documents.seen && a.events == old(a.events);
      var second;
      second, commentOrder, commentBuffers := DrainEach(comments.seen);
      collected := first + second;
      ConcatEmpty(documentBuffers);
      ConcatEmpty(commentBuffers);
    }
  }
}
