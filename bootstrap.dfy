/**
 * `bootstrap` of src/core/bootstrap.py: the three dependencies are gathered
 * by name, and every handler of the registries is wrapped by
 * `inject_dependencies`, which binds as keyword arguments exactly the
 * dependencies whose names are parameters of the handler. The message bus is
 * built from the wrapped registries and the same unit of work.
 */
module Bootstrap {
  import opened Wrappers
  import opened Messages
  import opened MessageBus
  import opened Registries

  /** A dependency object; the number stands for its identity. */
  datatype Dependency =
    | UnitOfWorkObject(id: nat)
    | DocumentAnalysisConnector(id: nat)
    | CanonicalEntityConsolidationConnector(id: nat)

  /** The parameter names that occur in the handlers' signatures. */
  datatype Param = CmdParam | EventParam | UowParam | AnalysisConnectorParam | ConsolidationConnectorParam | ArgsParam | KwargsParam

  /** Keyword arguments: parameter names with the objects bound to them, in order. */
  type Bindings = seq<(Param, Dependency)>

  /** The `dependencies` dict `bootstrap` builds, in its insertion order. */
  function Dependencies(uow: nat, analysis: nat, consolidation: nat): Bindings
  {
    [(UowParam, UnitOfWorkObject(uow)),
     (AnalysisConnectorParam, DocumentAnalysisConnector(analysis)),
     (ConsolidationConnectorParam, CanonicalEntityConsolidationConnector(consolidation))]
  }

  /** The handlers of core/service_layer/handlers.py whose signature is `(cmd, uow)`. */
  const CommandHandlers: set<HandlerName> := {
    "add_new_document", "add_entity", "add_stakeholder", "update_stakeholder", "update_entity",
    "update_document_summary", "create_topic", "update_topic", "delete_topic", "delete_stakeholder"}

  /**
   * `inspect.signature(handler).parameters` of each handler of
   * core/service_layer/handlers.py, by name: the message first, then the rest;
   * the loggers declare only `*args` and `**kwargs` (none for a name that is
   * not a handler).
   */
  function Params(h: HandlerName): seq<Param>
  {
    if h == "log_document_creation" || h == "log_document_processed" then [ArgsParam, KwargsParam]
    else if h == "log_hallucination" then [EventParam]
    else if h == "add_document_comments" then [EventParam, UowParam]
    else if h == "get_document_topics_entities_and_summary" then [EventParam, UowParam, AnalysisConnectorParam]
    else if h == "consolidate_canonical_entities" then [EventParam, UowParam, ConsolidationConnectorParam]
    else if h in CommandHandlers then [CmdParam, UowParam]
    else []
  }

  /** The `deps` comprehension of `inject_dependencies`: the dependencies whose name is a parameter, in order. */
  function Inject(params: seq<Param>, deps: Bindings): Bindings
  {
    if deps == [] then []
    else (if deps[0].0 in params then [deps[0]] else []) + Inject(params, deps[1..])
  }

  /** A binding is injected exactly when it is a dependency whose name is a parameter; nothing is reordered or added. */
  lemma {:induction false} InjectSpec(params: seq<Param>, deps: Bindings)
    ensures forall b :: b in Inject(params, deps) <==> b in deps && b.0 in params
    ensures |Inject(params, deps)| <= |deps|
    ensures (forall i :: 0 <= i < |deps| ==> deps[i].0 in params) ==> Inject(params, deps) == deps
    ensures (forall i :: 0 <= i < |deps| ==> deps[i].0 !in params) ==> Inject(params, deps) == []
  {
    if deps != [] {
      InjectSpec(params, deps[1..]);
      assert forall b :: b in deps <==> b == deps[0] || b in deps[1..];
      assert forall i :: 1 <= i < |deps| ==> deps[i] == deps[1..][i - 1];
    }
  }

  /** Injection distributes over concatenation, so the injected bindings keep the order of the dependencies. */
  lemma {:induction false} InjectAppend(params: seq<Param>, a: Bindings, b: Bindings)
    ensures Inject(params, a + b) == Inject(params, a) + Inject(params, b)
  {
    if a != [] {
      InjectAppend(params, a[1..], b);
      assert (a + b)[0] == a[0] && (a + b)[1..] == a[1..] + b;
    } else {
      assert a + b == b;
    }
  }

  /** Injecting from the three dependencies keeps each of them whose name is a parameter, in the dict's order. */
  lemma InjectDependencies(params: seq<Param>, uow: nat, analysis: nat, consolidation: nat)
    ensures var deps := Dependencies(uow, analysis, consolidation);
      Inject(params, deps) ==
        (if UowParam in params then [deps[0]] else []) +
        (if AnalysisConnectorParam in params then [deps[1]] else []) +
        (if ConsolidationConnectorParam in params then [deps[2]] else [])
  {
    var deps := Dependencies(uow, analysis, consolidation);
    assert deps[1..][1..][1..] == [];
    assert Inject(params, deps[1..][1..]) == (if ConsolidationConnectorParam in params then [deps[2]] else []);
  }

  /** `lambda message: handler(message, **deps)`: the handler and its bound keyword arguments. */
  datatype Bound = Bound(handler: HandlerName, kwargs: Bindings)

  function Bind(h: HandlerName, deps: Bindings): Bound
  {
    Bound(h, Inject(Params(h), deps))
  }

  /** Whether a name is looked up among the bindings, and what it is bound to. */
  function Lookup(kwargs: Bindings, name: Param): Option<Dependency>
  {
    if kwargs == [] then None
    else if kwargs[0].0 == name then Some(kwargs[0].1)
    else Lookup(kwargs[1..], name)
  }

  /** The list comprehension over one event type's handlers: each name kept, each handler wrapped. */
  function BindAll(hs: seq<HandlerName>, deps: Bindings): (r: seq<(HandlerName, Bound)>)
    ensures |r| == |hs|
    ensures forall i :: 0 <= i < |hs| ==> r[i] == (hs[i], Bind(hs[i], deps))
  {
    if hs == [] then [] else [(hs[0], Bind(hs[0], deps))] + BindAll(hs[1..], deps)
  }

  /** The MessageBus `bootstrap` returns: its unit of work and its wrapped registries. */
  datatype Wired = Wired(
    uow: Dependency,
    events: map<EventKind, seq<(HandlerName, Bound)>>,
    commands: map<CommandKind, (HandlerName, Bound)>)

  /** `bootstrap(uow, document_analysis_connector, canonical_entity_consolidation_connector)` over a registry. */
  function Boot(r: Registry, uow: nat, analysis: nat, consolidation: nat): Wired
  {
    var deps := Dependencies(uow, analysis, consolidation);
    Wired(UnitOfWorkObject(uow),
          map k | k in r.events :: BindAll(r.events[k], deps),
          map k | k in r.commands :: (r.commands[k], Bind(r.commands[k], deps)))
  }

  /**
   * Wrapping changes nothing a registry says: the same message types, and for
   * each the same handler names in the same order, each wrapping the handler
   * of its own name.
   */
  lemma BootKeepsRegistry(r: Registry, uow: nat, analysis: nat, consolidation: nat)
    ensures var w := Boot(r, uow, analysis, consolidation);
      && w.events.Keys == r.events.Keys && w.commands.Keys == r.commands.Keys
      && (forall k :: k in r.events ==>
            && |w.events[k]| == |r.events[k]|
            && forall i :: 0 <= i < |r.events[k]| ==>
                 w.events[k][i].0 == r.events[k][i] && w.events[k][i].1.handler == r.events[k][i])
      && (forall k :: k in r.commands ==> w.commands[k].0 == r.commands[k] && w.commands[k].1.handler == r.commands[k])
  {
  }

  /**
   * What the core event handlers are given: the comment handler the bus's own
   * unit of work, the analysis handler also the analysis connector, and the
   * loggers nothing.
   */
  lemma CoreEventHandlerInjection(uow: nat, analysis: nat, consolidation: nat)
    ensures var deps := Dependencies(uow, analysis, consolidation);
      && Bind("add_document_comments", deps).kwargs == [(UowParam, UnitOfWorkObject(uow))]
      && Bind("get_document_topics_entities_and_summary", deps).kwargs ==
           [(UowParam, UnitOfWorkObject(uow)), (AnalysisConnectorParam, DocumentAnalysisConnector(analysis))]
      && Bind("log_document_creation", deps).kwargs == []
      && Bind("log_hallucination", deps).kwargs == []
  {
    InjectDependencies([EventParam, UowParam], uow, analysis, consolidation);
    InjectDependencies([EventParam, UowParam, AnalysisConnectorParam], uow, analysis, consolidation);
    InjectDependencies([ArgsParam, KwargsParam], uow, analysis, consolidation);
    InjectDependencies([EventParam], uow, analysis, consolidation);
  }

  /**
   * What the core command handlers are given: the unit of work, and for the
   * consolidation handler also the consolidation connector.
   */
  lemma CoreCommandHandlerInjection(uow: nat, analysis: nat, consolidation: nat)
    ensures var deps := Dependencies(uow, analysis, consolidation);
      && Bind("consolidate_canonical_entities", deps).kwargs ==
           [(UowParam, UnitOfWorkObject(uow)), (ConsolidationConnectorParam, CanonicalEntityConsolidationConnector(consolidation))]
      && Bind("add_new_document", deps).kwargs == [(UowParam, UnitOfWorkObject(uow))]
      && Bind("update_entity", deps).kwargs == [(UowParam, UnitOfWorkObject(uow))]
  {
    InjectDependencies([EventParam, UowParam, ConsolidationConnectorParam], uow, analysis, consolidation);
    InjectDependencies([CmdParam, UowParam], uow, analysis, consolidation);
  }

  /** Whether calling the bound handler on a message supplies every parameter its signature declares. */
  predicate Supplied(b: Bound)
  {
    forall i :: 1 <= i < |Params(b.handler)| ==>
      Params(b.handler)[i] in {ArgsParam, KwargsParam} || Lookup(b.kwargs, Params(b.handler)[i]).Some?
  }

  /** Every dependency named by a parameter is bound, under that name, to that dependency's first binding. */
  lemma {:induction false} LookupInjected(params: seq<Param>, deps: Bindings, i: nat)
    requires i < |deps| && deps[i].0 in params
    requires forall j :: 0 <= j < i ==> deps[j].0 != deps[i].0
    ensures Lookup(Inject(params, deps), deps[i].0) == Some(deps[i].1)
  {
    if i > 0 {
      LookupInjected(params, deps[1..], i - 1);
      var rest := Inject(params, deps[1..]);
      if deps[0].0 in params {
        assert ([deps[0]] + rest)[1..] == rest;
      } else {
        assert [] + rest == rest;
      }
    }
  }

  /**
   * Whatever the handler, `inject_dependencies` with the bootstrap's three
   * dependencies binds every parameter after the message except `*args` and
   * `**kwargs`, so no call `handler(message, **deps)` of the core lacks an
   * argument; and a handler that names `uow` is given the bus's own unit of
   * work.
   */
  lemma BootSuppliesEveryParameter(h: HandlerName, uow: nat, analysis: nat, consolidation: nat)
    ensures Supplied(Bind(h, Dependencies(uow, analysis, consolidation)))
    ensures UowParam in Params(h) ==>
      Lookup(Bind(h, Dependencies(uow, analysis, consolidation)).kwargs, UowParam) == Some(UnitOfWorkObject(uow))
  {
    var deps := Dependencies(uow, analysis, consolidation);
    var ps := Params(h);
    forall i | 1 <= i < |ps| && ps[i] !in {ArgsParam, KwargsParam}
      ensures Lookup(Inject(ps, deps), ps[i]).Some?
    {
      assert ps[i] == deps[0].0 || ps[i] == deps[1].0 || ps[i] == deps[2].0;
      var j := if ps[i] == deps[0].0 then 0 else if ps[i] == deps[1].0 then 1 else 2;
      LookupInjected(ps, deps, j);
    }
    if UowParam in ps {
      LookupInjected(ps, deps, 0);
    }
  }
}
