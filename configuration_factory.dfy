/**
 * Bookkeeping of the configuration factory: ordering fragment factories by
 * their declared dependencies, assembling the target configurations of a
 * request (one per CPU in multi-CPU mode, without duplicates), and the keyed
 * cache that makes equal configurations one shared instance.
 */
module ConfigurationFactory {
  import opened Wrappers

  /** A configuration fragment class, by name. */
  type FragmentKind = string

  /** A fragment factory, as its `creates()` and `requires()` declarations. */
  datatype FragmentFactory = FragmentFactory(creates: FragmentKind, required: seq<FragmentKind>)

  /** A dependency edge (required kind, creating kind). */
  type Edge = (FragmentKind, FragmentKind)

  /* ---------------------------------------------------------------------- */
  /* The dependency graph and its topological order                          */
  /* ---------------------------------------------------------------------- */

  /** The nodes one factory adds: its created kind and each required kind (adding an edge adds its ends). */
  function NodesOf(f: FragmentFactory): set<FragmentKind> {
    {f.creates} + (set k | k in f.required)
  }

  /** The edges one factory adds: one from each required kind to its created kind. */
  function EdgesOf(f: FragmentFactory): set<Edge> {
    set k | k in f.required :: (k, f.creates)
  }

  /** The graph's nodes after adding the factories in order. */
  function GraphNodes(factories: seq<FragmentFactory>): set<FragmentKind> {
    if factories == [] then {}
    else
      var f := factories[|factories| - 1];
      GraphNodes(factories[..|factories| - 1]) + NodesOf(f)
  }

  /** The graph's edges: one from every required kind to the kind that requires it. */
  function GraphEdges(factories: seq<FragmentFactory>): set<Edge> {
    if factories == [] then {}
    else
      var f := factories[|factories| - 1];
      GraphEdges(factories[..|factories| - 1]) + EdgesOf(f)
  }

  /** Every created kind is a node, and every requirement is an edge into the creating kind, and nothing else. */
  lemma {:induction false} GraphShape(factories: seq<FragmentFactory>)
    ensures forall k :: k in GraphNodes(factories) <==>
              exists f :: f in factories && (k == f.creates || k in f.required)
    ensures forall e :: e in GraphEdges(factories) <==>
              exists f :: f in factories && e.1 == f.creates && e.0 in f.required
    ensures forall e :: e in GraphEdges(factories) ==>
              e.0 in GraphNodes(factories) && e.1 in GraphNodes(factories)
  {
    if factories != [] {
      var init := factories[..|factories| - 1];
      var f := factories[|factories| - 1];
      GraphShape(init);
      assert factories == init + [f];
    }
  }

  /** Each node of the order comes after all of its predecessors. */
  ghost predicate PredecessorsFirst(order: seq<FragmentKind>, edges: set<Edge>) {
    forall i, y :: 0 <= i < |order| && (y, order[i]) in edges ==> y in order[..i]
  }

  /** `order` lists every node once and respects every edge. */
  ghost predicate IsTopologicalOrder(order: seq<FragmentKind>, nodes: set<FragmentKind>, edges: set<Edge>) {
    && Distinct(order)
    && (forall x :: x in order <==> x in nodes)
    && PredecessorsFirst(order, edges)
  }

  /** Appending a node whose predecessors are all placed keeps every node after its predecessors. */
  lemma PredecessorsFirstExtend(order: seq<FragmentKind>, edges: set<Edge>, x: FragmentKind)
    requires PredecessorsFirst(order, edges)
    requires forall y :: (y, x) in edges ==> y in order
    ensures PredecessorsFirst(order + [x], edges)
  {
    var order' := order + [x];
    forall i, y | 0 <= i < |order'| && (y, order'[i]) in edges
      ensures y in order'[..i]
    {
      if i < |order| {
        assert order'[..i] == order[..i];
      } else {
        assert order'[..i] == order;
      }
    }
  }

  /** `x` has a predecessor in `nodes`. */
  ghost predicate HasPredecessorIn(x: FragmentKind, nodes: set<FragmentKind>, edges: set<Edge>) {
    exists y :: y in nodes && (y, x) in edges
  }

  /** No node of a set whose every node has a predecessor inside the set can be placed after its predecessors. */
  lemma {:induction false} StuckNeverPlaced(stuck: set<FragmentKind>, edges: set<Edge>, order: seq<FragmentKind>)
    requires PredecessorsFirst(order, edges)
    requires forall x {:trigger HasPredecessorIn(x, stuck, edges)} :: x in stuck ==> HasPredecessorIn(x, stuck, edges)
    ensures forall x :: x in stuck ==> x !in order
  {
    if order != [] {
      var init := order[..|order| - 1];
      var last := order[|order| - 1];
      assert order == init + [last];
      forall i, y | 0 <= i < |init| && (y, init[i]) in edges
        ensures y in init[..i]
      {
        assert init[..i] == order[..i];
      }
      StuckNeverPlaced(stuck, edges, init);
      forall y | (y, last) in edges
        ensures y !in stuck
      {
        assert order[..|order| - 1] == init;
        assert y in init;
      }
      assert !HasPredecessorIn(last, stuck, edges);
    }
  }

  /** A non-empty set of nodes each of which has a predecessor inside the set admits no topological order. */
  lemma NoTopologicalOrderWhenStuck(
    stuck: set<FragmentKind>, nodes: set<FragmentKind>, edges: set<Edge>, order: seq<FragmentKind>)
    requires stuck != {} && stuck <= nodes
    requires forall x {:trigger HasPredecessorIn(x, stuck, edges)} :: x in stuck ==> HasPredecessorIn(x, stuck, edges)
    ensures !IsTopologicalOrder(order, nodes, edges)
  {
    if PredecessorsFirst(order, edges) {
      StuckNeverPlaced(stuck, edges, order);
      var x :| x in stuck;
      assert x in nodes && x !in order;
    }
  }

  /** A node of `remaining` none of whose predecessors is in `remaining`, if there is one. */
  method FindReady(remaining: set<FragmentKind>, edges: set<Edge>) returns (r: Option<FragmentKind>)
    ensures r.Some? ==> r.value in remaining && !HasPredecessorIn(r.value, remaining, edges)
    ensures r.None? ==> forall x :: x in remaining ==> HasPredecessorIn(x, remaining, edges)
  {
    if x :| x in remaining && forall e :: e in edges && e.1 == x ==> e.0 !in remaining {
      forall y | y in remaining
        ensures (y, x) !in edges
      {
        var e := (y, x);
        assert e.0 in remaining;
      }
      return Some(x);
    } else {
      forall x | x in remaining
        ensures HasPredecessorIn(x, remaining, edges)
      {
        var e :| e in edges && e.1 == x && e.0 in remaining;
        assert e == (e.0, x);
      }
      return None;
    }
  }

  /**
   * The graph's topological order. It repeatedly takes a node none of whose
   * predecessors is still unplaced; when no such node is left, the remaining
   * nodes lie on a cycle and no order exists.
   */
  method TopologicalOrder(nodes: set<FragmentKind>, edges: set<Edge>) returns (r: Option<seq<FragmentKind>>)
    requires forall e :: e in edges ==> e.0 in nodes && e.1 in nodes
    ensures r.Some? ==> IsTopologicalOrder(r.value, nodes, edges)
    ensures r.None? ==> forall o :: !IsTopologicalOrder(o, nodes, edges)
  {
    var order: seq<FragmentKind> := [];
    var remaining := nodes;
    while remaining != {}
      invariant remaining <= nodes
      invariant forall x :: x in order <==> x in nodes && x !in remaining
      invariant Distinct(order)
      invariant PredecessorsFirst(order, edges)
      decreases |remaining|
    {
      var ready := FindReady(remaining, edges);
      if ready.None? {
        forall o | true
          ensures !IsTopologicalOrder(o, nodes, edges)
        {
          NoTopologicalOrderWhenStuck(remaining, nodes, edges, o);
        }
        return None;
      }
      var x := ready.value;
      forall y | (y, x) in edges
        ensures y in order
      {
        assert y in nodes && y !in remaining;
      }
      PredecessorsFirstExtend(order, edges, x);
      order := order + [x];
      remaining := remaining - {x};
    }
    assert forall x :: x in order <==> x in nodes;
    return Some(order);
  }

  /* ---------------------------------------------------------------------- */
  /* FragmentFactories                                                       */
  /* ---------------------------------------------------------------------- */

  /** The ordered factories, and the factory of each created kind (registered in list order). */
  datatype FragmentFactories = FragmentFactories(
    creationOrder: seq<FragmentFactory>,
    factoryMap: map<FragmentKind, FragmentFactory>,
    registered: seq<FragmentKind>)

  /** Why the factories cannot be ordered. */
  datatype FactoriesError =
    | DuplicateFactory(kind: FragmentKind)     // two factories create the same kind
    | DependencyCycle                          // the requirements are cyclic
    | NoConfigurationLoader(kind: FragmentKind) // a required kind that no factory creates

  /** No two factories create the same kind. */
  ghost predicate UniqueCreates(factories: seq<FragmentFactory>) {
    forall i, j :: 0 <= i < j < |factories| ==> factories[i].creates != factories[j].creates
  }

  /** Every factory comes after the factories of all the kinds it requires. */
  ghost predicate RequirementsFirst(order: seq<FragmentFactory>) {
    forall i, k :: 0 <= i < |order| && k in order[i].required ==>
      exists j :: 0 <= j < i && order[j].creates == k
  }

  /** The kind-to-factory map and its keys in registration order. */
  datatype Registration = Registration(factoryMap: map<FragmentKind, FragmentFactory>, registered: seq<FragmentKind>)

  /** Adding the next factory adds its kind, its required kinds and its edges to the graph. */
  lemma GraphStep(factories: seq<FragmentFactory>, i: nat)
    requires i < |factories|
    ensures var f := factories[i];
            && GraphNodes(factories[..i + 1]) == GraphNodes(factories[..i]) + NodesOf(f)
            && GraphEdges(factories[..i + 1]) == GraphEdges(factories[..i]) + EdgesOf(f)
  {
    assert factories[..i + 1][..i] == factories[..i];
  }

  /** A kind already registered was created by an earlier factory. */
  lemma EarlierCreator(factories: seq<FragmentFactory>, i: nat, factoryMap: map<FragmentKind, FragmentFactory>)
    requires i < |factories|
    requires factoryMap.Keys == (set f | f in factories[..i] :: f.creates)
    requires factories[i].creates in factoryMap
    ensures exists j :: 0 <= j < i && factories[j].creates == factories[i].creates
  {
    var g :| g in factories[..i] && g.creates == factories[i].creates;
    var j :| 0 <= j < i && factories[..i][j] == g;
    assert factories[j] == g;
  }

  /** The created kinds of the factories, in order. */
  function KindsOf(factories: seq<FragmentFactory>): seq<FragmentKind> {
    seq(|factories|, i requires 0 <= i < |factories| => factories[i].creates)
  }

  /** Registering the next factory appends its kind. */
  lemma KindsStep(factories: seq<FragmentFactory>, i: nat)
    requires i < |factories|
    ensures KindsOf(factories[..i + 1]) == KindsOf(factories[..i]) + [factories[i].creates]
  {
  }

  /** Registering a factory whose kind is new keeps the kinds unique and the map keyed by kind. */
  lemma RegisterStep(factories: seq<FragmentFactory>, i: nat, factoryMap: map<FragmentKind, FragmentFactory>)
    requires i < |factories|
    requires UniqueCreates(factories[..i])
    requires factoryMap.Keys == (set f | f in factories[..i] :: f.creates)
    requires forall f :: f in factories[..i] ==> factoryMap[f.creates] == f
    requires factories[i].creates !in factoryMap
    ensures UniqueCreates(factories[..i + 1])
    ensures factoryMap[factories[i].creates := factories[i]].Keys == (set f | f in factories[..i + 1] :: f.creates)
    ensures forall f :: f in factories[..i + 1] ==> factoryMap[factories[i].creates := factories[i]][f.creates] == f
  {
    var f := factories[i];
    assert factories[..i + 1] == factories[..i] + [f];
    forall j | 0 <= j < i
      ensures factories[j].creates != f.creates
    {
      assert factories[..i][j] == factories[j];
    }
  }

  /**
   * The first loop of the constructor: adds each factory's kind as a node and
   * an edge from each kind it requires, and registers the factory under its
   * kind. The map builder rejects a repeated kind; nothing observable happens
   * between the repeated entry and that rejection, so the model stops there.
   */
  method RegisterFactories(factories: seq<FragmentFactory>)
    returns (r: Result<Registration, FactoriesError>, nodes: set<FragmentKind>, edges: set<Edge>)
    ensures r.Ok? ==>
              && nodes == GraphNodes(factories) && edges == GraphEdges(factories)
              && UniqueCreates(factories)
              && r.value.factoryMap.Keys == (set f | f in factories :: f.creates)
              && (forall f :: f in factories ==> r.value.factoryMap[f.creates] == f)
              && r.value.registered == seq(|factories|, i requires 0 <= i < |factories| => factories[i].creates)
    ensures r.Err? ==>
              && r.error.DuplicateFactory?
              && exists i, j :: 0 <= i < j < |factories| &&
                   factories[i].creates == r.error.kind && factories[j].creates == r.error.kind
  {
    nodes, edges := {}, {};
    var factoryMap: map<FragmentKind, FragmentFactory> := map[];
    var registered: seq<FragmentKind> := [];
    for i := 0 to |factories|
      invariant nodes == GraphNodes(factories[..i])
      invariant edges == GraphEdges(factories[..i])
      invariant UniqueCreates(factories[..i])
      invariant factoryMap.Keys == (set f | f in factories[..i] :: f.creates)
      invariant forall f :: f in factories[..i] ==> factoryMap[f.creates] == f
      invariant registered == KindsOf(factories[..i])
    {
      var f := factories[i];
      GraphStep(factories, i);
      nodes := nodes + NodesOf(f);
      edges := edges + EdgesOf(f);
      if f.creates in factoryMap {
        EarlierCreator(factories, i, factoryMap);
        return Err(DuplicateFactory(f.creates)), nodes, edges;
      }
      RegisterStep(factories, i, factoryMap);
      KindsStep(factories, i);
      factoryMap := factoryMap[f.creates := f];
      registered := registered + [f.creates];
    }
    assert factories[..|factories|] == factories;
    r := Ok(Registration(factoryMap, registered));
  }

  /** The second loop of the constructor: the factory of each kind in the order, failing on a kind that has none. */
  method FactoriesInOrder(order: seq<FragmentKind>, factoryMap: map<FragmentKind, FragmentFactory>)
    returns (r: Result<seq<FragmentFactory>, FactoriesError>)
    ensures r.Ok? ==>
              && |r.value| == |order|
              && forall i :: 0 <= i < |order| ==> order[i] in factoryMap && r.value[i] == factoryMap[order[i]]
    ensures r.Err? ==>
              && r.error.NoConfigurationLoader?
              && r.error.kind in order && r.error.kind !in factoryMap
  {
    var creationOrder: seq<FragmentFactory> := [];
    for j := 0 to |order|
      invariant |creationOrder| == j
      invariant forall i :: 0 <= i < j ==> order[i] in factoryMap && creationOrder[i] == factoryMap[order[i]]
    {
      if order[j] !in factoryMap {
        return Err(NoConfigurationLoader(order[j]));
      }
      creationOrder := creationOrder + [factoryMap[order[j]]];
    }
    return Ok(creationOrder);
  }

  /**
   * Listing the factories of a topological order of the dependency graph
   * lists every factory once, each after the factories of the kinds it requires.
   */
  lemma CreationOrderFollowsGraph(
    factories: seq<FragmentFactory>, order: seq<FragmentKind>,
    factoryMap: map<FragmentKind, FragmentFactory>, creationOrder: seq<FragmentFactory>)
    requires IsTopologicalOrder(order, GraphNodes(factories), GraphEdges(factories))
    requires factoryMap.Keys == (set f | f in factories :: f.creates)
    requires forall f :: f in factories ==> factoryMap[f.creates] == f
    requires |creationOrder| == |order|
    requires forall i :: 0 <= i < |order| ==> order[i] in factoryMap && creationOrder[i] == factoryMap[order[i]]
    ensures Distinct(creationOrder)
    ensures forall f :: f in creationOrder <==> f in factories
    ensures RequirementsFirst(creationOrder)
  {
    forall i | 0 <= i < |order|
      ensures creationOrder[i] in factories && creationOrder[i].creates == order[i]
    {
      assert order[i] in factoryMap.Keys;
      assert order[i] in (set f | f in factories :: f.creates);
      var f :| f in factories && f.creates == order[i];
    }
    GraphShape(factories);
    forall i, k | 0 <= i < |creationOrder| && k in creationOrder[i].required
      ensures exists j :: 0 <= j < i && creationOrder[j].creates == k
    {
      assert (k, order[i]) in GraphEdges(factories);
      assert k in order[..i];
      var j :| 0 <= j < i && order[j] == k;
      assert creationOrder[j].creates == k;
    }
    forall f | f in factories
      ensures f in creationOrder
    {
      assert f.creates in order;
      var i :| 0 <= i < |order| && order[i] == f.creates;
      assert creationOrder[i] == f;
    }
  }

  /**
   * What a successful `FragmentFactories` construction from `factories`
   * holds: the creation order is a permutation of the factories in which
   * every requirement's creator comes first, the map gives each created kind
   * its factory, and the registered kinds follow the given list.
   */
  ghost predicate BuiltFrom(ff: FragmentFactories, factories: seq<FragmentFactory>) {
    && UniqueCreates(factories)
    && Distinct(ff.creationOrder)
    && (forall f :: f in ff.creationOrder <==> f in factories)
    && RequirementsFirst(ff.creationOrder)
    && ff.factoryMap.Keys == (set f | f in factories :: f.creates)
    && (forall f :: f in factories ==> ff.factoryMap[f.creates] == f)
    && ff.registered == seq(|factories|, i requires 0 <= i < |factories| => factories[i].creates)
  }

  /** Why constructing `FragmentFactories` from `factories` failed. */
  ghost predicate FailureOf(e: FactoriesError, factories: seq<FragmentFactory>) {
    match e
    case DuplicateFactory(kind) =>
      exists i, j :: 0 <= i < j < |factories| && factories[i].creates == kind && factories[j].creates == kind
    case DependencyCycle =>
      forall o :: !IsTopologicalOrder(o, GraphNodes(factories), GraphEdges(factories))
    case NoConfigurationLoader(kind) =>
      && (exists f :: f in factories && kind in f.required)
      && (forall f :: f in factories ==> f.creates != kind)
  }

  /**
   * The `FragmentFactories` constructor: builds the dependency graph and the
   * kind-to-factory map, then lists the factories in topological order.
   */
  method NewFragmentFactories(factories: seq<FragmentFactory>)
    returns (r: Result<FragmentFactories, FactoriesError>)
    ensures r.Ok? ==> BuiltFrom(r.value, factories)
    ensures r.Err? ==> FailureOf(r.error, factories)
  {
    var registration, nodes, edges := RegisterFactories(factories);
    if registration.Err? {
      return Err(registration.error);
    }
    var factoryMap := registration.value.factoryMap;
    GraphShape(factories);
    var topo := TopologicalOrder(nodes, edges);
    if topo.None? {
      return Err(DependencyCycle);
    }
    var creationOrder := FactoriesInOrder(topo.value, factoryMap);
    if creationOrder.Err? {
      var k := creationOrder.error.kind;
      assert k in GraphNodes(factories);
      assert forall f :: f in factories ==> f.creates != k;
      return Err(creationOrder.error);
    }
    CreationOrderFollowsGraph(factories, topo.value, factoryMap, creationOrder.value);
    r := Ok(FragmentFactories(creationOrder.value, factoryMap, registration.value.registered));
  }

  /* ---------------------------------------------------------------------- */
  /* Target configurations of a request                                      */
  /* ---------------------------------------------------------------------- */

  /** Build options: the target CPU and the other option values. */
  datatype BuildOptions = BuildOptions(cpu: string, others: map<string, string>)

  /** An event stored while the configurations are created. */
  datatype Event = Error(message: string) | Warning(message: string)

  /** What the configuration collection factory returns (None for null) and the events it stored. */
  datatype Collected<C> = Collected(config: Option<C>, events: seq<Event>)

  datatype ConfigurationError = InvalidConfiguration(message: string)

  /** The outcome of `createConfiguration` and the stored events it replayed on the caller's listener. */
  datatype Created<C> = Created(config: Result<Option<C>, ConfigurationError>, replayed: seq<Event>)

  /** The options with the CPU replaced when a CPU override is given. */
  function OptionsFor(options: BuildOptions, cpuOverride: Option<string>): (r: BuildOptions)
    ensures r.others == options.others
    ensures r.cpu == cpuOverride.GetOr(options.cpu)
  {
    match cpuOverride
    case None => options
    case Some(cpu) => options.(cpu := cpu)
  }

  predicate HasErrors(events: seq<Event>) {
    exists i :: 0 <= i < |events| && events[i].Error?
  }

  /**
   * `createConfiguration`. The collection factory (an outside collaborator) is
   * the parameter `collect`, given the options and whether to sanity-check.
   */
  function CreateConfiguration<C>(
    collect: (BuildOptions, bool) -> Collected<C>, sanityCheck: bool,
    options: BuildOptions, cpuOverride: Option<string>): (r: Created<C>)
    // a null configuration is returned as null, and its stored events are not replayed
    ensures collect(OptionsFor(options, cpuOverride), sanityCheck).config.None? ==>
              r == Created(Ok(None), [])
    // otherwise the stored events are replayed, and any error among them is an invalid configuration
    ensures collect(OptionsFor(options, cpuOverride), sanityCheck).config.Some? ==>
              && r.replayed == collect(OptionsFor(options, cpuOverride), sanityCheck).events
              && (r.config.Err? <==> HasErrors(r.replayed))
              && (r.config.Ok? ==> r.config.value == collect(OptionsFor(options, cpuOverride), sanityCheck).config)
  {
    var collected := collect(OptionsFor(options, cpuOverride), sanityCheck);
    match collected.config
    case None => Created(Ok(None), [])
    case Some(c) =>
      if HasErrors(collected.events) then
        Created(Err(InvalidConfiguration("Build options are invalid")), collected.events)
      else
        Created(Ok(Some(c)), collected.events)
  }

  /**
   * The multi-CPU target configurations: one per CPU in order, skipping null
   * results and configurations already listed; the first invalid
   * configuration ends the whole request.
   */
  function TargetConfigurations<C(==)>(
    collect: (BuildOptions, bool) -> Collected<C>, sanityCheck: bool,
    options: BuildOptions, cpus: seq<string>): Result<seq<C>, ConfigurationError>
  {
    if cpus == [] then Ok([])
    else
      match TargetConfigurations(collect, sanityCheck, options, cpus[..|cpus| - 1])
      case Err(e) => Err(e)
      case Ok(list) =>
        match CreateConfiguration(collect, sanityCheck, options, Some(cpus[|cpus| - 1])).config
        case Err(e) => Err(e)
        case Ok(None) => Ok(list)
        case Ok(Some(c)) => if c in list then Ok(list) else Ok(list + [c])
  }

  /**
   * The multi-CPU list has no duplicates, and holds exactly the non-null
   * configurations created for the CPUs.
   */
  lemma {:induction false} TargetConfigurationsAreDistinct<C>(
    collect: (BuildOptions, bool) -> Collected<C>, sanityCheck: bool,
    options: BuildOptions, cpus: seq<string>)
    ensures TargetConfigurations(collect, sanityCheck, options, cpus).Ok? ==>
              var list := TargetConfigurations(collect, sanityCheck, options, cpus).value;
              && Distinct(list)
              && forall c :: c in list <==>
                   exists i :: 0 <= i < |cpus| &&
                     CreateConfiguration(collect, sanityCheck, options, Some(cpus[i])).config == Ok(Some(c))
  {
    if cpus != [] {
      var init := cpus[..|cpus| - 1];
      TargetConfigurationsAreDistinct(collect, sanityCheck, options, init);
      if TargetConfigurations(collect, sanityCheck, options, cpus).Ok? {
        var list := TargetConfigurations(collect, sanityCheck, options, cpus).value;
        forall c
          ensures c in list <==>
                   exists i :: 0 <= i < |cpus| &&
                     CreateConfiguration(collect, sanityCheck, options, Some(cpus[i])).config == Ok(Some(c))
        {
          if c in list {
            var prev := TargetConfigurations(collect, sanityCheck, options, init).value;
            if c in prev {
              var i :| 0 <= i < |init| &&
                CreateConfiguration(collect, sanityCheck, options, Some(init[i])).config == Ok(Some(c));
              assert cpus[i] == init[i];
            } else {
              assert CreateConfiguration(collect, sanityCheck, options, Some(cpus[|cpus| - 1])).config == Ok(Some(c));
            }
          }
          if exists i :: 0 <= i < |cpus| &&
                     CreateConfiguration(collect, sanityCheck, options, Some(cpus[i])).config == Ok(Some(c)) {
            var i :| 0 <= i < |cpus| &&
                     CreateConfiguration(collect, sanityCheck, options, Some(cpus[i])).config == Ok(Some(c));
            if i < |cpus| - 1 {
              assert init[i] == cpus[i];
            }
          }
        }
      }
    }
  }

  /** A listed configuration was created for one of the CPUs. */
  lemma ListedWasCreated<C>(
    collect: (BuildOptions, bool) -> Collected<C>, sanityCheck: bool,
    options: BuildOptions, cpus: seq<string>, c: C)
    requires TargetConfigurations(collect, sanityCheck, options, cpus).Ok?
    requires c in TargetConfigurations(collect, sanityCheck, options, cpus).value
    ensures exists k :: 0 <= k < |cpus| && CreatedFor(collect, sanityCheck, options, cpus[k], c)
  {
    TargetConfigurationsAreDistinct(collect, sanityCheck, options, cpus);
  }

  /** A configuration missing from the list was created for none of the CPUs. */
  lemma UnlistedNeverCreated<C>(
    collect: (BuildOptions, bool) -> Collected<C>, sanityCheck: bool,
    options: BuildOptions, cpus: seq<string>, c: C)
    requires TargetConfigurations(collect, sanityCheck, options, cpus).Ok?
    requires c !in TargetConfigurations(collect, sanityCheck, options, cpus).value
    ensures forall k :: 0 <= k < |cpus| ==> !CreatedFor(collect, sanityCheck, options, cpus[k], c)
  {
    TargetConfigurationsAreDistinct(collect, sanityCheck, options, cpus);
  }

  /** The configuration created for `cpu` is the non-null `c`. */
  ghost predicate CreatedFor<C>(
    collect: (BuildOptions, bool) -> Collected<C>, sanityCheck: bool,
    options: BuildOptions, cpu: string, c: C)
  {
    CreateConfiguration(collect, sanityCheck, options, Some(cpu)).config == Ok(Some(c))
  }

  /**
   * `list` follows the order of `cpus`: of two listed configurations, the
   * earlier one was created for some CPU before any CPU for which the later
   * one was created.
   */
  ghost predicate InCpuOrder<C>(
    collect: (BuildOptions, bool) -> Collected<C>, sanityCheck: bool,
    options: BuildOptions, cpus: seq<string>, list: seq<C>)
  {
    forall i, j :: 0 <= i < j < |list| ==>
      exists p :: 0 <= p < |cpus| && CreatedFor(collect, sanityCheck, options, cpus[p], list[i]) &&
        forall q :: 0 <= q <= p ==> !CreatedFor(collect, sanityCheck, options, cpus[q], list[j])
  }

  /** The multi-CPU list follows the order of the CPUs. */
  lemma {:induction false} TargetConfigurationsInCpuOrder<C>(
    collect: (BuildOptions, bool) -> Collected<C>, sanityCheck: bool,
    options: BuildOptions, cpus: seq<string>)
    ensures TargetConfigurations(collect, sanityCheck, options, cpus).Ok? ==>
              InCpuOrder(collect, sanityCheck, options, cpus, TargetConfigurations(collect, sanityCheck, options, cpus).value)
  {
    if cpus != [] && TargetConfigurations(collect, sanityCheck, options, cpus).Ok? {
      var init := cpus[..|cpus| - 1];
      TargetConfigurationsInCpuOrder(collect, sanityCheck, options, init);
      var list := TargetConfigurations(collect, sanityCheck, options, cpus).value;
      var prev := TargetConfigurations(collect, sanityCheck, options, init).value;
      assert InCpuOrder(collect, sanityCheck, options, init, prev);
      assert list == prev || (|list| == |prev| + 1 && list[..|prev|] == prev && list[|prev|] !in prev);
      forall i, j | 0 <= i < j < |list|
        ensures exists p :: 0 <= p < |cpus| && CreatedFor(collect, sanityCheck, options, cpus[p], list[i]) &&
                  forall q :: 0 <= q <= p ==> !CreatedFor(collect, sanityCheck, options, cpus[q], list[j])
      {
        assert list[i] == prev[i];
        var p: int;
        if j < |prev| {
          assert list[j] == prev[j];
          p :| 0 <= p < |init| && CreatedFor(collect, sanityCheck, options, init[p], prev[i]) &&
                forall q :: 0 <= q <= p ==> !CreatedFor(collect, sanityCheck, options, init[q], prev[j]);
        } else {
          ListedWasCreated(collect, sanityCheck, options, init, prev[i]);
          p :| 0 <= p < |init| && CreatedFor(collect, sanityCheck, options, init[p], prev[i]);
          UnlistedNeverCreated(collect, sanityCheck, options, init, list[j]);
        }
        forall q | 0 <= q <= p
          ensures !CreatedFor(collect, sanityCheck, options, cpus[q], list[j])
        {
          assert cpus[q] == init[q];
        }
        assert cpus[p] == init[p];
        assert CreatedFor(collect, sanityCheck, options, cpus[p], list[i]);
      }
      assert InCpuOrder(collect, sanityCheck, options, cpus, list);
    }
  }

  /** An invalid configuration for one CPU ends the request, whatever the later CPUs give. */
  lemma {:induction false} TargetErrorPersists<C>(
    collect: (BuildOptions, bool) -> Collected<C>, sanityCheck: bool,
    options: BuildOptions, cpus: seq<string>, n: nat)
    requires n <= |cpus|
    requires TargetConfigurations(collect, sanityCheck, options, cpus[..n]).Err?
    ensures TargetConfigurations(collect, sanityCheck, options, cpus) ==
            TargetConfigurations(collect, sanityCheck, options, cpus[..n])
    decreases |cpus| - n
  {
    if n == |cpus| {
      assert cpus[..n] == cpus;
    } else {
      assert cpus[..n + 1][..n] == cpus[..n];
      TargetErrorPersists(collect, sanityCheck, options, cpus, n + 1);
    }
  }

  /**
   * `getConfigurations`. In multi-CPU mode it appends, CPU by CPU, each new
   * non-null configuration, and gives null when values were missing
   * afterwards (`valuesMissing` is the package provider's state after the
   * loop); otherwise it creates the single configuration and gives null when
   * that is null.
   */
  method GetConfigurations<C(==)>(
    collect: (BuildOptions, bool) -> Collected<C>, sanityCheck: bool,
    options: BuildOptions, multiCpu: seq<string>, valuesMissing: bool)
    returns (r: Result<Option<seq<C>>, ConfigurationError>)
    ensures multiCpu != [] ==>
              r == match TargetConfigurations(collect, sanityCheck, options, multiCpu)
                   case Err(e) => Err(e)
                   case Ok(list) => if valuesMissing then Ok(None) else Ok(Some(list))
    ensures multiCpu == [] ==>
              r == match CreateConfiguration(collect, sanityCheck, options, None).config
                   case Err(e) => Err(e)
                   case Ok(None) => Ok(None)
                   case Ok(Some(c)) => Ok(Some([c]))
  {
    var targetConfigurations: seq<C> := [];
    if multiCpu != [] {
      for i := 0 to |multiCpu|
        invariant TargetConfigurations(collect, sanityCheck, options, multiCpu[..i]) == Ok(targetConfigurations)
      {
        assert multiCpu[..i + 1][..i] == multiCpu[..i];
        var created := CreateConfiguration(collect, sanityCheck, options, Some(multiCpu[i]));
        if created.config.Err? {
          TargetErrorPersists(collect, sanityCheck, options, multiCpu, i + 1);
          return Err(created.config.error);
        }
        var targetConfiguration := created.config.value;
        if targetConfiguration.None? || targetConfiguration.value in targetConfigurations {
          continue;
        }
        targetConfigurations := targetConfigurations + [targetConfiguration.value];
      }
      assert multiCpu[..|multiCpu|] == multiCpu;
      if valuesMissing {
        return Ok(None);
      }
    } else {
      var created := CreateConfiguration(collect, sanityCheck, options, None);
      if created.config.Err? {
        return Err(created.config.error);
      }
      if created.config.value.None? {
        return Ok(None);
      }
      return Ok(Some([created.config.value.value]));
    }
    return Ok(Some(targetConfigurations));
  }

  /* ---------------------------------------------------------------------- */
  /* Fragments and the configuration cache                                   */
  /* ---------------------------------------------------------------------- */

  /** A configuration fragment; `kind` is its class. */
  datatype Fragment = Fragment(kind: FragmentKind, payload: string)

  /**
   * The fragments map after asking for each registered kind in order: the
   * guard looks the map up by the fragment instance, never a key, so every
   * non-null fragment is stored under its class, a later one replacing an
   * earlier one of the same class. `provided` is what the package provider
   * returns per kind (absent for null).
   */
  function FragmentsOf(kinds: seq<FragmentKind>, provided: map<FragmentKind, Fragment>): map<FragmentKind, Fragment> {
    if kinds == [] then map[]
    else
      var m := FragmentsOf(kinds[..|kinds| - 1], provided);
      var k := kinds[|kinds| - 1];
      if k in provided then m[provided[k].kind := provided[k]] else m
  }

  /**
   * Every fragment is stored under its own class, every provided fragment's
   * class is present, and every stored fragment was provided for some kind.
   */
  lemma {:induction false} FragmentsKeyedByClass(kinds: seq<FragmentKind>, provided: map<FragmentKind, Fragment>)
    ensures forall c :: c in FragmentsOf(kinds, provided) ==> FragmentsOf(kinds, provided)[c].kind == c
    ensures forall k :: k in kinds && k in provided ==> provided[k].kind in FragmentsOf(kinds, provided)
    ensures forall c :: c in FragmentsOf(kinds, provided) ==>
              exists k :: k in kinds && k in provided && provided[k] == FragmentsOf(kinds, provided)[c]
  {
    if kinds != [] {
      var init := kinds[..|kinds| - 1];
      FragmentsKeyedByClass(init, provided);
      assert kinds == init + [kinds[|kinds| - 1]];
    }
  }

  /** The fragment-collection loop of `getConfiguration`. */
  method CollectFragments(kinds: seq<FragmentKind>, provided: map<FragmentKind, Fragment>)
    returns (fragments: map<FragmentKind, Fragment>)
    ensures fragments == FragmentsOf(kinds, provided)
  {
    fragments := map[];
    for i := 0 to |kinds|
      invariant fragments == FragmentsOf(kinds[..i], provided)
    {
      assert kinds[..i + 1][..i] == kinds[..i];
      var fragmentType := kinds[i];
      if fragmentType in provided {
        var fragment := provided[fragmentType];
        fragments := fragments[fragment.kind := fragment];
      }
    }
    assert kinds[..|kinds|] == kinds;
  }

  /** A build configuration instance. */
  class BuildConfiguration {
    const fragments: map<FragmentKind, Fragment>
    const options: BuildOptions
    const actionsDisabled: bool

    constructor (fragments: map<FragmentKind, Fragment>, options: BuildOptions, actionsDisabled: bool)
      ensures this.fragments == fragments && this.options == options
      ensures this.actionsDisabled == actionsDisabled
    {
      this.fragments := fragments;
      this.options := options;
      this.actionsDisabled := actionsDisabled;
    }
  }

  /** A cache of configuration instances by cache key. */
  class ConfigurationCache {
    var entries: map<string, BuildConfiguration>

    constructor ()
      ensures entries == map[]
    {
      entries := map[];
    }

    /**
     * Get-or-put: a cached instance is returned as it is; otherwise a new
     * instance is stored under the key and returned.
     */
    method GetOrCreate(key: string, fragments: map<FragmentKind, Fragment>,
                       options: BuildOptions, actionsDisabled: bool)
      returns (c: BuildConfiguration)
      modifies this
      ensures key in old(entries) ==> c == old(entries)[key] && entries == old(entries)
      ensures key !in old(entries) ==>
                && fresh(c) && entries == old(entries)[key := c]
                && c.fragments == fragments && c.options == options
                && c.actionsDisabled == actionsDisabled
    {
      if key in entries {
        c := entries[key];
      } else {
        c := new BuildConfiguration(fragments, options, actionsDisabled);
        entries := entries[key := c];
      }
    }
  }

  /**
   * `getConfiguration`: collects the fragments of every registered kind,
   * gives null when values were missing, and otherwise returns the cached
   * configuration for the cache key (computed by `cacheKey`, an outside
   * collaborator), creating and caching it first when absent.
   */
  method GetConfiguration(
    factories: FragmentFactories, provided: map<FragmentKind, Fragment>, valuesMissing: bool,
    options: BuildOptions, actionsDisabled: bool, cache: ConfigurationCache,
    cacheKey: (map<FragmentKind, Fragment>, BuildOptions) -> string)
    returns (r: Option<BuildConfiguration>)
    modifies cache
    ensures valuesMissing ==> r.None? && cache.entries == old(cache.entries)
    ensures !valuesMissing ==>
              var fragments := FragmentsOf(factories.registered, provided);
              var key := cacheKey(fragments, options);
              && r.Some?
              && (key in old(cache.entries) ==>
                    r.value == old(cache.entries)[key] && cache.entries == old(cache.entries))
              && (key !in old(cache.entries) ==>
                    && fresh(r.value) && cache.entries == old(cache.entries)[key := r.value]
                    && r.value.fragments == fragments && r.value.options == options
                    && r.value.actionsDisabled == actionsDisabled)
  {
    var fragments := CollectFragments(factories.registered, provided);
    if valuesMissing {
      return None;
    }
    var key := cacheKey(fragments, options);
    var configuration := cache.GetOrCreate(key, fragments, options, actionsDisabled);
    return Some(configuration);
  }

  /**
   * The factory object: the fragment factories, ordered from the list it was
   * given, and the host configuration cache.
   */
  class ConfigurationFactoryObject {
    /** The list of fragment factories the object was constructed from. */
    ghost const factories: seq<FragmentFactory>
    const fragmentFactories: FragmentFactories
    const hostConfigCache: ConfigurationCache

    ghost predicate Valid() {
      BuiltFrom(fragmentFactories, factories)
    }

    constructor (ghost factories: seq<FragmentFactory>, fragmentFactories: FragmentFactories)
      requires BuiltFrom(fragmentFactories, factories)
      ensures Valid() && this.factories == factories && this.fragmentFactories == fragmentFactories
      ensures fresh(hostConfigCache) && hostConfigCache.entries == map[]
    {
      this.factories := factories;
      this.fragmentFactories := fragmentFactories;
      this.hostConfigCache := new ConfigurationCache();
    }

    /**
     * The factories in creation order: each of the given factories once,
     * every one after the creators of the kinds it requires.
     */
    function GetFactories(): (r: seq<FragmentFactory>)
      requires Valid()
      ensures r == fragmentFactories.creationOrder
      ensures Distinct(r) && (forall f :: f in r <==> f in factories)
      ensures RequirementsFirst(r)
    {
      fragmentFactories.creationOrder
    }

    /**
     * `getHostConfiguration`: the configuration for the host options (made by
     * `createHostOptions`, an outside collaborator), through the host cache
     * and with actions enabled.
     */
    method GetHostConfiguration(
      provided: map<FragmentKind, Fragment>, valuesMissing: bool, hostOptions: BuildOptions,
      cacheKey: (map<FragmentKind, Fragment>, BuildOptions) -> string)
      returns (r: Option<BuildConfiguration>)
      modifies hostConfigCache
      ensures valuesMissing ==> r.None? && hostConfigCache.entries == old(hostConfigCache.entries)
      ensures !valuesMissing ==>
                var key := cacheKey(FragmentsOf(fragmentFactories.registered, provided), hostOptions);
                && r.Some? && key in hostConfigCache.entries && hostConfigCache.entries[key] == r.value
                && (key in old(hostConfigCache.entries) ==>
                      r.value == old(hostConfigCache.entries)[key] &&
                      hostConfigCache.entries == old(hostConfigCache.entries))
                && (key !in old(hostConfigCache.entries) ==>
                      && hostConfigCache.entries == old(hostConfigCache.entries)[key := r.value]
                      && fresh(r.value) && !r.value.actionsDisabled && r.value.options == hostOptions
                      && r.value.fragments == FragmentsOf(fragmentFactories.registered, provided))
    {
      r := GetConfiguration(fragmentFactories, provided, valuesMissing, hostOptions, false,
                            hostConfigCache, cacheKey);
    }
  }

  /**
   * The `ConfigurationFactory` constructor: orders the given fragment
   * factories, failing as the `FragmentFactories` construction does, and
   * starts with an empty host-configuration cache.
   */
  method NewConfigurationFactory(factories: seq<FragmentFactory>)
    returns (r: Result<ConfigurationFactoryObject, FactoriesError>)
    ensures r.Ok? ==>
              && fresh(r.value) && r.value.Valid() && r.value.factories == factories
              && fresh(r.value.hostConfigCache) && r.value.hostConfigCache.entries == map[]
    ensures r.Err? ==> FailureOf(r.error, factories)
  {
    var ff := NewFragmentFactories(factories);
    if ff.Err? {
      return Err(ff.error);
    }
    var factory := new ConfigurationFactoryObject(factories, ff.value);
    r := Ok(factory);
  }
}
