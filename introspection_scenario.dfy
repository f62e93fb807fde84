/**
 * The planetary hierarchy the project's own examples use, as a concrete
 * object model: AstronomicalBody < Object, Planet < AstronomicalBody, and
 * `earth`, a Planet with methods of its own on its singleton class. Each
 * lemma pins down one answer the introspection gives on it.
 */
module IntrospectionScenario {
  import opened RubyCore
  import opened ObjectModel
  import opened MethodIntrospection

  const BasicObjectNode: NodeId := 0
  const KernelNode: NodeId := 1
  const ObjectNode: NodeId := 2
  const ModuleNode: NodeId := 3
  const ClassNode: NodeId := 4
  const BodyNode: NodeId := 5          // the anonymous AstronomicalBody class
  const PlanetNode: NodeId := 6
  const EarthSingleton: NodeId := 7
  const BasicObjectMeta: NodeId := 8
  const ObjectMeta: NodeId := 9
  const BodyMeta: NodeId := 10
  const PlanetMeta: NodeId := 11
  const ExpectationsNode: NodeId := 12  // Minitest::Expectations, which the test run includes into Object
  const ObjectMethodNode: NodeId := 13  // ObjectShadow::ObjectMethod, which the gem includes into Object

  /** Planet's ancestors after Planet itself, and those of Planet's singleton class after it. */
  const PlanetSupers: seq<NodeId> :=
    [BodyNode, ObjectNode, ExpectationsNode, ObjectMethodNode, KernelNode, BasicObjectNode]
  const PlanetMetaSupers: seq<NodeId> :=
    [BodyMeta, ObjectMeta, BasicObjectMeta, ClassNode, ModuleNode, ObjectNode,
     ExpectationsNode, ObjectMethodNode, KernelNode, BasicObjectNode]

  // What reflection reports for each node; `def` without a visibility
  // keyword is public, then `protected` and `private` sections follow.
  // The `metaclass` of a node is read only through `ClassObject`, that is
  // for Planet as `earth.class`; the other nodes' singleton classes are not
  // part of the hierarchy, and their `metaclass` field is a placeholder.

  function BasicObjectInfo(): NodeInfo {
    NodeInfo("BasicObject", [], [], [], [], BasicObjectMeta, ClassNode)
  }
  function KernelInfo(): NodeInfo {
    NodeInfo("Kernel", [], ["inspect"], [], ["puts"], KernelNode, ModuleNode)
  }
  function ExpectationsInfo(): NodeInfo {
    NodeInfo("Minitest::Expectations", [], ["must_equal"], [], [], ExpectationsNode, ModuleNode)
  }
  function ObjectMethodInfo(): NodeInfo {
    NodeInfo("ObjectShadow::ObjectMethod", [], ["shadow"], [], [], ObjectMethodNode, ModuleNode)
  }
  function ObjectInfo(): NodeInfo {
    NodeInfo("Object", [ExpectationsNode, ObjectMethodNode, KernelNode, BasicObjectNode], [], [], [], ObjectMeta, ClassNode)
  }
  function ModuleInfo(): NodeInfo {
    NodeInfo("Module", [ObjectNode, ExpectationsNode, ObjectMethodNode, KernelNode, BasicObjectNode],
             ["name"], [], [], ModuleNode, ClassNode)
  }
  function ClassInfo(): NodeInfo {
    NodeInfo("Class", [ModuleNode, ObjectNode, ExpectationsNode, ObjectMethodNode, KernelNode, BasicObjectNode],
             ["new"], [], [], ClassNode, ClassNode)
  }
  function BodyInfo(): NodeInfo {
    NodeInfo("Body", [ObjectNode, ExpectationsNode, ObjectMethodNode, KernelNode, BasicObjectNode],
             ["fly"], ["crash"], ["explode"], BodyMeta, ClassNode)
  }
  function PlanetInfo(): NodeInfo {
    NodeInfo("Planet", PlanetSupers, ["rotate"], ["bump"], ["implode"], PlanetMeta, ClassNode)
  }
  function EarthSingletonInfo(earthOwn: seq<Name>): NodeInfo {
    NodeInfo("#<Class:earth>", [PlanetNode] + PlanetSupers, earthOwn, ["magnetize"], ["repair"], ClassNode, ClassNode)
  }
  function BasicObjectMetaInfo(): NodeInfo {
    NodeInfo("#<Class:BasicObject>", PlanetMetaSupers[3..], [], [], [], ClassNode, ClassNode)
  }
  function ObjectMetaInfo(): NodeInfo {
    NodeInfo("#<Class:Object>", PlanetMetaSupers[2..], [], [], [], ClassNode, ClassNode)
  }
  function BodyMetaInfo(): NodeInfo {
    NodeInfo("#<Class:Body>", PlanetMetaSupers[1..], ["make"], ["stir"], ["idea"], ClassNode, ClassNode)
  }
  function PlanetMetaInfo(): NodeInfo {
    NodeInfo("#<Class:Planet>", PlanetMetaSupers, ["construct"], ["prepare"], ["think"], ClassNode, ClassNode)
  }

  /** What reflection reports for node `id` of the hierarchy. */
  function UniverseInfo(id: NodeId, earthOwn: seq<Name>): NodeInfo {
    if id == BasicObjectNode then BasicObjectInfo()
    else if id == KernelNode then KernelInfo()
    else if id == ObjectNode then ObjectInfo()
    else if id == ModuleNode then ModuleInfo()
    else if id == ClassNode then ClassInfo()
    else if id == BodyNode then BodyInfo()
    else if id == PlanetNode then PlanetInfo()
    else if id == EarthSingleton then EarthSingletonInfo(earthOwn)
    else if id == BasicObjectMeta then BasicObjectMetaInfo()
    else if id == ObjectMeta then ObjectMetaInfo()
    else if id == BodyMeta then BodyMetaInfo()
    else if id == PlanetMeta then PlanetMetaInfo()
    else if id == ExpectationsNode then ExpectationsInfo()
    else ObjectMethodInfo()
  }

  /** The hierarchy with `earthOwn` as the public methods of earth's singleton class. */
  function Universe(earthOwn: seq<Name>): World {
    World(map id: NodeId | id <= ObjectMethodNode :: UniverseInfo(id, earthOwn), ClassNode, ModuleNode, ObjectNode)
  }

  /** What `earth` reports: no module, an instance of Planet, with a singleton class. */
  function Earth(): Obj { Obj(None, PlanetNode, Some(EarthSingleton)) }

  /** What `planet` reports: the Planet class itself, an instance of Class. */
  function PlanetClass(): Obj { Obj(Some(PlanetNode), ClassNode, Some(PlanetMeta)) }

  /**
   * A world that reports the hierarchy of `Universe(earthOwn)`. The lemmas
   * below hold for every such world; `UniverseIsPlanetary` shows there is one.
   */
  ghost predicate Planetary(w: World, earthOwn: seq<Name>) {
    && w.classNode == ClassNode && w.moduleNode == ModuleNode && w.objectNode == ObjectNode
    && Info(w, BasicObjectNode) == BasicObjectInfo() && Info(w, KernelNode) == KernelInfo()
    && Info(w, ObjectNode) == ObjectInfo() && Info(w, ModuleNode) == ModuleInfo()
    && Info(w, ClassNode) == ClassInfo() && Info(w, BodyNode) == BodyInfo() && Info(w, PlanetNode) == PlanetInfo()
    && Info(w, EarthSingleton) == EarthSingletonInfo(earthOwn)
    && Info(w, BasicObjectMeta) == BasicObjectMetaInfo() && Info(w, ObjectMeta) == ObjectMetaInfo()
    && Info(w, BodyMeta) == BodyMetaInfo() && Info(w, PlanetMeta) == PlanetMetaInfo()
    && Info(w, ExpectationsNode) == ExpectationsInfo() && Info(w, ObjectMethodNode) == ObjectMethodInfo()
  }

  lemma UniverseIsPlanetary(earthOwn: seq<Name>)
    ensures Planetary(Universe(earthOwn), earthOwn)
  {
    UniverseClasses(earthOwn);
    UniverseSingletons(earthOwn);
    UniverseModules(earthOwn);
  }

  lemma UniverseClasses(earthOwn: seq<Name>)
    ensures var w := Universe(earthOwn);
            && Info(w, BasicObjectNode) == BasicObjectInfo() && Info(w, KernelNode) == KernelInfo()
            && Info(w, ObjectNode) == ObjectInfo() && Info(w, ModuleNode) == ModuleInfo()
            && Info(w, ClassNode) == ClassInfo() && Info(w, BodyNode) == BodyInfo() && Info(w, PlanetNode) == PlanetInfo()
  {
  }

  lemma UniverseSingletons(earthOwn: seq<Name>)
    ensures var w := Universe(earthOwn);
            && Info(w, EarthSingleton) == EarthSingletonInfo(earthOwn)
            && Info(w, BasicObjectMeta) == BasicObjectMetaInfo() && Info(w, ObjectMeta) == ObjectMetaInfo()
            && Info(w, BodyMeta) == BodyMetaInfo() && Info(w, PlanetMeta) == PlanetMetaInfo()
  {
  }

  lemma UniverseModules(earthOwn: seq<Name>)
    ensures var w := Universe(earthOwn);
            && Info(w, ExpectationsNode) == ExpectationsInfo() && Info(w, ObjectMethodNode) == ObjectMethodInfo()
  {
  }

  // ---------------------------------------------------------------------
  // get_singleton_klass_and_chain
  // ---------------------------------------------------------------------

  lemma EarthParts(w: World, own: seq<Name>)
    requires Planetary(w, own)
    ensures GetSingletonKlassAndChain(w, Earth(), SelfTarget)
            == Parts([EarthSingleton], [PlanetNode], [PlanetNode] + PlanetSupers)
  {
  }

  /** `earth.class` is `planet`, so `target: :class` on earth is `target: :self` on planet. */
  lemma EarthClassIsPlanet(w: World, own: seq<Name>)
    requires Planetary(w, own)
    ensures TargetObject(w, Earth(), ClassTarget) == PlanetClass()
    ensures GetSingletonKlassAndChain(w, Earth(), ClassTarget) == GetSingletonKlassAndChain(w, PlanetClass(), SelfTarget)
  {
  }

  lemma PlanetParts(w: World, own: seq<Name>)
    requires Planetary(w, own)
    ensures GetSingletonKlassAndChain(w, PlanetClass(), SelfTarget) == Parts([PlanetMeta], [], PlanetMetaSupers)
    ensures GetSingletonKlassAndChain(w, PlanetClass(), InstancesTarget)
            == Parts([], [PlanetNode], [PlanetNode] + PlanetSupers)
  {
  }

  /** The names `id` itself contributes for a known scope. */
  function Own(w: World, id: NodeId, scope: Scope): seq<Name>
    requires scope != UnknownScope
  {
    ScopeNames(w, id, scope, false).value
  }

  lemma ContributedByTwo(w: World, a: NodeId, b: NodeId, scope: Scope, x: Name)
    requires scope != UnknownScope
    ensures Contributed(w, [a, b], scope, false, x) <==> x in Own(w, a, scope) || x in Own(w, b, scope)
  {
    var chain := [a, b];
    if x in Own(w, a, scope) { assert chain[0] == a; }
    if x in Own(w, b, scope) { assert chain[1] == b; }
  }

  /** Without inheritance, what a three-node chain contributes is what its nodes define. */
  lemma ContributedByThree(w: World, a: NodeId, b: NodeId, c: NodeId, scope: Scope, x: Name)
    requires scope != UnknownScope
    ensures Contributed(w, [a, b, c], scope, false, x) <==>
              x in Own(w, a, scope) || x in Own(w, b, scope) || x in Own(w, c, scope)
  {
    var chain := [a, b, c];
    if x in Own(w, a, scope) { assert chain[0] == a; }
    if x in Own(w, b, scope) { assert chain[1] == b; }
    if x in Own(w, c, scope) { assert chain[2] == c; }
  }

  lemma ContributedByFour(w: World, a: NodeId, b: NodeId, c: NodeId, d: NodeId, scope: Scope, x: Name)
    requires scope != UnknownScope
    ensures Contributed(w, [a, b, c, d], scope, false, x) <==>
              x in Own(w, a, scope) || x in Own(w, b, scope) || x in Own(w, c, scope) || x in Own(w, d, scope)
  {
    var chain := [a, b, c, d];
    if x in Own(w, a, scope) { assert chain[0] == a; }
    if x in Own(w, b, scope) { assert chain[1] == b; }
    if x in Own(w, c, scope) { assert chain[2] == c; }
    if x in Own(w, d, scope) { assert chain[3] == d; }
  }

  // ---------------------------------------------------------------------
  // methods
  // ---------------------------------------------------------------------

  /** A list whose names start with strictly increasing characters is strictly sorted. */
  lemma SortedByInitials(xs: seq<Name>)
    requires forall i :: 0 <= i < |xs| ==> |xs[i]| > 0
    requires forall i, j :: 0 <= i < j < |xs| ==> xs[i][0] < xs[j][0]
    ensures StrictlySorted(xs)
  {
  }

  /** The answers the scenario expects from `methods` are in symbol order. */
  lemma AnswersSorted()
    ensures StrictlySorted(["develop", "rotate"])
    ensures StrictlySorted(["bump", "crash", "magnetize"])
    ensures StrictlySorted(["explode", "implode", "repair"])
    ensures StrictlySorted(["construct", "prepare", "think"])
    ensures StrictlySorted(["construct", "make"])
    ensures StrictlySorted(["explode", "implode"])
  {
    SortedByInitials(["develop", "rotate"]);
    SortedByInitials(["bump", "crash", "magnetize"]);
    SortedByInitials(["explode", "implode", "repair"]);
    SortedByInitials(["construct", "prepare", "think"]);
    SortedByInitials(["construct", "make"]);
    SortedByInitials(["explode", "implode"]);
  }

  /** The chain `lookup_chain_for` gives once the three parts and their truncation are known. */
  lemma ChainFromParts(w: World, o: Obj, target: Target, inherit: Inherit, p: Parts, chain: seq<NodeId>)
    requires ValidateArguments(o, target, Some(inherit)).None?
    requires GetSingletonKlassAndChain(w, o, target) == p
    requires Truncate(w, p, inherit, true) == Some(chain)
    ensures LookupChainFor(w, o, target, inherit, true) == Ok(Some(chain))
  {
    ChainIsTruncation(w, o, target, inherit, true);
  }

  /** `earth.shadow.methods(scope: :public, inherit: :singleton)` is `[:develop]`. */
  lemma EarthSingletonMethods(w: World)
    requires Planetary(w, ["develop"])
    ensures Methods(w, Earth(), SelfTarget, PublicScope, SingletonOnly) == Ok(["develop"])
  {
    var chain := [EarthSingleton];
    EarthParts(w, ["develop"]);
    ChainFromParts(w, Earth(), SelfTarget, SingletonOnly,
                   Parts([EarthSingleton], [PlanetNode], [PlanetNode] + PlanetSupers), chain);
    forall x ensures x in ["develop"] <==> Contributed(w, chain, PublicScope, false, x) {
      ContributedCons(w, chain, PublicScope, false, x);
    }
    MethodsListsExactly(w, Earth(), SelfTarget, PublicScope, SingletonOnly, chain, ["develop"]);
  }

  /** With `inherit: :self` the class joins the singleton class: `[:develop, :rotate]`. */
  lemma EarthSelfMethods(w: World)
    requires Planetary(w, ["develop"])
    ensures Methods(w, Earth(), SelfTarget, PublicScope, SelfOnly) == Ok(["develop", "rotate"])
  {
    var chain := [EarthSingleton, PlanetNode];
    var p := Parts([EarthSingleton], [PlanetNode], [PlanetNode] + PlanetSupers);
    EarthParts(w, ["develop"]);
    assert p.singleton + p.klass == chain;
    ChainFromParts(w, Earth(), SelfTarget, SelfOnly, p, chain);
    forall x ensures x in ["develop", "rotate"] <==> Contributed(w, chain, PublicScope, false, x) {
      ContributedByTwo(w, EarthSingleton, PlanetNode, PublicScope, x);
    }
    AnswersSorted();
    MethodsListsExactly(w, Earth(), SelfTarget, PublicScope, SelfOnly, chain, ["develop", "rotate"]);
  }

  /** `:exclude_class` and `:exclude_object` both stop before Object for a plain instance. */
  lemma EarthChainBeforeObject(w: World, own: seq<Name>, optimize: bool)
    requires Planetary(w, own)
    ensures LookupChainFor(w, Earth(), SelfTarget, ExcludeClass, optimize)
            == Ok(Some([EarthSingleton, PlanetNode, BodyNode]))
    ensures LookupChainFor(w, Earth(), SelfTarget, ExcludeObject, optimize)
            == Ok(Some([EarthSingleton, PlanetNode, BodyNode]))
  {
    EarthParts(w, own);
    ObjectCutOfPlanet(w);
    EarthCutBeforeObject(w, ExcludeClass, optimize);
    EarthCutBeforeObject(w, ExcludeObject, optimize);
  }

  /** Both policies cut earth's chain at position 2, where Object sits. */
  lemma EarthCutBeforeObject(w: World, inherit: Inherit, optimize: bool)
    requires inherit == ExcludeClass || inherit == ExcludeObject
    requires GetSingletonKlassAndChain(w, Earth(), SelfTarget)
             == Parts([EarthSingleton], [PlanetNode], [PlanetNode] + PlanetSupers)
    requires ExcludeClassCut(w, [PlanetNode] + PlanetSupers) == Some(2)
    requires Index([PlanetNode] + PlanetSupers, w.objectNode) == Some(2)
    ensures LookupChainFor(w, Earth(), SelfTarget, inherit, optimize)
            == Ok(Some([EarthSingleton, PlanetNode, BodyNode]))
  {
    ChainIsTruncation(w, Earth(), SelfTarget, inherit, optimize);
    TruncateBeforeObject(w, GetSingletonKlassAndChain(w, Earth(), SelfTarget), inherit, optimize);
  }

  lemma TruncateBeforeObject(w: World, p: Parts, inherit: Inherit, optimize: bool)
    requires inherit == ExcludeClass || inherit == ExcludeObject
    requires p == Parts([EarthSingleton], [PlanetNode], [PlanetNode] + PlanetSupers)
    requires ExcludeClassCut(w, p.chain) == Some(2) && Index(p.chain, w.objectNode) == Some(2)
    ensures Truncate(w, p, inherit, optimize) == Some([EarthSingleton, PlanetNode, BodyNode])
  {
    assert [EarthSingleton] + TakeBefore(p.chain, Some(2)) == [EarthSingleton, PlanetNode, BodyNode];
  }

  /** Planet's ancestors hold neither Class nor Module, and Object at position 2. */
  lemma ObjectCutOfPlanet(w: World)
    requires w.classNode == ClassNode && w.moduleNode == ModuleNode && w.objectNode == ObjectNode
    ensures ExcludeClassCut(w, [PlanetNode] + PlanetSupers) == Some(2)
    ensures Index([PlanetNode] + PlanetSupers, w.objectNode) == Some(2)
  {
    var c := [PlanetNode] + PlanetSupers;
    assert c == [PlanetNode, BodyNode, ObjectNode, ExpectationsNode, ObjectMethodNode, KernelNode, BasicObjectNode];
    assert ClassNode !in c && ModuleNode !in c;
    assert c[2] == ObjectNode && ObjectNode !in c[..2];
  }

  /** `:exclude_class` for a plain instance: `[:bump, :crash, :magnetize]`. */
  lemma EarthProtectedExcludeClass(w: World)
    requires Planetary(w, ["develop"])
    ensures Methods(w, Earth(), SelfTarget, ProtectedScope, ExcludeClass) == Ok(["bump", "crash", "magnetize"])
  {
    var chain := [EarthSingleton, PlanetNode, BodyNode];
    EarthChainBeforeObject(w, ["develop"], true);
    ProtectedAlongEarthChain(w);
    AnswersSorted();
    MethodsListsExactly(w, Earth(), SelfTarget, ProtectedScope, ExcludeClass, chain, ["bump", "crash", "magnetize"]);
  }

  lemma ProtectedAlongEarthChain(w: World)
    requires Planetary(w, ["develop"])
    ensures forall x :: x in ["bump", "crash", "magnetize"]
                        <==> Contributed(w, [EarthSingleton, PlanetNode, BodyNode], ProtectedScope, false, x)
  {
    forall x ensures x in ["bump", "crash", "magnetize"]
                     <==> Contributed(w, [EarthSingleton, PlanetNode, BodyNode], ProtectedScope, false, x) {
      ContributedByThree(w, EarthSingleton, PlanetNode, BodyNode, ProtectedScope, x);
    }
  }

  /** A boundary module is included: up to AstronomicalBody gives `[:explode, :implode, :repair]`. */
  lemma EarthPrivateUpToBody(w: World)
    requires Planetary(w, ["develop"])
    ensures Methods(w, Earth(), SelfTarget, PrivateScope, UpTo(BodyNode)) == Ok(["explode", "implode", "repair"])
  {
    var chain := [EarthSingleton, PlanetNode, BodyNode];
    var p := Parts([EarthSingleton], [PlanetNode], [PlanetNode] + PlanetSupers);
    EarthParts(w, ["develop"]);
    TruncateThroughBody(w, p);
    ChainFromParts(w, Earth(), SelfTarget, UpTo(BodyNode), p, chain);
    PrivateAlongEarthChain(w);
    AnswersSorted();
    MethodsListsExactly(w, Earth(), SelfTarget, PrivateScope, UpTo(BodyNode), chain, ["explode", "implode", "repair"]);
  }

  lemma TruncateThroughBody(w: World, p: Parts)
    requires p == Parts([EarthSingleton], [PlanetNode], [PlanetNode] + PlanetSupers)
    ensures Truncate(w, p, UpTo(BodyNode), true) == Some([EarthSingleton, PlanetNode, BodyNode])
  {
    var c := p.chain;
    assert c[0] == PlanetNode && c[1] == BodyNode;
    assert Index(c, BodyNode) == Some(1);
    assert [EarthSingleton] + TakeThrough(c, Some(1)) == [EarthSingleton, PlanetNode, BodyNode];
  }

  lemma PrivateAlongEarthChain(w: World)
    requires Planetary(w, ["develop"])
    ensures forall x :: x in ["explode", "implode", "repair"]
                        <==> Contributed(w, [EarthSingleton, PlanetNode, BodyNode], PrivateScope, false, x)
  {
    forall x ensures x in ["explode", "implode", "repair"]
                     <==> Contributed(w, [EarthSingleton, PlanetNode, BodyNode], PrivateScope, false, x) {
      ContributedByThree(w, EarthSingleton, PlanetNode, BodyNode, PrivateScope, x);
    }
  }

  /** For `target: :class` the class is a module, so `:self` is its singleton class alone. */
  lemma EarthClassAllScopesSelf(w: World)
    requires Planetary(w, ["develop"])
    ensures Methods(w, Earth(), ClassTarget, AllScopes, SelfOnly) == Ok(["construct", "prepare", "think"])
  {
    var chain := [PlanetMeta];
    var p := Parts([PlanetMeta], [], PlanetMetaSupers);
    EarthClassIsPlanet(w, ["develop"]);
    PlanetParts(w, ["develop"]);
    assert p.singleton + p.klass == chain;
    ChainFromParts(w, Earth(), ClassTarget, SelfOnly, p, chain);
    forall x ensures x in ["construct", "prepare", "think"] <==> Contributed(w, chain, AllScopes, false, x) {
      ContributedCons(w, chain, AllScopes, false, x);
    }
    AnswersSorted();
    MethodsListsExactly(w, Earth(), ClassTarget, AllScopes, SelfOnly, chain, ["construct", "prepare", "think"]);
  }

  /** On the singleton-class side `:exclude_class` stops before Class: `[:construct, :make]`. */
  lemma EarthClassPublicExcludeClass(w: World)
    requires Planetary(w, ["develop"])
    ensures Methods(w, Earth(), ClassTarget, PublicScope, ExcludeClass) == Ok(["construct", "make"])
  {
    var chain := [PlanetMeta, BodyMeta, ObjectMeta, BasicObjectMeta];
    var p := Parts([PlanetMeta], [], PlanetMetaSupers);
    EarthClassIsPlanet(w, ["develop"]);
    PlanetParts(w, ["develop"]);
    PlanetMetaCut(w, true);
    ChainFromParts(w, Earth(), ClassTarget, ExcludeClass, p, chain);
    PublicAlongPlanetMetaChain(w);
    AnswersSorted();
    MethodsListsExactly(w, Earth(), ClassTarget, PublicScope, ExcludeClass, chain, ["construct", "make"]);
  }

  lemma PublicAlongPlanetMetaChain(w: World)
    requires Planetary(w, ["develop"])
    ensures forall x :: x in ["construct", "make"]
                        <==> Contributed(w, [PlanetMeta, BodyMeta, ObjectMeta, BasicObjectMeta], PublicScope, false, x)
  {
    forall x ensures x in ["construct", "make"]
                     <==> Contributed(w, [PlanetMeta, BodyMeta, ObjectMeta, BasicObjectMeta], PublicScope, false, x) {
      ContributedByFour(w, PlanetMeta, BodyMeta, ObjectMeta, BasicObjectMeta, PublicScope, x);
    }
  }

  /** For a class, `:exclude_class` keeps the singleton classes up to BasicObject's. */
  lemma PlanetChainBeforeClass(w: World, optimize: bool)
    requires w.classNode == ClassNode
    requires GetSingletonKlassAndChain(w, PlanetClass(), SelfTarget) == Parts([PlanetMeta], [], PlanetMetaSupers)
    ensures LookupChainFor(w, PlanetClass(), SelfTarget, ExcludeClass, optimize)
            == Ok(Some([PlanetMeta, BodyMeta, ObjectMeta, BasicObjectMeta]))
  {
    ChainIsTruncation(w, PlanetClass(), SelfTarget, ExcludeClass, optimize);
    PlanetMetaCut(w, optimize);
  }

  lemma TruncateBeforeClass(w: World, p: Parts, optimize: bool)
    requires p.singleton == [PlanetMeta] && |p.chain| >= 3
    requires p.chain[0] == BodyMeta && p.chain[1] == ObjectMeta && p.chain[2] == BasicObjectMeta
    requires ExcludeClassCut(w, p.chain) == Some(3)
    ensures Truncate(w, p, ExcludeClass, optimize) == Some([PlanetMeta, BodyMeta, ObjectMeta, BasicObjectMeta])
  {
    CutAtThree(w, p, optimize);
    assert p.singleton + [p.chain[0], p.chain[1], p.chain[2]] == [PlanetMeta, BodyMeta, ObjectMeta, BasicObjectMeta];
  }

  /** `:exclude_class` on the chain of Planet's singleton class stops before Class. */
  lemma PlanetMetaCut(w: World, optimize: bool)
    requires w.classNode == ClassNode
    ensures Truncate(w, Parts([PlanetMeta], [], PlanetMetaSupers), ExcludeClass, optimize)
            == Some([PlanetMeta, BodyMeta, ObjectMeta, BasicObjectMeta])
  {
    ClassCutOfPlanetMeta(w);
    TruncateBeforeClass(w, Parts([PlanetMeta], [], PlanetMetaSupers), optimize);
  }

  /** `:exclude_class` with the cut at index 3 keeps the singleton part and the first three nodes. */
  lemma CutAtThree(w: World, p: Parts, optimize: bool)
    requires |p.chain| >= 3 && ExcludeClassCut(w, p.chain) == Some(3)
    ensures Truncate(w, p, ExcludeClass, optimize) == Some(p.singleton + [p.chain[0], p.chain[1], p.chain[2]])
  {
    FirstThree(p.chain);
  }

  lemma FirstThree(c: seq<NodeId>)
    requires |c| >= 3
    ensures TakeBefore(c, Some(3)) == [c[0], c[1], c[2]]
  {
    assert c[..3] == [c[0], c[1], c[2]];
  }

  lemma ClassCutOfPlanetMeta(w: World)
    requires w.classNode == ClassNode
    ensures ExcludeClassCut(w, PlanetMetaSupers) == Some(3)
  {
    var c := PlanetMetaSupers;
    assert c[3] == ClassNode;
    assert ClassNode !in c[..3];
  }

  /** `planet.shadow.methods(target: :instances, scope: :private, inherit: :exclude_object)`. */
  lemma PlanetInstancesPrivate(w: World)
    requires Planetary(w, ["develop"])
    ensures Methods(w, PlanetClass(), InstancesTarget, PrivateScope, ExcludeObject) == Ok(["explode", "implode"])
  {
    var chain := [PlanetNode, BodyNode];
    var p := Parts([], [PlanetNode], [PlanetNode] + PlanetSupers);
    PlanetParts(w, ["develop"]);
    ObjectCutOfPlanet(w);
    TruncateInstancesBeforeObject(w, p);
    ChainFromParts(w, PlanetClass(), InstancesTarget, ExcludeObject, p, chain);
    PrivateAlongPlanetChain(w);
    AnswersSorted();
    MethodsListsExactly(w, PlanetClass(), InstancesTarget, PrivateScope, ExcludeObject, chain, ["explode", "implode"]);
  }

  lemma PrivateAlongPlanetChain(w: World)
    requires Planetary(w, ["develop"])
    ensures forall x :: x in ["explode", "implode"] <==> Contributed(w, [PlanetNode, BodyNode], PrivateScope, false, x)
  {
    forall x ensures x in ["explode", "implode"] <==> Contributed(w, [PlanetNode, BodyNode], PrivateScope, false, x) {
      ContributedByTwo(w, PlanetNode, BodyNode, PrivateScope, x);
    }
  }

  lemma TruncateInstancesBeforeObject(w: World, p: Parts)
    requires p == Parts([], [PlanetNode], [PlanetNode] + PlanetSupers)
    requires Index(p.chain, w.objectNode) == Some(2)
    ensures Truncate(w, p, ExcludeObject, true) == Some([PlanetNode, BodyNode])
  {
    assert [] + TakeBefore(p.chain, Some(2)) == [PlanetNode, BodyNode];
  }

  /** The argument errors: `:instances` of a non-module, `:singleton` with `:instances`, an unknown scope or inherit. */
  lemma MethodsErrors(w: World)
    requires Planetary(w, ["develop"])
    ensures Methods(w, Earth(), InstancesTarget, PublicScope, AllAncestors) == Err(InstancesOfNonModule)
    ensures Methods(w, PlanetClass(), InstancesTarget, PublicScope, SingletonOnly) == Err(SingletonOfInstances)
    ensures Methods(w, Earth(), SelfTarget, UnknownScope, SelfOnly) == Err(UnknownScopeError)
    ensures Methods(w, Earth(), SelfTarget, PublicScope, Unmatched) == Err(NoChain)
  {
    EarthParts(w, ["develop"]);
    ChainIsTruncation(w, Earth(), SelfTarget, SelfOnly, true);
  }

  // ---------------------------------------------------------------------
  // method?, method_scope
  // ---------------------------------------------------------------------

  lemma Anchors(w: World, own: seq<Name>)
    requires Planetary(w, own)
    ensures SimpleLookupChainFor(w, Earth(), SelfTarget) == Ok([EarthSingleton, PlanetNode])
    ensures SimpleLookupChainFor(w, Earth(), ClassTarget) == Ok([PlanetMeta])
    ensures SimpleLookupChainFor(w, PlanetClass(), SelfTarget) == Ok([PlanetMeta])
    ensures SimpleLookupChainFor(w, PlanetClass(), InstancesTarget) == Ok([PlanetNode])
  {
    EarthParts(w, own);
    EarthClassIsPlanet(w, own);
    PlanetParts(w, own);
    assert [EarthSingleton] + [PlanetNode] == [EarthSingleton, PlanetNode];
    assert [PlanetMeta] + [] == [PlanetMeta];
    assert [] + [PlanetNode] == [PlanetNode];
  }

  /** Looked up from `id`, `n` lands on the `k`-th ancestor, the first that defines it. */
  lemma ResolveAt(w: World, id: NodeId, k: nat, n: Name, vis: Visibility)
    requires k < |Ancestors(w, id)|
    requires forall j :: 0 <= j < k ==> !DefinesOwn(w, Ancestors(w, id)[j], n)
    requires DefinesOwn(w, Ancestors(w, id)[k], n) && OwnVisibility(w, Ancestors(w, id)[k], n) == vis
    ensures Resolve(w, id, n) == Some(vis)
  {
    OwnerIsFirstDefiner(w, Ancestors(w, id), n, k);
  }

  /** Names found from earth's singleton class: its own, then Planet's and AstronomicalBody's. */
  lemma ResolvedFromEarth(w: World, own: seq<Name>)
    requires Planetary(w, own) && own == ["develop"]
    ensures Resolve(w, EarthSingleton, "repair") == Some(Private)
    ensures Resolve(w, EarthSingleton, "rotate") == Some(Public)
    ensures Resolve(w, EarthSingleton, "bump") == Some(Protected)
  {
    ResolvedFromEarthAt(w, own, "repair", Private, 0);
    ResolvedFromEarthAt(w, own, "rotate", Public, 1);
    ResolvedFromEarthAt(w, own, "bump", Protected, 1);
  }

  lemma ResolvedFromEarthAt(w: World, own: seq<Name>, n: Name, vis: Visibility, k: nat)
    requires Planetary(w, own) && own == ["develop"]
    requires (n == "repair" && vis == Private && k == 0) || (n == "rotate" && vis == Public && k == 1)
             || (n == "bump" && vis == Protected && k == 1)
    ensures Resolve(w, EarthSingleton, n) == Some(vis)
  {
    var path := Ancestors(w, EarthSingleton);
    assert path[0] == EarthSingleton && path[1] == PlanetNode;
    ResolveAt(w, EarthSingleton, k, n, vis);
  }

  /** A name none of earth's ancestors define. */
  lemma UnresolvedFromEarth(w: World, own: seq<Name>, n: Name)
    requires Planetary(w, own) && own == ["develop"]
    requires n in {"idea", "fun"}
    ensures Resolve(w, EarthSingleton, n) == None
  {
    assert Ancestors(w, EarthSingleton) == [EarthSingleton] + Ancestors(w, PlanetNode);
    assert !DefinesOwn(w, EarthSingleton, n);
    NotDefinedFromPlanet(w, own, n);
    UnresolvedAlong(w, EarthSingleton, n);
  }

  /** No node of the path from `id` defines `n`, so `id` does not resolve it. */
  lemma UnresolvedAlong(w: World, id: NodeId, n: Name)
    requires forall x :: x in Ancestors(w, id) ==> !DefinesOwn(w, x, n)
    ensures Resolve(w, id, n) == None
  {
    var path := Ancestors(w, id);
    forall i | 0 <= i < |path| ensures !DefinesOwn(w, path[i], n) {
      assert path[i] in path;
    }
  }

  /** A node that does not define `n`, above a node none of whose ancestors do, has no occurrence of it. */
  lemma NoneAlong(w: World, id: NodeId, above: NodeId, n: Name)
    requires Ancestors(w, id) == [id] + Ancestors(w, above)
    requires !DefinesOwn(w, id, n) && forall x :: x in Ancestors(w, above) ==> !DefinesOwn(w, x, n)
    ensures OwnOccurrences(w, Ancestors(w, id), n) == []
  {
    var path := Ancestors(w, id);
    forall i | 0 <= i < |path| ensures !DefinesOwn(w, path[i], n) {
      if i > 0 { assert path[i] in Ancestors(w, above); }
    }
    OwnOccurrencesEmpty(w, path, n);
  }

  /** Object and its ancestors define none of the names the scenario asks about. */
  lemma NotDefinedFromObject(w: World, own: seq<Name>, n: Name)
    requires Planetary(w, own)
    requires n in {"idea", "fun", "stir", "magnetize", "rotate", "bump"}
    ensures forall x :: x in Ancestors(w, ObjectNode) ==> !DefinesOwn(w, x, n)
  {
    assert Ancestors(w, ObjectNode) == [ObjectNode, ExpectationsNode, ObjectMethodNode, KernelNode, BasicObjectNode];
    ObjectNodesDefineNone(w, own, n);
  }

  lemma ObjectNodesDefineNone(w: World, own: seq<Name>, n: Name)
    requires Planetary(w, own)
    requires n in {"idea", "fun", "stir", "magnetize", "rotate", "bump"}
    ensures !DefinesOwn(w, ObjectNode, n) && !DefinesOwn(w, ExpectationsNode, n)
    ensures !DefinesOwn(w, ObjectMethodNode, n) && !DefinesOwn(w, KernelNode, n) && !DefinesOwn(w, BasicObjectNode, n)
  {
  }

  /** Planet and its ancestors define none of the instance-side names the scenario asks about. */
  lemma NotDefinedFromPlanet(w: World, own: seq<Name>, n: Name)
    requires Planetary(w, own)
    requires n in {"idea", "fun", "stir"}
    ensures forall x :: x in Ancestors(w, PlanetNode) ==> !DefinesOwn(w, x, n)
  {
    assert Ancestors(w, PlanetNode) == [PlanetNode, BodyNode] + Ancestors(w, ObjectNode);
    assert !DefinesOwn(w, PlanetNode, n) && !DefinesOwn(w, BodyNode, n);
    NotDefinedFromObject(w, own, n);
  }

  /** Class methods of Planet, found on its singleton class itself. */
  lemma ResolvedAtPlanetMeta(w: World, own: seq<Name>)
    requires Planetary(w, own)
    ensures Resolve(w, PlanetMeta, "construct") == Some(Public)
    ensures Resolve(w, PlanetMeta, "think") == Some(Private)
  {
    ResolveAt(w, PlanetMeta, 0, "construct", Public);
    ResolveAt(w, PlanetMeta, 0, "think", Private);
  }

  /** Class methods of AstronomicalBody, found one step up from Planet's singleton class. */
  lemma ResolvedAbovePlanetMeta(w: World, own: seq<Name>)
    requires Planetary(w, own)
    ensures Resolve(w, PlanetMeta, "make") == Some(Public)
    ensures Resolve(w, PlanetMeta, "stir") == Some(Protected)
    ensures Resolve(w, PlanetMeta, "idea") == Some(Private)
  {
    ResolvedAtBodyMeta(w, own, "make", Public);
    ResolvedAtBodyMeta(w, own, "stir", Protected);
    ResolvedAtBodyMeta(w, own, "idea", Private);
  }

  lemma ResolvedAtBodyMeta(w: World, own: seq<Name>, n: Name, vis: Visibility)
    requires Planetary(w, own)
    requires (n == "make" && vis == Public) || (n == "stir" && vis == Protected) || (n == "idea" && vis == Private)
    ensures Resolve(w, PlanetMeta, n) == Some(vis)
  {
    var path := Ancestors(w, PlanetMeta);
    assert path[0] == PlanetMeta && path[1] == BodyMeta;
    ResolveAt(w, PlanetMeta, 1, n, vis);
  }

  /** Instance methods of Planet, found on Planet itself. */
  lemma ResolvedAtPlanet(w: World, own: seq<Name>)
    requires Planetary(w, own)
    ensures Resolve(w, PlanetNode, "implode") == Some(Private)
    ensures Resolve(w, PlanetNode, "bump") == Some(Protected)
  {
    ResolveAt(w, PlanetNode, 0, "implode", Private);
    ResolveAt(w, PlanetNode, 0, "bump", Protected);
  }

  /** A name none of Planet's ancestors define. */
  lemma UnresolvedFromPlanet(w: World, own: seq<Name>, n: Name)
    requires Planetary(w, own)
    requires n in {"idea", "stir"}
    ensures Resolve(w, PlanetNode, n) == None
  {
    NotDefinedFromPlanet(w, own, n);
    UnresolvedAlong(w, PlanetNode, n);
  }

  /** A name none of the ancestors of Planet's singleton class define. */
  lemma UnresolvedFromPlanetMeta(w: World, own: seq<Name>, n: Name)
    requires Planetary(w, own)
    requires n in {"magnetize", "rotate"}
    ensures Resolve(w, PlanetMeta, n) == None
  {
    MetaPath(w, own);
    MetaNodesDefineNone(w, own, n);
    NotDefinedAboveClass(w, own, n);
    UnresolvedAlong(w, PlanetMeta, n);
  }

  lemma MetaPath(w: World, own: seq<Name>)
    requires Planetary(w, own)
    ensures Ancestors(w, PlanetMeta) == [PlanetMeta, BodyMeta, ObjectMeta, BasicObjectMeta] + Ancestors(w, ClassNode)
  {
    assert Ancestors(w, ClassNode) == [ClassNode] + ClassInfo().supers;
    assert PlanetMetaSupers[3..] == Ancestors(w, ClassNode);
  }

  lemma MetaNodesDefineNone(w: World, own: seq<Name>, n: Name)
    requires Planetary(w, own)
    requires n in {"magnetize", "rotate"}
    ensures !DefinesOwn(w, PlanetMeta, n) && !DefinesOwn(w, BodyMeta, n)
    ensures !DefinesOwn(w, ObjectMeta, n) && !DefinesOwn(w, BasicObjectMeta, n)
  {
  }

  /** Neither name is defined by Class or its ancestors. */
  lemma NotDefinedAboveClass(w: World, own: seq<Name>, n: Name)
    requires Planetary(w, own)
    requires n in {"magnetize", "rotate"}
    ensures forall x :: x in Ancestors(w, ClassNode) ==> !DefinesOwn(w, x, n)
  {
    assert Ancestors(w, ClassNode) == [ClassNode, ModuleNode] + Ancestors(w, ObjectNode);
    assert !DefinesOwn(w, ClassNode, n) && !DefinesOwn(w, ModuleNode, n);
    NotDefinedFromObject(w, own, n);
  }

  /** `method?` as the examples exercise it on earth. */
  lemma EarthMethodDefined(w: World)
    requires Planetary(w, ["develop"])
    ensures IsMethodDefined(w, Earth(), "bump", SelfTarget) == Ok(true)
    ensures IsMethodDefined(w, Earth(), "idea", SelfTarget) == Ok(false)
  {
    Anchors(w, ["develop"]);
    ResolvedFromEarth(w, ["develop"]);
    UnresolvedFromEarth(w, ["develop"], "idea");
    UnresolvedFromPlanet(w, ["develop"], "idea");
    AnyDefinedOfTwo(w, EarthSingleton, PlanetNode, "bump");
    AnyDefinedOfTwo(w, EarthSingleton, PlanetNode, "idea");
  }

  lemma AnyDefinedOfTwo(w: World, a: NodeId, b: NodeId, n: Name)
    ensures AnyDefined(w, [a, b], n) <==> Resolve(w, a, n).Some? || Resolve(w, b, n).Some?
  {
    assert [a, b][0] == a && [a, b][1] == b;
  }

  lemma AnyDefinedOfOne(w: World, a: NodeId, n: Name)
    ensures AnyDefined(w, [a], n) <==> Resolve(w, a, n).Some?
  {
    assert [a][0] == a;
  }

  lemma ScopeOfTwo(w: World, a: NodeId, b: NodeId, n: Name)
    ensures CompactFirst(ScopesAt(w, [a, b], n)) == if Resolve(w, a, n).Some? then Resolve(w, a, n) else Resolve(w, b, n)
  {
    var xs := ScopesAt(w, [a, b], n);
    assert xs[1..] == [xs[1]];
  }

  lemma ScopeOfOne(w: World, a: NodeId, n: Name)
    ensures CompactFirst(ScopesAt(w, [a], n)) == Resolve(w, a, n)
  {
  }

  /** `method?` with `target: :class` on earth looks at Planet's singleton class. */
  lemma EarthClassMethodDefined(w: World)
    requires Planetary(w, ["develop"])
    ensures IsMethodDefined(w, Earth(), "stir", ClassTarget) == Ok(true)
    ensures IsMethodDefined(w, Earth(), "magnetize", ClassTarget) == Ok(false)
  {
    Anchors(w, ["develop"]);
    ResolvedAbovePlanetMeta(w, ["develop"]);
    UnresolvedFromPlanetMeta(w, ["develop"], "magnetize");
    AnyDefinedOfOne(w, PlanetMeta, "stir");
    AnyDefinedOfOne(w, PlanetMeta, "magnetize");
  }

  /** `method?` on planet itself: its class methods, and the AstronomicalBody ones above them. */
  lemma PlanetMethodDefined(w: World)
    requires Planetary(w, ["develop"])
    ensures IsMethodDefined(w, PlanetClass(), "idea", SelfTarget) == Ok(true)
    ensures IsMethodDefined(w, PlanetClass(), "rotate", SelfTarget) == Ok(false)
  {
    Anchors(w, ["develop"]);
    ResolvedAbovePlanetMeta(w, ["develop"]);
    UnresolvedFromPlanetMeta(w, ["develop"], "rotate");
    AnyDefinedOfOne(w, PlanetMeta, "idea");
    AnyDefinedOfOne(w, PlanetMeta, "rotate");
  }

  /** `method?(target: :instances)` on planet: what Planet's instances respond to. */
  lemma PlanetInstancesMethodDefined(w: World)
    requires Planetary(w, ["develop"])
    ensures IsMethodDefined(w, PlanetClass(), "implode", InstancesTarget) == Ok(true)
    ensures IsMethodDefined(w, PlanetClass(), "stir", InstancesTarget) == Ok(false)
  {
    Anchors(w, ["develop"]);
    ResolvedAtPlanet(w, ["develop"]);
    UnresolvedFromPlanet(w, ["develop"], "stir");
    AnyDefinedOfOne(w, PlanetNode, "implode");
    AnyDefinedOfOne(w, PlanetNode, "stir");
  }

  /** `method_scope` on earth: the visibility of the nearest definition, nil when there is none. */
  lemma EarthMethodScopes(w: World)
    requires Planetary(w, ["develop"])
    ensures MethodScope(w, Earth(), "rotate", SelfTarget) == Ok(Some(Public))
    ensures MethodScope(w, Earth(), "bump", SelfTarget) == Ok(Some(Protected))
    ensures MethodScope(w, Earth(), "repair", SelfTarget) == Ok(Some(Private))
    ensures MethodScope(w, Earth(), "idea", SelfTarget) == Ok(None)
  {
    Anchors(w, ["develop"]);
    ResolvedFromEarth(w, ["develop"]);
    UnresolvedFromEarth(w, ["develop"], "idea");
    UnresolvedFromPlanet(w, ["develop"], "idea");
    ScopeOfTwo(w, EarthSingleton, PlanetNode, "rotate");
    ScopeOfTwo(w, EarthSingleton, PlanetNode, "bump");
    ScopeOfTwo(w, EarthSingleton, PlanetNode, "repair");
    ScopeOfTwo(w, EarthSingleton, PlanetNode, "idea");
  }

  /** `method_scope` for the class side and for instances. */
  lemma ClassSideMethodScopes(w: World)
    requires Planetary(w, ["develop"])
    ensures MethodScope(w, Earth(), "think", ClassTarget) == Ok(Some(Private))
    ensures MethodScope(w, PlanetClass(), "construct", SelfTarget) == Ok(Some(Public))
    ensures MethodScope(w, PlanetClass(), "bump", InstancesTarget) == Ok(Some(Protected))
  {
    Anchors(w, ["develop"]);
    ResolvedAtPlanetMeta(w, ["develop"]);
    ResolvedAtPlanet(w, ["develop"]);
    ScopeOfOne(w, PlanetMeta, "think");
    ScopeOfOne(w, PlanetMeta, "construct");
    ScopeOfOne(w, PlanetNode, "bump");
  }

  // ---------------------------------------------------------------------
  // method
  // ---------------------------------------------------------------------

  /** `earth.shadow.method(:bump)` is Planet's bump, bound; with `unbind: true`, unbound. */
  lemma EarthGetMethod(w: World)
    requires Planetary(w, ["develop"])
    ensures Method(w, Earth(), "bump", SelfTarget, false, false)
            == Ok(OneMethod(Some(MethodRef(PlanetNode, "bump", true))))
    ensures Method(w, Earth(), "bump", SelfTarget, true, false)
            == Ok(OneMethod(Some(MethodRef(PlanetNode, "bump", false))))
    ensures Method(w, Earth(), "fun", SelfTarget, false, false) == Ok(OneMethod(None))
  {
    var path := Ancestors(w, EarthSingleton);
    assert LookupPath(w, Earth(), SelfTarget) == path;
    assert path[1] == PlanetNode;
    OwnerIsFirstDefiner(w, path, "bump", 1);
    UnresolvedFromEarth(w, ["develop"], "fun");
  }

  /** `planet.shadow.method(:implode, target: :instances)` is an UnboundMethod of Planet. */
  lemma PlanetInstanceMethod(w: World)
    requires Planetary(w, ["develop"])
    ensures Method(w, PlanetClass(), "implode", InstancesTarget, false, false)
            == Ok(OneMethod(Some(MethodRef(PlanetNode, "implode", false))))
  {
    var path := Ancestors(w, PlanetNode);
    assert LookupPath(w, PlanetClass(), InstancesTarget) == path;
    OwnerIsFirstDefiner(w, path, "implode", 0);
  }

  /** After `def earth.bump`, `method(:bump, all: true)` lists both definitions, nearest first. */
  lemma EarthBumpEverywhere(w: World)
    requires Planetary(w, ["develop", "bump"])
    ensures Method(w, Earth(), "bump", SelfTarget, false, true)
            == Ok(EveryOccurrence([MethodRef(EarthSingleton, "bump", false), MethodRef(PlanetNode, "bump", false)]))
  {
    var chain := [EarthSingleton, PlanetNode] + PlanetSupers;
    assert chain == [EarthSingleton, PlanetNode, BodyNode, ObjectNode,
                     ExpectationsNode, ObjectMethodNode, KernelNode, BasicObjectNode];
    EarthFullChain(w, ["develop", "bump"]);
    NoBumpAbovePlanet(w, ["develop", "bump"]);
    assert DefinesOwn(w, EarthSingleton, "bump") && DefinesOwn(w, PlanetNode, "bump");
    TwoOccurrences(w, EarthSingleton, PlanetNode, PlanetSupers, "bump");
    assert MethodAll(w, Earth(), "bump", SelfTarget) == Ok(OwnOccurrences(w, chain, "bump"));
  }

  lemma TwoOccurrences(w: World, a: NodeId, b: NodeId, rest: seq<NodeId>, n: Name)
    requires DefinesOwn(w, a, n) && DefinesOwn(w, b, n) && OwnOccurrences(w, rest, n) == []
    ensures OwnOccurrences(w, [a, b] + rest, n) == [MethodRef(a, n, false), MethodRef(b, n, false)]
  {
    var chain := [a, b] + rest;
    assert chain[1..] == [b] + rest;
    assert chain[1..][1..] == rest;
  }

  lemma NoBumpAbovePlanet(w: World, own: seq<Name>)
    requires Planetary(w, own)
    ensures OwnOccurrences(w, PlanetSupers, "bump") == []
  {
    NotDefinedFromObject(w, own, "bump");
    assert Ancestors(w, BodyNode) == PlanetSupers;
    assert !DefinesOwn(w, BodyNode, "bump");
    NoneAlong(w, BodyNode, ObjectNode, "bump");
  }

  // ---------------------------------------------------------------------
  // method_lookup_chain
  // ---------------------------------------------------------------------

  /** The default `:exclude_class` chains: before Object for earth, before Class for planet. */
  lemma DefaultLookupChains(w: World)
    requires Planetary(w, ["develop"])
    ensures MethodLookupChain(w, Earth(), SelfTarget, ExcludeClass) == Ok(Some([EarthSingleton, PlanetNode, BodyNode]))
    ensures MethodLookupChain(w, PlanetClass(), SelfTarget, ExcludeClass)
            == Ok(Some([PlanetMeta, BodyMeta, ObjectMeta, BasicObjectMeta]))
  {
    EarthChainBeforeObject(w, ["develop"], false);
    PlanetParts(w, ["develop"]);
    PlanetChainBeforeClass(w, false);
  }

  /** The `:all` chains: every ancestor, the singleton class first. */
  lemma FullLookupChains(w: World)
    requires Planetary(w, ["develop"])
    ensures MethodLookupChain(w, Earth(), SelfTarget, AllAncestors)
            == Ok(Some([EarthSingleton, PlanetNode, BodyNode, ObjectNode,
                        ExpectationsNode, ObjectMethodNode, KernelNode, BasicObjectNode]))
    ensures MethodLookupChain(w, PlanetClass(), SelfTarget, AllAncestors)
            == Ok(Some([PlanetMeta, BodyMeta, ObjectMeta, BasicObjectMeta, ClassNode, ModuleNode, ObjectNode,
                        ExpectationsNode, ObjectMethodNode, KernelNode, BasicObjectNode]))
  {
    EarthFullChain(w, ["develop"]);
    PlanetFullChain(w, ["develop"]);
  }

  /** `:all` on earth: its singleton class, then every ancestor of Planet. */
  lemma EarthFullChain(w: World, own: seq<Name>)
    requires Planetary(w, own)
    ensures LookupChainFor(w, Earth(), SelfTarget, AllAncestors, false)
            == Ok(Some([EarthSingleton, PlanetNode, BodyNode, ObjectNode,
                        ExpectationsNode, ObjectMethodNode, KernelNode, BasicObjectNode]))
  {
    var p := Parts([EarthSingleton], [PlanetNode], [PlanetNode] + PlanetSupers);
    EarthParts(w, own);
    ChainIsTruncation(w, Earth(), SelfTarget, AllAncestors, false);
    assert p.singleton + p.chain == [EarthSingleton, PlanetNode, BodyNode, ObjectNode,
                                     ExpectationsNode, ObjectMethodNode, KernelNode, BasicObjectNode];
  }

  /** `:all` on planet: its singleton class, then every ancestor of that singleton class. */
  lemma PlanetFullChain(w: World, own: seq<Name>)
    requires Planetary(w, own)
    ensures LookupChainFor(w, PlanetClass(), SelfTarget, AllAncestors, false)
            == Ok(Some([PlanetMeta, BodyMeta, ObjectMeta, BasicObjectMeta, ClassNode, ModuleNode, ObjectNode,
                        ExpectationsNode, ObjectMethodNode, KernelNode, BasicObjectNode]))
  {
    PlanetParts(w, own);
    ChainIsTruncation(w, PlanetClass(), SelfTarget, AllAncestors, false);
    assert [PlanetMeta] + PlanetMetaSupers == [PlanetMeta, BodyMeta, ObjectMeta, BasicObjectMeta, ClassNode,
                                              ModuleNode, ObjectNode, ExpectationsNode, ObjectMethodNode,
                                              KernelNode, BasicObjectNode];
  }
}
