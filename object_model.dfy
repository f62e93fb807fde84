/**
 * The runtime object model the introspection reads, given as data: what
 * Ruby's reflection (`ancestors`, `singleton_class`, `class`,
 * `*_instance_methods(false)`) would report for each class, module and
 * singleton class, plus the queries derived from it that look up the
 * inheritance chain (`*_method_defined?(name, true)`,
 * `*_instance_methods(true)`, `instance_method`, `Object#method`).
 */
module ObjectModel {
  import opened RubyCore

  /** Identity of a class, module or singleton class. */
  type NodeId = nat

  /** A method name (a Ruby symbol). */
  type Name = string

  datatype Visibility = Public | Protected | Private

  /** What reflection reports about one node. */
  datatype NodeInfo = NodeInfo(
    display: string,             // the node's `to_s`
    supers: seq<NodeId>,         // `ancestors` without the node itself
    publicOwn: seq<Name>,        // `public_instance_methods(false)`
    protectedOwn: seq<Name>,     // `protected_instance_methods(false)`
    privateOwn: seq<Name>,       // `private_instance_methods(false)`
    metaclass: NodeId,           // `singleton_class` of the node as an object
    klass: NodeId)               // `class` of the node as an object (Class or Module)

  /**
   * A snapshot of the object model, with the three nodes the truncation
   * policies name: `Class`, `Module` and `Object`.
   */
  datatype World = World(
    nodes: map<NodeId, NodeInfo>,
    classNode: NodeId,
    moduleNode: NodeId,
    objectNode: NodeId)

  /**
   * A receiver: `asModule` is the node it is when it `is_a?(Module)`,
   * `klass` is its `class`, and `singleton` its `singleton_class`, or
   * None where asking for one raises TypeError (Integer, Symbol, ...).
   */
  datatype Obj = Obj(asModule: Option<NodeId>, klass: NodeId, singleton: Option<NodeId>)

  /** A Method (bound) or UnboundMethod reference: its owner and name. */
  datatype MethodRef = MethodRef(owner: NodeId, name: Name, bound: bool)

  /** Reflection data of a node; a node the snapshot does not list has no methods and no ancestors. */
  function Info(w: World, id: NodeId): NodeInfo {
    if id in w.nodes then w.nodes[id] else NodeInfo("", [], [], [], [], id, w.classNode)
  }

  /** `node.ancestors`: the node itself first. */
  function Ancestors(w: World, id: NodeId): (r: seq<NodeId>)
    ensures |r| >= 1 && r[0] == id
  {
    [id] + Info(w, id).supers
  }

  predicate IsModule(o: Obj) {
    o.asModule.Some?
  }

  /** `o.class` seen as a receiver in its own right. */
  function ClassObject(w: World, o: Obj): (c: Obj)
    ensures IsModule(c) && c.asModule.value == o.klass && c.singleton.Some?
  {
    Obj(Some(o.klass), Info(w, o.klass).klass, Some(Info(w, o.klass).metaclass))
  }

  /** `node.<vis>_instance_methods(false)`: names defined directly in the node. */
  function OwnNames(w: World, id: NodeId, vis: Visibility): seq<Name> {
    match vis
    case Public => Info(w, id).publicOwn
    case Protected => Info(w, id).protectedOwn
    case Private => Info(w, id).privateOwn
  }

  /** The node's own tables hold `n` in some visibility. */
  predicate DefinesOwn(w: World, id: NodeId, n: Name) {
    n in OwnNames(w, id, Public) || n in OwnNames(w, id, Protected) || n in OwnNames(w, id, Private)
  }

  /** The visibility the node's own definition of `n` has. */
  function OwnVisibility(w: World, id: NodeId, n: Name): (v: Visibility)
    requires DefinesOwn(w, id, n)
    ensures n in OwnNames(w, id, v)
  {
    if n in OwnNames(w, id, Public) then Public
    else if n in OwnNames(w, id, Protected) then Protected
    else Private
  }

  /** The first node along `path` that defines `n` itself: where a call of `n` lands. */
  function Owner(w: World, path: seq<NodeId>, n: Name): (r: Option<NodeId>)
    ensures r.None? <==> forall i :: 0 <= i < |path| ==> !DefinesOwn(w, path[i], n)
    ensures r.Some? ==> exists i :: 0 <= i < |path| && path[i] == r.value
                          && DefinesOwn(w, r.value, n)
                          && forall j :: 0 <= j < i ==> !DefinesOwn(w, path[j], n)
  {
    if path == [] then None
    else if DefinesOwn(w, path[0], n) then Some(path[0])
    else
      var r := Owner(w, path[1..], n);
      assert forall i :: 1 <= i < |path| ==> path[i] == path[1..][i - 1];
      r
  }

  /** The owner is the node at the first position that defines the name. */
  lemma OwnerIsFirstDefiner(w: World, path: seq<NodeId>, n: Name, k: nat)
    requires k < |path| && DefinesOwn(w, path[k], n)
    requires forall j :: 0 <= j < k ==> !DefinesOwn(w, path[j], n)
    ensures Owner(w, path, n) == Some(path[k])
  {
    var i :| 0 <= i < |path| && path[i] == Owner(w, path, n).value
             && DefinesOwn(w, path[i], n) && forall j :: 0 <= j < i ==> !DefinesOwn(w, path[j], n);
    assert !(i < k) && !(k < i);
  }

  /**
   * The visibility `n` has when looked up from `id` through its ancestors,
   * or None: what `<vis>_method_defined?(n, true)` tests.
   */
  function Resolve(w: World, id: NodeId, n: Name): (r: Option<Visibility>)
    ensures r.Some? <==> exists i :: 0 <= i < |Ancestors(w, id)| && DefinesOwn(w, Ancestors(w, id)[i], n)
  {
    match Owner(w, Ancestors(w, id), n)
    case None => None
    case Some(o) => Some(OwnVisibility(w, o, n))
  }

  /** Every name defined directly in some node of `path`, in path order. */
  function OwnNamesAlong(w: World, path: seq<NodeId>): (r: seq<Name>)
    ensures forall n :: n in r <==> exists i :: 0 <= i < |path| && DefinesOwn(w, path[i], n)
  {
    if path == [] then []
    else
      var rest := OwnNamesAlong(w, path[1..]);
      assert forall i :: 1 <= i < |path| ==> path[i] == path[1..][i - 1];
      OwnNames(w, path[0], Public) + OwnNames(w, path[0], Protected) + OwnNames(w, path[0], Private) + rest
  }

  /** Keeps the names that resolve from `id` with visibility `vis`. */
  function KeepResolved(w: World, id: NodeId, vis: Visibility, names: seq<Name>): (r: seq<Name>)
    ensures forall n :: n in r <==> n in names && Resolve(w, id, n) == Some(vis)
  {
    if names == [] then []
    else
      var rest := KeepResolved(w, id, vis, names[1..]);
      assert forall n :: n in names <==> n == names[0] || n in names[1..];
      if Resolve(w, id, names[0]) == Some(vis) then [names[0]] + rest else rest
  }

  /**
   * `node.<vis>_instance_methods(true)`: every name that, looked up from
   * the node, resolves with visibility `vis`.
   */
  function InheritedNames(w: World, id: NodeId, vis: Visibility): (r: seq<Name>)
    ensures forall n :: n in r <==> Resolve(w, id, n) == Some(vis)
  {
    KeepResolved(w, id, vis, OwnNamesAlong(w, Ancestors(w, id)))
  }

  /** `node.<vis>_instance_methods(inherit)`. */
  function InstanceMethods(w: World, id: NodeId, vis: Visibility, inherit: bool): (r: seq<Name>)
    ensures !inherit ==> r == OwnNames(w, id, vis)
    ensures inherit ==> forall n :: n in r <==> Resolve(w, id, n) == Some(vis)
  {
    if inherit then InheritedNames(w, id, vis) else OwnNames(w, id, vis)
  }

  /** `node.ancestors[1] .. ` is that ancestor's own `ancestors`: the linearisation is consistent one step up. */
  ghost predicate SupersConsistent(w: World, id: NodeId) {
    |Info(w, id).supers| > 0 ==> Ancestors(w, Info(w, id).supers[0]) == Info(w, id).supers
  }

  /** A name found from a suffix of a path is found from the whole path, at a node no later. */
  lemma {:induction false} OwnerOfSuffix(w: World, path: seq<NodeId>, k: nat, n: Name)
    requires k <= |path|
    requires Owner(w, path[k..], n).Some?
    ensures Owner(w, path, n).Some?
  {
    var o := Owner(w, path[k..], n).value;
    var i :| 0 <= i < |path[k..]| && path[k..][i] == o && DefinesOwn(w, o, n);
    assert path[k + i] == o;
  }
}
