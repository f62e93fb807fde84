/**
 * ObjectShadow::MethodIntrospection: the lookup chain of a receiver under
 * the truncation policies, the sorted method-name catalog built on it,
 * and the existence, visibility and reference lookups over the anchor
 * nodes `[singleton?, klass?]`.
 */
module MethodIntrospection {
  import opened RubyCore
  import opened ObjectModel

  /** The `target:` keyword; UnknownTarget stands for every other value. */
  datatype Target = SelfTarget | ClassTarget | InstancesTarget | UnknownTarget

  /** The `scope:` keyword of `methods`. */
  datatype Scope = PublicScope | ProtectedScope | PrivateScope | AllScopes | UnknownScope

  /**
   * The `inherit:` keyword: `:singleton`; `:self` or `false`;
   * `:exclude_class`; `:exclude_object`; a Module as boundary; `:all` or
   * `true`; and Unmatched for any value the `case` does not match.
   */
  datatype Inherit = SingletonOnly | SelfOnly | ExcludeClass | ExcludeObject | UpTo(boundary: NodeId) | AllAncestors | Unmatched

  datatype Error =
    | UnknownTargetError     // ArgumentError: target must be one of [:self, :class, :instances]
    | InstancesOfNonModule   // ArgumentError: :instances only for classes and modules
    | SingletonOfInstances   // ArgumentError: :singleton inheritance with target :instances
    | UnknownScopeError      // ArgumentError: scope must be one of [:public, :protected, :private, :all]
    | NoChain                // NoMethodError: `flat_map` on the nil an unmatched `inherit:` yields

  datatype Result<T> = Ok(value: T) | Err(error: Error)

  /** The three parts `get_singleton_klass_and_chain` returns. */
  datatype Parts = Parts(singleton: seq<NodeId>, klass: seq<NodeId>, chain: seq<NodeId>)

  // ---------------------------------------------------------------------
  // validate_arguments!
  // ---------------------------------------------------------------------

  /** `validate_arguments!`; `inherit` is None when the caller passes none (nil). */
  function ValidateArguments(o: Obj, target: Target, inherit: Option<Inherit>): (e: Option<Error>)
    ensures e.None? <==> target != UnknownTarget
                         && (target == InstancesTarget ==> IsModule(o) && inherit != Some(SingletonOnly))
    ensures e == Some(UnknownTargetError) <==> target == UnknownTarget
    ensures e == Some(InstancesOfNonModule) <==> target == InstancesTarget && !IsModule(o)
    ensures e == Some(SingletonOfInstances) <==> target == InstancesTarget && IsModule(o) && inherit == Some(SingletonOnly)
  {
    if target == UnknownTarget then Some(UnknownTargetError)
    else if target == InstancesTarget && !IsModule(o) then Some(InstancesOfNonModule)
    else if target == InstancesTarget && inherit == Some(SingletonOnly) then Some(SingletonOfInstances)
    else None
  }

  // ---------------------------------------------------------------------
  // get_singleton_klass_and_chain
  // ---------------------------------------------------------------------

  /** `target == :class ? object.class : object`. */
  function TargetObject(w: World, o: Obj, target: Target): Obj {
    if target == ClassTarget then ClassObject(w, o) else o
  }

  /**
   * `get_singleton_klass_and_chain`. For `:instances` the receiver's own
   * ancestors; otherwise its singleton class and what follows it; when the
   * singleton class cannot be had (TypeError), the ancestors of its class.
   */
  function GetSingletonKlassAndChain(w: World, o: Obj, target: Target): (p: Parts)
    requires target == InstancesTarget ==> IsModule(o)
    ensures |p.singleton| <= 1 && |p.klass| <= 1
    ensures p.klass <= p.chain
    ensures p.singleton == [] <==> target == InstancesTarget || TargetObject(w, o, target).singleton.None?
    ensures target == InstancesTarget ==>
              p.klass == [o.asModule.value] && p.chain == Ancestors(w, o.asModule.value)
    ensures (target != InstancesTarget && IsModule(TargetObject(w, o, target))
             && TargetObject(w, o, target).singleton.Some?) ==> p.klass == []
    ensures p.singleton != [] ==> p.chain == Ancestors(w, p.singleton[0])[1..]
  {
    var t := TargetObject(w, o, target);
    if target == InstancesTarget then
      var ancestors := Ancestors(w, t.asModule.value);
      Parts([], ancestors[..1], ancestors)
    else
      match t.singleton
      case None =>
        var ancestors := Ancestors(w, t.klass);
        Parts([], ancestors[..1], ancestors)
      case Some(s) =>
        var rest := Ancestors(w, s)[1..];
        if IsModule(t) then Parts([s], [], rest)
        else Parts([s], if rest == [] then [] else rest[..1], rest)
  }

  // ---------------------------------------------------------------------
  // lookup_chain_for, simple_lookup_chain_for, method_lookup_chain
  // ---------------------------------------------------------------------

  /** `chain.index(Class) || chain.index(Module) || chain.index(Object)`. */
  function ExcludeClassCut(w: World, chain: seq<NodeId>): Option<nat> {
    OrElse(Index(chain, w.classNode), OrElse(Index(chain, w.moduleNode), Index(chain, w.objectNode)))
  }

  /** The `case inherit` of `lookup_chain_for`; None is the nil of an unmatched value. */
  function Truncate(w: World, p: Parts, inherit: Inherit, optimize: bool): Option<seq<NodeId>> {
    match inherit
    case SingletonOnly => Some(p.singleton)
    case SelfOnly => Some(p.singleton + p.klass)
    case ExcludeClass => Some(p.singleton + TakeBefore(p.chain, ExcludeClassCut(w, p.chain)))
    case ExcludeObject => Some(p.singleton + TakeBefore(p.chain, Index(p.chain, w.objectNode)))
    case UpTo(b) => Some(p.singleton + TakeThrough(p.chain, Index(p.chain, b)))
    case AllAncestors => if optimize then Some(p.singleton + p.klass) else Some(p.singleton + p.chain)
    case Unmatched => None
  }

  /**
   * `lookup_chain_for(object, target, inherit, optimize)`: fails exactly
   * when the arguments are invalid, is nil exactly for an unmatched
   * `inherit:`, and otherwise starts with the singleton part and stays
   * within singleton + chain (or singleton + klass).
   */
  function LookupChainFor(w: World, o: Obj, target: Target, inherit: Inherit, optimize: bool)
    : (r: Result<Option<seq<NodeId>>>)
    ensures r.Err? <==> ValidateArguments(o, target, Some(inherit)).Some?
    ensures r.Err? ==> r.error == ValidateArguments(o, target, Some(inherit)).value
    ensures r.Ok? ==> (r.value.None? <==> inherit == Unmatched)
    ensures r.Ok? && r.value.Some? ==>
              var p := GetSingletonKlassAndChain(w, o, target);
              p.singleton <= r.value.value && r.value.value <= p.singleton + p.chain
  {
    match ValidateArguments(o, target, Some(inherit))
    case Some(e) => Err(e)
    case None =>
      var p := GetSingletonKlassAndChain(w, o, target);
      var c := Truncate(w, p, inherit, optimize);
      assert c.Some? ==> p.singleton <= c.value && c.value <= p.singleton + p.chain by {
        if c.Some? { TruncateWithinChain(w, p, inherit, optimize); }
      }
      Ok(c)
  }

  /** Once the arguments are valid, the chain is the truncation of the three parts. */
  lemma ChainIsTruncation(w: World, o: Obj, target: Target, inherit: Inherit, optimize: bool)
    requires ValidateArguments(o, target, Some(inherit)).None?
    ensures LookupChainFor(w, o, target, inherit, optimize)
            == Ok(Truncate(w, GetSingletonKlassAndChain(w, o, target), inherit, optimize))
  {
  }

  lemma TruncateWithinChain(w: World, p: Parts, inherit: Inherit, optimize: bool)
    requires p.klass <= p.chain
    requires Truncate(w, p, inherit, optimize).Some?
    ensures var c := Truncate(w, p, inherit, optimize).value;
            p.singleton <= c && c <= p.singleton + p.chain
  {
    var c := Truncate(w, p, inherit, optimize).value;
    var q := c[|p.singleton|..];
    if inherit == SingletonOnly {
      assert c == p.singleton + [];
    } else if inherit == SelfOnly || (inherit == AllAncestors && optimize) {
      assert c == p.singleton + p.klass;
    }
  }

  /** `method_lookup_chain(target:, inherit:)`: the chain without the optimisation `methods` uses. */
  function MethodLookupChain(w: World, o: Obj, target: Target, inherit: Inherit): (r: Result<Option<seq<NodeId>>>)
    ensures r.Err? <==> ValidateArguments(o, target, Some(inherit)).Some?
    ensures r.Ok? && inherit != Unmatched ==>
              var p := GetSingletonKlassAndChain(w, o, target);
              r.value.Some? && p.singleton <= r.value.value && r.value.value <= p.singleton + p.chain
    ensures r.Ok? && inherit == AllAncestors ==>
              r.value == Some(GetSingletonKlassAndChain(w, o, target).singleton + GetSingletonKlassAndChain(w, o, target).chain)
  {
    LookupChainFor(w, o, target, inherit, false)
  }

  /** `simple_lookup_chain_for`: the anchor nodes `[singleton?, klass?]`. */
  function SimpleLookupChainFor(w: World, o: Obj, target: Target): (r: Result<seq<NodeId>>)
    ensures r.Err? <==> ValidateArguments(o, target, None).Some?
    ensures r.Ok? ==> |r.value| <= 2
    ensures r.Ok? && target == InstancesTarget ==> r.value == [o.asModule.value]
  {
    match ValidateArguments(o, target, None)
    case Some(e) => Err(e)
    case None =>
      var p := GetSingletonKlassAndChain(w, o, target);
      Ok(p.singleton + p.klass)
  }

  // ---------------------------------------------------------------------
  // methods
  // ---------------------------------------------------------------------

  /** The names one node contributes to `methods` for a scope; None for an unknown scope. */
  function ScopeNames(w: World, id: NodeId, scope: Scope, inherit: bool): Option<seq<Name>> {
    match scope
    case PublicScope => Some(InstanceMethods(w, id, Public, inherit))
    case ProtectedScope => Some(InstanceMethods(w, id, Protected, inherit))
    case PrivateScope => Some(InstanceMethods(w, id, Private, inherit))
    case AllScopes =>
      // `instance_methods` (public and protected) + `private_instance_methods`
      Some(InstanceMethods(w, id, Public, inherit) + InstanceMethods(w, id, Protected, inherit)
           + InstanceMethods(w, id, Private, inherit))
    case UnknownScope => None
  }

  /** `x` is one of the names some node of `chain` contributes. */
  ghost predicate Contributed(w: World, chain: seq<NodeId>, scope: Scope, inherit: bool, x: Name) {
    exists i :: 0 <= i < |chain| && ScopeNames(w, chain[i], scope, inherit).Some?
                && x in ScopeNames(w, chain[i], scope, inherit).value
  }

  /** The first node's names, then those the rest of the chain contributes. */
  lemma ContributedCons(w: World, chain: seq<NodeId>, scope: Scope, inherit: bool, x: Name)
    requires chain != []
    ensures Contributed(w, chain, scope, inherit, x) <==>
              (ScopeNames(w, chain[0], scope, inherit).Some? && x in ScopeNames(w, chain[0], scope, inherit).value)
              || Contributed(w, chain[1..], scope, inherit, x)
  {
    if Contributed(w, chain, scope, inherit, x) {
      var i :| 0 <= i < |chain| && ScopeNames(w, chain[i], scope, inherit).Some?
               && x in ScopeNames(w, chain[i], scope, inherit).value;
      if i > 0 { assert chain[1..][i - 1] == chain[i]; }
    }
    if Contributed(w, chain[1..], scope, inherit, x) {
      var i :| 0 <= i < |chain[1..]| && ScopeNames(w, chain[1..][i], scope, inherit).Some?
               && x in ScopeNames(w, chain[1..][i], scope, inherit).value;
      assert chain[i + 1] == chain[1..][i];
    }
  }

  /** The `flat_map` of `methods`: the scope check raises at the first node, so never on an empty chain. */
  function FlatMapNames(w: World, chain: seq<NodeId>, scope: Scope, inherit: bool): (r: Result<seq<Name>>)
    ensures r.Err? <==> chain != [] && scope == UnknownScope
    ensures r.Err? ==> r.error == UnknownScopeError
    ensures r.Ok? ==> forall x :: x in r.value <==> Contributed(w, chain, scope, inherit, x)
  {
    if chain == [] then Ok([])
    else match ScopeNames(w, chain[0], scope, inherit)
      case None => Err(UnknownScopeError)
      case Some(names) =>
        var rest := FlatMapNames(w, chain[1..], scope, inherit);
        assert forall i :: 1 <= i < |chain| ==> chain[i] == chain[1..][i - 1];
        forall x ensures Contributed(w, chain, scope, inherit, x) <==>
                           x in names || Contributed(w, chain[1..], scope, inherit, x) {
          ContributedCons(w, chain, scope, inherit, x);
        }
        match rest
        case Err(e) => Err(e)
        case Ok(more) => Ok(names + more)
  }

  /**
   * `methods(target:, scope:, inherit:)`: a strictly sorted list (hence
   * free of duplicates) holding exactly the names the chain's nodes
   * contribute for the scope; with `inherit: :all` (or `true`) each of
   * the singleton and klass nodes contributes its inherited names.
   */
  function Methods(w: World, o: Obj, target: Target, scope: Scope, inherit: Inherit): (r: Result<seq<Name>>)
    ensures LookupChainFor(w, o, target, inherit, true).Err? ==>
              r == Err(LookupChainFor(w, o, target, inherit, true).error)
    ensures LookupChainFor(w, o, target, inherit, true) == Ok(None) ==> r == Err(NoChain)
    ensures LookupChainFor(w, o, target, inherit, true).Ok? && LookupChainFor(w, o, target, inherit, true).value.Some? ==>
              var chain := LookupChainFor(w, o, target, inherit, true).value.value;
              && (r.Err? <==> chain != [] && scope == UnknownScope)
              && (r.Ok? ==> StrictlySorted(r.value)
                            && forall x :: x in r.value <==> Contributed(w, chain, scope, inherit == AllAncestors, x))
  {
    match LookupChainFor(w, o, target, inherit, true)
    case Err(e) => Err(e)
    case Ok(None) => Err(NoChain)
    case Ok(Some(chain)) =>
      match FlatMapNames(w, chain, scope, inherit == AllAncestors)
      case Err(e) => Err(e)
      case Ok(names) => Ok(UniqSort(names))
  }

  /**
   * `methods` has exactly one possible answer: the strictly sorted list of
   * the names the chain contributes.
   */
  lemma MethodsListsExactly(w: World, o: Obj, target: Target, scope: Scope, inherit: Inherit,
                            chain: seq<NodeId>, expected: seq<Name>)
    requires LookupChainFor(w, o, target, inherit, true) == Ok(Some(chain))
    requires scope != UnknownScope
    requires StrictlySorted(expected)
    requires forall x :: x in expected <==> Contributed(w, chain, scope, inherit == AllAncestors, x)
    ensures Methods(w, o, target, scope, inherit) == Ok(expected)
  {
    var r := Methods(w, o, target, scope, inherit);
    assert r.Ok?;
    StrictlySortedUnique(r.value, expected);
  }

  /** A node contributes `x` for `:all` exactly when it does for one of the three visibilities. */
  lemma ContributedAllIsUnion(w: World, chain: seq<NodeId>, deep: bool, x: Name)
    ensures Contributed(w, chain, AllScopes, deep, x) <==>
              || Contributed(w, chain, PublicScope, deep, x)
              || Contributed(w, chain, ProtectedScope, deep, x)
              || Contributed(w, chain, PrivateScope, deep, x)
  {
    forall i | 0 <= i < |chain|
      ensures ScopeNames(w, chain[i], AllScopes, deep).Some? && x in ScopeNames(w, chain[i], AllScopes, deep).value
              <==> || (ScopeNames(w, chain[i], PublicScope, deep).Some? && x in ScopeNames(w, chain[i], PublicScope, deep).value)
                   || (ScopeNames(w, chain[i], ProtectedScope, deep).Some? && x in ScopeNames(w, chain[i], ProtectedScope, deep).value)
                   || (ScopeNames(w, chain[i], PrivateScope, deep).Some? && x in ScopeNames(w, chain[i], PrivateScope, deep).value)
    {
      NodeAllIsUnion(w, chain[i], deep, x);
    }
  }

  /** One node's `:all` names are its public, protected and private names together. */
  lemma NodeAllIsUnion(w: World, id: NodeId, deep: bool, x: Name)
    ensures ScopeNames(w, id, AllScopes, deep).Some? && ScopeNames(w, id, PublicScope, deep).Some?
            && ScopeNames(w, id, ProtectedScope, deep).Some? && ScopeNames(w, id, PrivateScope, deep).Some?
    ensures x in ScopeNames(w, id, AllScopes, deep).value <==>
              || x in ScopeNames(w, id, PublicScope, deep).value
              || x in ScopeNames(w, id, ProtectedScope, deep).value
              || x in ScopeNames(w, id, PrivateScope, deep).value
  {
  }

  /** Scope `:all` lists exactly the union of the public, protected and private lists. */
  lemma AllScopesIsUnion(w: World, o: Obj, target: Target, inherit: Inherit)
    requires Methods(w, o, target, AllScopes, inherit).Ok?
    ensures Methods(w, o, target, PublicScope, inherit).Ok?
    ensures Methods(w, o, target, ProtectedScope, inherit).Ok?
    ensures Methods(w, o, target, PrivateScope, inherit).Ok?
    ensures forall x :: x in Methods(w, o, target, AllScopes, inherit).value <==>
              || x in Methods(w, o, target, PublicScope, inherit).value
              || x in Methods(w, o, target, ProtectedScope, inherit).value
              || x in Methods(w, o, target, PrivateScope, inherit).value
  {
    var lc := LookupChainFor(w, o, target, inherit, true);
    assert lc.Ok? && lc.value.Some?;
    var chain := lc.value.value;
    var deep := inherit == AllAncestors;
    var all := Methods(w, o, target, AllScopes, inherit).value;
    var pub := Methods(w, o, target, PublicScope, inherit).value;
    var prot := Methods(w, o, target, ProtectedScope, inherit).value;
    var priv := Methods(w, o, target, PrivateScope, inherit).value;
    forall x ensures x in all <==> x in pub || x in prot || x in priv {
      ContributedAllIsUnion(w, chain, deep, x);
    }
  }

  // ---------------------------------------------------------------------
  // Truncation policies
  // ---------------------------------------------------------------------

  /** `:singleton` gives exactly the singleton part. */
  lemma SingletonPolicy(w: World, o: Obj, target: Target, optimize: bool)
    requires LookupChainFor(w, o, target, SingletonOnly, optimize).Ok?
    ensures LookupChainFor(w, o, target, SingletonOnly, optimize).value
            == Some(GetSingletonKlassAndChain(w, o, target).singleton)
    ensures target != InstancesTarget
  {
  }

  /** `:self` (or `false`) gives the singleton and at most the one node after it. */
  lemma SelfPolicy(w: World, o: Obj, target: Target, optimize: bool)
    requires LookupChainFor(w, o, target, SelfOnly, optimize).Ok?
    ensures var p := GetSingletonKlassAndChain(w, o, target);
            LookupChainFor(w, o, target, SelfOnly, optimize).value == Some(p.singleton + p.klass)
            && |p.singleton + p.klass| <= 2
  {
  }

  /**
   * `:exclude_object`: the singleton part, then the chain up to but not
   * including the first `Object`; the whole chain when `Object` is absent.
   */
  lemma {:induction false} ExcludeObjectPolicy(w: World, o: Obj, target: Target, optimize: bool)
    requires LookupChainFor(w, o, target, ExcludeObject, optimize).Ok?
    ensures var p := GetSingletonKlassAndChain(w, o, target);
            var c := LookupChainFor(w, o, target, ExcludeObject, optimize).value.value;
            exists q :: c == p.singleton + q && q <= p.chain && w.objectNode !in q
                        && (|q| < |p.chain| ==> p.chain[|q|] == w.objectNode)
  {
    var p := GetSingletonKlassAndChain(w, o, target);
    var q := TakeBefore(p.chain, Index(p.chain, w.objectNode));
    assert LookupChainFor(w, o, target, ExcludeObject, optimize).value.value == p.singleton + q;
  }

  /**
   * An explicit boundary module: the singleton part, then the chain up to
   * and including the first occurrence of the boundary; the whole chain
   * when the boundary is absent (the range `0..nil` is endless).
   */
  lemma {:induction false} BoundaryPolicy(w: World, o: Obj, target: Target, b: NodeId, optimize: bool)
    requires LookupChainFor(w, o, target, UpTo(b), optimize).Ok?
    ensures var p := GetSingletonKlassAndChain(w, o, target);
            var c := LookupChainFor(w, o, target, UpTo(b), optimize).value.value;
            exists q :: c == p.singleton + q && q <= p.chain
                        && (b !in p.chain ==> q == p.chain)
                        && (b in p.chain ==> q != [] && q[|q| - 1] == b && b !in q[..|q| - 1])
  {
    var p := GetSingletonKlassAndChain(w, o, target);
    ChainIsTruncation(w, o, target, UpTo(b), optimize);
    ThroughBoundary(p.chain, b);
    assert LookupChainFor(w, o, target, UpTo(b), optimize).value.value
           == p.singleton + TakeThrough(p.chain, Index(p.chain, b));
  }

  /** `chain[0..chain.index(b)]` ends at the first `b`, or is the whole chain without one. */
  lemma ThroughBoundary(chain: seq<NodeId>, b: NodeId)
    ensures var q := TakeThrough(chain, Index(chain, b));
            && q <= chain
            && (b !in chain ==> q == chain)
            && (b in chain ==> q != [] && q[|q| - 1] == b && b !in q[..|q| - 1])
  {
    var q := TakeThrough(chain, Index(chain, b));
    if b in chain {
      var k := Index(chain, b).value;
      assert q == chain[..k + 1];
      assert q[..|q| - 1] == chain[..k];
    }
  }

  /** The chain cut strictly before the first `x`, or whole when `x` is absent. */
  ghost predicate CutBefore(chain: seq<NodeId>, q: seq<NodeId>, x: NodeId) {
    q <= chain && x !in q && (|q| < |chain| ==> chain[|q|] == x)
  }

  lemma TakeBeforeIndex(chain: seq<NodeId>, x: NodeId)
    ensures CutBefore(chain, TakeBefore(chain, Index(chain, x)), x)
    ensures x !in chain ==> TakeBefore(chain, Index(chain, x)) == chain
  {
  }

  /**
   * `:exclude_class` cuts before `Class` when the chain has it, else before
   * `Module`, else before `Object`: in that priority order, not at
   * whichever comes first.
   */
  lemma {:induction false} ExcludeClassPolicy(w: World, o: Obj, target: Target, optimize: bool)
    requires LookupChainFor(w, o, target, ExcludeClass, optimize).Ok?
    ensures var p := GetSingletonKlassAndChain(w, o, target);
            var c := LookupChainFor(w, o, target, ExcludeClass, optimize).value.value;
            exists q :: c == p.singleton + q
                        && (w.classNode in p.chain ==> CutBefore(p.chain, q, w.classNode))
                        && (w.classNode !in p.chain && w.moduleNode in p.chain ==> CutBefore(p.chain, q, w.moduleNode))
                        && (w.classNode !in p.chain && w.moduleNode !in p.chain ==> CutBefore(p.chain, q, w.objectNode))
  {
    var p := GetSingletonKlassAndChain(w, o, target);
    var q := TakeBefore(p.chain, ExcludeClassCut(w, p.chain));
    assert LookupChainFor(w, o, target, ExcludeClass, optimize).value.value == p.singleton + q;
    if w.classNode in p.chain {
      TakeBeforeIndex(p.chain, w.classNode);
    } else if w.moduleNode in p.chain {
      TakeBeforeIndex(p.chain, w.moduleNode);
    } else {
      TakeBeforeIndex(p.chain, w.objectNode);
    }
  }

  /**
   * Where the chain holds neither `Class` nor `Module` (the usual case for a
   * receiver that is not a module), `:exclude_class` is `:exclude_object`.
   */
  lemma ExcludeClassFallsBackToExcludeObject(w: World, o: Obj, target: Target, optimize: bool)
    requires LookupChainFor(w, o, target, ExcludeClass, optimize).Ok?
    requires var chain := GetSingletonKlassAndChain(w, o, target).chain;
             w.classNode !in chain && w.moduleNode !in chain
    ensures LookupChainFor(w, o, target, ExcludeClass, optimize)
            == LookupChainFor(w, o, target, ExcludeObject, optimize)
  {
    var chain := GetSingletonKlassAndChain(w, o, target).chain;
    assert Index(chain, w.classNode).None? && Index(chain, w.moduleNode).None?;
  }

  /** Two cuts of the same chain: the one at the earlier position is a prefix of the other. */
  lemma CutBeforeOrdered(chain: seq<NodeId>, q1: seq<NodeId>, x1: NodeId, q2: seq<NodeId>, x2: NodeId)
    requires CutBefore(chain, q1, x1) && CutBefore(chain, q2, x2)
    requires x1 in chain
    requires forall i :: 0 <= i < |chain| && chain[i] == x1 ==> x2 !in chain[..i]
    ensures q1 <= q2
  {
  }

  /**
   * `:exclude_class` is a prefix of `:exclude_object`, which is a prefix of
   * `:all`, whenever `Class` and `Module` never follow an `Object` in the
   * chain (as in Ruby's own hierarchy, where Class < Module < Object).
   */
  lemma TruncationsNest(w: World, o: Obj, target: Target)
    requires LookupChainFor(w, o, target, ExcludeClass, false).Ok?
    requires var chain := GetSingletonKlassAndChain(w, o, target).chain;
             forall i :: 0 <= i < |chain| && (chain[i] == w.classNode || chain[i] == w.moduleNode)
                         ==> w.objectNode !in chain[..i]
    ensures LookupChainFor(w, o, target, ExcludeClass, false).value.value
            <= LookupChainFor(w, o, target, ExcludeObject, false).value.value
    ensures LookupChainFor(w, o, target, ExcludeObject, false).value.value
            <= LookupChainFor(w, o, target, AllAncestors, false).value.value
  {
    var p := GetSingletonKlassAndChain(w, o, target);
    ChainIsTruncation(w, o, target, ExcludeClass, false);
    ChainIsTruncation(w, o, target, ExcludeObject, false);
    ChainIsTruncation(w, o, target, AllAncestors, false);
    TruncateNest(w, p);
  }

  lemma TruncateNest(w: World, p: Parts)
    requires forall i :: 0 <= i < |p.chain| && (p.chain[i] == w.classNode || p.chain[i] == w.moduleNode)
                         ==> w.objectNode !in p.chain[..i]
    ensures Truncate(w, p, ExcludeClass, false).value <= Truncate(w, p, ExcludeObject, false).value
    ensures Truncate(w, p, ExcludeObject, false).value <= Truncate(w, p, AllAncestors, false).value
  {
    var qc := TakeBefore(p.chain, ExcludeClassCut(w, p.chain));
    var qo := TakeBefore(p.chain, Index(p.chain, w.objectNode));
    CutsNest(w, p.chain);
    PrefixAfter(p.singleton, qc, qo);
    PrefixAfter(p.singleton, qo, p.chain);
  }

  /** The `:exclude_class` cut is a prefix of the `:exclude_object` one when no Class or Module follows an Object. */
  lemma CutsNest(w: World, chain: seq<NodeId>)
    requires forall i :: 0 <= i < |chain| && (chain[i] == w.classNode || chain[i] == w.moduleNode)
                         ==> w.objectNode !in chain[..i]
    ensures TakeBefore(chain, ExcludeClassCut(w, chain)) <= TakeBefore(chain, Index(chain, w.objectNode))
  {
    var qc := TakeBefore(chain, ExcludeClassCut(w, chain));
    var qo := TakeBefore(chain, Index(chain, w.objectNode));
    TakeBeforeIndex(chain, w.objectNode);
    if w.classNode in chain {
      assert ExcludeClassCut(w, chain) == Index(chain, w.classNode);
      TakeBeforeIndex(chain, w.classNode);
      CutBeforeOrdered(chain, qc, w.classNode, qo, w.objectNode);
    } else if w.moduleNode in chain {
      assert ExcludeClassCut(w, chain) == Index(chain, w.moduleNode);
      TakeBeforeIndex(chain, w.moduleNode);
      CutBeforeOrdered(chain, qc, w.moduleNode, qo, w.objectNode);
    } else {
      assert ExcludeClassCut(w, chain) == Index(chain, w.objectNode);
    }
  }

  /** Putting the same front on two sequences keeps one a prefix of the other. */
  lemma PrefixAfter(s: seq<NodeId>, a: seq<NodeId>, b: seq<NodeId>)
    requires a <= b
    ensures s + a <= s + b
  {
    assert (s + b)[..|s + a|] == s + a;
  }

  /**
   * For `:instances` there is no singleton part and klass is the module
   * itself; for a module under `:self`/`:class` klass is empty and the chain
   * is the singleton's ancestors without the singleton; without a singleton
   * class the receiver's class and its ancestors are used.
   */
  lemma PartsByReceiver(w: World, o: Obj, target: Target)
    requires ValidateArguments(o, target, None).None?
    ensures var p := GetSingletonKlassAndChain(w, o, target);
            var t := TargetObject(w, o, target);
            && (target == InstancesTarget ==>
                  p.singleton == [] && p.klass == [o.asModule.value] && p.chain == Ancestors(w, o.asModule.value))
            && (target != InstancesTarget && t.singleton.Some? && IsModule(t) ==>
                  p.singleton == [t.singleton.value] && p.klass == []
                  && p.chain == Info(w, t.singleton.value).supers)
            && (target != InstancesTarget && t.singleton.Some? && !IsModule(t) ==>
                  p.singleton == [t.singleton.value] && p.klass == Info(w, t.singleton.value).supers[..if p.chain == [] then 0 else 1])
            && (target != InstancesTarget && t.singleton.None? ==>
                  p.singleton == [] && p.klass == [t.klass] && p.chain == Ancestors(w, t.klass))
  {
  }

  // ---------------------------------------------------------------------
  // method? and method_scope
  // ---------------------------------------------------------------------

  /** The per-anchor test of `method?`: `method_defined?(n, true) || private_method_defined?(n, true)`. */
  predicate DefinedAt(w: World, id: NodeId, n: Name) {
    Resolve(w, id, n) == Some(Public) || Resolve(w, id, n) == Some(Protected)
    || Resolve(w, id, n) == Some(Private)
  }

  /** `anchors.any? { ... }`. */
  function AnyDefined(w: World, anchors: seq<NodeId>, n: Name): (r: bool)
    ensures r <==> exists i :: 0 <= i < |anchors| && Resolve(w, anchors[i], n).Some?
  {
    if anchors == [] then false
    else if DefinedAt(w, anchors[0], n) then true
    else
      var r := AnyDefined(w, anchors[1..], n);
      assert forall i :: 1 <= i < |anchors| ==> anchors[i] == anchors[1..][i - 1];
      r
  }

  /** The per-anchor `case` of `method_scope`: public, then protected, then private. */
  function ScopeAt(w: World, id: NodeId, n: Name): (r: Option<Visibility>)
    ensures r == Resolve(w, id, n)
  {
    if Resolve(w, id, n) == Some(Public) then Some(Public)
    else if Resolve(w, id, n) == Some(Protected) then Some(Protected)
    else if Resolve(w, id, n) == Some(Private) then Some(Private)
    else None
  }

  /** `anchors.map { ... }`. */
  function ScopesAt(w: World, anchors: seq<NodeId>, n: Name): (r: seq<Option<Visibility>>)
    ensures |r| == |anchors| && forall i :: 0 <= i < |r| ==> r[i] == ScopeAt(w, anchors[i], n)
  {
    if anchors == [] then [] else [ScopeAt(w, anchors[0], n)] + ScopesAt(w, anchors[1..], n)
  }

  /** `.compact.first`. */
  function CompactFirst(xs: seq<Option<Visibility>>): (r: Option<Visibility>)
    ensures r.None? <==> forall i :: 0 <= i < |xs| ==> xs[i].None?
    ensures r.Some? ==> exists i :: 0 <= i < |xs| && xs[i] == r && forall j :: 0 <= j < i ==> xs[j].None?
  {
    if xs == [] then None
    else if xs[0].Some? then xs[0]
    else
      var r := CompactFirst(xs[1..]);
      assert forall i :: 1 <= i < |xs| ==> xs[i] == xs[1..][i - 1];
      r
  }

  /** `method?(name, target:)`. */
  function IsMethodDefined(w: World, o: Obj, n: Name, target: Target): (r: Result<bool>)
    ensures r.Err? <==> ValidateArguments(o, target, None).Some?
    ensures r.Ok? ==> (r.value <==> exists i :: 0 <= i < |SimpleLookupChainFor(w, o, target).value|
                                               && Resolve(w, SimpleLookupChainFor(w, o, target).value[i], n).Some?)
  {
    match SimpleLookupChainFor(w, o, target)
    case Err(e) => Err(e)
    case Ok(anchors) => Ok(AnyDefined(w, anchors, n))
  }

  /**
   * `method_scope(name, target:)`: the visibility at the first anchor
   * (singleton before klass) that resolves the name, or nil.
   */
  function MethodScope(w: World, o: Obj, n: Name, target: Target): (r: Result<Option<Visibility>>)
    ensures r.Err? <==> ValidateArguments(o, target, None).Some?
    ensures r.Ok? ==>
              var anchors := SimpleLookupChainFor(w, o, target).value;
              && (r.value.None? <==> forall i :: 0 <= i < |anchors| ==> Resolve(w, anchors[i], n).None?)
              && (r.value.Some? ==> exists i :: 0 <= i < |anchors| && Resolve(w, anchors[i], n) == r.value
                                                && forall j :: 0 <= j < i ==> Resolve(w, anchors[j], n).None?)
  {
    match SimpleLookupChainFor(w, o, target)
    case Err(e) => Err(e)
    case Ok(anchors) => FirstResolving(w, anchors, n); Ok(CompactFirst(ScopesAt(w, anchors, n)))
  }

  /** The first scope along the anchors is where the first anchor that resolves the name resolves it. */
  lemma FirstResolving(w: World, anchors: seq<NodeId>, n: Name)
    ensures var r := CompactFirst(ScopesAt(w, anchors, n));
            && (r.None? <==> forall i :: 0 <= i < |anchors| ==> Resolve(w, anchors[i], n).None?)
            && (r.Some? ==> exists i :: 0 <= i < |anchors| && Resolve(w, anchors[i], n) == r
                                        && forall j :: 0 <= j < i ==> Resolve(w, anchors[j], n).None?)
  {
    var xs := ScopesAt(w, anchors, n);
    if CompactFirst(xs).Some? {
      var i :| 0 <= i < |xs| && xs[i] == CompactFirst(xs) && forall j :: 0 <= j < i ==> xs[j].None?;
      assert Resolve(w, anchors[i], n) == CompactFirst(xs);
    }
  }

  /** `method?` is true exactly when `method_scope` is not nil, and both fail alike. */
  lemma {:induction false} MethodDefinedIffScope(w: World, o: Obj, n: Name, target: Target)
    ensures IsMethodDefined(w, o, n, target).Err? <==> MethodScope(w, o, n, target).Err?
    ensures IsMethodDefined(w, o, n, target).Ok? ==>
              (IsMethodDefined(w, o, n, target).value <==> MethodScope(w, o, n, target).value.Some?)
  {
    if IsMethodDefined(w, o, n, target).Ok? {
      var anchors := SimpleLookupChainFor(w, o, target).value;
      if MethodScope(w, o, n, target).value.None? {
        assert forall i :: 0 <= i < |anchors| ==> Resolve(w, anchors[i], n).None?;
      }
    }
  }

  // ---------------------------------------------------------------------
  // method (get_method and the all: path)
  // ---------------------------------------------------------------------

  /** Where `receiver.method(n)` starts looking: its singleton class, else its class. */
  function ReceiverPath(w: World, t: Obj): seq<NodeId> {
    match t.singleton
    case Some(s) => Ancestors(w, s)
    case None => Ancestors(w, t.klass)
  }

  /** The nodes `get_method` searches, in order, for a target that does not raise. */
  function LookupPath(w: World, o: Obj, target: Target): seq<NodeId>
    requires target != UnknownTarget && (target == InstancesTarget ==> IsModule(o))
  {
    match target
    case SelfTarget => ReceiverPath(w, o)
    case ClassTarget => ReceiverPath(w, ClassObject(w, o))
    case InstancesTarget => Ancestors(w, o.asModule.value)
  }

  /**
   * `get_method`: a Method bound to the receiver for `:self` and `:class`,
   * an UnboundMethod for `:instances` or with `unbind: true`; nil when the
   * name is not found (the NameError, and the NoMethodError of
   * `instance_method` on a non-module, are rescued). Only an unknown target
   * raises. What is found is the first node of the lookup path that
   * defines the name itself.
   */
  function GetMethod(w: World, o: Obj, target: Target, n: Name, unbind: bool): (r: Result<Option<MethodRef>>)
    ensures r.Err? <==> target == UnknownTarget
    ensures target == InstancesTarget && !IsModule(o) ==> r == Ok(None)
    ensures r.Ok? && r.value.Some? ==>
              r.value.value.name == n && DefinesOwn(w, r.value.value.owner, n)
              && (r.value.value.bound <==> target != InstancesTarget && !unbind)
    ensures r.Ok? && (target == InstancesTarget ==> IsModule(o)) ==>
              var path := LookupPath(w, o, target);
              && (r.value.None? <==> forall i :: 0 <= i < |path| ==> !DefinesOwn(w, path[i], n))
              && (r.value.Some? ==> exists i :: 0 <= i < |path| && path[i] == r.value.value.owner
                                                && forall j :: 0 <= j < i ==> !DefinesOwn(w, path[j], n))
  {
    match target
    case SelfTarget => Ok(Found(Owner(w, LookupPath(w, o, target), n), n, !unbind))
    case ClassTarget => Ok(Found(Owner(w, LookupPath(w, o, target), n), n, !unbind))
    case InstancesTarget =>
      if o.asModule.None? then Ok(None)
      else Ok(Found(Owner(w, LookupPath(w, o, target), n), n, false))
    case UnknownTarget => Err(UnknownTargetError)
  }

  /** The reference to the method found at `owner`, if any. */
  function Found(owner: Option<NodeId>, n: Name, bound: bool): (r: Option<MethodRef>)
    ensures r.None? <==> owner.None?
    ensures r.Some? ==> r.value == MethodRef(owner.value, n, bound)
  {
    match owner
    case None => None
    case Some(x) => Some(MethodRef(x, n, bound))
  }

  /** The `map { ... }.compact` of `method(all: true)`: one UnboundMethod per node defining the name itself. */
  function OwnOccurrences(w: World, chain: seq<NodeId>, n: Name): (r: seq<MethodRef>)
    ensures |r| <= |chain|
    ensures forall i :: 0 <= i < |r| ==> r[i].name == n && !r[i].bound && r[i].owner in chain
                                         && DefinesOwn(w, r[i].owner, n)
    ensures forall i :: 0 <= i < |chain| && DefinesOwn(w, chain[i], n) ==> MethodRef(chain[i], n, false) in r
  {
    if chain == [] then []
    else
      var rest := OwnOccurrences(w, chain[1..], n);
      assert forall i :: 1 <= i < |chain| ==> chain[i] == chain[1..][i - 1];
      if DefinesOwn(w, chain[0], n) then [MethodRef(chain[0], n, false)] + rest else rest
  }

  /** No occurrence at all exactly when no node of the chain defines the name itself. */
  lemma {:induction false} OwnOccurrencesEmpty(w: World, chain: seq<NodeId>, n: Name)
    ensures OwnOccurrences(w, chain, n) == [] <==> forall i :: 0 <= i < |chain| ==> !DefinesOwn(w, chain[i], n)
  {
    if chain != [] {
      OwnOccurrencesEmpty(w, chain[1..], n);
      assert forall i :: 1 <= i < |chain| ==> chain[i] == chain[1..][i - 1];
    }
  }

  /**
   * The occurrences come in chain order, nearest first: those of the nodes
   * before position `k` precede those of the nodes from `k` on.
   */
  lemma {:induction false} OwnOccurrencesInChainOrder(w: World, chain: seq<NodeId>, k: nat, n: Name)
    requires k <= |chain|
    ensures OwnOccurrences(w, chain, n) == OwnOccurrences(w, chain[..k], n) + OwnOccurrences(w, chain[k..], n)
  {
    if k > 0 {
      var tail := chain[1..];
      OwnOccurrencesInChainOrder(w, tail, k - 1, n);
      assert chain[..k][0] == chain[0];
      assert chain[..k][1..] == tail[..k - 1];
      assert tail[k - 1..] == chain[k..];
    } else {
      assert chain[..0] == [] && chain[0..] == chain;
    }
  }

  /**
   * `method(name, target:, all: true)`: over the full `:all` chain, one
   * UnboundMethod per node whose own tables hold the name; empty when none
   * does.
   */
  function MethodAll(w: World, o: Obj, n: Name, target: Target): (r: Result<seq<MethodRef>>)
    ensures r.Err? <==> ValidateArguments(o, target, Some(AllAncestors)).Some?
    ensures r.Ok? ==>
              var chain := MethodLookupChain(w, o, target, AllAncestors).value.value;
              && (forall i :: 0 <= i < |r.value| ==>
                    r.value[i].name == n && !r.value[i].bound && r.value[i].owner in chain
                    && DefinesOwn(w, r.value[i].owner, n))
              && (forall i :: 0 <= i < |chain| && DefinesOwn(w, chain[i], n) ==> MethodRef(chain[i], n, false) in r.value)
              && (r.value == [] <==> forall i :: 0 <= i < |chain| ==> !DefinesOwn(w, chain[i], n))
  {
    match LookupChainFor(w, o, target, AllAncestors, false)
    case Err(e) => Err(e)
    case Ok(c) =>
      var chain := c.value;
      var r := OwnOccurrences(w, chain, n);
      assert MethodLookupChain(w, o, target, AllAncestors) == Ok(c);
      assert r != [] ==> exists i :: 0 <= i < |chain| && DefinesOwn(w, chain[i], n) by {
        if r != [] {
          var k :| 0 <= k < |chain| && chain[k] == r[0].owner;
        }
      }
      Ok(r)
  }

  /** What `method` answers: one reference (or nil), or every occurrence. */
  datatype MethodAnswer = OneMethod(found: Option<MethodRef>) | EveryOccurrence(refs: seq<MethodRef>)

  /** `method(name, target:, unbind:, all:)`. */
  function Method(w: World, o: Obj, n: Name, target: Target, unbind: bool, all: bool): (r: Result<MethodAnswer>)
    ensures all ==> (r.Err? <==> ValidateArguments(o, target, Some(AllAncestors)).Some?)
    ensures all && r.Ok? ==> r.value.EveryOccurrence? && forall m <- r.value.refs :: !m.bound && m.name == n
    ensures !all ==> (r.Err? <==> target == UnknownTarget)
    ensures !all && r.Ok? ==>
              r.value.OneMethod?
              && (r.value.found.Some? ==> (r.value.found.value.bound <==> target != InstancesTarget && !unbind))
  {
    if all then
      match MethodAll(w, o, n, target)
      case Err(e) => Err(e)
      case Ok(refs) => Ok(EveryOccurrence(refs))
    else
      match GetMethod(w, o, target, n, unbind)
      case Err(e) => Err(e)
      case Ok(found) => Ok(OneMethod(found))
  }

  /** The first anchor is where `get_method` starts: its ancestors are the lookup path. */
  lemma FirstAnchorStartsLookupPath(w: World, o: Obj, target: Target)
    requires ValidateArguments(o, target, None).None?
    ensures var anchors := SimpleLookupChainFor(w, o, target).value;
            anchors != [] && Ancestors(w, anchors[0]) == LookupPath(w, o, target)
  {
    var p := GetSingletonKlassAndChain(w, o, target);
    assert SimpleLookupChainFor(w, o, target).value == p.singleton + p.klass;
    PartsByReceiver(w, o, target);
  }

  /** The second anchor, when there is one, looks up the rest of the path. */
  lemma SecondAnchorContinuesLookupPath(w: World, o: Obj, target: Target)
    requires ValidateArguments(o, target, None).None?
    requires forall s :: TargetObject(w, o, target).singleton == Some(s) ==> SupersConsistent(w, s)
    requires |SimpleLookupChainFor(w, o, target).value| == 2
    ensures var anchors := SimpleLookupChainFor(w, o, target).value;
            var path := LookupPath(w, o, target);
            |path| >= 2 && Ancestors(w, anchors[1]) == path[1..]
  {
    var p := GetSingletonKlassAndChain(w, o, target);
    var t := TargetObject(w, o, target);
    assert SimpleLookupChainFor(w, o, target).value == p.singleton + p.klass;
    PartsByReceiver(w, o, target);
    assert target != InstancesTarget && t.singleton.Some? && !IsModule(t);
    var s := t.singleton.value;
    assert LookupPath(w, o, target) == Ancestors(w, s);
    assert SupersConsistent(w, s);
  }

  /**
   * Where the ancestry is linearised consistently (the node after the
   * singleton class has the singleton's remaining ancestors as its own),
   * `method?` is true exactly when `method` finds the method, and
   * `method_scope` is the visibility of the definition `method` finds.
   */
  lemma AnchorsAgreeWithReceiverLookup(w: World, o: Obj, n: Name, target: Target)
    requires ValidateArguments(o, target, None).None?
    requires forall s :: TargetObject(w, o, target).singleton == Some(s) ==> SupersConsistent(w, s)
    ensures IsMethodDefined(w, o, n, target) == Ok(GetMethod(w, o, target, n, false).value.Some?)
    ensures MethodScope(w, o, n, target) ==
            Ok(match GetMethod(w, o, target, n, false).value
               case None => None
               case Some(m) => Some(OwnVisibility(w, m.owner, n)))
  {
    var anchors := SimpleLookupChainFor(w, o, target).value;
    var path := LookupPath(w, o, target);
    var found := Owner(w, path, n);
    GetMethodFindsFirstOwner(w, o, target, n);
    FirstAnchorStartsLookupPath(w, o, target);
    AnchorsResolveLikeFirst(w, o, n, target);
    assert IsMethodDefined(w, o, n, target) == Ok(AnyDefined(w, anchors, n));
    assert MethodScope(w, o, n, target) == Ok(CompactFirst(ScopesAt(w, anchors, n)));
    assert Resolve(w, anchors[0], n) == (match found case None => None case Some(x) => Some(OwnVisibility(w, x, n)));
  }

  /** With `unbind: false`, `get_method` answers the first owner along the lookup path, unbound only for `:instances`. */
  lemma GetMethodFindsFirstOwner(w: World, o: Obj, target: Target, n: Name)
    requires ValidateArguments(o, target, None).None?
    ensures GetMethod(w, o, target, n, false)
            == Ok(Found(Owner(w, LookupPath(w, o, target), n), n, target != InstancesTarget))
  {
    if target == InstancesTarget { assert o.asModule.Some?; }
  }

  /** Over the anchors, `any?` and `compact.first` answer what the first anchor alone answers. */
  lemma AnchorsResolveLikeFirst(w: World, o: Obj, n: Name, target: Target)
    requires ValidateArguments(o, target, None).None?
    requires forall s :: TargetObject(w, o, target).singleton == Some(s) ==> SupersConsistent(w, s)
    ensures var anchors := SimpleLookupChainFor(w, o, target).value;
            && anchors != []
            && AnyDefined(w, anchors, n) == Resolve(w, anchors[0], n).Some?
            && CompactFirst(ScopesAt(w, anchors, n)) == Resolve(w, anchors[0], n)
  {
    var anchors := SimpleLookupChainFor(w, o, target).value;
    var path := LookupPath(w, o, target);
    FirstAnchorStartsLookupPath(w, o, target);
    if |anchors| == 2 {
      SecondAnchorContinuesLookupPath(w, o, target);
      if Resolve(w, anchors[1], n).Some? {
        OwnerOfSuffix(w, path, 1, n);
      }
    }
    var scopes := ScopesAt(w, anchors, n);
    if Resolve(w, anchors[0], n).None? && |anchors| == 2 {
      assert scopes[0].None? && scopes[1].None?;
    }
  }
}
