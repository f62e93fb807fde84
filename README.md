# object_shadow in Dafny

A model of the core of the Ruby gem `object_shadow`. The gem adds
`Object#shadow`, an introspection helper.

- `methods` lists an object's methods for a target, a visibility scope
  and an inheritance policy.
- `method?`, `method_scope` and `method` ask about one method name.
- `method_lookup_chain` shows where Ruby looks for methods.
- `inspect` prints a summary with a greedy 100-column word wrap.
- `[]`, `[]=`, `remove`, `variable?`, `variables`, `to_h` and `to_a`
  reach the object's instance variables.

Ruby's reflection is not executed; it is represented as data.

- A `World` lists, for every class, module and singleton class:
  - its `ancestors`;
  - its own public, protected and private instance methods;
  - its singleton class and its class.
- A receiver (`Obj`) says three things:
  - whether it is a Module;
  - what its class is;
  - what its singleton class is, or that it has none (the `TypeError` of
    `Integer#singleton_class`).
- Ruby's inheritance-aware queries are derived from the own tables:
  `*_method_defined?(n, true)`, `*_instance_methods(true)`,
  `instance_method` and `Object#method`. The nearest ancestor that
  defines a name decides.

Files:

- `ruby_core.dfy` (module `RubyCore`): the Ruby library behaviour the
  code relies on. It covers `||` on nils, `index`, the two range slices
  (a nil end is endless), `uniq`, `sort` on symbols and `join`.
- `object_model.dfy` (module `ObjectModel`): the reflection data and the
  lookup along ancestors.
- `method_introspection.dfy` (module `MethodIntrospection`):
  `lib/object_shadow/method_introspection.rb`.
- `introspection_scenario.dfy` (module `IntrospectionScenario`): the
  `astronomical_body` / `planet` / `earth` hierarchy of the gem's tests,
  and the answers the tests expect, proved for every world that reports
  that hierarchy.
- `info_inspect.dfy` (module `InfoInspect`):
  `lib/object_shadow/info_inspect.rb`. It holds `column100` as a loop
  proved against a fold, and the section, plural and chain-label rules
  of `inspect`.
- `instance_variables.dfy` (module `InstanceVariables`):
  `lib/object_shadow/instance_variables.rb`. It is a class holding the
  object's insertion-ordered variable table, with NameError outcomes for
  bad or missing names.

Where the documentation comment and the code disagree, the code is
followed. The comment at `method_introspection.rb:36` gives the default
`inherit:` as `:exclude_object`, but line 50 uses `:exclude_class`.
Likewise, the comment at line 33 says `scope: :all` means public only,
but lines 61-63 list public, protected and private.

## Model

| member | source | states |
|---|---|---|
| RubyCore.OrElse | lib/object_shadow/method_introspection.rb:163 | `a \|\| b` on possibly-nil positions is nil exactly when both are, and otherwise the first non-nil one |
| RubyCore.Index | lib/object_shadow/method_introspection.rb:163-167 | `index` is nil exactly when the element is absent, and otherwise the first position holding it |
| RubyCore.TakeBefore | lib/object_shadow/method_introspection.rb:163-165 | `chain[0...k]` is a prefix of length min(k, size); a nil `k` gives the whole chain |
| RubyCore.TakeThrough | lib/object_shadow/method_introspection.rb:167 | `chain[0..k]` is a prefix of length min(k+1, size); a nil `k` gives the whole chain |
| RubyCore.Uniq | lib/object_shadow/method_introspection.rb:68 | `uniq` keeps exactly the same elements and leaves no duplicates |
| RubyCore.Sort | lib/object_shadow/method_introspection.rb:68 | `sort` is a permutation of its input |
| RubyCore.SortSorted | lib/object_shadow/method_introspection.rb:68 | `sort` returns a list in symbol order |
| RubyCore.UniqSort | lib/object_shadow/method_introspection.rb:68 | `.uniq.sort` is strictly sorted and has exactly the input's elements |
| RubyCore.StrictlySortedUnique | lib/object_shadow/method_introspection.rb:68 | two strictly sorted lists with the same elements are equal, so `.uniq.sort` has one possible answer |
| RubyCore.JoinAppend | lib/object_shadow/info_inspect.rb:11 | joining one more part adds exactly one separator and that part at the end |
| RubyCore.LinesOfJoin | lib/object_shadow/info_inspect.rb:64-66 | splitting a `"\n"`-join of lines without line feeds gives those lines back |
| ObjectModel.Ancestors | lib/object_shadow/method_introspection.rb:219-229 | `ancestors` starts with the node itself |
| ObjectModel.ClassObject | lib/object_shadow/method_introspection.rb:214 | `object.class` is a module receiver and has a singleton class |
| ObjectModel.Owner | lib/object_shadow/method_introspection.rb:184-199 | the first node along a path that defines the name itself; none exactly when no node of the path does |
| ObjectModel.OwnerIsFirstDefiner | lib/object_shadow/method_introspection.rb:184-199 | the owner is the node at the first position that defines the name |
| ObjectModel.Resolve | lib/object_shadow/method_introspection.rb:79-80 | the name has a visibility from a node exactly when some ancestor defines it |
| ObjectModel.OwnNamesAlong | lib/object_shadow/method_introspection.rb:56-63 | holds exactly the names some node of the path defines itself |
| ObjectModel.KeepResolved | lib/object_shadow/method_introspection.rb:56-63 | keeps exactly the given names that resolve with the requested visibility |
| ObjectModel.InheritedNames | lib/object_shadow/method_introspection.rb:56-60 | `*_instance_methods(true)` holds exactly the names resolving with that visibility |
| ObjectModel.InstanceMethods | lib/object_shadow/method_introspection.rb:56-63 | with `false`, the node's own table; with `true`, exactly the names resolving with that visibility |
| ObjectModel.OwnerOfSuffix | lib/object_shadow/method_introspection.rb:177-182 | a name found from a suffix of a path is found from the whole path |
| MethodIntrospection.ValidateArguments | lib/object_shadow/method_introspection.rb:241-255 | raises exactly for an unknown target, for `:instances` on a non-module, and for `:singleton` with `:instances`, with the matching error in each case |
| MethodIntrospection.GetSingletonKlassAndChain | lib/object_shadow/method_introspection.rb:213-239 | singleton and klass have at most one node; klass is a prefix of chain; singleton is empty exactly for `:instances` or without a singleton class; for `:instances` klass is the module and chain its ancestors; klass is empty for a module; chain follows the singleton class |
| MethodIntrospection.LookupChainFor | lib/object_shadow/method_introspection.rb:153-175 | fails exactly on invalid arguments, with that error; is nil exactly for an unmatched `inherit:`; otherwise starts with the singleton part and stays within singleton + chain |
| MethodIntrospection.ChainIsTruncation | lib/object_shadow/method_introspection.rb:153-175 | once the arguments are valid, the chain is the `case inherit` truncation of the three parts |
| MethodIntrospection.TruncateWithinChain | lib/object_shadow/method_introspection.rb:157-174 | every truncation starts with the singleton part and is a prefix of singleton + chain |
| MethodIntrospection.MethodLookupChain | lib/object_shadow/method_introspection.rb:148-150 | fails exactly on invalid arguments; `:all` gives singleton + the whole chain, not the optimised one |
| MethodIntrospection.SimpleLookupChainFor | lib/object_shadow/method_introspection.rb:177-182 | fails exactly on invalid arguments (without `inherit:`); has at most two anchors; for `:instances` it is the module alone |
| MethodIntrospection.ContributedCons | lib/object_shadow/method_introspection.rb:51-68 | a name comes from a chain exactly when the first node gives it or the rest of the chain does |
| MethodIntrospection.FlatMapNames | lib/object_shadow/method_introspection.rb:51-67 | fails with the scope error exactly when the scope is unknown and the chain is not empty; otherwise holds exactly the names the chain's nodes contribute |
| MethodIntrospection.Methods | lib/object_shadow/method_introspection.rb:50-69 | passes on the chain's errors; raises for a nil chain; raises for an unknown scope only on a non-empty chain; otherwise a strictly sorted list of exactly the contributed names |
| MethodIntrospection.MethodsListsExactly | lib/object_shadow/method_introspection.rb:50-69 | the only answer `methods` can give is the strictly sorted list of the contributed names |
| MethodIntrospection.ContributedAllIsUnion | lib/object_shadow/method_introspection.rb:61-63 | a node contributes a name for `:all` exactly when it does for public, protected or private |
| MethodIntrospection.AllScopesIsUnion | lib/object_shadow/method_introspection.rb:54-63 | `scope: :all` lists exactly the union of the public, protected and private lists |
| MethodIntrospection.SingletonPolicy | lib/object_shadow/method_introspection.rb:158-159 | `:singleton` is the singleton part alone and never goes with `:instances` |
| MethodIntrospection.SelfPolicy | lib/object_shadow/method_introspection.rb:160-161 | `:self`/`false` is singleton + klass, at most two nodes |
| MethodIntrospection.ExcludeObjectPolicy | lib/object_shadow/method_introspection.rb:164-165 | `:exclude_object` cuts the chain just before the first Object, or keeps the whole chain without one |
| MethodIntrospection.BoundaryPolicy | lib/object_shadow/method_introspection.rb:166-167 | a Module boundary is included and ends the chain at its first occurrence; an absent boundary keeps the whole chain |
| MethodIntrospection.TakeBeforeIndex | lib/object_shadow/method_introspection.rb:163-165 | `chain[0...chain.index(x)]` is the cut strictly before the first `x` |
| MethodIntrospection.ExcludeClassPolicy | lib/object_shadow/method_introspection.rb:162-163 | `:exclude_class` cuts before Class if present, else before Module, else before Object, in that priority order |
| MethodIntrospection.ExcludeClassFallsBackToExcludeObject | lib/object_shadow/method_introspection.rb:162-165 | without Class and Module in the chain, `:exclude_class` equals `:exclude_object` |
| MethodIntrospection.CutBeforeOrdered | lib/object_shadow/method_introspection.rb:162-165 | of two cuts of one chain, the one at the earlier node is a prefix of the other |
| MethodIntrospection.TruncationsNest | lib/object_shadow/method_introspection.rb:162-173 | when no Class or Module follows an Object, `:exclude_class` ⊑ `:exclude_object` ⊑ `:all` as prefixes |
| MethodIntrospection.TruncateNest | lib/object_shadow/method_introspection.rb:162-173 | the same nesting stated on the three parts |
| MethodIntrospection.PartsByReceiver | lib/object_shadow/method_introspection.rb:213-239 | the three parts for each kind of receiver: `:instances`, a module with a singleton class, a non-module with one, and one without |
| MethodIntrospection.AnyDefined | lib/object_shadow/method_introspection.rb:77-85 | `any?` is true exactly when some anchor resolves the name |
| MethodIntrospection.ScopeAt | lib/object_shadow/method_introspection.rb:97-106 | the public/protected/private `case` answers the resolved visibility |
| MethodIntrospection.ScopesAt | lib/object_shadow/method_introspection.rb:95 | `map` gives one answer per anchor, in order |
| MethodIntrospection.CompactFirst | lib/object_shadow/method_introspection.rb:119 | `.compact.first` is nil exactly when all answers are nil, and otherwise the first non-nil one |
| MethodIntrospection.IsMethodDefined | lib/object_shadow/method_introspection.rb:76-86 | fails exactly on invalid arguments; true exactly when some anchor resolves the name |
| MethodIntrospection.FirstResolving | lib/object_shadow/method_introspection.rb:95-119 | the first non-nil scope along the anchors is nil exactly when no anchor resolves the name, and otherwise the visibility at the first anchor that does |
| MethodIntrospection.MethodScope | lib/object_shadow/method_introspection.rb:94-120 | fails exactly on invalid arguments; nil exactly when no anchor resolves the name, else the visibility at the first anchor that does |
| MethodIntrospection.MethodDefinedIffScope | lib/object_shadow/method_introspection.rb:76-120 | `method?` fails exactly when `method_scope` does, and is true exactly when `method_scope` is not nil |
| MethodIntrospection.GetMethod | lib/object_shadow/method_introspection.rb:184-205 | raises only for an unknown target; nil for `:instances` on a non-module; otherwise nil exactly when no node of the lookup path defines the name, else its first definer, bound exactly for `:self`/`:class` without `unbind` |
| MethodIntrospection.Found | lib/object_shadow/method_introspection.rb:186-199 | a reference exists exactly when an owner was found, naming it |
| MethodIntrospection.OwnOccurrences | lib/object_shadow/method_introspection.rb:132-137 | one unbound reference per node defining the name itself, every such node included, nothing else |
| MethodIntrospection.OwnOccurrencesEmpty | lib/object_shadow/method_introspection.rb:132-137 | there are no occurrences exactly when no node defines the name itself |
| MethodIntrospection.OwnOccurrencesInChainOrder | lib/object_shadow/method_introspection.rb:132-137 | occurrences come in chain order: those before a position precede those after it |
| MethodIntrospection.MethodAll | lib/object_shadow/method_introspection.rb:131-137 | fails exactly on invalid arguments; lists unbound references to exactly the nodes of the `:all` chain defining the name; empty exactly when none does |
| MethodIntrospection.Method | lib/object_shadow/method_introspection.rb:130-141 | with `all:` every occurrence, unbound, or the argument error; otherwise one reference or nil, bound exactly for `:self`/`:class` without `unbind`, failing only for an unknown target |
| MethodIntrospection.FirstAnchorStartsLookupPath | lib/object_shadow/method_introspection.rb:177-199 | the first anchor's ancestors are exactly the path `get_method` searches |
| MethodIntrospection.SecondAnchorContinuesLookupPath | lib/object_shadow/method_introspection.rb:177-199 | with a consistent linearisation, the second anchor's ancestors are the rest of that path |
| MethodIntrospection.AnchorsAgreeWithReceiverLookup | lib/object_shadow/method_introspection.rb:76-205 | `method?` is true exactly when `method` finds the method; `method_scope` is the visibility of the definition `method` finds |
| MethodIntrospection.GetMethodFindsFirstOwner | lib/object_shadow/method_introspection.rb:184-205 | without `unbind`, `get_method` answers the first owner along the lookup path, unbound only for `:instances` |
| MethodIntrospection.AnchorsResolveLikeFirst | lib/object_shadow/method_introspection.rb:77-119 | over the anchors, `any?` and `compact.first` answer what the first anchor alone answers |
| IntrospectionScenario.UniverseIsPlanetary | spec/object_shadow_method_introspection_spec.rb:5-89 | the concrete world reports the tests' hierarchy, so the scenario's lemmas apply to it |
| IntrospectionScenario.EarthParts | lib/object_shadow/method_introspection.rb:222-229 | for earth: its singleton class, Planet as klass, and Planet's ancestors as chain |
| IntrospectionScenario.EarthClassIsPlanet | lib/object_shadow/method_introspection.rb:214 | `target: :class` on earth is `target: :self` on planet |
| IntrospectionScenario.PlanetParts | lib/object_shadow/method_introspection.rb:217-226 | for planet: its singleton class and no klass; for `:instances`, Planet and its ancestors |
| IntrospectionScenario.EarthSingletonMethods | spec/object_shadow_method_introspection_spec.rb:95-101 | public `:singleton` methods of earth are `[:develop]` |
| IntrospectionScenario.EarthSelfMethods | spec/object_shadow_method_introspection_spec.rb:103-109 | public `:self` methods of earth are `[:develop, :rotate]` |
| IntrospectionScenario.EarthChainBeforeObject | spec/object_shadow_method_introspection_spec.rb:857-864 | for earth, `:exclude_class` and `:exclude_object` both stop before Object |
| IntrospectionScenario.EarthProtectedExcludeClass | spec/object_shadow_method_introspection_spec.rb:156-162 | protected `:exclude_class` methods of earth are `[:bump, :crash, :magnetize]` |
| IntrospectionScenario.EarthPrivateUpToBody | spec/object_shadow_method_introspection_spec.rb:225-231 | private methods up to astronomical_body are `[:explode, :implode, :repair]` |
| IntrospectionScenario.EarthClassAllScopesSelf | spec/object_shadow_method_introspection_spec.rb:509-515 | `target: :class, scope: :all, inherit: :self` is `[:construct, :prepare, :think]` |
| IntrospectionScenario.EarthClassPublicExcludeClass | spec/object_shadow_method_introspection_spec.rb:319-329 | `target: :class, scope: :public, inherit: :exclude_class` gives the class methods of Planet and AstronomicalBody |
| IntrospectionScenario.PlanetChainBeforeClass | spec/object_shadow_method_introspection_spec.rb:866-875 | for planet, `:exclude_class` keeps the singleton classes down to BasicObject's and stops before Class |
| IntrospectionScenario.ClassCutOfPlanetMeta | lib/object_shadow/method_introspection.rb:163 | on planet's singleton chain the `:exclude_class` cut is at Class |
| IntrospectionScenario.PlanetInstancesPrivate | spec/object_shadow_method_introspection_spec.rb:697-701 | private `:instances` methods of planet are `[:explode, :implode]` |
| IntrospectionScenario.MethodsErrors | spec/object_shadow_method_introspection_spec.rb:576-591 | `:instances` on earth and `:singleton` with `:instances` raise; so do an unknown scope and an unmatched `inherit:` |
| IntrospectionScenario.Anchors | lib/object_shadow/method_introspection.rb:177-182 | the anchors of earth, of earth's class, of planet, and of planet's instances |
| IntrospectionScenario.ResolvedFromEarth | spec/object_shadow_method_introspection_spec.rb:788-812 | from earth's singleton class, repair is private, rotate public and bump protected |
| IntrospectionScenario.UnresolvedFromEarth | spec/object_shadow_method_introspection_spec.rb:778-781 | idea and fun are found nowhere from earth |
| IntrospectionScenario.ResolvedAtPlanetMeta | spec/object_shadow_method_introspection_spec.rb:794-812 | construct is public and think private on planet's singleton class |
| IntrospectionScenario.ResolvedAbovePlanetMeta | spec/object_shadow_method_introspection_spec.rb:792-812 | make, stir and idea resolve one step up, with their visibilities |
| IntrospectionScenario.ResolvedAtPlanet | spec/object_shadow_method_introspection_spec.rb:804-812 | implode is private and bump protected on Planet |
| IntrospectionScenario.UnresolvedFromPlanet | spec/object_shadow_method_introspection_spec.rb:784 | idea and stir are no instance methods of Planet |
| IntrospectionScenario.UnresolvedFromPlanetMeta | spec/object_shadow_method_introspection_spec.rb:781-783 | magnetize and rotate are no class methods of Planet |
| IntrospectionScenario.EarthMethodDefined | spec/object_shadow_method_introspection_spec.rb:769-780 | `earth.shadow.method?(:bump)` holds and `method?(:idea)` does not |
| IntrospectionScenario.EarthClassMethodDefined | spec/object_shadow_method_introspection_spec.rb:772-781 | with `target: :class`, stir is defined and magnetize is not |
| IntrospectionScenario.PlanetMethodDefined | spec/object_shadow_method_introspection_spec.rb:774-783 | `planet.shadow.method?(:idea)` holds and `method?(:rotate)` does not |
| IntrospectionScenario.PlanetInstancesMethodDefined | spec/object_shadow_method_introspection_spec.rb:775-784 | with `target: :instances`, implode is defined and stir is not |
| IntrospectionScenario.EarthMethodScopes | spec/object_shadow_method_introspection_spec.rb:789-818 | `method_scope` on earth: rotate public, bump protected, repair private, idea nil |
| IntrospectionScenario.ClassSideMethodScopes | spec/object_shadow_method_introspection_spec.rb:794-812 | think is private with `target: :class`; construct is public on planet; bump is protected for planet's instances |
| IntrospectionScenario.EarthGetMethod | spec/object_shadow_method_introspection_spec.rb:826-845 | `method(:bump)` is Planet's bump, bound; unbound with `unbind: true`; `method(:fun)` is nil |
| IntrospectionScenario.PlanetInstanceMethod | spec/object_shadow_method_introspection_spec.rb:834-836 | `method(:implode, target: :instances)` is an UnboundMethod of Planet |
| IntrospectionScenario.EarthBumpEverywhere | spec/object_shadow_method_introspection_spec.rb:847-854 | after `def earth.bump`, `method(:bump, all: true)` is two UnboundMethods, the singleton's first |
| IntrospectionScenario.EarthFullChain | lib/object_shadow/method_introspection.rb:168-173 | the unoptimised `:all` chain of earth is its singleton class, then Planet's ancestors, with the two modules Object includes between Object and Kernel |
| IntrospectionScenario.NoBumpAbovePlanet | lib/object_shadow/method_introspection.rb:132-137 | no ancestor above Planet defines bump |
| IntrospectionScenario.DefaultLookupChains | spec/object_shadow_method_introspection_spec.rb:858-876 | the default chains: `[earth.singleton_class, planet, astronomical_body]`, and for planet the singleton classes before Class |
| IntrospectionScenario.FullLookupChains | spec/object_shadow_method_introspection_spec.rb:879-911 | the `:all` chains are exactly the tested lists: earth's eight nodes and planet's eleven, each with Minitest::Expectations and ObjectShadow::ObjectMethod after Object |
| InfoInspect.WordEnd | lib/object_shadow/info_inspect.rb:53 | the run of non-whitespace a string starts with ends at the first whitespace |
| InfoInspect.WordEndIs | lib/object_shadow/info_inspect.rb:53 | that run is exactly `k` long when whitespace (or the end) follows `k` non-whitespace characters |
| InfoInspect.Words | lib/object_shadow/info_inspect.rb:53 | `split(" ")` yields non-empty words without whitespace |
| InfoInspect.WordsOfSpaced | lib/object_shadow/info_inspect.rb:53 | splitting words joined by single spaces gives the same words back |
| InfoInspect.WordsOfWord | lib/object_shadow/info_inspect.rb:53 | a single word splits into itself |
| InfoInspect.Step | lib/object_shadow/info_inspect.rb:55-59 | one loop step changes only the last line, or adds a new one |
| InfoInspect.Wrap | lib/object_shadow/info_inspect.rb:54-60 | the loop always holds at least one line |
| InfoInspect.IndentAll | lib/object_shadow/info_inspect.rb:62-64 | every line is prefixed with exactly four spaces, one output per input line |
| InfoInspect.Column100 | lib/object_shadow/info_inspect.rb:52-66 | the loop computes the indented, `"\n"`-joined greedy wrap of the words |
| InfoInspect.WrapKeepsWords | lib/object_shadow/info_inspect.rb:54-60 | concatenated, the lines are every word followed by one space, in order, none lost |
| InfoInspect.StepKeepsWord | lib/object_shadow/info_inspect.rb:55-59 | one loop step adds exactly the word and one space to the concatenated lines |
| InfoInspect.WrapWidth | lib/object_shadow/info_inspect.rb:56-57 | a line reaches at most 95 characters, unless it holds one word that alone is longer |
| InfoInspect.WrapShape | lib/object_shadow/info_inspect.rb:54-60 | every line is empty or starts with a word and ends with a space; only the first can be empty |
| InfoInspect.FirstWordOfAppend | lib/object_shadow/info_inspect.rb:57 | appending to a line that already has a space keeps its first word |
| InfoInspect.WrapGreedy | lib/object_shadow/info_inspect.rb:56-59 | a line ends only where the next line's first word would not fit |
| InfoInspect.LongFirstWordLeavesBlankLine | lib/object_shadow/info_inspect.rb:54-59 | a first word of 95 or more characters leaves the first line empty |
| InfoInspect.LongFirstWordColumns | lib/object_shadow/info_inspect.rb:52-66 | the output then starts with a line holding only the indent |
| InfoInspect.ColumnsLines | lib/object_shadow/info_inspect.rb:62-65 | the output lines are the wrapped lines, each after exactly four spaces, separated by line feeds |
| InfoInspect.ColumnsOfBlank | lib/object_shadow/info_inspect.rb:52-66 | input without words gives four spaces, not an empty string |
| InfoInspect.Plural | lib/object_shadow/info_inspect.rb:37-47 | the suffix is empty exactly for a count of one, otherwise "s" |
| InfoInspect.ChainLabel | lib/object_shadow/info_inspect.rb:11 | the chain joined by " →  " ends with an ellipsis as one more element |
| InfoInspect.Labels | lib/object_shadow/info_inspect.rb:11 | one label per chain node, in order |
| InfoInspect.MakeList | lib/object_shadow/info_inspect.rb:17-31 | a list section carries its kind, its items and the plural of their count |
| InfoInspect.InheritTill | lib/object_shadow/info_inspect.rb:10 | `:all` exactly for a direct instance of Object, otherwise up to Object |
| InfoInspect.DefaultMethods | lib/object_shadow/info_inspect.rb:6-8 | `methods(scope:)` with the default target and `inherit:` never raises for the three scopes |
| InfoInspect.InspectedChain | lib/object_shadow/info_inspect.rb:11 | `method_lookup_chain(inherit: inherit_till)` never raises and is never nil |
| InfoInspect.AppendKeepsRule | lib/object_shadow/info_inspect.rb:17-31 | appending a section of another kind keeps an existing section and its items |
| InfoInspect.AppendKeepsLack | lib/object_shadow/info_inspect.rb:17-31 | appending a section of another kind keeps a missing kind missing |
| InfoInspect.AppendEstablishesRule | lib/object_shadow/info_inspect.rb:17-31 | appending the section for a non-empty list makes it present with its items |
| InfoInspect.AppendKeepsOrder | lib/object_shadow/info_inspect.rb:17-31 | appending a later section keeps the sections in order |
| InfoInspect.AddList | lib/object_shadow/info_inspect.rb:17-31 | one `unless ... empty?` step: an empty list adds nothing; otherwise its section is added after the others, with its items, and every other kind's presence is kept |
| InfoInspect.Assemble | lib/object_shadow/info_inspect.rb:13-31 | the chain section first; then variables, public, protected and private, in that order, each present exactly when its list is not empty, with its items and plural |
| InfoInspect.Inspect | lib/object_shadow/info_inspect.rb:5-49 | the same sections for the object's own method lists and variables, the chain section holding the wrapped chain label |
| InstanceVariables.Ivar | lib/object_shadow/instance_variables.rb:8 | the `@` name is `@` followed by the given name |
| InstanceVariables.Delete | lib/object_shadow/instance_variables.rb:18 | removing a variable leaves exactly the other names, without duplicates; the rest keep their order around the cut, and an absent name changes nothing |
| InstanceVariables.StripAll | lib/object_shadow/instance_variables.rb:26 | stripping `@` keeps one valid name per stored name, distinct, and adding `@` back gives the stored name |
| InstanceVariables.IvarInjective | lib/object_shadow/instance_variables.rb:7-23 | different names address different instance variables |
| InstanceVariables.VariableTable.constructor | lib/object_shadow/instance_variables.rb:25-27 | a new object has no instance variables |
| InstanceVariables.VariableTable.Variables | lib/object_shadow/instance_variables.rb:25-27 | one name per stored variable, in order, `@` stripped, distinct |
| InstanceVariables.VariableTable.Get | lib/object_shadow/instance_variables.rb:7-9 | NameError exactly for an invalid name; a value exactly for a listed variable, the stored one; nil otherwise |
| InstanceVariables.VariableTable.IsVariable | lib/object_shadow/instance_variables.rb:21-23 | NameError exactly for an invalid name; otherwise true exactly when `variables` lists the name |
| InstanceVariables.VariableTable.VariablesMembership | lib/object_shadow/instance_variables.rb:21-27 | a valid name is listed exactly when its `@` form is stored |
| InstanceVariables.VariableTable.ToH | lib/object_shadow/instance_variables.rb:29-31 | the keys are exactly the listed names, each mapped to what `self[name]` answers |
| InstanceVariables.VariableTable.ToA | lib/object_shadow/instance_variables.rb:33-35 | as many values as listed names, the i-th being what `self[variables[i]]` answers |
| InstanceVariables.VariableTable.ValuesOf | lib/object_shadow/instance_variables.rb:34 | one stored value per given name, in order |
| InstanceVariables.VariableTable.Set | lib/object_shadow/instance_variables.rb:13-15 | NameError and no change for an invalid name; otherwise the value is stored, a new name is appended and an existing one keeps its place; afterwards `self[name]` is the value and every other name answers as before |
| InstanceVariables.VariableTable.Remove | lib/object_shadow/instance_variables.rb:17-19 | NameError and no change unless `variable?` held; otherwise the old value is returned, the name is gone from the table and the list, the rest keep their order, and every other name answers as before |
| InstanceVariables.TestedNames | spec/object_shadow_instance_variables_spec.rb:5-12 | the tested names are valid, `@ivar` itself is not, and their `@` forms differ |
| InstanceVariables.TestedObject | spec/object_shadow_instance_variables_spec.rb:5-16 | setting `ivar` then `another_variable` stores both, in that order |
| InstanceVariables.TestedVariables | spec/object_shadow_instance_variables_spec.rb:19-23 | `variables` is `[:ivar, :another_variable]` |
| InstanceVariables.TestedQueries | spec/object_shadow_instance_variables_spec.rb:26-44 | `variable?(:ivar)` holds, `variable?(:ovar)` does not, `self[:ivar]` is 42, `self[:ovar]` is nil |
| InstanceVariables.TestedHash | spec/object_shadow_instance_variables_spec.rb:55-61 | `to_h` is `{ivar: 42, another_variable: 43}` |
| InstanceVariables.TestedArray | spec/object_shadow_instance_variables_spec.rb:64-69 | `to_a` is `[42, 43]` |
| InstanceVariables.TestedUpdates | spec/object_shadow_instance_variables_spec.rb:46-52 | `self[:ivar] = 1` makes `self[:ivar]` 1; `remove(:ivar)` then returns 1 and leaves `[:another_variable]` |

## Left out

- Ruby's reflection itself is not modelled: `ancestors`, `singleton_class`, `*_instance_methods`, `*_method_defined?`, `instance_method` and `Object#method`. Each is a function of the `World` data, and only a world's own consistency is assumed where a lemma says so (`SupersConsistent`).
- `method_missing`, `respond_to_missing?`, refinements and `prepend` are not modelled. Methods added or removed while a query runs are not modelled either. The linearisation of ancestors is taken as given.
- The `RUBY_VERSION < "2.6.0"` branches of `method?` and `method_scope` (method_introspection.rb:81-83, 107-117) are left out. Only the Ruby 2.6+ branch is modelled.
- `MethodIntrospection.Truncate`: a boundary that is not in the chain makes `lookup_chain_for` slice with `0...nil` or `0..nil` (method_introspection.rb:163-167). The model reads that as the endless range of Ruby 2.6 and later, which keeps the whole chain. The ArgumentError older Rubies raise there is not modelled.
- Method and UnboundMethod objects are reduced to their owner, their name and whether they are bound. The receiver of a bound method is not recorded.
- The `:all`/`true` lists take each anchor's inherited names from the own tables along its ancestors. The scenario's Object, Kernel, BasicObject, Minitest::Expectations and ObjectShadow::ObjectMethod define only a few example methods, not Ruby's real lists. The tests that add `Object.public_instance_methods` to the expected list are therefore matched only in shape.
- A `World` node id that the snapshot does not list is read as a node without methods or ancestors. Ruby has no such node.
- `InfoInspect.Inspect`: the `%` formatting of the result (`object_id`, the counts as text, the section headings around the values) is left out. The `Array#inspect` rendering of the lists, and therefore the wrapped bodies of the list sections, is left out too. The chain section's body is modelled in full, with `column100` applied to the chain label. The variables are a parameter, which is what `variables` answers.
- `InfoInspect.ChainLabel`: a node's label is the `display` string given in the world. Ruby's `Module#to_s` formatting of anonymous classes and singleton classes is not modelled.
- `InfoInspect.Words`: whitespace is the six ASCII separators that awk-style `split(" ")` uses. String encodings are not modelled.
- `InstanceVariables.ValidName`: the model's rule for names is an identifier made of ASCII letters, digits, `_` or characters from U+0080 up, not starting with a digit. Ruby's exact rules for non-ASCII identifiers are not modelled.
- `InstanceVariables.VariableTable.Set`: frozen objects (FrozenError) are not modelled.
- `InstanceVariables.VariableTable.ToH`: a Dafny map has no order, so the key order of the Hash `to_h` builds (the order of `variables`) is not modelled; Hash equality ignores that order.
- Variable order is insertion order, and a removed and re-added variable goes to the end. The order CRuby uses before 3.2 (first assignment across the whole class) is not modelled.
- The rest of the gem is not part of this model: `lib/object_shadow.rb`, `basic_object.rb`, `deep_inspect.rb`, `object_method.rb` and `wrap.rb`. These are the shadow object's construction, the `Object#shadow` entry point, deep inspection and the wrapping of results.
