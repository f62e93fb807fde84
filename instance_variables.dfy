/**
 * ObjectShadow::InstanceVariables: reading, writing, removing and
 * listing the instance variables of the shadowed object, whose names the
 * caller gives without the leading `@`.
 */
module InstanceVariables {
  import opened RubyCore

  /** What a call answers, or the NameError Ruby raises for a bad or missing variable. */
  datatype Outcome<T> = Value(value: T) | NameError

  predicate IdentStart(c: char) {
    ('a' <= c <= 'z') || ('A' <= c <= 'Z') || c == '_' || c >= '\U{80}'
  }

  predicate IdentChar(c: char) {
    IdentStart(c) || ('0' <= c <= '9')
  }

  /** A name that makes `:"@#{name}"` an instance-variable name Ruby accepts. */
  predicate ValidName(n: string) {
    |n| >= 1 && IdentStart(n[0]) && forall i :: 1 <= i < |n| ==> IdentChar(n[i])
  }

  /** `:"@#{name}"`. */
  function Ivar(n: string): (r: string)
    ensures |r| == |n| + 1 && r[0] == '@' && r[1..] == n
  {
    "@" + n
  }

  /** A stored instance-variable name: `@` and a valid name. */
  predicate IsIvar(s: string) {
    |s| >= 1 && s[0] == '@' && ValidName(s[1..])
  }

  /** Removes `x` from a duplicate-free sequence, keeping the order of the rest. */
  function Delete(s: seq<string>, x: string): (r: seq<string>)
    requires Distinct(s)
    ensures Distinct(r)
    ensures forall y :: y in r <==> y in s && y != x
    ensures x !in s ==> r == s
    ensures x in s ==> exists k :: 0 <= k < |s| && s[k] == x && r == s[..k] + s[k + 1..]
  {
    match Index(s, x)
    case None => s
    case Some(k) =>
      RemoveAt(s, k);
      s[..k] + s[k + 1..]
  }

  /** Cutting the element at `k` out of a duplicate-free sequence removes exactly that element. */
  lemma RemoveAt(s: seq<string>, k: nat)
    requires Distinct(s) && k < |s|
    ensures Distinct(s[..k] + s[k + 1..])
    ensures forall y :: y in s[..k] + s[k + 1..] <==> y in s && y != s[k]
  {
    var r := s[..k] + s[k + 1..];
    assert forall i :: 0 <= i < |r| ==> r[i] == if i < k then s[i] else s[i + 1];
    forall y | y in s && y != s[k] ensures y in r {
      var j :| 0 <= j < |s| && s[j] == y;
      if j < k { assert r[j] == y; } else { assert j != k && r[j - 1] == y; }
    }
  }

  /**
   * The object's instance-variable table: `order` is what
   * `instance_variables` lists (insertion order, with `@`), `slots` maps
   * each of those names to its value.
   */
  class VariableTable<V> {
    var order: seq<string>
    var slots: map<string, V>

    ghost predicate Valid()
      reads this
    {
      && (forall i :: 0 <= i < |order| ==> IsIvar(order[i]))
      && Distinct(order)
      && (forall s :: s in slots <==> s in order)
    }

    /** An object without instance variables. */
    constructor ()
      ensures Valid() && order == [] && slots == map[]
    {
      order := [];
      slots := map[];
    }

    /**
     * `variables`: the stored names without their `@`, in order; putting
     * the `@` back gives the stored name.
     */
    function Variables(): (r: seq<string>)
      reads this
      requires Valid()
      ensures |r| == |order|
      ensures forall i :: 0 <= i < |r| ==> ValidName(r[i]) && Ivar(r[i]) == order[i]
      ensures Distinct(r)
    {
      StripAll(order)
    }

    /** `self[name]`: the value, or nil when the variable is not set. */
    function Get(n: string): (r: Outcome<Option<V>>)
      reads this
      requires Valid()
      ensures r.NameError? <==> !ValidName(n)
      ensures r.Value? ==> (r.value.Some? <==> n in Variables())
      ensures r.Value? && r.value.Some? ==> Ivar(n) in slots && r.value.value == slots[Ivar(n)]
    {
      if !ValidName(n) then NameError
      else
        VariablesMembership(n);
        if Ivar(n) in slots then Value(Some(slots[Ivar(n)])) else Value(None)
    }

    /** `variable?(name)`: exactly the names `variables` lists. */
    function IsVariable(n: string): (r: Outcome<bool>)
      reads this
      requires Valid()
      ensures r.NameError? <==> !ValidName(n)
      ensures r.Value? ==> (r.value <==> n in Variables())
    {
      if !ValidName(n) then NameError
      else
        VariablesMembership(n);
        Value(Ivar(n) in slots)
    }

    /** A valid name is listed exactly when its `@` form is stored. */
    lemma VariablesMembership(n: string)
      requires Valid() && ValidName(n)
      ensures n in Variables() <==> Ivar(n) in slots
    {
      var vs := Variables();
      if Ivar(n) in slots {
        var i :| 0 <= i < |order| && order[i] == Ivar(n);
        assert vs[i] == order[i][1..] == n;
      }
      if n in vs {
        var i :| 0 <= i < |vs| && vs[i] == n;
        assert order[i] == Ivar(n);
      }
    }

    /** `to_h`: one entry per listed variable, holding what `self[name]` answers. */
    function ToH(): (r: map<string, V>)
      reads this
      requires Valid()
      ensures forall k :: k in r <==> k in Variables()
      ensures forall k :: k in r ==> Get(k) == Value(Some(r[k]))
    {
      var vs := Variables();
      assert forall k :: k in vs ==> Ivar(k) in slots by {
        forall k | k in vs ensures Ivar(k) in slots {
          var i :| 0 <= i < |vs| && vs[i] == k;
        }
      }
      map k | k in vs :: slots[Ivar(k)]
    }

    /** `to_a`: the values, in the order `variables` lists their names. */
    function ToA(): (r: seq<V>)
      reads this
      requires Valid()
      ensures |r| == |Variables()|
      ensures forall i :: 0 <= i < |r| ==> Get(Variables()[i]) == Value(Some(r[i]))
    {
      ValuesOf(order)
    }

    /** The values of the stored names, in the order given. */
    function ValuesOf(names: seq<string>): (r: seq<V>)
      reads this
      requires forall i :: 0 <= i < |names| ==> names[i] in slots
      ensures |r| == |names| && forall i :: 0 <= i < |r| ==> r[i] == slots[names[i]]
    {
      if names == [] then [] else [slots[names[0]]] + ValuesOf(names[1..])
    }

    /**
     * `self[name] = value`: a new variable goes to the end of the list, an
     * existing one keeps its place; nothing else changes.
     */
    method Set(n: string, v: V) returns (r: Outcome<V>)
      modifies this
      requires Valid()
      ensures Valid()
      ensures r.NameError? <==> !ValidName(n)
      ensures r.NameError? ==> order == old(order) && slots == old(slots)
      ensures r.Value? ==> r.value == v && slots == old(slots)[Ivar(n) := v]
      ensures r.Value? ==> order == if Ivar(n) in old(slots) then old(order) else old(order) + [Ivar(n)]
      ensures r.Value? ==> Get(n) == Value(Some(v))
      ensures forall m :: m != n ==> Get(m) == old(Get(m))
    {
      if !ValidName(n) {
        return NameError;
      }
      var key := Ivar(n);
      assert key[1..] == n;
      if key !in slots {
        order := order + [key];
      }
      slots := slots[key := v];
      r := Value(v);
      forall m | m != n ensures Get(m) == old(Get(m)) {
        IvarInjective(m, n);
      }
    }

    /**
     * `remove(name)`: a set variable disappears and its value is
     * returned, the others keep their values and order; an unset or
     * invalid name raises NameError and changes nothing.
     */
    method Remove(n: string) returns (r: Outcome<V>)
      modifies this
      requires Valid()
      ensures Valid()
      ensures r.NameError? <==> old(IsVariable(n)) != Value(true)
      ensures r.NameError? ==> order == old(order) && slots == old(slots)
      ensures r.Value? ==> r.value == old(slots)[Ivar(n)] && slots == old(slots) - {Ivar(n)}
      ensures r.Value? ==> order == Delete(old(order), Ivar(n))
      ensures r.Value? ==> IsVariable(n) == Value(false)
      ensures forall m :: m != n ==> Get(m) == old(Get(m))
    {
      if !ValidName(n) || Ivar(n) !in slots {
        VariablesMembershipIfValid(n);
        return NameError;
      }
      VariablesMembership(n);
      var key := Ivar(n);
      r := Value(slots[key]);
      order := Delete(order, key);
      slots := slots - {key};
      assert forall i :: 0 <= i < |order| ==> order[i] in old(order);
      forall m | m != n ensures Get(m) == old(Get(m)) {
        IvarInjective(m, n);
      }
    }

    lemma VariablesMembershipIfValid(n: string)
      requires Valid()
      ensures ValidName(n) ==> (n in Variables() <==> Ivar(n) in slots)
    {
      if ValidName(n) { VariablesMembership(n); }
    }
  }

  /** The names the accessor's tests use. */
  lemma TestedNames()
    ensures ValidName("ivar") && ValidName("another_variable") && ValidName("ovar") && !ValidName("@ivar")
    ensures Ivar("ivar") == "@ivar" && Ivar("another_variable") == "@another_variable" && Ivar("ovar") == "@ovar"
    ensures "@ivar" != "@another_variable"
  {
    LongNameValid();
    ShortNamesValid();
    IvarLiterals();
  }

  lemma ShortNamesValid()
    ensures ValidName("ivar") && ValidName("ovar") && !ValidName("@ivar")
  {
    assert !IdentStart("@ivar"[0]);
  }

  lemma IvarLiterals()
    ensures Ivar("ivar") == "@ivar" && Ivar("another_variable") == "@another_variable" && Ivar("ovar") == "@ovar"
    ensures "@ivar" != "@another_variable"
  {
    assert "@ivar"[1] != "@another_variable"[1];
  }

  lemma LongNameValid()
    ensures ValidName("another_variable")
  {
    var n := "another_variable";
    forall i | 1 <= i < |n| ensures IdentChar(n[i]) {
      assert n[i] == '_' || 'a' <= n[i] <= 'z';
    }
  }

  /** The object of the accessor's tests: `@ivar = 42`, then `@another_variable = 43`. */
  method TestedObject() returns (t: VariableTable<int>)
    ensures fresh(t) && t.Valid()
    ensures t.order == ["@ivar", "@another_variable"]
    ensures t.slots == map["@ivar" := 42, "@another_variable" := 43]
  {
    TestedNames();
    t := new VariableTable<int>();
    var _ := t.Set("ivar", 42);
    assert t.order == ["@ivar"];
    var _ := t.Set("another_variable", 43);
  }

  /** What `variables` answers for the tested object. */
  lemma TestedVariables(t: VariableTable<int>)
    requires t.Valid()
    requires t.order == ["@ivar", "@another_variable"]
    ensures t.Variables() == ["ivar", "another_variable"]
  {
    var vars := t.Variables();
    assert Ivar(vars[0]) == "@ivar" && Ivar(vars[1]) == "@another_variable";
    assert vars[0] == Ivar(vars[0])[1..] && vars[1] == Ivar(vars[1])[1..];
  }

  /** What `to_h` answers for the tested object. */
  lemma TestedHash(t: VariableTable<int>)
    requires t.Valid()
    requires t.order == ["@ivar", "@another_variable"]
    requires t.slots == map["@ivar" := 42, "@another_variable" := 43]
    ensures t.ToH() == map["ivar" := 42, "another_variable" := 43]
  {
    TestedVariables(t);
    TestedNames();
    var h := t.ToH();
    assert forall k :: k in h <==> k == "ivar" || k == "another_variable";
    assert t.Get("ivar") == Value(Some(h["ivar"]));
    assert t.Get("another_variable") == Value(Some(h["another_variable"]));
    TwoEntries(h, "ivar", "another_variable", 42, 43);
  }

  /** A map with exactly two keys is the display of its two entries. */
  lemma TwoEntries<K, V>(h: map<K, V>, a: K, b: K, va: V, vb: V)
    requires forall k :: k in h <==> k == a || k == b
    requires a in h && h[a] == va && b in h && h[b] == vb
    ensures h == map[a := va, b := vb]
  {
    assert h.Keys == map[a := va, b := vb].Keys;
  }

  /** What `to_a` answers for the tested object. */
  lemma TestedArray(t: VariableTable<int>)
    requires t.Valid()
    requires t.order == ["@ivar", "@another_variable"]
    requires t.slots == map["@ivar" := 42, "@another_variable" := 43]
    ensures t.ToA() == [42, 43]
  {
    var a := t.ToA();
    assert a == t.ValuesOf(t.order);
  }

  /** What `variable?` and `[]` answer for the tested object. */
  lemma TestedQueries(t: VariableTable<int>)
    requires t.Valid()
    requires t.order == ["@ivar", "@another_variable"]
    requires t.slots == map["@ivar" := 42, "@another_variable" := 43]
    ensures t.IsVariable("ivar") == Value(true) && t.IsVariable("ovar") == Value(false)
    ensures t.Get("ivar") == Value(Some(42)) && t.Get("ovar") == Value(None)
    ensures t.Get("@ivar") == NameError
  {
    TestedNames();
    TestedVariables(t);
  }

  /** `[]=` on a set variable keeps its place; `remove` hands back the value and keeps the rest. */
  method TestedUpdates() returns (reassigned: Outcome<Option<int>>, removed: Outcome<int>, left: seq<string>)
    ensures reassigned == Value(Some(1))
    ensures removed == Value(1) && left == ["another_variable"]
  {
    var t := TestedObject();
    TestedNames();
    var _ := t.Set("ivar", 1);
    reassigned := t.Get("ivar");
    assert t.order == ["@ivar", "@another_variable"];
    removed := t.Remove("ivar");
    assert Index(["@ivar", "@another_variable"], "@ivar") == Some(0);
    left := t.Variables();
    assert t.order == ["@another_variable"];
    assert Ivar(left[0]) == "@another_variable" && left[0] == Ivar(left[0])[1..];
  }

  /** The names without their first character. */
  function StripAll(names: seq<string>): (r: seq<string>)
    requires forall i :: 0 <= i < |names| ==> IsIvar(names[i])
    requires Distinct(names)
    ensures |r| == |names|
    ensures forall i :: 0 <= i < |r| ==> ValidName(r[i]) && Ivar(r[i]) == names[i]
    ensures Distinct(r)
  {
    if names == [] then []
    else
      var x := names[0];
      assert IsIvar(x);
      assert x == [x[0]] + x[1..] == Ivar(x[1..]);
      assert forall i :: 0 <= i < |names| - 1 ==> names[1..][i] == names[i + 1];
      var rest := StripAll(names[1..]);
      forall i | 0 <= i < |rest| ensures rest[i] != x[1..] {
        assert Ivar(rest[i]) == names[i + 1] != names[0] == Ivar(x[1..]);
      }
      var r := [x[1..]] + rest;
      assert forall i :: 1 <= i < |r| ==> r[i] == rest[i - 1];
      r
  }

  /** Different names give different instance-variable names. */
  lemma IvarInjective(m: string, n: string)
    requires m != n
    ensures Ivar(m) != Ivar(n)
  {
    assert Ivar(m)[1..] == m && Ivar(n)[1..] == n;
  }
}
