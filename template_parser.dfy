/** src/services/extension/template-parser.ts: a plugin's XML character-card
    template, the default attributes it gives a new card and its alias map.
    XML parsing is foreign: the document arrives as the `model` element the
    parser produced.  Evaluating a formula (`new Function`) is foreign too:
    it arrives as `eval`, `None` where evaluation throws or yields `NaN`. */
module TemplateParser {
  import opened Wrappers
  import opened Text
  import opened OrderedMaps
  import JsValues

  /** A property node `<any name=… alias=… text=…>body</any>`. */
  datatype Node = Node(name: Option<string>, alias: Option<string>, text: Option<string>, body: Option<string>)

  /** The `model` element: its `name` attribute and its property nodes. */
  datatype ModelElement = ModelElement(name: Option<string>, nodes: seq<Node>)

  datatype Property = Property(
    name: string, alias: string, text: Option<string>, formula: Option<string>, defaultValue: Option<int>)

  datatype Template = Template(name: string, properties: seq<Property>)

  predicate Truthy(s: Option<string>) { s.Some? && s.value != [] }

  /** A node becomes a property when it has both a name and an alias. */
  predicate Kept(n: Node) { Truthy(n.name) && Truthy(n.alias) }

  /** The property of a kept node: its text attribute when set, and a
      formula (the trimmed body) only when both text and body are set. */
  function PropertyOf(n: Node): (p: Property)
    requires Kept(n)
    ensures p.name == n.name.value && p.alias == n.alias.value
    ensures p.formula.Some? <==> Truthy(n.text) && Truthy(n.body)
    ensures p.formula.Some? ==> p.formula.value == TrimJs(n.body.value)
    ensures p.text.Some? <==> Truthy(n.text)
    ensures p.defaultValue.None?
  {
    Property(n.name.value, n.alias.value, if Truthy(n.text) then n.text else None,
             if Truthy(n.text) && Truthy(n.body) then Some(TrimJs(n.body.value)) else None, None)
  }

  function Properties(nodes: seq<Node>): seq<Property>
  {
    if nodes == [] then []
    else
      var last := nodes[|nodes| - 1];
      Properties(nodes[..|nodes| - 1]) + if Kept(last) then [PropertyOf(last)] else []
  }

  /** One property per kept node. */
  lemma {:induction false} PropertiesCount(nodes: seq<Node>)
    ensures |Properties(nodes)| == |set i | 0 <= i < |nodes| && Kept(nodes[i])|
    decreases |nodes|
  {
    if nodes != [] {
      var k := |nodes| - 1;
      var init := nodes[..k];
      PropertiesCount(init);
      var before := set i | 0 <= i < |init| && Kept(init[i]);
      var after := set i | 0 <= i < |nodes| && Kept(nodes[i]);
      if Kept(nodes[k]) {
        assert after == before + {k};
      } else {
        assert after == before;
      }
    }
  }

  /** Every property is a kept node's, and every kept node has one. */
  lemma {:induction false} PropertiesMembers(nodes: seq<Node>)
    ensures forall p :: p in Properties(nodes) <==> exists n :: n in nodes && Kept(n) && PropertyOf(n) == p
    decreases |nodes|
  {
    if nodes != [] {
      var k := |nodes| - 1;
      var init := nodes[..k];
      PropertiesMembers(init);
      assert nodes == init + [nodes[k]];
      forall p ensures p in Properties(nodes) <==> exists n :: n in nodes && Kept(n) && PropertyOf(n) == p {
        if p in Properties(nodes) && p !in Properties(init) {
          assert Kept(nodes[k]) && nodes[k] in nodes && PropertyOf(nodes[k]) == p;
        }
        if exists n :: n in nodes && Kept(n) && PropertyOf(n) == p {
          var n :| n in nodes && Kept(n) && PropertyOf(n) == p;
          if n != nodes[k] {
            assert n in init;
          }
        }
      }
    }
  }

  /** parseTemplate: `None` without a model element or without a model
      name; otherwise the model's name and the kept nodes' properties in
      document order. */
  method ParseTemplate(model: Option<ModelElement>) returns (t: Option<Template>)
    ensures t.None? <==> model.None? || !Truthy(model.value.name)
    ensures t.Some? ==> t.value == Template(model.value.name.value, Properties(model.value.nodes))
  {
    if model.None? || !Truthy(model.value.name) {
      return None;
    }
    var nodes := model.value.nodes;
    var properties: seq<Property> := [];
    for i := 0 to |nodes|
      invariant properties == Properties(nodes[..i])
    {
      assert nodes[..i + 1][..i] == nodes[..i];
      var node := nodes[i];
      if Truthy(node.name) && Truthy(node.alias) {
        var formula := None;
        if Truthy(node.text) && Truthy(node.body) {
          formula := Some(TrimJs(node.body.value));
        }
        var text := if Truthy(node.text) then node.text else None;
        properties := properties + [Property(node.name.value, node.alias.value, text, formula, None)];
      }
    }
    assert nodes[..|nodes|] == nodes;
    return Some(Template(model.value.name.value, properties));
  }

  /** The attribute record: display name to value, in insertion order. */
  type Attributes = seq<(string, int)>

  /** A non-empty formula. */
  predicate HasFormula(p: Property) { p.formula.Some? && p.formula.value != [] }

  predicate IsScript(p: Property) { HasFormula(p) && p.text == Some("javascript") }

  function NamesOf(ps: seq<Property>): (ns: seq<string>)
    ensures |ns| == |ps| && forall i :: 0 <= i < |ps| ==> ns[i] == ps[i].name
  {
    seq(|ps|, i requires 0 <= i < |ps| => ps[i].name)
  }

  /** The first loop: every property without a formula gets its default
      value, or 0, by a plain assignment on `{}` (so one named `__proto__`
      is not stored). */
  function Defaults(ps: seq<Property>): Attributes
  {
    if ps == [] then []
    else
      var last := ps[|ps| - 1];
      var attrs := Defaults(ps[..|ps| - 1]);
      if HasFormula(last) then attrs else JsValues.Assign(attrs, last.name, last.defaultValue.GetOr(0))
  }

  /** `String(attributes[name] ?? 0)`: a stored value, the text of a member
      every object inherits, or 0 for a name not set. */
  function ValueText(attrs: Attributes, name: string): (r: string)
    ensures Get(attrs, name).Some? ==> r == IntToString(Get(attrs, name).value)
    ensures Get(attrs, name).None? && name in JsValues.ObjectPrototypeMembers ==> r == JsValues.InheritedText(name)
    ensures Get(attrs, name).None? && name !in JsValues.ObjectPrototypeMembers ==> r == "0"
  {
    var read := JsValues.ReadProperty(attrs, name);
    if read.None? then IntToString(0)
    else if read.value.Own? then IntToString(read.value.value)
    else JsValues.InheritedText(read.value.member)
  }

  /** `this.<alias>` and then `this.<name>` replaced by the property's value
      for each property in turn, read as `ValueText`. */
  function Substitute(formula: string, ps: seq<Property>, attrs: Attributes): string
  {
    if ps == [] then formula
    else
      var p := ps[|ps| - 1];
      var v := ValueText(attrs, p.name);
      ReplaceAll(ReplaceAll(Substitute(formula, ps[..|ps| - 1], attrs), "this." + p.alias, v), "this." + p.name, v)
  }

  /** `Number(result) || 0`, with a throw or `NaN` giving 0 as well. */
  function ValueOr0(r: Option<int>): int
  {
    if r.Some? then r.value else 0
  }

  /** The second loop: each JavaScript formula evaluated in order, later
      formulas seeing the values of earlier ones. */
  function Evaluate(ps: seq<Property>, all: seq<Property>, attrs: Attributes, eval: string -> Option<int>): Attributes
  {
    if ps == [] then attrs
    else
      var p := ps[|ps| - 1];
      var before := Evaluate(ps[..|ps| - 1], all, attrs, eval);
      if IsScript(p) then JsValues.Assign(before, p.name, ValueOr0(eval(Substitute(p.formula.value, all, before)))) else before
  }

  function DefaultAttributes(t: Template, eval: string -> Option<int>): Attributes
  {
    Evaluate(t.properties, t.properties, Defaults(t.properties), eval)
  }

  /** The record's keys are display names only: every key is some
      property's name, never an alias. */
  lemma {:induction false} DefaultsKeys(ps: seq<Property>)
    ensures forall k :: k in Keys(Defaults(ps)) ==> k in NamesOf(ps)
    ensures forall k :: k in Keys(Defaults(ps)) ==> exists i :: 0 <= i < |ps| && ps[i].name == k && !HasFormula(ps[i])
    decreases |ps|
  {
    if ps != [] {
      var n := |ps| - 1;
      DefaultsKeys(ps[..n]);
      var attrs := Defaults(ps[..n]);
      forall k | k in Keys(Defaults(ps))
        ensures exists i :: 0 <= i < |ps| && ps[i].name == k && !HasFormula(ps[i])
      {
        if k in Keys(attrs) {
          var i :| 0 <= i < n && ps[..n][i].name == k && !HasFormula(ps[..n][i]);
          assert ps[i] == ps[..n][i];
        } else {
          assert Get(Defaults(ps), k).Some?;
          assert ps[n].name == k && !HasFormula(ps[n]);
        }
      }
    }
  }

  lemma {:induction false} EvaluateKeys(ps: seq<Property>, all: seq<Property>, attrs: Attributes, eval: string -> Option<int>)
    ensures forall k :: k in Keys(Evaluate(ps, all, attrs, eval)) ==>
      k in Keys(attrs) || exists i :: 0 <= i < |ps| && ps[i].name == k && IsScript(ps[i])
    decreases |ps|
  {
    if ps != [] {
      var n := |ps| - 1;
      EvaluateKeys(ps[..n], all, attrs, eval);
      var before := Evaluate(ps[..n], all, attrs, eval);
      forall k | k in Keys(Evaluate(ps, all, attrs, eval))
        ensures k in Keys(attrs) || exists i :: 0 <= i < |ps| && ps[i].name == k && IsScript(ps[i])
      {
        if k in Keys(before) {
          if k !in Keys(attrs) {
            var i :| 0 <= i < n && ps[..n][i].name == k && IsScript(ps[..n][i]);
            assert ps[i] == ps[..n][i];
          }
        } else {
          assert Get(Evaluate(ps, all, attrs, eval), k).Some?;
          assert ps[n].name == k && IsScript(ps[n]);
        }
      }
    }
  }

  /** Every key of the generated record is the display name of a property
      that has no formula or has a JavaScript one. */
  lemma AttributeKeysAreNames(t: Template, eval: string -> Option<int>)
    ensures forall k :: k in Keys(DefaultAttributes(t, eval)) ==>
      exists i :: 0 <= i < |t.properties| && t.properties[i].name == k
                  && (!HasFormula(t.properties[i]) || IsScript(t.properties[i]))
  {
    DefaultsKeys(t.properties);
    EvaluateKeys(t.properties, t.properties, Defaults(t.properties), eval);
  }

  lemma DistinctInit(ps: seq<Property>, n: nat)
    requires n <= |ps| && Distinct(NamesOf(ps))
    ensures Distinct(NamesOf(ps[..n]))
  {
    assert NamesOf(ps[..n]) == NamesOf(ps)[..n];
  }

  /** With distinct names, a property without a formula has its default
      value after the first loop, and a property with one has none yet;
      neither does one named `__proto__`. */
  lemma {:induction false} DefaultsValue(ps: seq<Property>, i: nat)
    requires i < |ps| && Distinct(NamesOf(ps))
    ensures !HasFormula(ps[i]) && ps[i].name != "__proto__" ==>
      Get(Defaults(ps), ps[i].name) == Some(ps[i].defaultValue.GetOr(0))
    ensures HasFormula(ps[i]) || ps[i].name == "__proto__" ==> Get(Defaults(ps), ps[i].name) == None
    decreases |ps|
  {
    var n := |ps| - 1;
    var init := ps[..n];
    DistinctInit(ps, n);
    if i < n {
      DefaultsValue(init, i);
      assert init[i] == ps[i];
      assert ps[n].name != ps[i].name by { assert NamesOf(ps)[i] != NamesOf(ps)[n]; }
    } else if ps[i].name == "__proto__" {
      DefaultsNeverStoreProto(ps);
    } else if HasFormula(ps[i]) {
      NewNameAbsent(ps);
    }
  }

  /** Assigning `__proto__` on the record stores nothing, so the first loop
      never has that key. */
  lemma {:induction false} DefaultsNeverStoreProto(ps: seq<Property>)
    ensures Get(Defaults(ps), "__proto__") == None
    decreases |ps|
  {
    if ps != [] {
      DefaultsNeverStoreProto(ps[..|ps| - 1]);
    }
  }

  /** Nor does the second loop add it. */
  lemma {:induction false} EvaluateNeverStoresProto(ps: seq<Property>, all: seq<Property>, attrs: Attributes,
                                                   eval: string -> Option<int>)
    requires Get(attrs, "__proto__") == None
    ensures Get(Evaluate(ps, all, attrs, eval), "__proto__") == None
    decreases |ps|
  {
    if ps != [] {
      EvaluateNeverStoresProto(ps[..|ps| - 1], all, attrs, eval);
    }
  }

  /** A key the second loop can store on its input stays storable. */
  lemma {:induction false} EvaluateStoresOwn(ps: seq<Property>, all: seq<Property>, attrs: Attributes,
                                            eval: string -> Option<int>, k: string)
    requires JsValues.StoresOwn(attrs, k)
    ensures JsValues.StoresOwn(Evaluate(ps, all, attrs, eval), k)
    decreases |ps|
  {
    if ps != [] {
      var n := |ps| - 1;
      EvaluateStoresOwn(ps[..n], all, attrs, eval, k);
      EvaluateLast(ps, all, attrs, eval, k);
    }
  }

  /** The last name of a distinct list is not among the first loop's keys
      for the others. */
  lemma NewNameAbsent(ps: seq<Property>)
    requires ps != [] && Distinct(NamesOf(ps))
    ensures Get(Defaults(ps[..|ps| - 1]), ps[|ps| - 1].name) == None
  {
    var n := |ps| - 1;
    var init := ps[..n];
    DefaultsKeys(init);
    assert NamesOf(init) == NamesOf(ps)[..n];
    assert ps[n].name !in NamesOf(init) by {
      assert forall j :: 0 <= j < n ==> NamesOf(ps)[j] != NamesOf(ps)[n];
    }
  }

  /** The last property of the second loop: a JavaScript formula for the
      name sets its value (unless the name is an unstored `__proto__`),
      anything else leaves the value as it was. */
  lemma EvaluateLast(ps: seq<Property>, all: seq<Property>, attrs: Attributes,
                     eval: string -> Option<int>, k: string)
    requires ps != []
    ensures var n := |ps| - 1; var before := Evaluate(ps[..n], all, attrs, eval);
      Get(Evaluate(ps, all, attrs, eval), k) ==
        if ps[n].name == k && IsScript(ps[n]) && JsValues.StoresOwn(before, k)
        then Some(ValueOr0(eval(Substitute(ps[n].formula.value, all, before))))
        else Get(before, k)
  {
  }

  /** A property that no JavaScript formula names keeps the value the first
      loop gave it. */
  lemma {:induction false} EvaluateKeeps(ps: seq<Property>, all: seq<Property>, attrs: Attributes,
                                         eval: string -> Option<int>, k: string)
    requires forall i :: 0 <= i < |ps| && ps[i].name == k ==> !IsScript(ps[i])
    ensures Get(Evaluate(ps, all, attrs, eval), k) == Get(attrs, k)
    decreases |ps|
  {
    if ps != [] {
      var n := |ps| - 1;
      assert forall i :: 0 <= i < n ==> ps[..n][i] == ps[i];
      EvaluateKeeps(ps[..n], all, attrs, eval, k);
      EvaluateLast(ps, all, attrs, eval, k);
    }
  }

  /** The last JavaScript formula for a name, at `j`, sets its value: the
      formula with the values known before it substituted, evaluated, or 0.
      A `__proto__` not already stored keeps its absence instead. */
  lemma {:induction false} EvaluateSets(ps: seq<Property>, all: seq<Property>, attrs: Attributes,
                                        eval: string -> Option<int>, k: string, j: nat)
    requires j < |ps| && ps[j].name == k && IsScript(ps[j])
    requires forall i :: j < i < |ps| && ps[i].name == k ==> !IsScript(ps[i])
    ensures JsValues.StoresOwn(attrs, k) ==>
      (Get(Evaluate(ps, all, attrs, eval), k)
         == Some(ValueOr0(eval(Substitute(ps[j].formula.value, all, Evaluate(ps[..j], all, attrs, eval))))))
    ensures !JsValues.StoresOwn(attrs, k) ==> Get(Evaluate(ps, all, attrs, eval), k) == None
    decreases |ps|
  {
    var n := |ps| - 1;
    EvaluateLast(ps, all, attrs, eval, k);
    if !JsValues.StoresOwn(attrs, k) {
      EvaluateNeverStoresProto(ps, all, attrs, eval);
    } else if j == n {
      EvaluateStoresOwn(ps[..n], all, attrs, eval, k);
    } else {
      assert ps[..n][j] == ps[j] && ps[..n][..j] == ps[..j];
      assert forall i :: j < i < n ==> ps[..n][i] == ps[i];
      EvaluateSets(ps[..n], all, attrs, eval, k, j);
    }
  }

  /** generateDefaultAttributes, for templates whose names are distinct:
      a property without a formula has its default value or 0, a formula
      that is not JavaScript leaves its property out, and a JavaScript
      formula's property has the value of its formula, with the values of
      the properties before it substituted, or 0. */
  lemma DefaultAttributesValues(t: Template, eval: string -> Option<int>, i: nat)
    requires i < |t.properties| && Distinct(NamesOf(t.properties))
    ensures var ps := t.properties; var p := ps[i]; var attrs := DefaultAttributes(t, eval);
      (!HasFormula(p) && p.name != "__proto__" ==> Get(attrs, p.name) == Some(p.defaultValue.GetOr(0)))
      && (HasFormula(p) && !IsScript(p) ==> Get(attrs, p.name) == None)
      && (IsScript(p) && p.name != "__proto__" ==>
            Get(attrs, p.name)
              == Some(ValueOr0(eval(Substitute(p.formula.value, ps, Evaluate(ps[..i], ps, Defaults(ps), eval))))))
      && (p.name == "__proto__" ==> Get(attrs, p.name) == None)
  {
    var ps := t.properties;
    var p := ps[i];
    DefaultsValue(ps, i);
    DefaultsNeverStoreProto(ps);
    EvaluateNeverStoresProto(ps, ps, Defaults(ps), eval);
    assert forall j :: 0 <= j < |ps| && ps[j].name == p.name ==> j == i by {
      assert forall j :: 0 <= j < |ps| ==> NamesOf(ps)[j] == ps[j].name;
    }
    if IsScript(p) {
      EvaluateSets(ps, ps, Defaults(ps), eval, p.name, i);
    } else {
      EvaluateKeeps(ps, ps, Defaults(ps), eval, p.name);
    }
  }

  /** When evaluation always fails, every JavaScript formula gives 0 (and
      `__proto__` stays unset). */
  lemma FailedEvaluationGivesZero(t: Template, i: nat)
    requires i < |t.properties| && Distinct(NamesOf(t.properties)) && IsScript(t.properties[i])
    ensures Get(DefaultAttributes(t, (f: string) => None), t.properties[i].name)
      == if t.properties[i].name == "__proto__" then None else Some(0)
  {
    DefaultAttributesValues(t, (f: string) => None, i);
  }

  /** A formula that refers to nothing through `this.` is evaluated as it
      stands. */
  lemma {:induction false} SubstituteWithoutReferences(formula: string, ps: seq<Property>, attrs: Attributes)
    requires !Contains(formula, "this.")
    ensures Substitute(formula, ps, attrs) == formula
    decreases |ps|
  {
    if ps != [] {
      var p := ps[|ps| - 1];
      SubstituteWithoutReferences(formula, ps[..|ps| - 1], attrs);
      ReferenceNeedsPrefix(formula, p.alias);
      ReplaceAllAbsent(formula, "this." + p.alias, ValueText(attrs, p.name));
      ReferenceNeedsPrefix(formula, p.name);
      ReplaceAllAbsent(formula, "this." + p.name, ValueText(attrs, p.name));
    }
  }

  lemma ReferenceNeedsPrefix(s: string, x: string)
    requires !Contains(s, "this.")
    ensures !Contains(s, "this." + x)
  {
  }

  /** A formula that is one property's reference becomes that property's
      value as `ValueText` renders it. */
  lemma SubstituteReference(p: Property, attrs: Attributes)
    ensures Substitute("this." + p.alias, [p], attrs) == ValueText(attrs, p.name)
  {
    var v := ValueText(attrs, p.name);
    var f := "this." + p.alias;
    assert [p][..0] == [];
    assert Substitute(f, [], attrs) == f;
    ReplaceAllFront(f, [], v);
    assert f + [] == f;
    assert ReplaceAll([], f, v) == [];
    assert ReplaceAll(f, f, v) == v;
    ValueTextHasNoReference(attrs, p.name);
    ReferenceNeedsPrefix(v, p.name);
    ReplaceAllAbsent(v, "this." + p.name, v);
    assert Substitute(f, [p], attrs) == ReplaceAll(ReplaceAll(f, f, v), "this." + p.name, v);
  }

  /** A substituted value holds no `this.`, so it is not substituted again. */
  lemma ValueTextHasNoReference(attrs: Attributes, name: string)
    ensures !Contains(ValueText(attrs, name), "this.")
  {
    if Get(attrs, name).Some? {
      NumberHasNoReference(Get(attrs, name).value);
    } else if name in JsValues.ObjectPrototypeMembers {
      InheritedTextHasNoDot(name);
      NoDotNoReference(JsValues.InheritedText(name));
    } else {
      NumberHasNoReference(0);
    }
  }

  predicate NoDot(s: string) { forall i :: 0 <= i < |s| ==> s[i] != '.' }

  /** The text of an inherited member has no `.`: no member name has one. */
  lemma InheritedTextHasNoDot(m: string)
    requires m in JsValues.ObjectPrototypeMembers
    ensures NoDot(JsValues.InheritedText(m))
  {
    var t := JsValues.InheritedText(m);
    if m == "__proto__" {
      assert t == "[object Object]";
    } else {
      var x := if m == "constructor" then "Object" else m;
      MemberHasNoDot(m);
      assert NoDot(x);
      var head, tail := "function ", "() { [native code] }";
      assert NoDot(head) && NoDot(tail);
      assert t == head + x + tail;
      forall i | 0 <= i < |t| ensures t[i] != '.' {
        if i < |head| {
          assert t[i] == head[i];
        } else if i < |head| + |x| {
          assert t[i] == x[i - |head|];
        } else {
          assert t[i] == tail[i - |head| - |x|];
        }
      }
    }
  }

  lemma MemberHasNoDot(m: string)
    requires m in JsValues.ObjectPrototypeMembers
    ensures NoDot(m)
  {
    if m == "constructor" {
    } else if m == "__proto__" {
    } else if m == "__defineGetter__" {
    } else if m == "__defineSetter__" {
    } else if m == "__lookupGetter__" {
    } else if m == "__lookupSetter__" {
    } else if m == "hasOwnProperty" {
    } else if m == "isPrototypeOf" {
    } else if m == "propertyIsEnumerable" {
    } else if m == "toString" {
    } else if m == "toLocaleString" {
    } else {
      assert m == "valueOf";
    }
  }

  lemma NoDotNoReference(s: string)
    requires NoDot(s)
    ensures !Contains(s, "this.")
  {
    forall i | 0 <= i <= |s| - 5 ensures !StartsWith(s[i..], "this.") {
      assert s[i..][4] == s[i + 4];
    }
  }

  /** A rendered number holds digits and a minus sign only, so no `this.`. */
  lemma NumberHasNoReference(n: int)
    ensures !Contains(IntToString(n), "this.")
  {
    var s := IntToString(n);
    forall i | 0 <= i < |s| ensures s[i] != 't' {
      if n < 0 {
        assert s == "-" + NatToString(-n);
        if i > 0 {
          assert s[i] == NatToString(-n)[i - 1];
        }
      }
    }
    forall i | 0 <= i <= |s| - 5 ensures !StartsWith(s[i..], "this.") {
      assert s[i..][0] == s[i];
    }
  }

  /** The alias map: each alias to its property's name, set in order. */
  function AliasMap(ps: seq<Property>): seq<(string, string)>
  {
    if ps == [] then [] else JsValues.Assign(AliasMap(ps[..|ps| - 1]), ps[|ps| - 1].alias, ps[|ps| - 1].name)
  }

  /** One more property: its alias now maps to its name, every other alias
      as before; the alias `__proto__` is never stored. */
  lemma AliasMapStep(ps: seq<Property>, a: string)
    requires ps != []
    ensures a == ps[|ps| - 1].alias && a != "__proto__" ==> Get(AliasMap(ps), a) == Some(ps[|ps| - 1].name)
    ensures a != ps[|ps| - 1].alias ==> Get(AliasMap(ps), a) == Get(AliasMap(ps[..|ps| - 1]), a)
    ensures Get(AliasMap(ps), "__proto__") == None
  {
    AliasMapNeverStoresProto(ps[..|ps| - 1]);
  }

  lemma {:induction false} AliasMapNeverStoresProto(ps: seq<Property>)
    ensures Get(AliasMap(ps), "__proto__") == None
    decreases |ps|
  {
    if ps != [] {
      AliasMapNeverStoresProto(ps[..|ps| - 1]);
    }
  }

  function AliasesOf(ps: seq<Property>): (as_: seq<string>)
    ensures |as_| == |ps| && forall i :: 0 <= i < |ps| ==> as_[i] == ps[i].alias
  {
    seq(|ps|, i requires 0 <= i < |ps| => ps[i].alias)
  }

  /** An alias no property has is absent from the map. */
  lemma {:induction false} AliasMapAbsent(ps: seq<Property>, a: string)
    requires a !in AliasesOf(ps)
    ensures Get(AliasMap(ps), a) == None
    decreases |ps|
  {
    if ps != [] {
      var n := |ps| - 1;
      var init := ps[..n];
      assert AliasesOf(ps)[n] != a;
      assert a !in AliasesOf(init) by {
        assert forall k :: 0 <= k < n ==> AliasesOf(init)[k] == AliasesOf(ps)[k];
      }
      AliasMapAbsent(init, a);
      AliasMapStep(ps, a);
    }
  }

  /** The last position before `hi` whose property has alias `a`, or -1. */
  function LastWithAlias(ps: seq<Property>, a: string, hi: nat): (j: int)
    requires hi <= |ps|
    ensures -1 <= j < hi && (0 <= j ==> ps[j].alias == a)
    ensures forall k :: j < k < hi ==> ps[k].alias != a
  {
    if hi == 0 then -1
    else if ps[hi - 1].alias == a then hi - 1
    else LastWithAlias(ps, a, hi - 1)
  }

  /** An alias some property has is in the map, unless it is `__proto__`. */
  lemma AliasMapPresent(ps: seq<Property>, i: nat)
    requires i < |ps|
    ensures Get(AliasMap(ps), ps[i].alias).Some? <==> ps[i].alias != "__proto__"
  {
    var a := ps[i].alias;
    AliasMapNeverStoresProto(ps);
    var j := LastWithAlias(ps, a, |ps|);
    assert i <= j;
    AliasMapLastWins(ps, a, j);
  }

  /** An alias maps to the name of the last property that has it: a later
      duplicate alias wins. */
  lemma {:induction false} AliasMapLastWins(ps: seq<Property>, a: string, i: nat)
    requires i < |ps| && ps[i].alias == a
    requires forall j :: i < j < |ps| ==> ps[j].alias != a
    ensures Get(AliasMap(ps), a) == if a == "__proto__" then None else Some(ps[i].name)
    decreases |ps|
  {
    var n := |ps| - 1;
    var init := ps[..n];
    AliasMapStep(ps, a);
    if a == "__proto__" {
    } else if i < n {
      assert init[i] == ps[i];
      assert forall j :: i < j < |init| ==> init[j] == ps[j];
      AliasMapLastWins(init, a, i);
    }
  }

  /** createAliasMap. */
  method CreateAliasMap(t: Template) returns (aliasMap: seq<(string, string)>)
    ensures aliasMap == AliasMap(t.properties)
  {
    var ps := t.properties;
    aliasMap := [];
    for i := 0 to |ps|
      invariant aliasMap == AliasMap(ps[..i])
    {
      assert ps[..i + 1][..i] == ps[..i];
      aliasMap := JsValues.Assign(aliasMap, ps[i].alias, ps[i].name);
    }
    assert ps[..|ps|] == ps;
  }

  /** generateDefaultAttributes. */
  method GenerateDefaultAttributes(t: Template, eval: string -> Option<int>) returns (attributes: Attributes)
    ensures attributes == DefaultAttributes(t, eval)
  {
    var ps := t.properties;
    attributes := [];
    for i := 0 to |ps|
      invariant attributes == Defaults(ps[..i])
    {
      assert ps[..i + 1][..i] == ps[..i];
      var prop := ps[i];
      if HasFormula(prop) {
        continue;
      }
      attributes := JsValues.Assign(attributes, prop.name, prop.defaultValue.GetOr(0));
    }
    assert ps[..|ps|] == ps;
    ghost var defaults := attributes;
    for i := 0 to |ps|
      invariant attributes == Evaluate(ps[..i], ps, defaults, eval)
    {
      assert ps[..i + 1][..i] == ps[..i];
      var prop := ps[i];
      if IsScript(prop) {
        var formula := SubstituteAll(prop.formula.value, ps, attributes);
        attributes := JsValues.Assign(attributes, prop.name, ValueOr0(eval(formula)));
      }
    }
    assert ps[..|ps|] == ps;
  }

  /** The substitution loop of one formula. */
  method SubstituteAll(formula: string, ps: seq<Property>, attributes: Attributes) returns (result: string)
    ensures result == Substitute(formula, ps, attributes)
  {
    result := formula;
    for i := 0 to |ps|
      invariant result == Substitute(formula, ps[..i], attributes)
    {
      assert ps[..i + 1][..i] == ps[..i];
      var value := ValueText(attributes, ps[i].name);
      result := ReplaceAll(result, "this." + ps[i].alias, value);
      result := ReplaceAll(result, "this." + ps[i].name, value);
    }
    assert ps[..|ps|] == ps;
  }
}
