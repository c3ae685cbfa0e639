/**
 What an expression evaluates to, kind by kind, in the terms of its parts only: these laws leave no
 expression out, so together they say what the evaluator of `ConstantEvaluator` must find.
 */
module ConstantMeaning {
  import opened Options
  import opened ConstantEvaluator

  /** Every literal stands for itself; a number without a sign is not negative. */
  lemma LiteralLaws(text: string, t: Table, v: Literal)
    ensures EvaluatesTo(StringLiteral(text), t, v) <==> v == Text(text)
    ensures EvaluatesTo(NumericLiteral(text), t, v) <==> v == Number(false, text)
    ensures EvaluatesTo(True, t, v) <==> v == Boolean(true)
    ensures EvaluatesTo(False, t, v) <==> v == Boolean(false)
    ensures EvaluatesTo(Null, t, v) <==> v == NullValue
    ensures !EvaluatesTo(OtherExpression, t, v)
  {
    assert Plain(StringLiteral(text), t, 0) == Some(Text(text));
    assert Plain(NumericLiteral(text), t, 0) == Some(Number(false, text));
    assert Plain(True, t, 0) == Some(Boolean(true));
    assert Plain(False, t, 0) == Some(Boolean(false));
    assert Plain(Null, t, 0) == Some(NullValue);
  }

  /** A plus keeps the value of a number, a minus makes it negative; nothing else takes a sign. */
  lemma SignLaws(operator: Operator, operand: Expr, t: Table, v: Literal)
    ensures EvaluatesTo(PrefixUnary(operator, operand), t, v)
       <==> operand.NumericLiteral? && match operator
                                       case Plus => EvaluatesTo(operand, t, v)
                                       case Minus => v.Number? && v.negative && EvaluatesTo(operand, t, Number(false, v.magnitude))
                                       case OtherOperator => false
  {
    if operand.NumericLiteral? {
      LiteralLaws(operand.text, t, v);
      if v.Number? { LiteralLaws(operand.text, t, Number(false, v.magnitude)); }
      assert Plain(PrefixUnary(Minus, operand), t, 0) == Some(Number(true, operand.text));
      assert Plain(PrefixUnary(Plus, operand), t, 0) == Some(Number(false, operand.text));
    }
  }

  /** Brackets and type assertions change nothing. */
  lemma WrapperLaws(inner: Expr, t: Table, v: Literal)
    ensures EvaluatesTo(Parenthesized(inner), t, v) <==> EvaluatesTo(inner, t, v)
    ensures EvaluatesTo(As(inner), t, v) <==> EvaluatesTo(inner, t, v)
  {
    forall depth: nat
      ensures Plain(Parenthesized(inner), t, depth) == Plain(inner, t, depth) && Plain(As(inner), t, depth) == Plain(inner, t, depth)
    {
    }
  }

  /** Of all calls and accesses, only freezing one object has a value: that of the object. */
  lemma CallLaws(callee: Expr, arguments: seq<Expr>, name: string, t: Table, v: Literal)
    ensures EvaluatesTo(Call(callee, arguments), t, v)
       <==> callee == PropertyAccess(Identifier("Object"), "freeze") && |arguments| == 1 && EvaluatesTo(arguments[0], t, v)
    ensures !EvaluatesTo(PropertyAccess(callee, name), t, v)
  {
    var e := Call(callee, arguments);
    forall depth: nat
      ensures Plain(e, t, depth) == if FreezeArgument(e).Some? then Plain(arguments[0], t, depth) else None
    {
    }
  }

  /** A constant has the value of its initializer, and no other name has one. */
  lemma NameLaw(name: string, t: Table, v: Literal)
    ensures EvaluatesTo(Identifier(name), t, v) <==> name in t.constants && EvaluatesTo(t.constants[name], t, v)
  {
    if name in t.constants {
      forall depth: nat ensures Plain(Identifier(name), t, depth + 1) == Plain(t.constants[name], t, depth) {}
      if EvaluatesTo(Identifier(name), t, v) {
        var depth: nat :| Plain(Identifier(name), t, depth) == Some(v);
        assert Plain(t.constants[name], t, depth - 1) == Some(v);
      }
    }
  }

  // Arrays

  ghost predicate ElementTo(element: Element, t: Table, v: Literal) {
    element.Item? && EvaluatesTo(element.expression, t, v)
  }

  ghost predicate ElementsTo(elements: seq<Element>, t: Table, items: seq<Literal>) {
    |items| == |elements| && forall k :: 0 <= k < |elements| ==> ElementTo(elements[k], t, items[k])
  }

  lemma {:induction false} MuchDeeperElements(elements: seq<Element>, t: Table, depth: nat, more: nat)
    requires depth <= more && PlainElements(elements, t, depth).Some?
    ensures PlainElements(elements, t, more) == PlainElements(elements, t, depth)
    decreases more - depth
  {
    if depth < more {
      DeeperElements(elements, t, depth);
      MuchDeeperElements(elements, t, depth + 1, more);
    }
  }

  lemma {:induction false} ElementsShow(elements: seq<Element>, t: Table, depth: nat)
    requires PlainElements(elements, t, depth).Some?
    ensures ElementsTo(elements, t, PlainElements(elements, t, depth).value)
  {
    if elements != [] {
      ElementsShow(elements[1..], t, depth);
      var items := PlainElements(elements, t, depth).value;
      assert Plain(elements[0].expression, t, depth) == Some(items[0]);
      forall k | 0 <= k < |elements| ensures ElementTo(elements[k], t, items[k]) {
        if k > 0 { assert ElementTo(elements[1..][k - 1], t, items[1..][k - 1]); }
      }
    }
  }

  lemma {:induction false} ElementsReached(elements: seq<Element>, t: Table, items: seq<Literal>) returns (depth: nat)
    requires ElementsTo(elements, t, items)
    ensures PlainElements(elements, t, depth) == Some(items)
  {
    if elements == [] {
      depth := 0;
    } else {
      assert ElementTo(elements[0], t, items[0]);
      forall k | 0 <= k < |elements| - 1 ensures ElementTo(elements[1..][k], t, items[1..][k]) {
        assert ElementTo(elements[k + 1], t, items[k + 1]);
      }
      var rest := ElementsReached(elements[1..], t, items[1..]);
      var first: nat :| Plain(elements[0].expression, t, first) == Some(items[0]);
      depth := if first < rest then rest else first;
      MuchDeeper(elements[0].expression, t, first, depth);
      MuchDeeperElements(elements[1..], t, rest, depth);
      assert items == [items[0]] + items[1..];
    }
  }

  /** An array evaluates item by item; a spread or an omitted element has no value. */
  lemma ArrayLaw(elements: seq<Element>, t: Table, v: Literal)
    ensures EvaluatesTo(ArrayLiteral(elements), t, v) <==> v.ArrayValue? && ElementsTo(elements, t, v.items)
  {
    if EvaluatesTo(ArrayLiteral(elements), t, v) {
      var depth: nat :| Plain(ArrayLiteral(elements), t, depth) == Some(v);
      ElementsShow(elements, t, depth);
    }
    if v.ArrayValue? && ElementsTo(elements, t, v.items) {
      var depth := ElementsReached(elements, t, v.items);
      assert Plain(ArrayLiteral(elements), t, depth) == Some(v);
    }
  }

  // Objects

  /** How a value reads as the name of a property. */
  ghost predicate Names(key: Literal, t: Table, name: string) {
    match key
    case Text(text) => name == text
    case Number(_, _) => name == t.numberName(key)
    case _ => false
  }

  ghost predicate KeyTo(key: PropertyName, t: Table, name: string) {
    match key
    case Fixed(text) => name == text
    case Computed(expression) => exists value :: EvaluatesTo(expression, t, value) && Names(value, t, name)
    case OtherName => false
  }

  /** A shorthand stands for the constant of its name. */
  ghost predicate PropertyTo(p: Property, t: Table, name: string, v: Literal) {
    match p
    case Shorthand(own) => name == own && EvaluatesTo(Identifier(own), t, v)
    case Assignment(key, initializer) => KeyTo(key, t, name) && EvaluatesTo(initializer, t, v)
    case OtherProperty => false
  }

  ghost predicate PropertiesTo(properties: seq<Property>, t: Table, names: seq<string>, values: seq<Literal>) {
    && |names| == |values| == |properties|
    && forall k :: 0 <= k < |properties| ==> PropertyTo(properties[k], t, names[k], values[k])
  }

  /** The name does not come again after the place. */
  ghost predicate IsLast(names: seq<string>, k: nat) {
    k < |names| && names[k] !in names[k + 1..]
  }

  /** Each name has the last of its values. */
  ghost predicate LastOf(entries: map<string, Literal>, names: seq<string>, values: seq<Literal>)
    requires |names| == |values|
  {
    && (forall name :: name in entries <==> name in names)
    && forall k: nat :: IsLast(names, k) ==> entries[names[k]] == values[k]
  }

  lemma PropertyShows(p: Property, t: Table, depth: nat)
    requires PlainProperty(p, t, depth).Some?
    ensures var entry := PlainProperty(p, t, depth).value; PropertyTo(p, t, entry.0, entry.1)
  {
    var entry := PlainProperty(p, t, depth).value;
    match p
    case Shorthand(name) => assert Plain(Identifier(name), t, depth) == Some(entry.1);
    case Assignment(key, initializer) =>
      assert Plain(initializer, t, depth) == Some(entry.1);
      if key.Computed? {
        var value := Plain(key.expression, t, depth).value;
        assert EvaluatesTo(key.expression, t, value) && Names(value, t, entry.0);
      }
  }

  lemma {:induction false} MuchDeeperProperty(p: Property, t: Table, depth: nat, more: nat)
    requires depth <= more && PlainProperty(p, t, depth).Some?
    ensures PlainProperty(p, t, more) == PlainProperty(p, t, depth)
    decreases more - depth
  {
    if depth < more {
      DeeperProperty(p, t, depth);
      MuchDeeperProperty(p, t, depth + 1, more);
    }
  }

  lemma {:induction false} MuchDeeperProperties(properties: seq<Property>, t: Table, depth: nat, more: nat)
    requires depth <= more && PlainProperties(properties, t, depth).Some?
    ensures PlainProperties(properties, t, more) == PlainProperties(properties, t, depth)
    decreases more - depth
  {
    if depth < more {
      DeeperProperties(properties, t, depth);
      MuchDeeperProperties(properties, t, depth + 1, more);
    }
  }

  lemma PropertyReached(p: Property, t: Table, name: string, v: Literal) returns (depth: nat)
    requires PropertyTo(p, t, name, v)
    ensures PlainProperty(p, t, depth) == Some((name, v))
  {
    match p {
      case Shorthand(own) =>
        depth :| Plain(Identifier(own), t, depth) == Some(v);
      case Assignment(key, initializer) =>
        var first: nat :| Plain(initializer, t, first) == Some(v);
        depth := first;
        if key.Computed? {
          var value :| EvaluatesTo(key.expression, t, value) && Names(value, t, name);
          var second: nat :| Plain(key.expression, t, second) == Some(value);
          depth := if first < second then second else first;
          MuchDeeper(key.expression, t, second, depth);
        }
        MuchDeeper(initializer, t, first, depth);
    }
  }

  /** One more property, whose value replaces an earlier one of the name. */
  lemma LastOfNext(entries: map<string, Literal>, names: seq<string>, values: seq<Literal>, name: string, v: Literal)
    requires |names| == |values| && LastOf(entries, names, values)
    ensures LastOf(entries[name := v], names + [name], values + [v])
  {
    var more := names + [name];
    forall k: nat | k < |names| && IsLast(more, k) ensures more[k] != name && IsLast(names, k) {
      assert more[k + 1..] == names[k + 1..] + [name];
    }
  }

  lemma LastOfWhole(entries: map<string, Literal>, names: seq<string>, values: seq<Literal>, last: nat)
    requires |names| == |values| == last + 1 && LastOf(entries, names[..last], values[..last])
    ensures LastOf(entries[names[last] := values[last]], names, values)
  {
    LastOfNext(entries, names[..last], values[..last], names[last], values[last]);
    assert names == names[..last] + [names[last]] && values == values[..last] + [values[last]];
  }

  /** The entries are settled by the names and values. */
  lemma LastOfOnce(a: map<string, Literal>, b: map<string, Literal>, names: seq<string>, values: seq<Literal>)
    requires |names| == |values| && LastOf(a, names, values) && LastOf(b, names, values)
    ensures a == b
  {
    forall name | name in a ensures a[name] == b[name] {
      var k := LastPlace(names, name);
    }
  }

  lemma {:induction false} LastPlace(names: seq<string>, name: string) returns (k: nat)
    requires name in names
    ensures IsLast(names, k) && names[k] == name
  {
    var last := |names| - 1;
    if names[last] == name {
      k := last;
    } else {
      k := LastPlace(names[..last], name);
      assert names[k + 1..] == names[..last][k + 1..] + [names[last]];
    }
  }

  lemma {:induction false} PropertiesShow(properties: seq<Property>, t: Table, depth: nat)
    returns (names: seq<string>, values: seq<Literal>)
    requires PlainProperties(properties, t, depth).Some?
    ensures PropertiesTo(properties, t, names, values) && LastOf(PlainProperties(properties, t, depth).value, names, values)
  {
    if properties == [] {
      names, values := [], [];
    } else {
      var last := |properties| - 1;
      names, values := PropertiesShow(properties[..last], t, depth);
      PropertyShows(properties[last], t, depth);
      var entry := PlainProperty(properties[last], t, depth).value;
      LastOfNext(PlainProperties(properties[..last], t, depth).value, names, values, entry.0, entry.1);
      PropertiesToNext(properties, t, names, values, entry.0, entry.1);
      names, values := names + [entry.0], values + [entry.1];
    }
  }

  lemma PropertiesToNext(properties: seq<Property>, t: Table, names: seq<string>, values: seq<Literal>, name: string, v: Literal)
    requires properties != [] && PropertiesTo(properties[..|properties| - 1], t, names, values)
    requires PropertyTo(properties[|properties| - 1], t, name, v)
    ensures PropertiesTo(properties, t, names + [name], values + [v])
  {
    forall k | 0 <= k < |properties| ensures PropertyTo(properties[k], t, (names + [name])[k], (values + [v])[k]) {
      if k < |names| { assert PropertyTo(properties[..|properties| - 1][k], t, names[k], values[k]); }
    }
  }

  lemma {:induction false} PropertiesReached(properties: seq<Property>, t: Table, names: seq<string>, values: seq<Literal>)
    returns (depth: nat)
    requires PropertiesTo(properties, t, names, values)
    ensures PlainProperties(properties, t, depth).Some? && LastOf(PlainProperties(properties, t, depth).value, names, values)
  {
    if properties == [] {
      depth := 0;
    } else {
      var last := |properties| - 1;
      assert PropertyTo(properties[last], t, names[last], values[last]);
      var before := PropertiesReached(properties[..last], t, names[..last], values[..last]);
      var own := PropertyReached(properties[last], t, names[last], values[last]);
      depth := if own < before then before else own;
      MuchDeeperProperty(properties[last], t, own, depth);
      MuchDeeperProperties(properties[..last], t, before, depth);
      LastOfWhole(PlainProperties(properties[..last], t, depth).value, names, values, last);
    }
  }

  /** Every property has a name and a value, and the entries are the last of each name. */
  ghost predicate EntriesTo(properties: seq<Property>, t: Table, entries: map<string, Literal>) {
    exists names, values :: PropertiesTo(properties, t, names, values) && LastOf(entries, names, values)
  }

  lemma EntriesShow(properties: seq<Property>, t: Table, depth: nat)
    requires PlainProperties(properties, t, depth).Some?
    ensures EntriesTo(properties, t, PlainProperties(properties, t, depth).value)
  {
    var names, values := PropertiesShow(properties, t, depth);
  }

  lemma EntriesReached(properties: seq<Property>, t: Table, entries: map<string, Literal>) returns (depth: nat)
    requires EntriesTo(properties, t, entries)
    ensures PlainProperties(properties, t, depth) == Some(entries)
  {
    var names, values :| PropertiesTo(properties, t, names, values) && LastOf(entries, names, values);
    depth := PropertiesReached(properties, t, names, values);
    LastOfOnce(entries, PlainProperties(properties, t, depth).value, names, values);
  }

  /** An object evaluates property by property, a later one of the same name winning. */
  lemma ObjectLaw(properties: seq<Property>, t: Table, v: Literal)
    ensures EvaluatesTo(ObjectLiteral(properties), t, v) <==> v.ObjectValue? && EntriesTo(properties, t, v.entries)
  {
    if EvaluatesTo(ObjectLiteral(properties), t, v) {
      var depth: nat :| Plain(ObjectLiteral(properties), t, depth) == Some(v);
      EntriesShow(properties, t, depth);
    }
    if v.ObjectValue? && EntriesTo(properties, t, v.entries) {
      var depth := EntriesReached(properties, t, v.entries);
      assert Plain(ObjectLiteral(properties), t, depth) == Some(v);
    }
  }
}
