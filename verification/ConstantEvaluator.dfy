/**
 The constant evaluator of tools/eslint-fixture-scan.ts. `Eval` follows names through the
 constant table and cuts cycles with the set of names being resolved. `Plain` has no such
 set: it just evaluates, with `depth` bounding how many names deep it may go.
 */
module ConstantEvaluator {
  import opened Options

  datatype Expr =
    | Parenthesized(inner: Expr)
    | As(inner: Expr)
    | StringLiteral(text: string)
    | NumericLiteral(text: string)
    | PrefixUnary(operator: Operator, operand: Expr)
    | True
    | False
    | Null
    | Identifier(text: string)
    | ArrayLiteral(elements: seq<Element>)
    | ObjectLiteral(properties: seq<Property>)
    | Call(callee: Expr, arguments: seq<Expr>)
    | PropertyAccess(target: Expr, name: string)
    | OtherExpression

  datatype Operator = Minus | Plus | OtherOperator

  datatype Element = Item(expression: Expr) | Spread(expression: Expr) | Omitted

  datatype Property =
    | Shorthand(name: string)
    | Assignment(key: PropertyName, initializer: Expr)
    | OtherProperty

  datatype PropertyName = Fixed(text: string) | Computed(expression: Expr) | OtherName

  /** A value. A number is kept as its sign and the text of the literal. */
  datatype Literal =
    | Text(text: string)
    | Number(negative: bool, magnitude: string)
    | Boolean(value: bool)
    | NullValue
    | ArrayValue(items: seq<Literal>)
    | ObjectValue(entries: map<string, Literal>)

  /** The constants by name, and how a number reads when it is used as a property name. */
  datatype Table = Table(constants: map<string, Expr>, numberName: Literal -> string)

  /** The argument of a call `Object.freeze(x)`. */
  function FreezeArgument(e: Expr): Option<Expr> {
    if e.Call? && |e.arguments| == 1 && e.callee == PropertyAccess(Identifier("Object"), "freeze")
    then Some(e.arguments[0]) else None
  }

  function Signed(e: Expr): Option<Literal>
    requires e.PrefixUnary?
  {
    if (e.operator.Minus? || e.operator.Plus?) && e.operand.NumericLiteral?
    then Some(Number(e.operator.Minus?, e.operand.text)) else None
  }

  function NameOf(v: Option<Literal>, t: Table): Option<string> {
    if v.None? then None
    else
      match v.value
      case Text(text) => Some(text)
      case Number(_, _) => Some(t.numberName(v.value))
      case _ => None
  }

  function Prepend(head: Option<Literal>, tail: Option<seq<Literal>>): Option<seq<Literal>> {
    if head.None? || tail.None? then None else Some([head.value] + tail.value)
  }

  /** Names not yet being resolved; following a name uses one up. */
  ghost function Unvisited(t: Table, resolving: set<string>): nat {
    |t.constants.Keys - resolving|
  }

  lemma FollowingUsesUp(t: Table, resolving: set<string>, name: string)
    requires name in t.constants && name !in resolving
    ensures Unvisited(t, resolving + {name}) == Unvisited(t, resolving) - 1
  {
    assert t.constants.Keys - (resolving + {name}) == t.constants.Keys - resolving - {name};
  }

  ghost function Eval(e: Expr, t: Table, resolving: set<string>): Option<Literal>
    decreases Unvisited(t, resolving), e
  {
    match e
    case Parenthesized(inner) => Eval(inner, t, resolving)
    case As(inner) => Eval(inner, t, resolving)
    case StringLiteral(text) => Some(Text(text))
    case NumericLiteral(text) => Some(Number(false, text))
    case PrefixUnary(_, _) => Signed(e)
    case True => Some(Boolean(true))
    case False => Some(Boolean(false))
    case Null => Some(NullValue)
    case Identifier(name) =>
      if name !in t.constants || name in resolving then None
      else FollowingUsesUp(t, resolving, name); Eval(t.constants[name], t, resolving + {name})
    case ArrayLiteral(elements) =>
      var items := EvalElements(elements, t, resolving);
      if items.None? then None else Some(ArrayValue(items.value))
    case ObjectLiteral(properties) =>
      var entries := EvalProperties(properties, t, resolving);
      if entries.None? then None else Some(ObjectValue(entries.value))
    case Call(_, arguments) =>
      if FreezeArgument(e).Some? then Eval(arguments[0], t, resolving) else None
    case _ => None
  }

  ghost function EvalElements(elements: seq<Element>, t: Table, resolving: set<string>): Option<seq<Literal>>
    decreases Unvisited(t, resolving), elements
  {
    if elements == [] then Some([])
    else Prepend(EvalElement(elements[0], t, resolving), EvalElements(elements[1..], t, resolving))
  }

  ghost function EvalElement(element: Element, t: Table, resolving: set<string>): Option<Literal>
    decreases Unvisited(t, resolving), element
  {
    if element.Item? then Eval(element.expression, t, resolving) else None
  }

  /** The properties from the last one back, so that a later one of the same name wins. */
  ghost function EvalProperties(properties: seq<Property>, t: Table, resolving: set<string>): Option<map<string, Literal>>
    decreases Unvisited(t, resolving), properties
  {
    if properties == [] then Some(map[])
    else
      var last := |properties| - 1;
      var before := EvalProperties(properties[..last], t, resolving);
      var entry := EvalProperty(properties[last], t, resolving);
      if before.None? || entry.None? then None else Some(before.value[entry.value.0 := entry.value.1])
  }

  ghost function EvalProperty(p: Property, t: Table, resolving: set<string>): Option<(string, Literal)>
    decreases Unvisited(t, resolving), p
  {
    match p
    case Shorthand(name) =>
      if name !in t.constants || name in resolving then None
      else
        FollowingUsesUp(t, resolving, name);
        var v := Eval(t.constants[name], t, resolving + {name});
        if v.None? then None else Some((name, v.value))
    case Assignment(key, initializer) =>
      var name := match key
        case Fixed(text) => Some(text)
        case Computed(expression) => NameOf(Eval(expression, t, resolving), t)
        case OtherName => None;
      var v := Eval(initializer, t, resolving);
      if name.None? || v.None? then None else Some((name.value, v.value))
    case OtherProperty => None
  }

  /** Evaluation without the set: plain recursion, at most `depth` names deep. */
  ghost function Plain(e: Expr, t: Table, depth: nat): Option<Literal>
    decreases depth, e
  {
    match e
    case Parenthesized(inner) => Plain(inner, t, depth)
    case As(inner) => Plain(inner, t, depth)
    case StringLiteral(text) => Some(Text(text))
    case NumericLiteral(text) => Some(Number(false, text))
    case PrefixUnary(_, _) => Signed(e)
    case True => Some(Boolean(true))
    case False => Some(Boolean(false))
    case Null => Some(NullValue)
    case Identifier(name) =>
      if name !in t.constants || depth == 0 then None else Plain(t.constants[name], t, depth - 1)
    case ArrayLiteral(elements) =>
      var items := PlainElements(elements, t, depth);
      if items.None? then None else Some(ArrayValue(items.value))
    case ObjectLiteral(properties) =>
      var entries := PlainProperties(properties, t, depth);
      if entries.None? then None else Some(ObjectValue(entries.value))
    case Call(_, arguments) =>
      if FreezeArgument(e).Some? then Plain(arguments[0], t, depth) else None
    case _ => None
  }

  ghost function PlainElements(elements: seq<Element>, t: Table, depth: nat): Option<seq<Literal>>
    decreases depth, elements
  {
    if elements == [] then Some([])
    else Prepend(PlainElement(elements[0], t, depth), PlainElements(elements[1..], t, depth))
  }

  ghost function PlainElement(element: Element, t: Table, depth: nat): Option<Literal>
    decreases depth, element
  {
    if element.Item? then Plain(element.expression, t, depth) else None
  }

  ghost function PlainProperties(properties: seq<Property>, t: Table, depth: nat): Option<map<string, Literal>>
    decreases depth, properties
  {
    if properties == [] then Some(map[])
    else
      var last := |properties| - 1;
      var before := PlainProperties(properties[..last], t, depth);
      var entry := PlainProperty(properties[last], t, depth);
      if before.None? || entry.None? then None else Some(before.value[entry.value.0 := entry.value.1])
  }

  ghost function PlainProperty(p: Property, t: Table, depth: nat): Option<(string, Literal)>
    decreases depth, p
  {
    match p
    case Shorthand(name) =>
      if name !in t.constants || depth == 0 then None
      else
        var v := Plain(t.constants[name], t, depth - 1);
        if v.None? then None else Some((name, v.value))
    case Assignment(key, initializer) =>
      var name := match key
        case Fixed(text) => Some(text)
        case Computed(expression) => NameOf(Plain(expression, t, depth), t)
        case OtherName => None;
      var v := Plain(initializer, t, depth);
      if name.None? || v.None? then None else Some((name.value, v.value))
    case OtherProperty => None
  }

  /** Unguarded evaluation ends with the value. */
  ghost predicate EvaluatesTo(e: Expr, t: Table, v: Literal) {
    exists depth :: Plain(e, t, depth) == Some(v)
  }

  // More depth never changes a value that was found.

  lemma {:induction false} Deeper(e: Expr, t: Table, depth: nat)
    ensures Plain(e, t, depth).Some? ==> Plain(e, t, depth + 1) == Plain(e, t, depth)
    decreases depth, e
  {
    match e
    case Parenthesized(inner) => Deeper(inner, t, depth);
    case As(inner) => Deeper(inner, t, depth);
    case Identifier(name) => if name in t.constants && depth > 0 { Deeper(t.constants[name], t, depth - 1); }
    case ArrayLiteral(elements) => DeeperElements(elements, t, depth);
    case ObjectLiteral(properties) => DeeperProperties(properties, t, depth);
    case Call(_, arguments) => if FreezeArgument(e).Some? { Deeper(arguments[0], t, depth); }
    case _ =>
  }

  lemma {:induction false} DeeperElements(elements: seq<Element>, t: Table, depth: nat)
    ensures PlainElements(elements, t, depth).Some? ==> PlainElements(elements, t, depth + 1) == PlainElements(elements, t, depth)
    decreases depth, elements
  {
    if elements != [] {
      DeeperElement(elements[0], t, depth);
      DeeperElements(elements[1..], t, depth);
    }
  }

  lemma {:induction false} DeeperElement(element: Element, t: Table, depth: nat)
    ensures PlainElement(element, t, depth).Some? ==> PlainElement(element, t, depth + 1) == PlainElement(element, t, depth)
    decreases depth, element
  {
    if element.Item? { Deeper(element.expression, t, depth); }
  }

  lemma {:induction false} DeeperProperties(properties: seq<Property>, t: Table, depth: nat)
    ensures PlainProperties(properties, t, depth).Some?
        ==> PlainProperties(properties, t, depth + 1) == PlainProperties(properties, t, depth)
    decreases depth, properties
  {
    if properties != [] {
      DeeperProperties(properties[..|properties| - 1], t, depth);
      DeeperProperty(properties[|properties| - 1], t, depth);
    }
  }

  lemma {:induction false} DeeperProperty(p: Property, t: Table, depth: nat)
    ensures PlainProperty(p, t, depth).Some? ==> PlainProperty(p, t, depth + 1) == PlainProperty(p, t, depth)
    decreases depth, p
  {
    match p
    case Shorthand(name) => if name in t.constants && depth > 0 { Deeper(t.constants[name], t, depth - 1); }
    case Assignment(key, initializer) =>
      if key.Computed? { Deeper(key.expression, t, depth); }
      Deeper(initializer, t, depth);
    case OtherProperty =>
  }

  lemma {:induction false} MuchDeeper(e: Expr, t: Table, depth: nat, more: nat)
    requires depth <= more && Plain(e, t, depth).Some?
    ensures Plain(e, t, more) == Plain(e, t, depth)
    decreases more - depth
  {
    if depth < more {
      Deeper(e, t, depth);
      MuchDeeper(e, t, depth + 1, more);
    }
  }

  // Soundness: what the guarded evaluator finds, plain evaluation finds, no deeper than there are names.

  lemma {:induction false} SoundName(name: string, t: Table, resolving: set<string>)
    ensures var e := Identifier(name);
      Eval(e, t, resolving).Some? ==> Plain(e, t, Unvisited(t, resolving)) == Eval(e, t, resolving)
    decreases Unvisited(t, resolving), 0
  {
    if name in t.constants && name !in resolving {
      FollowingUsesUp(t, resolving, name);
      Sound(t.constants[name], t, resolving + {name});
    }
  }

  lemma {:induction false} Sound(e: Expr, t: Table, resolving: set<string>)
    ensures Eval(e, t, resolving).Some? ==> Plain(e, t, Unvisited(t, resolving)) == Eval(e, t, resolving)
    decreases Unvisited(t, resolving), 1, e
  {
    match e
    case Parenthesized(inner) => Sound(inner, t, resolving);
    case As(inner) => Sound(inner, t, resolving);
    case Identifier(name) => SoundName(name, t, resolving);
    case ArrayLiteral(elements) => SoundElements(elements, t, resolving);
    case ObjectLiteral(properties) => SoundProperties(properties, t, resolving);
    case Call(_, arguments) => if FreezeArgument(e).Some? { Sound(arguments[0], t, resolving); }
    case _ =>
  }

  lemma {:induction false} SoundElements(elements: seq<Element>, t: Table, resolving: set<string>)
    ensures EvalElements(elements, t, resolving).Some?
        ==> PlainElements(elements, t, Unvisited(t, resolving)) == EvalElements(elements, t, resolving)
    decreases Unvisited(t, resolving), 1, elements
  {
    if elements != [] {
      SoundElement(elements[0], t, resolving);
      SoundElements(elements[1..], t, resolving);
    }
  }

  lemma {:induction false} SoundElement(element: Element, t: Table, resolving: set<string>)
    ensures EvalElement(element, t, resolving).Some?
        ==> PlainElement(element, t, Unvisited(t, resolving)) == EvalElement(element, t, resolving)
    decreases Unvisited(t, resolving), 1, element
  {
    if element.Item? { Sound(element.expression, t, resolving); }
  }

  lemma {:induction false} SoundProperties(properties: seq<Property>, t: Table, resolving: set<string>)
    ensures EvalProperties(properties, t, resolving).Some?
        ==> PlainProperties(properties, t, Unvisited(t, resolving)) == EvalProperties(properties, t, resolving)
    decreases Unvisited(t, resolving), 1, properties
  {
    if properties != [] {
      SoundProperties(properties[..|properties| - 1], t, resolving);
      SoundProperty(properties[|properties| - 1], t, resolving);
    }
  }

  lemma {:induction false} SoundProperty(p: Property, t: Table, resolving: set<string>)
    ensures EvalProperty(p, t, resolving).Some?
        ==> PlainProperty(p, t, Unvisited(t, resolving)) == EvalProperty(p, t, resolving)
    decreases Unvisited(t, resolving), 1, p
  {
    match p
    case Shorthand(name) => SoundName(name, t, resolving);
    case Assignment(key, initializer) =>
      if key.Computed? { Sound(key.expression, t, resolving); }
      Sound(initializer, t, resolving);
    case OtherProperty =>
  }

  // Completeness: a name whose evaluation ends is never met again below itself.

  /** The names being resolved have no value this shallow. */
  ghost predicate NoneEndsWithin(t: Table, resolving: set<string>, depth: nat) {
    forall name :: name in resolving ==> Plain(Identifier(name), t, depth).None?
  }

  lemma {:induction false} LeastDepth(name: string, t: Table, depth: nat) returns (least: nat)
    requires Plain(Identifier(name), t, depth).Some?
    ensures 1 <= least <= depth && Plain(Identifier(name), t, least) == Plain(Identifier(name), t, depth)
    ensures Plain(Identifier(name), t, least - 1).None?
  {
    if Plain(Identifier(name), t, depth - 1).None? {
      least := depth;
    } else {
      Deeper(Identifier(name), t, depth - 1);
      least := LeastDepth(name, t, depth - 1);
    }
  }

  lemma {:induction false} StillNone(t: Table, resolving: set<string>, less: nat, depth: nat)
    requires less <= depth && NoneEndsWithin(t, resolving, depth)
    ensures NoneEndsWithin(t, resolving, less)
  {
    forall name | name in resolving ensures Plain(Identifier(name), t, less).None? {
      if Plain(Identifier(name), t, less).Some? { MuchDeeper(Identifier(name), t, less, depth); }
    }
  }

  lemma {:induction false} CompleteName(name: string, t: Table, depth: nat, resolving: set<string>)
    requires name in t.constants && Plain(Identifier(name), t, depth).Some? && NoneEndsWithin(t, resolving, depth)
    ensures name !in resolving && Eval(t.constants[name], t, resolving + {name}) == Plain(Identifier(name), t, depth)
    decreases depth, 0
  {
    var least := LeastDepth(name, t, depth);
    StillNone(t, resolving, least - 1, depth);
    Complete(t.constants[name], t, least - 1, resolving + {name});
  }

  lemma {:induction false} Complete(e: Expr, t: Table, depth: nat, resolving: set<string>)
    requires NoneEndsWithin(t, resolving, depth)
    ensures Plain(e, t, depth).Some? ==> Eval(e, t, resolving) == Plain(e, t, depth)
    decreases depth, 1, e
  {
    match e
    case Parenthesized(inner) => Complete(inner, t, depth, resolving);
    case As(inner) => Complete(inner, t, depth, resolving);
    case Identifier(name) => if Plain(e, t, depth).Some? { CompleteName(name, t, depth, resolving); }
    case ArrayLiteral(elements) => CompleteElements(elements, t, depth, resolving);
    case ObjectLiteral(properties) => CompleteProperties(properties, t, depth, resolving);
    case Call(_, arguments) => if FreezeArgument(e).Some? { Complete(arguments[0], t, depth, resolving); }
    case _ =>
  }

  lemma {:induction false} CompleteElements(elements: seq<Element>, t: Table, depth: nat, resolving: set<string>)
    requires NoneEndsWithin(t, resolving, depth)
    ensures PlainElements(elements, t, depth).Some? ==> EvalElements(elements, t, resolving) == PlainElements(elements, t, depth)
    decreases depth, 1, elements
  {
    if elements != [] {
      CompleteElement(elements[0], t, depth, resolving);
      CompleteElements(elements[1..], t, depth, resolving);
    }
  }

  lemma {:induction false} CompleteElement(element: Element, t: Table, depth: nat, resolving: set<string>)
    requires NoneEndsWithin(t, resolving, depth)
    ensures PlainElement(element, t, depth).Some? ==> EvalElement(element, t, resolving) == PlainElement(element, t, depth)
    decreases depth, 1, element
  {
    if element.Item? { Complete(element.expression, t, depth, resolving); }
  }

  lemma {:induction false} CompleteProperties(properties: seq<Property>, t: Table, depth: nat, resolving: set<string>)
    requires NoneEndsWithin(t, resolving, depth)
    ensures PlainProperties(properties, t, depth).Some?
        ==> EvalProperties(properties, t, resolving) == PlainProperties(properties, t, depth)
    decreases depth, 1, properties
  {
    if properties != [] {
      CompleteProperties(properties[..|properties| - 1], t, depth, resolving);
      CompleteProperty(properties[|properties| - 1], t, depth, resolving);
    }
  }

  lemma {:induction false} CompleteProperty(p: Property, t: Table, depth: nat, resolving: set<string>)
    requires NoneEndsWithin(t, resolving, depth)
    ensures PlainProperty(p, t, depth).Some? ==> EvalProperty(p, t, resolving) == PlainProperty(p, t, depth)
    decreases depth, 1, p
  {
    match p
    case Shorthand(name) => if Plain(Identifier(name), t, depth).Some? { CompleteName(name, t, depth, resolving); }
    case Assignment(key, initializer) =>
      if key.Computed? { Complete(key.expression, t, depth, resolving); }
      Complete(initializer, t, depth, resolving);
    case OtherProperty =>
  }

  /**
   On any table, with cycles or without, the evaluator returns a value exactly when unguarded
   recursive evaluation ends, and it is the same value.
   */
  lemma EvaluatorIsExact(e: Expr, t: Table, v: Literal)
    ensures Eval(e, t, {}) == Some(v) <==> EvaluatesTo(e, t, v)
  {
    Sound(e, t, {});
    if EvaluatesTo(e, t, v) {
      var depth :| Plain(e, t, depth) == Some(v);
      Complete(e, t, depth, {});
    }
  }

  // The evaluator as written: loops over elements and properties.

  method SourceLiteral(e: Expr, t: Table, resolving: set<string>) returns (v: Option<Literal>)
    ensures v == Eval(e, t, resolving)
    ensures resolving == {} && v.Some? ==> EvaluatesTo(e, t, v.value)
    ensures resolving == {} && v.None? ==> !exists w :: EvaluatesTo(e, t, w)
    decreases Unvisited(t, resolving), e
  {
    if resolving == {} {
      forall w ensures Eval(e, t, {}) == Some(w) <==> EvaluatesTo(e, t, w) { EvaluatorIsExact(e, t, w); }
    }
    match e {
      case Parenthesized(inner) => v := SourceLiteral(inner, t, resolving);
      case As(inner) => v := SourceLiteral(inner, t, resolving);
      case StringLiteral(text) => v := Some(Text(text));
      case NumericLiteral(text) => v := Some(Number(false, text));
      case PrefixUnary(_, _) => v := Signed(e);
      case True => v := Some(Boolean(true));
      case False => v := Some(Boolean(false));
      case Null => v := Some(NullValue);
      case Identifier(name) =>
        if name !in t.constants || name in resolving { return None; }
        FollowingUsesUp(t, resolving, name);
        v := SourceLiteral(t.constants[name], t, resolving + {name});
      case ArrayLiteral(elements) => v := SourceArrayLiteral(elements, t, resolving);
      case ObjectLiteral(properties) => v := SourceObjectLiteral(properties, t, resolving);
      case Call(_, arguments) =>
        if FreezeArgument(e).None? { return None; }
        v := SourceLiteral(arguments[0], t, resolving);
      case _ => v := None;
    }
  }

  lemma {:induction false} ElementsAppend(done: seq<Element>, element: Element, t: Table, resolving: set<string>)
    ensures EvalElements(done + [element], t, resolving)
         == if EvalElements(done, t, resolving).None? || EvalElement(element, t, resolving).None? then None
            else Some(EvalElements(done, t, resolving).value + [EvalElement(element, t, resolving).value])
    decreases done
  {
    if done == [] {
      assert done + [element] == [element] && [element][1..] == [];
      assert EvalElements([], t, resolving) == Some([]);
      var v := EvalElement(element, t, resolving);
      if v.Some? { assert [v.value] + [] == [] + [v.value]; }
    } else {
      assert (done + [element])[1..] == done[1..] + [element] && (done + [element])[0] == done[0];
      ElementsAppend(done[1..], element, t, resolving);
      var head, rest, last := EvalElement(done[0], t, resolving), EvalElements(done[1..], t, resolving), EvalElement(element, t, resolving);
      if head.Some? && rest.Some? && last.Some? {
        assert [head.value] + (rest.value + [last.value]) == ([head.value] + rest.value) + [last.value];
      }
    }
  }

  lemma {:induction false} ElementsFailOn(elements: seq<Element>, i: nat, t: Table, resolving: set<string>)
    requires i <= |elements| && EvalElements(elements[..i], t, resolving).None?
    ensures EvalElements(elements, t, resolving).None?
    decreases |elements| - i
  {
    if i < |elements| {
      ElementsAppend(elements[..i], elements[i], t, resolving);
      assert elements[..i] + [elements[i]] == elements[..i + 1];
      ElementsFailOn(elements, i + 1, t, resolving);
    } else {
      assert elements[..i] == elements;
    }
  }

  method SourceArrayLiteral(elements: seq<Element>, t: Table, resolving: set<string>) returns (v: Option<Literal>)
    ensures v == Eval(ArrayLiteral(elements), t, resolving)
    decreases Unvisited(t, resolving), elements
  {
    var values: seq<Literal> := [];
    for i := 0 to |elements|
      invariant EvalElements(elements[..i], t, resolving) == Some(values)
    {
      var element := elements[i];
      ElementsAppend(elements[..i], element, t, resolving);
      assert elements[..i] + [element] == elements[..i + 1];
      var value := SourceElement(element, t, resolving);
      if value.None? {
        ElementsFailOn(elements, i + 1, t, resolving);
        return None;
      }
      values := values + [value.value];
    }
    assert elements[..|elements|] == elements;
    return Some(ArrayValue(values));
  }

  method SourceElement(element: Element, t: Table, resolving: set<string>) returns (v: Option<Literal>)
    ensures v == EvalElement(element, t, resolving)
    decreases Unvisited(t, resolving), element
  {
    if !element.Item? { return None; }
    v := SourceLiteral(element.expression, t, resolving);
  }

  lemma {:induction false} PropertiesFailOn(properties: seq<Property>, i: nat, t: Table, resolving: set<string>)
    requires i <= |properties| && EvalProperties(properties[..i], t, resolving).None?
    ensures EvalProperties(properties, t, resolving).None?
    decreases |properties| - i
  {
    if i < |properties| {
      assert properties[..i + 1][..i] == properties[..i];
      PropertiesFailOn(properties, i + 1, t, resolving);
    } else {
      assert properties[..i] == properties;
    }
  }

  method SourceObjectLiteral(properties: seq<Property>, t: Table, resolving: set<string>) returns (v: Option<Literal>)
    ensures v == Eval(ObjectLiteral(properties), t, resolving)
    decreases Unvisited(t, resolving), properties
  {
    var value: map<string, Literal> := map[];
    for i := 0 to |properties|
      invariant EvalProperties(properties[..i], t, resolving) == Some(value)
    {
      assert properties[..i + 1][..i] == properties[..i];
      var entry := SourcePropertyLiteral(properties[i], t, resolving);
      if entry.None? {
        PropertiesFailOn(properties, i + 1, t, resolving);
        return None;
      }
      value := value[entry.value.0 := entry.value.1];
    }
    assert properties[..|properties|] == properties;
    return Some(ObjectValue(value));
  }

  method SourcePropertyLiteral(p: Property, t: Table, resolving: set<string>) returns (entry: Option<(string, Literal)>)
    ensures entry == EvalProperty(p, t, resolving)
    decreases Unvisited(t, resolving), p
  {
    match p {
      case Shorthand(name) =>
        if name !in t.constants || name in resolving { return None; }
        FollowingUsesUp(t, resolving, name);
        var v := SourceLiteral(t.constants[name], t, resolving + {name});
        return if v.None? then None else Some((name, v.value));
      case Assignment(key, initializer) =>
        var name: Option<string> := None;
        match key {
          case Fixed(text) => name := Some(text);
          case Computed(expression) =>
            var computed := SourceLiteral(expression, t, resolving);
            name := NameOf(computed, t);
          case OtherName =>
        }
        if name.None? { return None; }
        var v := SourceLiteral(initializer, t, resolving);
        return if v.None? then None else Some((name.value, v.value));
      case OtherProperty => return None;
    }
  }

  datatype Declaration = Declaration(name: string, initializer: Expr)

  ghost predicate DeclaredOnce(declarations: seq<Declaration>, name: string, initializer: Expr) {
    exists i :: 0 <= i < |declarations| && declarations[i] == Declaration(name, initializer)
                && forall j :: 0 <= j < |declarations| && declarations[j].name == name ==> j == i
  }

  /** After `i` declarations: each name's first place, and another place for each that came again. */
  ghost predicate Scanned(declarations: seq<Declaration>, i: nat, constants: map<string, Expr>, first: map<string, nat>, again: map<string, nat>)
    requires i <= |declarations|
  {
    && constants.Keys == first.Keys
    && (forall name :: name in first ==> first[name] < i && declarations[first[name]] == Declaration(name, constants[name]))
    && (forall j :: 0 <= j < i ==> declarations[j].name in first)
    && (forall j :: 0 <= j < i ==> j == first[declarations[j].name] || declarations[j].name in again)
    && (forall name :: name in again ==> name in first && first[name] != again[name] < i && declarations[again[name]].name == name)
  }

  lemma ScannedAgain(declarations: seq<Declaration>, i: nat, constants: map<string, Expr>, first: map<string, nat>, again: map<string, nat>)
    requires i < |declarations| && Scanned(declarations, i, constants, first, again) && declarations[i].name in constants
    ensures Scanned(declarations, i + 1, constants, first, again[declarations[i].name := i])
  {
  }

  lemma ScannedFirst(declarations: seq<Declaration>, i: nat, constants: map<string, Expr>, first: map<string, nat>, again: map<string, nat>)
    requires i < |declarations| && Scanned(declarations, i, constants, first, again) && declarations[i].name !in constants
    ensures Scanned(declarations, i + 1, constants[declarations[i].name := declarations[i].initializer], first[declarations[i].name := i], again)
  {
  }

  lemma ScannedAll(declarations: seq<Declaration>, constants: map<string, Expr>, first: map<string, nat>, again: map<string, nat>)
    requires Scanned(declarations, |declarations|, constants, first, again)
    ensures forall name :: name in constants && name !in again ==> DeclaredOnce(declarations, name, constants[name])
    ensures forall name, initializer :: DeclaredOnce(declarations, name, initializer) ==> name in constants && name !in again
  {
    forall name | name in constants && name !in again ensures DeclaredOnce(declarations, name, constants[name]) {
      var i := first[name];
      assert declarations[i] == Declaration(name, constants[name]);
    }
  }

  /** The constants of a file: the names that are declared exactly once, wherever that is. */
  method SourceConstants(declarations: seq<Declaration>) returns (constants: map<string, Expr>)
    ensures forall name :: name in constants ==> DeclaredOnce(declarations, name, constants[name])
    ensures forall name, initializer :: DeclaredOnce(declarations, name, initializer) ==> name in constants
  {
    constants := map[];
    var ambiguous: set<string> := {};
    ghost var first: map<string, nat>, again: map<string, nat> := map[], map[];
    for i := 0 to |declarations|
      invariant Scanned(declarations, i, constants, first, again) && ambiguous == again.Keys
    {
      var declaration := declarations[i];
      if declaration.name in constants {
        ScannedAgain(declarations, i, constants, first, again);
        ambiguous, again := ambiguous + {declaration.name}, again[declaration.name := i];
      } else {
        ScannedFirst(declarations, i, constants, first, again);
        constants, first := constants[declaration.name := declaration.initializer], first[declaration.name := i];
      }
    }
    ScannedAll(declarations, constants, first, again);
    constants := constants - ambiguous;
  }
}
