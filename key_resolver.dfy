/**
 * The lock-key builder: the key is the annotation's delimiter joining an
 * optional prefix, then the parts taken from tagged parameters and tagged
 * fields, then the parts the key expressions yield. Reflection becomes a
 * small value model; the expression language and the property reader are
 * the two functions of an `Interpreter`, left uninterpreted.
 */
module KeyResolver {
  import opened Wrappers
  import opened JavaText
  import opened LockConfig

  // ---------------------------------------------------------------- values

  /** A runtime class: its name, whether it is primitive, and every type it is assignable to. */
  datatype JavaClass = JavaClass(name: string, primitive: bool, supertypes: set<string>)

  /** A `@LockKeyParam` annotation; its `value` is a property path, `null` only in principle. */
  datatype KeyParam = KeyParam(value: Option<string>)

  /** A declared field of an object: its name, its `@LockKeyParam` if any, its value (`None` is `null`). */
  datatype Field = Field(name: string, keyParam: Option<KeyParam>, value: Option<Value>)

  /**
   * A non-null runtime value: an object of a class, with its `toString()` text
   * and its declared fields in declaration order, or an array of (nullable)
   * elements, whose class declares no fields.
   */
  datatype Value =
    | Object(cls: JavaClass, text: string, fields: seq<Field>)
    | Array(text: string, elements: seq<Option<Value>>)

  /** The named variables an expression is evaluated against. */
  type Bag = map<string, Option<Value>>

  /**
   * The foreign parts: evaluating a key expression against the variables
   * (`None` when the result is `null` or the evaluation throws, which the
   * builder treats alike), and reading a property path of a non-null value.
   */
  datatype Interpreter = Interpreter(
    evaluate: (string, Bag) -> Option<Value>,
    readProperty: (Value, string) -> Option<Value>)

  /** A declared parameter of the intercepted method, with its `@LockKeyParam` if any. */
  datatype Parameter = Parameter(keyParam: Option<KeyParam>)

  /** The intercepted method: its parameters, and their names when the compiler kept them. */
  datatype MethodInfo = MethodInfo(params: seq<Parameter>, names: Option<seq<string>>)

  /** Reflection hands over one argument per parameter, and one name per parameter when names are known. */
  predicate MatchesArgs(m: MethodInfo, args: seq<Option<Value>>) {
    && |m.params| == |args|
    && (m.names.Some? ==> |m.names.value| == |args|)
  }

  const NumberClass := "java.lang.Number"
  const CharSequenceClass := "java.lang.CharSequence"
  const BooleanClass := "java.lang.Boolean"
  const CharacterClass := "java.lang.Character"

  // ---------------------------------------------------------- the pieces

  /** Primitives, numbers, character sequences, booleans and characters are simple. */
  predicate IsSimple(v: Value) {
    v.Object? &&
    (|| v.cls.primitive
     || NumberClass in v.cls.supertypes
     || CharSequenceClass in v.cls.supertypes
     || BooleanClass in v.cls.supertypes
     || CharacterClass in v.cls.supertypes)
  }

  /** A path is trimmed; a `null` path is empty. */
  function Sanitize(s: Option<string>): (r: string)
    ensures s.None? ==> r == []
    ensures s.Some? ==> IsTrimOf(r, s.value)
  {
    if s.None? then [] else TrimRemovesEndSpace(s.value); Trim(s.value)
  }

  /** `String.valueOf` of a non-null value. */
  function Render(v: Value): string {
    v.text
  }

  /** The declared fields of a value's class. */
  function DeclaredFields(v: Value): seq<Field> {
    if v.Object? then v.fields else []
  }

  /** What one field of a compound value contributes: nothing unless it is tagged and yields a non-null value. */
  function FieldPart(f: Field, interp: Interpreter): seq<string> {
    if f.keyParam.None? then []
    else
      var path := Sanitize(f.keyParam.value.value);
      var val := if path != [] && f.value.Some? then interp.readProperty(f.value.value, path) else f.value;
      if val.Some? then [Render(val.value)] else []
  }

  /** The lists of `xss`, one after another. */
  function Concat<T>(xss: seq<seq<T>>): seq<T> {
    if xss == [] then [] else Concat(xss[..|xss| - 1]) + xss[|xss| - 1]
  }

  /** One more list adds its elements at the end. */
  lemma ConcatSnoc<T>(xss: seq<seq<T>>, xs: seq<T>)
    ensures Concat(xss + [xs]) == Concat(xss) + xs
  {
    assert (xss + [xs])[..|xss|] == xss;
  }

  /** Concatenating two runs of lists is concatenating each run, then the results. */
  lemma {:induction false} ConcatAppend<T>(a: seq<seq<T>>, b: seq<seq<T>>)
    ensures Concat(a + b) == Concat(a) + Concat(b)
    decreases |b|
  {
    if b == [] {
      assert a + b == a;
    } else {
      var n := |b| - 1;
      assert a + b == (a + b[..n]) + [b[n]];
      ConcatSnoc(a + b[..n], b[n]);
      ConcatAppend(a, b[..n]);
      ConcatSnoc(b[..n], b[n]);
      assert b == b[..n] + [b[n]];
    }
  }

  /** Each field's contribution, in declaration order. */
  function FieldContributions(fields: seq<Field>, interp: Interpreter): (r: seq<seq<string>>)
    ensures |r| == |fields|
  {
    seq(|fields|, i requires 0 <= i < |fields| => FieldPart(fields[i], interp))
  }

  /** The fields' parts, in declaration order. */
  function FieldParts(fields: seq<Field>, interp: Interpreter): seq<string> {
    Concat(FieldContributions(fields, interp))
  }

  /** The tagged fields' parts of a value; nothing for `null` and for simple values. */
  function AnnotatedFields(bean: Option<Value>, interp: Interpreter): seq<string> {
    if bean.None? || IsSimple(bean.value) then [] else FieldParts(DeclaredFields(bean.value), interp)
  }

  /** What one parameter contributes, given its argument. */
  function ParamPart(param: Parameter, arg: Option<Value>, interp: Interpreter): seq<string> {
    match param.keyParam
    case None => AnnotatedFields(arg, interp)
    case Some(kp) =>
      var path := Sanitize(kp.value);
      if arg.None? then []
      else if path == [] then
        if IsSimple(arg.value) then [Render(arg.value)] else AnnotatedFields(arg, interp)
      else
        var v := interp.readProperty(arg.value, path);
        if v.Some? then [Render(v.value)] else []
  }

  /** Each parameter's contribution, in declared order. */
  function ParamContributions(params: seq<Parameter>, args: seq<Option<Value>>, interp: Interpreter)
    : (r: seq<seq<string>>)
    requires |params| == |args|
    ensures |r| == |params|
  {
    seq(|params|, i requires 0 <= i < |params| => ParamPart(params[i], args[i], interp))
  }

  /** The parameter-derived parts, in declared order. */
  function ParamParts(params: seq<Parameter>, args: seq<Option<Value>>, interp: Interpreter): seq<string>
    requires |params| == |args|
  {
    Concat(ParamContributions(params, args, interp))
  }

  // -------------------------------------------------------- the variables

  /** The names under which argument `i` is bound besides its declared name. */
  function IndexName(prefix: string, i: nat): string {
    prefix + Decimal(i)
  }

  /** The bag after binding the first `n` declared names to their arguments. */
  function BindNames(names: seq<string>, args: seq<Option<Value>>, n: nat): Bag
    requires n <= |names| <= |args|
  {
    if n == 0 then map[] else BindNames(names, args, n - 1)[names[n - 1] := args[n - 1]]
  }

  /** `bag` after binding the first `n` arguments under `p{i}`, `a{i}` and `arg{i}`. */
  function BindIndices(bag: Bag, args: seq<Option<Value>>, n: nat): Bag
    requires n <= |args|
  {
    if n == 0 then bag
    else BindIndices(bag, args, n - 1)[IndexName("p", n - 1) := args[n - 1]]
                                      [IndexName("a", n - 1) := args[n - 1]]
                                      [IndexName("arg", n - 1) := args[n - 1]]
  }

  /** Every variable of a call: declared names, then the index names, then `args` for the whole array. */
  function VariableBag(m: MethodInfo, args: seq<Option<Value>>, argsText: string): Bag
    requires MatchesArgs(m, args)
  {
    var names := if m.names.Some? then m.names.value else [];
    BindIndices(BindNames(names, args, |names|), args, |args|)["args" := Some(Array(argsText, args))]
  }

  // ------------------------------------------------------ the expressions

  /** Reads the property path `tokens` of `v` one step at a time, stopping at the first `null`. */
  function Walk(v: Value, tokens: seq<string>, interp: Interpreter): Option<Value>
    decreases |tokens|
  {
    if tokens == [] then Some(v)
    else
      var next := interp.readProperty(v, tokens[0]);
      if next.None? then None else Walk(next.value, tokens[1..], interp)
  }

  /** The expression with surrounding space and one leading `#` removed. */
  function StripHash(keyExpr: string): string {
    var e := Trim(keyExpr);
    if e != [] && e[0] == '#' then e[1..] else e
  }

  /**
   * The fallback for a key expression: look its first dotted token up among
   * the variables and walk the rest as a property path.
   */
  function Fallback(keyExpr: string, bag: Bag, interp: Interpreter): seq<string> {
    var tokens := SplitDots(StripHash(keyExpr));
    if tokens == [] then []
    else
      var base := if tokens[0] in bag then bag[tokens[0]] else None;
      if base.None? then []
      else
        var v := Walk(base.value, tokens[1..], interp);
        if v.Some? then [Render(v.value)] else []
  }

  /**
   * The expression parts after one more key expression: a blank one is
   * skipped; otherwise its value is added when non-null, and the fallback
   * runs if the parts are still empty after that.
   */
  function KeyStep(acc: seq<string>, keyExpr: string, bag: Bag, interp: Interpreter): seq<string> {
    if IsBlank(keyExpr) then acc
    else
      var val := interp.evaluate(keyExpr, bag);
      var acc' := if val.Some? then acc + [Render(val.value)] else acc;
      if acc' == [] then Fallback(keyExpr, bag, interp) else acc'
  }

  /** The expression parts collected from `acc` on over the key expressions, in order. */
  function ExprPartsFrom(acc: seq<string>, keys: seq<string>, bag: Bag, interp: Interpreter): seq<string>
    decreases |keys|
  {
    if keys == [] then acc
    else ExprPartsFrom(KeyStep(acc, keys[0], bag, interp), keys[1..], bag, interp)
  }

  /** The expression parts of a call. */
  function ExprParts(keys: seq<string>, bag: Bag, interp: Interpreter): seq<string> {
    ExprPartsFrom([], keys, bag, interp)
  }

  /** The fold over the key expressions takes one step at a time. */
  lemma ExprPartsStep(acc: seq<string>, keys: seq<string>, i: nat, bag: Bag, interp: Interpreter)
    requires i < |keys|
    ensures ExprPartsFrom(acc, keys[i..], bag, interp)
            == ExprPartsFrom(KeyStep(acc, keys[i], bag, interp), keys[i + 1..], bag, interp)
  {
    assert keys[i..][1..] == keys[i + 1..];
  }

  // --------------------------------------------------------------- the key

  /** The prefix, when it is not blank, as it is written. */
  function PrefixPart(prefix: string): seq<string> {
    if IsBlank(prefix) then [] else [prefix]
  }

  /** Every part of the key, in order: prefix, parameter parts, expression parts. */
  function KeyParts(lock: Lock, m: MethodInfo, args: seq<Option<Value>>, argsText: string,
                    interp: Interpreter): seq<string>
    requires MatchesArgs(m, args)
  {
    PrefixPart(lock.prefix) + ParamParts(m.params, args, interp)
    + ExprParts(lock.keys, VariableBag(m, args, argsText), interp)
  }

  /** The lock key of a call. */
  function KeyOf(lock: Lock, m: MethodInfo, args: seq<Option<Value>>, argsText: string,
                 interp: Interpreter): string
    requires MatchesArgs(m, args)
  {
    Join(lock.delimiter, KeyParts(lock, m, args, argsText, interp))
  }

  // ------------------------------------------------------------ the loops

  /** The tagged fields' parts of a value, one declared field at a time. */
  method ExtractAnnotatedFields(bean: Option<Value>, interp: Interpreter) returns (parts: seq<string>)
    ensures parts == AnnotatedFields(bean, interp)
  {
    parts := [];
    if bean.None? || IsSimple(bean.value) {
      return;
    }
    var fields := DeclaredFields(bean.value);
    ghost var cs := FieldContributions(fields, interp);
    for i := 0 to |fields|
      invariant parts == Concat(cs[..i])
    {
      ConcatSnoc(cs[..i], cs[i]);
      assert cs[..i + 1] == cs[..i] + [cs[i]];
      var f := fields[i];
      if f.keyParam.Some? {
        var v := f.value;
        var path := Sanitize(f.keyParam.value.value);
        var val := v;
        if path != [] && v.Some? {
          val := interp.readProperty(v.value, path);
        }
        if val.Some? {
          parts := parts + [Render(val.value)];
        }
      }
    }
    assert cs[..|fields|] == cs;
  }

  /** The parameter-derived parts, one declared parameter at a time. */
  method ExtractKeyParams(m: MethodInfo, args: seq<Option<Value>>, interp: Interpreter) returns (parts: seq<string>)
    requires |m.params| == |args|
    ensures parts == ParamParts(m.params, args, interp)
  {
    parts := [];
    ghost var cs := ParamContributions(m.params, args, interp);
    for i := 0 to |m.params|
      invariant parts == Concat(cs[..i])
    {
      ConcatSnoc(cs[..i], cs[i]);
      assert cs[..i + 1] == cs[..i] + [cs[i]];
      var p := m.params[i];
      if p.keyParam.Some? {
        var argVal := args[i];
        var path := Sanitize(p.keyParam.value.value);
        if argVal.None? {
          continue;
        }
        if path == [] {
          if IsSimple(argVal.value) {
            parts := parts + [Render(argVal.value)];
          } else {
            var fieldParts := ExtractAnnotatedFields(argVal, interp);
            parts := parts + fieldParts;
          }
        } else {
          var v := interp.readProperty(argVal.value, path);
          if v.Some? {
            parts := parts + [Render(v.value)];
          }
        }
      } else {
        var fieldParts := ExtractAnnotatedFields(args[i], interp);
        parts := parts + fieldParts;
      }
    }
    assert cs[..|m.params|] == cs;
  }

  /** Binds the declared names, then `p{i}`, `a{i}`, `arg{i}` for each argument, then `args`. */
  method BindVariables(m: MethodInfo, args: seq<Option<Value>>, argsText: string) returns (bag: Bag)
    requires MatchesArgs(m, args)
    ensures bag == VariableBag(m, args, argsText)
  {
    bag := map[];
    var names := if m.names.Some? then m.names.value else [];
    if m.names.Some? {
      for i := 0 to |names|
        invariant bag == BindNames(names, args, i)
      {
        bag := bag[names[i] := args[i]];
      }
    }
    ghost var named := bag;
    for i := 0 to |args|
      invariant bag == BindIndices(named, args, i)
    {
      bag := bag[IndexName("p", i) := args[i]];
      bag := bag[IndexName("a", i) := args[i]];
      bag := bag[IndexName("arg", i) := args[i]];
    }
    bag := bag["args" := Some(Array(argsText, args))];
  }

  /** The fallback for one key expression: the variable lookup, then the walk that stops at `null`. */
  method FallbackPart(keyExpr: string, bag: Bag, interp: Interpreter) returns (parts: seq<string>)
    ensures parts == Fallback(keyExpr, bag, interp)
  {
    parts := [];
    var tokens := SplitDots(StripHash(keyExpr));
    if |tokens| > 0 {
      var base := if tokens[0] in bag then bag[tokens[0]] else None;
      if base.Some? {
        var v := base;
        var i := 1;
        while i < |tokens|
          invariant 1 <= i <= |tokens| && v.Some?
          invariant Walk(base.value, tokens[1..], interp) == Walk(v.value, tokens[i..], interp)
          decreases |tokens| - i
        {
          assert tokens[i..][1..] == tokens[i + 1..];
          v := interp.readProperty(v.value, tokens[i]);
          if v.None? {
            assert Walk(base.value, tokens[1..], interp) == None;
            break;
          }
          i := i + 1;
        }
        if v.Some? {
          parts := [Render(v.value)];
        }
      }
    }
  }

  /**
   * One pass of the key-expression loop: a non-blank expression is evaluated,
   * its non-null value added, and the fallback consulted while nothing has
   * been collected.
   */
  method CollectKeyPart(spelParts: seq<string>, keyExpr: string, bag: Bag, interp: Interpreter)
    returns (parts: seq<string>)
    ensures parts == KeyStep(spelParts, keyExpr, bag, interp)
  {
    parts := spelParts;
    if !IsBlank(keyExpr) {
      var val := interp.evaluate(keyExpr, bag);
      if val.Some? {
        parts := parts + [Render(val.value)];
      }
      if parts == [] {
        var fallback := FallbackPart(keyExpr, bag, interp);
        parts := parts + fallback;
      }
    }
  }

  /** `buildKey`: the prefix, the parameter parts, then the key expressions in order. */
  method BuildKey(lock: Lock, m: MethodInfo, args: seq<Option<Value>>, argsText: string, interp: Interpreter)
    returns (key: string)
    requires MatchesArgs(m, args)
    ensures key == KeyOf(lock, m, args, argsText, interp)
  {
    var parts: seq<string> := [];
    if !IsBlank(lock.prefix) {
      parts := parts + [lock.prefix];
    }
    assert parts == PrefixPart(lock.prefix);
    var paramParts := ExtractKeyParams(m, args, interp);
    var bag := BindVariables(m, args, argsText);
    var spelParts: seq<string> := [];
    for i := 0 to |lock.keys|
      invariant ExprParts(lock.keys, bag, interp) == ExprPartsFrom(spelParts, lock.keys[i..], bag, interp)
    {
      ExprPartsStep(spelParts, lock.keys, i, bag, interp);
      spelParts := CollectKeyPart(spelParts, lock.keys[i], bag, interp);
    }
    assert lock.keys[|lock.keys|..] == [];
    parts := parts + paramParts + spelParts;
    key := Join(lock.delimiter, parts);
  }
}
