/**
 * What the key builder promises: parameters contribute in declared order and
 * a null argument contributes nothing, untagged fields never contribute, the
 * variables bind every argument under its index names, blank expressions are
 * skipped, the fallback runs only while no expression part has been
 * collected, and the key joins its three groups in order.
 */
module KeyProperties {
  import opened Wrappers
  import opened JavaText
  import opened LockConfig
  import opened KeyResolver

  // ------------------------------------------------------------ parameters

  /** The parts of a non-empty run of parameters are those of all but the last, then the last one's. */
  lemma ParamPartsSnoc(params: seq<Parameter>, args: seq<Option<Value>>, interp: Interpreter)
    requires |params| == |args| > 0
    ensures var n := |params| - 1;
            ParamParts(params, args, interp)
            == ParamParts(params[..n], args[..n], interp) + ParamPart(params[n], args[n], interp)
  {
    var n := |params| - 1;
    var cs := ParamContributions(params, args, interp);
    assert cs[..n] == ParamContributions(params[..n], args[..n], interp);
    assert cs == cs[..n] + [cs[n]];
    ConcatSnoc(cs[..n], cs[n]);
  }

  /** The parts of two runs of parameters are the parts of the first run, then of the second. */
  lemma ParamPartsConcat(p1: seq<Parameter>, a1: seq<Option<Value>>,
                          p2: seq<Parameter>, a2: seq<Option<Value>>, interp: Interpreter)
    requires |p1| == |a1| && |p2| == |a2|
    ensures ParamParts(p1 + p2, a1 + a2, interp) == ParamParts(p1, a1, interp) + ParamParts(p2, a2, interp)
  {
    var c1, c2 := ParamContributions(p1, a1, interp), ParamContributions(p2, a2, interp);
    var c := ParamContributions(p1 + p2, a1 + a2, interp);
    forall k | 0 <= k < |c|
      ensures c[k] == (c1 + c2)[k]
    {
      if k >= |p1| {
        assert (p1 + p2)[k] == p2[k - |p1|] && (a1 + a2)[k] == a2[k - |p1|];
      }
    }
    assert c == c1 + c2;
    ConcatAppend(c1, c2);
  }

  /** A null argument contributes nothing, tagged or not: leaving its parameter out changes no part. */
  lemma {:induction false} NullArgumentContributesNothing(params: seq<Parameter>, args: seq<Option<Value>>, i: nat,
                                                          interp: Interpreter)
    requires |params| == |args| && i < |args| && args[i].None?
    ensures ParamParts(params, args, interp)
            == ParamParts(params[..i] + params[i + 1..], args[..i] + args[i + 1..], interp)
    decreases |params|
  {
    var n := |params| - 1;
    ParamPartsSnoc(params, args, interp);
    if i == n {
      assert params[..i] + params[i + 1..] == params[..n];
      assert args[..i] + args[i + 1..] == args[..n];
    } else {
      NullArgumentContributesNothing(params[..n], args[..n], i, interp);
      var ps, xs := params[..i] + params[i + 1..], args[..i] + args[i + 1..];
      RemoveBeforeLast(params, i);
      RemoveBeforeLast(args, i);
      ParamPartsSnoc(ps, xs, interp);
    }
  }

  /** Removing an element other than the last keeps the last and removes it from the rest. */
  lemma RemoveBeforeLast<T>(s: seq<T>, i: nat)
    requires i < |s| - 1
    ensures var r, n := s[..i] + s[i + 1..], |s| - 1;
            |r| == n && r[..n - 1] == s[..n][..i] + s[..n][i + 1..] && r[n - 1] == s[n]
  {
    var r, n := s[..i] + s[i + 1..], |s| - 1;
    assert r[..n - 1] == s[..i] + s[i + 1..n];
  }

  /** The string forms of values, in order. */
  function Texts(vs: seq<Option<Value>>): (r: seq<string>)
    requires forall i | 0 <= i < |vs| :: vs[i].Some?
    ensures |r| == |vs|
  {
    if vs == [] then [] else Texts(vs[..|vs| - 1]) + [Render(vs[|vs| - 1].value)]
  }

  /** Parameters tagged without a path, given simple non-null arguments, contribute the arguments' string forms. */
  lemma {:induction false} TaggedSimpleArguments(params: seq<Parameter>, args: seq<Option<Value>>, interp: Interpreter)
    requires |params| == |args|
    requires forall i | 0 <= i < |params| :: params[i].keyParam.Some? && Sanitize(params[i].keyParam.value.value) == []
    requires forall i | 0 <= i < |args| :: args[i].Some? && IsSimple(args[i].value)
    ensures ParamParts(params, args, interp) == Texts(args)
    decreases |params|
  {
    if params != [] {
      var n := |params| - 1;
      assert forall i | 0 <= i < n :: params[..n][i] == params[i] && args[..n][i] == args[i];
      TaggedSimpleArguments(params[..n], args[..n], interp);
      ParamPartsSnoc(params, args, interp);
    } else {
      assert ParamParts(params, args, interp) == [];
    }
  }

  /**
   * A simple value is a key part only as a whole: it has no field parts, so
   * an untagged parameter holding it contributes nothing, while one tagged
   * with an empty path contributes its string form. A compound value tagged
   * with an empty path contributes its tagged fields, as an untagged one
   * does. Arrays are never simple.
   */
  lemma SimpleValueParts(v: Value, kp: KeyParam, interp: Interpreter)
    requires Sanitize(kp.value) == []
    ensures v.Array? ==> !IsSimple(v)
    ensures IsSimple(v) ==> AnnotatedFields(Some(v), interp) == []
    ensures IsSimple(v) ==> ParamPart(Parameter(None), Some(v), interp) == []
    ensures IsSimple(v) ==> ParamPart(Parameter(Some(kp)), Some(v), interp) == [Render(v)]
    ensures !IsSimple(v) ==>
              && ParamPart(Parameter(Some(kp)), Some(v), interp) == FieldParts(DeclaredFields(v), interp)
              && ParamPart(Parameter(None), Some(v), interp) == FieldParts(DeclaredFields(v), interp)
  {
  }

  // ---------------------------------------------------------------- fields

  /** The tagged fields, in declaration order. */
  function Tagged(fields: seq<Field>): (r: seq<Field>)
    ensures |r| <= |fields|
    ensures forall i | 0 <= i < |r| :: r[i].keyParam.Some?
  {
    if fields == [] then []
    else if fields[|fields| - 1].keyParam.Some? then Tagged(fields[..|fields| - 1]) + [fields[|fields| - 1]]
    else Tagged(fields[..|fields| - 1])
  }

  /** The parts of a non-empty run of fields are those of all but the last, then the last one's. */
  lemma FieldPartsSnoc(fields: seq<Field>, interp: Interpreter)
    requires fields != []
    ensures var n := |fields| - 1;
            FieldParts(fields, interp) == FieldParts(fields[..n], interp) + FieldPart(fields[n], interp)
  {
    var n := |fields| - 1;
    var cs := FieldContributions(fields, interp);
    assert cs[..n] == FieldContributions(fields[..n], interp);
    assert cs == cs[..n] + [cs[n]];
    ConcatSnoc(cs[..n], cs[n]);
  }

  /** Untagged fields never contribute: a value's parts are those of its tagged fields, at most one each. */
  lemma {:induction false} UntaggedFieldsIgnored(fields: seq<Field>, interp: Interpreter)
    ensures FieldParts(fields, interp) == FieldParts(Tagged(fields), interp)
    ensures |FieldParts(fields, interp)| <= |Tagged(fields)|
    decreases |fields|
  {
    if fields != [] {
      var n := |fields| - 1;
      UntaggedFieldsIgnored(fields[..n], interp);
      FieldPartsSnoc(fields, interp);
      if fields[n].keyParam.Some? {
        var t := Tagged(fields);
        assert t[..|t| - 1] == Tagged(fields[..n]);
        FieldPartsSnoc(t, interp);
      }
    } else {
      assert FieldParts(fields, interp) == [];
    }
  }

  /** The values of fields, in order. */
  function FieldValues(t: seq<Field>): (r: seq<Option<Value>>)
    ensures |r| == |t|
  {
    seq(|t|, i requires 0 <= i < |t| => t[i].value)
  }

  /** Tagged fields without a path whose values are non-null contribute those values' string forms. */
  lemma {:induction false} PlainTaggedFields(fields: seq<Field>, interp: Interpreter)
    requires forall i | 0 <= i < |fields| :: fields[i].keyParam.Some? ==>
               Sanitize(fields[i].keyParam.value.value) == [] && fields[i].value.Some?
    ensures var t := Tagged(fields);
            && (forall i | 0 <= i < |t| :: t[i].value.Some?)
            && FieldParts(fields, interp) == Texts(FieldValues(t))
    decreases |fields|
  {
    TaggedValuesPlain(fields);
    if fields != [] {
      var n := |fields| - 1;
      var pre, f := fields[..n], fields[n];
      assert forall i | 0 <= i < n :: pre[i] == fields[i];
      PlainTaggedFields(pre, interp);
      FieldPartsSnoc(fields, interp);
      if f.keyParam.Some? {
        TaggedValuesPlain(pre);
        TextsSnoc(Tagged(pre), f);
      }
    } else {
      assert FieldParts(fields, interp) == [];
    }
  }

  /** One more field with a value adds that value's string form. */
  lemma TextsSnoc(t: seq<Field>, f: Field)
    requires forall i | 0 <= i < |t| :: t[i].value.Some?
    requires f.value.Some?
    ensures forall i | 0 <= i < |t + [f]| :: (t + [f])[i].value.Some?
    ensures Texts(FieldValues(t + [f])) == Texts(FieldValues(t)) + [Render(f.value.value)]
  {
    var vs := FieldValues(t + [f]);
    assert vs[..|vs| - 1] == FieldValues(t);
  }

  /** Under the hypothesis of `PlainTaggedFields` every tagged field has a value. */
  lemma {:induction false} TaggedValuesPlain(fields: seq<Field>)
    requires forall i | 0 <= i < |fields| :: fields[i].keyParam.Some? ==> fields[i].value.Some?
    ensures forall i | 0 <= i < |Tagged(fields)| :: Tagged(fields)[i].value.Some?
    decreases |fields|
  {
    if fields != [] {
      var n := |fields| - 1;
      assert forall i | 0 <= i < n :: fields[..n][i] == fields[i];
      TaggedValuesPlain(fields[..n]);
    }
  }

  // ------------------------------------------------------------- variables

  predicate IsDigit(c: char) {
    '0' <= c <= '9'
  }

  /** `s` is `prefix` followed by one or more digits. */
  predicate IsIndexNameOf(prefix: string, s: string) {
    && |s| > |prefix| && s[..|prefix|] == prefix
    && forall k | |prefix| <= k < |s| :: IsDigit(s[k])
  }

  /** Names the variables reserve for the argument array and the index names. */
  predicate Reserved(s: string) {
    s == "args" || IsIndexNameOf("p", s) || IsIndexNameOf("a", s) || IsIndexNameOf("arg", s)
  }

  predicate IsIndexPrefix(x: string) {
    x == "p" || x == "a" || x == "arg"
  }

  lemma IndexNameShape(x: string, i: nat)
    ensures IsIndexNameOf(x, IndexName(x, i))
  {
    assert IndexName(x, i)[..|x|] == x;
  }

  /** The index names of different arguments, or under different prefixes, are different. */
  lemma IndexNamesDistinct(x: string, i: nat, y: string, j: nat)
    requires IsIndexPrefix(x) && IsIndexPrefix(y) && (x != y || i != j)
    ensures IndexName(x, i) != IndexName(y, j)
  {
    if x == y {
      if IndexName(x, i) == IndexName(y, j) {
        assert Decimal(i) == IndexName(x, i)[|x|..];
        assert Decimal(j) == IndexName(y, j)[|y|..];
        DecimalInjective(i, j);
      }
    } else if x == "a" && y == "arg" {
      assert IndexName(x, i)[1] == Decimal(i)[0];
      assert IndexName(y, j)[1] == 'r';
    } else if x == "arg" && y == "a" {
      assert IndexName(x, i)[1] == 'r';
      assert IndexName(y, j)[1] == Decimal(j)[0];
    } else {
      assert IndexName(x, i)[0] == x[0] && IndexName(y, j)[0] == y[0];
    }
  }

  /** Binding the index names binds each of the first `n` arguments under `x{i}`. */
  lemma {:induction false} BindIndicesAt(bag: Bag, args: seq<Option<Value>>, n: nat, x: string, i: nat)
    requires n <= |args| && i < n && IsIndexPrefix(x)
    ensures IndexName(x, i) in BindIndices(bag, args, n) && BindIndices(bag, args, n)[IndexName(x, i)] == args[i]
    decreases n
  {
    if i < n - 1 {
      BindIndicesAt(bag, args, n - 1, x, i);
      IndexNamesDistinct(x, i, "p", n - 1);
      IndexNamesDistinct(x, i, "a", n - 1);
      IndexNamesDistinct(x, i, "arg", n - 1);
    } else if x == "p" {
      IndexNamesDistinct(x, i, "a", n - 1);
      IndexNamesDistinct(x, i, "arg", n - 1);
    } else if x == "a" {
      IndexNamesDistinct(x, i, "arg", n - 1);
    }
  }

  /** Binding index names leaves every other name as it was. */
  lemma {:induction false} BindIndicesKeeps(bag: Bag, args: seq<Option<Value>>, n: nat, s: string)
    requires n <= |args| && !Reserved(s)
    ensures (s in BindIndices(bag, args, n)) == (s in bag)
    ensures s in bag ==> BindIndices(bag, args, n)[s] == bag[s]
    decreases n
  {
    if n > 0 {
      BindIndicesKeeps(bag, args, n - 1, s);
      IndexNameShape("p", n - 1);
      IndexNameShape("a", n - 1);
      IndexNameShape("arg", n - 1);
    }
  }

  /** A declared name that no later parameter repeats is bound to its own argument. */
  lemma {:induction false} BindNamesAt(names: seq<string>, args: seq<Option<Value>>, n: nat, i: nat)
    requires n <= |names| <= |args| && i < n
    requires forall j | i < j < n :: names[j] != names[i]
    ensures names[i] in BindNames(names, args, n) && BindNames(names, args, n)[names[i]] == args[i]
    decreases n
  {
    if i < n - 1 {
      BindNamesAt(names, args, n - 1, i);
    }
  }

  /**
   * The variables bind `args` to the whole argument array, argument `i` under
   * `p{i}`, `a{i}` and `arg{i}`, and a declared name that is not reserved and
   * not repeated by a later parameter to its argument.
   */
  lemma VariableBagBinds(m: MethodInfo, args: seq<Option<Value>>, argsText: string)
    requires MatchesArgs(m, args)
    ensures var bag := VariableBag(m, args, argsText);
            && "args" in bag && bag["args"] == Some(Array(argsText, args))
            && (forall i | 0 <= i < |args| ::
                  && IndexName("p", i) in bag && bag[IndexName("p", i)] == args[i]
                  && IndexName("a", i) in bag && bag[IndexName("a", i)] == args[i]
                  && IndexName("arg", i) in bag && bag[IndexName("arg", i)] == args[i])
            && (m.names.Some? ==>
                  forall i | 0 <= i < |args| && !Reserved(m.names.value[i])
                                              && (forall j | i < j < |args| :: m.names.value[j] != m.names.value[i]) ::
                    m.names.value[i] in bag && bag[m.names.value[i]] == args[i])
  {
    var names := if m.names.Some? then m.names.value else [];
    var named := BindNames(names, args, |names|);
    forall i | 0 <= i < |args|
      ensures && IndexName("p", i) in VariableBag(m, args, argsText)
              && VariableBag(m, args, argsText)[IndexName("p", i)] == args[i]
              && IndexName("a", i) in VariableBag(m, args, argsText)
              && VariableBag(m, args, argsText)[IndexName("a", i)] == args[i]
              && IndexName("arg", i) in VariableBag(m, args, argsText)
              && VariableBag(m, args, argsText)[IndexName("arg", i)] == args[i]
    {
      BindIndicesAt(named, args, |args|, "p", i);
      BindIndicesAt(named, args, |args|, "a", i);
      BindIndicesAt(named, args, |args|, "arg", i);
      IndexNameShape("p", i);
      IndexNameShape("a", i);
      IndexNameShape("arg", i);
      assert IndexName("arg", i) != "args" by {
        assert IndexName("arg", i)[3] == Decimal(i)[0];
      }
    }
    if m.names.Some? {
      forall i | 0 <= i < |args| && !Reserved(names[i]) && (forall j | i < j < |args| :: names[j] != names[i])
        ensures names[i] in VariableBag(m, args, argsText) && VariableBag(m, args, argsText)[names[i]] == args[i]
      {
        BindNamesAt(names, args, |names|, i);
        BindIndicesKeeps(named, args, |args|, names[i]);
      }
    }
  }

  // ----------------------------------------------------------- expressions

  /** Reading a path in two halves is reading the first, then, unless it gave `null`, the second. */
  lemma {:induction false} WalkConcat(v: Value, t1: seq<string>, t2: seq<string>, interp: Interpreter)
    ensures Walk(v, t1 + t2, interp)
            == (var u := Walk(v, t1, interp); if u.None? then None else Walk(u.value, t2, interp))
    decreases |t1|
  {
    if t1 == [] {
      assert t1 + t2 == t2;
    } else {
      assert (t1 + t2)[0] == t1[0] && (t1 + t2)[1..] == t1[1..] + t2;
      var next := interp.readProperty(v, t1[0]);
      if next.Some? {
        WalkConcat(next.value, t1[1..], t2, interp);
      }
    }
  }

  /**
   * While nothing has been collected, an expression `#name.p1....pn` that
   * fails to evaluate falls back to the variable `name` read along the path
   * `p1 ... pn`, and contributes the string form of what that read yields.
   */
  lemma FallbackWalksVariable(keyExpr: string, name: string, path: seq<string>, bag: Bag, interp: Interpreter)
    requires '.' !in name && forall i | 0 <= i < |path| :: '.' !in path[i]
    requires path == [] || path[|path| - 1] != []
    requires keyExpr == "#" + Join(".", [name] + path)
    requires !IsSpace(keyExpr[|keyExpr| - 1])
    requires interp.evaluate(keyExpr, bag).None?
    ensures KeyStep([], keyExpr, bag, interp)
            == (var base := if name in bag then bag[name] else None;
                if base.None? then []
                else
                  var v := Walk(base.value, path, interp);
                  if v.Some? then [Render(v.value)] else [])
  {
    var tokens := [name] + path;
    assert forall i | 0 <= i < |tokens| :: '.' !in tokens[i] by {
      forall i | 0 <= i < |tokens| ensures '.' !in tokens[i] {
        if i > 0 { assert tokens[i] == path[i - 1]; }
      }
    }
    SplitDotsOfJoin(tokens);
    TrimUnchanged(keyExpr);
    assert StripHash(keyExpr) == Join(".", tokens);
    assert tokens[0] == name && tokens[1..] == path;
  }

  /** The key expressions are folded left to right: two runs are the first run, then the second. */
  lemma {:induction false} ExprPartsConcat(acc: seq<string>, k1: seq<string>, k2: seq<string>,
                                           bag: Bag, interp: Interpreter)
    ensures ExprPartsFrom(acc, k1 + k2, bag, interp)
            == ExprPartsFrom(ExprPartsFrom(acc, k1, bag, interp), k2, bag, interp)
    decreases |k1|
  {
    if k1 == [] {
      assert k1 + k2 == k2;
    } else {
      assert (k1 + k2)[0] == k1[0] && (k1 + k2)[1..] == k1[1..] + k2;
      ExprPartsConcat(KeyStep(acc, k1[0], bag, interp), k1[1..], k2, bag, interp);
    }
  }

  /** A blank key expression adds nothing, wherever it stands. */
  lemma BlankKeyIgnored(acc: seq<string>, k1: seq<string>, b: string, k2: seq<string>, bag: Bag, interp: Interpreter)
    requires IsBlank(b)
    ensures ExprPartsFrom(acc, k1 + [b] + k2, bag, interp) == ExprPartsFrom(acc, k1 + k2, bag, interp)
  {
    ExprPartsConcat(acc, k1, [b] + k2, bag, interp);
    assert k1 + [b] + k2 == k1 + ([b] + k2);
    ExprPartsConcat(acc, k1, k2, bag, interp);
    assert ([b] + k2)[1..] == k2;
  }

  /** Parts are only ever appended: the parts collected so far stay at the front. */
  lemma {:induction false} ExprPartsExtend(acc: seq<string>, keys: seq<string>, bag: Bag, interp: Interpreter)
    ensures var r := ExprPartsFrom(acc, keys, bag, interp);
            |acc| <= |r| && r[..|acc|] == acc
    decreases |keys|
  {
    if keys != [] {
      var next := KeyStep(acc, keys[0], bag, interp);
      assert |acc| <= |next| && next[..|acc|] == acc;
      ExprPartsExtend(next, keys[1..], bag, interp);
    }
  }

  /** The string forms of the non-null values of the non-blank expressions, in order, with no fallback. */
  function Evaluated(keys: seq<string>, bag: Bag, interp: Interpreter): seq<string> {
    if keys == [] then []
    else
      var val := if IsBlank(keys[0]) then None else interp.evaluate(keys[0], bag);
      (if val.Some? then [Render(val.value)] else []) + Evaluated(keys[1..], bag, interp)
  }

  /**
   * The guard of the fallback is over the whole list: once one part has been
   * collected, only the evaluated values are added.
   */
  lemma {:induction false} NoFallbackOnceCollected(acc: seq<string>, keys: seq<string>, bag: Bag, interp: Interpreter)
    requires acc != []
    ensures ExprPartsFrom(acc, keys, bag, interp) == acc + Evaluated(keys, bag, interp)
    decreases |keys|
  {
    if keys != [] {
      var next := KeyStep(acc, keys[0], bag, interp);
      NoFallbackOnceCollected(next, keys[1..], bag, interp);
    } else {
      assert acc + [] == acc;
    }
  }

  /** When every non-blank expression has a non-null value the parts are exactly those values. */
  lemma {:induction false} AllEvaluated(acc: seq<string>, keys: seq<string>, bag: Bag, interp: Interpreter)
    requires forall i | 0 <= i < |keys| :: !IsBlank(keys[i]) ==> interp.evaluate(keys[i], bag).Some?
    ensures ExprPartsFrom(acc, keys, bag, interp) == acc + Evaluated(keys, bag, interp)
    decreases |keys|
  {
    if keys != [] {
      var next := KeyStep(acc, keys[0], bag, interp);
      assert forall i | 0 <= i < |keys| - 1 :: keys[1..][i] == keys[i + 1];
      AllEvaluated(next, keys[1..], bag, interp);
    } else {
      assert acc + [] == acc;
    }
  }

  // ------------------------------------------------------------------ key

  /**
   * The key joins the prefix as written, then the parameter parts, then the
   * expression parts, with one delimiter at each seam; a blank prefix is left out.
   */
  lemma KeyJoinsGroups(lock: Lock, m: MethodInfo, args: seq<Option<Value>>, argsText: string, interp: Interpreter)
    requires MatchesArgs(m, args)
    ensures var d := lock.delimiter;
            var ps := ParamParts(m.params, args, interp);
            var es := ExprParts(lock.keys, VariableBag(m, args, argsText), interp);
            var key := KeyOf(lock, m, args, argsText, interp);
            && (IsBlank(lock.prefix) ==> key == Join(d, ps + es))
            && (!IsBlank(lock.prefix) && ps == [] && es == [] ==> key == lock.prefix)
            && (!IsBlank(lock.prefix) && ps != [] && es == [] ==> key == lock.prefix + d + Join(d, ps))
            && (!IsBlank(lock.prefix) && ps == [] && es != [] ==> key == lock.prefix + d + Join(d, es))
            && (!IsBlank(lock.prefix) && ps != [] && es != [] ==>
                  key == lock.prefix + d + Join(d, ps) + d + Join(d, es))
  {
    var ps := ParamParts(m.params, args, interp);
    var es := ExprParts(lock.keys, VariableBag(m, args, argsText), interp);
    if IsBlank(lock.prefix) {
      assert [] + ps + es == ps + es;
    } else {
      JoinAfterHead(lock.delimiter, lock.prefix, ps, es);
    }
  }

  /** Joining a head, then two groups: one delimiter at each seam between non-empty groups. */
  lemma JoinAfterHead(d: string, x: string, ps: seq<string>, es: seq<string>)
    ensures var key := Join(d, [x] + ps + es);
            && (ps == [] && es == [] ==> key == x)
            && (ps != [] && es == [] ==> key == x + d + Join(d, ps))
            && (ps == [] && es != [] ==> key == x + d + Join(d, es))
            && (ps != [] && es != [] ==> key == x + d + Join(d, ps) + d + Join(d, es))
  {
    if ps != [] && es != [] {
      JoinConcat(d, [x], ps);
      JoinConcat(d, [x] + ps, es);
    } else if ps != [] {
      assert [x] + ps + es == [x] + ps;
      JoinConcat(d, [x], ps);
    } else if es != [] {
      assert [x] + ps + es == [x] + es;
      JoinConcat(d, [x], es);
    } else {
      assert [x] + ps + es == [x];
    }
  }
}
