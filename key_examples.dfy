/**
 * The four keys the key builder's own unit tests pin down, worked out on the
 * value model: a `User` whose `id` field is tagged, a `PlainUser` with no
 * tagged field, `Long` arguments, and an interpreter that evaluates `#name`
 * and `#name.property` against the variables through visible getters only,
 * while the reflective property reader reads any declared field.
 */
module KeyExamples {
  import opened Wrappers
  import opened JavaText
  import opened LockConfig
  import opened KeyResolver
  import opened KeyProperties

  // ------------------------------------------------------------ the values

  const LongClass := JavaClass("java.lang.Long", false,
                               {"java.lang.Long", NumberClass, "java.lang.Comparable", "java.lang.Object"})
  const StringClass := JavaClass("java.lang.String", false,
                                 {"java.lang.String", CharSequenceClass, "java.lang.Comparable", "java.lang.Object"})
  const UserClass := JavaClass("KeyResolverTest$User", false, {"KeyResolverTest$User", "java.lang.Object"})
  const PlainUserClass := JavaClass("KeyResolverTest$PlainUser", false,
                                    {"KeyResolverTest$PlainUser", "java.lang.Object"})

  /** A boxed `Long`: simple, rendered in decimal. */
  function LongValue(n: nat): Value {
    Object(LongClass, Decimal(n), [])
  }

  function StringValue(s: string): Value {
    Object(StringClass, s, [])
  }

  /** `@LockKeyParam` with its default (empty) path. */
  const Tag := KeyParam(Some(""))

  /** `new User(id, name)`: `id` is tagged, `name` is not. */
  function User(id: nat, name: string): Value {
    Object(UserClass, "KeyResolverTest$User@1",
           [Field("id", Some(Tag), Some(LongValue(id))), Field("name", None, Some(StringValue(name)))])
  }

  /** `new PlainUser(id, name)`: no field is tagged. */
  function PlainUser(id: nat, name: string): Value {
    Object(PlainUserClass, "KeyResolverTest$PlainUser@1",
           [Field("id", None, Some(LongValue(id))), Field("name", None, Some(StringValue(name)))])
  }

  // ------------------------------------------------------- the interpreter

  /** The value of the first declared field called `name`, or `null` if there is none. */
  function FieldNamed(fields: seq<Field>, name: string): (r: Option<Value>)
    ensures r.Some? ==> exists i | 0 <= i < |fields| :: fields[i].name == name && fields[i].value == r
  {
    if fields == [] then None
    else if fields[0].name == name then fields[0].value
    else
      var r := FieldNamed(fields[1..], name);
      assert r.Some? ==> exists i | 0 <= i < |fields| - 1 :: fields[1..][i].name == name && fields[1..][i].value == r;
      r
  }

  /**
   * Reads a declared field of an object whatever its visibility, as the
   * reflective property reader does; arrays have none. The fixtures only
   * read single field names.
   */
  function ReadDeclaredField(v: Value, path: string): Option<Value> {
    if v.Object? then FieldNamed(v.fields, path) else None
  }

  /**
   * A property the expression language can see: `PlainUser` has the getters
   * `getId` and `getName`, while `User`'s fields are package-private with no
   * getter, so none of them is visible.
   */
  function BeanProperty(v: Value, name: string): Option<Value> {
    if v.Object? && v.cls == PlainUserClass && (name == "id" || name == "name") then FieldNamed(v.fields, name)
    else None
  }

  /**
   * `#name` and `#name.property....`: a variable, then visible properties;
   * anything else fails, as does reading a property that is not visible.
   */
  function EvalVariable(e: string, bag: Bag): Option<Value> {
    if e != [] && e[0] == '#' then
      var tokens := SplitDots(e[1..]);
      if tokens == [] || tokens[0] !in bag || bag[tokens[0]].None? then None
      else Walk(bag[tokens[0]].value, tokens[1..], Interpreter((x: string, b: Bag) => None, BeanProperty))
    else None
  }

  const Interp := Interpreter(EvalVariable, ReadDeclaredField)

  // ---------------------------------------------------- the test fixtures

  /** `@Lock(prefix = "dl", delimiter = ":", timeUnit = SECONDS, keys = ...)`. */
  function TestLock(keys: seq<string>): Lock {
    DefaultLock(keys)
  }

  const Args := [Some(User(1, "Alice")), Some(LongValue(9))]
  const PlainArgs := [Some(PlainUser(1, "Alice")), Some(LongValue(9))]
  const Names := Some(["user", "orderId"])

  /** `onlySpEL(PlainUser user, Long orderId)` with keys `#p0.id`, `#p1`. */
  const OnlySpEL := MethodInfo([Parameter(None), Parameter(None)], Names)
  /** `onlyParam(@LockKeyParam("id") User user, @LockKeyParam Long orderId)`. */
  const OnlyParam := MethodInfo([Parameter(Some(KeyParam(Some("id")))), Parameter(Some(Tag))], Names)
  /** `onlyField(User user, @LockKeyParam Long orderId)`. */
  const OnlyField := MethodInfo([Parameter(None), Parameter(Some(Tag))], Names)

  const SpelKeys := ["#p0.id", "#p1"]

  // ------------------------------------------------------------ the parts

  lemma IndexZeroAndOne()
    ensures IndexName("p", 0) == "p0" && IndexName("p", 1) == "p1"
  {
    assert Decimal(0) == ['0'] && Decimal(1) == ['1'];
  }

  lemma DecimalOneNine()
    ensures Decimal(1) == "1" && Decimal(9) == "9"
  {
  }

  /** Neither argument of `onlySpEL` contributes a parameter part. */
  lemma OnlySpELParamParts()
    ensures ParamParts(OnlySpEL.params, PlainArgs, Interp) == []
  {
    ParamPartsSnoc(OnlySpEL.params, PlainArgs, Interp);
    ParamPartsSnoc(OnlySpEL.params[..1], PlainArgs[..1], Interp);
    assert ParamParts(OnlySpEL.params[..1][..0], PlainArgs[..1][..0], Interp) == [];
    var fs := PlainUser(1, "Alice").fields;
    FieldPartsSnoc(fs, Interp);
    FieldPartsSnoc(fs[..1], Interp);
    assert FieldParts(fs[..1][..0], Interp) == [];
  }

  /** `@LockKeyParam("id") User`, then `@LockKeyParam Long`, give `1` then `9`. */
  lemma TaggedParamParts()
    ensures ParamParts(OnlyParam.params, Args, Interp) == ["1", "9"]
  {
    ParamPartsSnoc(OnlyParam.params, Args, Interp);
    ParamPartsSnoc(OnlyParam.params[..1], Args[..1], Interp);
    assert ParamParts(OnlyParam.params[..1][..0], Args[..1][..0], Interp) == [];
    assert Sanitize(Some("id")) == "id";
    assert Sanitize(Some("")) == "";
    DecimalOneNine();
  }

  /** The untagged `User` contributes its tagged `id`, the tagged `Long` itself. */
  lemma FieldParamParts()
    ensures ParamParts(OnlyField.params, Args, Interp) == ["1", "9"]
  {
    ParamPartsSnoc(OnlyField.params, Args, Interp);
    ParamPartsSnoc(OnlyField.params[..1], Args[..1], Interp);
    assert ParamParts(OnlyField.params[..1][..0], Args[..1][..0], Interp) == [];
    var fs := User(1, "Alice").fields;
    FieldPartsSnoc(fs, Interp);
    FieldPartsSnoc(fs[..1], Interp);
    assert FieldParts(fs[..1][..0], Interp) == [];
    assert Sanitize(Some("")) == "";
    DecimalOneNine();
  }

  lemma NoDotInP0P1()
    ensures '.' !in "p0" && '.' !in "p1"
  {
    assert "p0"[0] != '.' && "p0"[1] != '.';
    assert "p1"[0] != '.' && "p1"[1] != '.';
  }

  lemma PiecesP0Dot()
    ensures Pieces("p0.") == ["p0", ""]
  {
    NoDotInP0P1();
    PiecesWithoutDot("p0");
    assert "p0."[..2] == "p0";
  }

  lemma PiecesP0I()
    ensures Pieces("p0.i") == ["p0", "i"]
  {
    PiecesP0Dot();
    assert "p0.i"[..3] == "p0." && "p0.i"[3] == 'i';
    assert "" + ['i'] == "i";
  }

  lemma PiecesP0Id()
    ensures Pieces("p0.id") == ["p0", "id"]
  {
    PiecesP0I();
    assert "p0.id"[..4] == "p0.i" && "p0.id"[4] == 'd';
    assert "i" + ['d'] == "id";
  }

  lemma SplitExamples()
    ensures SplitDots("p0.id") == ["p0", "id"] && SplitDots("p1") == ["p1"]
  {
    NoDotInP0P1();
    PiecesP0Id();
    assert '.' in "p0.id" by { assert "p0.id"[2] == '.'; }
    assert DropTrailingEmpty(["p0", "id"]) == ["p0", "id"];
  }

  /** `#p0.id` reads `PlainUser`'s getter; `#p1` is the second argument. */
  lemma EvalExamples(bag: Bag)
    requires "p0" in bag && bag["p0"] == Some(PlainUser(1, "Alice")) && "p1" in bag && bag["p1"] == Some(LongValue(9))
    ensures EvalVariable("#p0.id", bag) == Some(LongValue(1))
    ensures EvalVariable("#p1", bag) == Some(LongValue(9))
  {
    SplitExamples();
    assert "#p0.id"[1..] == "p0.id" && "#p1"[1..] == "p1";
    assert ["p0", "id"][1..] == ["id"] && ["id"][1..] == [] && ["p1"][1..] == [];
    assert BeanProperty(PlainUser(1, "Alice"), "id") == Some(LongValue(1));
  }

  /** `User` has no visible `id`, so evaluating `#p0.id` fails; `#p1` still evaluates. */
  lemma EvalFailsOnUser(bag: Bag)
    requires "p0" in bag && bag["p0"] == Some(User(1, "Alice")) && "p1" in bag && bag["p1"] == Some(LongValue(9))
    ensures EvalVariable("#p0.id", bag) == None
    ensures EvalVariable("#p1", bag) == Some(LongValue(9))
  {
    SplitExamples();
    assert "#p0.id"[1..] == "p0.id" && "#p1"[1..] == "p1";
    assert ["p0", "id"][1..] == ["id"] && ["p1"][1..] == [];
    assert BeanProperty(User(1, "Alice"), "id") == None;
  }

  lemma TrimExamples()
    ensures Trim("#p0.id") == "#p0.id" && Trim("#p1") == "#p1" && Trim("dl") == "dl"
  {
  }

  /** Two key expressions that both evaluate to non-null values yield those values, in order. */
  lemma TwoEvaluated(k1: string, k2: string, bag: Bag, interp: Interpreter, v1: Value, v2: Value)
    requires !IsBlank(k1) && !IsBlank(k2)
    requires interp.evaluate(k1, bag) == Some(v1) && interp.evaluate(k2, bag) == Some(v2)
    ensures ExprParts([k1, k2], bag, interp) == [Render(v1), Render(v2)]
  {
    assert [k1, k2][1..] == [k2];
    assert [k2][1..] == [];
    assert KeyStep([], k1, bag, interp) == [Render(v1)];
    assert KeyStep([Render(v1)], k2, bag, interp) == [Render(v1), Render(v2)];
    assert ExprPartsFrom([], [k1, k2], bag, interp) == ExprPartsFrom([Render(v1)], [k2], bag, interp);
  }

  /** A first expression that yields parts (by value or by the fallback), then one that evaluates. */
  lemma FirstThenEvaluated(k1: string, k2: string, bag: Bag, interp: Interpreter, first: seq<string>, v2: Value)
    requires KeyStep([], k1, bag, interp) == first && first != []
    requires !IsBlank(k2) && interp.evaluate(k2, bag) == Some(v2)
    ensures ExprParts([k1, k2], bag, interp) == first + [Render(v2)]
  {
    assert [k1, k2][1..] == [k2];
    assert [k2][1..] == [];
    assert KeyStep(first, k2, bag, interp) == first + [Render(v2)];
    assert ExprPartsFrom([], [k1, k2], bag, interp) == ExprPartsFrom(first, [k2], bag, interp);
  }

  /** Both expressions evaluate against a `PlainUser`: the id, then the second argument. */
  lemma ExprPartsExample(bag: Bag)
    requires "p0" in bag && bag["p0"] == Some(PlainUser(1, "Alice")) && "p1" in bag && bag["p1"] == Some(LongValue(9))
    ensures ExprParts(SpelKeys, bag, Interp) == ["1", "9"]
  {
    EvalExamples(bag);
    TrimExamples();
    TwoEvaluated("#p0.id", "#p1", bag, Interp, LongValue(1), LongValue(9));
    DecimalOneNine();
    assert Render(LongValue(1)) == "1" && Render(LongValue(9)) == "9";
  }

  /** `#p0.id` spelled as a dot-join, the shape the fallback lemma takes. */
  lemma P0IdIsJoin()
    ensures "#p0.id" == "#" + Join(".", ["p0"] + ["id"])
    ensures '.' !in "p0" && '.' !in "id"
  {
    assert ["p0"] + ["id"] == ["p0", "id"];
    assert ["p0", "id"][..1] == ["p0"];
    assert Join(".", ["p0", "id"]) == "p0" + "." + "id";
    NoDotInP0P1();
    assert "id"[0] != '.' && "id"[1] != '.';
  }

  /**
   * Against a `User`, `#p0.id` fails to evaluate, and since nothing has been
   * collected yet the fallback reads the declared field `id` of `p0`.
   */
  lemma FallbackExample(bag: Bag)
    requires "p0" in bag && bag["p0"] == Some(User(1, "Alice")) && "p1" in bag && bag["p1"] == Some(LongValue(9))
    ensures KeyStep([], "#p0.id", bag, Interp) == ["1"]
    ensures ExprParts(SpelKeys, bag, Interp) == ["1", "9"]
  {
    EvalFailsOnUser(bag);
    P0IdIsJoin();
    FallbackWalksVariable("#p0.id", "p0", ["id"], bag, Interp);
    assert ["id"][1..] == [];
    assert Walk(User(1, "Alice"), ["id"], Interp) == Some(LongValue(1));
    DecimalOneNine();
    assert Render(LongValue(1)) == "1" && Render(LongValue(9)) == "9";
    TrimExamples();
    FirstThenEvaluated("#p0.id", "#p1", bag, Interp, ["1"], LongValue(9));
  }

  /** The variables of a two-argument call bind `p0` and `p1` to its arguments. */
  lemma BindsP0P1(m: MethodInfo, args: seq<Option<Value>>)
    requires m.names == Names && |m.params| == 2 && |args| == 2
    ensures var bag := VariableBag(m, args, "args");
            "p0" in bag && bag["p0"] == args[0] && "p1" in bag && bag["p1"] == args[1]
  {
    VariableBagBinds(m, args, "args");
    IndexZeroAndOne();
  }

  /** The expression parts of `onlySpEL`: both expressions evaluate. */
  lemma OnlySpELExprParts()
    ensures ExprParts(SpelKeys, VariableBag(OnlySpEL, PlainArgs, "args"), Interp) == ["1", "9"]
  {
    BindsP0P1(OnlySpEL, PlainArgs);
    ExprPartsExample(VariableBag(OnlySpEL, PlainArgs, "args"));
  }

  /** The expression parts of `unionBoth`: `#p0.id` through the fallback, then `#p1`. */
  lemma UnionBothExprParts()
    ensures ExprParts(SpelKeys, VariableBag(OnlyParam, Args, "args"), Interp) == ["1", "9"]
  {
    BindsP0P1(OnlyParam, Args);
    FallbackExample(VariableBag(OnlyParam, Args, "args"));
  }

  lemma JoinThree(d: string, a: string, b: string, c: string)
    ensures Join(d, [a, b, c]) == a + d + b + d + c
  {
    assert [a, b, c][..2] == [a, b];
    assert [a, b][..1] == [a];
    assert Join(d, [a, b]) == a + d + b;
    assert Join(d, [a, b, c]) == Join(d, [a, b]) + d + c;
  }

  lemma JoinFive(d: string, a: string, b: string, c: string, e: string, f: string)
    ensures Join(d, [a, b, c, e, f]) == a + d + b + d + c + d + e + d + f
  {
    assert [a, b, c, e, f][..4] == [a, b, c, e];
    assert [a, b, c, e][..3] == [a, b, c];
    JoinThree(d, a, b, c);
    assert Join(d, [a, b, c, e]) == Join(d, [a, b, c]) + d + e;
    assert Join(d, [a, b, c, e, f]) == Join(d, [a, b, c, e]) + d + f;
  }

  // --------------------------------------------------------------- the keys

  /** The key of a call under `prefix = "dl"`, `delimiter = ":"`, given its parameter and expression parts. */
  lemma KeyFromGroups(lock: Lock, m: MethodInfo, args: seq<Option<Value>>, interp: Interpreter,
                      ps: seq<string>, es: seq<string>)
    requires MatchesArgs(m, args) && lock.prefix == "dl" && lock.delimiter == ":"
    requires ParamParts(m.params, args, interp) == ps
    requires ExprParts(lock.keys, VariableBag(m, args, "args"), interp) == es
    ensures KeyOf(lock, m, args, "args", interp) == Join(":", ["dl"] + ps + es)
  {
    TrimExamples();
  }

  /** The two joins the tests expect. */
  lemma ExpectedJoins()
    ensures Join(":", ["dl"] + [] + ["1", "9"]) == "dl:1:9"
    ensures Join(":", ["dl"] + ["1", "9"] + []) == "dl:1:9"
    ensures Join(":", ["dl"] + ["1", "9"] + ["1", "9"]) == "dl:1:9:1:9"
  {
    assert ["dl"] + [] + ["1", "9"] == ["dl", "1", "9"];
    assert ["dl"] + ["1", "9"] + [] == ["dl", "1", "9"];
    assert ["dl"] + ["1", "9"] + ["1", "9"] == ["dl", "1", "9", "1", "9"];
    JoinThree(":", "dl", "1", "9");
    JoinFive(":", "dl", "1", "9", "1", "9");
  }

  /** Key expressions only: `dl:1:9`. */
  lemma BuildKeyWithSpELOnly()
    ensures KeyOf(TestLock(SpelKeys), OnlySpEL, PlainArgs, "args", Interp) == "dl:1:9"
  {
    OnlySpELParamParts();
    OnlySpELExprParts();
    KeyFromGroups(TestLock(SpelKeys), OnlySpEL, PlainArgs, Interp, [], ["1", "9"]);
    ExpectedJoins();
  }

  /** Tagged parameters only: `dl:1:9`. */
  lemma BuildKeyWithParamOnly()
    ensures KeyOf(TestLock([]), OnlyParam, Args, "args", Interp) == "dl:1:9"
  {
    TaggedParamParts();
    KeyFromGroups(TestLock([]), OnlyParam, Args, Interp, ["1", "9"], []);
    ExpectedJoins();
  }

  /** Both, parameter parts first: `dl:1:9:1:9`. */
  lemma BuildKeyUnionBothParamFirstThenSpEL()
    ensures KeyOf(TestLock(SpelKeys), OnlyParam, Args, "args", Interp) == "dl:1:9:1:9"
  {
    TaggedParamParts();
    UnionBothExprParts();
    KeyFromGroups(TestLock(SpelKeys), OnlyParam, Args, Interp, ["1", "9"], ["1", "9"]);
    ExpectedJoins();
  }

  /** A tagged field of an untagged parameter, then a tagged parameter: `dl:1:9`. */
  lemma BuildKeyWithFieldOnly()
    ensures KeyOf(TestLock([]), OnlyField, Args, "args", Interp) == "dl:1:9"
  {
    FieldParamParts();
    KeyFromGroups(TestLock([]), OnlyField, Args, Interp, ["1", "9"], []);
    ExpectedJoins();
  }
}
