/** Expressions to JSON and back: which trees survive, and what is lost. */
module ExpressionSerialization {
  import opened Sequences

  /** Failures are failed assertions on keys and argument counts, or `.value()` of an empty optional. */
  datatype Outcome<T> = Ok(value: T) | AssertionFailed | BadOptionalAccess

  // ----- enumerators, represented by the names they are serialised with -----

  const TYPES := ["kAggregate", "kArithmetic", "kCase", "kCast", "kExtract", "kList", "kLogical", "kPqpColumn",
                  "kPredicate", "kUnaryMinus", "kValue"]

  const FUNCTIONS := ["kAny", "kAvg", "kCount", "kCountDistinct", "kMax", "kMin", "kStandardDeviationSample",
                      "kStringAgg", "kSum"]

  const OPERATORS := ["kAddition", "kSubtraction", "kMultiplication", "kDivision", "kModulo"]

  const CONNECTIVES := ["kAnd", "kOr"]

  const COMPONENTS := ["kYear", "kMonth", "kDay", "kHour", "kMinute", "kSecond"]

  const DATA_TYPES := ["kNull", "kInt", "kLong", "kFloat", "kDouble", "kString"]

  const BINARY_CONDITIONS := ["kEquals", "kNotEquals", "kLessThan", "kLessThanEquals", "kGreaterThan",
                              "kGreaterThanEquals", "kLike", "kNotLike"]

  const BETWEEN_CONDITIONS := ["kBetweenInclusive", "kBetweenLowerExclusive", "kBetweenUpperExclusive",
                               "kBetweenExclusive"]

  const IN_CONDITIONS := ["kIn", "kNotIn"]

  const NULL_CONDITIONS := ["kIsNull", "kIsNotNull"]

  function Conditions(): seq<string> {
    BINARY_CONDITIONS + BETWEEN_CONDITIONS + IN_CONDITIONS + NULL_CONDITIONS
  }

  // ----- expressions -----

  datatype Literal =
    | NullLiteral
    | IntLiteral(i: int)
    | LongLiteral(i: int)
    | FloatLiteral(r: real)
    | DoubleLiteral(r: real)
    | StringLiteral(s: string)
  {
    function TypeName(): string {
      match this
      case NullLiteral => "kNull"
      case IntLiteral(_) => "kInt"
      case LongLiteral(_) => "kLong"
      case FloatLiteral(_) => "kFloat"
      case DoubleLiteral(_) => "kDouble"
      case StringLiteral(_) => "kString"
    }
  }

  datatype Option<T> = None | Some(value: T)

  /** The class of an expression with its members. StringAggregate is the subclass of Aggregate for STRING_AGG; it has
      an order within the group, which may be empty, or none. */
  datatype Kind =
    | Aggregate(f: string)
    | StringAggregate(order: Option<seq<string>>)
    | Arithmetic(operator: string)
    | Case
    | Cast(dataType: string)
    | Extract(component: string)
    | List
    | Logical(connective: string)
    | PqpColumn(id: nat, dataType: string, nullable: bool, name: string)
    | Predicate(condition: string)
    | UnaryMinus
    | Value(literal: Literal)
  {
    function TypeName(): string {
      match this
      case Aggregate(_) => "kAggregate"
      case StringAggregate(_) => "kAggregate"
      case Arithmetic(_) => "kArithmetic"
      case Case => "kCase"
      case Cast(_) => "kCast"
      case Extract(_) => "kExtract"
      case List => "kList"
      case Logical(_) => "kLogical"
      case PqpColumn(_, _, _, _) => "kPqpColumn"
      case Predicate(_) => "kPredicate"
      case UnaryMinus => "kUnaryMinus"
      case Value(_) => "kValue"
    }

    /** Members that hold enumerators hold enumerators of the right enumeration. */
    predicate Typed() {
      match this
      case Aggregate(f) => f in FUNCTIONS
      case Arithmetic(o) => o in OPERATORS
      case Cast(d) => d in DATA_TYPES
      case Extract(c) => c in COMPONENTS
      case Logical(c) => c in CONNECTIVES
      case PqpColumn(id, d, _, _) => d in DATA_TYPES && id < 0x1_0000_0000
      case Predicate(c) => c in Conditions()
      case _ => true
    }

    /** The base class of the class: what the subclass for STRING_AGG adds is gone. */
    function Base(): Kind {
      if StringAggregate? then Aggregate("kStringAgg") else this
    }

    /** The argument counts for which the class has a constructor. */
    predicate Takes(n: nat) {
      match this
      case Aggregate(_) => n == 1
      case StringAggregate(_) => n == 1
      case Arithmetic(_) => n == 2
      case Case => n == 3
      case Cast(_) => n == 1
      case Extract(_) => n == 1
      case List => true
      case Logical(_) => n == 2
      case PqpColumn(_, _, _, _) => n == 0
      case Predicate(c) => n == if c in BETWEEN_CONDITIONS then 3 else if c in NULL_CONDITIONS then 1 else 2
      case UnaryMinus => n == 1
      case Value(_) => true
    }
  }

  datatype Expression = Expression(kind: Kind, arguments: seq<Expression>)

  /** What the classes guarantee: proper enumerators, and literals without arguments. */
  predicate Typed(e: Expression) {
    && e.kind.Typed() && (e.kind.Value? ==> e.arguments == [])
    && forall i :: 0 <= i < |e.arguments| ==> Typed(e.arguments[i])
  }

  /** Every node has as many arguments as its class takes. */
  predicate WellFormed(e: Expression) {
    e.kind.Takes(|e.arguments|) && forall i :: 0 <= i < |e.arguments| ==> WellFormed(e.arguments[i])
  }

  // ----- equality -----

  /** ShallowEquals; aggregates compare their functions only, whatever their classes. */
  predicate ShallowEquals(a: Kind, b: Kind) {
    match (a.Base(), b.Base())
    case (Aggregate(f), Aggregate(g)) => f == g
    case (Value(NullLiteral), Value(NullLiteral)) => true
    case (Value(x), Value(y)) => x == y
    case _ => a == b
  }

  /** operator==: same type, same members, equal arguments. */
  predicate Equals(a: Expression, b: Expression) {
    && a.kind.TypeName() == b.kind.TypeName() && ShallowEquals(a.kind, b.kind)
    && |a.arguments| == |b.arguments|
    && forall i :: 0 <= i < |a.arguments| ==> Equals(a.arguments[i], b.arguments[i])
  }

  // ----- JSON -----

  datatype Scalar = Str(s: string) | Num(i: int) | Real(r: real)

  datatype Json = Json(fields: map<string, Scalar>, arguments: seq<Json>)

  /** GetString: the empty string for a missing key or another type. */
  function GetString(fields: map<string, Scalar>, key: string): string {
    if key in fields && fields[key].Str? then fields[key].s else ""
  }

  function GetInteger(fields: map<string, Scalar>, key: string): int {
    if key in fields && fields[key].Num? then fields[key].i else 0
  }

  function GetDouble(fields: map<string, Scalar>, key: string): real {
    if key in fields && fields[key].Real? then fields[key].r else 0.0
  }

  function LiteralFields(v: Literal): map<string, Scalar> {
    match v
    case NullLiteral => map[]
    case IntLiteral(i) => map["value" := Num(i)]
    case LongLiteral(i) => map["value" := Num(i)]
    case FloatLiteral(r) => map["value" := Real(r)]
    case DoubleLiteral(r) => map["value" := Real(r)]
    case StringLiteral(s) => map["value" := Str(s)]
  }

  /** The Serialize…Expression helpers: the members of the class. */
  function MemberFields(kind: Kind): map<string, Scalar> {
    match kind
    case Aggregate(f) => map["aggregate_function" := Str(f)]
    case StringAggregate(_) => map["aggregate_function" := Str("kStringAgg")]
    case Arithmetic(o) => map["arithmetic_operator" := Str(o)]
    case Cast(d) => map["data_type" := Str(d)]
    case Extract(c) => map["datetime_component" := Str(c)]
    case Logical(c) => map["logical_operator" := Str(c)]
    case PqpColumn(id, d, nullable, name) =>
      map["column_id" := Num(id), "data_type" := Str(d), "is_nullable" := Num(if nullable then 1 else 0),
          "column_name" := Str(name)]
    case Predicate(c) => map["predicate_condition" := Str(c)]
    case Value(v) => map["value_type" := Str(v.TypeName())] + LiteralFields(v)
    case Case => map[]
    case List => map[]
    case UnaryMinus => map[]
  }

  function Serialize(e: Expression): Json {
    Json(map["type" := Str(e.kind.TypeName())] + MemberFields(e.kind),
         seq(|e.arguments|, i requires 0 <= i < |e.arguments| => Serialize(e.arguments[i])))
  }

  // ----- and back -----

  /** enum_cast(...).value() followed by the construction and the assertion on the argument count. */
  function Construct(known: bool, counted: bool, kind: Kind, arguments: seq<Expression>): Outcome<Expression> {
    if !known then BadOptionalAccess
    else if !counted then AssertionFailed
    else Ok(Expression(kind, arguments))
  }

  function LiteralFrom(fields: map<string, Scalar>): Outcome<Literal> {
    var name := GetString(fields, "value_type");
    if name == "kNull" then Ok(NullLiteral)
    else if name == "kInt" then Ok(IntLiteral(GetInteger(fields, "value")))
    else if name == "kLong" then Ok(LongLiteral(GetInteger(fields, "value")))
    else if name == "kFloat" then Ok(FloatLiteral(GetDouble(fields, "value")))
    else if name == "kDouble" then Ok(DoubleLiteral(GetDouble(fields, "value")))
    else if name == "kString" then Ok(StringLiteral(GetString(fields, "value")))
    else BadOptionalAccess
  }

  /** The Construct…Expression functions. */
  function ConstructExpression(fields: map<string, Scalar>, args: seq<Expression>): Outcome<Expression> {
    var name := GetString(fields, "type");
    if name == "kAggregate" then
      var f := GetString(fields, "aggregate_function");
      if "aggregate_function" !in fields || |args| != 1 then AssertionFailed
      else Construct(f in FUNCTIONS, true, Aggregate(f), args)
    else if name == "kArithmetic" then
      var o := GetString(fields, "arithmetic_operator");
      Construct(o in OPERATORS, |args| == 2, Arithmetic(o), args)
    else if name == "kCase" then Construct(true, |args| == 3, Case, args)
    else if name == "kCast" then
      var d := GetString(fields, "data_type");
      if |args| != 1 then AssertionFailed else Construct(d in DATA_TYPES, true, Cast(d), args)
    else if name == "kExtract" then
      var c := GetString(fields, "datetime_component");
      Construct(c in COMPONENTS, |args| == 1, Extract(c), args)
    else if name == "kLogical" then
      var c := GetString(fields, "logical_operator");
      Construct(c in CONNECTIVES, |args| == 2, Logical(c), args)
    else if name == "kList" then Ok(Expression(List, args))
    else if name == "kPqpColumn" then
      var d := GetString(fields, "data_type");
      if args != [] then AssertionFailed
      else Construct(d in DATA_TYPES, true,
                     PqpColumn(ToColumnId(GetInteger(fields, "column_id")), d, GetInteger(fields, "is_nullable") == 1,
                               GetString(fields, "column_name")), args)
    else if name == "kPredicate" then
      var c := GetString(fields, "predicate_condition");
      Construct(c in Conditions(), Predicate(c).Takes(|args|), Predicate(c), args)
    else if name == "kUnaryMinus" then Construct(true, |args| == 1, UnaryMinus, args)
    else if name == "kValue" then
      match LiteralFrom(fields)
      case Ok(v) => Ok(Expression(Value(v), []))
      case AssertionFailed => AssertionFailed
      case BadOptionalAccess => BadOptionalAccess
    else AssertionFailed
  }

  /** A ColumnId is a uint32_t. */
  function ToColumnId(i: int): nat {
    i % 0x1_0000_0000
  }

  function Both(front: Outcome<seq<Expression>>, last: Outcome<Expression>): Outcome<seq<Expression>> {
    match front
    case AssertionFailed => AssertionFailed
    case BadOptionalAccess => BadOptionalAccess
    case Ok(es) =>
      match last
      case AssertionFailed => AssertionFailed
      case BadOptionalAccess => BadOptionalAccess
      case Ok(e) => Ok(es + [e])
  }

  /** The arguments first, from left to right; the first failure wins. */
  function DeserializeAll(jsons: seq<Json>): Outcome<seq<Expression>> {
    if jsons == [] then Ok([]) else Both(DeserializeAll(jsons[..|jsons| - 1]), Deserialize(jsons[|jsons| - 1]))
  }

  function Deserialize(json: Json): Outcome<Expression> {
    if GetString(json.fields, "type") !in TYPES then AssertionFailed
    else
      match DeserializeAll(json.arguments)
      case AssertionFailed => AssertionFailed
      case BadOptionalAccess => BadOptionalAccess
      case Ok(args) => ConstructExpression(json.fields, args)
  }

  // ----- the same with loops over the arguments -----

  method SerializeExpression(e: Expression) returns (json: Json)
    ensures json == Serialize(e)
    decreases e, 1
  {
    var arguments := SerializeArguments(e);
    json := Json(map["type" := Str(e.kind.TypeName())] + MemberFields(e.kind), arguments);
  }

  method SerializeArguments(e: Expression) returns (jsons: seq<Json>)
    ensures jsons == Serialize(e).arguments
    decreases e, 0
  {
    jsons := [];
    for i := 0 to |e.arguments|
      invariant |jsons| == i && forall k :: 0 <= k < i ==> jsons[k] == Serialize(e.arguments[k])
    {
      var json := SerializeExpression(e.arguments[i]);
      jsons := jsons + [json];
    }
  }

  method DeserializeExpression(json: Json) returns (r: Outcome<Expression>)
    ensures r == Deserialize(json)
    decreases json, 1
  {
    if GetString(json.fields, "type") !in TYPES {
      return AssertionFailed;
    }
    var args := DeserializeArguments(json);
    match args {
      case AssertionFailed => r := AssertionFailed;
      case BadOptionalAccess => r := BadOptionalAccess;
      case Ok(arguments) => r := ConstructExpression(json.fields, arguments);
    }
  }

  method DeserializeArguments(json: Json) returns (r: Outcome<seq<Expression>>)
    ensures r == DeserializeAll(json.arguments)
    decreases json, 0
  {
    var arguments: seq<Expression> := [];
    for i := 0 to |json.arguments|
      invariant DeserializeAll(json.arguments[..i]) == Ok(arguments)
    {
      DeserializeSnoc(json.arguments, i);
      var one := DeserializeExpression(json.arguments[i]);
      if !one.Ok? {
        FirstFailure(json.arguments, i + 1);
        return if one.AssertionFailed? then AssertionFailed else BadOptionalAccess;
      }
      arguments := arguments + [one.value];
    }
    TakeAll(json.arguments);
    r := Ok(arguments);
  }

  lemma {:induction false} FirstFailure(jsons: seq<Json>, n: nat)
    requires n <= |jsons| && !DeserializeAll(jsons[..n]).Ok?
    ensures DeserializeAll(jsons) == DeserializeAll(jsons[..n])
    decreases |jsons| - n
  {
    if n == |jsons| {
      assert jsons[..n] == jsons;
    } else {
      TakeTwice(jsons, n);
      FirstFailure(jsons, n + 1);
    }
  }

  // ----- the round trip -----

  /** The expression with the base class in place of every StringAggregate. */
  function Reduced(e: Expression): Expression {
    Expression(e.kind.Base(), seq(|e.arguments|, i requires 0 <= i < |e.arguments| => Reduced(e.arguments[i])))
  }

  /** Some node is of the subclass for STRING_AGG, with an order or without. */
  predicate HasStringAggregate(e: Expression) {
    e.kind.StringAggregate? || exists i :: 0 <= i < |e.arguments| && HasStringAggregate(e.arguments[i])
  }

  lemma LiteralRoundTrip(v: Literal, fields: map<string, Scalar>)
    requires "value_type" in fields && fields["value_type"] == Str(v.TypeName())
    requires !v.NullLiteral? ==> "value" in fields && fields["value"] == LiteralFields(v)["value"]
    ensures LiteralFrom(fields) == Ok(v)
  {}

  ghost predicate NodeComesBack(kind: Kind, fields: map<string, Scalar>, args: seq<Expression>) {
    ConstructExpression(fields, args) ==
    if kind.Takes(|args|) then Ok(Expression(kind.Base(), args)) else AssertionFailed
  }

  ghost predicate FieldsOf(kind: Kind, fields: map<string, Scalar>) {
    fields == map["type" := Str(kind.TypeName())] + MemberFields(kind)
  }

  lemma ColumnRoundTrip(kind: Kind, fields: map<string, Scalar>, args: seq<Expression>)
    requires kind.Typed() && FieldsOf(kind, fields) && kind.PqpColumn?
    ensures NodeComesBack(kind, fields, args)
  {
    assert GetString(fields, "type") == kind.TypeName();
    assert GetString(fields, "data_type") == kind.dataType && GetString(fields, "column_name") == kind.name;
  }

  lemma LiteralFieldsKept(v: Literal, fields: map<string, Scalar>)
    requires FieldsOf(Value(v), fields)
    ensures GetString(fields, "type") == "kValue"
    ensures "value_type" in fields && fields["value_type"] == Str(v.TypeName())
    ensures !v.NullLiteral? ==> "value" in fields && fields["value"] == LiteralFields(v)["value"]
  {}

  lemma ValueRoundTrip(kind: Kind, fields: map<string, Scalar>, args: seq<Expression>)
    requires kind.Typed() && FieldsOf(kind, fields) && kind.Value? && args == []
    ensures NodeComesBack(kind, fields, args)
  {
    LiteralFieldsKept(kind.literal, fields);
    LiteralRoundTrip(kind.literal, fields);
  }

  lemma AggregateRoundTrip(kind: Kind, fields: map<string, Scalar>, args: seq<Expression>)
    requires kind.Typed() && FieldsOf(kind, fields) && (kind.Aggregate? || kind.StringAggregate?)
    ensures NodeComesBack(kind, fields, args)
  {
    assert GetString(fields, "type") == kind.TypeName();
  }

  lemma OperatorRoundTrip(kind: Kind, fields: map<string, Scalar>, args: seq<Expression>)
    requires kind.Typed() && FieldsOf(kind, fields)
    requires kind.Arithmetic? || kind.Logical? || kind.Predicate? || kind.UnaryMinus?
    ensures NodeComesBack(kind, fields, args)
  {
    assert GetString(fields, "type") == kind.TypeName();
  }

  lemma OtherRoundTrip(kind: Kind, fields: map<string, Scalar>, args: seq<Expression>)
    requires kind.Typed() && FieldsOf(kind, fields)
    requires kind.Case? || kind.Cast? || kind.Extract? || kind.List?
    ensures NodeComesBack(kind, fields, args)
  {
    assert GetString(fields, "type") == kind.TypeName();
  }

  /** One node, given its deserialised arguments: a node of the base class comes back. */
  lemma NodeRoundTrip(kind: Kind, fields: map<string, Scalar>, args: seq<Expression>)
    requires kind.Typed() && (kind.Value? ==> args == [])
    requires fields == map["type" := Str(kind.TypeName())] + MemberFields(kind)
    ensures ConstructExpression(fields, args) ==
            if kind.Takes(|args|) then Ok(Expression(kind.Base(), args)) else AssertionFailed
  {
    assert FieldsOf(kind, fields);
    match kind {
      case Value(_) => ValueRoundTrip(kind, fields, args);
      case PqpColumn(_, _, _, _) => ColumnRoundTrip(kind, fields, args);
      case Aggregate(_) => AggregateRoundTrip(kind, fields, args);
      case StringAggregate(_) => AggregateRoundTrip(kind, fields, args);
      case Arithmetic(_) => OperatorRoundTrip(kind, fields, args);
      case Logical(_) => OperatorRoundTrip(kind, fields, args);
      case Predicate(_) => OperatorRoundTrip(kind, fields, args);
      case UnaryMinus => OperatorRoundTrip(kind, fields, args);
      case _ => OtherRoundTrip(kind, fields, args);
    }
    assert NodeComesBack(kind, fields, args);
  }

  lemma DeserializeSnoc(jsons: seq<Json>, n: nat)
    requires n < |jsons|
    ensures DeserializeAll(jsons[..n + 1]) == Both(DeserializeAll(jsons[..n]), Deserialize(jsons[n]))
  {
    TakeTwice(jsons, n);
  }

  /** Each argument for itself either comes back or fails an assertion. */
  ghost predicate EachComesBack(jsons: seq<Json>, back: seq<Expression>, ok: seq<bool>) {
    |jsons| == |back| == |ok| &&
    forall i :: 0 <= i < |jsons| ==> Deserialize(jsons[i]) == if ok[i] then Ok(back[i]) else AssertionFailed
  }

  lemma {:induction false} AllComeBack(jsons: seq<Json>, back: seq<Expression>, ok: seq<bool>, n: nat)
    requires EachComesBack(jsons, back, ok) && n <= |jsons|
    ensures DeserializeAll(jsons[..n]) == if false in ok[..n] then AssertionFailed else Ok(back[..n])
  {
    if n > 0 {
      AllComeBack(jsons, back, ok, n - 1);
      DeserializeSnoc(jsons, n - 1);
      TakeNext(back, n - 1);
      TakeNext(ok, n - 1);
    }
  }

  lemma TypeKnown(e: Expression)
    ensures GetString(Serialize(e).fields, "type") == e.kind.TypeName() && e.kind.TypeName() in TYPES
  {
    assert "type" !in MemberFields(e.kind);
  }

  function Oks(e: Expression): (r: seq<bool>)
    ensures |r| == |e.arguments| && forall i :: 0 <= i < |r| ==> r[i] == WellFormed(e.arguments[i])
  {
    seq(|e.arguments|, i requires 0 <= i < |e.arguments| => WellFormed(e.arguments[i]))
  }

  lemma ArgumentsComeBack(e: Expression)
    requires EachComesBack(Serialize(e).arguments, Reduced(e).arguments, Oks(e))
    ensures DeserializeAll(Serialize(e).arguments) ==
            if false in Oks(e) then AssertionFailed else Ok(Reduced(e).arguments)
  {
    var jsons, back, ok := Serialize(e).arguments, Reduced(e).arguments, Oks(e);
    AllComeBack(jsons, back, ok, |jsons|);
    TakeAll(jsons);
    TakeAll(back);
    TakeAll(ok);
  }

  /** Deserialising what was serialised succeeds exactly for well-formed trees, and only drops what the subclass for
      STRING_AGG adds. */
  lemma {:induction false} RoundTrip(e: Expression)
    requires Typed(e)
    ensures Deserialize(Serialize(e)) == if WellFormed(e) then Ok(Reduced(e)) else AssertionFailed
  {
    forall i | 0 <= i < |e.arguments|
      ensures Deserialize(Serialize(e).arguments[i]) ==
              if Oks(e)[i] then Ok(Reduced(e).arguments[i]) else AssertionFailed
    {
      RoundTrip(e.arguments[i]);
    }
    ArgumentsComeBack(e);
    TypeKnown(e);
    NodeRoundTrip(e.kind, Serialize(e).fields, Reduced(e).arguments);
    assert WellFormed(e) <==> e.kind.Takes(|e.arguments|) && false !in Oks(e);
  }

  /** The repository's equality does not notice the lost class and order. */
  lemma {:induction false} ReducedEquals(e: Expression)
    ensures Equals(e, Reduced(e)) && Equals(Reduced(e), e)
  {
    forall i | 0 <= i < |e.arguments|
      ensures Equals(e.arguments[i], Reduced(e).arguments[i]) && Equals(Reduced(e).arguments[i], e.arguments[i])
    {
      ReducedEquals(e.arguments[i]);
    }
  }

  /** ... although the expression is the same only when no node is of that subclass. */
  lemma {:induction false} ReducedSame(e: Expression)
    ensures Reduced(e) == e <==> !HasStringAggregate(e)
  {
    forall i | 0 <= i < |e.arguments|
      ensures Reduced(e).arguments[i] == e.arguments[i] <==> !HasStringAggregate(e.arguments[i])
    {
      ReducedSame(e.arguments[i]);
    }
    if !HasStringAggregate(e) {
      assert Reduced(e).arguments == e.arguments;
    }
    if Reduced(e) == e {
      assert forall i :: 0 <= i < |e.arguments| ==> Reduced(e).arguments[i] == e.arguments[i];
    }
  }

  /** For every well-formed expression, the round trip succeeds and gives an equal expression; it is the same expression
      exactly when no node is a StringAggregate. */
  lemma RoundTripEquals(e: Expression)
    requires Typed(e) && WellFormed(e)
    ensures Deserialize(Serialize(e)).Ok? && Equals(Deserialize(Serialize(e)).value, e)
    ensures Deserialize(Serialize(e)).value == e <==> !HasStringAggregate(e)
  {
    RoundTrip(e);
    ReducedEquals(e);
    ReducedSame(e);
  }

  /** STRING_AGG of a column: whether it has no order, an empty one or a proper one, the same expression comes back. */
  lemma OrderLost(order: Option<seq<string>>)
    ensures var column := Expression(PqpColumn(0, "kString", false, "name"), []);
            Deserialize(Serialize(Expression(StringAggregate(order), [column]))) ==
            Ok(Expression(Aggregate("kStringAgg"), [column]))
  {
    var column := Expression(PqpColumn(0, "kString", false, "name"), []);
    var e := Expression(StringAggregate(order), [column]);
    assert e.arguments[0] == column && Typed(column) && WellFormed(column);
    RoundTrip(e);
    assert Reduced(column) == column;
    assert Reduced(e).arguments == [column];
  }

  // ----- when expressions are equal -----

  lemma {:induction false} EqualsReduced(a: Expression, b: Expression)
    ensures Equals(a, b) <==> Reduced(a) == Reduced(b)
  {
    var x, y := Reduced(a), Reduced(b);
    if |a.arguments| == |b.arguments| {
      forall i | 0 <= i < |a.arguments|
        ensures Equals(a.arguments[i], b.arguments[i]) <==> x.arguments[i] == y.arguments[i]
      {
        EqualsReduced(a.arguments[i], b.arguments[i]);
      }
      assert x.arguments == y.arguments <==>
             forall i :: 0 <= i < |a.arguments| ==> Equals(a.arguments[i], b.arguments[i]);
    }
    ShallowReduced(a.kind, b.kind);
  }

  lemma ShallowReduced(a: Kind, b: Kind)
    ensures a.TypeName() == b.TypeName() && ShallowEquals(a, b) <==> a.Base() == b.Base()
  {}

  lemma {:induction false} SerializedReduced(e: Expression)
    ensures Serialize(Reduced(e)) == Serialize(e)
  {
    forall i | 0 <= i < |e.arguments|
      ensures Serialize(Reduced(e)).arguments[i] == Serialize(e).arguments[i]
    {
      SerializedReduced(e.arguments[i]);
    }
    assert Serialize(Reduced(e)).arguments == Serialize(e).arguments;
  }

  /** Well-formed expressions are equal exactly when they are written alike. */
  lemma EqualsExact(a: Expression, b: Expression)
    requires Typed(a) && WellFormed(a) && Typed(b) && WellFormed(b)
    ensures Equals(a, b) <==> Serialize(a) == Serialize(b)
  {
    EqualsReduced(a, b);
    SerializedReduced(a);
    SerializedReduced(b);
    RoundTrip(a);
    RoundTrip(b);
  }

  // ----- what is written -----

  /** The members of a node, by name. */
  ghost predicate Writes(fields: map<string, Scalar>, kind: Kind) {
    match kind
    case Aggregate(f) =>
      fields == map["type" := Str("kAggregate"), "aggregate_function" := Str(f)]
    case StringAggregate(_) =>
      fields == map["type" := Str("kAggregate"), "aggregate_function" := Str("kStringAgg")]
    case Arithmetic(o) => fields == map["type" := Str("kArithmetic"), "arithmetic_operator" := Str(o)]
    case Case => fields == map["type" := Str("kCase")]
    case Cast(d) => fields == map["type" := Str("kCast"), "data_type" := Str(d)]
    case Extract(c) => fields == map["type" := Str("kExtract"), "datetime_component" := Str(c)]
    case List => fields == map["type" := Str("kList")]
    case Logical(c) => fields == map["type" := Str("kLogical"), "logical_operator" := Str(c)]
    case PqpColumn(id, d, nullable, name) =>
      fields == map["type" := Str("kPqpColumn"), "column_id" := Num(id), "data_type" := Str(d),
                    "is_nullable" := Num(if nullable then 1 else 0), "column_name" := Str(name)]
    case Predicate(c) => fields == map["type" := Str("kPredicate"), "predicate_condition" := Str(c)]
    case UnaryMinus => fields == map["type" := Str("kUnaryMinus")]
    case Value(NullLiteral) => fields == map["type" := Str("kValue"), "value_type" := Str("kNull")]
    case Value(IntLiteral(i)) => fields == map["type" := Str("kValue"), "value_type" := Str("kInt"), "value" := Num(i)]
    case Value(LongLiteral(i)) =>
      fields == map["type" := Str("kValue"), "value_type" := Str("kLong"), "value" := Num(i)]
    case Value(FloatLiteral(r)) =>
      fields == map["type" := Str("kValue"), "value_type" := Str("kFloat"), "value" := Real(r)]
    case Value(DoubleLiteral(r)) =>
      fields == map["type" := Str("kValue"), "value_type" := Str("kDouble"), "value" := Real(r)]
    case Value(StringLiteral(s)) =>
      fields == map["type" := Str("kValue"), "value_type" := Str("kString"), "value" := Str(s)]
  }

  lemma LiteralWritten(v: Literal)
    ensures Writes(map["type" := Str("kValue")] + MemberFields(Value(v)), Value(v))
  {}

  lemma ColumnWritten(kind: Kind)
    requires kind.PqpColumn?
    ensures Writes(map["type" := Str("kPqpColumn")] + MemberFields(kind), kind)
  {}

  lemma FieldsExact(e: Expression)
    ensures Writes(Serialize(e).fields, e.kind)
  {
    match e.kind
    case Value(v) => LiteralWritten(v);
    case PqpColumn(_, _, _, _) => ColumnWritten(e.kind);
    case _ =>
  }

  /** The names that a node may hold. */
  lemma NamesExact(kind: Kind)
    ensures kind.Typed() <==>
            match kind
            case Aggregate(f) => f in {"kAny", "kAvg", "kCount", "kCountDistinct", "kMax", "kMin",
                                       "kStandardDeviationSample", "kStringAgg", "kSum"}
            case Arithmetic(o) => o in {"kAddition", "kSubtraction", "kMultiplication", "kDivision", "kModulo"}
            case Cast(d) => d in {"kNull", "kInt", "kLong", "kFloat", "kDouble", "kString"}
            case PqpColumn(id, d, _, _) =>
              id <= 4294967295 && d in {"kNull", "kInt", "kLong", "kFloat", "kDouble", "kString"}
            case Extract(c) => c in {"kYear", "kMonth", "kDay", "kHour", "kMinute", "kSecond"}
            case Logical(c) => c in {"kAnd", "kOr"}
            case Predicate(c) =>
              || c in {"kEquals", "kNotEquals", "kLessThan", "kLessThanEquals", "kGreaterThan", "kGreaterThanEquals"}
              || c in {"kLike", "kNotLike", "kIn", "kNotIn", "kIsNull", "kIsNotNull"}
              || c in {"kBetweenInclusive", "kBetweenLowerExclusive", "kBetweenUpperExclusive", "kBetweenExclusive"}
            case _ => true
  {}

  /** The argument counts of the conditions. */
  lemma ConditionCounts(c: string, n: nat)
    requires Predicate(c).Typed()
    ensures c in {"kBetweenInclusive", "kBetweenLowerExclusive", "kBetweenUpperExclusive", "kBetweenExclusive"} ==>
              (Predicate(c).Takes(n) <==> n == 3)
    ensures c in {"kIsNull", "kIsNotNull"} ==> (Predicate(c).Takes(n) <==> n == 1)
    ensures c in {"kEquals", "kNotEquals", "kLessThan", "kLessThanEquals"} ==> (Predicate(c).Takes(n) <==> n == 2)
    ensures c in {"kGreaterThan", "kGreaterThanEquals"} ==> (Predicate(c).Takes(n) <==> n == 2)
    ensures c in {"kLike", "kNotLike", "kIn", "kNotIn"} ==> (Predicate(c).Takes(n) <==> n == 2)
  {}

  // ----- whatever is read -----

  /** Properly typed, every node with its number of arguments, and no subclass for STRING_AGG. */
  predicate Readable(e: Expression) {
    Typed(e) && WellFormed(e) && !HasStringAggregate(e)
  }

  predicate AllReadable(es: seq<Expression>) {
    forall i :: 0 <= i < |es| ==> Readable(es[i])
  }

  lemma NodeReadable(kind: Kind, args: seq<Expression>)
    requires kind.Typed() && kind.Takes(|args|) && !kind.StringAggregate? && (kind.Value? ==> args == [])
    requires AllReadable(args)
    ensures Readable(Expression(kind, args))
  {}

  ghost predicate Constructed(e: Expression, args: seq<Expression>) {
    && e.kind.Typed() && e.kind.Takes(|e.arguments|) && !e.kind.StringAggregate?
    && e.arguments == if e.kind.Value? then [] else args
  }

  /** Classes whose failures are told apart by the order of the checks. */
  predicate ChecksName(fields: map<string, Scalar>) {
    GetString(fields, "type") in {"kArithmetic", "kExtract", "kLogical"}
  }

  lemma ConstructedOperator(fields: map<string, Scalar>, args: seq<Expression>)
    requires ConstructExpression(fields, args).Ok? && ChecksName(fields)
    ensures Constructed(ConstructExpression(fields, args).value, args)
  {}

  lemma ConstructedCondition(fields: map<string, Scalar>, args: seq<Expression>)
    requires ConstructExpression(fields, args).Ok? && GetString(fields, "type") == "kPredicate"
    ensures Constructed(ConstructExpression(fields, args).value, args)
  {}

  lemma ConstructedOther(fields: map<string, Scalar>, args: seq<Expression>)
    requires ConstructExpression(fields, args).Ok? && !ChecksName(fields) && GetString(fields, "type") != "kPredicate"
    ensures Constructed(ConstructExpression(fields, args).value, args)
  {}

  lemma ConstructedNode(fields: map<string, Scalar>, args: seq<Expression>)
    requires ConstructExpression(fields, args).Ok?
    ensures Constructed(ConstructExpression(fields, args).value, args)
  {
    if ChecksName(fields) {
      ConstructedOperator(fields, args);
    } else if GetString(fields, "type") == "kPredicate" {
      ConstructedCondition(fields, args);
    } else {
      ConstructedOther(fields, args);
    }
  }

  lemma ConstructedReadable(fields: map<string, Scalar>, args: seq<Expression>)
    requires ConstructExpression(fields, args).Ok? && AllReadable(args)
    ensures Readable(ConstructExpression(fields, args).value)
  {
    ConstructedNode(fields, args);
    var e := ConstructExpression(fields, args).value;
    NodeReadable(e.kind, e.arguments);
    assert e == Expression(e.kind, e.arguments);
  }

  lemma {:induction false} AllRead(jsons: seq<Json>)
    requires DeserializeAll(jsons).Ok?
    ensures AllReadable(DeserializeAll(jsons).value)
    decreases jsons
  {
    if jsons != [] {
      var last := jsons[|jsons| - 1];
      AllRead(jsons[..|jsons| - 1]);
      ReadReadable(last);
    }
  }

  lemma {:induction false} ReadReadable(json: Json)
    requires Deserialize(json).Ok?
    ensures Readable(Deserialize(json).value)
    decreases json
  {
    AllRead(json.arguments);
    ConstructedReadable(json.fields, DeserializeAll(json.arguments).value);
  }

  /** Whatever is read from any JSON comes back as itself when it is written and read once more. */
  lemma ReadStays(json: Json)
    requires Deserialize(json).Ok?
    ensures Deserialize(Serialize(Deserialize(json).value)) == Deserialize(json)
  {
    ReadReadable(json);
    RoundTrip(Deserialize(json).value);
    ReducedSame(Deserialize(json).value);
  }

  /** The name that the node needs is none of its enumeration. */
  ghost predicate UnknownName(fields: map<string, Scalar>, arguments: nat) {
    match GetString(fields, "type")
    case "kAggregate" =>
      "aggregate_function" in fields && arguments == 1 && !Aggregate(GetString(fields, "aggregate_function")).Typed()
    case "kArithmetic" => !Arithmetic(GetString(fields, "arithmetic_operator")).Typed()
    case "kCast" => arguments == 1 && !Cast(GetString(fields, "data_type")).Typed()
    case "kExtract" => !Extract(GetString(fields, "datetime_component")).Typed()
    case "kLogical" => !Logical(GetString(fields, "logical_operator")).Typed()
    case "kPqpColumn" => arguments == 0 && !Cast(GetString(fields, "data_type")).Typed()
    case "kPredicate" => !Predicate(GetString(fields, "predicate_condition")).Typed()
    case "kValue" => !Cast(GetString(fields, "value_type")).Typed()
    case _ => false
  }

  /** An unknown name is an empty optional; aggregates, casts and columns check their arguments first. */
  lemma UnknownExact(fields: map<string, Scalar>, args: seq<Expression>)
    ensures ConstructExpression(fields, args) == BadOptionalAccess <==> UnknownName(fields, |args|)
  {
    if ChecksName(fields) {
      UnknownOperator(fields, args);
    } else if GetString(fields, "type") == "kPredicate" {
      UnknownCondition(fields, args);
    } else {
      UnknownOther(fields, args);
    }
  }

  lemma UnknownOperator(fields: map<string, Scalar>, args: seq<Expression>)
    requires ChecksName(fields)
    ensures ConstructExpression(fields, args) == BadOptionalAccess <==> UnknownName(fields, |args|)
  {}

  lemma UnknownCondition(fields: map<string, Scalar>, args: seq<Expression>)
    requires GetString(fields, "type") == "kPredicate"
    ensures ConstructExpression(fields, args) == BadOptionalAccess <==> UnknownName(fields, |args|)
  {}

  lemma UnknownOther(fields: map<string, Scalar>, args: seq<Expression>)
    requires !ChecksName(fields) && GetString(fields, "type") != "kPredicate"
    ensures ConstructExpression(fields, args) == BadOptionalAccess <==> UnknownName(fields, |args|)
  {}

  /** What is missing reads as 0, false or the empty string. */
  lemma MissingFields()
    ensures Deserialize(Json(map["type" := Str("kPqpColumn"), "data_type" := Str("kInt")], [])) ==
            Ok(Expression(PqpColumn(0, "kInt", false, ""), []))
    ensures Deserialize(Json(map["type" := Str("kValue"), "value_type" := Str("kLong")], [])) ==
            Ok(Expression(Value(LongLiteral(0)), []))
    ensures Deserialize(Json(map["type" := Str("kValue"), "value_type" := Str("kDouble")], [])) ==
            Ok(Expression(Value(DoubleLiteral(0.0)), []))
    ensures Deserialize(Json(map["data_type" := Str("kInt")], [])) == AssertionFailed
  {
    assert DeserializeAll([]) == Ok([]);
  }
}
