/** The instant-vector function table: the factories that check a call's arguments
    and build the operator for it, and the registry from function name to factory. */
module FunctionRegistry {
  import opened Series

  /** The kind of operator an argument is. */
  datatype OperatorKind = InstantVectorOperator | RangeVectorOperator | ScalarOperator

  /** A call argument: an already-built operator, known by its kind and the name of its
      implementing type (what an error message prints for it). */
  datatype Operator = Operator(kind: OperatorKind, typeName: string, id: nat)

  /** The memory pool handed to every operator built for the query. */
  datatype LimitingPool = LimitingPool(id: nat)

  /** The per-series transformations the table refers to. */
  datatype SeriesDataFunction = Acos | HistogramCount | HistogramSum

  /** The per-series metadata transformation the simple functions use. */
  datatype MetadataFunction = DropSeriesName

  /** The operators a factory builds. */
  datatype FunctionOperator =
    | FunctionOverInstantVector(inner: Operator, pool: LimitingPool,
                                metadataFunc: MetadataFunction, seriesDataFunc: SeriesDataFunction)
    | FunctionOverRangeVector(inner: Operator, pool: LimitingPool)

  /** An operator, or the message of the error that replaced it. */
  datatype Outcome = Built(op: FunctionOperator) | Refused(message: string)

  /** A factory: the closure SimpleFunctionFactory returns for a name and a series
      function, or rateFunction. */
  datatype Factory = Simple(name: string, seriesDataFunc: SeriesDataFunction) | Rate

  /** The number a string of decimal digits denotes, most significant digit first. */
  function DecimalValue(s: string): nat
    requires forall i :: 0 <= i < |s| ==> '0' <= s[i] <= '9'
  {
    if |s| == 0 then 0
    else DecimalValue(s[..|s| - 1]) * 10 + (s[|s| - 1] as int - '0' as int)
  }

  /** Decimal digits of a count, as `%v` prints it: the digits denote the count, with
      no leading zero. */
  function NatToString(n: nat): (r: string)
    ensures |r| > 0 && forall i :: 0 <= i < |r| ==> '0' <= r[i] <= '9'
    ensures DecimalValue(r) == n
    ensures n > 0 ==> r[0] != '0'
  {
    var d := "0123456789"[n % 10];
    if n < 10 then [d] else NatToString(n / 10) + [d]
  }

  function ArityMessage(name: string, got: nat): string
  {
    "expected exactly 1 argument for " + name + ", got " + NatToString(got)
  }

  /** The closure built by SimpleFunctionFactory(name, f): exactly one argument, which
      must be an instant-vector operator; the result applies `f` to every series and
      drops the series name. */
  function ApplySimple(name: string, f: SeriesDataFunction, args: seq<Operator>, pool: LimitingPool): (r: Outcome)
    ensures r.Built? <==> |args| == 1 && args[0].kind == InstantVectorOperator
    ensures r.Built? ==> r.op == FunctionOverInstantVector(args[0], pool, DropSeriesName, f)
    ensures |args| != 1 ==> r == Refused(ArityMessage(name, |args|))
    ensures |args| == 1 && args[0].kind != InstantVectorOperator ==>
      r == Refused("expected an instant vector argument for " + name + ", got " + args[0].typeName)
  {
    if |args| != 1 then
      Refused(ArityMessage(name, |args|))
    else if args[0].kind != InstantVectorOperator then
      Refused("expected an instant vector argument for " + name + ", got " + args[0].typeName)
    else
      Built(FunctionOverInstantVector(args[0], pool, DropSeriesName, f))
  }

  /** rateFunction: exactly one argument, which must be a range-vector operator. */
  function ApplyRate(args: seq<Operator>, pool: LimitingPool): (r: Outcome)
    ensures r.Built? <==> |args| == 1 && args[0].kind == RangeVectorOperator
    ensures r.Built? ==> r.op == FunctionOverRangeVector(args[0], pool)
    ensures |args| != 1 ==> r == Refused(ArityMessage("rate", |args|))
    ensures |args| == 1 && args[0].kind != RangeVectorOperator ==>
      r == Refused("expected a range vector argument for rate, got " + args[0].typeName)
  {
    if |args| != 1 then
      Refused(ArityMessage("rate", |args|))
    else if args[0].kind != RangeVectorOperator then
      Refused("expected a range vector argument for rate, got " + args[0].typeName)
    else
      Built(FunctionOverRangeVector(args[0], pool))
  }

  function Apply(factory: Factory, args: seq<Operator>, pool: LimitingPool): Outcome
  {
    match factory
    case Simple(name, f) => ApplySimple(name, f, args, pool)
    case Rate => ApplyRate(args, pool)
  }

  /** Whatever the factory, a call with a number of arguments other than one fails,
      naming the function and the count; no factory builds an operator over an argument
      of the wrong kind. */
  lemma ArityChecked(factory: Factory, args: seq<Operator>, pool: LimitingPool)
    requires |args| != 1
    ensures Apply(factory, args, pool) ==
      Refused(ArityMessage(if factory.Simple? then factory.name else "rate", |args|))
  {
  }

  lemma KindChecked(factory: Factory, args: seq<Operator>, pool: LimitingPool)
    requires Apply(factory, args, pool).Built?
    ensures |args| == 1
    ensures args[0].kind == (if factory.Simple? then InstantVectorOperator else RangeVectorOperator)
    ensures Apply(factory, args, pool).op.inner == args[0] && Apply(factory, args, pool).op.pool == pool
  {
  }

  /** The table as the package declares it. */
  function InitialFunctions(): map<string, Factory>
  {
    map[
      "acos" := Simple("acos", Acos),
      "histogram_count" := Simple("histogram_count", HistogramCount),
      "histogram_sum" := Simple("histogram_sum", HistogramSum),
      "rate" := Rate]
  }

  /** Every simple function in the initial table is registered under the name its
      factory reports in errors. */
  lemma InitialFunctionsNamed()
    ensures InitialFunctions().Keys == {"acos", "histogram_count", "histogram_sum", "rate"}
    ensures forall name :: name in InitialFunctions() && InitialFunctions()[name].Simple? ==>
      InitialFunctions()[name].name == name
  {
  }

  function AlreadyRegisteredMessage(name: string): string
  {
    "function '" + name + "' has already been registered"
  }

  /** The message for "acos" as the registration test expects it. */
  lemma AcosMessage()
    ensures AlreadyRegisteredMessage("acos") == "function 'acos' has already been registered"
  {
    var m, expected := AlreadyRegisteredMessage("acos"), "function 'acos' has already been registered";
    assert |m| == |expected|;
    forall i | 0 <= i < |m|
      ensures m[i] == expected[i]
    {
    }
  }

  /** The registry of instant-vector functions. */
  class Registry {
    var functions: map<string, Factory>

    constructor ()
      ensures functions == InitialFunctions()
    {
      functions := InitialFunctions();
    }

    /** Registration: a name already in the table is refused and the table kept; a new
      name is added with its factory. */
    method Register(name: string, factory: Factory) returns (err: Option<string>)
      modifies this
      ensures name in old(functions) ==> err == Some(AlreadyRegisteredMessage(name)) && functions == old(functions)
      ensures name !in old(functions) ==> err == None && functions == old(functions)[name := factory]
    {
      if name in functions {
        return Some(AlreadyRegisteredMessage(name));
      }
      functions := functions[name := factory];
      return None;
    }

  }

  /** The registration scenario: "acos" is refused with its message and leaves the
      table as declared; "new_function" is then accepted and found. */
  method RegistrationScenario(f: Factory, g: Factory) returns (first: Option<string>, second: Option<string>, found: bool)
    ensures first == Some("function 'acos' has already been registered")
    ensures second == None && found
  {
    var registry := new Registry();
    first := registry.Register("acos", f);
    AcosMessage();
    second := registry.Register("new_function", g);
    found := "new_function" in registry.functions;
  }
}
