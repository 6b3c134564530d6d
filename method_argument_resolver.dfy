/**
 * `MethodArgumentResolverEngine`: prepares the arguments of a test method by
 * asking the registered method-argument resolvers, parameter by parameter,
 * which one supports it. Exactly one must; its answer is the argument.
 * Throwables are results here: `Err` carries what would be thrown.
 */
module MethodArguments {
  import opened Common

  const TOO_MANY_PREFIX := "Too many resolvers found for parameter: "
  const NO_RESOLVER_PREFIX := "No resolver found for parameter: "

  /** A `java.lang.reflect.Parameter`, with the text its `toString` gives. */
  datatype Parameter = Parameter(text: string)

  /** The test method: its parameters, in declaration order. */
  datatype TestMethod = TestMethod(name: string, parameters: seq<Parameter>)

  /** What a resolver sees of the test: the method descriptor's method, and the descriptor's id. */
  datatype TestExecutionContext = TestExecutionContext(testMethod: TestMethod, descriptorId: UniqueId)

  /**
   * What can be thrown while resolving: an `ArgumentResolutionException`, made
   * either from a message or from a cause; any other exception a resolver
   * throws; or an `Error`, which is not an `Exception`.
   */
  datatype Throwable =
    | ArgumentResolutionException(message: Option<string>, cause: Option<Throwable>)
    | ResolverException(description: string)
    | ResolverError(description: string)
  {
    /** Whether `catch (Exception cause)` catches it. */
    predicate IsException() { !ResolverError? }
  }

  /** `new ArgumentResolutionException(cause)`. */
  function Wrap(cause: Throwable): (e: Throwable)
    ensures e.ArgumentResolutionException? && e.cause == Some(cause)
  {
    ArgumentResolutionException(None, Some(cause))
  }

  /**
   * The `catch (Exception cause)` clause: an exception leaves wrapped in a new
   * `ArgumentResolutionException`; an `Error` passes through untouched.
   */
  function Catch(thrown: Throwable): (e: Throwable)
    ensures thrown.IsException() ==> e.ArgumentResolutionException? && e.message == None && e.cause == Some(thrown)
    ensures !thrown.IsException() ==> e == thrown
  {
    if thrown.IsException() then Wrap(thrown) else thrown
  }

  /** A `MethodArgumentResolver`: whether it supports a parameter, and what it makes of it. */
  datatype MethodArgumentResolver<!A> = MethodArgumentResolver(
    supports: Parameter -> bool,
    resolve: (Parameter, TestExecutionContext) -> Result<A, Throwable>)

  /** The positions of the resolvers that support `parameter`, in registry order. */
  function SupportingIndices<A>(resolvers: seq<MethodArgumentResolver<A>>, parameter: Parameter): (r: seq<nat>)
    ensures forall k :: 0 <= k < |r| ==> r[k] < |resolvers| && resolvers[r[k]].supports(parameter)
    ensures forall j :: 0 <= j < |resolvers| && resolvers[j].supports(parameter) ==> j in r
    ensures forall k, l :: 0 <= k < l < |r| ==> r[k] < r[l]
  {
    if resolvers == [] then []
    else
      var n := |resolvers| - 1;
      SupportingIndices(resolvers[..n], parameter) + (if resolvers[n].supports(parameter) then [n] else [])
  }

  /** With at most one supporting position, no two resolvers both support the parameter. */
  lemma {:induction false} AtMostOneSupporting<A>(resolvers: seq<MethodArgumentResolver<A>>, parameter: Parameter)
    requires |SupportingIndices(resolvers, parameter)| <= 1
    ensures forall i, j :: 0 <= i < j < |resolvers| && resolvers[i].supports(parameter) ==> !resolvers[j].supports(parameter)
  {
    var matching := SupportingIndices(resolvers, parameter);
    forall i, j | 0 <= i < j < |resolvers| && resolvers[i].supports(parameter)
      ensures !resolvers[j].supports(parameter)
    {
      assert i in matching;
      assert matching == [i];
      assert j !in matching;
    }
  }

  datatype MethodArgumentResolverEngine<!A> = MethodArgumentResolverEngine(resolverRegistry: seq<MethodArgumentResolver<A>>)
  {
    /**
     * `resolveArgumentForMethodParameter`: more than one supporting resolver is
     * "too many", none is "no resolver", and a single one's answer is the
     * argument. Every exception, these two included, leaves wrapped in a further
     * `ArgumentResolutionException`; an `Error` from the resolver escapes as it is.
     */
    function ResolveArgument(parameter: Parameter, context: TestExecutionContext): (r: Result<A, Throwable>)
      ensures (exists i, j :: 0 <= i < j < |resolverRegistry|
                 && resolverRegistry[i].supports(parameter) && resolverRegistry[j].supports(parameter))
              ==> r == Err(Wrap(ArgumentResolutionException(Some(TOO_MANY_PREFIX + parameter.text), None)))
      ensures (forall j :: 0 <= j < |resolverRegistry| ==> !resolverRegistry[j].supports(parameter))
              ==> r == Err(Wrap(ArgumentResolutionException(Some(NO_RESOLVER_PREFIX + parameter.text), None)))
      ensures r.Err? && r.error.IsException() ==>
                r.error.ArgumentResolutionException? && r.error.message == None && r.error.cause.Some?
      ensures r.Ok? || !r.error.IsException() ==>
                exists j :: 0 <= j < |resolverRegistry| && resolverRegistry[j].supports(parameter)
                  && resolverRegistry[j].resolve(parameter, context) == r
    {
      var matching := SupportingIndices(resolverRegistry, parameter);
      if |matching| > 1 then
        assert resolverRegistry[matching[0]].supports(parameter);
        Err(Catch(ArgumentResolutionException(Some(TOO_MANY_PREFIX + parameter.text), None)))
      else if |matching| == 0 then
        AtMostOneSupporting(resolverRegistry, parameter);
        Err(Catch(ArgumentResolutionException(Some(NO_RESOLVER_PREFIX + parameter.text), None)))
      else
        var only := matching[0];
        assert only in matching;
        AtMostOneSupporting(resolverRegistry, parameter);
        match resolverRegistry[only].resolve(parameter, context)
        case Ok(argument) => Ok(argument)
        case Err(thrown) => Err(Catch(thrown))
    }

    /**
     * `prepareArguments`: resolves the test method's parameters left to right
     * and stops at the first that fails, whose failure it returns. On success
     * there is one argument per parameter, each resolved from its parameter;
     * a method without parameters gets the empty list.
     */
    method PrepareArguments(context: TestExecutionContext) returns (r: Result<seq<A>, Throwable>)
      ensures context.testMethod.parameters == [] ==> r == Ok([])
      ensures r.Ok? <==> forall i :: 0 <= i < |context.testMethod.parameters| ==>
                ResolveArgument(context.testMethod.parameters[i], context).Ok?
      ensures r.Ok? ==>
                && |r.value| == |context.testMethod.parameters|
                && (forall i :: 0 <= i < |r.value| ==>
                      ResolveArgument(context.testMethod.parameters[i], context) == Ok(r.value[i]))
      ensures r.Err? ==>
                exists k :: 0 <= k < |context.testMethod.parameters|
                  && (forall i :: 0 <= i < k ==> ResolveArgument(context.testMethod.parameters[i], context).Ok?)
                  && ResolveArgument(context.testMethod.parameters[k], context) == Err(r.error)
    {
      var testMethod := context.testMethod;
      var arguments := [];
      if |testMethod.parameters| > 0 {
        var parameters := testMethod.parameters;
        var i := 0;
        while i < |parameters|
          invariant 0 <= i <= |parameters|
          invariant |arguments| == i
          invariant forall k :: 0 <= k < i ==> ResolveArgument(parameters[k], context) == Ok(arguments[k])
        {
          var newInstance := ResolveArgument(parameters[i], context);
          if newInstance.Err? {
            return Err(newInstance.error);
          }
          arguments := arguments + [newInstance.value];
          i := i + 1;
        }
      }
      return Ok(arguments);
    }
  }

  /** A strictly increasing sequence of naturals spreads at least one per step. */
  lemma {:induction false} IncreasingSpread(s: seq<nat>)
    requires |s| > 0
    requires forall k, l :: 0 <= k < l < |s| ==> s[k] < s[l]
    ensures s[|s| - 1] >= s[0] + |s| - 1
  {
    if |s| > 1 {
      IncreasingSpread(s[..|s| - 1]);
      assert s[|s| - 2] < s[|s| - 1];
    }
  }

  /**
   * When exactly one registered resolver supports the parameter, the argument
   * is whatever that resolver produces; its exception comes back wrapped and
   * its `Error` as it is.
   */
  lemma SingleSupportingResolverDecides<A>(engine: MethodArgumentResolverEngine<A>, parameter: Parameter,
                                           context: TestExecutionContext, j: nat)
    requires j < |engine.resolverRegistry| && engine.resolverRegistry[j].supports(parameter)
    requires forall k :: 0 <= k < |engine.resolverRegistry| && k != j ==> !engine.resolverRegistry[k].supports(parameter)
    ensures engine.ResolveArgument(parameter, context)
         == match engine.resolverRegistry[j].resolve(parameter, context)
            case Ok(argument) => Ok(argument)
            case Err(thrown) => if thrown.IsException() then Err(Wrap(thrown)) else Err(thrown)
  {
    var matching := SupportingIndices(engine.resolverRegistry, parameter);
    assert j in matching;
    assert forall k :: 0 <= k < |matching| ==> matching[k] == j;
    IncreasingSpread(matching);
  }
}
