/**
  DelegatingMethodParameter: a MethodParameter that overrides its name and adds
  annotations, and the expansion of a handler method's parameters into such
  wrappers, where a @ParameterObject parameter is replaced by one wrapper per
  readable field of its class.
 */
module DelegatingParameters {
  import opened Wrappers
  import opened Reflection

  /**
    The wrapper. Its three fields are set by the constructor and never change:
    the wrapped parameter, the name to report, and the extra annotations
    (None stands for the null array that ordinary parameters get).
   */
  datatype DelegatingMethodParameter = DelegatingMethodParameter(
    delegate: MethodParameter,
    parameterName: Option<string>,
    additionalParameterAnnotations: Option<seq<Annotation>>)
  {
    /** getParameterAnnotations: ArrayUtils.addAll of the delegate's annotations and the extra ones. */
    function ParameterAnnotations(): (r: seq<Annotation>)
      ensures |r| == |delegate.annotations| + |additionalParameterAnnotations.GetOr([])|
      ensures r[..|delegate.annotations|] == delegate.annotations
      ensures r[|delegate.annotations|..] == additionalParameterAnnotations.GetOr([])
      ensures additionalParameterAnnotations.None? ==> r == delegate.annotations
    {
      delegate.annotations + additionalParameterAnnotations.GetOr([])
    }

    /** getParameterName: the stored name; the delegate is not consulted. */
    function ParameterName(): Option<string> {
      parameterName
    }

    /**
      equals(Object) for another wrapper: Objects.equals on the delegates,
      Arrays.equals on the extra annotations and Objects.equals on the names.
     */
    function Equals(that: DelegatingMethodParameter): (r: bool)
      ensures r <==> this == that
    {
      && delegate == that.delegate
      && ArraysEquals(additionalParameterAnnotations, that.additionalParameterAnnotations)
      && parameterName == that.parameterName
    }
  }

  /** java.util.Arrays.equals on two possibly-null annotation arrays. */
  function ArraysEquals(a: Option<seq<Annotation>>, b: Option<seq<Annotation>>): (r: bool)
    ensures r <==> a == b
  {
    match (a, b)
    case (None, None) => true
    case (Some(x), Some(y)) =>
      var same := |x| == |y| && forall i :: 0 <= i < |x| ==> x[i] == y[i];
      assert same ==> x == y;
      same
    case _ => false
  }

  /** The first property named `name` whose read method is non-null. */
  predicate IsFirstReader(props: seq<PropertyDescriptor>, name: string, k: int) {
    && 0 <= k < |props|
    && props[k].name == name && props[k].readMethod.Some?
    && forall j :: 0 <= j < k ==> !(props[j].name == name && props[j].readMethod.Some?)
  }

  /**
    The stream pipeline of fromGetterOfField: keep the properties named `name`,
    map them to their read methods, drop the null ones and take the first.
    ExpansionProperties.FindReadMethodFirst states what it finds.
   */
  function FindReadMethod(props: seq<PropertyDescriptor>, name: string): Option<Method> {
    if props == [] then None
    else if props[0].name == name && props[0].readMethod.Some? then props[0].readMethod
    else FindReadMethod(props[1..], name)
  }

  /**
    fromGetterOfField: the wrapper for one field of `paramClass`, or None (null)
    when the class has no readable property of that name or when reflection
    throws. What it returns is stated by ExpansionProperties.FromGetterOfFieldResult.
   */
  function FromGetterOfField(env: Environment, paramClass: ClassName, field: Field): Option<DelegatingMethodParameter>
  {
    if IsOptional(field) && !env.nullableSentinel then
      None  // NoSuchFieldException while fetching the @Nullable sentinel
    else
      var annotations := field.annotations + if IsOptional(field) then [Nullable] else [];
      match env.beanInfo(paramClass)
      case None => None  // IntrospectionException
      case Some(props) =>
        match FindReadMethod(props, field.name)
        case None => None
        case Some(m) =>
          Some(DelegatingMethodParameter(ReturnParameter(m), Some(field.name), Some(annotations)))
  }

  /**
    The wrappers that the declared fields `fields` of `paramClass` yield, in
    field order, the fields for which FromGetterOfField gives null left out.
   */
  function FieldWrappers(env: Environment, paramClass: ClassName, fields: seq<Field>): (r: seq<DelegatingMethodParameter>)
    ensures |r| <= |fields|
  {
    if fields == [] then []
    else
      var init := FieldWrappers(env, paramClass, fields[..|fields| - 1]);
      var last := fields[|fields| - 1];
      match FromGetterOfField(env, paramClass, last)
      case None => init
      case Some(w) => init + [w]
  }

  /** The field wrappers of one more field: those of the fields before it, then its own if it has one. */
  lemma FieldWrappersSnoc(env: Environment, paramClass: ClassName, fields: seq<Field>, j: nat)
    requires j < |fields|
    ensures FieldWrappers(env, paramClass, fields[..j + 1])
         == FieldWrappers(env, paramClass, fields[..j])
            + match FromGetterOfField(env, paramClass, fields[j]) { case Some(w) => [w] case None => [] }
  {
    assert fields[..j + 1][..j] == fields[..j];
  }

  /** The wrappers that a @ParameterObject parameter is replaced by: one per readable field of its replacement class. */
  function ObjectContribution(env: Environment, p: MethodParameter): seq<DelegatingMethodParameter> {
    var paramClass := env.replacement(p.parameterType);
    FieldWrappers(env, paramClass, env.declaredFields(paramClass))
  }

  /** Reading `pNames[i]` for the ordinary parameter at `i` throws ArrayIndexOutOfBoundsException. */
  predicate NameMissing(pNames: Option<seq<Option<string>>>, parameters: seq<MethodParameter>, i: nat)
    requires i < |parameters|
  {
    pNames.Some? && !IsParameterObject(parameters[i]) && i >= |pNames.value|
  }

  /** No name read among the first `n` parameters throws. */
  predicate NamesCover(pNames: Option<seq<Option<string>>>, parameters: seq<MethodParameter>, n: nat)
    requires n <= |parameters|
  {
    forall i :: 0 <= i < n ==> !NameMissing(pNames, parameters, i)
  }

  /** The name an ordinary parameter's wrapper gets: `pNames[i]` when names were given, else the discovered name. */
  function OrdinaryName(pNames: Option<seq<Option<string>>>, parameters: seq<MethodParameter>, i: nat): Option<string>
    requires i < |parameters| && !NameMissing(pNames, parameters, i) && !IsParameterObject(parameters[i])
  {
    if pNames.Some? then pNames.value[i] else parameters[i].discoveredName
  }

  /** What the parameter at `i` adds to the expansion. */
  function Contribution(env: Environment, pNames: Option<seq<Option<string>>>, parameters: seq<MethodParameter>, i: nat): seq<DelegatingMethodParameter>
    requires i < |parameters| && !NameMissing(pNames, parameters, i)
  {
    if IsParameterObject(parameters[i]) then ObjectContribution(env, parameters[i])
    else [DelegatingMethodParameter(parameters[i], OrdinaryName(pNames, parameters, i), None)]
  }

  /** The concatenation of `parts`, in order. */
  function Flatten<T>(parts: seq<seq<T>>): seq<T> {
    if parts == [] then [] else Flatten(parts[..|parts| - 1]) + parts[|parts| - 1]
  }

  /** Appending a part appends its elements. */
  lemma FlattenSnoc<T>(parts: seq<seq<T>>, last: seq<T>)
    ensures Flatten(parts + [last]) == Flatten(parts) + last
  {
  }

  /** The contributions of the first `n` parameters, one entry per parameter. */
  function Contributions(env: Environment, pNames: Option<seq<Option<string>>>, parameters: seq<MethodParameter>, n: nat): (r: seq<seq<DelegatingMethodParameter>>)
    requires n <= |parameters| && NamesCover(pNames, parameters, n)
    ensures |r| == n
  {
    if n == 0 then []
    else Contributions(env, pNames, parameters, n - 1) + [Contribution(env, pNames, parameters, n - 1)]
  }

  /** The expansion of all parameters: their contributions, concatenated in order. */
  function Exploded(env: Environment, pNames: Option<seq<Option<string>>>, parameters: seq<MethodParameter>): seq<DelegatingMethodParameter>
    requires NamesCover(pNames, parameters, |parameters|)
  {
    Flatten(Contributions(env, pNames, parameters, |parameters|))
  }

  /**
    The stream in customize's @ParameterObject branch: map each declared field
    through fromGetterOfField, drop the nulls, and add the rest to the list.
   */
  method AddFieldWrappers(env: Environment, paramClass: ClassName, fields: seq<Field>, explodedParameters: seq<DelegatingMethodParameter>)
    returns (added: seq<DelegatingMethodParameter>)
    ensures added == explodedParameters + FieldWrappers(env, paramClass, fields)
  {
    added := explodedParameters;
    for j := 0 to |fields|
      invariant added == explodedParameters + FieldWrappers(env, paramClass, fields[..j])
    {
      FieldWrappersSnoc(env, paramClass, fields, j);
      match FromGetterOfField(env, paramClass, fields[j]) {
        case Some(w) => added := added + [w];
        case None =>
      }
    }
    assert fields[..|fields|] == fields;
  }

  /** The exception customize lets escape. */
  datatype CustomizeError = ArrayIndexOutOfBounds(index: nat)

  /**
    customize: walk the parameters in order; wrap an ordinary parameter under
    its name, and replace a @ParameterObject parameter by the wrappers of the
    fields of its replacement class. Fails at the first ordinary parameter
    whose index is past the end of a given names array.
   */
  method Customize(env: Environment, pNames: Option<seq<Option<string>>>, parameters: seq<MethodParameter>)
    returns (r: Result<seq<DelegatingMethodParameter>, CustomizeError>)
    ensures r.Success? <==> NamesCover(pNames, parameters, |parameters|)
    ensures r.Success? ==> r.value == Exploded(env, pNames, parameters)
    ensures r.Failure? ==>
      && r.error.index < |parameters|
      && NameMissing(pNames, parameters, r.error.index)
      && NamesCover(pNames, parameters, r.error.index)
  {
    var explodedParameters: seq<DelegatingMethodParameter> := [];
    for i := 0 to |parameters|
      invariant NamesCover(pNames, parameters, i)
      invariant explodedParameters == Flatten(Contributions(env, pNames, parameters, i))
    {
      var p := parameters[i];
      if ParameterObject in p.annotations {
        var paramClass := env.replacement(p.parameterType);
        var fields := env.declaredFields(paramClass);
        explodedParameters := AddFieldWrappers(env, paramClass, fields, explodedParameters);
        assert Contribution(env, pNames, parameters, i) == FieldWrappers(env, paramClass, fields);
      } else {
        if pNames.Some? && i >= |pNames.value| {
          assert NameMissing(pNames, parameters, i);
          return Failure(ArrayIndexOutOfBounds(i));
        }
        var name := if pNames.Some? then pNames.value[i] else p.discoveredName;
        explodedParameters := explodedParameters + [DelegatingMethodParameter(p, name, None)];
      }
      assert NamesCover(pNames, parameters, i + 1);
      FlattenSnoc(Contributions(env, pNames, parameters, i), Contribution(env, pNames, parameters, i));
    }
    return Success(explodedParameters);
  }
}
