/**
  The reflective facts about Java classes and handler-method parameters that the
  parameter expander reads. What the JDK and Spring compute by reflection
  (declared fields, JavaBeans property descriptors, parameter annotations) is
  given here as plain data.
 */
module Reflection {
  import opened Wrappers

  /** A fully qualified Java class name. */
  type ClassName = string

  /** One member of an annotation instance: the member's name and its value, written out as text. */
  type AnnotationMember = (string, string)

  /**
    An annotation instance. The expander tells three annotation types apart and
    reads only required() of @Parameter; the values of every other member are
    kept so that two instances are equal exactly when Annotation.equals says so.
   */
  datatype Annotation =
    | ParameterObject                                              // org.springdoc.api.annotations.ParameterObject
    | Parameter(required: bool, members: seq<AnnotationMember>)    // io.swagger.v3.oas.annotations.Parameter; members: all but required()
    | Nullable                                                     // org.springframework.lang.Nullable
    | Other(annotationType: ClassName, values: seq<AnnotationMember>)

  /** A declared field of a class: its name and its declared annotations, in order. */
  datatype Field = Field(name: string, annotations: seq<Annotation>)

  /** A Java method, identified by its declaring class, its name and its return type. */
  datatype Method = Method(declaringClass: ClassName, name: string, returnType: ClassName)

  /** A JavaBeans property: its name and its read method (getter), if it has one. */
  datatype PropertyDescriptor = PropertyDescriptor(name: string, readMethod: Option<Method>)

  /**
    Spring's MethodParameter as the expander sees it: the executable it belongs to,
    its index (-1 for the return value), its declared type, the name Spring's
    parameter-name discovery reports for it (absent without debug symbols), and
    its parameter annotations.
   */
  datatype MethodParameter = MethodParameter(
    executable: Method,
    index: int,
    parameterType: ClassName,
    discoveredName: Option<string>,
    annotations: seq<Annotation>)

  /**
    The collaborators the expander calls and does not implement:
    `replacement` is AdditionalModelsConverter.getReplacement, `declaredFields`
    is Class.getDeclaredFields in declaration order, `beanInfo` is
    Introspector.getBeanInfo(..).getPropertyDescriptors (None when it throws
    IntrospectionException), and `nullableSentinel` says whether the field
    NullableFieldClass.nullableField is found (false: NoSuchFieldException).
   */
  datatype Environment = Environment(
    replacement: ClassName -> ClassName,
    declaredFields: ClassName -> seq<Field>,
    beanInfo: ClassName -> Option<seq<PropertyDescriptor>>,
    nullableSentinel: bool)

  /** MethodParameter.hasParameterAnnotation(ParameterObject.class). */
  predicate IsParameterObject(p: MethodParameter) {
    ParameterObject in p.annotations
  }

  /** `new MethodParameter(method, -1)`: the return value of `m`, which has no name and no parameter annotations. */
  function ReturnParameter(m: Method): (r: MethodParameter)
    ensures r.executable == m && r.index == -1 && !IsParameterObject(r)
  {
    MethodParameter(m, -1, m.returnType, None, [])
  }

  /**
    Field.getAnnotation(Parameter.class), reduced to its required() flag:
    the flag of the first @Parameter among the annotations, None when there is none.
   */
  function ParameterRequired(annotations: seq<Annotation>): (r: Option<bool>)
    ensures r.None? <==> forall k :: 0 <= k < |annotations| ==> !annotations[k].Parameter?
    ensures r.Some? ==> exists k :: 0 <= k < |annotations| && annotations[k].Parameter? && annotations[k].required == r.value
                          && forall j :: 0 <= j < k ==> !annotations[j].Parameter?
  {
    if annotations == [] then None
    else if annotations[0].Parameter? then Some(annotations[0].required)
    else
      var rest := ParameterRequired(annotations[1..]);
      assert forall k :: 1 <= k < |annotations| ==> annotations[k] == annotations[1..][k - 1];
      rest
  }

  /** The field carries @Parameter with required() false, so its parameter is marked @Nullable. */
  predicate IsOptional(f: Field) {
    ParameterRequired(f.annotations) == Some(false)
  }
}
