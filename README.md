# DelegatingMethodParameter, modelled in Dafny

springdoc-openapi documents the parameters of a Spring MVC handler method. Before it
does so, `DelegatingMethodParameter.customize` "explodes" the method's parameters.
Each ordinary parameter is wrapped in a `DelegatingMethodParameter` that carries the
name springdoc will report. Each parameter annotated `@ParameterObject` is replaced
by one wrapper per field of its class (after `AdditionalModelsConverter` replacement)
that has a JavaBeans getter. Such a wrapper wraps the getter's return value
(`new MethodParameter(getter, -1)`), is named after the field and reports the field's
annotations, plus `@Nullable` when the field's swagger `@Parameter` says
`required = false`.

The project has five modules:

- `Wrappers` (wrappers.dfy): `Option` (Java's null) and `Result` (a thrown exception).
- `Reflection` (reflection.dfy): what the JDK and Spring compute by reflection, as
  plain data. This covers annotations (their type and every member value,
  so that annotation equality is Java's), declared fields, property descriptors and
  Spring's `MethodParameter`. The collaborators the code calls become the
  function-valued fields of an `Environment`: `getReplacement`, `getDeclaredFields`,
  `Introspector.getBeanInfo`, and whether the `@Nullable` sentinel field is found.
- `DelegatingParameters` (delegating.dfy): the wrapper and its operations.
  - Its fields are set once by the constructor and never reassigned, so the wrapper
    is a `datatype`; the Java constructor is the datatype's constructor.
  - `fromGetterOfField` is a function, since it is a stream pipeline.
  - `customize` is a method. An indexed `for` loop appends to the list, and an inner
    loop does the `forEach(add)` of the field wrappers. It is proved against the
    specification function `Exploded`: the in-order concatenation of each parameter's
    contribution.
- `ExpansionProperties` (properties.dfy): lemmas about the expansion. They cover
  order, contiguity, naming, lengths, where each wrapper comes from, dropped fields,
  the getter lookup and annotation concatenation.
- `ExpansionScenarios` (scenarios.dfy): a worked handler method with an `id`
  parameter and a query object whose fields are `name`, `internal` (no getter) and
  `email` (`required = false`).

Exceptions are modelled as follows.

- `customize` reads `pNames[i]` for an ordinary parameter, which throws when the
  names array is too short. The model returns `Failure(ArrayIndexOutOfBounds(i))`
  at the first such index.
- Inside `fromGetterOfField`, an `IntrospectionException` (`beanInfo` is None) or a
  `NoSuchFieldException` for the sentinel (`nullableSentinel` is false) yields null
  for that field.
- On a sentinel failure the code drops the whole field, because the catch block
  returns null. It does not keep the wrapper without the `@Nullable` marker. The
  model follows the code (`SentinelFailureDropsField`).

## Model

| member | source | states |
|---|---|---|
| DelegatingParameters.Customize | springdoc-openapi-common/src/main/java/org/springdoc/core/DelegatingMethodParameter.java:47-64 | succeeds exactly when every ordinary parameter's index is inside a given names array; the result is then the in-order concatenation of every parameter's contribution; otherwise it fails at the first ordinary parameter whose index is past the end of the array |
| DelegatingParameters.AddFieldWrappers | springdoc-openapi-common/src/main/java/org/springdoc/core/DelegatingMethodParameter.java:53-56 | appends to the list the wrappers of the declared fields, in field order, leaving out the fields for which fromGetterOfField gives null |
| DelegatingParameters.FieldWrappersSnoc | springdoc-openapi-common/src/main/java/org/springdoc/core/DelegatingMethodParameter.java:53-56 | proof helper for AddFieldWrappers' loop invariant, not a promise of the source: FieldWrappers' own definition unfolded on a prefix of the fields |
| DelegatingParameters.FieldWrappers | springdoc-openapi-common/src/main/java/org/springdoc/core/DelegatingMethodParameter.java:53-56 | a parameter object yields at most one wrapper per declared field |
| DelegatingParameters.Contributions | springdoc-openapi-common/src/main/java/org/springdoc/core/DelegatingMethodParameter.java:49-62 | proof helper for Customize's loop invariant, not a promise of the source: one contribution per parameter visited; ExpansionProperties.ContributionsAt fixes each entry |
| DelegatingParameters.DelegatingMethodParameter.ParameterAnnotations | springdoc-openapi-common/src/main/java/org/springdoc/core/DelegatingMethodParameter.java:66-70 | the delegate's annotations come first, then the additional ones; with a null additional array the result is exactly the delegate's annotations |
| DelegatingParameters.DelegatingMethodParameter.Equals | springdoc-openapi-common/src/main/java/org/springdoc/core/DelegatingMethodParameter.java:167-176 | two wrappers are equal exactly when delegate, additional annotations and name all agree, so equality is reflexive and symmetric |
| DelegatingParameters.ArraysEquals | springdoc-openapi-common/src/main/java/org/springdoc/core/DelegatingMethodParameter.java:174 | Arrays.equals on possibly-null arrays holds exactly when both are null or both have the same length and the same elements |
| Reflection.ReturnParameter | springdoc-openapi-common/src/main/java/org/springdoc/core/DelegatingMethodParameter.java:158 | the wrapped getter parameter stands for the getter's return value (index -1) and is not a parameter object |
| Reflection.ParameterRequired | springdoc-openapi-common/src/main/java/org/springdoc/core/DelegatingMethodParameter.java:146-147 | a field is found to have @Parameter exactly when one of its annotations is one, and the flag read is that of the first |
| ExpansionProperties.ContributionsAt | springdoc-openapi-common/src/main/java/org/springdoc/core/DelegatingMethodParameter.java:49-62 | entry i of the contributions is what parameter i contributes |
| ExpansionProperties.ContributionAt | springdoc-openapi-common/src/main/java/org/springdoc/core/DelegatingMethodParameter.java:48-62 | the wrappers of parameter i sit contiguously in the output, right after those of the parameters before it |
| ExpansionProperties.OffsetsMonotone | springdoc-openapi-common/src/main/java/org/springdoc/core/DelegatingMethodParameter.java:49-62 | the wrappers of an earlier parameter never come after those of a later one |
| ExpansionProperties.OrdinaryParameterWrapped | springdoc-openapi-common/src/main/java/org/springdoc/core/DelegatingMethodParameter.java:58-61 | an ordinary parameter becomes exactly one wrapper, of itself, named pNames[i] when names are given and its discovered name otherwise, reporting only its own annotations |
| ExpansionProperties.ObjectParameterExpanded | springdoc-openapi-common/src/main/java/org/springdoc/core/DelegatingMethodParameter.java:51-57 | a parameter object is replaced, at its position, by the wrappers of the fields of its replacement class and contributes no wrapper of its own |
| ExpansionProperties.WrapperOrigins | springdoc-openapi-common/src/main/java/org/springdoc/core/DelegatingMethodParameter.java:47-64 | every output wrapper wraps an input ordinary parameter with no extra annotations, or a getter's return value with extra annotations; none wraps a parameter object |
| ExpansionProperties.FieldWrapperOrigin | springdoc-openapi-common/src/main/java/org/springdoc/core/DelegatingMethodParameter.java:53-56 | every field wrapper is what fromGetterOfField returned for one of the declared fields |
| ExpansionProperties.ExplodedSingletons | springdoc-openapi-common/src/main/java/org/springdoc/core/DelegatingMethodParameter.java:47-64 | without parameter objects, output i is the wrapper of parameter i under its chosen name with a null additional array |
| ExpansionProperties.NamesCoverWithoutParameterObjects | springdoc-openapi-common/src/main/java/org/springdoc/core/DelegatingMethodParameter.java:59 | without parameter objects, no names read fails exactly when there is no names array or it is at least as long as the parameters |
| ExpansionProperties.ExplodedWithoutParameterObjects | springdoc-openapi-common/src/main/java/org/springdoc/core/DelegatingMethodParameter.java:47-64 | without parameter objects and with a long enough names array, the output has the input's length and order, and each wrapper has its parameter's name and no extra annotations |
| ExpansionProperties.FieldWrappersAppend | springdoc-openapi-common/src/main/java/org/springdoc/core/DelegatingMethodParameter.java:53-56 | the field wrappers of two field lists, one after the other, are their wrappers one after the other |
| ExpansionProperties.NullFieldOmitted | springdoc-openapi-common/src/main/java/org/springdoc/core/DelegatingMethodParameter.java:54-55 | a field for which fromGetterOfField gives null is left out, and the fields around it are still expanded |
| ExpansionProperties.FieldWrappersAllReadable | springdoc-openapi-common/src/main/java/org/springdoc/core/DelegatingMethodParameter.java:53-56 | when every field has a getter, there is one wrapper per field, in declaration order |
| ExpansionProperties.FindReadMethodFirst | springdoc-openapi-common/src/main/java/org/springdoc/core/DelegatingMethodParameter.java:153-157 | the getter lookup finds a read method exactly when some property named after the field has one, and it is that of the first such property |
| ExpansionProperties.FromGetterOfFieldResult | springdoc-openapi-common/src/main/java/org/springdoc/core/DelegatingMethodParameter.java:142-165 | fromGetterOfField returns a wrapper exactly when the sentinel is found or not needed, introspection succeeds and a property named after the field has a read method; the wrapper is named after the field and wraps the first such read method at index -1 |
| ExpansionProperties.FieldWrapperAnnotations | springdoc-openapi-common/src/main/java/org/springdoc/core/DelegatingMethodParameter.java:145-159 | a field wrapper reports the field's declared annotations, followed by exactly one @Nullable when the field's @Parameter has required false, and nothing else |
| ExpansionProperties.SentinelFailureDropsField | springdoc-openapi-common/src/main/java/org/springdoc/core/DelegatingMethodParameter.java:147-164 | when the @Nullable sentinel cannot be found, a field whose @Parameter has required false yields null |
| ExpansionProperties.ParameterNameIgnoresDelegate | springdoc-openapi-common/src/main/java/org/springdoc/core/DelegatingMethodParameter.java:72-75 | getParameterName gives the stored name whatever the delegate is |
| DelegatingParameters.Exploded | springdoc-openapi-common/src/main/java/org/springdoc/core/DelegatingMethodParameter.java:47-64 | what customize returns when no names read fails; its contract is stated by ExpansionProperties.ContributionAt, OrdinaryParameterWrapped, ObjectParameterExpanded, WrapperOrigins and ExplodedWithoutParameterObjects |
| DelegatingParameters.Contribution | springdoc-openapi-common/src/main/java/org/springdoc/core/DelegatingMethodParameter.java:50-61 | what the loop body adds for parameter i: the field wrappers of a parameter object, otherwise one wrapper of the parameter under its chosen name with a null additional array; stated by ExpansionProperties.ContributionAt |
| DelegatingParameters.ObjectContribution | springdoc-openapi-common/src/main/java/org/springdoc/core/DelegatingMethodParameter.java:51-57 | the wrappers that replace a parameter object: FieldWrappers of the declared fields of its replacement class; stated by ExpansionProperties.ObjectParameterExpanded |
| DelegatingParameters.NameMissing | springdoc-openapi-common/src/main/java/org/springdoc/core/DelegatingMethodParameter.java:59 | reading pNames[i] for the ordinary parameter at i throws: a names array is given and i is past its end; Customize fails exactly at the first such i |
| DelegatingParameters.OrdinaryName | springdoc-openapi-common/src/main/java/org/springdoc/core/DelegatingMethodParameter.java:59 | the name an ordinary parameter's wrapper gets: pNames[i] when a names array is given, else the discovered name; stated by ExpansionProperties.OrdinaryParameterWrapped |
| DelegatingParameters.FromGetterOfField | springdoc-openapi-common/src/main/java/org/springdoc/core/DelegatingMethodParameter.java:142-165 | fromGetterOfField; its contract is stated by ExpansionProperties.FromGetterOfFieldResult (when it is non-null, which getter, name, index -1), FieldWrapperAnnotations (the reported annotations), SentinelFailureDropsField and FieldWrappersEqual |
| DelegatingParameters.FindReadMethod | springdoc-openapi-common/src/main/java/org/springdoc/core/DelegatingMethodParameter.java:153-157 | the filter/map/filter/findFirst pipeline over the property descriptors; stated by ExpansionProperties.FindReadMethodFirst |
| DelegatingParameters.DelegatingMethodParameter.ParameterName | springdoc-openapi-common/src/main/java/org/springdoc/core/DelegatingMethodParameter.java:72-75 | getParameterName returns the stored name; stated by ExpansionProperties.ParameterNameIgnoresDelegate |
| Reflection.IsParameterObject | springdoc-openapi-common/src/main/java/org/springdoc/core/DelegatingMethodParameter.java:51 | hasParameterAnnotation(ParameterObject.class): the parameter's annotations include @ParameterObject |
| Reflection.IsOptional | springdoc-openapi-common/src/main/java/org/springdoc/core/DelegatingMethodParameter.java:146-147 | the field's first @Parameter exists and its required() is false; stated by Reflection.ParameterRequired |
| ExpansionProperties.ParameterRequiredPrefix | springdoc-openapi-common/src/main/java/org/springdoc/core/DelegatingMethodParameter.java:146 | proof helper: annotations appended after a @Parameter do not change which @Parameter getAnnotation finds |
| ExpansionProperties.FieldWrappersEqual | springdoc-openapi-common/src/main/java/org/springdoc/core/DelegatingMethodParameter.java:167-176 | two field wrappers are equal exactly when they wrap the same getter and their fields have the same name and equal annotations, every annotation member value included |
| ExpansionScenarios.HiddenFieldWrappersDiffer | springdoc-openapi-common/src/main/java/org/springdoc/core/DelegatingMethodParameter.java:167-176 | a field and the field hiding it in a subclass, read by the same inherited getter, give wrappers that are not equal when their @Parameter annotations differ in a member other than required() |
| ExpansionScenarios.QueryGetters | springdoc-openapi-common/src/main/java/org/springdoc/core/DelegatingMethodParameter.java:153-157 | the lookup finds the getter by name and finds none for a property without a read method |
| ExpansionScenarios.QueryFieldResults | springdoc-openapi-common/src/main/java/org/springdoc/core/DelegatingMethodParameter.java:143-165 | the worked fields give a wrapper with no extra annotations, null, and a wrapper with @Nullable appended |
| ExpansionScenarios.QueryExpansion | springdoc-openapi-common/src/main/java/org/springdoc/core/DelegatingMethodParameter.java:53-56 | fields name, internal and email, where internal has no getter, expand to the wrappers of name then email |
| ExpansionScenarios.EndToEnd | springdoc-openapi-common/src/main/java/org/springdoc/core/DelegatingMethodParameter.java:47-64 | id plus the query object expand to three wrappers: id under its discovered name, name without extra annotations, and email with @Nullable |

## Left out

- hashCode (lines 179-183): it depends on Java's hash arithmetic, and on super.hashCode of Spring's MethodParameter, which is not part of this model.
- withContainingClass (line 108-110): it returns the delegate's rebinding, so the result loses the name and annotation overrides. It is not modelled.
- The pure forwarding accessors (lines 77-140: getMethod, getConstructor, getMember, getParameterType, initParameterNameDiscovery and the others): each returns the delegate's answer. The model reads the delegate's fields directly.
- Java reflection and JavaBeans introspection (getDeclaredFields, getBeanInfo, getAnnotation): their results are inputs held in `Environment`, not computed.
- AdditionalModelsConverter.getReplacement is not part of this model. It is an uninterpreted function on class names.
- The NullableFieldClass sentinel (lines 148-149, 185-188) only manufactures an annotation instance. The marker is the value `Nullable`, and whether the sentinel lookup succeeds is the flag `nullableSentinel`.
- Spring's MethodParameter is not part of this model: its copy constructor (`super(delegate)`), its annotation and name discovery, and its `equals`. Spring's answers for a method's return value are taken as given: no name and no parameter annotations. `MethodParameter` equality is value equality of the model's record, not Java's.
- DelegatingParameters.DelegatingMethodParameter.Equals: compares two wrappers only. The identity shortcut, the null and getClass checks, and Spring's MethodParameter.equals (called as super.equals) are left out, since the model's values have no identity or subclasses.
- The default of `@Parameter.required()` is not modelled. `Parameter(required, members)` stores the value the annotation reports. Annotation member values are compared as their text, which stands in for Annotation.equals on member values; arrays and nested annotations as member values are not modelled separately.
- Annotation arrays are sequences. Arrays.equals on them is sequence equality, and the final `toArray` conversion of the list is the identity.
