/**
  Worked cases of the expansion on a concrete handler method: a query object
  whose class declares the fields `name`, `internal` (no getter) and `email`
  (documented as not required), next to an ordinary `id` parameter.
 */
module ExpansionScenarios {
  import opened Wrappers
  import opened Reflection
  import opened DelegatingParameters

  const Query: ClassName := "Query"
  const Handler := Method("Controller", "find", "List")
  const GetName := Method(Query, "getName", "String")
  const GetEmail := Method(Query, "getEmail", "String")

  const NameField := Field("name", [])
  const InternalField := Field("internal", [])
  const EmailField := Field("email", [Parameter(false, [("description", "contact address")])])
  const QueryFields := [NameField, InternalField, EmailField]

  /** Introspection of Query: a getter for `name` and `email`, a property without one for `internal`. */
  const QueryProperties := [
    PropertyDescriptor("email", Some(GetEmail)),
    PropertyDescriptor("internal", None),
    PropertyDescriptor("name", Some(GetName))]

  const Env := Environment(
    c => c,
    c => if c == Query then QueryFields else [],
    c => if c == Query then Some(QueryProperties) else None,
    true)

  const Id := MethodParameter(Handler, 0, "Long", Some("id"), [])
  const QueryParam := MethodParameter(Handler, 1, Query, Some("query"), [ParameterObject])

  /** The getter lookup on Query: by name, skipping the property without a read method. */
  lemma QueryGetters()
    ensures FindReadMethod(QueryProperties, "name") == Some(GetName)
    ensures FindReadMethod(QueryProperties, "email") == Some(GetEmail)
    ensures FindReadMethod(QueryProperties, "internal") == None
  {
    var tail1, tail2 := QueryProperties[1..], QueryProperties[2..];
    assert tail1[1..] == tail2 && tail2[1..] == [];
    assert FindReadMethod(tail2, "name") == Some(GetName);
    assert FindReadMethod(tail1, "name") == Some(GetName);
    assert FindReadMethod(tail2, "internal") == None;
    assert FindReadMethod(tail1, "internal") == None;
  }

  /**
    Field by field: `name` gets a wrapper with its (empty) annotations,
    `internal` gets none, and `email` gets one with @Nullable appended.
   */
  lemma QueryFieldResults()
    ensures FromGetterOfField(Env, Query, NameField)
            == Some(DelegatingMethodParameter(ReturnParameter(GetName), Some("name"), Some([])))
    ensures FromGetterOfField(Env, Query, InternalField) == None
    ensures FromGetterOfField(Env, Query, EmailField)
            == Some(DelegatingMethodParameter(ReturnParameter(GetEmail), Some("email"), Some([Parameter(false, [("description", "contact address")]), Nullable])))
  {
    QueryGetters();
    assert !IsOptional(NameField) && !IsOptional(InternalField) && IsOptional(EmailField);
    assert Env.beanInfo(Query) == Some(QueryProperties);
    assert NameField.annotations + [] == [];
    assert EmailField.annotations + [Nullable] == [Parameter(false, [("description", "contact address")]), Nullable];
  }

  /**
    The query object's fields expand to exactly two wrappers, `name` then
    `email`; the field between them without a getter contributes nothing.
   */
  lemma QueryExpansion()
    ensures FieldWrappers(Env, Query, QueryFields)
         == [DelegatingMethodParameter(ReturnParameter(GetName), Some("name"), Some([])),
             DelegatingMethodParameter(ReturnParameter(GetEmail), Some("email"), Some([Parameter(false, [("description", "contact address")]), Nullable]))]
  {
    QueryFieldResults();
    assert QueryFields[..2][..1] == [NameField] && QueryFields[..2] == [NameField, InternalField];
    assert [NameField][..0] == [];
    assert FieldWrappers(Env, Query, [NameField])
        == [DelegatingMethodParameter(ReturnParameter(GetName), Some("name"), Some([]))];
    assert FieldWrappers(Env, Query, [NameField, InternalField]) == FieldWrappers(Env, Query, [NameField]);
  }

  /**
    With no names array, `id` passes through under its discovered name and the
    query object is replaced, in its place, by the wrappers of `name` (no
    extra annotations) and `email` (with @Nullable): three wrappers in all.
   */
  lemma EndToEnd()
    ensures NamesCover(None, [Id, QueryParam], 2)
    ensures var out := Exploded(Env, None, [Id, QueryParam]);
      && |out| == 3
      && out[0] == DelegatingMethodParameter(Id, Some("id"), None)
      && out[1].ParameterName() == Some("name")
      && out[1].delegate == ReturnParameter(GetName)
      && out[1].ParameterAnnotations() == []
      && out[2].ParameterName() == Some("email")
      && out[2].delegate == ReturnParameter(GetEmail)
      && out[2].ParameterAnnotations() == [Parameter(false, [("description", "contact address")]), Nullable]
  {
    QueryExpansion();
    var params := [Id, QueryParam];
    assert NamesCover(None, params, 2);
    assert Env.declaredFields(Env.replacement(Query)) == QueryFields;
    var wName := DelegatingMethodParameter(ReturnParameter(GetName), Some("name"), Some([]));
    var wEmail := DelegatingMethodParameter(ReturnParameter(GetEmail), Some("email"), Some([Parameter(false, [("description", "contact address")]), Nullable]));
    assert Contribution(Env, None, params, 1) == [wName, wEmail];
    var parts := Contributions(Env, None, params, 2);
    assert Contributions(Env, None, params, 1) == [[DelegatingMethodParameter(Id, Some("id"), None)]];
    assert parts[..1] == [parts[0]] && [parts[0]][..0] == [];
    assert Flatten(parts[..1]) == parts[0];
  }

  const Base: ClassName := "Base"
  const Derived: ClassName := "Derived"
  const GetX := Method(Base, "getX", "String")
  const BaseX := Field("x", [Parameter(false, [("description", "a")])])
  const DerivedX := Field("x", [Parameter(false, [("description", "b")])])

  /** Derived extends Base and redeclares the field x, hiding Base.x; both classes' property x is read by the inherited Base.getX. */
  const HidingEnv := Environment(
    c => c,
    c => if c == Base then [BaseX] else if c == Derived then [DerivedX] else [],
    c => Some([PropertyDescriptor("x", Some(GetX))]),
    true)

  /**
    The wrappers of Base.x and of Derived.x wrap the same getter under the same
    name, yet they are not equal: their @Parameter annotations differ in a
    member other than required().
   */
  lemma HiddenFieldWrappersDiffer()
    ensures FromGetterOfField(HidingEnv, Base, BaseX).Some?
    ensures FromGetterOfField(HidingEnv, Derived, DerivedX).Some?
    ensures var w1, w2 := FromGetterOfField(HidingEnv, Base, BaseX).value, FromGetterOfField(HidingEnv, Derived, DerivedX).value;
      && w1.delegate == w2.delegate == ReturnParameter(GetX)
      && w1.ParameterName() == w2.ParameterName() == Some("x")
      && !w1.Equals(w2)
  {
    assert IsOptional(BaseX) && IsOptional(DerivedX);
    assert HidingEnv.beanInfo(Base) == HidingEnv.beanInfo(Derived) == Some([PropertyDescriptor("x", Some(GetX))]);
    assert BaseX.annotations[0] != DerivedX.annotations[0];
    assert (BaseX.annotations + [Nullable])[0] != (DerivedX.annotations + [Nullable])[0];
  }
}
