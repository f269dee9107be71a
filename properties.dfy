/**
  What the expansion of a handler method's parameters guarantees: order,
  length, naming, where each parameter's wrappers sit, which fields are
  dropped, and which annotations a field wrapper reports.
 */
module ExpansionProperties {
  import opened Wrappers
  import opened Reflection
  import opened DelegatingParameters

  /** The concatenation of a prefix of the parts is a prefix of the concatenation. */
  lemma {:induction false} FlattenPrefix<T>(parts: seq<seq<T>>, n: nat)
    requires n <= |parts|
    ensures |Flatten(parts[..n])| <= |Flatten(parts)|
    ensures Flatten(parts)[..|Flatten(parts[..n])|] == Flatten(parts[..n])
    decreases |parts|
  {
    if n == |parts| {
      assert parts[..n] == parts;
    } else {
      var init := parts[..|parts| - 1];
      FlattenPrefix(init, n);
      assert init[..n] == parts[..n];
      assert Flatten(parts) == Flatten(init) + parts[|parts| - 1];
    }
  }

  /** Part `i` sits in the concatenation right after the parts before it. */
  lemma FlattenAt<T>(parts: seq<seq<T>>, i: nat)
    requires i < |parts|
    ensures |Flatten(parts[..i])| + |parts[i]| == |Flatten(parts[..i + 1])| <= |Flatten(parts)|
    ensures Flatten(parts)[|Flatten(parts[..i])|..|Flatten(parts[..i + 1])|] == parts[i]
  {
    FlattenPrefix(parts, i + 1);
    assert parts[..i + 1][..i] == parts[..i];
    var upto := Flatten(parts[..i + 1]);
    assert upto == Flatten(parts[..i]) + parts[i];
    assert Flatten(parts)[..|upto|] == upto;
    assert Flatten(parts)[|Flatten(parts[..i])|..|upto|] == upto[|Flatten(parts[..i])|..];
  }

  /** Every element of the concatenation comes from one of the parts. */
  lemma {:induction false} FlattenMember<T>(parts: seq<seq<T>>, x: T)
    requires x in Flatten(parts)
    ensures exists i :: 0 <= i < |parts| && x in parts[i]
  {
    var init := parts[..|parts| - 1];
    if x !in parts[|parts| - 1] {
      FlattenMember(init, x);
      var i :| 0 <= i < |init| && x in init[i];
      assert parts[i] == init[i];
    }
  }

  /** A concatenation of one-element parts has one element per part, in order. */
  lemma {:induction false} FlattenSingletons<T>(parts: seq<seq<T>>)
    requires forall i :: 0 <= i < |parts| ==> |parts[i]| == 1
    ensures |Flatten(parts)| == |parts|
    ensures forall i :: 0 <= i < |parts| ==> Flatten(parts)[i] == parts[i][0]
  {
    if parts != [] {
      var init := parts[..|parts| - 1];
      FlattenSingletons(init);
      assert Flatten(parts) == Flatten(init) + parts[|parts| - 1];
    }
  }

  /** Entry `i` of the contributions is the contribution of the parameter at `i`. */
  lemma {:induction false} ContributionsAt(env: Environment, pNames: Option<seq<Option<string>>>, parameters: seq<MethodParameter>, n: nat, i: nat)
    requires i < n <= |parameters| && NamesCover(pNames, parameters, n)
    ensures Contributions(env, pNames, parameters, n)[i] == Contribution(env, pNames, parameters, i)
  {
    if i < n - 1 {
      ContributionsAt(env, pNames, parameters, n - 1, i);
    }
  }

  /** Where the wrappers of the parameter at `i` start in the expansion. */
  function Offset(env: Environment, pNames: Option<seq<Option<string>>>, parameters: seq<MethodParameter>, i: nat): nat
    requires i <= |parameters| && NamesCover(pNames, parameters, |parameters|)
  {
    |Flatten(Contributions(env, pNames, parameters, |parameters|)[..i])|
  }

  /**
    The wrappers of the parameter at `i` sit contiguously in the expansion,
    right after those of the parameters before it.
   */
  lemma ContributionAt(env: Environment, pNames: Option<seq<Option<string>>>, parameters: seq<MethodParameter>, i: nat)
    requires i < |parameters| && NamesCover(pNames, parameters, |parameters|)
    ensures Offset(env, pNames, parameters, i) + |Contribution(env, pNames, parameters, i)|
            == Offset(env, pNames, parameters, i + 1)
            <= |Exploded(env, pNames, parameters)|
    ensures Exploded(env, pNames, parameters)[Offset(env, pNames, parameters, i)..Offset(env, pNames, parameters, i + 1)]
            == Contribution(env, pNames, parameters, i)
  {
    FlattenAt(Contributions(env, pNames, parameters, |parameters|), i);
    ContributionsAt(env, pNames, parameters, |parameters|, i);
  }

  /** The parameters' relative order is kept: the wrappers of an earlier parameter come first. */
  lemma OffsetsMonotone(env: Environment, pNames: Option<seq<Option<string>>>, parameters: seq<MethodParameter>, i: nat, j: nat)
    requires i <= j <= |parameters| && NamesCover(pNames, parameters, |parameters|)
    ensures Offset(env, pNames, parameters, i) <= Offset(env, pNames, parameters, j)
  {
    var parts := Contributions(env, pNames, parameters, |parameters|);
    FlattenPrefix(parts[..j], i);
    assert parts[..j][..i] == parts[..i];
  }

  /**
    An ordinary parameter becomes exactly one wrapper, at its offset, named
    `pNames[i]` when names are given and its discovered name otherwise, and
    reporting exactly the parameter's own annotations.
   */
  lemma OrdinaryParameterWrapped(env: Environment, pNames: Option<seq<Option<string>>>, parameters: seq<MethodParameter>, i: nat)
    requires i < |parameters| && NamesCover(pNames, parameters, |parameters|)
    requires !IsParameterObject(parameters[i])
    ensures !NameMissing(pNames, parameters, i)
    ensures Offset(env, pNames, parameters, i + 1) == Offset(env, pNames, parameters, i) + 1
            <= |Exploded(env, pNames, parameters)|
    ensures var w := Exploded(env, pNames, parameters)[Offset(env, pNames, parameters, i)];
      && w.delegate == parameters[i]
      && w.ParameterName() == (if pNames.Some? then pNames.value[i] else parameters[i].discoveredName)
      && w.ParameterAnnotations() == parameters[i].annotations
  {
    ContributionAt(env, pNames, parameters, i);
    var o := Offset(env, pNames, parameters, i);
    assert Exploded(env, pNames, parameters)[o] == Exploded(env, pNames, parameters)[o..o + 1][0];
  }

  /**
    A @ParameterObject parameter contributes no wrapper of its own: in its
    place stand the wrappers of the declared fields of its replacement class.
   */
  lemma ObjectParameterExpanded(env: Environment, pNames: Option<seq<Option<string>>>, parameters: seq<MethodParameter>, i: nat)
    requires i < |parameters| && NamesCover(pNames, parameters, |parameters|)
    requires IsParameterObject(parameters[i])
    ensures Offset(env, pNames, parameters, i) <= Offset(env, pNames, parameters, i + 1)
            <= |Exploded(env, pNames, parameters)|
    ensures var paramClass := env.replacement(parameters[i].parameterType);
      Exploded(env, pNames, parameters)[Offset(env, pNames, parameters, i)..Offset(env, pNames, parameters, i + 1)]
      == FieldWrappers(env, paramClass, env.declaredFields(paramClass))
  {
    ContributionAt(env, pNames, parameters, i);
  }

  /**
    Every wrapper in the expansion is an ordinary parameter, wrapped with no
    extra annotations, or the return value of a getter, wrapped with the
    annotations of a field; none wraps a @ParameterObject parameter.
   */
  lemma WrapperOrigins(env: Environment, pNames: Option<seq<Option<string>>>, parameters: seq<MethodParameter>, w: DelegatingMethodParameter)
    requires NamesCover(pNames, parameters, |parameters|)
    requires w in Exploded(env, pNames, parameters)
    ensures !IsParameterObject(w.delegate)
    ensures || (w.additionalParameterAnnotations.None? && w.delegate in parameters)
            || (w.additionalParameterAnnotations.Some? && w.delegate.index == -1)
  {
    var parts := Contributions(env, pNames, parameters, |parameters|);
    FlattenMember(parts, w);
    var i :| 0 <= i < |parts| && w in parts[i];
    ContributionsAt(env, pNames, parameters, |parameters|, i);
    var p := parameters[i];
    if IsParameterObject(p) {
      var paramClass := env.replacement(p.parameterType);
      FieldWrapperOrigin(env, paramClass, env.declaredFields(paramClass), w);
      var f :| f in env.declaredFields(paramClass) && FromGetterOfField(env, paramClass, f) == Some(w);
    }
  }

  /** Every field wrapper is what fromGetterOfField returned for one of the fields. */
  lemma {:induction false} FieldWrapperOrigin(env: Environment, paramClass: ClassName, fields: seq<Field>, w: DelegatingMethodParameter)
    requires w in FieldWrappers(env, paramClass, fields)
    ensures exists f :: f in fields && FromGetterOfField(env, paramClass, f) == Some(w)
  {
    var init := fields[..|fields| - 1];
    var last := fields[|fields| - 1];
    if FromGetterOfField(env, paramClass, last) != Some(w) {
      FieldWrapperOrigin(env, paramClass, init, w);
      var f :| f in init && FromGetterOfField(env, paramClass, f) == Some(w);
      assert f in fields;
    }
  }

  /** Without @ParameterObject parameters the expansion is one wrapper per parameter, in the same order. */
  lemma ExplodedSingletons(env: Environment, pNames: Option<seq<Option<string>>>, parameters: seq<MethodParameter>)
    requires NamesCover(pNames, parameters, |parameters|)
    requires forall i :: 0 <= i < |parameters| ==> !IsParameterObject(parameters[i])
    ensures |Exploded(env, pNames, parameters)| == |parameters|
    ensures forall i :: 0 <= i < |parameters| ==>
      Exploded(env, pNames, parameters)[i]
      == DelegatingMethodParameter(parameters[i], OrdinaryName(pNames, parameters, i), None)
  {
    var parts := Contributions(env, pNames, parameters, |parameters|);
    forall i | 0 <= i < |parameters|
      ensures parts[i] == [DelegatingMethodParameter(parameters[i], OrdinaryName(pNames, parameters, i), None)]
    {
      ContributionsAt(env, pNames, parameters, |parameters|, i);
    }
    FlattenSingletons(parts);
  }

  /** Without @ParameterObject parameters, a names array covers the parameters exactly when it is at least as long. */
  lemma NamesCoverWithoutParameterObjects(pNames: Option<seq<Option<string>>>, parameters: seq<MethodParameter>)
    requires forall i :: 0 <= i < |parameters| ==> !IsParameterObject(parameters[i])
    ensures NamesCover(pNames, parameters, |parameters|) <==> (pNames.None? || |pNames.value| >= |parameters|)
  {
    if pNames.Some? && |pNames.value| < |parameters| {
      assert NameMissing(pNames, parameters, |pNames.value|);
    }
  }

  /**
    Without @ParameterObject parameters, and with a names array at least as
    long as the parameters when one is given, the output has one wrapper per
    parameter, in order, each wrapping its parameter under the name that
    customize picks and with no extra annotations.
   */
  lemma ExplodedWithoutParameterObjects(env: Environment, pNames: Option<seq<Option<string>>>, parameters: seq<MethodParameter>)
    requires forall i :: 0 <= i < |parameters| ==> !IsParameterObject(parameters[i])
    requires pNames.None? || |pNames.value| >= |parameters|
    ensures NamesCover(pNames, parameters, |parameters|)
    ensures |Exploded(env, pNames, parameters)| == |parameters|
    ensures forall i :: 0 <= i < |parameters| ==>
      && Exploded(env, pNames, parameters)[i].delegate == parameters[i]
      && Exploded(env, pNames, parameters)[i].ParameterName()
         == (if pNames.Some? then pNames.value[i] else parameters[i].discoveredName)
      && Exploded(env, pNames, parameters)[i].additionalParameterAnnotations == None
  {
    NamesCoverWithoutParameterObjects(pNames, parameters);
    ExplodedSingletons(env, pNames, parameters);
  }

  /** The field wrappers of a concatenation of field lists are the concatenation of their field wrappers. */
  lemma {:induction false} FieldWrappersAppend(env: Environment, paramClass: ClassName, front: seq<Field>, back: seq<Field>)
    ensures FieldWrappers(env, paramClass, front + back)
            == FieldWrappers(env, paramClass, front) + FieldWrappers(env, paramClass, back)
    decreases |back|
  {
    if back == [] {
      assert front + back == front;
    } else {
      var init := back[..|back| - 1];
      FieldWrappersAppend(env, paramClass, front, init);
      assert (front + back)[..|front + back| - 1] == front + init;
      assert (front + back)[|front + back| - 1] == back[|back| - 1];
    }
  }

  /** A field for which fromGetterOfField yields null is dropped, and only that field: the fields around it are expanded as usual. */
  lemma NullFieldOmitted(env: Environment, paramClass: ClassName, front: seq<Field>, f: Field, back: seq<Field>)
    requires FromGetterOfField(env, paramClass, f) == None
    ensures FieldWrappers(env, paramClass, front + [f] + back)
            == FieldWrappers(env, paramClass, front) + FieldWrappers(env, paramClass, back)
  {
    FieldWrappersAppend(env, paramClass, front + [f], back);
    FieldWrappersAppend(env, paramClass, front, [f]);
    assert [f][..0] == [];
  }

  /** When every field yields a wrapper, there is one wrapper per field, in declaration order. */
  lemma {:induction false} FieldWrappersAllReadable(env: Environment, paramClass: ClassName, fields: seq<Field>)
    requires forall k :: 0 <= k < |fields| ==> FromGetterOfField(env, paramClass, fields[k]).Some?
    ensures |FieldWrappers(env, paramClass, fields)| == |fields|
    ensures forall k :: 0 <= k < |fields| ==>
      Some(FieldWrappers(env, paramClass, fields)[k]) == FromGetterOfField(env, paramClass, fields[k])
  {
    if fields != [] {
      var init := fields[..|fields| - 1];
      var rInit := FieldWrappers(env, paramClass, init);
      assert |rInit| == |init| && forall k :: 0 <= k < |init| ==> Some(rInit[k]) == FromGetterOfField(env, paramClass, fields[k]) by {
        assert forall k :: 0 <= k < |init| ==> init[k] == fields[k];
        FieldWrappersAllReadable(env, paramClass, init);
      }
      var last := FromGetterOfField(env, paramClass, fields[|fields| - 1]);
      assert FieldWrappers(env, paramClass, fields) == rInit + [last.value];
    }
  }

  /**
    The getter lookup finds a read method exactly when some property named
    `name` has one, and then it is the read method of the first such property.
   */
  lemma {:induction false} FindReadMethodFirst(props: seq<PropertyDescriptor>, name: string)
    ensures FindReadMethod(props, name).None? <==>
      forall k :: 0 <= k < |props| ==> !(props[k].name == name && props[k].readMethod.Some?)
    ensures FindReadMethod(props, name).Some? ==>
      exists k :: IsFirstReader(props, name, k) && props[k].readMethod == FindReadMethod(props, name)
  {
    if props != [] {
      if props[0].name == name && props[0].readMethod.Some? {
        assert IsFirstReader(props, name, 0);
      } else {
        FindReadMethodFirst(props[1..], name);
        assert forall k :: 1 <= k < |props| ==> props[k] == props[1..][k - 1];
        if FindReadMethod(props, name).Some? {
          var k :| IsFirstReader(props[1..], name, k) && props[1..][k].readMethod == FindReadMethod(props, name);
          assert IsFirstReader(props, name, k + 1);
        }
      }
    }
  }

  /**
    fromGetterOfField yields a wrapper exactly when the @Nullable sentinel is
    found (or not needed), introspection succeeds, and some property named
    after the field has a read method; the wrapper wraps the return value of
    the first such read method and is named after the field.
   */
  lemma FromGetterOfFieldResult(env: Environment, paramClass: ClassName, field: Field)
    ensures FromGetterOfField(env, paramClass, field).Some? <==>
      && (IsOptional(field) ==> env.nullableSentinel)
      && env.beanInfo(paramClass).Some?
      && exists k :: IsFirstReader(env.beanInfo(paramClass).value, field.name, k)
    ensures var r := FromGetterOfField(env, paramClass, field);
      r.Some? ==>
      && r.value.ParameterName() == Some(field.name)
      && r.value.delegate.index == -1
      && exists k :: IsFirstReader(env.beanInfo(paramClass).value, field.name, k)
                     && r.value.delegate == ReturnParameter(env.beanInfo(paramClass).value[k].readMethod.value)
  {
    if env.beanInfo(paramClass).Some? {
      var props := env.beanInfo(paramClass).value;
      FindReadMethodFirst(props, field.name);
      if FindReadMethod(props, field.name).None? {
        assert forall k :: !IsFirstReader(props, field.name, k);
      }
    }
  }

  /**
    The annotations a field wrapper reports are the field's declared
    annotations, with one @Nullable appended when the field's @Parameter says
    required = false; the getter's return value adds none of its own.
   */
  lemma FieldWrapperAnnotations(env: Environment, paramClass: ClassName, f: Field, w: DelegatingMethodParameter)
    requires FromGetterOfField(env, paramClass, f) == Some(w)
    ensures w.ParameterName() == Some(f.name)
    ensures w.ParameterAnnotations() == f.annotations + (if IsOptional(f) then [Nullable] else [])
  {
  }

  /** Appending annotations after a @Parameter does not change which @Parameter is found first. */
  lemma {:induction false} ParameterRequiredPrefix(a: seq<Annotation>, b: seq<Annotation>)
    requires ParameterRequired(a).Some?
    ensures ParameterRequired(a + b) == ParameterRequired(a)
  {
    if !a[0].Parameter? {
      ParameterRequiredPrefix(a[1..], b);
      assert (a + b)[1..] == a[1..] + b;
    }
  }

  /**
    Two field wrappers are equal exactly when they wrap the same getter and
    their fields have the same name and equal annotations, every annotation
    member value included.
   */
  lemma FieldWrappersEqual(env: Environment, c1: ClassName, f1: Field, w1: DelegatingMethodParameter,
                           c2: ClassName, f2: Field, w2: DelegatingMethodParameter)
    requires FromGetterOfField(env, c1, f1) == Some(w1)
    requires FromGetterOfField(env, c2, f2) == Some(w2)
    ensures w1.Equals(w2) <==>
      w1.delegate == w2.delegate && f1.name == f2.name && f1.annotations == f2.annotations
  {
    var a1 := f1.annotations + (if IsOptional(f1) then [Nullable] else []);
    var a2 := f2.annotations + (if IsOptional(f2) then [Nullable] else []);
    assert w1.additionalParameterAnnotations == Some(a1);
    assert w2.additionalParameterAnnotations == Some(a2);
    if a1 == a2 {
      if IsOptional(f1) && !IsOptional(f2) {
        assert f2.annotations == f1.annotations + [Nullable];
        ParameterRequiredPrefix(f1.annotations, [Nullable]);
        assert false;
      } else if !IsOptional(f1) && IsOptional(f2) {
        assert f1.annotations == f2.annotations + [Nullable];
        ParameterRequiredPrefix(f2.annotations, [Nullable]);
        assert false;
      } else if IsOptional(f1) {
        assert a1 == f1.annotations + [Nullable] && a2 == f2.annotations + [Nullable];
        assert f1.annotations == a1[..|a1| - 1] && f2.annotations == a2[..|a2| - 1];
      } else {
        assert a1 == f1.annotations && a2 == f2.annotations;
      }
    }
  }

  /** When the @Nullable sentinel cannot be found, an optional field is dropped even if it has a getter. */
  lemma SentinelFailureDropsField(env: Environment, paramClass: ClassName, f: Field)
    requires IsOptional(f) && !env.nullableSentinel
    ensures FromGetterOfField(env, paramClass, f) == None
  {
  }

  /** getParameterName answers with the stored name whatever the delegate is. */
  lemma ParameterNameIgnoresDelegate(w: DelegatingMethodParameter, other: MethodParameter)
    ensures w.(delegate := other).ParameterName() == w.ParameterName()
  {
  }
}
