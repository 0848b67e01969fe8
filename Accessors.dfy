/** The accessor protocol of initializeGettersAndSetters: for every method of
    the definition, each @Setter parameter and the @Getter annotation are
    checked against the field table and turned into builder steps; a method
    is emitted exactly when it carries at least one of them. */
module Accessors {
  import opened Base
  import opened Directives
  import opened Builder
  import opened Schema
  import opened Synthesis

  /** The @Setter parameters of a method, in order, each with its annotation. */
  function Setters(ps: seq<Parameter>): (r: seq<(Parameter, Accessor)>)
    ensures |r| <= |ps|
    ensures forall i | 0 <= i < |r| :: r[i].0.setter == Some(r[i].1)
    ensures |r| == 0 <==> forall i | 0 <= i < |ps| :: ps[i].setter.None?
    decreases |ps|
  {
    if |ps| == 0 then []
    else
      var init, p := Setters(ps[..|ps| - 1]), ps[|ps| - 1];
      assert forall i | 0 <= i < |ps| - 1 :: ps[..|ps| - 1][i] == ps[i];
      match p.setter
      case None => init
      case Some(s) => init + [(p, s)]
  }

  /** The arguments the setter rule appends for the given setters. */
  function SetterArguments(ss: seq<(Parameter, Accessor)>): (r: seq<string>)
    ensures |r| == |ss|
  {
    seq(|ss|, i requires 0 <= i < |ss| => Argument(ss[i].0.paramType, ss[i].0.name))
  }

  /** The body lines the setter rule appends for the given setters. */
  function SetterLines(ss: seq<(Parameter, Accessor)>): (r: seq<string>)
    ensures |r| == |ss|
  {
    seq(|ss|, i requires 0 <= i < |ss| => Indented(SetterLine(ss[i].1.fieldName, ss[i].0.name, ss[i].1.isSynchronized)))
  }

  /** The check verifyFieldType makes for one parameter: none unless it
      carries @Setter, then the named field must have the parameter's type. */
  function SetterCheck(types: map<string, JClass>, p: Parameter): Option<Error>
  {
    match p.setter
    case None => None
    case Some(s) => VerifyFieldType(types, s.fieldName, p.paramType)
  }

  /** The check for the method's @Getter: the named field must have the
      method's return type. */
  function GetterCheck(types: map<string, JClass>, meth: Method): Option<Error>
  {
    match meth.getter
    case None => None
    case Some(g) => VerifyFieldType(types, g.fieldName, meth.returnType)
  }

  /** The parameter loop: each @Setter parameter is verified, then the
      setter rule is applied; the first failing check stops the loop. */
  function ApplySetters(types: map<string, JClass>, m: MethodSpec, ps: seq<Parameter>): (r: Result<MethodSpec, Error>)
    ensures r.Ok? <==> forall i | 0 <= i < |ps| :: SetterCheck(types, ps[i]).None?
    ensures r.Ok? ==> r.value.name == m.name && r.value.modifiers == m.modifiers && r.value.returnType == m.returnType
    decreases |ps|
  {
    if |ps| == 0 then Ok(m)
    else
      var init, p := ps[..|ps| - 1], ps[|ps| - 1];
      assert forall i | 0 <= i < |ps| - 1 :: init[i] == ps[i];
      match ApplySetters(types, m, init)
      case Err(e) => Err(e)
      case Ok(m') =>
        match p.setter
        case None => Ok(m')
        case Some(s) =>
          match VerifyFieldType(types, s.fieldName, p.paramType)
          case Some(e) => Err(e)
          case None => Ok(WithSetter(m', s, p))
  }

  /** On success the parameter loop appended, in order, one argument and one
      assignment line per @Setter parameter, and nothing else. */
  lemma {:induction false} ApplySettersOutput(types: map<string, JClass>, m: MethodSpec, ps: seq<Parameter>)
    requires ApplySetters(types, m, ps).Ok?
    ensures ApplySetters(types, m, ps).value.arguments == m.arguments + SetterArguments(Setters(ps))
    ensures ApplySetters(types, m, ps).value.body == m.body + SetterLines(Setters(ps))
    decreases |ps|
  {
    if |ps| > 0 {
      var init, p := ps[..|ps| - 1], ps[|ps| - 1];
      ApplySettersOutput(types, m, init);
      if p.setter.Some? {
        SettersSnoc(Setters(init), p, p.setter.value);
      }
    }
  }

  /** One more setter adds one argument and one line at the end. */
  lemma SettersSnoc(ss: seq<(Parameter, Accessor)>, p: Parameter, s: Accessor)
    ensures SetterArguments(ss + [(p, s)]) == SetterArguments(ss) + [Argument(p.paramType, p.name)]
    ensures SetterLines(ss + [(p, s)]) == SetterLines(ss) + [Indented(SetterLine(s.fieldName, p.name, s.isSynchronized))]
  {
  }

  /** When the parameter loop fails, it reports the error of the first
      parameter whose check fails. */
  lemma {:induction false} ApplySettersFirstError(types: map<string, JClass>, m: MethodSpec, ps: seq<Parameter>)
    requires ApplySetters(types, m, ps).Err?
    ensures exists i | 0 <= i < |ps| ::
      && SetterCheck(types, ps[i]) == Some(ApplySetters(types, m, ps).error)
      && forall j | 0 <= j < i :: SetterCheck(types, ps[j]).None?
    decreases |ps|
  {
    var init, p := ps[..|ps| - 1], ps[|ps| - 1];
    assert forall i | 0 <= i < |ps| - 1 :: init[i] == ps[i];
    if ApplySetters(types, m, init).Err? {
      ApplySettersFirstError(types, m, init);
      var i :| 0 <= i < |init| && SetterCheck(types, init[i]) == Some(ApplySetters(types, m, init).error)
        && forall j | 0 <= j < i :: SetterCheck(types, init[j]).None?;
      assert SetterCheck(types, ps[i]) == Some(ApplySetters(types, m, ps).error);
    } else {
      assert SetterCheck(types, ps[|ps| - 1]) == Some(ApplySetters(types, m, ps).error);
    }
  }

  /** Once a parameter's check has failed, later parameters are not looked at. */
  lemma {:induction false} ApplySettersSticks(types: map<string, JClass>, m: MethodSpec, ps: seq<Parameter>, n: nat)
    requires n <= |ps| && ApplySetters(types, m, ps[..n]).Err?
    ensures ApplySetters(types, m, ps) == ApplySetters(types, m, ps[..n])
    decreases |ps|
  {
    if n < |ps| {
      var init := ps[..|ps| - 1];
      assert init[..n] == ps[..n];
      ApplySettersSticks(types, m, init, n);
    } else {
      assert ps[..n] == ps;
    }
  }

  predicate HasSetter(ps: seq<Parameter>)
  {
    exists i | 0 <= i < |ps| :: ps[i].setter.Some?
  }

  /** A method is an accessor when it has a @Getter or a @Setter parameter. */
  predicate IsAccessor(meth: Method)
  {
    meth.getter.Some? || HasSetter(meth.parameters)
  }

  /** Every check the accessor protocol makes for one method passes. */
  predicate ChecksPass(types: map<string, JClass>, meth: Method)
  {
    && (forall i | 0 <= i < |meth.parameters| :: SetterCheck(types, meth.parameters[i]).None?)
    && GetterCheck(types, meth).None?
  }

  /** The builder a method starts from: its name and `public`. */
  function Start(meth: Method): MethodSpec
  {
    Fresh(meth.name).(modifiers := ["public"])
  }

  /** One iteration of the method loop: the setters first, then the getter;
      `Some` is the builder to emit, `None` a method that is skipped. The
      result is fully determined: modifiers `public` plus `synchronized` for
      a synchronized getter, the getter's return type or `void`, one argument
      and one line per setter, then the getter's return line. */
  function AccessorMethod(types: map<string, JClass>, meth: Method): (r: Result<Option<MethodSpec>, Error>)
    ensures r.Ok? <==> ChecksPass(types, meth)
    ensures r.Ok? ==> (r.value.Some? <==> IsAccessor(meth))
    ensures r.Ok? && r.value.Some? ==>
      var spec := r.value.value;
      && spec.name == meth.name
      && spec.modifiers == ["public"] + (if meth.getter.Some? && meth.getter.value.isSynchronized then ["synchronized"] else [])
      && spec.returnType == (if meth.getter.Some? then meth.returnType.name else "void")
      && spec.arguments == SetterArguments(Setters(meth.parameters))
      && spec.body == SetterLines(Setters(meth.parameters))
                      + (if meth.getter.Some? then [Indented(GetterLine(meth.getter.value.fieldName))] else [])
  {
    match ApplySetters(types, Start(meth), meth.parameters)
    case Err(e) => Err(e)
    case Ok(m) =>
      ApplySettersOutput(types, Start(meth), meth.parameters);
      assert [] + SetterArguments(Setters(meth.parameters)) == SetterArguments(Setters(meth.parameters));
      assert [] + SetterLines(Setters(meth.parameters)) == SetterLines(Setters(meth.parameters));
      match meth.getter
      case None => if HasSetter(meth.parameters) then Ok(Some(m)) else Ok(None)
      case Some(g) =>
        match VerifyFieldType(types, g.fieldName, meth.returnType)
        case Some(e) => Err(e)
        case None =>
          var m' := WithGetter(m, g, meth.returnType);
          assert m'.body == m.body + [Indented(GetterLine(g.fieldName))];
          assert m'.modifiers == m.modifiers + (if g.isSynchronized then ["synchronized"] else []);
          Ok(Some(m'))
  }

  /** The method loop: the builders emitted for `ms`, in order; the first
      failing check of any method stops it. */
  function AccessorSpecs(types: map<string, JClass>, ms: seq<Method>): (r: Result<seq<MethodSpec>, Error>)
    ensures r.Ok? <==> forall i | 0 <= i < |ms| :: ChecksPass(types, ms[i])
    decreases |ms|
  {
    if |ms| == 0 then Ok([])
    else
      var init := ms[..|ms| - 1];
      assert forall i | 0 <= i < |ms| - 1 :: init[i] == ms[i];
      match AccessorSpecs(types, init)
      case Err(e) => Err(e)
      case Ok(specs) =>
        match AccessorMethod(types, ms[|ms| - 1])
        case Err(e) => Err(e)
        case Ok(None) => Ok(specs)
        case Ok(Some(spec)) => Ok(specs + [spec])
  }

  /** `spec` is the builder of one of the accessors among `ms`. */
  predicate EmittedFor(types: map<string, JClass>, ms: seq<Method>, spec: MethodSpec)
  {
    exists i | 0 <= i < |ms| :: IsAccessor(ms[i]) && AccessorMethod(types, ms[i]) == Ok(Some(spec))
  }

  /** A method is emitted iff it is an accessor: every accessor's builder is
      among the emitted ones, and every emitted builder is some accessor's. */
  lemma EmittedIffAccessor(types: map<string, JClass>, ms: seq<Method>)
    requires AccessorSpecs(types, ms).Ok?
    ensures forall i | 0 <= i < |ms| && IsAccessor(ms[i]) ::
      AccessorMethod(types, ms[i]).value.Some? && AccessorMethod(types, ms[i]).value.value in AccessorSpecs(types, ms).value
    ensures forall j | 0 <= j < |AccessorSpecs(types, ms).value| ::
      EmittedFor(types, ms, AccessorSpecs(types, ms).value[j])
  {
    forall i | 0 <= i < |ms| && IsAccessor(ms[i])
      ensures AccessorMethod(types, ms[i]).value.Some? && AccessorMethod(types, ms[i]).value.value in AccessorSpecs(types, ms).value
    {
      AccessorEmitted(types, ms, i);
    }
    EmittedAreAccessors(types, ms);
  }

  /** The method loop keeps what it has emitted and adds the last method's
      builder, if any, at the end. */
  lemma AccessorSpecsSnoc(types: map<string, JClass>, ms: seq<Method>)
    requires |ms| > 0 && AccessorSpecs(types, ms).Ok?
    ensures AccessorSpecs(types, ms[..|ms| - 1]).Ok?
    ensures AccessorMethod(types, ms[|ms| - 1]).Ok?
    ensures var last := AccessorMethod(types, ms[|ms| - 1]).value;
      AccessorSpecs(types, ms).value
      == AccessorSpecs(types, ms[..|ms| - 1]).value + (if last.Some? then [last.value] else [])
  {
  }

  /** The builder of accessor `ms[i]` is among those emitted. */
  lemma {:induction false} AccessorEmitted(types: map<string, JClass>, ms: seq<Method>, i: nat)
    requires AccessorSpecs(types, ms).Ok? && i < |ms| && IsAccessor(ms[i])
    ensures AccessorMethod(types, ms[i]).Ok? && AccessorMethod(types, ms[i]).value.Some?
    ensures AccessorMethod(types, ms[i]).value.value in AccessorSpecs(types, ms).value
    decreases |ms|
  {
    var init := ms[..|ms| - 1];
    AccessorSpecsSnoc(types, ms);
    if i < |init| {
      assert ms[i] == init[i];
      AccessorEmitted(types, init, i);
    }
  }

  lemma {:induction false} EmittedAreAccessors(types: map<string, JClass>, ms: seq<Method>)
    requires AccessorSpecs(types, ms).Ok?
    ensures forall j | 0 <= j < |AccessorSpecs(types, ms).value| ::
      EmittedFor(types, ms, AccessorSpecs(types, ms).value[j])
    decreases |ms|
  {
    if |ms| > 0 {
      var init := ms[..|ms| - 1];
      AccessorSpecsSnoc(types, ms);
      EmittedAreAccessors(types, init);
      var specs := AccessorSpecs(types, init).value;
      var all := AccessorSpecs(types, ms).value;
      forall j | 0 <= j < |all|
        ensures EmittedFor(types, ms, all[j])
      {
        if j < |specs| {
          assert EmittedFor(types, init, specs[j]);
          var i :| 0 <= i < |init| && IsAccessor(init[i]) && AccessorMethod(types, init[i]) == Ok(Some(specs[j]));
          assert ms[i] == init[i];
          assert all[j] == specs[j];
        } else {
          assert IsAccessor(ms[|ms| - 1]);
        }
      }
    }
  }

  /** The sources addMethodTo hands to the emitter, one per builder. */
  function Rendered(specs: seq<MethodSpec>): (r: seq<string>)
    ensures |r| == |specs|
  {
    seq(|specs|, i requires 0 <= i < |specs| => Render(specs[i]))
  }
}
