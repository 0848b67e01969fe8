/** Schema extraction and validation: how a factory turns the @Field
    constants of a definition into its field table (name to type, name to
    modifier bits), and the check every accessor's type must pass against
    that table. */
module Schema {
  import opened Base
  import opened Directives
  import Templates

  /** The exceptions that stop a specialization or an instantiation. */
  datatype Error =
    | NullDefinition                  // the definition is null
    | NotAnInterface                  // the definition is not an interface
    | ConstantNotString               // a @Field constant is not declared String
    | NullFieldName                   // a @Field constant's value is null
    | DuplicateFieldName(name: string)
    | NullFieldType                   // a @Field annotation gives no type
    | FieldMissing(name: string)      // an accessor names a field not in the table
    | FieldTypeMismatch(name: string, actual: JClass, expected: JClass)
    | CompilationFailed               // the emitter could not build or load the class
    | InstantiationFailed             // no constructor for the factory's parameters

  /** A factory's field table: `fieldsType`, `fieldsModifiers`, and the
      names in insertion order, standing in for the order of
      `fieldsType.keySet()`; the proofs use only that each name appears once. */
  datatype Table = Table(types: map<string, JClass>, modifiers: map<string, bv32>, keys: seq<string>)

  const EmptyTable := Table(map[], map[], [])

  /** Every name is listed exactly once and has both a type and modifiers. */
  predicate Valid(t: Table)
  {
    && (forall i, j | 0 <= i < j < |t.keys| :: t.keys[i] != t.keys[j])
    && (forall k | k in t.types :: k in t.keys)
    && (forall i | 0 <= i < |t.keys| :: t.keys[i] in t.types)
    && t.modifiers.Keys == t.types.Keys
  }

  /** Both puts of one field. */
  function Put(t: Table, name: string, fieldType: JClass, modifiers: bv32): Table
  {
    Table(t.types[name := fieldType], t.modifiers[name := modifiers],
          if name in t.types then t.keys else t.keys + [name])
  }

  /** verifyFieldType: passes (None) exactly when the table has the field
      with exactly the expected type; it changes nothing. */
  function VerifyFieldType(types: map<string, JClass>, fieldName: string, expected: JClass): (r: Option<Error>)
    ensures r.None? <==> fieldName in types && types[fieldName] == expected
    ensures fieldName !in types ==> r == Some(FieldMissing(fieldName))
    ensures fieldName in types && types[fieldName] != expected
            ==> r == Some(FieldTypeMismatch(fieldName, types[fieldName], expected))
  {
    if fieldName !in types then Some(FieldMissing(fieldName))
    else if types[fieldName] != expected then Some(FieldTypeMismatch(fieldName, types[fieldName], expected))
    else None
  }

  /** getFieldName: the constant's value, unless it is null or already a key. */
  function GetFieldName(types: map<string, JClass>, value: Option<string>): (r: Result<string, Error>)
    ensures r.Ok? <==> value.Some? && value.value !in types
    ensures r.Ok? ==> r.value == value.value
    ensures value.None? ==> r == Err(NullFieldName)
    ensures value.Some? && value.value in types ==> r == Err(DuplicateFieldName(value.value))
  {
    match value
    case None => Err(NullFieldName)
    case Some(name) => if name in types then Err(DuplicateFieldName(name)) else Ok(name)
  }

  /** getFieldType: the annotation's type, unless it is null. */
  function GetFieldType(meta: FieldMeta): (r: Result<JClass, Error>)
    ensures r.Ok? <==> meta.fieldType.Some?
    ensures r.Ok? ==> r.value == meta.fieldType.value
    ensures r.Err? ==> r.error == NullFieldType
  {
    match meta.fieldType
    case None => Err(NullFieldType)
    case Some(ty) => Ok(ty)
  }

  /** `PRIVATE`, or'ed with `VOLATILE` when the annotation asks for it. */
  function FieldModifiers(isVolatile: bool): (m: bv32)
    ensures m & PRIVATE == PRIVATE
    ensures (m & VOLATILE == VOLATILE) <==> isVolatile
    ensures m & !(PRIVATE | VOLATILE) == 0
  {
    PRIVATE | (if isVolatile then VOLATILE else 0)
  }

  /** A constant that, if annotated with @Field, passes every check of its own:
      declared String, non-null value, non-null type. */
  predicate WellDeclared(c: Constant)
  {
    c.meta.Some? ==> c.declaredType == StringClass && c.value.Some? && c.meta.value.fieldType.Some?
  }

  /** One iteration of initializeClass's field loop. A constant without @Field
      is skipped; otherwise it must be declared String, its value must be a
      non-null name not yet in the table and its annotation must give a type;
      the checks run in that order and the first that fails is reported. */
  function AddField(t: Table, c: Constant): (r: Result<Table, Error>)
    ensures c.meta.None? ==> r == Ok(t)
    ensures c.meta.Some? && c.declaredType != StringClass ==> r == Err(ConstantNotString)
    ensures c.meta.Some? && c.declaredType == StringClass && c.value.None? ==> r == Err(NullFieldName)
    ensures c.meta.Some? && c.declaredType == StringClass && c.value.Some? && c.value.value in t.types
            ==> r == Err(DuplicateFieldName(c.value.value))
    ensures c.meta.Some? && c.declaredType == StringClass && c.value.Some? && c.value.value !in t.types
            && c.meta.value.fieldType.None?
            ==> r == Err(NullFieldType)
    ensures r.Ok? <==> WellDeclared(c) && (c.meta.Some? ==> c.value.value !in t.types)
    ensures r.Ok? && c.meta.Some?
            ==> r.value == Put(t, c.value.value, c.meta.value.fieldType.value, FieldModifiers(c.meta.value.isVolatile))
    ensures Valid(t) && r.Ok? ==> Valid(r.value)
  {
    match c.meta
    case None => Ok(t)
    case Some(meta) =>
      if c.declaredType != StringClass then Err(ConstantNotString)
      else
        match GetFieldName(t.types, c.value)
        case Err(e) => Err(e)
        case Ok(name) =>
          match GetFieldType(meta)
          case Err(e) => Err(e)
          case Ok(fieldType) =>
            var t' := Put(t, name, fieldType, FieldModifiers(meta.isVolatile));
            assert Valid(t) ==> Valid(t') by {
              if Valid(t) {
                assert name !in t.keys;
              }
            }
            Ok(t')
  }

  /** Where the field loop stopped: the table as it was left, and the error
      that stopped it, if any. */
  datatype Extraction = Extraction(table: Table, failure: Option<Error>)

  /** The field loop of initializeClass over the constants `cs`, starting
      from table `t`; it stops at the first error, keeping what it had put. */
  function ExtractFields(t: Table, cs: seq<Constant>): Extraction
    decreases |cs|
  {
    if |cs| == 0 then Extraction(t, None)
    else
      var prev := ExtractFields(t, cs[..|cs| - 1]);
      if prev.failure.Some? then prev
      else
        match AddField(prev.table, cs[|cs| - 1])
        case Ok(t') => Extraction(t', None)
        case Err(e) => Extraction(prev.table, Some(e))
  }

  /** The names the @Field constants among `cs` declare (null ones skipped). */
  function DeclaredNames(cs: seq<Constant>): set<string>
  {
    set i | 0 <= i < |cs| && cs[i].meta.Some? && cs[i].value.Some? :: cs[i].value.value
  }

  /** The checks the whole loop makes: every @Field constant is well
      declared, and the names they declare are pairwise different and not
      already in the table. */
  predicate Acceptable(t: Table, cs: seq<Constant>)
  {
    && (forall i | 0 <= i < |cs| :: WellDeclared(cs[i]))
    && (forall i, j | 0 <= i < j < |cs| && cs[i].meta.Some? && cs[j].meta.Some? :: cs[i].value != cs[j].value)
    && (forall i | 0 <= i < |cs| && cs[i].meta.Some? && cs[i].value.Some? :: cs[i].value.value !in t.types)
  }

  lemma DeclaredNamesSnoc(cs: seq<Constant>, c: Constant)
    ensures DeclaredNames(cs + [c])
         == DeclaredNames(cs) + (if c.meta.Some? && c.value.Some? then {c.value.value} else {})
  {
    var all := cs + [c];
    assert forall i | 0 <= i < |cs| :: all[i] == cs[i];
    assert all[|cs|] == c;
  }

  lemma AcceptablePrefix(t: Table, cs: seq<Constant>, n: nat)
    requires n <= |cs| && Acceptable(t, cs)
    ensures Acceptable(t, cs[..n])
  {
    assert forall i | 0 <= i < n :: cs[..n][i] == cs[i];
  }

  /** The field loop keeps every field table invariant. */
  lemma {:induction false} ExtractKeepsValid(t: Table, cs: seq<Constant>)
    requires Valid(t)
    ensures Valid(ExtractFields(t, cs).table)
    decreases |cs|
  {
    if |cs| > 0 {
      ExtractKeepsValid(t, cs[..|cs| - 1]);
    }
  }

  /** After a successful loop the table holds the old names plus exactly
      the names the @Field constants declare. */
  lemma {:induction false} ExtractedNames(t: Table, cs: seq<Constant>)
    requires ExtractFields(t, cs).failure.None?
    ensures ExtractFields(t, cs).table.types.Keys == t.types.Keys + DeclaredNames(cs)
    decreases |cs|
  {
    if |cs| > 0 {
      var init, c := cs[..|cs| - 1], cs[|cs| - 1];
      assert cs == init + [c];
      ExtractedNames(t, init);
      DeclaredNamesSnoc(init, c);
    }
  }

  /** Acceptable constants make the loop succeed. */
  lemma {:induction false} ExtractSucceeds(t: Table, cs: seq<Constant>)
    requires Acceptable(t, cs)
    ensures ExtractFields(t, cs).failure.None?
    decreases |cs|
  {
    if |cs| > 0 {
      var init, c := cs[..|cs| - 1], cs[|cs| - 1];
      AcceptablePrefix(t, cs, |cs| - 1);
      ExtractSucceeds(t, init);
      ExtractedNames(t, init);
      var prev := ExtractFields(t, init).table;
      assert WellDeclared(c);
      if c.meta.Some? {
        assert c.value.value !in t.types;
        forall i | 0 <= i < |init| && init[i].meta.Some?
          ensures init[i].value != c.value
        {
          assert cs[i] == init[i];
        }
        assert c.value.value !in prev.types;
      }
    }
  }

  /** Appending a well-declared constant whose name is new keeps the
      constants acceptable. */
  lemma AcceptableSnoc(t: Table, init: seq<Constant>, c: Constant)
    requires Acceptable(t, init) && WellDeclared(c)
    requires c.meta.Some? ==> c.value.value !in t.types && c.value.value !in DeclaredNames(init)
    ensures Acceptable(t, init + [c])
  {
    var cs := init + [c];
    assert forall i | 0 <= i < |init| :: cs[i] == init[i];
    if c.meta.Some? {
      forall i | 0 <= i < |init| && init[i].meta.Some?
        ensures init[i].value != c.value
      {
        assert init[i].value.value in DeclaredNames(init);
      }
    }
  }

  /** A successful loop means the constants were acceptable. */
  lemma {:induction false} ExtractSuccessAcceptable(t: Table, cs: seq<Constant>)
    requires ExtractFields(t, cs).failure.None?
    ensures Acceptable(t, cs)
    decreases |cs|
  {
    if |cs| > 0 {
      var init, c := cs[..|cs| - 1], cs[|cs| - 1];
      ExtractSuccessAcceptable(t, init);
      ExtractedNames(t, init);
      assert AddField(ExtractFields(t, init).table, c).Ok?;
      AcceptableSnoc(t, init, c);
      assert cs == init + [c];
    }
  }

  /** The loop succeeds exactly when the constants are acceptable; then the
      table holds the old names plus one per @Field constant, and it keeps
      every field table invariant whether or not it succeeds. */
  lemma ExtractFieldsCorrect(t: Table, cs: seq<Constant>)
    requires Valid(t)
    ensures Valid(ExtractFields(t, cs).table)
    ensures ExtractFields(t, cs).failure.None? <==> Acceptable(t, cs)
    ensures Acceptable(t, cs) ==> ExtractFields(t, cs).table.types.Keys == t.types.Keys + DeclaredNames(cs)
  {
    ExtractKeepsValid(t, cs);
    if Acceptable(t, cs) {
      ExtractSucceeds(t, cs);
      ExtractedNames(t, cs);
    }
    if ExtractFields(t, cs).failure.None? {
      ExtractSuccessAcceptable(t, cs);
    }
  }

  /** When the loop fails, it failed on one constant after every constant
      before it passed; the table is the one those constants built. */
  lemma {:induction false} ExtractFieldsStops(t: Table, cs: seq<Constant>)
    requires ExtractFields(t, cs).failure.Some?
    ensures exists n | 0 <= n < |cs| ::
      && ExtractFields(t, cs[..n]).failure.None?
      && ExtractFields(t, cs).table == ExtractFields(t, cs[..n]).table
      && AddField(ExtractFields(t, cs[..n]).table, cs[n]) == Err(ExtractFields(t, cs).failure.value)
    decreases |cs|
  {
    var init := cs[..|cs| - 1];
    var prev := ExtractFields(t, init);
    if prev.failure.Some? {
      ExtractFieldsStops(t, init);
      var n :| 0 <= n < |init| && ExtractFields(t, init[..n]).failure.None?
        && prev.table == ExtractFields(t, init[..n]).table
        && AddField(ExtractFields(t, init[..n]).table, init[n]) == Err(prev.failure.value);
      assert init[..n] == cs[..n] && init[n] == cs[n];
    } else {
      assert cs[..|cs| - 1] == init;
    }
  }

  /** The entries the table had before the field loop are kept, whether or
      not the loop succeeds. */
  lemma {:induction false} ExtractKeepsEntries(t: Table, cs: seq<Constant>)
    ensures var r := ExtractFields(t, cs).table;
      forall k | k in t.types && k in t.modifiers ::
        k in r.types && r.types[k] == t.types[k] && k in r.modifiers && r.modifiers[k] == t.modifiers[k]
    decreases |cs|
  {
    if |cs| > 0 {
      var init, c := cs[..|cs| - 1], cs[|cs| - 1];
      ExtractKeepsEntries(t, init);
      var prev := ExtractFields(t, init);
      if prev.failure.None? && AddField(prev.table, c).Ok? {
        AddFieldKeeps(prev.table, c);
      }
    }
  }

  /** Adding one field never overwrites an entry. */
  lemma AddFieldKeeps(t: Table, c: Constant)
    requires AddField(t, c).Ok?
    ensures var r := AddField(t, c).value;
      forall k | k in t.types && k in t.modifiers :: k in r.types && r.types[k] == t.types[k] && k in r.modifiers && r.modifiers[k] == t.modifiers[k]
  {
    if c.meta.Some? {
      assert c.value.value !in t.types;
    }
  }

  /** Every @Field constant ends up in the table with its declared type and
      its modifiers. */
  lemma {:induction false} ExtractedEntries(t: Table, cs: seq<Constant>)
    requires Valid(t) && Acceptable(t, cs)
    ensures var r := ExtractFields(t, cs).table;
      && Valid(r)
      && (forall i | 0 <= i < |cs| && cs[i].meta.Some? ::
            && cs[i].value.Some? && cs[i].value.value in r.types
            && r.types[cs[i].value.value] == cs[i].meta.value.fieldType.value
            && r.modifiers[cs[i].value.value] == FieldModifiers(cs[i].meta.value.isVolatile))
    decreases |cs|
  {
    ExtractFieldsCorrect(t, cs);
    if |cs| > 0 {
      var init, c := cs[..|cs| - 1], cs[|cs| - 1];
      AcceptablePrefix(t, cs, |cs| - 1);
      ExtractFieldsCorrect(t, init);
      ExtractedEntries(t, init);
      var prev := ExtractFields(t, init).table;
      var r := ExtractFields(t, cs).table;
      assert AddField(prev, c).Ok?;
      forall i | 0 <= i < |cs| - 1 && cs[i].meta.Some?
        ensures cs[i].value.Some? && cs[i].value.value in r.types
        ensures r.types[cs[i].value.value] == cs[i].meta.value.fieldType.value
        ensures r.modifiers[cs[i].value.value] == FieldModifiers(cs[i].meta.value.isVolatile)
      {
        assert cs[i] == init[i];
        if c.meta.Some? {
          assert cs[i].value != cs[|cs| - 1].value;
        }
      }
    }
  }

  /** Once the loop has failed, the remaining constants are not looked at. */
  lemma {:induction false} FailureSticks(t: Table, cs: seq<Constant>, n: nat)
    requires n <= |cs| && ExtractFields(t, cs[..n]).failure.Some?
    ensures ExtractFields(t, cs) == ExtractFields(t, cs[..n])
    decreases |cs|
  {
    if n < |cs| {
      var init := cs[..|cs| - 1];
      assert init[..n] == cs[..n];
      FailureSticks(t, init, n);
    } else {
      assert cs[..n] == cs;
    }
  }

  /** The table is never cleared: a factory that has extracted the fields of
      one definition rejects a later definition whose first @Field constant
      reuses one of those names, with DuplicateFieldName. */
  lemma ReusedNameFails(t: Table, first: seq<Constant>, second: seq<Constant>)
    requires Valid(t) && Acceptable(t, first)
    requires |second| > 0 && second[0].meta.Some? && second[0].declaredType == StringClass
    requires second[0].value.Some? && second[0].value.value in DeclaredNames(first)
    ensures ExtractFields(ExtractFields(t, first).table, second).failure
         == Some(DuplicateFieldName(second[0].value.value))
  {
    ExtractFieldsCorrect(t, first);
    var stale := ExtractFields(t, first).table;
    var name := second[0].value.value;
    assert name in stale.types;
    assert AddField(stale, second[0]) == Err(DuplicateFieldName(name));
    var one := second[..1];
    assert one[..0] == [] && one[0] == second[0];
    assert ExtractFields(stale, one) == Extraction(stale, Some(DuplicateFieldName(name)));
    FailureSticks(stale, second, 1);
  }

  /** The synthesizers' view of the table: each name with whether its type is
      primitive, in keySet() order. */
  function Infos(t: Table): (r: seq<Templates.FieldInfo>)
    requires Valid(t)
    ensures |r| == |t.keys|
    ensures forall i | 0 <= i < |r| :: r[i].name == t.keys[i] && r[i].isPrimitive == t.types[t.keys[i]].isPrimitive
  {
    seq(|t.keys|, i requires 0 <= i < |t.keys| => Templates.FieldInfo(t.keys[i], t.types[t.keys[i]].isPrimitive))
  }
}
