/** The factory: validates a definition, specializes it into a class through
    the emitter, caches that class per definition and instantiates it. One
    class `Factory` stands for the abstract base and its two subclasses; its
    `layout` says which subclass it is. */
module Factories {
  import opened Base
  import opened Directives
  import opened Builder
  import opened Templates
  import opened Synthesis
  import opened Schema
  import opened Accessors
  import opened Layouts

  /** The class under construction (a javassist CtClass): its name, the
      interface it implements, and the fields and method sources added. */
  datatype ClassImage = ClassImage(name: string, interfaces: seq<string>, fields: seq<FieldSpec>, methods: seq<string>)

  /** The emission boundary: whether the class pool knows a class by name,
      whether a method source compiles in the class built so far, and
      whether the finished class can be turned into a loaded class. */
  datatype Emitter = Emitter(
    known: string -> bool,
    compiles: (ClassImage, string) -> bool,
    loads: ClassImage -> bool)

  /** A loaded generated class, with the definition it implements. */
  datatype LoadedClass = LoadedClass(definition: ClassDef, image: ClassImage)

  /** An instance of a generated class and the constructor arguments it got. */
  datatype Object = Object(impl: LoadedClass, args: seq<int>)

  /** The constructors of a generated class. No factory adds a constructor to
      the class under construction, and a class built without one gets the
      no-argument constructor from the emitter. */
  function Constructors(impl: LoadedClass): seq<seq<JClass>>
  {
    [[]]
  }

  /** getDeclaredConstructor(getConstructorParameters()).newInstance(params). */
  function Instantiate(impl: LoadedClass, layout: Layout, params: seq<int>): (r: Result<Object, Error>)
    ensures r.Ok? <==> layout.Structure? && params == []
    ensures r.Ok? ==> r.value == Object(impl, params)
    ensures r.Err? ==> r.error == InstantiationFailed
  {
    var ps := ConstructorParameters(layout);
    if ps in Constructors(impl) && |params| == |ps| then Ok(Object(impl, params)) else Err(InstantiationFailed)
  }

  /** The class makeClass starts from, with the definition added as its
      interface. */
  function Blank(def: ClassDef, layout: Layout): ClassImage
  {
    ClassImage(ClassName(def.packageName, layout, def.simpleName), [def.name], [], [])
  }

  /** Adding the layout's fields: every field type must be known to the pool. */
  function PlaceFields(image: ClassImage, slots: seq<FieldSpec>, emitter: Emitter): Result<ClassImage, Error>
  {
    if forall i | 0 <= i < |slots| :: emitter.known(slots[i].typeName)
    then Ok(image.(fields := image.fields + slots))
    else Err(CompilationFailed)
  }

  /** The method loop of initializeGettersAndSetters, with each emitted
      method's source added to the class as soon as it is built. */
  function EmitAccessors(types: map<string, JClass>, image: ClassImage, ms: seq<Method>, emitter: Emitter): Result<ClassImage, Error>
    decreases |ms|
  {
    if |ms| == 0 then Ok(image)
    else
      match EmitAccessors(types, image, ms[..|ms| - 1], emitter)
      case Err(e) => Err(e)
      case Ok(img) =>
        match AccessorMethod(types, ms[|ms| - 1])
        case Err(e) => Err(e)
        case Ok(None) => Ok(img)
        case Ok(Some(spec)) =>
          if emitter.compiles(img, Render(spec)) then Ok(img.(methods := img.methods + [Render(spec)]))
          else Err(CompilationFailed)
  }

  /** Once the method loop has failed, later methods are not looked at. */
  lemma {:induction false} EmitAccessorsSticks(types: map<string, JClass>, image: ClassImage, ms: seq<Method>, emitter: Emitter, n: nat)
    requires n <= |ms| && EmitAccessors(types, image, ms[..n], emitter).Err?
    ensures EmitAccessors(types, image, ms, emitter) == EmitAccessors(types, image, ms[..n], emitter)
    decreases |ms|
  {
    if n < |ms| {
      var init := ms[..|ms| - 1];
      assert init[..n] == ms[..n];
      EmitAccessorsSticks(types, image, init, emitter, n);
    } else {
      assert ms[..n] == ms;
    }
  }

  /** The methods added are exactly the rendered accessor builders, in
      order; a failing check always stops the loop. */
  lemma {:induction false} EmitAccessorsMatchesSpecs(types: map<string, JClass>, image: ClassImage, ms: seq<Method>, emitter: Emitter)
    ensures EmitAccessors(types, image, ms, emitter).Ok? ==>
      && AccessorSpecs(types, ms).Ok?
      && EmitAccessors(types, image, ms, emitter).value
         == image.(methods := image.methods + Rendered(AccessorSpecs(types, ms).value))
    decreases |ms|
  {
    if |ms| > 0 {
      var init := ms[..|ms| - 1];
      EmitAccessorsMatchesSpecs(types, image, init, emitter);
      if EmitAccessors(types, image, ms, emitter).Ok? {
        var specs := AccessorSpecs(types, init).value;
        var m := AccessorMethod(types, ms[|ms| - 1]);
        if m.value.Some? {
          RenderedSnoc(specs, m.value.value);
        }
      }
    }
  }

  lemma RenderedSnoc(specs: seq<MethodSpec>, spec: MethodSpec)
    ensures Rendered(specs + [spec]) == Rendered(specs) + [Render(spec)]
  {
  }

  /** When every source compiles, only a failing check stops the loop. */
  lemma {:induction false} EmitAccessorsWhenAllCompile(types: map<string, JClass>, image: ClassImage, ms: seq<Method>, emitter: Emitter)
    requires forall img, text :: emitter.compiles(img, text)
    ensures EmitAccessors(types, image, ms, emitter).Ok? <==> AccessorSpecs(types, ms).Ok?
    decreases |ms|
  {
    if |ms| > 0 {
      EmitAccessorsWhenAllCompile(types, image, ms[..|ms| - 1], emitter);
    }
  }

  /** initializeClass on a class under construction: the field loop, the
      layout's fields, then the accessors. Gives the field table afterwards
      (changed even when a later step fails) and the class or the error. */
  function Populate(layout: Layout, t: Table, def: ClassDef, image: ClassImage, emitter: Emitter): (Table, Result<ClassImage, Error>)
    requires Valid(t)
  {
    var x := ExtractFields(t, def.constants);
    ExtractKeepsValid(t, def.constants);
    if x.failure.Some? then (x.table, Err(x.failure.value))
    else
      match PlaceFields(image, LayoutSlots(layout, x.table), emitter)
      case Err(e) => (x.table, Err(e))
      case Ok(img) => (x.table, EmitAccessors(x.table.types, img, def.methods, emitter))
  }

  /** A cache miss: resolve the interface, run initializeClass, load the
      class. Gives the field table afterwards and the class or the error. */
  function Specialize(layout: Layout, t: Table, def: ClassDef, emitter: Emitter): (Table, Result<ClassImage, Error>)
    requires Valid(t)
  {
    if !emitter.known(def.name) then (t, Err(CompilationFailed))
    else
      var (t', built) := Populate(layout, t, def, Blank(def, layout), emitter);
      if built.Ok? && !emitter.loads(built.value) then (t', Err(CompilationFailed)) else (t', built)
  }

  /** The field table a specialization leaves behind is well formed. */
  lemma SpecializeKeepsValid(layout: Layout, t: Table, def: ClassDef, emitter: Emitter)
    requires Valid(t)
    ensures Valid(Specialize(layout, t, def, emitter).0)
  {
    ExtractKeepsValid(t, def.constants);
  }

  /** Invalid constants (a non-String constant, a null or reused name, a
      null type) always make the specialization fail. */
  lemma SpecializeRejects(layout: Layout, t: Table, def: ClassDef, emitter: Emitter)
    requires Valid(t) && !Acceptable(t, def.constants)
    ensures Specialize(layout, t, def, emitter).1.Err?
  {
    ExtractFieldsCorrect(t, def.constants);
  }

  /** initializeClass succeeded: every constant and every accessor was
      valid, and the class got the layout's fields for the new table and
      one method per accessor. */
  lemma PopulateSound(layout: Layout, t: Table, def: ClassDef, image: ClassImage, emitter: Emitter)
    requires Valid(t) && Populate(layout, t, def, image, emitter).1.Ok?
    ensures var (t', built) := Populate(layout, t, def, image, emitter);
      && Valid(t')
      && Acceptable(t, def.constants)
      && t'.types.Keys == t.types.Keys + DeclaredNames(def.constants)
      && AccessorSpecs(t'.types, def.methods).Ok?
      && built.value == image.(fields := image.fields + LayoutSlots(layout, t'),
                               methods := image.methods + Rendered(AccessorSpecs(t'.types, def.methods).value))
  {
    ExtractFieldsCorrect(t, def.constants);
    var x := ExtractFields(t, def.constants);
    var placed := PlaceFields(image, LayoutSlots(layout, x.table), emitter);
    EmitAccessorsMatchesSpecs(x.table.types, placed.value, def.methods, emitter);
  }

  /** A successful specialization validated every constant and every
      accessor, and produced the class named for the layout and definition,
      implementing the definition, with the layout's fields for the new
      table and one method per accessor. */
  lemma SpecializeSound(layout: Layout, t: Table, def: ClassDef, emitter: Emitter)
    requires Valid(t) && Specialize(layout, t, def, emitter).1.Ok?
    ensures var (t', built) := Specialize(layout, t, def, emitter);
      && Valid(t')
      && Acceptable(t, def.constants)
      && t'.types.Keys == t.types.Keys + DeclaredNames(def.constants)
      && AccessorSpecs(t'.types, def.methods).Ok?
      && (forall i | 0 <= i < |def.methods| :: ChecksPass(t'.types, def.methods[i]))
      && emitter.loads(built.value)
      && built.value == ClassImage(ClassName(def.packageName, layout, def.simpleName), [def.name],
                                   LayoutSlots(layout, t'), Rendered(AccessorSpecs(t'.types, def.methods).value))
  {
    var blank := Blank(def, layout);
    PopulateSound(layout, t, def, blank, emitter);
    var (t', built) := Populate(layout, t, def, blank, emitter);
    assert [] + LayoutSlots(layout, t') == LayoutSlots(layout, t');
    assert [] + Rendered(AccessorSpecs(t'.types, def.methods).value) == Rendered(AccessorSpecs(t'.types, def.methods).value);
  }

  /** The result of createInstance with the field table and the cache
      contents it leaves behind. */
  datatype Outcome = Outcome(result: Result<Object, Error>, table: Table, cache: map<ClassDef, LoadedClass>)

  /** createInstance: reject a null or non-interface definition; on a cache
      hit instantiate the cached class; on a miss specialize, store the class
      only once it is loaded, then instantiate. */
  function CreateOutcome(layout: Layout, t: Table, cache: map<ClassDef, LoadedClass>, def: Option<ClassDef>,
                         params: seq<int>, emitter: Emitter): (r: Outcome)
    requires Valid(t)
    ensures Valid(r.table)
    ensures def.None? ==> r == Outcome(Err(NullDefinition), t, cache)
    ensures def.Some? && !def.value.isInterface ==> r == Outcome(Err(NotAnInterface), t, cache)
    ensures def.Some? && def.value.isInterface && def.value in cache
            ==> r.table == t && r.cache == cache && r.result == Instantiate(cache[def.value], layout, params)
    ensures r.cache != cache ==>
      && def.Some? && def.value.isInterface && def.value !in cache
      && def.value in r.cache
      && r.cache == cache[def.value := LoadedClass(def.value, r.cache[def.value].image)]
      && emitter.loads(r.cache[def.value].image)
    ensures r.result.Ok? ==> def.Some? && def.value in r.cache && r.result.value.impl == r.cache[def.value]
    ensures def.Some? && def.value.isInterface && def.value !in cache
            ==> r.table == Specialize(layout, t, def.value, emitter).0
    ensures def.Some? && def.value.isInterface && def.value !in cache && Specialize(layout, t, def.value, emitter).1.Ok?
            ==> var impl := LoadedClass(def.value, Specialize(layout, t, def.value, emitter).1.value);
                r.cache == cache[def.value := impl] && r.result == Instantiate(impl, layout, params)
  {
    if def.None? then Outcome(Err(NullDefinition), t, cache)
    else if !def.value.isInterface then Outcome(Err(NotAnInterface), t, cache)
    else if def.value in cache then Outcome(Instantiate(cache[def.value], layout, params), t, cache)
    else
      SpecializeKeepsValid(layout, t, def.value, emitter);
      var (t', built) := Specialize(layout, t, def.value, emitter);
      match built
      case Err(e) => Outcome(Err(e), t', cache)
      case Ok(image) =>
        var impl := LoadedClass(def.value, image);
        Outcome(Instantiate(impl, layout, params), t', cache[def.value := impl])
  }

  /** A definition whose class is cached, or whose specialization loads,
      is found in the cache after one create: creating it again specializes
      nothing, changes neither the table nor the cache, and instantiates the
      very class the first call stored. */
  lemma SecondCreateHits(layout: Layout, t: Table, cache: map<ClassDef, LoadedClass>, def: ClassDef,
                         params: seq<int>, again: seq<int>, emitter: Emitter)
    requires Valid(t)
    requires def.isInterface && (def in cache || Specialize(layout, t, def, emitter).1.Ok?)
    ensures var first := CreateOutcome(layout, t, cache, Some(def), params, emitter);
      var second := CreateOutcome(layout, first.table, first.cache, Some(def), again, emitter);
      && def in first.cache
      && second.table == first.table && second.cache == first.cache
      && second.result == Instantiate(first.cache[def], layout, again)
      && (first.result.Ok? && second.result.Ok? ==> second.result.value.impl == first.result.value.impl)
  {
  }

  /** A failed specialization leaves the cache as it was: the cache only
      changes on a miss whose class was loaded. */
  lemma FailedSpecializationLeavesCache(layout: Layout, t: Table, cache: map<ClassDef, LoadedClass>, def: ClassDef,
                                        params: seq<int>, emitter: Emitter)
    requires Valid(t) && def.isInterface && def !in cache
    requires Specialize(layout, t, def, emitter).1.Err?
    ensures CreateOutcome(layout, t, cache, Some(def), params, emitter).cache == cache
    ensures CreateOutcome(layout, t, cache, Some(def), params, emitter).result
         == Err(Specialize(layout, t, def, emitter).1.error)
  {
  }

  /** The Array factory asks for an `(int)` constructor that no generated
      class has, so it never returns an instance. */
  lemma ArrayNeverInstantiates(t: Table, cache: map<ClassDef, LoadedClass>, def: Option<ClassDef>,
                               params: seq<int>, emitter: Emitter)
    requires Valid(t)
    ensures CreateOutcome(Array, t, cache, def, params, emitter).result.Err?
  {
  }

  /** The cache is keyed by the definition alone and shared by both
      factories: after the Array factory has loaded a class for a
      definition, the Structure factory instantiates that Array class. */
  lemma CacheSharedAcrossLayouts(ta: Table, ts: Table, cache: map<ClassDef, LoadedClass>, def: ClassDef,
                                 size: int, emitter: Emitter)
    requires Valid(ta) && Valid(ts) && def.isInterface && def !in cache
    requires Specialize(Array, ta, def, emitter).1.Ok?
    ensures var first := CreateOutcome(Array, ta, cache, Some(def), [size], emitter);
      var second := CreateOutcome(Structure, ts, first.cache, Some(def), [], emitter);
      && second.result.Ok?
      && second.result.value.impl.image.name == ClassName(def.packageName, Array, def.simpleName)
  {
    SpecializeSound(Array, ta, def, emitter);
  }

  /** One more field extends the blocks by that field's block. */
  lemma NextBlock(f: Format, es: seq<FieldInfo>, i: nat, start: seq<string>, body: seq<string>)
    requires i < |es| && body == start + Indent(Blocks(f, es[..i]))
    ensures body + Indent(Block(f, es[i])) == start + Indent(Blocks(f, es[..i + 1]))
  {
    assert es[..i + 1][..i] == es[..i];
    IndentAppend(Blocks(f, es[..i]), Block(f, es[i]));
  }

  /** One more entry bumps its type's counter, creating it and listing the
      type on its first occurrence; a type has a counter exactly when it is
      listed. */
  lemma CountStep(vs: seq<JClass>, i: nat, ty: JClass, counts: map<JClass, nat>, order: seq<JClass>)
    requires i < |vs| && ty == vs[i] && counts == Tally(vs[..i]) && order == Order(vs[..i])
    ensures Tally(vs[..i + 1]) == counts[ty := Get(counts, ty) + 1]
    ensures Order(vs[..i + 1]) == if ty in counts then order else order + [ty]
  {
    assert vs[..i + 1][..i] == vs[..i];
    TallyCounts(vs[..i]);
    OrderDistinct(vs[..i]);
  }

  lemma CountedIffListedAll(vs: seq<JClass>)
    ensures forall i | 0 <= i < |Order(vs)| :: Order(vs)[i] in Tally(vs)
  {
    TallyCounts(vs);
    OrderDistinct(vs);
  }

  /** The array fields for counters `classCount` visited in `order`. */
  function Arrays(classCount: map<JClass, nat>, order: seq<JClass>): (r: seq<FieldSpec>)
    requires forall k | 0 <= k < |order| :: order[k] in classCount
    ensures |r| == |order|
    ensures forall k | 0 <= k < |order| :: r[k].typeName == order[k].name + "[]"
  {
    seq(|order|, k requires 0 <= k < |order| => ArrayField(order[k], classCount[order[k]]))
  }

  /** The specialization cache, shared by every factory. */
  class ImplCache {
    var impls: map<ClassDef, LoadedClass>

    constructor ()
      ensures impls == map[]
    {
      impls := map[];
    }
  }

  class Factory {
    const layout: Layout
    var fieldsType: map<string, JClass>
    var fieldsModifiers: map<string, bv32>
    var keys: seq<string>

    /** The field table as a value. */
    function FieldTable(): Table
      reads this
    {
      Table(fieldsType, fieldsModifiers, keys)
    }

    predicate Valid()
      reads this
    {
      Schema.Valid(FieldTable())
    }

    constructor (layout: Layout)
      ensures this.layout == layout && FieldTable() == EmptyTable && Valid()
    {
      this.layout := layout;
      fieldsType := map[];
      fieldsModifiers := map[];
      keys := [];
    }

    /** The field loop of initializeClass. */
    method InitializeClassFields(constants: seq<Constant>) returns (failure: Option<Error>)
      requires Valid()
      modifies this
      ensures Valid()
      ensures ExtractFields(old(FieldTable()), constants) == Extraction(FieldTable(), failure)
    {
      ghost var t := FieldTable();
      var i := 0;
      while i < |constants|
        invariant 0 <= i <= |constants|
        invariant Valid()
        invariant ExtractFields(t, constants[..i]) == Extraction(FieldTable(), None)
      {
        var c := constants[i];
        assert constants[..i + 1][..i] == constants[..i];
        if c.meta.Some? {
          var fieldMeta := c.meta.value;
          if c.declaredType != StringClass {
            failure := Some(ConstantNotString);
            FailureSticks(t, constants, i + 1);
            return;
          }
          if c.value.None? {
            failure := Some(NullFieldName);
            FailureSticks(t, constants, i + 1);
            return;
          }
          var fieldName := c.value.value;
          if fieldName in fieldsType {
            failure := Some(DuplicateFieldName(fieldName));
            FailureSticks(t, constants, i + 1);
            return;
          }
          if fieldMeta.fieldType.None? {
            failure := Some(NullFieldType);
            FailureSticks(t, constants, i + 1);
            return;
          }
          var fieldType := fieldMeta.fieldType.value;
          fieldsType := fieldsType[fieldName := fieldType];
          keys := keys + [fieldName];
          var modifiers := PRIVATE;
          modifiers := modifiers | (if fieldMeta.isVolatile then VOLATILE else 0);
          fieldsModifiers := fieldsModifiers[fieldName := modifiers];
        }
        i := i + 1;
      }
      assert constants[..i] == constants;
      failure := None;
    }

    /** StructureFactory.initializeFields: one field per entry. */
    method InitializeStructureFields(image: ClassImage, emitter: Emitter) returns (r: Result<ClassImage, Error>)
      requires Valid()
      ensures r == PlaceFields(image, StructureSlots(FieldTable()), emitter)
    {
      ghost var slots := StructureSlots(FieldTable());
      var acc := image;
      var i := 0;
      while i < |keys|
        invariant 0 <= i <= |keys|
        invariant acc == image.(fields := image.fields + slots[..i])
        invariant forall k | 0 <= k < i :: emitter.known(slots[k].typeName)
      {
        var fieldName := keys[i];
        var typeName := fieldsType[fieldName].name;
        if !emitter.known(typeName) {
          assert slots[i].typeName == typeName;
          r := Err(CompilationFailed);
          return;
        }
        assert slots[..i + 1] == slots[..i] + [FieldSpec(typeName, fieldName, fieldsModifiers[fieldName], None)];
        acc := acc.(fields := acc.fields + [FieldSpec(typeName, fieldName, fieldsModifiers[fieldName], None)]);
        i := i + 1;
      }
      assert slots[..i] == slots;
      r := Ok(acc);
    }

    /** ArrayFactory.initializeFields: count the entries of each type, then
        add one array per type. */
    method InitializeArrayFields(image: ClassImage, emitter: Emitter) returns (r: Result<ClassImage, Error>)
      requires Valid()
      ensures r == PlaceFields(image, ArraySlots(FieldTable()), emitter)
    {
      var classCount, order := CountTypes();
      CountedIffListedAll(Values(FieldTable()));
      r := AddArrays(image, classCount, order, emitter);
      assert Arrays(classCount, order) == ArraySlots(FieldTable());
    }

    /** The second loop of ArrayFactory.initializeFields: one array field per
        counted type, in the counters' order. */
    method AddArrays(image: ClassImage, classCount: map<JClass, nat>, order: seq<JClass>, emitter: Emitter)
      returns (r: Result<ClassImage, Error>)
      requires forall k | 0 <= k < |order| :: order[k] in classCount
      ensures r == PlaceFields(image, Arrays(classCount, order), emitter)
    {
      ghost var slots := Arrays(classCount, order);
      var acc := image;
      var j := 0;
      while j < |order|
        invariant 0 <= j <= |order|
        invariant acc == image.(fields := image.fields + slots[..j])
        invariant forall k | 0 <= k < j :: emitter.known(slots[k].typeName)
      {
        var ty := order[j];
        var next := InitializeField(acc, ty, classCount[ty], emitter);
        if next.Err? {
          r := next;
          return;
        }
        assert slots[..j + 1] == slots[..j] + [slots[j]];
        acc := next.value;
        j := j + 1;
      }
      assert slots[..j] == slots;
      r := Ok(acc);
    }

    /** The first loop of ArrayFactory.initializeFields: one counter per
        type of fieldsType.values(), created at the type's first occurrence
        and incremented at each occurrence. */
    method CountTypes() returns (classCount: map<JClass, nat>, order: seq<JClass>)
      requires Valid()
      ensures classCount == Tally(Values(FieldTable())) && order == Order(Values(FieldTable()))
    {
      ghost var vs := Values(FieldTable());
      classCount, order := map[], [];
      var i := 0;
      while i < |keys|
        invariant 0 <= i <= |keys|
        invariant classCount == Tally(vs[..i]) && order == Order(vs[..i])
      {
        var ty := fieldsType[keys[i]];
        CountStep(vs, i, ty, classCount, order);
        classCount, order := Count(classCount, order, ty);
        i := i + 1;
      }
      assert vs[..i] == vs;
    }

    /** The body of that loop: look the counter up, create it at zero on
        the type's first occurrence, increment it. */
    method Count(classCount: map<JClass, nat>, order: seq<JClass>, ty: JClass)
      returns (classCount': map<JClass, nat>, order': seq<JClass>)
      ensures classCount' == classCount[ty := Get(classCount, ty) + 1]
      ensures order' == if ty in classCount then order else order + [ty]
    {
      var counter := 0;
      order' := order;
      if ty in classCount {
        counter := classCount[ty];
      } else {
        order' := order + [ty];
      }
      classCount' := classCount[ty := counter + 1];
    }

    /** ArrayFactory.initializeField: adds the `count`-element array of
        `ty`, if the pool knows the array type. */
    method InitializeField(image: ClassImage, ty: JClass, count: nat, emitter: Emitter) returns (r: Result<ClassImage, Error>)
      ensures emitter.known(ty.name + "[]") ==> r == Ok(image.(fields := image.fields + [ArrayField(ty, count)]))
      ensures !emitter.known(ty.name + "[]") ==> r == Err(CompilationFailed)
    {
      var arrayType := ty.name + "[]";
      if !emitter.known(arrayType) {
        return Err(CompilationFailed);
      }
      var field := FieldSpec(arrayType, "_" + ty.name + "_array", PRIVATE, Some("new " + ty.name + "[" + NatToString(count) + "]"));
      r := Ok(image.(fields := image.fields + [field]));
    }

    /** initializeFields, as the layout defines it. */
    method InitializeFields(image: ClassImage, emitter: Emitter) returns (r: Result<ClassImage, Error>)
      requires Valid()
      ensures r == PlaceFields(image, LayoutSlots(layout, FieldTable()), emitter)
    {
      match layout
      case Structure => r := InitializeStructureFields(image, emitter);
      case Array => r := InitializeArrayFields(image, emitter);
    }

    /** The getter rule, the same for both layouts. */
    method InitializeGetter(mb: MethodBuilder, getter: Accessor, returnType: JClass)
      modifies mb
      ensures mb.Spec() == WithGetter(old(mb.Spec()), getter, returnType)
    {
      if getter.isSynchronized {
        mb.AddModifier("synchronized");
      }
      mb.SetReturnType(returnType);
      mb.AddBodyLine(GetterLine(getter.fieldName));
    }

    /** The setter rule, the same for both layouts. */
    method InitializeSetter(mb: MethodBuilder, setter: Accessor, param: Parameter)
      modifies mb
      ensures mb.Spec() == WithSetter(old(mb.Spec()), setter, param)
    {
      mb.AddParameter(param);
      mb.AddBodyLine(SetterLine(setter.fieldName, param.name, setter.isSynchronized));
    }

    /** The parameter loop of initializeGettersAndSetters: verify and apply
        each @Setter parameter, in order, stopping at the first failure;
        `wasAnnotated` tells whether a @Setter parameter was met. */
    method AddSetters(mb: MethodBuilder, ps: seq<Parameter>) returns (failure: Option<Error>, wasAnnotated: bool)
      modifies mb
      ensures ApplySetters(fieldsType, old(mb.Spec()), ps) == if failure.None? then Ok(mb.Spec()) else Err(failure.value)
      ensures failure.None? ==> (wasAnnotated <==> HasSetter(ps))
    {
      assert ps[..0] == [];
      wasAnnotated := false;
      var j := 0;
      while j < |ps|
        invariant 0 <= j <= |ps|
        invariant ApplySetters(fieldsType, old(mb.Spec()), ps[..j]) == Ok(mb.Spec())
        invariant wasAnnotated <==> HasSetter(ps[..j])
      {
        var param := ps[j];
        assert ps[..j + 1][..j] == ps[..j];
        assert ps[..j + 1][j] == param;
        if param.setter.Some? {
          wasAnnotated := true;
          var check := VerifyFieldType(fieldsType, param.setter.value.fieldName, param.paramType);
          if check.Some? {
            ApplySettersSticks(fieldsType, old(mb.Spec()), ps, j + 1);
            failure := check;
            return;
          }
          InitializeSetter(mb, param.setter.value, param);
        } else {
          assert HasSetter(ps[..j + 1]) ==> HasSetter(ps[..j]) by {
            if HasSetter(ps[..j + 1]) {
              var k :| 0 <= k < j + 1 && ps[..j + 1][k].setter.Some?;
              assert ps[..j][k] == ps[..j + 1][k];
            }
          }
        }
        j := j + 1;
      }
      assert ps[..j] == ps;
      failure := None;
    }

    /** One iteration of the method loop of initializeGettersAndSetters: a
        builder for `meth` with its setters and its getter applied; `Ok(true)`
        when the method is annotated and is to be added to the class. */
    method BuildAccessor(meth: Method) returns (mb: MethodBuilder, r: Result<bool, Error>)
      ensures fresh(mb)
      ensures AccessorMethod(fieldsType, meth)
           == match r
              case Err(e) => Err(e)
              case Ok(emit) => Ok(if emit then Some(mb.Spec()) else None)
    {
      mb := new MethodBuilder(meth.name);
      mb.AddModifier("public");
      assert mb.Spec() == Start(meth);
      var failure, wasAnnotated := AddSetters(mb, meth.parameters);
      if failure.Some? {
        r := Err(failure.value);
        return;
      }
      if meth.getter.Some? {
        wasAnnotated := true;
        var check := VerifyFieldType(fieldsType, meth.getter.value.fieldName, meth.returnType);
        if check.Some? {
          r := Err(check.value);
          return;
        }
        InitializeGetter(mb, meth.getter.value, meth.returnType);
      }
      r := Ok(wasAnnotated);
    }

    /** initializeGettersAndSetters: for each method, verify and apply its
        setters, then its getter, and add it to the class if annotated. */
    method InitializeGettersAndSetters(image: ClassImage, ms: seq<Method>, emitter: Emitter) returns (r: Result<ClassImage, Error>)
      ensures r == EmitAccessors(fieldsType, image, ms, emitter)
    {
      var acc := image;
      var i := 0;
      while i < |ms|
        invariant 0 <= i <= |ms|
        invariant EmitAccessors(fieldsType, image, ms[..i], emitter) == Ok(acc)
      {
        assert ms[..i + 1][..i] == ms[..i];
        var mb, built := BuildAccessor(ms[i]);
        if built.Err? {
          EmitAccessorsSticks(fieldsType, image, ms, emitter, i + 1);
          r := Err(built.error);
          return;
        }
        if built.value {
          var text := mb.BuildMethod();
          if !emitter.compiles(acc, text) {
            EmitAccessorsSticks(fieldsType, image, ms, emitter, i + 1);
            r := Err(CompilationFailed);
            return;
          }
          acc := acc.(methods := acc.methods + [text]);
        }
        i := i + 1;
      }
      assert ms[..i] == ms;
      r := Ok(acc);
    }

    /** initializeClass: the field loop, the layout's fields, the accessors.
        The table keeps what the field loop put even when a later step fails. */
    method InitializeClass(def: ClassDef, image: ClassImage, emitter: Emitter) returns (r: Result<ClassImage, Error>)
      requires Valid()
      modifies this
      ensures Valid()
      ensures (FieldTable(), r) == Populate(layout, old(FieldTable()), def, image, emitter)
    {
      var failure := InitializeClassFields(def.constants);
      if failure.Some? {
        r := Err(failure.value);
        return;
      }
      var placed := InitializeFields(image, emitter);
      if placed.Err? {
        r := Err(placed.error);
        return;
      }
      r := InitializeGettersAndSetters(placed.value, def.methods, emitter);
    }

    /** createInstance: validate the definition, find or build and cache its
        class, then call the constructor taking getConstructorParameters(). */
    method CreateInstance(def: Option<ClassDef>, params: seq<int>, cache: ImplCache, emitter: Emitter)
      returns (r: Result<Object, Error>)
      requires Valid()
      modifies this, cache
      ensures Valid()
      ensures Outcome(r, FieldTable(), cache.impls)
           == CreateOutcome(layout, old(FieldTable()), old(cache.impls), def, params, emitter)
    {
      if def.None? {
        r := Err(NullDefinition);
        return;
      }
      var classDef := def.value;
      if !classDef.isInterface {
        r := Err(NotAnInterface);
        return;
      }
      var impl: LoadedClass;
      if classDef in cache.impls {
        impl := cache.impls[classDef];
      } else {
        var newClassName := ClassName(classDef.packageName, layout, classDef.simpleName);
        if !emitter.known(classDef.name) {
          r := Err(CompilationFailed);
          return;
        }
        var ctClass := ClassImage(newClassName, [classDef.name], [], []);
        var built := InitializeClass(classDef, ctClass, emitter);
        if built.Err? {
          r := Err(built.error);
          return;
        }
        if !emitter.loads(built.value) {
          r := Err(CompilationFailed);
          return;
        }
        impl := LoadedClass(classDef, built.value);
        cache.impls := cache.impls[classDef := impl];
      }
      var ctorParams := ConstructorParameters(layout);
      if ctorParams !in Constructors(impl) || |params| != |ctorParams| {
        r := Err(InstantiationFailed);
        return;
      }
      r := Ok(Object(impl, params));
    }

    /** StructureFactory.create: no constructor arguments. */
    method Create(def: Option<ClassDef>, cache: ImplCache, emitter: Emitter) returns (r: Result<Object, Error>)
      requires layout.Structure? && Valid()
      modifies this, cache
      ensures Valid()
      ensures Outcome(r, FieldTable(), cache.impls)
           == CreateOutcome(layout, old(FieldTable()), old(cache.impls), def, [], emitter)
    {
      r := CreateInstance(def, [], cache, emitter);
    }

    /** ArrayFactory.create: the size is the one constructor argument. */
    method CreateArray(def: Option<ClassDef>, size: Int32, cache: ImplCache, emitter: Emitter) returns (r: Result<Object, Error>)
      requires layout.Array? && Valid()
      modifies this, cache
      ensures Valid()
      ensures Outcome(r, FieldTable(), cache.impls)
           == CreateOutcome(layout, old(FieldTable()), old(cache.impls), def, [size], emitter)
    {
      r := CreateInstance(def, [size], cache, emitter);
    }

    /** A run of addBodyLine calls. */
    method AddLines(mb: MethodBuilder, lines: seq<string>)
      modifies mb
      ensures mb.body == old(mb.body) + Indent(lines)
      ensures mb.modifiers == old(mb.modifiers) && mb.returnType == old(mb.returnType) && mb.arguments == old(mb.arguments)
    {
      var j := 0;
      while j < |lines|
        invariant 0 <= j <= |lines|
        invariant mb.body == old(mb.body) + Indent(lines[..j])
        invariant mb.modifiers == old(mb.modifiers) && mb.returnType == old(mb.returnType) && mb.arguments == old(mb.arguments)
      {
        assert lines[..j + 1] == lines[..j] + [lines[j]];
        IndentAppend(lines[..j], [lines[j]]);
        mb.AddBodyLine(lines[j]);
        j := j + 1;
      }
      assert lines[..j] == lines;
    }

    /** The lines for the i-th key: the primitive or the reference lines of
        `f`, filled with the field's name. */
    method AddBlock(mb: MethodBuilder, f: Format, i: nat)
      requires Valid() && i < |keys|
      modifies mb
      ensures mb.body == old(mb.body) + Indent(Block(f, Infos(FieldTable())[i]))
      ensures mb.modifiers == old(mb.modifiers) && mb.returnType == old(mb.returnType) && mb.arguments == old(mb.arguments)
    {
      var fieldName := keys[i];
      if fieldsType[fieldName].isPrimitive {
        AddLines(mb, FillAll(f.primitive, fieldName));
      } else {
        AddLines(mb, FillAll(f.reference, fieldName));
      }
    }

    /** The loop over keySet() shared by equals, hashCode and toString. */
    method AddBlocks(mb: MethodBuilder, f: Format)
      requires Valid()
      modifies mb
      ensures mb.body == old(mb.body) + Indent(Blocks(f, Infos(FieldTable())))
      ensures mb.modifiers == old(mb.modifiers) && mb.returnType == old(mb.returnType) && mb.arguments == old(mb.arguments)
    {
      ghost var es := Infos(FieldTable());
      assert es[..0] == [];
      var i := 0;
      while i < |keys|
        invariant 0 <= i <= |keys|
        invariant mb.body == old(mb.body) + Indent(Blocks(f, es[..i]))
        invariant mb.modifiers == old(mb.modifiers) && mb.returnType == old(mb.returnType) && mb.arguments == old(mb.arguments)
      {
        NextBlock(f, es, i, old(mb.body), mb.body);
        AddBlock(mb, f, i);
        i := i + 1;
      }
      assert es[..i] == es;
    }

    /** The whole body: the header lines, the blocks, the footer. */
    method AddBody(mb: MethodBuilder, f: Format, className: string)
      requires Valid()
      modifies mb
      ensures mb.body == old(mb.body) + Indent(Body(f, className, Infos(FieldTable())))
      ensures mb.modifiers == old(mb.modifiers) && mb.returnType == old(mb.returnType) && mb.arguments == old(mb.arguments)
    {
      var head := FillAll(f.header, className);
      AddLines(mb, head);
      AddBlocks(mb, f);
      AddLines(mb, f.footer);
      ghost var blocks := Blocks(f, Infos(FieldTable()));
      IndentAppend(head, blocks);
      IndentAppend(head + blocks, f.footer);
    }

    /** initializeEquals: `public boolean equals(Object obj)`. */
    method InitializeEquals(className: string) returns (mb: MethodBuilder)
      requires Valid()
      ensures fresh(mb)
      ensures mb.Spec() == EqualsMethod(className, Infos(FieldTable()))
    {
      mb := new MethodBuilder("equals");
      mb.AddModifier("public");
      mb.AddArgument(ObjectClass, "obj");
      mb.SetReturnType(BooleanClass);
      AddBody(mb, EqualsFormat, className);
    }

    /** initializeHashCode: `public int hashCode()`. */
    method InitializeHashCode(className: string) returns (mb: MethodBuilder)
      requires Valid()
      ensures fresh(mb)
      ensures mb.Spec() == HashCodeMethod(className, Infos(FieldTable()))
    {
      mb := new MethodBuilder("hashCode");
      mb.AddModifier("public");
      mb.SetReturnType(IntClass);
      AddBody(mb, HashCodeFormat, className);
    }

    /** initializeToString: `public java.lang.String toString()`. */
    method InitializeToString(className: string) returns (mb: MethodBuilder)
      requires Valid()
      ensures fresh(mb)
      ensures mb.Spec() == ToStringMethod(className, Infos(FieldTable()))
    {
      mb := new MethodBuilder("toString");
      mb.AddModifier("public");
      mb.SetReturnType(StringClass);
      AddBody(mb, ToStringFormat, className);
    }
  }
}
