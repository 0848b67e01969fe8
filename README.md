# FlatStruct factories in Dafny

FlatStruct turns a *definition* into a generated Java class. A definition is an interface whose
`@Field` constants declare the stored fields and whose `@Getter`/`@Setter` annotations declare the
accessors. Two factories share one engine:

- `StructureFactory` lays out one field per declared field.
- `ArrayFactory` lays out one array per distinct field type.

This project models that engine and proves what it promises:

- the field loop of `initializeClass`, with its validations;
- `verifyFieldType`, the accessor loop of `initializeGettersAndSetters` and the getter and setter rules;
- both field layouts;
- the `equals`, `hashCode` and `toString` bodies both factories synthesize, and what those bodies
  compute;
- `MethodBuilder`;
- the class cache and the instantiation in `createInstance`.

Modules:

- `Base`: options and results, `JClass` (a class name and whether it is primitive), the
  `Modifier` bits, string joining and splitting, decimal text and Java 32-bit `int` wrap-around.
- `Directives`: what reflection reads off a definition (constants, methods, parameters, annotations),
  as plain values.
- `Builder`: the `MethodBuilder` class and the text `buildMethod` renders.
- `Schema`: the field table (`fieldsType`, `fieldsModifiers` and the names in insertion order) and the field
  loop (`ExtractFields`), with `verifyFieldType`, `getFieldName`, `getFieldType` and the modifier bits.
- `Layouts`: class names, constructor parameters, the Structure slots and the Array counters
  (`Tally`, `Order`) and arrays.
- `Templates`: line templates with a slot for the class or field name, and a decoder that reads a
  generated body back to the class name and the field list.
- `Synthesis`: the getter and setter rules and the equals, hashCode and toString generators, defined
  once because the two factories emit identical text.
- `Accessors`: the accessor protocol, method by method, as functions.
- `Semantics`: what the synthesized equals, hashCode and toString bodies compute over field values.
- `Factories`: the emitter boundary, `initializeClass` and `createInstance` as functions, and the
  class `Factory`. It holds `fieldsType`, `fieldsModifiers` and `keys` as fields and carries the
  imperative methods, each proved equal to the functional model. The class `ImplCache` is the
  static class cache.

One `Factory` class with a `layout` constant stands for the abstract `Factory` and its two
subclasses. The emitter (Javassist's class pool, `CtClass`, `toClass`) is a value of type `Emitter`:

- `known` says whether the pool knows a class;
- `compiles` says whether a method source compiles in the class built so far;
- `loads` says whether the finished class loads.

Every Javassist or reflection exception becomes an `Error` value.

Observations that follow from the code as written:

- `ArrayFactory` asks for an `(int)` constructor, and no factory adds one to the generated class.
  `getDeclaredConstructor` therefore always fails, and `ArrayFactory.create` never returns an
  instance (`Factories.ArrayNeverInstantiates`). This reading of the code, which was not executed,
  conflicts with the project's own test `src/test/java/org/flatstruct/example/array/Point2DArrayTest.java`
  (lines 29-32), which expects `create(Point2DArray.class, 10)` to return a non-null instance. The
  array sizes come from the per-type field
  counts, and the `size` argument is passed to that missing constructor. The design says the size
  sizes the arrays; the model follows the code.
- The class cache is static and keyed by the definition alone. The Structure factory hands out the
  class the Array factory built for the same definition (`Factories.CacheSharedAcrossLayouts`).
- A factory's field tables are never cleared. A later definition that reuses a field name of an
  earlier one fails with a duplicate-name error (`Schema.ReusedNameFails`).
- The Array layout names its fields `_<type>_array`. The accessor, equals, hashCode and toString
  bodies refer to the declared field names. No array field carries such a name unless the declared
  name itself has the form `_<type>_array`. For example, a single `int` field declared as
  `_int_array` does resolve. Every name that does not start with `_` misses
  (`Layouts.ArraySlotsMissAccessorNames`).
- Nothing in the source calls `initializeEquals`, `initializeHashCode` or `initializeToString`.
  `initializeClass` installs only the fields and the accessors, so a generated class keeps
  `java.lang.Object`'s identity `equals`, `hashCode` and `toString`. The model keeps these three
  synthesizers as methods that nothing calls. `Semantics` describes what the bodies they build
  would compute if they were installed.
- The toString body has `this.x == null ? 'null' : ...` inside a branch that `this.x != null`
  already guards. The `'null'` literal is never evaluated, and the model prints `<hash>` there.

## Model

| member | source | states |
|---|---|---|
| Base.Wrap32 | src/main/java/org/flatstruct/StructureFactory.java:118-128 | the 32-bit int result differs from the exact value by a multiple of 2^32 and equals it when it is in range |
| Base.DecimalRoundTrip | src/main/java/org/flatstruct/ArrayFactory.java:58 | the `%d` text of a count parses back to the count |
| Base.SplitJoin | src/main/java/org/flatstruct/MethodBuilder.java:76 | splitting lines joined by a separator they do not contain gives back the lines |
| Builder.MethodBuilder.constructor | src/main/java/org/flatstruct/MethodBuilder.java:31-43 | a new builder has no modifiers, return type `void`, the given name, no arguments and no body |
| Builder.MethodBuilder.AddModifier | src/main/java/org/flatstruct/MethodBuilder.java:45-47 | appends the modifier; nothing else changes |
| Builder.MethodBuilder.SetReturnType | src/main/java/org/flatstruct/MethodBuilder.java:49-51 | the return type becomes the class's name; nothing else changes |
| Builder.MethodBuilder.AddArgument | src/main/java/org/flatstruct/MethodBuilder.java:53-55 | appends `"<type> <name>"`; nothing else changes |
| Builder.MethodBuilder.AddParameter | src/main/java/org/flatstruct/MethodBuilder.java:57-59 | appends the parameter's type and name as one argument; nothing else changes |
| Builder.MethodBuilder.AddBodyLine | src/main/java/org/flatstruct/MethodBuilder.java:61-64 | appends the line indented by four spaces; nothing else changes |
| Builder.MethodBuilder.BuildMethod | src/main/java/org/flatstruct/MethodBuilder.java:66-79 | the text is the header (modifiers, return type, name, arguments), then the body lines joined by newlines, then `\n}` |
| Builder.RenderBodyRoundTrip | src/main/java/org/flatstruct/MethodBuilder.java:66-79 | the rendered text starts with the header, ends with `\n}`, and the stretch between splits at newlines into exactly the body lines |
| Schema.VerifyFieldType | src/main/java/org/flatstruct/Factory.java:80-90 | passes iff the field exists with exactly the expected type; a missing field and a wrong type give their errors; the table is not changed |
| Schema.GetFieldName | src/main/java/org/flatstruct/Factory.java:136-149 | a null name and a name already in the table are rejected; otherwise the value is the name |
| Schema.GetFieldType | src/main/java/org/flatstruct/Factory.java:151-157 | a null type is rejected; otherwise it is the annotation's type |
| Schema.FieldModifiers | src/main/java/org/flatstruct/Factory.java:182-184 | PRIVATE is always set, VOLATILE iff the annotation asks for it, and no other bit |
| Schema.AddField | src/main/java/org/flatstruct/Factory.java:170-185 | a constant without @Field is skipped; checks non-String, null name, duplicate name and null type in that order; on success puts exactly that name, type and modifiers |
| Schema.AddFieldKeeps | src/main/java/org/flatstruct/Factory.java:176-184 | an accepted constant never overwrites an entry already in the table |
| Schema.ExtractKeepsValid | src/main/java/org/flatstruct/Factory.java:169-186 | the field loop leaves every name listed once with a type and modifiers |
| Schema.ExtractKeepsEntries | src/main/java/org/flatstruct/Factory.java:169-186 | entries present before the loop keep their type and modifiers, whether or not the loop fails |
| Schema.ExtractedNames | src/main/java/org/flatstruct/Factory.java:169-186 | after a successful loop the names are the old ones plus exactly the declared ones |
| Schema.ExtractSucceeds | src/main/java/org/flatstruct/Factory.java:169-186 | the loop succeeds when every @Field constant is well declared and the names are new and distinct |
| Schema.ExtractSuccessAcceptable | src/main/java/org/flatstruct/Factory.java:169-186 | conversely, a successful loop means every @Field constant was well declared with a new, distinct name |
| Schema.ExtractFieldsCorrect | src/main/java/org/flatstruct/Factory.java:169-186 | the loop succeeds iff the constants are acceptable, and then adds exactly the declared names |
| Schema.ExtractFieldsStops | src/main/java/org/flatstruct/Factory.java:169-186 | a failing loop failed on one constant after all earlier ones passed, keeping the table they built |
| Schema.FailureSticks | src/main/java/org/flatstruct/Factory.java:169-186 | once the loop has failed, later constants are not looked at |
| Schema.ExtractedEntries | src/main/java/org/flatstruct/Factory.java:176-184 | every @Field constant ends up mapped to its declared type and its modifiers |
| Schema.ReusedNameFails | src/main/java/org/flatstruct/Factory.java:142-144 | the table is never cleared: a second definition whose first @Field reuses a name fails with DuplicateFieldName |
| Schema.Infos | src/main/java/org/flatstruct/StructureFactory.java:95-96 | the synthesizers see every field once, in keySet() order, with whether its type is primitive |
| Layouts.ClassName | src/main/java/org/flatstruct/Factory.java:72-75 | the name is exactly `<package>.<factory name>_of_<simple name>`: the package prefix, the factory name in the middle, the suffix |
| Layouts.ClassNameDeterminesLayout | src/main/java/org/flatstruct/Factory.java:72-75 | the two factories name their classes for one definition differently |
| Layouts.ConstructorParameters | src/main/java/org/flatstruct/Factory.java:192-194 | no parameters (the empty array) for the Structure factory; exactly one `int` for the Array factory (ArrayFactory.java lines 178-180) |
| Layouts.StructureSlotsCorrect | src/main/java/org/flatstruct/StructureFactory.java:50-61 | exactly one field per entry, with its name, type and modifiers and no initializer |
| Layouts.Values | src/main/java/org/flatstruct/ArrayFactory.java:64 | the values of fieldsType in keySet() order |
| Layouts.TallyCounts | src/main/java/org/flatstruct/ArrayFactory.java:63-71 | a type has a counter iff it occurs, and the counter holds its number of occurrences |
| Layouts.OrderDistinct | src/main/java/org/flatstruct/ArrayFactory.java:72 | the counters' keys are enumerated once each, exactly the types that occur |
| Layouts.TallySum | src/main/java/org/flatstruct/ArrayFactory.java:63-71 | the counters add up to the number of fields |
| Layouts.ArrayFieldInitReadsBack | src/main/java/org/flatstruct/ArrayFactory.java:51-59 | the array field's initializer is `new <type>[<count>]`, and its count reads back |
| Layouts.ArraySlotsCorrect | src/main/java/org/flatstruct/ArrayFactory.java:61-75 | one `_<type>_array` per distinct type, sized by that type's field count; the sizes sum to the number of fields |
| Layouts.ArraySlotsMissAccessorNames | src/main/java/org/flatstruct/ArrayFactory.java:78-94 | no array field carries a declared field name that does not start with `_`; such names, used by the accessor bodies, refer to no field |
| Templates.UnfillFill | src/main/java/org/flatstruct/MethodBuilder.java:61-63 | a line formatted from a template with a slot reads back to the value put in |
| Templates.DecodeBlocksComplete | src/main/java/org/flatstruct/StructureFactory.java:95-105 | the per-field blocks and the closing lines decode to the field list |
| Templates.DecodeBlocksSound | src/main/java/org/flatstruct/StructureFactory.java:95-105 | whatever decodes is exactly the blocks of the decoded fields and the closing lines |
| Templates.DecodeBody | src/main/java/org/flatstruct/StructureFactory.java:90-106 | a generated body decodes to its class name and its fields |
| Templates.DecodeSound | src/main/java/org/flatstruct/StructureFactory.java:90-106 | a body that decodes is the body generated from what it decodes to |
| Templates.OutdentIndent | src/main/java/org/flatstruct/MethodBuilder.java:61-64 | the four-space indent addBodyLine adds can be removed again |
| Synthesis.WithGetter | src/main/java/org/flatstruct/StructureFactory.java:63-70 | adds `synchronized` iff asked, sets the return type, and appends one line that returns the named field; the Array getter (ArrayFactory.java lines 77-84) is the same |
| Synthesis.WithSetter | src/main/java/org/flatstruct/StructureFactory.java:72-80 | appends the parameter as an argument and one line assigning it to the named field, synchronized iff asked; the Array setter (ArrayFactory.java lines 86-94) is the same |
| Synthesis.SynchronizedSetterWraps | src/main/java/org/flatstruct/StructureFactory.java:74-77 | the synchronized setter line is the plain one inside `synchronized(this) { ... }` |
| Synthesis.EqualsFormatWellFormed | src/main/java/org/flatstruct/StructureFactory.java:96-103 | the primitive and the reference comparison blocks cannot be confused |
| Synthesis.HashCodeFormatWellFormed | src/main/java/org/flatstruct/StructureFactory.java:121-125 | the primitive and the reference hash lines cannot be confused |
| Synthesis.ToStringFormatWellFormed | src/main/java/org/flatstruct/StructureFactory.java:143-156 | the primitive and the reference print blocks cannot be confused |
| Synthesis.EqualsMethod | src/main/java/org/flatstruct/StructureFactory.java:83-109 | `public boolean equals(java.lang.Object obj)` opening with the null, identity and class checks and ending with `return true;` |
| Synthesis.HashCodeMethod | src/main/java/org/flatstruct/StructureFactory.java:112-131 | `public int hashCode()` starting from prime 31 and result 1, ending with `return result;` |
| Synthesis.ToStringMethod | src/main/java/org/flatstruct/StructureFactory.java:134-162 | `public java.lang.String toString()` opening with the StringBuilder and the class-name line, ending with `]` and the return |
| Synthesis.EqualsBodyRoundTrip | src/main/java/org/flatstruct/StructureFactory.java:83-109 | the equals body reads back to the class name and exactly the compared fields, in order and by kind; the Array equals (ArrayFactory.java lines 97-123) is the same text |
| Synthesis.HashCodeBodyRoundTrip | src/main/java/org/flatstruct/StructureFactory.java:112-131 | the hashCode body reads back to exactly the combined fields, in order and by kind; the Array hashCode (ArrayFactory.java lines 126-145) is the same text |
| Synthesis.ToStringBodyRoundTrip | src/main/java/org/flatstruct/StructureFactory.java:134-162 | the toString body reads back to the class name and exactly the printed fields, in order and by kind; the Array toString (ArrayFactory.java lines 148-176) is the same text |
| Accessors.Setters | src/main/java/org/flatstruct/Factory.java:106-108 | the @Setter parameters in order, with their annotations; empty iff no parameter is annotated |
| Accessors.ApplySetters | src/main/java/org/flatstruct/Factory.java:106-117 | the parameter loop succeeds iff every @Setter parameter's field exists with the parameter's type; name, modifiers and return type are untouched |
| Accessors.ApplySettersOutput | src/main/java/org/flatstruct/Factory.java:106-117 | on success one argument and one assignment line per @Setter parameter were appended, in order |
| Accessors.ApplySettersFirstError | src/main/java/org/flatstruct/Factory.java:106-117 | a failure reports the first parameter whose check fails |
| Accessors.ApplySettersSticks | src/main/java/org/flatstruct/Factory.java:106-117 | once a check has failed, later parameters are not looked at |
| Accessors.AccessorMethod | src/main/java/org/flatstruct/Factory.java:100-132 | one method: fails iff a check fails; emitted iff it has a getter or a setter parameter; the emitted method's modifiers, return type, arguments and body in full |
| Accessors.AccessorSpecs | src/main/java/org/flatstruct/Factory.java:100-133 | the method loop succeeds iff every method's checks pass |
| Accessors.EmittedIffAccessor | src/main/java/org/flatstruct/Factory.java:130-132 | every accessor's method is emitted and every emitted method is some accessor's |
| Accessors.AccessorEmitted | src/main/java/org/flatstruct/Factory.java:130-132 | an accessor's method is among the emitted ones |
| Accessors.EmittedAreAccessors | src/main/java/org/flatstruct/Factory.java:130-132 | each emitted method is some accessor's |
| Factories.Instantiate | src/main/java/org/flatstruct/Factory.java:231-236 | instantiation succeeds iff the layout's constructor parameters name an existing constructor, which holds only for the Structure factory with no arguments |
| Factories.EmitAccessorsSticks | src/main/java/org/flatstruct/Factory.java:98-134 | once a method has failed, later methods are not looked at |
| Factories.EmitAccessorsMatchesSpecs | src/main/java/org/flatstruct/Factory.java:98-134 | on success the class got one rendered method per accessor, in order |
| Factories.EmitAccessorsWhenAllCompile | src/main/java/org/flatstruct/Factory.java:98-134 | when every source compiles, emission succeeds iff every check passes |
| Factories.SpecializeKeepsValid | src/main/java/org/flatstruct/Factory.java:166-190 | specialization leaves a well-formed table |
| Factories.SpecializeRejects | src/main/java/org/flatstruct/Factory.java:169-186 | a non-String constant, a null or reused name or a null type always fails the specialization |
| Factories.PopulateSound | src/main/java/org/flatstruct/Factory.java:166-190 | a successful initializeClass validated every constant and accessor and added the layout's fields and one method per accessor |
| Factories.SpecializeSound | src/main/java/org/flatstruct/Factory.java:213-224 | a loaded class has the factory's class name, implements the definition, and has the layout's fields and the accessor methods |
| Factories.CreateOutcome | src/main/java/org/flatstruct/Factory.java:203-237 | null and non-interface definitions are rejected before the cache is touched; a hit changes neither table nor cache and instantiates the cached class; a miss leaves the table Specialize produced, and when the class loads the cache gains exactly `LoadedClass(def, image)` and the result instantiates it; the cache changes in no other way; an instance is of the cached class |
| Factories.SecondCreateHits | src/main/java/org/flatstruct/Factory.java:213-226 | once a definition is cached or its class loads, a second create finds it in the cache, specializes nothing, changes neither table nor cache and instantiates the class the first call stored |
| Factories.FailedSpecializationLeavesCache | src/main/java/org/flatstruct/Factory.java:213-228 | a failed specialization stores nothing and reports its error |
| Factories.ArrayNeverInstantiates | src/main/java/org/flatstruct/ArrayFactory.java:178-184 | the Array factory never returns an instance |
| Factories.CacheSharedAcrossLayouts | src/main/java/org/flatstruct/Factory.java:50 | after the Array factory loads a class, the Structure factory instantiates that Array class |
| Factories.CountStep | src/main/java/org/flatstruct/ArrayFactory.java:65-70 | one step of the counting loop creates the counter on first occurrence and increments it |
| Factories.CountedIffListedAll | src/main/java/org/flatstruct/ArrayFactory.java:72-73 | every enumerated type has a counter |
| Factories.Arrays | src/main/java/org/flatstruct/ArrayFactory.java:72-74 | one `<type>[]` field per enumerated type, in order |
| Factories.ImplCache.constructor | src/main/java/org/flatstruct/Factory.java:50 | the cache starts empty |
| Factories.Factory.constructor | src/main/java/org/flatstruct/Factory.java:40-58 | a new factory has the given layout and empty tables |
| Factories.Factory.InitializeClassFields | src/main/java/org/flatstruct/Factory.java:169-186 | the field loop leaves exactly the table and the error of ExtractFields |
| Factories.Factory.InitializeStructureFields | src/main/java/org/flatstruct/StructureFactory.java:50-61 | adds exactly the Structure slots, failing if a type is unknown to the pool |
| Factories.Factory.InitializeArrayFields | src/main/java/org/flatstruct/ArrayFactory.java:61-75 | adds exactly the Array slots, failing if an array type is unknown to the pool |
| Factories.Factory.CountTypes | src/main/java/org/flatstruct/ArrayFactory.java:63-71 | the counters and their order after the counting loop are Tally and Order of the values |
| Factories.Factory.Count | src/main/java/org/flatstruct/ArrayFactory.java:65-70 | one counter update: created at zero when missing, then incremented |
| Factories.Factory.AddArrays | src/main/java/org/flatstruct/ArrayFactory.java:72-74 | the second loop adds one array per counted type, in order |
| Factories.Factory.InitializeField | src/main/java/org/flatstruct/ArrayFactory.java:51-59 | adds the private `_<type>_array` field with `new <type>[<count>]`, or fails when `<type>[]` is unknown |
| Factories.Factory.InitializeFields | src/main/java/org/flatstruct/Factory.java:188 | dispatches to the layout's field placement |
| Factories.Factory.InitializeGetter | src/main/java/org/flatstruct/StructureFactory.java:63-70 | the builder's new state is the getter rule applied to its old state |
| Factories.Factory.InitializeSetter | src/main/java/org/flatstruct/StructureFactory.java:72-80 | the builder's new state is the setter rule applied to its old state |
| Factories.Factory.AddSetters | src/main/java/org/flatstruct/Factory.java:104-117 | the parameter loop's builder and error are ApplySetters'; `wasAnnotated` iff some parameter carries @Setter |
| Factories.Factory.BuildAccessor | src/main/java/org/flatstruct/Factory.java:101-130 | the builder and the emit decision for one method are AccessorMethod's |
| Factories.Factory.InitializeGettersAndSetters | src/main/java/org/flatstruct/Factory.java:98-134 | the class after the method loop, or its error, is EmitAccessors' |
| Factories.Factory.InitializeClass | src/main/java/org/flatstruct/Factory.java:166-190 | the new table and the class or error are Populate's; the table keeps what the field loop put even when a later step fails |
| Factories.Factory.CreateInstance | src/main/java/org/flatstruct/Factory.java:203-237 | the result, the table and the cache are CreateOutcome's |
| Factories.Factory.Create | src/main/java/org/flatstruct/StructureFactory.java:164-166 | createInstance with no constructor arguments |
| Factories.Factory.CreateArray | src/main/java/org/flatstruct/ArrayFactory.java:182-184 | createInstance with the size as the one argument |
| Factories.Factory.AddBlocks | src/main/java/org/flatstruct/StructureFactory.java:95-105 | the keySet loop appends each field's block, indented, in order |
| Factories.Factory.InitializeEquals | src/main/java/org/flatstruct/StructureFactory.java:83-109 | the builder's state is EqualsMethod of the class name and the fields |
| Factories.Factory.InitializeHashCode | src/main/java/org/flatstruct/StructureFactory.java:112-131 | the builder's state is HashCodeMethod of the fields |
| Factories.Factory.InitializeToString | src/main/java/org/flatstruct/StructureFactory.java:134-162 | the builder's state is ToStringMethod of the class name and the fields |
| Semantics.CompareFieldsAll | src/main/java/org/flatstruct/StructureFactory.java:95-106 | running the comparison blocks in order is true iff every field compares equal |
| Semantics.EqualsMeaning | src/main/java/org/flatstruct/StructureFactory.java:90-106 | equals is false for null, true for the same object, false for another class, else true iff every field compares equal, null-safely for references |
| Semantics.HashIsWrappedExact | src/main/java/org/flatstruct/StructureFactory.java:118-128 | the 32-bit hash is the exact `31 * result + c` recurrence wrapped to 32 bits |
| Semantics.EqualFieldsSameHash | src/main/java/org/flatstruct/StructureFactory.java:120-127 | fields that compare equal give the same hash |
| Semantics.EqualsImpliesSameHash | src/main/java/org/flatstruct/StructureFactory.java:83-131 | instances the generated equals calls equal have the same generated hash |
| Semantics.ToStringSplits | src/main/java/org/flatstruct/StructureFactory.java:140-159 | the printed text is the class header, one `name=value` line per field naming it once, in order, and the closing bracket |

## Left out

- Javassist (class pool, `CtClass`, `CtField`, `CtNewMethod.make`, `toClass`, `detach`) is not part of
  this model. Its three decisions are inputs (`Emitter.known`, `compiles`, `loads`), and a class is
  a value listing its name, interface, fields and method sources.
- Reflection and annotations are not read. A definition is a `ClassDef` value listing its constants,
  methods, parameters and annotations in the order reflection would return them.
- `HashMap` iteration order is not modelled. `keys` is insertion order, standing in for the order
  `fieldsType.keySet()` returns, and the classCount keys are enumerated in first-occurrence order.
  The proofs rely only on every key appearing once.
- Concurrency is left out: the static cache and the `synchronized` keyword in generated code are not
  modelled as locks. `synchronized` is only text.
- Exceptions are `Error` values without their messages. Javassist's `NotFoundException` and
  `CannotCompileException`, and the `RuntimeException` wrapped around them, are all `CompilationFailed`.
  A missing constructor is `InstantiationFailed`.
- `initializeConstructor` is a no-op in both factories and is never called, so it is not modelled.
  `getClassPool` and the pool constructors are part of the `Emitter`.
- `Semantics.Contribution`: the `(int)` cast of a primitive field is a parameter `toInt`, and a
  primitive's printed text is a parameter `primText`. Primitive fields hold integers, so floating
  point `!=` (NaN, -0.0) is not modelled.
- The reference fields' own `equals` and `hashCode` are parameters. `Semantics.EqualsImpliesSameHash`
  assumes they keep java.lang.Object's contract.
- `String.format` is string concatenation of the already formatted pieces.
- `AsmFactory`, `AsmSamples` and the tests are not part of this model.
- `Factories.Factory.CreateArray`: the size is passed through as the constructor argument. The size
  never sizes the arrays, because the code never reaches a constructor that could use it.
