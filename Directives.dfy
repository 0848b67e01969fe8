/** The declarative schema that reflection reads off a definition interface:
    its public constants with their @Field annotation, and its methods with
    their @Getter annotation and their parameters' @Setter annotations. The
    engine receives these as explicit values instead of inspecting a live class. */
module Directives {
  import opened Base

  /** A @Getter or @Setter annotation: `value()` names the field,
      `isSynchronized()` asks for a synchronized access. */
  datatype Accessor = Accessor(fieldName: string, isSynchronized: bool)

  /** A @Field annotation: `value()` is the field's type (null when absent)
      and `isVolatile()` asks for a volatile field. */
  datatype FieldMeta = FieldMeta(fieldType: Option<JClass>, isVolatile: bool)

  /** A public constant of the definition: its declared type
      (`getGenericType()`), its value (`get(null)`, None for null) and its
      @Field annotation, if any. */
  datatype Constant = Constant(declaredType: JClass, value: Option<string>, meta: Option<FieldMeta>)

  /** A java.lang.reflect.Parameter with its @Setter annotation, if any. */
  datatype Parameter = Parameter(name: string, paramType: JClass, setter: Option<Accessor>)

  /** A method of the definition with its @Getter annotation, if any. */
  datatype Method = Method(name: string, returnType: JClass, parameters: seq<Parameter>, getter: Option<Accessor>)

  /** A definition class: `getPackage().getName()`, `getSimpleName()`,
      `getName()`, `isInterface()`, `getFields()` and `getMethods()`. */
  datatype ClassDef = ClassDef(
    packageName: string,
    simpleName: string,
    name: string,
    isInterface: bool,
    constants: seq<Constant>,
    methods: seq<Method>)
}
