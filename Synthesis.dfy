/** The method synthesizers of both layouts: the getter and setter rules that
    extend an accessor method's builder, and the equals, hashCode and toString
    methods generated from the field table. The two layouts emit the same text
    for all five, so each is defined once here. */
module Synthesis {
  import opened Base
  import opened Directives
  import opened Builder
  import opened Templates

  /** The formatted getter line, before addBodyLine indents it. */
  function GetterLine(fieldName: string): string
  {
    "return this." + fieldName + ";"
  }

  /** The formatted setter line: the assignment, wrapped in a synchronized
      block when the annotation asks for it. */
  function SetterLine(fieldName: string, paramName: string, isSynchronized: bool): string
  {
    if isSynchronized then "synchronized(this) { this." + fieldName + " = " + paramName + "; }"
    else "this." + fieldName + " = " + paramName + ";"
  }

  /** The builder state after the getter rule: `synchronized` is added iff the
      annotation asks for it, the return type becomes the method's, and
      exactly one body line, the return of the named field, is appended. */
  function WithGetter(m: MethodSpec, getter: Accessor, returnType: JClass): (r: MethodSpec)
    ensures r.name == m.name && r.arguments == m.arguments && r.returnType == returnType.name
    ensures |r.modifiers| == |m.modifiers| + (if getter.isSynchronized then 1 else 0)
    ensures r.modifiers[..|m.modifiers|] == m.modifiers
    ensures getter.isSynchronized ==> r.modifiers[|m.modifiers|] == "synchronized"
    ensures |r.body| == |m.body| + 1 && r.body[..|m.body|] == m.body
    ensures Unfill(One("    return this.", ";"), r.body[|m.body|]) == Some(getter.fieldName)
  {
    var line := "    " + GetterLine(getter.fieldName);
    assert line == Fill(One("    return this.", ";"), getter.fieldName);
    UnfillFill(One("    return this.", ";"), getter.fieldName);
    MethodSpec(
      m.modifiers + (if getter.isSynchronized then ["synchronized"] else []),
      returnType.name,
      m.name,
      m.arguments,
      m.body + [line])
  }

  /** The builder state after the setter rule for one parameter: the
      parameter is appended as an argument and exactly one body line assigns
      it to the named field; nothing else changes. */
  function WithSetter(m: MethodSpec, setter: Accessor, param: Parameter): (r: MethodSpec)
    ensures r.name == m.name && r.modifiers == m.modifiers && r.returnType == m.returnType
    ensures r.arguments == m.arguments + [Argument(param.paramType, param.name)]
    ensures |r.body| == |m.body| + 1 && r.body[..|m.body|] == m.body
    ensures r.body[|m.body|] == Indented(SetterLine(setter.fieldName, param.name, setter.isSynchronized))
  {
    m.(arguments := m.arguments + [param.paramType.name + " " + param.name],
       body := m.body + ["    " + SetterLine(setter.fieldName, param.name, setter.isSynchronized)])
  }

  /** A synchronized setter line is the plain one inside `synchronized(this) { ... }`. */
  lemma SynchronizedSetterWraps(fieldName: string, paramName: string)
    ensures SetterLine(fieldName, paramName, true)
         == "synchronized(this) { " + SetterLine(fieldName, paramName, false) + " }"
  {
  }

  const EqualsFormat := Format(
    [ Fixed("if (null == obj) return false;"),
      Fixed("if (this == obj) return true;"),
      Fixed("if (getClass() != obj.getClass()) return false;"),
      Two("", " struct = (", ") obj;") ],
    [ Two("if (this.", " != struct.", ") return false;") ],
    [ One("if (this.", " != null) {"),
      Two("    if (!this.", ".equals(struct.", ")) return false;"),
      Fixed("} else {"),
      One("    if (struct.", " != null) return false;"),
      Fixed("}") ],
    [ "return true;" ])

  const HashCodeFormat := Format(
    [ Fixed("final int prime = 31;"),
      Fixed("int result = 1;") ],
    [ One("result = prime * result + (int) this.", ";") ],
    [ Two("result = prime * result + ((this.", " == null) ? 0 : this.", ".hashCode());") ],
    [ "return result;" ])

  const ToStringFormat := Format(
    [ Fixed("final StringBuilder sb = new StringBuilder();"),
      One("sb.append(\"", " [\\n\");") ],
    [ One("sb.append(\"    ", "=\");"),
      One("sb.append(this.", ");"),
      Fixed("sb.append(\"\\n\");") ],
    [ One("sb.append(\"    ", "=\");"),
      One("if (this.", " != null) {"),
      Fixed("    sb.append(\"<\");"),
      Two("    sb.append(this.", " == null ? 'null' : ((Object) this.", ").hashCode());"),
      Fixed("    sb.append(\">\");"),
      Fixed("} else {"),
      Fixed("    sb.append(\"null\");"),
      Fixed("}"),
      Fixed("sb.append(\"\\n\");") ],
    [ "sb.append(\"]\");",
      "return sb.toString();" ])

  /** The three bodies can be read back: each block shape starts with a slot
      line and the primitive and reference shapes cannot be confused (the
      equals shapes differ in the end of their first line, the hashCode
      shapes in the character after `this.`'s prefix, the toString shapes in
      their second line). */
  lemma EqualsFormatWellFormed()
    ensures WellFormed(EqualsFormat)
  {
    var f := EqualsFormat;
    assert Trail(f.primitive[0])[14] == ';' && Trail(f.reference[0])[10] == '{';
    assert Apart(f.primitive[0], f.reference[0]);
  }

  lemma HashCodeFormatWellFormed()
    ensures WellFormed(HashCodeFormat)
  {
    var f := HashCodeFormat;
    assert Lead(f.primitive[0])[27] == 'i' && Lead(f.reference[0])[27] == '(';
    assert Apart(f.primitive[0], f.reference[0]);
  }

  lemma ToStringFormatWellFormed()
    ensures WellFormed(ToStringFormat)
  {
    var f := ToStringFormat;
    assert Lead(f.primitive[1])[0] == 's' && Lead(f.reference[1])[0] == 'i';
    assert Apart(f.primitive[1], f.reference[1]);
  }

  /** The equals method generated for class `className` over fields `es`. */
  function EqualsMethod(className: string, es: seq<FieldInfo>): (r: MethodSpec)
    ensures r.name == "equals" && r.returnType == "boolean" && r.modifiers == ["public"]
    ensures r.arguments == [Argument(ObjectClass, "obj")]
    ensures |r.body| >= 5
    ensures r.body[0] == Indented("if (null == obj) return false;")
    ensures r.body[1] == Indented("if (this == obj) return true;")
    ensures r.body[2] == Indented("if (getClass() != obj.getClass()) return false;")
    ensures r.body[|r.body| - 1] == Indented("return true;")
  {
    var lines := Body(EqualsFormat, className, es);
    assert lines == FillAll(EqualsFormat.header, className) + (Blocks(EqualsFormat, es) + ["return true;"]);
    MethodSpec(["public"], BooleanClass.name, "equals", [Argument(ObjectClass, "obj")], Indent(lines))
  }

  /** The hashCode method generated over fields `es`. */
  function HashCodeMethod(className: string, es: seq<FieldInfo>): (r: MethodSpec)
    ensures r.name == "hashCode" && r.returnType == "int" && r.arguments == [] && r.modifiers == ["public"]
    ensures |r.body| >= 3
    ensures r.body[0] == Indented("final int prime = 31;")
    ensures r.body[1] == Indented("int result = 1;")
    ensures r.body[|r.body| - 1] == Indented("return result;")
  {
    var lines := Body(HashCodeFormat, className, es);
    assert lines == FillAll(HashCodeFormat.header, className) + (Blocks(HashCodeFormat, es) + ["return result;"]);
    MethodSpec(["public"], IntClass.name, "hashCode", [], Indent(lines))
  }

  /** The toString method generated for class `className` over fields `es`. */
  function ToStringMethod(className: string, es: seq<FieldInfo>): (r: MethodSpec)
    ensures r.name == "toString" && r.returnType == "java.lang.String" && r.arguments == [] && r.modifiers == ["public"]
    ensures |r.body| >= 4
    ensures r.body[0] == Indented("final StringBuilder sb = new StringBuilder();")
    ensures r.body[1] == Indented("sb.append(\"" + className + " [\\n\");")
    ensures r.body[|r.body| - 2] == Indented("sb.append(\"]\");")
    ensures r.body[|r.body| - 1] == Indented("return sb.toString();")
  {
    var lines := Body(ToStringFormat, className, es);
    assert lines == FillAll(ToStringFormat.header, className)
                    + (Blocks(ToStringFormat, es) + ["sb.append(\"]\");", "return sb.toString();"]);
    MethodSpec(["public"], StringClass.name, "toString", [], Indent(lines))
  }

  /** Reading the equals body back gives the class name and exactly the
      fields compared, in order: one comparison block per field, `!=` for a
      primitive and the null-safe `.equals` block for a reference. */
  lemma EqualsBodyRoundTrip(className: string, es: seq<FieldInfo>)
    ensures Outdent(EqualsMethod(className, es).body) == Some(Body(EqualsFormat, className, es))
    ensures Decode(EqualsFormat, Body(EqualsFormat, className, es)) == Some((className, es))
  {
    OutdentIndent(Body(EqualsFormat, className, es));
    EqualsFormatWellFormed();
    DecodeBody(EqualsFormat, className, es);
  }

  /** Reading the hashCode body back gives exactly the fields combined, in
      order, each with the contribution line of its kind. */
  lemma HashCodeBodyRoundTrip(className: string, es: seq<FieldInfo>)
    ensures Outdent(HashCodeMethod(className, es).body) == Some(Body(HashCodeFormat, className, es))
    ensures Decode(HashCodeFormat, Body(HashCodeFormat, className, es)) == Some(("", es))
  {
    OutdentIndent(Body(HashCodeFormat, className, es));
    HashCodeFormatWellFormed();
    DecodeBody(HashCodeFormat, className, es);
  }

  /** Reading the toString body back gives the class name and exactly the
      fields printed, in order: each field's name is printed by one block. */
  lemma ToStringBodyRoundTrip(className: string, es: seq<FieldInfo>)
    ensures Outdent(ToStringMethod(className, es).body) == Some(Body(ToStringFormat, className, es))
    ensures Decode(ToStringFormat, Body(ToStringFormat, className, es)) == Some((className, es))
  {
    OutdentIndent(Body(ToStringFormat, className, es));
    ToStringFormatWellFormed();
    DecodeBody(ToStringFormat, className, es);
  }
}
