/** MethodBuilder: collects the modifiers, return type, name, arguments and
    body lines of one method and renders them as Java source text. */
module Builder {
  import opened Base
  import opened Directives

  /** The state of a MethodBuilder as a value. */
  datatype MethodSpec = MethodSpec(
    modifiers: seq<string>,
    returnType: string,
    name: string,
    arguments: seq<string>,
    body: seq<string>)

  /** The state of a new builder for method `name`. */
  function Fresh(name: string): MethodSpec
  {
    MethodSpec([], "void", name, [], [])
  }

  /** One argument as addArgument formats it: `"<type> <name>"`. */
  function Argument(argType: JClass, argName: string): string
  {
    argType.name + " " + argName
  }

  /** The body line addBodyLine stores for an already formatted line. */
  function Indented(line: string): string
  {
    "    " + line
  }

  /** Everything buildMethod emits before the body lines. */
  function Header(m: MethodSpec): string
  {
    Join(" ", m.modifiers) + " " + m.returnType + " " + m.name + "(" + Join(", ", m.arguments) + ") {\n"
  }

  /** The text buildMethod returns for a builder in state `m`. */
  function Render(m: MethodSpec): string
  {
    Header(m) + Join("\n", m.body) + "\n}"
  }

  /** The rendered text ends with the body lines joined by newlines and a
      closing brace on a line of its own; splitting that stretch at newlines
      gives back exactly the body lines, in order. */
  lemma RenderBodyRoundTrip(m: MethodSpec)
    requires |m.body| >= 1
    requires forall i | 0 <= i < |m.body| :: '\n' !in m.body[i]
    ensures var t := Render(m);
      |Header(m)| + 2 <= |t| && t[..|Header(m)|] == Header(m) && t[|t| - 2..] == "\n}"
      && Split(t[|Header(m)|..|t| - 2], '\n') == m.body
  {
    var t := Render(m);
    var b := Join("\n", m.body);
    assert t == Header(m) + b + "\n}";
    assert t[|Header(m)|..|t| - 2] == b;
    SplitJoin(m.body, '\n');
  }

  class MethodBuilder {
    var modifiers: seq<string>
    var returnType: string
    const name: string
    var arguments: seq<string>
    var body: seq<string>

    /** The builder's state as a value. */
    function Spec(): MethodSpec
      reads this
    {
      MethodSpec(modifiers, returnType, name, arguments, body)
    }

    constructor (name: string)
      ensures Spec() == Fresh(name)
    {
      this.name := name;
      modifiers := [];
      returnType := "void";
      arguments := [];
      body := [];
    }

    method AddModifier(modifier: string)
      modifies this
      ensures modifiers == old(modifiers) + [modifier]
      ensures returnType == old(returnType) && arguments == old(arguments) && body == old(body)
    {
      modifiers := modifiers + [modifier];
    }

    method SetReturnType(returnType: JClass)
      modifies this
      ensures this.returnType == returnType.name
      ensures modifiers == old(modifiers) && arguments == old(arguments) && body == old(body)
    {
      this.returnType := returnType.name;
    }

    method AddArgument(argType: JClass, argName: string)
      modifies this
      ensures arguments == old(arguments) + [Argument(argType, argName)]
      ensures modifiers == old(modifiers) && returnType == old(returnType) && body == old(body)
    {
      arguments := arguments + [argType.name + " " + argName];
    }

    /** The java.lang.reflect.Parameter overload: the parameter's type and name. */
    method AddParameter(parameter: Parameter)
      modifies this
      ensures arguments == old(arguments) + [Argument(parameter.paramType, parameter.name)]
      ensures modifiers == old(modifiers) && returnType == old(returnType) && body == old(body)
    {
      AddArgument(parameter.paramType, parameter.name);
    }

    /** Appends one body line; `line` is the already formatted text. */
    method AddBodyLine(line: string)
      modifies this
      ensures body == old(body) + [Indented(line)]
      ensures modifiers == old(modifiers) && returnType == old(returnType) && arguments == old(arguments)
    {
      body := body + ["    " + line];
    }

    function BuildMethod(): (text: string)
      reads this
      ensures |Header(Spec())| + 2 <= |text|
      ensures text[..|Header(Spec())|] == Header(Spec())
      ensures text[|Header(Spec())|..|text| - 2] == Join("\n", body)
      ensures text[|text| - 2..] == "\n}"
    {
      Render(Spec())
    }
  }
}
