/** The shape of the method bodies the synthesizers emit. Every body line they
    add is a format string whose `%s` slots are all filled with one text (the
    class name or a field name); a body is a run of header lines, one block of
    lines per field (one shape for primitive fields, another for reference
    fields) and a run of footer lines. This module also reads such a body back
    into the class name and the field list it was generated from, which is how
    the model states that the generated text is exact. */
module Templates {
  import opened Base

  /** One format-string line: no slot, one slot, or two slots filled with the
      same text. */
  datatype LineT =
    | Fixed(text: string)
    | One(lead: string, trail: string)
    | Two(lead: string, mid: string, trail: string)

  function Fill(t: LineT, x: string): string
  {
    match t
    case Fixed(s) => s
    case One(p, s) => p + x + s
    case Two(p, m, s) => p + x + m + x + s
  }

  function FillAll(ts: seq<LineT>, x: string): seq<string>
  {
    seq(|ts|, i requires 0 <= i < |ts| => Fill(ts[i], x))
  }

  /** Reads the slot text back out of a line of template `t`. */
  function Unfill(t: LineT, line: string): Option<string>
  {
    match t
    case Fixed(s) => if line == s then Some("") else None
    case One(p, s) =>
      if |p| + |s| <= |line| && line == p + line[|p|..|line| - |s|] + s
      then Some(line[|p|..|line| - |s|]) else None
    case Two(p, m, s) =>
      var n := |line| - |p| - |m| - |s|;
      if 0 <= n && n % 2 == 0 && Fill(t, line[|p|..|p| + n / 2]) == line
      then Some(line[|p|..|p| + n / 2]) else None
  }

  lemma UnfillFill(t: LineT, x: string)
    requires !t.Fixed?
    ensures Unfill(t, Fill(t, x)) == Some(x)
  {
    var line := Fill(t, x);
    match t
    case One(p, s) =>
      assert line[|p|..|line| - |s|] == x;
    case Two(p, m, s) =>
      assert |line| - |p| - |m| - |s| == 2 * |x|;
      assert line[|p|..|p| + |x|] == x;
  }

  /** The index of the first line of `ts` that has a slot, or |ts| if none has. */
  function FirstSlot(ts: seq<LineT>): (k: nat)
    ensures k <= |ts|
    ensures forall i | 0 <= i < k :: ts[i].Fixed?
    ensures k < |ts| ==> !ts[k].Fixed?
  {
    if |ts| == 0 then 0
    else if !ts[0].Fixed? then 0
    else 1 + FirstSlot(ts[1..])
  }

  /** Reads one block of template `ts` off the front of `lines`: the slot text,
      provided the first |ts| lines are exactly `ts` filled with it (the empty
      text when `ts` has no slot). */
  function Match(ts: seq<LineT>, lines: seq<string>): (r: Option<string>)
    ensures r.Some? ==> |ts| <= |lines| && lines[..|ts|] == FillAll(ts, r.value)
  {
    if |lines| < |ts| then None
    else
      var k := FirstSlot(ts);
      var x := if k < |ts| then Unfill(ts[k], lines[k]) else Some("");
      if x.Some? && lines[..|ts|] == FillAll(ts, x.value) then x else None
  }

  lemma MatchFill(ts: seq<LineT>, x: string, rest: seq<string>)
    ensures Match(ts, FillAll(ts, x) + rest) == Some(if FirstSlot(ts) < |ts| then x else "")
  {
    var filled := FillAll(ts, x);
    var lines := filled + rest;
    var k := FirstSlot(ts);
    assert lines[..|ts|] == filled;
    if k < |ts| {
      assert lines[k] == Fill(ts[k], x);
      UnfillFill(ts[k], x);
    } else {
      FillAllFixed(ts, x);
    }
  }

  /** A template without slots fills the same whatever the text. */
  lemma FillAllFixed(ts: seq<LineT>, x: string)
    requires forall i | 0 <= i < |ts| :: ts[i].Fixed?
    ensures FillAll(ts, x) == FillAll(ts, "")
  {
    var a, b := FillAll(ts, x), FillAll(ts, "");
    forall i | 0 <= i < |ts|
      ensures a[i] == b[i]
    {
      assert ts[i].Fixed?;
    }
  }

  /** The fixed text a filled line starts with, and the one it ends with. */
  function Lead(t: LineT): string
  {
    match t
    case Fixed(s) => s
    case One(p, _) => p
    case Two(p, _, _) => p
  }

  function Trail(t: LineT): string
  {
    match t
    case Fixed(s) => s
    case One(_, s) => s
    case Two(_, _, s) => s
  }

  predicate IsPrefix(u: string, v: string)
  {
    |u| <= |v| && v[..|u|] == u
  }

  predicate IsSuffix(u: string, v: string)
  {
    |u| <= |v| && v[|v| - |u|..] == u
  }

  /** Two templates whose fixed starts, or whose fixed ends, disagree: no
      filling of one is a filling of the other. */
  predicate Apart(a: LineT, b: LineT)
  {
    || (!IsPrefix(Lead(a), Lead(b)) && !IsPrefix(Lead(b), Lead(a)))
    || (!IsSuffix(Trail(a), Trail(b)) && !IsSuffix(Trail(b), Trail(a)))
  }

  lemma FillFrame(t: LineT, x: string)
    ensures IsPrefix(Lead(t), Fill(t, x)) && IsSuffix(Trail(t), Fill(t, x))
  {
  }

  lemma ApartFillsDiffer(a: LineT, b: LineT, x: string, y: string)
    requires Apart(a, b)
    ensures Fill(a, x) != Fill(b, y)
  {
    FillFrame(a, x);
    FillFrame(b, y);
  }

  /** A field as the synthesizers see it: its name and whether its type is
      primitive. */
  datatype FieldInfo = FieldInfo(name: string, isPrimitive: bool)

  /** The layout of one generated method body. */
  datatype Format = Format(
    header: seq<LineT>,
    primitive: seq<LineT>,
    reference: seq<LineT>,
    footer: seq<string>)

  /** Both block shapes start with a slot line, and some line of the one is
      apart from the same line of the other. */
  predicate WellFormed(f: Format)
  {
    && |f.primitive| > 0 && !f.primitive[0].Fixed?
    && |f.reference| > 0 && !f.reference[0].Fixed?
    && Distinguishable(f)
  }

  predicate Distinguishable(f: Format)
  {
    exists j :: 0 <= j < |f.primitive| && j < |f.reference| && Apart(f.primitive[j], f.reference[j])
  }

  /** The block template used for field `e`. */
  function Shape(f: Format, e: FieldInfo): seq<LineT>
  {
    if e.isPrimitive then f.primitive else f.reference
  }

  function Block(f: Format, e: FieldInfo): seq<string>
  {
    FillAll(Shape(f, e), e.name)
  }

  /** The blocks of the fields, in order. */
  function Blocks(f: Format, es: seq<FieldInfo>): seq<string>
  {
    if |es| == 0 then [] else Blocks(f, es[..|es| - 1]) + Block(f, es[|es| - 1])
  }

  /** The body lines generated for class `className` and fields `es`. */
  function Body(f: Format, className: string, es: seq<FieldInfo>): seq<string>
  {
    FillAll(f.header, className) + Blocks(f, es) + f.footer
  }

  lemma {:induction false} BlocksCons(f: Format, e: FieldInfo, es: seq<FieldInfo>)
    ensures Blocks(f, [e] + es) == Block(f, e) + Blocks(f, es)
    decreases |es|
  {
    if |es| == 0 {
      assert ([e] + es)[..0] == [];
    } else {
      var all := [e] + es;
      assert all[..|all| - 1] == [e] + es[..|es| - 1];
      BlocksCons(f, e, es[..|es| - 1]);
    }
  }

  /** Reads one field block off the front of `lines`: a primitive block if
      one matches, else a reference block. */
  function ReadBlock(f: Format, lines: seq<string>): (r: Option<FieldInfo>)
    ensures r.Some? ==> |Shape(f, r.value)| <= |lines| && lines[..|Shape(f, r.value)|] == Block(f, r.value)
  {
    match Match(f.primitive, lines)
    case Some(x) => Some(FieldInfo(x, true))
    case None =>
      match Match(f.reference, lines)
      case Some(x) => Some(FieldInfo(x, false))
      case None => None
  }

  /** Reads the field blocks and the footer. */
  function DecodeBlocks(f: Format, lines: seq<string>): Option<seq<FieldInfo>>
    requires |f.primitive| > 0 && |f.reference| > 0
    decreases |lines|
  {
    if lines == f.footer then Some([])
    else
      match ReadBlock(f, lines)
      case None => None
      case Some(e) =>
        match DecodeBlocks(f, lines[|Shape(f, e)|..])
        case None => None
        case Some(rest) => Some([e] + rest)
  }

  /** Reads a whole body: the text in the header's slot (empty when the
      header has none) and the fields. */
  function Decode(f: Format, lines: seq<string>): Option<(string, seq<FieldInfo>)>
    requires |f.primitive| > 0 && |f.reference| > 0
  {
    match Match(f.header, lines)
    case None => None
    case Some(cn) =>
      match DecodeBlocks(f, lines[|f.header|..])
      case None => None
      case Some(es) => Some((cn, es))
  }

  /** A reference block is never read as a primitive one. */
  lemma ReferenceIsNotPrimitive(f: Format, x: string, rest: seq<string>)
    requires WellFormed(f)
    ensures Match(f.primitive, FillAll(f.reference, x) + rest) == None
  {
    var filled := FillAll(f.reference, x);
    var lines := filled + rest;
    var j :| 0 <= j < |f.primitive| && j < |f.reference| && Apart(f.primitive[j], f.reference[j]);
    var m := Match(f.primitive, lines);
    if m.Some? {
      var front := FillAll(f.primitive, m.value);
      assert lines[..|f.primitive|] == front;
      assert lines[j] == front[j] == Fill(f.primitive[j], m.value);
      assert lines[j] == filled[j] == Fill(f.reference[j], x);
      ApartFillsDiffer(f.primitive[j], f.reference[j], m.value, x);
    }
  }

  /** A generated block is read back as its own field. */
  lemma ReadBlockFill(f: Format, e: FieldInfo, rest: seq<string>)
    requires WellFormed(f)
    ensures ReadBlock(f, Block(f, e) + rest) == Some(e)
  {
    assert FirstSlot(f.primitive) == 0 && FirstSlot(f.reference) == 0;
    if e.isPrimitive {
      MatchFill(f.primitive, e.name, rest);
    } else {
      ReferenceIsNotPrimitive(f, e.name, rest);
      MatchFill(f.reference, e.name, rest);
    }
  }

  /** Decoding reads one block, then decodes what follows it. */
  lemma DecodeBlocksStep(f: Format, e: FieldInfo, after: seq<string>)
    requires WellFormed(f)
    requires |after| >= |f.footer|
    ensures DecodeBlocks(f, Block(f, e) + after)
         == if DecodeBlocks(f, after).Some? then Some([e] + DecodeBlocks(f, after).value) else None
  {
    var lines := Block(f, e) + after;
    assert |lines| > |f.footer|;
    ReadBlockFill(f, e, after);
    assert lines[|Shape(f, e)|..] == after;
  }

  /** The first field's block, then the rest, then the footer. */
  lemma BlocksFront(f: Format, es: seq<FieldInfo>)
    requires |es| > 0
    ensures Blocks(f, es) + f.footer == Block(f, es[0]) + (Blocks(f, es[1..]) + f.footer)
    ensures [es[0]] + es[1..] == es
  {
    assert es == [es[0]] + es[1..];
    BlocksCons(f, es[0], es[1..]);
  }

  lemma {:induction false} DecodeBlocksComplete(f: Format, es: seq<FieldInfo>)
    requires WellFormed(f)
    ensures DecodeBlocks(f, Blocks(f, es) + f.footer) == Some(es)
    decreases |es|
  {
    if |es| > 0 {
      BlocksFront(f, es);
      DecodeBlocksComplete(f, es[1..]);
      DecodeBlocksStep(f, es[0], Blocks(f, es[1..]) + f.footer);
    }
  }

  lemma {:induction false} DecodeBlocksSound(f: Format, lines: seq<string>)
    requires |f.primitive| > 0 && |f.reference| > 0
    requires DecodeBlocks(f, lines).Some?
    ensures lines == Blocks(f, DecodeBlocks(f, lines).value) + f.footer
    decreases |lines|
  {
    if lines != f.footer {
      var e := ReadBlock(f, lines).value;
      var tail := lines[|Shape(f, e)|..];
      var rest := DecodeBlocks(f, tail).value;
      assert DecodeBlocks(f, lines).value == [e] + rest;
      DecodeBlocksSound(f, tail);
      BlocksCons(f, e, rest);
      assert lines == lines[..|Shape(f, e)|] + tail;
    }
  }

  /** Decoding a generated body gives back the class name (when the header
      mentions it) and exactly the fields, in order. */
  lemma DecodeBody(f: Format, className: string, es: seq<FieldInfo>)
    requires WellFormed(f)
    ensures Decode(f, Body(f, className, es))
         == Some((if FirstSlot(f.header) < |f.header| then className else "", es))
  {
    var lines, after := Body(f, className, es), Blocks(f, es) + f.footer;
    assert lines == FillAll(f.header, className) + after;
    DecodeBlocksComplete(f, es);
    DecodeHeader(f, className, after);
  }

  /** Decoding reads the header, then decodes what follows it. */
  lemma DecodeHeader(f: Format, className: string, after: seq<string>)
    requires WellFormed(f)
    ensures Decode(f, FillAll(f.header, className) + after)
         == match DecodeBlocks(f, after)
            case None => None
            case Some(es) => Some((if FirstSlot(f.header) < |f.header| then className else "", es))
  {
    var lines := FillAll(f.header, className) + after;
    MatchFill(f.header, className, after);
    assert lines[|f.header|..] == after;
  }

  /** Conversely, whatever a body decodes to regenerates it exactly; so no two
      different field lists give the same body. */
  lemma DecodeSound(f: Format, lines: seq<string>)
    requires |f.primitive| > 0 && |f.reference| > 0
    requires Decode(f, lines).Some?
    ensures lines == Body(f, Decode(f, lines).value.0, Decode(f, lines).value.1)
  {
    var cn, es := Decode(f, lines).value.0, Decode(f, lines).value.1;
    var front, rest := lines[..|f.header|], lines[|f.header|..];
    assert front == FillAll(f.header, cn) && DecodeBlocks(f, rest) == Some(es);
    DecodeBlocksSound(f, rest);
    BodyParts(f, cn, es, front, rest);
    assert lines == front + rest;
  }

  /** A filled header followed by the blocks and the footer is a body. */
  lemma BodyParts(f: Format, className: string, es: seq<FieldInfo>, front: seq<string>, rest: seq<string>)
    requires front == FillAll(f.header, className)
    requires rest == Blocks(f, es) + f.footer
    ensures front + rest == Body(f, className, es)
  {
  }

  /** Body lines as addBodyLine stores them: each prefixed by four spaces. */
  function Indent(lines: seq<string>): (r: seq<string>)
    ensures |r| == |lines|
  {
    seq(|lines|, i requires 0 <= i < |lines| => "    " + lines[i])
  }

  /** Strips the four-space prefix from every line, if every line has it. */
  function Outdent(lines: seq<string>): Option<seq<string>>
  {
    if forall i | 0 <= i < |lines| :: |lines[i]| >= 4 && lines[i][..4] == "    "
    then Some(seq(|lines|, i requires 0 <= i < |lines| => lines[i][4..]))
    else None
  }

  lemma OutdentIndent(lines: seq<string>)
    ensures Outdent(Indent(lines)) == Some(lines)
  {
    var ind := Indent(lines);
    forall i | 0 <= i < |lines|
      ensures |ind[i]| >= 4 && ind[i][..4] == "    " && ind[i][4..] == lines[i]
    {
      assert ind[i] == "    " + lines[i];
    }
    assert seq(|ind|, i requires 0 <= i < |ind| => ind[i][4..]) == lines;
  }

  lemma IndentAppend(lines: seq<string>, more: seq<string>)
    ensures Indent(lines + more) == Indent(lines) + Indent(more)
  {
  }
}
