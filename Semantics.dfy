/** What the generated equals, hashCode and toString bodies compute when a
    generated class runs, over its fields in keySet() order. Objects held by
    reference fields are identified by number; their own equals, hashCode and
    the printing of primitive values are parameters. */
module Semantics {
  import opened Base
  import opened Templates

  /** A field value: a primitive's numeric value, or a reference that is null
      (None) or names an object. */
  datatype Value = Prim(n: int) | Ref(obj: Option<nat>)

  /** An instance of a generated class: its identity, the name of its class
      and the values of its fields. */
  datatype Instance = Instance(id: nat, className: string, fields: map<string, Value>)

  /** The value of field `e`; a field never assigned holds Java's default,
      zero or null. */
  function FieldValue(x: Instance, e: FieldInfo): Value
  {
    if e.name in x.fields then x.fields[e.name]
    else if e.isPrimitive then Prim(0)
    else Ref(None)
  }

  /** The reference a reference field holds. */
  function RefOf(v: Value): Option<nat>
  {
    if v.Ref? then v.obj else None
  }

  /** The comparison block of one field: `!=` for a primitive; for a
      reference, `equals` when this side is non-null, else the other side
      must be null too. `eqObj(o, p)` is what `o.equals(p)` returns. */
  function FieldEqual(e: FieldInfo, a: Value, b: Value, eqObj: (nat, Option<nat>) -> bool): bool
  {
    if e.isPrimitive then a == b
    else
      match RefOf(a)
      case Some(o) => eqObj(o, RefOf(b))
      case None => RefOf(b).None?
  }

  /** The field blocks of equals, run in order: the first block that finds a
      difference returns false, and `return true` is reached otherwise. */
  function CompareFields(es: seq<FieldInfo>, x: Instance, y: Instance, eqObj: (nat, Option<nat>) -> bool): bool
    decreases |es|
  {
    if |es| == 0 then true
    else if !FieldEqual(es[0], FieldValue(x, es[0]), FieldValue(y, es[0]), eqObj) then false
    else CompareFields(es[1..], x, y, eqObj)
  }

  /** The generated equals of `x` called with `other` (None for null). */
  function GeneratedEquals(x: Instance, other: Option<Instance>, es: seq<FieldInfo>,
                           eqObj: (nat, Option<nat>) -> bool): bool
  {
    if other.None? then false
    else if x.id == other.value.id then true
    else if x.className != other.value.className then false
    else CompareFields(es, x, other.value, eqObj)
  }

  /** Running the blocks in order amounts to every field comparing equal. */
  lemma {:induction false} CompareFieldsAll(es: seq<FieldInfo>, x: Instance, y: Instance, eqObj: (nat, Option<nat>) -> bool)
    ensures CompareFields(es, x, y, eqObj)
        <==> forall i | 0 <= i < |es| :: FieldEqual(es[i], FieldValue(x, es[i]), FieldValue(y, es[i]), eqObj)
    decreases |es|
  {
    if |es| > 0 {
      CompareFieldsAll(es[1..], x, y, eqObj);
      assert forall i | 1 <= i < |es| :: es[1..][i - 1] == es[i];
    }
  }

  /** The generated equals is false for null, true for the same object, false
      for an object of another class, and otherwise true exactly when every
      field compares equal (null-safely for references). */
  lemma EqualsMeaning(x: Instance, other: Option<Instance>, es: seq<FieldInfo>, eqObj: (nat, Option<nat>) -> bool)
    ensures GeneratedEquals(x, other, es, eqObj) <==>
      && other.Some?
      && (|| x.id == other.value.id
          || (&& x.className == other.value.className
              && forall i | 0 <= i < |es| :: FieldEqual(es[i], FieldValue(x, es[i]), FieldValue(other.value, es[i]), eqObj)))
  {
    if other.Some? {
      CompareFieldsAll(es, x, other.value, eqObj);
    }
  }

  /** What one field adds to the hash: `(int)` of a primitive (the cast is
      `toInt`), 0 for a null reference, the object's hashCode otherwise. */
  function Contribution(e: FieldInfo, v: Value, hashOf: nat -> Int32, toInt: int -> Int32): Int32
  {
    if e.isPrimitive then (if v.Prim? then toInt(v.n) else 0)
    else match RefOf(v)
      case None => 0
      case Some(o) => hashOf(o)
  }

  /** The generated hashCode: `result = prime * result + c` for each field,
      from `result = 1`, in 32-bit arithmetic. */
  function GeneratedHash(x: Instance, es: seq<FieldInfo>, hashOf: nat -> Int32, toInt: int -> Int32): Int32
    decreases |es|
  {
    if |es| == 0 then 1
    else
      var init, e := es[..|es| - 1], es[|es| - 1];
      Wrap32(31 * GeneratedHash(x, init, hashOf, toInt) + Contribution(e, FieldValue(x, e), hashOf, toInt))
  }

  /** The same recurrence over unbounded integers. */
  function ExactHash(x: Instance, es: seq<FieldInfo>, hashOf: nat -> Int32, toInt: int -> Int32): int
    decreases |es|
  {
    if |es| == 0 then 1
    else
      var init, e := es[..|es| - 1], es[|es| - 1];
      31 * ExactHash(x, init, hashOf, toInt) + Contribution(e, FieldValue(x, e), hashOf, toInt)
  }

  /** Numbers that differ by a multiple of 2^32 wrap to the same int. */
  lemma Wrap32Congruent(a: int, b: int)
    requires (a - b) % 0x1_0000_0000 == 0
    ensures Wrap32(a) == Wrap32(b)
  {
    var k := (a - b) / 0x1_0000_0000;
    assert a == b + k * 0x1_0000_0000;
    var q, r := (b + 0x8000_0000) / 0x1_0000_0000, (b + 0x8000_0000) % 0x1_0000_0000;
    assert a + 0x8000_0000 == (q + k) * 0x1_0000_0000 + r;
  }

  /** One step of the recurrence keeps two congruent values congruent. */
  lemma StepCongruent(h: int, p: int, c: int)
    requires (h - p) % 0x1_0000_0000 == 0
    ensures Wrap32(31 * h + c) == Wrap32(31 * p + c)
  {
    var k := (h - p) / 0x1_0000_0000;
    assert h - p == k * 0x1_0000_0000;
    assert (31 * h + c) - (31 * p + c) == (31 * k) * 0x1_0000_0000;
    Wrap32Congruent(31 * h + c, 31 * p + c);
  }

  /** Wrapping after every step gives the exact result wrapped once: the
      hash is the exact polynomial `31^n + sum of c_i * 31^(n-1-i)` reduced
      to 32 bits. */
  lemma {:induction false} HashIsWrappedExact(x: Instance, es: seq<FieldInfo>, hashOf: nat -> Int32, toInt: int -> Int32)
    ensures GeneratedHash(x, es, hashOf, toInt) == Wrap32(ExactHash(x, es, hashOf, toInt))
    decreases |es|
  {
    if |es| > 0 {
      var init, e := es[..|es| - 1], es[|es| - 1];
      HashIsWrappedExact(x, init, hashOf, toInt);
      var h, p := GeneratedHash(x, init, hashOf, toInt), ExactHash(x, init, hashOf, toInt);
      StepCongruent(h, p, Contribution(e, FieldValue(x, e), hashOf, toInt));
    }
  }

  /** Objects that are equal according to their own equals have equal hash
      codes, `equals(null)` is false, and the same identity means the same
      instance: these are the demands of java.lang.Object's contract. */
  ghost predicate ObjectContract(x: Instance, y: Instance, eqObj: (nat, Option<nat>) -> bool, hashOf: nat -> Int32)
  {
    && (forall o: nat, p: nat :: eqObj(o, Some(p)) ==> hashOf(o) == hashOf(p))
    && (forall o: nat :: !eqObj(o, None))
    && (x.id == y.id ==> x == y)
  }

  /** Fields that compare equal contribute the same to the hash. */
  lemma {:induction false} EqualFieldsSameHash(x: Instance, y: Instance, es: seq<FieldInfo>,
                                               eqObj: (nat, Option<nat>) -> bool, hashOf: nat -> Int32, toInt: int -> Int32)
    requires ObjectContract(x, y, eqObj, hashOf)
    requires forall i | 0 <= i < |es| :: FieldEqual(es[i], FieldValue(x, es[i]), FieldValue(y, es[i]), eqObj)
    ensures GeneratedHash(x, es, hashOf, toInt) == GeneratedHash(y, es, hashOf, toInt)
    decreases |es|
  {
    if |es| > 0 {
      var init, e := es[..|es| - 1], es[|es| - 1];
      assert forall i | 0 <= i < |init| :: init[i] == es[i];
      EqualFieldsSameHash(x, y, init, eqObj, hashOf, toInt);
      var a, b := FieldValue(x, e), FieldValue(y, e);
      assert FieldEqual(e, a, b, eqObj);
      if !e.isPrimitive && RefOf(a).Some? {
        assert eqObj(RefOf(a).value, RefOf(b));
        assert RefOf(b).Some?;
      }
      assert Contribution(e, a, hashOf, toInt) == Contribution(e, b, hashOf, toInt);
    }
  }

  /** The generated equals and hashCode agree: instances the generated
      equals calls equal have the same generated hash code. */
  lemma EqualsImpliesSameHash(x: Instance, y: Instance, es: seq<FieldInfo>,
                              eqObj: (nat, Option<nat>) -> bool, hashOf: nat -> Int32, toInt: int -> Int32)
    requires ObjectContract(x, y, eqObj, hashOf)
    requires GeneratedEquals(x, Some(y), es, eqObj)
    ensures GeneratedHash(x, es, hashOf, toInt) == GeneratedHash(y, es, hashOf, toInt)
  {
    if x.id != y.id {
      CompareFieldsAll(es, x, y, eqObj);
      EqualFieldsSameHash(x, y, es, eqObj, hashOf, toInt);
    }
  }

  /** The text toString prints for one field's value: the primitive as
      StringBuilder.append prints it (`primText`), `<hash>` for an object,
      `null` for a null reference. */
  function ValueText(e: FieldInfo, v: Value, hashOf: nat -> Int32, primText: int -> string): string
  {
    if e.isPrimitive then (if v.Prim? then primText(v.n) else "")
    else match RefOf(v)
      case None => "null"
      case Some(o) => "<" + IntText(hashOf(o)) + ">"
  }

  /** The line toString prints for one field, without its newline. */
  function FieldLine(x: Instance, e: FieldInfo, hashOf: nat -> Int32, primText: int -> string): string
  {
    "    " + e.name + "=" + ValueText(e, FieldValue(x, e), hashOf, primText)
  }

  /** What the field blocks append, in order: each field's line and a newline. */
  function FieldsText(x: Instance, es: seq<FieldInfo>, hashOf: nat -> Int32, primText: int -> string): string
    decreases |es|
  {
    if |es| == 0 then "" else FieldLine(x, es[0], hashOf, primText) + "\n" + FieldsText(x, es[1..], hashOf, primText)
  }

  /** The string the generated toString returns. */
  function GeneratedToString(x: Instance, className: string, es: seq<FieldInfo>,
                             hashOf: nat -> Int32, primText: int -> string): string
  {
    className + " [\n" + FieldsText(x, es, hashOf, primText) + "]"
  }

  /** The lines toString is meant to print: a header naming the class, one
      line per field naming it once, and the closing bracket. */
  function ToStringLines(x: Instance, className: string, es: seq<FieldInfo>,
                         hashOf: nat -> Int32, primText: int -> string): (r: seq<string>)
    ensures |r| == |es| + 2
  {
    [className + " ["] + seq(|es|, i requires 0 <= i < |es| => FieldLine(x, es[i], hashOf, primText)) + ["]"]
  }

  lemma {:induction false} JoinFields(x: Instance, es: seq<FieldInfo>, hashOf: nat -> Int32, primText: int -> string)
    ensures Join("\n", seq(|es|, i requires 0 <= i < |es| => FieldLine(x, es[i], hashOf, primText)) + ["]"])
         == FieldsText(x, es, hashOf, primText) + "]"
    decreases |es|
  {
    var ls := seq(|es|, i requires 0 <= i < |es| => FieldLine(x, es[i], hashOf, primText));
    if |es| > 0 {
      var tail := seq(|es| - 1, i requires 0 <= i < |es| - 1 => FieldLine(x, es[1..][i], hashOf, primText));
      assert ls + ["]"] == [ls[0]] + (tail + ["]"]);
      JoinFields(x, es[1..], hashOf, primText);
    } else {
      assert ls + ["]"] == ["]"];
    }
  }

  lemma NoNewlineInInt(v: Int32)
    ensures '\n' !in IntText(v)
  {
    var digits := if v < 0 then NatToString(-(v as int)) else NatToString(v);
    assert forall i | 0 <= i < |digits| :: digits[i] != '\n';
  }

  /** A field's line holds no newline when its name and the printed
      primitives hold none. */
  lemma FieldLineHasNoNewline(x: Instance, e: FieldInfo, hashOf: nat -> Int32, primText: int -> string)
    requires '\n' !in e.name
    requires forall n: int :: '\n' !in primText(n)
    ensures '\n' !in FieldLine(x, e, hashOf, primText)
  {
    var v := FieldValue(x, e);
    if !e.isPrimitive && RefOf(v).Some? {
      NoNewlineInInt(hashOf(RefOf(v).value));
    }
    assert FieldLine(x, e, hashOf, primText) == "    " + e.name + "=" + ValueText(e, v, hashOf, primText);
  }

  /** Split at newlines, the toString result is exactly the header line, one
      line per field in order, each naming its field and its value, and the
      closing bracket, provided no name or printed primitive contains a
      newline. */
  lemma ToStringSplits(x: Instance, className: string, es: seq<FieldInfo>,
                       hashOf: nat -> Int32, primText: int -> string)
    requires '\n' !in className
    requires forall i | 0 <= i < |es| :: '\n' !in es[i].name
    requires forall n: int :: '\n' !in primText(n)
    ensures Split(GeneratedToString(x, className, es, hashOf, primText), '\n')
         == ToStringLines(x, className, es, hashOf, primText)
  {
    var lines := ToStringLines(x, className, es, hashOf, primText);
    var ls := seq(|es|, i requires 0 <= i < |es| => FieldLine(x, es[i], hashOf, primText));
    assert lines == [className + " ["] + (ls + ["]"]);
    JoinFields(x, es, hashOf, primText);
    assert Join("\n", lines) == GeneratedToString(x, className, es, hashOf, primText);
    forall i | 0 <= i < |lines|
      ensures '\n' !in lines[i]
    {
      if 1 <= i <= |es| {
        FieldLineHasNoNewline(x, es[i - 1], hashOf, primText);
      }
    }
    SplitJoin(lines, '\n');
  }
}
