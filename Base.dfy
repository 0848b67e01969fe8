/** Values shared by the whole model: failure-carrying results, Java class
    identities, reflection modifier bits and the string operations that the
    generator relies on (String.join, splitting at a character, decimal text). */
module Base {

  datatype Option<+T> = None | Some(value: T)

  datatype Result<+T, +E> = Ok(value: T) | Err(error: E)

  /** A java.lang.Class as the engine sees it: the text `getName()` returns and
      whether `isPrimitive()` holds. Two classes are the same class exactly when
      these values are equal. */
  datatype JClass = JClass(name: string, isPrimitive: bool)

  const StringClass := JClass("java.lang.String", false)
  const ObjectClass := JClass("java.lang.Object", false)
  const BooleanClass := JClass("boolean", true)
  const IntClass := JClass("int", true)

  /** The bits of java.lang.reflect.Modifier that the engine uses. */
  const PRIVATE: bv32 := 0x2
  const VOLATILE: bv32 := 0x40

  /** String.join(sep, parts). */
  function Join(sep: string, parts: seq<string>): string
  {
    if |parts| == 0 then ""
    else if |parts| == 1 then parts[0]
    else parts[0] + sep + Join(sep, parts[1..])
  }

  /** Splits `s` at every occurrence of `c`, keeping empty pieces. */
  function Split(s: string, c: char): (r: seq<string>)
    ensures |r| >= 1
  {
    if |s| == 0 then [""]
    else if s[0] == c then [""] + Split(s[1..], c)
    else
      var rest := Split(s[1..], c);
      [[s[0]] + rest[0]] + rest[1..]
  }

  lemma {:induction false} SplitAfterFree(p: string, c: char, rest: string)
    requires c !in p
    ensures Split(p + rest, c) == [p + Split(rest, c)[0]] + Split(rest, c)[1..]
  {
    if |p| > 0 {
      assert (p + rest)[0] == p[0];
      assert (p + rest)[1..] == p[1..] + rest;
      SplitAfterFree(p[1..], c, rest);
      assert [p[0]] + (p[1..] + Split(rest, c)[0]) == p + Split(rest, c)[0];
    } else {
      var r := Split(rest, c);
      assert p + rest == rest;
      assert p + r[0] == r[0];
      assert r == [r[0]] + r[1..];
    }
  }

  /** Splitting a join at its separator gives the parts back, as long as no
      part contains the separator. */
  lemma {:induction false} SplitJoin(parts: seq<string>, c: char)
    requires |parts| >= 1
    requires forall i | 0 <= i < |parts| :: c !in parts[i]
    ensures Split(Join([c], parts), c) == parts
  {
    if |parts| == 1 {
      SplitAfterFree(parts[0], c, "");
      assert parts[0] + "" == parts[0];
    } else {
      var tail := Join([c], parts[1..]);
      assert Join([c], parts) == parts[0] + ([c] + tail);
      SplitAfterFree(parts[0], c, [c] + tail);
      assert ([c] + tail)[0] == c && ([c] + tail)[1..] == tail;
      assert Split([c] + tail, c) == [""] + Split(tail, c);
      SplitJoin(parts[1..], c);
      assert parts[0] + "" == parts[0];
      assert parts == [parts[0]] + parts[1..];
    }
  }

  function Digit(d: nat): (ch: char)
    requires d < 10
    ensures ch as int == '0' as int + d
  {
    "0123456789"[d]
  }

  function DigitValue(ch: char): nat
  {
    if '0' <= ch <= '9' then (ch as int - '0' as int) as nat else 0
  }

  /** The decimal text of a non-negative number, as `%d` prints it. */
  function NatToString(n: nat): (s: string)
    ensures |s| >= 1
    ensures forall i | 0 <= i < |s| :: '0' <= s[i] <= '9'
  {
    if n < 10 then [Digit(n)] else NatToString(n / 10) + [Digit(n % 10)]
  }

  /** Reads decimal digits back into a number. */
  function ParseDecimal(s: string): nat
  {
    if |s| == 0 then 0 else ParseDecimal(s[..|s| - 1]) * 10 + DigitValue(s[|s| - 1])
  }

  lemma {:induction false} DecimalRoundTrip(n: nat)
    ensures ParseDecimal(NatToString(n)) == n
  {
    var s := NatToString(n);
    if n < 10 {
      assert s[..0] == [];
    } else {
      var q, d := n / 10, n % 10;
      assert s == NatToString(q) + [Digit(d)];
      assert s[..|s| - 1] == NatToString(q) && s[|s| - 1] == Digit(d);
      DecimalRoundTrip(q);
      assert ParseDecimal(s) == q * 10 + d;
    }
  }

  /** A Java `int`. */
  type Int32 = x: int | -0x8000_0000 <= x < 0x8000_0000

  /** Two's-complement wrap-around of an exact result into a Java `int`. */
  function Wrap32(x: int): (r: Int32)
    ensures (r - x) % 0x1_0000_0000 == 0
    ensures -0x8000_0000 <= x < 0x8000_0000 ==> r == x
  {
    (x + 0x8000_0000) % 0x1_0000_0000 - 0x8000_0000
  }

  /** Integer.toString of a Java int. */
  function IntText(v: Int32): (s: string)
    ensures |s| >= 1
    ensures s[0] == '-' <==> v < 0
  {
    if v < 0 then "-" + NatToString(-(v as int)) else NatToString(v)
  }
}
