/** The two storage layouts. A Structure class has one field per table entry;
    an Array class has one array per distinct field type, sized by how many
    entries have that type. Also the naming and constructor conventions that
    distinguish the two factories. */
module Layouts {
  import opened Base
  import opened Schema

  datatype Layout = Structure | Array

  /** getFactoryName. */
  function FactoryName(layout: Layout): string
  {
    match layout
    case Structure => "Structure"
    case Array => "Array"
  }

  /** createClassName: `<package>.<factory name>_of_<simple name>`. */
  function ClassName(packageName: string, layout: Layout, simpleName: string): (r: string)
    ensures |r| > |packageName| + 1 + 4 + |simpleName|
    ensures r[..|packageName| + 1] == packageName + "."
    ensures r[|r| - |simpleName| - 4..] == "_of_" + simpleName
    ensures r[|packageName| + 1..|r| - |simpleName| - 4] == FactoryName(layout)
  {
    var r := packageName + "." + FactoryName(layout) + "_of_" + simpleName;
    assert r == (packageName + ".") + FactoryName(layout) + ("_of_" + simpleName);
    r
  }

  /** The letter right after the package's dot is the factory's initial. */
  lemma ClassNameInitial(packageName: string, layout: Layout, simpleName: string)
    ensures ClassName(packageName, layout, simpleName)[|packageName| + 1] == (if layout.Structure? then 'S' else 'A')
  {
    var r := ClassName(packageName, layout, simpleName);
    assert r == (packageName + ".") + (FactoryName(layout) + "_of_" + simpleName);
  }

  /** The two factories never name their classes for the same definition
      alike: the class name determines the layout. */
  lemma ClassNameDeterminesLayout(packageName: string, simpleName: string, a: Layout, b: Layout)
    requires ClassName(packageName, a, simpleName) == ClassName(packageName, b, simpleName)
    ensures a == b
  {
    ClassNameInitial(packageName, a, simpleName);
    ClassNameInitial(packageName, b, simpleName);
  }

  /** getConstructorParameters: none by default, one `int` for the Array
      factory. */
  function ConstructorParameters(layout: Layout): (r: seq<JClass>)
    ensures layout.Structure? ==> r == []
    ensures layout.Array? <==> |r| == 1
    ensures forall i | 0 <= i < |r| :: r[i] == IntClass
  {
    match layout
    case Structure => []
    case Array => [IntClass]
  }

  /** One field added to the class under construction: its type name, name,
      modifier bits and, for the Array layout, its initializer. */
  datatype FieldSpec = FieldSpec(typeName: string, name: string, modifiers: bv32, init: Option<string>)

  /** The Structure layout: one field per entry, in keySet() order, with the
      entry's type and modifiers. */
  function StructureSlots(t: Table): (r: seq<FieldSpec>)
    requires Valid(t)
    ensures |r| == |t.keys|
  {
    seq(|t.keys|, i requires 0 <= i < |t.keys| =>
      FieldSpec(t.types[t.keys[i]].name, t.keys[i], t.modifiers[t.keys[i]], None))
  }

  /** Every entry of the table gets exactly one slot, which carries its type
      and its modifiers and has no initializer; no slot is left over. */
  lemma StructureSlotsCorrect(t: Table)
    requires Valid(t)
    ensures var r := StructureSlots(t);
      && (forall i, j | 0 <= i < j < |r| :: r[i].name != r[j].name)
      && (forall k | k in t.types :: exists i | 0 <= i < |r| :: r[i].name == k)
      && (forall i | 0 <= i < |r| ::
            && r[i].name in t.types
            && r[i].typeName == t.types[r[i].name].name
            && r[i].modifiers == t.modifiers[r[i].name]
            && r[i].init.None?)
  {
    var r := StructureSlots(t);
    forall k | k in t.types
      ensures exists i | 0 <= i < |r| :: r[i].name == k
    {
      var i :| 0 <= i < |t.keys| && t.keys[i] == k;
      assert r[i].name == k;
    }
  }

  /** fieldsType.values(), in keySet() order. */
  function Values(t: Table): (r: seq<JClass>)
    requires Valid(t)
    ensures |r| == |t.keys|
    ensures forall i | 0 <= i < |r| :: r[i] == t.types[t.keys[i]]
  {
    seq(|t.keys|, i requires 0 <= i < |t.keys| => t.types[t.keys[i]])
  }

  function Get(counts: map<JClass, nat>, ty: JClass): nat
  {
    if ty in counts then counts[ty] else 0
  }

  /** The counters of the first loop of ArrayFactory.initializeFields after
      visiting `vs`: a counter is created on a type's first occurrence and
      incremented on every occurrence. */
  function Tally(vs: seq<JClass>): map<JClass, nat>
    decreases |vs|
  {
    if |vs| == 0 then map[]
    else
      var counts := Tally(vs[..|vs| - 1]);
      var ty := vs[|vs| - 1];
      counts[ty := Get(counts, ty) + 1]
  }

  /** The order in which classCount.keySet() enumerates the types; the model
      fixes it to first-occurrence order. */
  function Order(vs: seq<JClass>): seq<JClass>
    decreases |vs|
  {
    if |vs| == 0 then []
    else
      var order := Order(vs[..|vs| - 1]);
      var ty := vs[|vs| - 1];
      if ty in order then order else order + [ty]
  }

  /** Each counter holds the number of occurrences of its type, and there is
      a counter exactly for the types that occur. */
  lemma {:induction false} TallyCounts(vs: seq<JClass>)
    ensures forall ty :: ty in Tally(vs) <==> ty in vs
    ensures forall ty :: Get(Tally(vs), ty) == multiset(vs)[ty]
    decreases |vs|
  {
    if |vs| > 0 {
      var init, ty := vs[..|vs| - 1], vs[|vs| - 1];
      assert vs == init + [ty];
      TallyCounts(init);
      assert multiset(vs) == multiset(init) + multiset{ty};
    }
  }

  /** The types are enumerated once each, and exactly the types that occur. */
  lemma {:induction false} OrderDistinct(vs: seq<JClass>)
    ensures forall i, j | 0 <= i < j < |Order(vs)| :: Order(vs)[i] != Order(vs)[j]
    ensures forall ty :: ty in Order(vs) <==> ty in vs
    decreases |vs|
  {
    if |vs| > 0 {
      var init, ty := vs[..|vs| - 1], vs[|vs| - 1];
      assert vs == init + [ty];
      OrderDistinct(init);
    }
  }

  /** The sum of the counters, visited in `order`. */
  function Sum(order: seq<JClass>, counts: map<JClass, nat>): nat
    decreases |order|
  {
    if |order| == 0 then 0 else Sum(order[..|order| - 1], counts) + Get(counts, order[|order| - 1])
  }

  lemma {:induction false} SumFrame(order: seq<JClass>, counts: map<JClass, nat>, ty: JClass, x: nat)
    requires ty !in order
    ensures Sum(order, counts[ty := x]) == Sum(order, counts)
    decreases |order|
  {
    if |order| > 0 {
      SumFrame(order[..|order| - 1], counts, ty, x);
    }
  }

  lemma {:induction false} SumBump(order: seq<JClass>, counts: map<JClass, nat>, ty: JClass)
    requires forall i, j | 0 <= i < j < |order| :: order[i] != order[j]
    requires ty in order
    ensures Sum(order, counts[ty := Get(counts, ty) + 1]) == Sum(order, counts) + 1
    decreases |order|
  {
    var init := order[..|order| - 1];
    if order[|order| - 1] == ty {
      assert ty !in init by {
        forall i | 0 <= i < |init|
          ensures init[i] != ty
        {
          assert init[i] == order[i];
        }
      }
      SumFrame(init, counts, ty, Get(counts, ty) + 1);
    } else {
      assert ty in init;
      SumBump(init, counts, ty);
    }
  }

  /** The counters add up to the number of entries visited. */
  lemma {:induction false} TallySum(vs: seq<JClass>)
    ensures Sum(Order(vs), Tally(vs)) == |vs|
    decreases |vs|
  {
    if |vs| > 0 {
      var init, ty := vs[..|vs| - 1], vs[|vs| - 1];
      TallySum(init);
      OrderDistinct(init);
      var order, counts := Order(init), Tally(init);
      if ty in order {
        SumBump(order, counts, ty);
      } else {
        SumFrame(order, counts, ty, Get(counts, ty) + 1);
        assert Sum(order + [ty], counts[ty := Get(counts, ty) + 1])
            == Sum(order, counts[ty := Get(counts, ty) + 1]) + Get(counts, ty) + 1;
        TallyCounts(init);
      }
    }
  }

  /** ArrayFactory.initializeField: a private `<type>[]` field named
      `_<type>_array`, initialised with `new <type>[<count>]`. */
  function ArrayField(ty: JClass, count: nat): FieldSpec
  {
    FieldSpec(ty.name + "[]", "_" + ty.name + "_array", PRIVATE, Some("new " + ty.name + "[" + NatToString(count) + "]"))
  }

  /** The initializer of an array field reads back as its element type and
      its count. */
  lemma ArrayFieldInitReadsBack(ty: JClass, count: nat)
    ensures var init := ArrayField(ty, count).init.value;
      var n := |"new " + ty.name + "["|;
      && n < |init| && init[..n] == "new " + ty.name + "[" && init[|init| - 1] == ']'
      && ParseDecimal(init[n..|init| - 1]) == count
  {
    var init := ArrayField(ty, count).init.value;
    var n := |"new " + ty.name + "["|;
    assert init == ("new " + ty.name + "[") + NatToString(count) + "]";
    assert init[n..|init| - 1] == NatToString(count);
    DecimalRoundTrip(count);
  }

  /** The Array layout: one array field per distinct type, in Order. */
  function ArraySlots(t: Table): (r: seq<FieldSpec>)
    requires Valid(t)
    ensures |r| == |Order(Values(t))|
  {
    var vs := Values(t);
    var order := Order(vs);
    seq(|order|, i requires 0 <= i < |order| => ArrayField(order[i], Get(Tally(vs), order[i])))
  }

  /** Exactly one array per distinct field type, each sized by the number of
      entries of that type; the sizes add up to the number of entries. */
  lemma ArraySlotsCorrect(t: Table)
    requires Valid(t)
    ensures var r := ArraySlots(t);
      var order := Order(Values(t));
      && (forall i, j | 0 <= i < j < |order| :: order[i] != order[j])
      && (forall ty :: ty in order <==> ty in Values(t))
      && (forall i | 0 <= i < |r| :: r[i] == ArrayField(order[i], multiset(Values(t))[order[i]]))
      && Sum(order, Tally(Values(t))) == |t.keys|
  {
    OrderDistinct(Values(t));
    TallyCounts(Values(t));
    TallySum(Values(t));
  }

  /** Every array field is named `_..._array`; so an accessor naming a field
      that does not start with `_` refers to no field of an Array class. */
  lemma ArraySlotsMissAccessorNames(t: Table, fieldName: string)
    requires Valid(t)
    requires |fieldName| == 0 || fieldName[0] != '_'
    ensures forall i | 0 <= i < |ArraySlots(t)| :: ArraySlots(t)[i].name != fieldName
  {
    forall i | 0 <= i < |ArraySlots(t)|
      ensures ArraySlots(t)[i].name != fieldName
    {
      assert ArraySlots(t)[i].name[0] == '_';
    }
  }

  /** The fields initializeFields adds for a layout. */
  function LayoutSlots(layout: Layout, t: Table): seq<FieldSpec>
    requires Valid(t)
  {
    match layout
    case Structure => StructureSlots(t)
    case Array => ArraySlots(t)
  }
}
