/**
 * `_static.parseUI5Filters`: turns an array of UI5 filter objects into the query
 * fragment the PHP CRUD API understands. Every simple filter becomes the fragment
 * `path,code,value1` (`,value2` for `BT`); `NE` becomes the empty fragment. One
 * fragment (or none) gives `filter=...`; several give `filter[]=...&filter[]=...`
 * followed by `&satisfy=all|any`, where the last multi-filter decides the combinator
 * and `any` is the default.
 */
module FilterCompiler {
  import opened Wrappers
  import opened JsValues
  import opened Strings

  /** A simple `sap.ui.model.Filter`: `sPath`, `sOperator`, `oValue1`, `oValue2` (`None` is `undefined`). */
  datatype Condition = Condition(path: string, operator: string, value1: Option<Value>, value2: Option<Value>)

  /**
   * An entry of a multi-filter's `aFilters`. A multi-filter nested there is handed to the
   * same fragment builder, which finds no path, operator or value on it.
   */
  datatype SubFilter = Simple(c: Condition) | Nested

  /**
   * An element of the input array: a simple filter, a multi-filter (its `aFilters` and
   * its `bAnd`, `None` when undefined), or anything that is not a `sap.ui.model.Filter`.
   */
  datatype FilterArg = Single(c: Condition) | Group(subs: seq<SubFilter>, and: Option<bool>) | NotAFilter

  /** The argument: an array of elements, or something that is not an array. */
  datatype FilterInput = NotAnArray | FilterArray(items: seq<FilterArg>)

  /** The UI5 operator names the API knows. */
  predicate KnownOperator(op: string) {
    op in {"BT", "Contains", "EndsWith", "EQ", "GE", "GT", "LE", "LT", "NE", "StartsWith"}
  }

  /** `oOperators[sOperator]` as text: an unknown operator reads `undefined`. */
  function OperatorCode(op: string): string {
    if op == "BT" then "bt"
    else if op == "Contains" then "cs"
    else if op == "EndsWith" then "ew"
    else if op == "EQ" then "eq"
    else if op == "GE" then "ge"
    else if op == "GT" then "gt"
    else if op == "LE" then "le"
    else if op == "LT" then "lt"
    else if op == "NE" then ""
    else if op == "StartsWith" then "sw"
    else "undefined"
  }

  /** The server's reading of an operator code, back to the UI5 operator name. */
  function DecodeOperator(code: string): Option<string> {
    if code == "bt" then Some("BT")
    else if code == "cs" then Some("Contains")
    else if code == "ew" then Some("EndsWith")
    else if code == "eq" then Some("EQ")
    else if code == "ge" then Some("GE")
    else if code == "gt" then Some("GT")
    else if code == "le" then Some("LE")
    else if code == "lt" then Some("LT")
    else if code == "sw" then Some("StartsWith")
    else None
  }

  /** Every operator the API supports has a code that decodes back to it; `NE` has none. */
  lemma OperatorCodeDecodes(op: string)
    requires KnownOperator(op)
    ensures op != "NE" ==> DecodeOperator(OperatorCode(op)) == Some(op)
    ensures op == "NE" <==> OperatorCode(op) == ""
  {
  }

  /** `"" + v` for a value that may be `undefined`. */
  function ValueText(v: Option<Value>): string {
    match v
    case None => "undefined"
    case Some(x) => KeyOf(x)
  }

  /** The inner `parse`: the fragment of one simple filter. */
  function Fragment(c: Condition): (r: string)
    ensures r == "" <==> c.operator == "NE"
  {
    if c.operator == "NE" then ""
    else
      c.path + "," + OperatorCode(c.operator) + "," + ValueText(c.value1)
      + (if c.operator == "BT" then "," + ValueText(c.value2) else "")
  }

  /** `parse` applied to an entry of `aFilters`; a nested multi-filter has every field undefined. */
  function SubFragment(s: SubFilter): string {
    match s
    case Simple(c) => Fragment(c)
    case Nested => "undefined,undefined,undefined"
  }

  function SubFragments(subs: seq<SubFilter>): (fs: seq<string>)
    ensures |fs| == |subs|
    ensures forall k :: 0 <= k < |subs| ==> fs[k] == SubFragment(subs[k])
  {
    if |subs| == 0 then [] else [SubFragment(subs[0])] + SubFragments(subs[1..])
  }

  /** The fragments one array element pushes. */
  function ArgFragments(a: FilterArg): seq<string> {
    match a
    case Single(c) => [Fragment(c)]
    case Group(subs, _) => SubFragments(subs)
    case NotAFilter => []
  }

  /** `aString` after the `$.each` loop. */
  function Fragments(items: seq<FilterArg>): seq<string> {
    if |items| == 0 then [] else ArgFragments(items[0]) + Fragments(items[1..])
  }

  /** The combinator a multi-filter sets: `all` when `bAnd` is undefined. */
  function GroupSatisfy(and: Option<bool>): string {
    match and
    case None => "all"
    case Some(b) => if b then "all" else "any"
  }

  /** `sSatisfy` after visiting `items`, starting from `sat`: each multi-filter overwrites it. */
  function SatisfyFrom(sat: string, items: seq<FilterArg>): (r: string)
    ensures r == sat || r == "all" || r == "any"
    decreases |items|
  {
    if |items| == 0 then sat
    else
      match items[0]
      case Group(_, and) => SatisfyFrom(GroupSatisfy(and), items[1..])
      case _ => SatisfyFrom(sat, items[1..])
  }

  /** `sSatisfy` after the loop: `any` before the first multi-filter. */
  function Satisfy(items: seq<FilterArg>): (r: string)
    ensures r == "all" || r == "any"
  {
    SatisfyFrom("any", items)
  }

  /** `_static.parseUI5Filters`. */
  function ParseUI5Filters(input: FilterInput): (r: string)
    ensures r == "" <==> input.NotAnArray? || |input.items| == 0
  {
    match input
    case NotAnArray => ""
    case FilterArray(items) =>
      if |items| == 0 then ""
      else
        var fs := Fragments(items);
        if |fs| > 1 then "filter[]=" + Join(fs, "&filter[]=") + "&satisfy=" + Satisfy(items)
        else "filter=" + Join(fs, "&filter=")
  }

  /** The fragments of consecutive parts of the array follow each other. */
  lemma {:induction false} FragmentsAppend(a: seq<FilterArg>, b: seq<FilterArg>)
    ensures Fragments(a + b) == Fragments(a) + Fragments(b)
    decreases |a|
  {
    if |a| == 0 {
      AppendEmpty(a, b);
    } else {
      AppendHeadTail(a, b);
      FragmentsAppend(a[1..], b);
      AppendAssoc(ArgFragments(a[0]), Fragments(a[1..]), Fragments(b));
    }
  }

  lemma AppendEmpty(a: seq<FilterArg>, b: seq<FilterArg>)
    requires |a| == 0
    ensures a + b == b && Fragments(a) == []
  {
  }

  lemma AppendHeadTail(a: seq<FilterArg>, b: seq<FilterArg>)
    requires |a| > 0
    ensures Fragments(a + b) == ArgFragments(a[0]) + Fragments(a[1..] + b)
  {
    assert (a + b)[0] == a[0];
    assert (a + b)[1..] == a[1..] + b;
  }

  lemma AppendAssoc(x: seq<string>, y: seq<string>, z: seq<string>)
    ensures x + (y + z) == (x + y) + z
  {
  }

  /** No element of `items` is a multi-filter. */
  predicate NoGroup(items: seq<FilterArg>) {
    forall k :: 0 <= k < |items| ==> !items[k].Group?
  }

  /** Elements that are not multi-filters leave the combinator as it is. */
  lemma {:induction false} SatisfyUntouched(sat: string, items: seq<FilterArg>)
    requires NoGroup(items)
    ensures SatisfyFrom(sat, items) == sat
    decreases |items|
  {
    if |items| > 0 {
      assert !items[0].Group?;
      SatisfyUntouched(sat, items[1..]);
    }
  }

  /** Without any multi-filter the combinator stays `any`. */
  lemma SatisfyDefault(items: seq<FilterArg>)
    requires NoGroup(items)
    ensures Satisfy(items) == "any"
  {
    SatisfyUntouched("any", items);
  }

  /** Visiting the array in two parts: the second part starts from what the first left. */
  lemma {:induction false} SatisfyAppend(sat: string, a: seq<FilterArg>, b: seq<FilterArg>)
    ensures SatisfyFrom(sat, a + b) == SatisfyFrom(SatisfyFrom(sat, a), b)
    decreases |a|
  {
    if |a| == 0 {
      assert a + b == b;
    } else {
      assert (a + b)[0] == a[0];
      assert (a + b)[1..] == a[1..] + b;
      match a[0]
      case Group(_, and) => SatisfyAppend(GroupSatisfy(and), a[1..], b);
      case _ => SatisfyAppend(sat, a[1..], b);
    }
  }

  /** The last multi-filter decides the combinator; elements after it do not change it. */
  lemma SatisfyLastGroup(a: seq<FilterArg>, subs: seq<SubFilter>, and: Option<bool>, b: seq<FilterArg>)
    requires NoGroup(b)
    ensures Satisfy(a + [Group(subs, and)] + b) == GroupSatisfy(and)
  {
    var g := [Group(subs, and)];
    SatisfyAppend("any", a + g, b);
    SatisfyAppend("any", a, g);
    assert g[1..] == [];
    SatisfyUntouched(GroupSatisfy(and), b);
  }

  /** The text of an operator code never holds the fragment separator. */
  lemma CodeHasNoComma(op: string)
    ensures ',' !in OperatorCode(op)
  {
  }

  /**
   * The server's reading of a fragment: split at `,`, it gives back the path, the
   * operator and the value(s), as long as none of them holds a comma.
   */
  lemma FragmentFields(c: Condition)
    requires KnownOperator(c.operator) && c.operator != "NE"
    requires ',' !in c.path && ',' !in ValueText(c.value1) && ',' !in ValueText(c.value2)
    ensures var parts := Split(Fragment(c), ',');
      |parts| == (if c.operator == "BT" then 4 else 3)
      && parts[0] == c.path
      && DecodeOperator(parts[1]) == Some(c.operator)
      && parts[2] == ValueText(c.value1)
      && (c.operator == "BT" ==> parts[3] == ValueText(c.value2))
  {
    var code := OperatorCode(c.operator);
    var v1 := ValueText(c.value1);
    var v2 := ValueText(c.value2);
    CodeHasNoComma(c.operator);
    var rest := if c.operator == "BT" then v1 + "," + v2 else v1;
    assert Fragment(c) == c.path + [','] + (code + [','] + rest);
    SplitAtFirst(c.path, ',', code + [','] + rest);
    SplitAtFirst(code, ',', rest);
    if c.operator == "BT" {
      assert rest == v1 + [','] + v2;
      SplitAtFirst(v1, ',', v2);
      SplitNoSeparator(v2, ',');
    } else {
      SplitNoSeparator(v1, ',');
    }
    OperatorCodeDecodes(c.operator);
  }

  /** One fragment in all gives `filter=` and that fragment; no combinator is sent. */
  lemma OneFragment(items: seq<FilterArg>)
    requires |items| > 0 && |Fragments(items)| == 1
    ensures ParseUI5Filters(FilterArray(items)) == "filter=" + Fragments(items)[0]
  {
  }

  /**
   * Several fragments: split at `&`, the result is one `filter[]=` parameter per
   * fragment, in order, and then the `satisfy=` parameter.
   */
  lemma ManyFragments(items: seq<FilterArg>)
    requires |Fragments(items)| > 1
    requires forall k :: 0 <= k < |Fragments(items)| ==> '&' !in Fragments(items)[k]
    ensures Split(ParseUI5Filters(FilterArray(items)), '&')
      == Prefixed(Fragments(items), "filter[]=") + ["satisfy=" + Satisfy(items)]
  {
    var fs := Fragments(items);
    var p := "filter[]=";
    var tail := "satisfy=" + Satisfy(items);
    assert |items| > 0;
    ManyShape(fs, Satisfy(items));
    PlainPieces(Satisfy(items));
    SplitPrefixedJoin(fs, p, '&', tail);
  }

  /** The literal pieces around the fragments hold no `&`. */
  lemma PlainPieces(sat: string)
    requires sat == "all" || sat == "any"
    ensures '&' !in "filter[]="
    ensures Split("satisfy=" + sat, '&') == ["satisfy=" + sat]
  {
    assert '&' !in "satisfy=" + sat;
    SplitNoSeparator("satisfy=" + sat, '&');
  }

  lemma ManyShape(fs: seq<string>, sat: string)
    ensures "filter[]=" + Join(fs, "&filter[]=") + "&satisfy=" + sat
      == "filter[]=" + Join(fs, ['&'] + "filter[]=") + ['&'] + ("satisfy=" + sat)
  {
    assert "&filter[]=" == ['&'] + "filter[]=";
  }

  /** `[Filter("age", GT, 18)]` compiles to `filter=age,gt,18`. */
  lemma AgeAbove18()
    ensures ParseUI5Filters(FilterArray([Single(Condition("age", "GT", Some(Num(18)), None))])) == "filter=age,gt,18"
  {
    var c := Condition("age", "GT", Some(Num(18)), None);
    AgeFragment(c);
    SingleCondition(c);
  }

  lemma AgeFragment(c: Condition)
    requires c == Condition("age", "GT", Some(Num(18)), None)
    ensures Fragment(c) == "age,gt,18"
  {
    assert NatToString(18) == NatToString(1) + [DigitChar(8)];
    assert ValueText(c.value1) == "18";
  }

  /** A one-element array holding a simple filter gives `filter=` and its fragment. */
  lemma SingleCondition(c: Condition)
    ensures ParseUI5Filters(FilterArray([Single(c)])) == "filter=" + Fragment(c)
  {
    assert [Single(c)][1..] == [];
    assert Fragments([Single(c)]) == [Fragment(c)];
  }

  /** Two simple filters and no multi-filter: two `filter[]` parameters and `satisfy=any`. */
  lemma TwoUngrouped(c1: Condition, c2: Condition)
    ensures ParseUI5Filters(FilterArray([Single(c1), Single(c2)]))
      == "filter[]=" + Fragment(c1) + "&filter[]=" + Fragment(c2) + "&satisfy=any"
  {
    var items := [Single(c1), Single(c2)];
    var f1, f2 := Fragment(c1), Fragment(c2);
    TwoFragments(c1, c2);
    SatisfyDefault(items);
    JoinTwo(f1, f2, "&filter[]=");
    assert ParseUI5Filters(FilterArray(items)) == "filter[]=" + (f1 + "&filter[]=" + f2) + ("&satisfy=" + "any");
    assert "&satisfy=" + "any" == "&satisfy=any";
    Regroup("filter[]=", f1, "&filter[]=", f2, "&satisfy=any");
  }

  lemma Regroup(a: string, b: string, c: string, d: string, e: string)
    ensures a + (b + c + d) + e == a + b + c + d + e
  {
  }

  lemma JoinTwo(a: string, b: string, sep: string)
    ensures Join([a, b], sep) == a + sep + b
  {
    assert [a, b][1..] == [b];
  }

  /** Two simple filters push one fragment each, in order. */
  lemma TwoFragments(c1: Condition, c2: Condition)
    ensures Fragments([Single(c1), Single(c2)]) == [Fragment(c1), Fragment(c2)]
  {
    FragmentsAppend([Single(c1)], [Single(c2)]);
    assert [Single(c1)][1..] == [];
    assert [Single(c1)] + [Single(c2)] == [Single(c1), Single(c2)];
  }

  /** A lone `NE` filter still yields `filter=`, with an empty fragment. */
  lemma LoneNotEqual(c: Condition)
    requires c.operator == "NE"
    ensures ParseUI5Filters(FilterArray([Single(c)])) == "filter="
  {
    SingleCondition(c);
  }
}
