/**
 * The per-field code fragments: `getMarshalStr` and `getUnmarshalStr`.
 *
 * Both dispatch on the field's kind in the same way: a kind found in the
 * runtime table is a scalar, `rql` is a nested record, and anything else is
 * split at `_` into a container shape (`array`, or else a map) and an
 * element kind. That choice is captured once as a `FieldPlan`; the two
 * renderers turn a plan into the exact lines the generator emits.
 */
module FieldGen {
  import opened Wrappers
  import opened Kinds
  import opened Model

  /** How the elements of a container field are handled. */
  datatype ElemPlan =
    | ScalarElems(gType: string, verbatim: bool)  // runtime element type; verbatim when the kind already names it
    | NestedElems                                 // each element has its own codec
    | NoElems                                     // the element kind is not recognised

  /** How one field is encoded and decoded. */
  datatype FieldPlan =
    | ScalarPlan(gType: string, direct: bool)     // runtime type; direct when it is the declared Go type
    | NestedPlan                                  // the field has its own codec
    | ContainerPlan(shape: Shape, elems: ElemPlan)

  /**
   * The kinds the dispatch can handle without indexing past the result of
   * splitting the kind at `_`: a kind that is neither in the runtime table
   * nor `rql` must contain `_`, so that the split has a second word.
   */
  predicate Dispatchable(dbType: string) {
    dbType in DbType2Runtime || dbType == "rql" || '_' in dbType
  }

  /** Any first word other than `array` selects the map shape. */
  function ShapeOf(word: string): (shape: Shape)
    ensures shape == ArrayShape <==> word == "array"
  {
    if word == "array" then ArrayShape else MapShape
  }

  /** The plan the kind dispatch of `getMarshalStr`/`getUnmarshalStr` selects. */
  function PlanOf(f: Field): FieldPlan
    requires Dispatchable(f.dbType)
  {
    if f.dbType in DbType2Runtime then
      var gType := DbType2Runtime[f.dbType];
      ScalarPlan(gType, gType == f.goType)
    else if f.dbType == "rql" then
      NestedPlan
    else
      SplitCount(f.dbType, '_');
      var words := Split(f.dbType, '_');
      var shape := ShapeOf(words[0]);
      if words[1] in DbType2Runtime then
        var gType := DbType2Runtime[words[1]];
        ContainerPlan(shape, ScalarElems(gType, gType == words[1]))
      else if words[1] == "rql" then
        ContainerPlan(shape, NestedElems)
      else
        ContainerPlan(shape, NoElems)
  }

  /** The plan a well-formed kind calls for, read off the kind's structure. */
  function KindPlan(k: Kind, goType: string): FieldPlan {
    match k
    case ScalarKind(s) => ScalarPlan(Runtime(s), Runtime(s) == goType)
    case RqlKind => NestedPlan
    case ContainerKind(shape, ScalarElem(s)) => ContainerPlan(shape, ScalarElems(Runtime(s), Runtime(s) == ScalarName(s)))
    case ContainerKind(shape, RqlElem) => ContainerPlan(shape, NestedElems)
  }

  /** A compound kind is neither a runtime-table key nor `rql`, and splits into its two words. */
  lemma ContainerDispatch(dbType: string, shape: Shape, elem: Elem)
    requires dbType == KindName(ContainerKind(shape, elem))
    ensures dbType !in DbType2Runtime && dbType != "rql" && '_' in dbType
    ensures Split(dbType, '_') == [ShapeName(shape), ElemName(elem)]
  {
    ContainerKindName(shape, elem);
    assert |dbType| >= 7;
    SplitContainerKind(shape, elem);
    SplitCount(dbType, '_');
  }

  lemma ContainerPlanAgrees(f: Field, shape: Shape, elem: Elem)
    requires f.dbType == KindName(ContainerKind(shape, elem))
    ensures Dispatchable(f.dbType)
    ensures PlanOf(f) == KindPlan(ContainerKind(shape, elem), f.goType)
  {
    ContainerDispatch(f.dbType, shape, elem);
    assert ShapeOf(ShapeName(shape)) == shape;
    match elem
    case ScalarElem(sc) =>
      assert Runtime(sc) == DbType2Runtime[ElemName(elem)];
    case RqlElem =>
      assert ElemName(elem) !in DbType2Runtime;
  }

  /**
   * For every one of the fifteen kinds the string dispatch is safe and picks
   * the plan the kind's structure calls for; in particular no valid kind
   * reaches the branch that emits nothing.
   */
  lemma PlanAgreesWithKind(f: Field)
    requires IsValidKind(f.dbType)
    ensures Dispatchable(f.dbType)
    ensures PlanOf(f) == KindPlan(ParseKind(f.dbType).value, f.goType)
    ensures PlanOf(f) != ContainerPlan(ArrayShape, NoElems) && PlanOf(f) != ContainerPlan(MapShape, NoElems)
  {
    var k := ParseKind(f.dbType).value;
    assert KindName(k) == f.dbType;
    match k
    case ScalarKind(sc) =>
      assert f.dbType == ScalarName(sc) && f.dbType in DbType2Runtime;
    case RqlKind =>
    case ContainerKind(shape, elem) =>
      ContainerPlanAgrees(f, shape, elem);
  }

  /** The Go type of a container with the given shape and element type. */
  function ContainerType(shape: Shape, elem: string): string {
    match shape
    case ArrayShape => "[]" + elem
    case MapShape => "map[string]" + elem
  }

  /** The text of a sequence of lines, in order. */
  function Concat(lines: seq<string>): string {
    if lines == [] then "" else lines[0] + Concat(lines[1..])
  }

  lemma {:induction false} ConcatNonEmpty(lines: seq<string>, i: nat)
    requires i < |lines| && |lines[i]| > 0
    ensures |Concat(lines)| >= |lines[i]|
  {
    if i > 0 {
      ConcatNonEmpty(lines[1..], i - 1);
    }
  }

  /** The entry `rqlgenTmp["<key>"]` of the map `MarshalRQL` returns. */
  function StoreTarget(key: string): string {
    "rqlgenTmp[\"" + key + "\"]"
  }

  /** A line, indented by `tabs`, that assigns to the entry for `key`. */
  function StoreLine(tabs: string, key: string, rest: string): string {
    tabs + StoreTarget(key) + rest
  }

  /** The lines `getMarshalStr` emits for field `f` of struct `s`. */
  function MarshalLines(f: Field, s: Struct): seq<string>
    requires Dispatchable(f.dbType)
  {
    var sh := s.shortName;
    var n := f.name;
    var key := f.dbName;
    match PlanOf(f)
    case ScalarPlan(gType, direct) =>
      if direct then [StoreLine("\t", key, " = " + sh + "." + n + "\n")]
      else [StoreLine("\t", key, " = " + gType + "(" + sh + "." + n + ")\n")]
    case NestedPlan =>
      [ StoreLine("\t", key, ", err = " + sh + "." + n + ".MarshalRQL()\n"),
        "\tif err != nil {\n",
        "\t\treturn nil, err\n",
        "\t}\n" ]
    case ContainerPlan(shape, ScalarElems(gType, verbatim)) =>
      [ "\t\t\tf" + n + " := make(" + ContainerType(shape, gType) + ", len(" + sh + "." + n + "))\n",
        "\t\t\tfor k, v:= range " + sh + "." + n + " { \n" ]
      + (if verbatim then ["\t\t\t\tf" + n + "[k] = v\n"]
         else [ "\t\t\t\tf" + n + "[k], ok = " + f.goType + "(v)\n",
                "\t\t\t\tif !ok {\n",
                "\t\t\t\t\treturn nil, genrqlerrors.New(\"Can't convert " + f.goType + " to " + f.dbType
                  + " (" + s.name + "." + n + ")\")\n",
                "\t\t\t\t}\n" ])
      + [ "\t\t\t}\n",
          StoreLine("\t\t\t", key, " = f" + n + "\n") ]
    case ContainerPlan(shape, NestedElems) =>
      [ "\t\t\tf" + n + " := make(" + ContainerType(shape, "interface{}") + ", len(" + sh + "." + n + "))\n",
        "\t\t\tfor k, v:= range " + sh + "." + n + " { \n",
        "\t\t\t\tf" + n + "[k], err = v.MarshalRQL()\n",
        "\t\t\t\tif err != nil {\n",
        "\t\t\t\treturn nil, err\n",
        "\t\t\t\t}\n",
        "\t\t\t}\n",
        StoreLine("\t\t\t", key, " = f" + n + "\n") ]
    case ContainerPlan(_, NoElems) => []
  }

  /** `getMarshalStr`: the encoding fragment for one field. */
  function GetMarshalStr(f: Field, s: Struct): string
    requires Dispatchable(f.dbType)
  {
    Concat(MarshalLines(f, s))
  }

  /** Every one of the fifteen kinds gets a non-empty encoding fragment. */
  lemma MarshalStrNonEmpty(f: Field, s: Struct)
    requires IsValidKind(f.dbType)
    ensures Dispatchable(f.dbType)
    ensures |MarshalLines(f, s)| >= 1
    ensures GetMarshalStr(f, s) != ""
  {
    PlanAgreesWithKind(f);
    var lines := MarshalLines(f, s);
    assert |lines| >= 1 && |lines[0]| > 0;
    ConcatNonEmpty(lines, 0);
  }

  /**
   * The encoding fragment stores its entry under the field's storage key and
   * no other: a scalar or nested field's fragment opens with the assignment
   * to `rqlgenTmp["<dbName>"]`, a container's fragment closes with it, and
   * only a container of an unrecognised element kind emits nothing.
   */
  lemma MarshalStoresUnderKey(f: Field, s: Struct)
    requires Dispatchable(f.dbType)
    ensures MarshalLines(f, s) == [] <==> PlanOf(f).ContainerPlan? && PlanOf(f).elems.NoElems?
    ensures !PlanOf(f).ContainerPlan? ==>
              StartsWith(GetMarshalStr(f, s), "\t" + StoreTarget(f.dbName))
    ensures var lines := MarshalLines(f, s);
      PlanOf(f).ContainerPlan? && lines != [] ==>
        StartsWith(lines[|lines| - 1], "\t\t\t" + StoreTarget(f.dbName))
  {
    var lines := MarshalLines(f, s);
    var sh, n, key := s.shortName, f.name, f.dbName;
    match PlanOf(f)
    case ScalarPlan(gType, direct) =>
      var rest := if direct then " = " + sh + "." + n + "\n" else " = " + gType + "(" + sh + "." + n + ")\n";
      assert lines == [StoreLine("\t", key, rest)];
      StartsWithAppend("\t" + StoreTarget(key), rest, "");
      StartsWithPrefix(lines[0], Concat(lines[1..]), "\t" + StoreTarget(key));
    case NestedPlan =>
      StartsWithAppend("\t" + StoreTarget(key), ", err = " + sh + "." + n + ".MarshalRQL()\n", "");
      StartsWithPrefix(lines[0], Concat(lines[1..]), "\t" + StoreTarget(key));
    case ContainerPlan(_, elems) =>
      if !elems.NoElems? {
        StartsWithAppend("\t\t\t" + StoreTarget(key), " = f" + n + "\n", "");
      }
  }

  /** A text that begins with a line beginning with `p` begins with `p`. */
  lemma StartsWithPrefix(a: string, b: string, p: string)
    requires StartsWith(a, p)
    ensures StartsWith(a + b, p)
  {
    assert (a + b)[..|p|] == a[..|p|];
  }

  /** The error return for a failed type assertion, with `tabs` of indentation. */
  function ConvertErrorLine(tabs: string, target: string, f: Field, s: Struct): string {
    tabs + "return genrqlerrors.New(\"Can't convert \"+reflect.TypeOf(genrql).String()+\" to " + target
      + " (" + s.name + "." + f.name + ")\")\n"
  }

  /** The lookup of the field's key that opens every decoding fragment. */
  function LookupLines(f: Field): seq<string> {
    [ LookupLine(f),
      "\tif ok {\n",
      "\t\tif genrql != nil {\n" ]
  }

  /** The check that a container value has the untyped shape `shape`. */
  function ShapeAssertLines(f: Field, shape: Shape): seq<string> {
    var target := ContainerType(shape, "interface{}");
    [ "\t\t\tf" + f.name + ",ok := genrql.(" + target + ")\n",
      "\t\t\tif !ok {\n",
      "\t\t\t\treturn genrqlerrors.New(\"Not converse interface{} to " + target + " |\"+reflect.TypeOf(genrql).String())\n",
      "\t\t\t}\n" ]
  }

  /** The element loop of a container field's decoding. */
  function ElemDecodeLines(f: Field, s: Struct, elems: ElemPlan): seq<string> {
    var sh := s.shortName;
    var n := f.name;
    match elems
    case ScalarElems(gType, true) =>
      [ "\t\t\tfor k, v:= range f" + n + " { \n",
        "\t\t\t\t" + sh + "." + n + "[k], ok = v.(" + gType + ")\n",
        "\t\t\t\tif !ok {\n",
        ConvertErrorLine("\t\t\t\t\t", gType, f, s),
        "\t\t\t\t}\n",
        "\t\t\t}\n" ]
    case ScalarElems(gType, false) =>
      [ "\t\t\tfor k, v:= range f" + n + " { \n",
        "\t\t\t\ttmp" + sh + n + ", ok = v.(" + gType + ")\n",
        "\t\t\t\tif !ok {\n",
        ConvertErrorLine("\t\t\t\t\t", gType, f, s),
        "\t\t\t\t}\n",
        "\t\t\t\t" + sh + "." + n + "[k] = " + f.goType + "(tmp" + sh + n + ")\n",
        "\t\t\t}\n" ]
    case NestedElems =>
      [ "\t\t\tfor k, v:= range f" + n + " { \n",
        "\t\t\t\terr = " + sh + "." + n + "[k].UnmarshalRQL(v)\n",
        "\t\t\t\tif err != nil {\n",
        "\t\t\t\t\t\treturn  err\n",
        "\t\t\t\t}\n",
        "\t\t\t}\n" ]
    case NoElems => []
  }

  /** The conversion of a present, non-nil value into the field. */
  function ConvertLines(f: Field, s: Struct): seq<string>
    requires Dispatchable(f.dbType)
  {
    var sh := s.shortName;
    var n := f.name;
    match PlanOf(f)
    case ScalarPlan(gType, true) =>
      [ "\t\t\t" + sh + "." + n + ", ok = genrql.(" + f.goType + ")\n",
        "\t\t\t\tif !ok {\n",
        ConvertErrorLine("\t\t\t\t", f.goType, f, s),
        "\t\t\t\t}\n" ]
    case ScalarPlan(gType, false) =>
      [ "\t\t\ttmp" + sh + n + ", ok := genrql.(" + gType + ")\n",
        "\t\t\t\tif !ok {\n",
        ConvertErrorLine("\t\t\t\t", gType, f, s),
        "\t\t\t\t}\n",
        "\t\t\t" + sh + "." + n + " = " + f.goType + "(tmp" + sh + n + ")\n" ]
    case NestedPlan =>
      [ "\t\t\terr = " + sh + "." + n + ".UnmarshalRQL(genrql)\n",
        "\t\t\tif err != nil {\n",
        "\t\t\t\treturn  err\n",
        "\t\t\t}\n" ]
    case ContainerPlan(shape, elems) =>
      ShapeAssertLines(f, shape)
      + [ "\t\t\t" + sh + "." + n + " = make(" + f.goType + ", len(f" + n + "))\n" ]
      + ElemDecodeLines(f, s, elems)
  }

  const ElseLine: string := "\t} else {\n"

  function NotFoundLine(key: string): string {
    "\t\treturn genrqlerrors.New(\"Not found field: " + key + "\")\n"
  }

  function MutateLine(s: Struct): string {
    "\t" + s.shortName + ".mutate()\n"
  }

  /** The opening of the lookup: the assignment from the untyped map. */
  function LookupLine(f: Field): string {
    "\tgenrql, ok = rqlgenTmp[\"" + f.dbName + "\"]\n"
  }

  /**
   * What follows the closing of the nil check: the report of a missing key
   * unless the field is `omidempty`, the closing of the presence check, and
   * the `mutate()` hook after the polymorphic field.
   */
  function CloseText(f: Field, s: Struct): string {
    (if f.omidempty then "" else ElseLine + NotFoundLine(f.dbName))
    + (if f.isPolymorphic then "\t}\n" + MutateLine(s) else "\t}\n")
  }

  /** The text of a decoding fragment before its `else` branch, around the conversion text `body`. */
  function DecodeHead(f: Field, body: string): string {
    Concat(LookupLines(f)) + body + "\t\t}\n"
  }

  /** A decoding fragment around the conversion text `body`. */
  function DecodeText(f: Field, s: Struct, body: string): string {
    DecodeHead(f, body) + CloseText(f, s)
  }

  /** `getUnmarshalStr`: the decoding fragment for one field of struct `s`. */
  function GetUnmarshalStr(f: Field, s: Struct): string
    requires Dispatchable(f.dbType)
  {
    DecodeText(f, s, Concat(ConvertLines(f, s)))
  }

  /** `suffix` is how `text` ends. */
  predicate EndsWith(text: string, suffix: string) {
    |suffix| <= |text| && text[|text| - |suffix|..] == suffix
  }

  /** `prefix` is how `text` begins. */
  predicate StartsWith(text: string, prefix: string) {
    |prefix| <= |text| && text[..|prefix|] == prefix
  }

  lemma StartsWithAppend(a: string, b: string, c: string)
    ensures StartsWith(a + b, a)
    ensures StartsWith(a + b + c, a)
  {
    assert (a + b)[..|a|] == a;
    assert (a + b + c)[..|a|] == a;
  }

  lemma EndsWithAppend(a: string, b: string, c: string)
    requires EndsWith(b, c)
    ensures EndsWith(a + b, c)
  {
    assert (a + b)[|a + b| - |c|..] == b[|b| - |c|..];
  }

  lemma DecodeTextEndsWithMutate(f: Field, s: Struct, body: string)
    ensures EndsWith(DecodeText(f, s, body), MutateLine(s)) <==> f.isPolymorphic
    ensures !f.isPolymorphic ==> EndsWith(DecodeText(f, s, body), "\t}\n")
  {
    var t := DecodeText(f, s, body);
    var m := MutateLine(s);
    var report := if f.omidempty then "" else ElseLine + NotFoundLine(f.dbName);
    var close := "\t}\n";
    if f.isPolymorphic {
      assert EndsWith(m, m);
      EndsWithAppend(close, m, m);
      EndsWithAppend(report, close + m, m);
      EndsWithAppend(DecodeHead(f, body), CloseText(f, s), m);
    } else {
      assert EndsWith(close, close);
      EndsWithAppend(report, close, close);
      EndsWithAppend(DecodeHead(f, body), CloseText(f, s), close);
      assert t[|t| - 2] == close[1];
      assert m[|m| - 2] == ')';
      assert !EndsWith(t, m);
    }
  }

  /**
   * The decoding fragment ends with the call of the `mutate()` hook exactly
   * when the field is the polymorphic one; otherwise it ends by closing the
   * presence check.
   */
  lemma UnmarshalEndsWithMutate(f: Field, s: Struct)
    requires Dispatchable(f.dbType)
    ensures EndsWith(GetUnmarshalStr(f, s), MutateLine(s)) <==> f.isPolymorphic
    ensures !f.isPolymorphic ==> EndsWith(GetUnmarshalStr(f, s), "\t}\n")
  {
    DecodeTextEndsWithMutate(f, s, Concat(ConvertLines(f, s)));
  }

  lemma DecodeTextRequiredIff(f: Field, s: Struct, body: string)
    ensures var t := DecodeText(f, s, body);
      var at := |DecodeHead(f, body)|;
      at <= |t| &&
      (StartsWith(t[at..], ElseLine) <==> !f.omidempty) &&
      (!f.omidempty ==> StartsWith(t[at..], ElseLine + NotFoundLine(f.dbName)))
  {
    var t := DecodeText(f, s, body);
    var rest := CloseText(f, s);
    assert t[|DecodeHead(f, body)|..] == rest;
    var tail := if f.isPolymorphic then "\t}\n" + MutateLine(s) else "\t}\n";
    if f.omidempty {
      assert rest == "" + tail;
      assert rest[2] == '\n';
      assert ElseLine[2] == ' ';
    } else {
      StartsWithAppend(ElseLine + NotFoundLine(f.dbName), tail, "");
      StartsWithAppend(ElseLine, NotFoundLine(f.dbName), tail);
    }
  }

  /**
   * A missing key is reported as an error exactly when the field is not
   * marked `omidempty`: right after the conversion and the closing of the
   * nil check comes the `else` branch holding that report, and otherwise
   * the presence check is closed right away.
   */
  lemma UnmarshalRequiredIff(f: Field, s: Struct)
    requires Dispatchable(f.dbType)
    ensures var t := GetUnmarshalStr(f, s);
      var at := |DecodeHead(f, Concat(ConvertLines(f, s)))|;
      at <= |t| &&
      (StartsWith(t[at..], ElseLine) <==> !f.omidempty) &&
      (!f.omidempty ==> StartsWith(t[at..], ElseLine + NotFoundLine(f.dbName)))
  {
    DecodeTextRequiredIff(f, s, Concat(ConvertLines(f, s)));
  }

  lemma DecodeTextStartsWithLookup(f: Field, s: Struct, body: string)
    ensures StartsWith(DecodeText(f, s, body), LookupLine(f))
  {
    var lines := LookupLines(f);
    assert Concat(lines) == LookupLine(f) + Concat(lines[1..]);
    StartsWithAppend(LookupLine(f), Concat(lines[1..]), body);
    var d := DecodeText(f, s, body);
    var h := Concat(lines) + body;
    assert h[..|LookupLine(f)|] == LookupLine(f);
    assert d[..|LookupLine(f)|] == h[..|LookupLine(f)|];
  }

  /** Every decoding fragment starts by looking up the field's key. */
  lemma UnmarshalStartsWithLookup(f: Field, s: Struct)
    requires Dispatchable(f.dbType)
    ensures StartsWith(GetUnmarshalStr(f, s), LookupLine(f))
  {
    DecodeTextStartsWithLookup(f, s, Concat(ConvertLines(f, s)));
  }
}
