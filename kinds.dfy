/**
 * The closed enumeration of storage kinds accepted in a `rqlgen:"..."`
 * annotation, the fixed table from scalar kind to Go runtime type, and
 * the `strings.Split` the generator uses to take a compound kind apart.
 */
module Kinds {
  import opened Wrappers

  /** The fifteen alternatives of the `rqlgen` annotation pattern, in the pattern's order. */
  const ValidKinds: seq<string> := [
    "number", "string", "time",
    "map_string", "map_number", "map_time", "map_bool", "map_rql",
    "array_string", "array_number", "array_time", "array_bool", "array_rql",
    "bool", "rql"
  ]

  predicate IsValidKind(s: string) {
    s in ValidKinds
  }

  /** `dbType2Runtime`: scalar storage kind to the Go type the tree holds. */
  const DbType2Runtime: map<string, string> := map[
    "string" := "string",
    "number" := "float64",
    "bool" := "bool",
    "time" := "time.Time"
  ]

  // ---------------------------------------------------------------------
  // The enumeration as a sum type
  // ---------------------------------------------------------------------

  datatype Scalar = StringKind | NumberKind | BoolKind | TimeKind
  datatype Shape = ArrayShape | MapShape
  datatype Elem = ScalarElem(scalar: Scalar) | RqlElem
  datatype Kind = ScalarKind(scalar: Scalar) | RqlKind | ContainerKind(shape: Shape, elem: Elem)

  function ScalarName(s: Scalar): string {
    match s
    case StringKind => "string"
    case NumberKind => "number"
    case BoolKind => "bool"
    case TimeKind => "time"
  }

  function ShapeName(s: Shape): string {
    match s
    case ArrayShape => "array"
    case MapShape => "map"
  }

  function ElemName(e: Elem): string {
    match e
    case ScalarElem(s) => ScalarName(s)
    case RqlElem => "rql"
  }

  /** The annotation text that denotes a kind. */
  function KindName(k: Kind): string {
    match k
    case ScalarKind(StringKind) => "string"
    case ScalarKind(NumberKind) => "number"
    case ScalarKind(BoolKind) => "bool"
    case ScalarKind(TimeKind) => "time"
    case RqlKind => "rql"
    case ContainerKind(ArrayShape, ScalarElem(StringKind)) => "array_string"
    case ContainerKind(ArrayShape, ScalarElem(NumberKind)) => "array_number"
    case ContainerKind(ArrayShape, ScalarElem(BoolKind)) => "array_bool"
    case ContainerKind(ArrayShape, ScalarElem(TimeKind)) => "array_time"
    case ContainerKind(ArrayShape, RqlElem) => "array_rql"
    case ContainerKind(MapShape, ScalarElem(StringKind)) => "map_string"
    case ContainerKind(MapShape, ScalarElem(NumberKind)) => "map_number"
    case ContainerKind(MapShape, ScalarElem(BoolKind)) => "map_bool"
    case ContainerKind(MapShape, ScalarElem(TimeKind)) => "map_time"
    case ContainerKind(MapShape, RqlElem) => "map_rql"
  }

  /** Reads an annotation value; `None` for anything outside the enumeration. */
  function ParseKind(s: string): (k: Option<Kind>)
    ensures k.Some? <==> IsValidKind(s)
    ensures k.Some? ==> KindName(k.value) == s
  {
    match s
    case "string" => Some(ScalarKind(StringKind))
    case "number" => Some(ScalarKind(NumberKind))
    case "bool" => Some(ScalarKind(BoolKind))
    case "time" => Some(ScalarKind(TimeKind))
    case "rql" => Some(RqlKind)
    case "array_string" => Some(ContainerKind(ArrayShape, ScalarElem(StringKind)))
    case "array_number" => Some(ContainerKind(ArrayShape, ScalarElem(NumberKind)))
    case "array_bool" => Some(ContainerKind(ArrayShape, ScalarElem(BoolKind)))
    case "array_time" => Some(ContainerKind(ArrayShape, ScalarElem(TimeKind)))
    case "array_rql" => Some(ContainerKind(ArrayShape, RqlElem))
    case "map_string" => Some(ContainerKind(MapShape, ScalarElem(StringKind)))
    case "map_number" => Some(ContainerKind(MapShape, ScalarElem(NumberKind)))
    case "map_bool" => Some(ContainerKind(MapShape, ScalarElem(BoolKind)))
    case "map_time" => Some(ContainerKind(MapShape, ScalarElem(TimeKind)))
    case "map_rql" => Some(ContainerKind(MapShape, RqlElem))
    case _ => None
  }

  lemma ParseArrayKindName(elem: Elem)
    ensures ParseKind(KindName(ContainerKind(ArrayShape, elem))) == Some(ContainerKind(ArrayShape, elem))
  {
    match elem
    case ScalarElem(_) =>
    case RqlElem =>
  }

  // One literal per proof keeps each string comparison small.
  lemma ParseMapString() ensures ParseKind("map_string") == Some(ContainerKind(MapShape, ScalarElem(StringKind))) {}
  lemma ParseMapNumber() ensures ParseKind("map_number") == Some(ContainerKind(MapShape, ScalarElem(NumberKind))) {}
  lemma ParseMapBool() ensures ParseKind("map_bool") == Some(ContainerKind(MapShape, ScalarElem(BoolKind))) {}
  lemma ParseMapTime() ensures ParseKind("map_time") == Some(ContainerKind(MapShape, ScalarElem(TimeKind))) {}

  lemma ParseMapScalarKindName(sc: Scalar)
    ensures ParseKind(KindName(ContainerKind(MapShape, ScalarElem(sc)))) == Some(ContainerKind(MapShape, ScalarElem(sc)))
  {
    match sc
    case StringKind => ParseMapString();
    case NumberKind => ParseMapNumber();
    case BoolKind => ParseMapBool();
    case TimeKind => ParseMapTime();
  }

  lemma ParseMapKindName(elem: Elem)
    ensures ParseKind(KindName(ContainerKind(MapShape, elem))) == Some(ContainerKind(MapShape, elem))
  {
    match elem
    case ScalarElem(sc) => ParseMapScalarKindName(sc);
    case RqlElem =>
  }

  /** Every kind is named by exactly one annotation value, and reads back as itself. */
  lemma ParseKindName(k: Kind)
    ensures ParseKind(KindName(k)) == Some(k)
    ensures IsValidKind(KindName(k))
  {
    match k
    case ScalarKind(_) =>
    case RqlKind =>
    case ContainerKind(ArrayShape, elem) => ParseArrayKindName(elem);
    case ContainerKind(MapShape, elem) => ParseMapKindName(elem);
  }

  lemma ArrayKindName(elem: Elem)
    ensures KindName(ContainerKind(ArrayShape, elem)) == "array" + "_" + ElemName(elem)
  {
    match elem
    case ScalarElem(_) =>
    case RqlElem =>
  }

  lemma MapKindName(elem: Elem)
    ensures KindName(ContainerKind(MapShape, elem)) == "map" + "_" + ElemName(elem)
  {
    match elem
    case ScalarElem(_) =>
    case RqlElem =>
  }

  /** A compound kind's name is its shape word and its element word joined by "_". */
  lemma ContainerKindName(shape: Shape, elem: Elem)
    ensures KindName(ContainerKind(shape, elem)) == ShapeName(shape) + "_" + ElemName(elem)
  {
    match shape
    case ArrayShape => ArrayKindName(elem);
    case MapShape => MapKindName(elem);
  }

  /** The Go runtime type a scalar kind is stored as. */
  function Runtime(s: Scalar): (t: string)
    ensures ScalarName(s) in DbType2Runtime && DbType2Runtime[ScalarName(s)] == t
  {
    DbType2Runtime[ScalarName(s)]
  }

  /** The table has exactly the four scalar kinds as keys, with their runtime types. */
  lemma RuntimeTable(s: string)
    ensures s in DbType2Runtime <==> exists sc: Scalar :: ScalarName(sc) == s
    ensures s in DbType2Runtime <==> IsValidKind(s) && ParseKind(s).value.ScalarKind?
  {
    if s in DbType2Runtime {
      var sc := match s
        case "string" => StringKind
        case "number" => NumberKind
        case "bool" => BoolKind
        case _ => TimeKind;
      assert ScalarName(sc) == s;
    }
  }

  /**
   * A container of this scalar keeps its elements verbatim exactly when the
   * runtime type is spelled like the kind: string and bool, not number or time.
   */
  lemma VerbatimScalars(s: Scalar)
    ensures Runtime(s) == ScalarName(s) <==> s == StringKind || s == BoolKind
  {
  }

  // ---------------------------------------------------------------------
  // strings.Split with a one-character separator
  // ---------------------------------------------------------------------

  /** Glues parts back together with the separator between neighbours. */
  function Join(parts: seq<string>, sep: char): string
    requires |parts| >= 1
  {
    if |parts| == 1 then parts[0] else parts[0] + [sep] + Join(parts[1..], sep)
  }

  /**
   * `strings.Split(s, string(sep))`: the pieces between separators, never
   * an empty list (splitting "" gives [""]).
   */
  function Split(s: string, sep: char): (parts: seq<string>)
    ensures |parts| >= 1
    decreases |s|
  {
    if |s| == 0 then [""]
    else
      var rest := Split(s[1..], sep);
      if s[0] == sep then [""] + rest
      else [[s[0]] + rest[0]] + rest[1..]
  }

  /** The pieces hold no separator, and joining them gives back the string. */
  lemma {:induction false} SplitJoin(s: string, sep: char)
    ensures forall i :: 0 <= i < |Split(s, sep)| ==> sep !in Split(s, sep)[i]
    ensures Join(Split(s, sep), sep) == s
    decreases |s|
  {
    if |s| > 0 {
      SplitJoin(s[1..], sep);
      var rest := Split(s[1..], sep);
      assert s == [s[0]] + s[1..];
      if s[0] == sep {
        assert Split(s, sep) == [""] + rest;
        assert ([""] + rest)[1..] == rest;
      } else {
        var parts := [[s[0]] + rest[0]] + rest[1..];
        assert Split(s, sep) == parts;
        assert parts[1..] == rest[1..];
        if |rest| > 1 {
          assert Join(rest, sep) == rest[0] + [sep] + Join(rest[1..], sep);
        }
      }
    }
  }

  /** A string with no separator is its own single piece. */
  lemma {:induction false} SplitNoSep(s: string, sep: char)
    requires sep !in s
    ensures Split(s, sep) == [s]
    decreases |s|
  {
    if |s| > 0 {
      SplitNoSep(s[1..], sep);
      assert [s[0]] + s[1..] == s;
    }
  }

  /** Exactly one separator between two separator-free words splits into those two words. */
  lemma {:induction false} SplitTwo(a: string, b: string, sep: char)
    requires sep !in a && sep !in b
    ensures Split(a + [sep] + b, sep) == [a, b]
    decreases |a|
  {
    var s := a + [sep] + b;
    if |a| == 0 {
      assert s[1..] == b;
      SplitNoSep(b, sep);
    } else {
      assert s[1..] == a[1..] + [sep] + b;
      SplitTwo(a[1..], b, sep);
      assert [a[0]] + a[1..] == a;
    }
  }

  /** More than one piece exactly when the separator occurs. */
  lemma SplitCount(s: string, sep: char)
    ensures |Split(s, sep)| >= 2 <==> sep in s
  {
    if sep !in s {
      SplitNoSep(s, sep);
    } else {
      SplitJoin(s, sep);
    }
  }

  /**
   * Every valid kind that is neither scalar nor `rql` splits on "_" into
   * exactly its shape word and its element word.
   */
  lemma SplitContainerKind(shape: Shape, elem: Elem)
    ensures Split(KindName(ContainerKind(shape, elem)), '_') == [ShapeName(shape), ElemName(elem)]
  {
    ContainerKindName(shape, elem);
    SplitTwo(ShapeName(shape), ElemName(elem), '_');
  }
}
