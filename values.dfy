/**
 * The untyped `interface{}` trees the generated codec exchanges with the
 * database driver, and the behaviour of the code the generated methods
 * call into, taken as parameters.
 */
module Values {
  import opened Wrappers
  import opened Kinds

  /**
   * A value behind an `interface{}`: nil, one of the four runtime scalar
   * types, a `[]interface{}`, a `map[string]interface{}`, or a value of
   * some other dynamic type, known by its type name.
   */
  datatype Value =
    | Nil
    | Str(text: string)
    | Num(x: real)
    | Bool(b: bool)
    | Time(instant: int)
    | Arr(items: seq<Value>)
    | Obj(entries: map<string, Value>)
    | Other(typeName: string)

  /** `reflect.TypeOf(v).String()` of a non-nil value. */
  function TypeName(v: Value): (t: string)
    requires !v.Nil?
    ensures v.Arr? ==> t == "[]interface {}"
    ensures v.Obj? ==> t == "map[string]interface {}"
  {
    match v
    case Str(_) => "string"
    case Num(_) => "float64"
    case Bool(_) => "bool"
    case Time(_) => "time.Time"
    case Arr(_) => "[]interface {}"
    case Obj(_) => "map[string]interface {}"
    case Other(t) => t
  }

  /** The type assertion `v.(t)` succeeds. */
  predicate HasType(v: Value, t: string) {
    !v.Nil? && TypeName(v) == t
  }

  /** The runtime type of each scalar kind is the dynamic type of exactly one kind of value. */
  lemma HasRuntimeType(sc: Scalar, v: Value)
    requires !v.Other?
    ensures HasType(v, Runtime(sc)) <==>
      match sc
      case StringKind => v.Str?
      case NumberKind => v.Num?
      case BoolKind => v.Bool?
      case TimeKind => v.Time?
  {
  }

  /**
   * The zero value of a type, which `make` puts in a fresh slice and a
   * failed `x, ok = v.(T)` leaves in `x`: typed zeros for the four runtime
   * scalar types, and `Nil` for every other type.
   */
  function ZeroOf(t: string): (z: Value)
    ensures t in {"string", "float64", "bool", "time.Time"} ==> HasType(z, t)
  {
    if t == "string" then Str("")
    else if t == "float64" then Num(0.0)
    else if t == "bool" then Bool(false)
    else if t == "time.Time" then Time(0)
    else Nil
  }

  /** The result of a nested record's `UnmarshalRQL`: the record's value afterwards, and the error it returned. */
  datatype Decoded = Decoded(value: Value, err: Option<string>)

  /**
   * What lies outside the generated code: Go's conversion `T(v)`, the
   * conversion with an ok flag that the emitted element loops expect, the
   * codec methods of nested records, and the record's own `mutate()`
   * method, which takes the record's fields by name to what they hold
   * afterwards.
   */
  datatype Env = Env(
    convert: (string, Value) -> Value,
    checkedConvert: (string, Value) -> Option<Value>,
    marshal: Value -> Result<Value, string>,
    unmarshal: (Value, Value) -> Decoded,
    mutate: map<string, Value> -> map<string, Value>)

  /**
   * `for k, v := range xs` with a conversion of each element that may
   * fail: the converted elements in order, or the error of the first
   * element that does not convert.
   */
  function ConvertSeq(xs: seq<Value>, conv: Value -> Result<Value, string>): (r: Result<seq<Value>, string>)
    ensures r.Ok? ==> |r.value| == |xs| && forall i :: 0 <= i < |xs| ==> conv(xs[i]) == Ok(r.value[i])
    ensures r.Err? ==> exists i :: 0 <= i < |xs| && conv(xs[i]) == Err(r.error) && forall j :: 0 <= j < i ==> conv(xs[j]).Ok?
  {
    if xs == [] then Ok([])
    else
      match conv(xs[0])
      case Err(e) => Err(e)
      case Ok(y) =>
        match ConvertSeq(xs[1..], conv)
        case Err(e) => Err(e)
        case Ok(ys) => Ok([y] + ys)
  }

  /**
   * The same loop over a map. Go leaves the iteration order open, so when
   * several entries fail to convert the error is that of one of them.
   */
  ghost function ConvertMap(m: map<string, Value>, conv: Value -> Result<Value, string>): (r: Result<map<string, Value>, string>)
    ensures r.Ok? <==> forall k <- m.Keys :: conv(m[k]).Ok?
    ensures r.Ok? ==> r.value.Keys == m.Keys && forall k <- m.Keys :: conv(m[k]) == Ok(r.value[k])
    ensures r.Err? ==> exists k <- m.Keys :: conv(m[k]) == Err(r.error)
  {
    if forall k <- m.Keys :: conv(m[k]).Ok? then
      Ok(map k <- m.Keys :: conv(m[k]).value)
    else
      var k :| k in m.Keys && conv(m[k]).Err?;
      Err(conv(m[k]).error)
  }

  /** The value has the untyped container shape `shape`. */
  predicate IsShape(shape: Shape, v: Value) {
    match shape
    case ArrayShape => v.Arr?
    case MapShape => v.Obj?
  }

  /**
   * A fresh container of the given shape holding the converted elements of
   * `v`; ranging over a value of the other shape (a nil container in the
   * typed record) sees no element.
   */
  ghost function ConvertContainer(shape: Shape, v: Value, conv: Value -> Result<Value, string>): (r: Result<Value, string>)
    ensures r.Ok? ==> IsShape(shape, r.value)
    ensures r.Ok? && IsShape(shape, v) && v.Arr? ==> |r.value.items| == |v.items|
    ensures r.Ok? && IsShape(shape, v) && v.Obj? ==> r.value.entries.Keys == v.entries.Keys
  {
    match shape
    case ArrayShape =>
      var xs := if v.Arr? then v.items else [];
      (match ConvertSeq(xs, conv)
       case Ok(ys) => Ok(Arr(ys))
       case Err(e) => Err(e))
    case MapShape =>
      var m := if v.Obj? then v.entries else map[];
      (match ConvertMap(m, conv)
       case Ok(m') => Ok(Obj(m'))
       case Err(e) => Err(e))
  }

  /**
   * The element type named by a slice or map type: what follows `[]` or
   * `map[string]`, and "" for any other type name.
   */
  function ElemTypeOf(goType: string): string {
    if |goType| >= 2 && goType[..2] == "[]" then goType[2..]
    else if |goType| >= 11 && goType[..11] == "map[string]" then goType[11..]
    else ""
  }

  /**
   * The destination of an element loop over a sequence that stopped at a
   * failing element: the elements before it converted, the failing slot
   * holding what the failed statement wrote there (`onFail`, or nothing),
   * and the rest still the zero element `make` put there.
   */
  function PartialSeq(xs: seq<Value>, conv: Value -> Result<Value, string>, zero: Value, onFail: Value -> Option<Value>): (ys: seq<Value>)
    ensures |ys| == |xs|
    ensures forall i :: 0 <= i < |xs| && (forall j :: 0 <= j <= i ==> conv(xs[j]).Ok?) ==> ys[i] == conv(xs[i]).value
    ensures forall i :: 0 <= i < |xs| && conv(xs[i]).Err? && (forall j :: 0 <= j < i ==> conv(xs[j]).Ok?) ==>
              ys[i] == (if onFail(xs[i]).Some? then onFail(xs[i]).value else zero)
    ensures forall i, j :: 0 <= i < j < |xs| && conv(xs[i]).Err? ==> ys[j] == zero
  {
    if xs == [] then []
    else
      match conv(xs[0])
      case Err(_) =>
        [if onFail(xs[0]).Some? then onFail(xs[0]).value else zero] + seq(|xs| - 1, _ => zero)
      case Ok(y) =>
        var rest := PartialSeq(xs[1..], conv, zero, onFail);
        assert forall i :: 1 <= i < |xs| ==> xs[i] == xs[1..][i - 1];
        [y] + rest
  }

  /**
   * `r` is what an element loop over `m` can leave in a fresh map when it
   * stops at a failing entry: converted entries for some of the keys, and,
   * when the failed statement writes its target (`onFail`), that value
   * under exactly one failing key.
   */
  ghost predicate StoppedMap(m: map<string, Value>, conv: Value -> Result<Value, string>, onFail: Value -> Option<Value>, r: map<string, Value>) {
    && r.Keys <= m.Keys
    && (forall k <- r.Keys :: conv(m[k]).Ok? ==> conv(m[k]) == Ok(r[k]))
    && (forall k <- r.Keys :: conv(m[k]).Err? ==> onFail(m[k]) == Some(r[k]))
    && (forall k, j :: k in r.Keys && j in r.Keys && conv(m[k]).Err? && conv(m[j]).Err? ==> k == j)
    && ((exists k <- m.Keys :: conv(m[k]).Err? && onFail(m[k]).Some?) ==> exists k <- r.Keys :: conv(m[k]).Err?)
  }

  /**
   * The destination of an element loop over a map that stopped at a
   * failing entry; the entries visited before it, in an order Go leaves
   * open, are converted.
   */
  ghost function PartialMap(m: map<string, Value>, conv: Value -> Result<Value, string>, onFail: Value -> Option<Value>): (r: map<string, Value>)
    requires exists k <- m.Keys :: conv(m[k]).Err?
    ensures StoppedMap(m, conv, onFail, r)
  {
    var w: map<string, Value> :=
      if exists k <- m.Keys :: conv(m[k]).Err? && onFail(m[k]).Some? then
        var k :| k in m.Keys && conv(m[k]).Err? && onFail(m[k]).Some?;
        map[k := onFail(m[k]).value]
      else map[];
    assert StoppedMap(m, conv, onFail, w);
    var r :| StoppedMap(m, conv, onFail, r);
    r
  }

  /** The freshly made container of the given shape as an element loop that failed left it. */
  ghost function PartialContainer(shape: Shape, v: Value, conv: Value -> Result<Value, string>, zero: Value, onFail: Value -> Option<Value>): (r: Value)
    requires IsShape(shape, v) && ConvertContainer(shape, v, conv).Err?
    ensures IsShape(shape, r)
    ensures v.Arr? ==> |r.items| == |v.items|
    ensures v.Obj? ==> StoppedMap(v.entries, conv, onFail, r.entries)
  {
    match shape
    case ArrayShape => Arr(PartialSeq(v.items, conv, zero, onFail))
    case MapShape => Obj(PartialMap(v.entries, conv, onFail))
  }

  /** Copying elements unchanged gives back the elements themselves. */
  lemma {:induction false} ConvertSeqIdentity(xs: seq<Value>, conv: Value -> Result<Value, string>)
    requires forall x :: conv(x) == Ok(x)
    ensures ConvertSeq(xs, conv) == Ok(xs)
  {
    if xs != [] {
      ConvertSeqIdentity(xs[1..], conv);
      assert [xs[0]] + xs[1..] == xs;
    }
  }

  /** A container of the right shape copied element by element without conversion is unchanged. */
  lemma CopyContainer(shape: Shape, v: Value, conv: Value -> Result<Value, string>)
    requires forall x :: conv(x) == Ok(x)
    requires IsShape(shape, v)
    ensures ConvertContainer(shape, v, conv) == Ok(v)
  {
    if v.Arr? {
      ConvertSeqIdentity(v.items, conv);
    } else {
      var r := ConvertMap(v.entries, conv);
      assert r.value == v.entries;
    }
  }

  /** The loop over a sequence gets through exactly when every element converts. */
  lemma ConvertSeqOkIff(xs: seq<Value>, conv: Value -> Result<Value, string>)
    ensures ConvertSeq(xs, conv).Ok? <==> forall x <- xs :: conv(x).Ok?
  {
    var r := ConvertSeq(xs, conv);
    if r.Ok? {
      forall x <- xs ensures conv(x).Ok? {
        var i :| 0 <= i < |xs| && xs[i] == x;
      }
    }
  }

  /** When every failing element fails with the same error, that is the loop's error whatever the order. */
  lemma ConvertContainerError(shape: Shape, v: Value, conv: Value -> Result<Value, string>, e: string)
    requires forall x :: conv(x).Err? ==> conv(x).error == e
    ensures ConvertContainer(shape, v, conv).Err? ==> ConvertContainer(shape, v, conv).error == e
  {
  }
}
