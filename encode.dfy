/**
 * What the generated `MarshalRQL` does when it runs: the meaning of the
 * fragments `getMarshalStr` emits, read off the same per-field plan that
 * selects their text.
 */
module Encoding {
  import opened Wrappers
  import opened Kinds
  import opened Model
  import opened FieldGen
  import opened Values

  /** A record's Go fields by name; a field the map does not list holds nil. */
  type Record = map<string, Value>

  function Get(rec: Record, name: string): (v: Value)
    ensures name !in rec ==> v == Nil
  {
    if name in rec then rec[name] else Nil
  }

  /** The error of an element that does not convert to the storage kind. */
  function ElemError(f: Field, s: Struct): string {
    "Can't convert " + f.goType + " to " + f.dbType + " (" + s.name + "." + f.name + ")"
  }

  /** The conversion each element of a container of scalars goes through. */
  function ScalarElemConv(f: Field, s: Struct, verbatim: bool, env: Env): Value -> Result<Value, string> {
    (x: Value) =>
      if verbatim then Ok(x)
      else match env.checkedConvert(f.goType, x)
        case Some(y) => Ok(y)
        case None => Err(ElemError(f, s))
  }

  /** The field's kind selects a fragment that stores an entry: every kind but a container of an unrecognised element. */
  predicate StoresEntry(f: Field)
    requires Dispatchable(f.dbType)
  {
    !PlanOf(f).ContainerPlan? || !PlanOf(f).elems.NoElems?
  }

  /** Every one of the fifteen kinds stores an entry. */
  lemma ValidKindStores(f: Field)
    requires IsValidKind(f.dbType)
    ensures Dispatchable(f.dbType) && StoresEntry(f)
  {
    PlanAgreesWithKind(f);
  }

  /**
   * The value a field's fragment stores under the field's key, converted
   * from the field's value `v`, or the error that makes `MarshalRQL` return.
   */
  ghost function EncodeValue(f: Field, s: Struct, v: Value, env: Env): (r: Result<Value, string>)
    requires Dispatchable(f.dbType) && StoresEntry(f)
    ensures r.Err? ==> PlanOf(f).NestedPlan? || PlanOf(f).ContainerPlan?
    ensures r.Ok? && PlanOf(f).ContainerPlan? ==> IsShape(PlanOf(f).shape, r.value)
  {
    match PlanOf(f)
    case ScalarPlan(gType, direct) => Ok(if direct then v else env.convert(gType, v))
    case NestedPlan => env.marshal(v)
    case ContainerPlan(shape, ScalarElems(_, verbatim)) => ConvertContainer(shape, v, ScalarElemConv(f, s, verbatim, env))
    case ContainerPlan(shape, NestedElems) => ConvertContainer(shape, v, env.marshal)
  }

  /**
   * One field's fragment run on the map `acc` built so far. A kind the
   * dispatch does not recognise emits no fragment, and so stores nothing.
   */
  ghost function EncodeStep(f: Field, s: Struct, rec: Record, acc: map<string, Value>, env: Env): (r: Result<map<string, Value>, string>)
    requires Dispatchable(f.dbType)
    ensures r.Ok? && StoresEntry(f) ==> r.value.Keys == acc.Keys + {f.dbName}
    ensures r.Ok? && !StoresEntry(f) ==> r.value == acc
    ensures r.Ok? ==> forall k <- acc.Keys :: k != f.dbName ==> k in r.value && r.value[k] == acc[k]
  {
    if !StoresEntry(f) then Ok(acc)
    else
      match EncodeValue(f, s, Get(rec, f.name), env)
      case Ok(t) => Ok(acc[f.dbName := t])
      case Err(e) => Err(e)
  }

  /** The field fragments in order, each adding to `rqlgenTmp`; the first error ends the method. */
  ghost function EncodeFields(fields: seq<Field>, s: Struct, rec: Record, acc: map<string, Value>, env: Env): Result<map<string, Value>, string>
    requires forall f <- fields :: Dispatchable(f.dbType)
  {
    if fields == [] then Ok(acc)
    else
      match EncodeStep(fields[0], s, rec, acc, env)
      case Err(e) => Err(e)
      case Ok(acc') => EncodeFields(fields[1..], s, rec, acc', env)
  }

  /**
   * The generated `MarshalRQL` on receiver `recv` (`None` for a nil
   * pointer): nil without error for a nil receiver, and otherwise the map
   * the field fragments fill, or the first error.
   */
  ghost function MarshalRQL(recv: Option<Record>, s: Struct, env: Env): (r: Result<Value, string>)
    requires forall f <- s.fields :: Dispatchable(f.dbType)
    ensures recv.None? ==> r == Ok(Nil)
    ensures recv.Some? && r.Ok? ==> r.value.Obj?
  {
    if recv.None? then Ok(Nil)
    else
      match EncodeFields(s.fields, s, recv.value, map[], env)
      case Ok(m) => Ok(Obj(m))
      case Err(e) => Err(e)
  }

  /** Encoding a run of fields is encoding its first part, then the rest from where that left off. */
  lemma {:induction false} EncodeFieldsAppend(xs: seq<Field>, ys: seq<Field>, s: Struct, rec: Record, acc: map<string, Value>, env: Env)
    requires forall f <- xs + ys :: Dispatchable(f.dbType)
    ensures EncodeFields(xs + ys, s, rec, acc, env) ==
      match EncodeFields(xs, s, rec, acc, env)
      case Err(e) => Err(e)
      case Ok(m) => EncodeFields(ys, s, rec, m, env)
  {
    if xs == [] {
      assert xs + ys == ys;
    } else {
      assert (xs + ys)[0] == xs[0] && (xs + ys)[1..] == xs[1..] + ys;
      match EncodeStep(xs[0], s, rec, acc, env)
      case Err(e) =>
      case Ok(acc') => EncodeFieldsAppend(xs[1..], ys, s, rec, acc', env);
    }
  }

  /**
   * The first field whose fragment fails decides the result: `MarshalRQL`
   * returns that error and no later field is looked at.
   */
  lemma EncodeFailsAt(fields: seq<Field>, i: nat, s: Struct, rec: Record, acc: map<string, Value>, env: Env)
    requires forall f <- fields :: Dispatchable(f.dbType)
    requires i < |fields|
    requires EncodeFields(fields[..i], s, rec, acc, env).Ok?
    requires EncodeStep(fields[i], s, rec, EncodeFields(fields[..i], s, rec, acc, env).value, env).Err?
    ensures EncodeFields(fields, s, rec, acc, env) ==
              EncodeStep(fields[i], s, rec, EncodeFields(fields[..i], s, rec, acc, env).value, env)
  {
    assert fields == fields[..i] + fields[i..];
    EncodeFieldsAppend(fields[..i], fields[i..], s, rec, acc, env);
    assert fields[i..][0] == fields[i];
  }

  /** Every field stores one entry under its key; nothing else is added. */
  lemma {:induction false} EncodeKeys(fields: seq<Field>, s: Struct, rec: Record, acc: map<string, Value>, env: Env)
    requires forall f <- fields :: Dispatchable(f.dbType) && StoresEntry(f)
    ensures EncodeFields(fields, s, rec, acc, env).Ok? ==>
              EncodeFields(fields, s, rec, acc, env).value.Keys == acc.Keys + set f <- fields :: f.dbName
  {
    if fields != [] {
      var f := fields[0];
      var r := EncodeStep(f, s, rec, acc, env);
      if r.Ok? {
        EncodeKeys(fields[1..], s, rec, r.value, env);
        assert fields == [f] + fields[1..];
        assert (set g <- fields :: g.dbName) == {f.dbName} + set g <- fields[1..] :: g.dbName;
      }
    }
  }

  /** With distinct keys, the entry of field `i` is the value its own fragment stored: no other field overwrites it. */
  lemma {:induction false} EncodeStores(fields: seq<Field>, i: nat, s: Struct, rec: Record, acc: map<string, Value>, env: Env)
    requires forall f <- fields :: Dispatchable(f.dbType)
    requires i < |fields| && StoresEntry(fields[i])
    requires forall a, b :: 0 <= a < b < |fields| ==> fields[a].dbName != fields[b].dbName
    requires EncodeFields(fields, s, rec, acc, env).Ok?
    ensures EncodeValue(fields[i], s, Get(rec, fields[i].name), env).Ok?
    ensures fields[i].dbName in EncodeFields(fields, s, rec, acc, env).value
    ensures EncodeFields(fields, s, rec, acc, env).value[fields[i].dbName] ==
              EncodeValue(fields[i], s, Get(rec, fields[i].name), env).value
  {
    var r := EncodeStep(fields[0], s, rec, acc, env);
    if i == 0 {
      EncodeKeeps(fields[1..], fields[0].dbName, s, rec, r.value, env);
    } else {
      EncodeStores(fields[1..], i - 1, s, rec, r.value, env);
    }
  }

  /** Fields with other keys leave an entry as it is. */
  lemma {:induction false} EncodeKeeps(fields: seq<Field>, key: string, s: Struct, rec: Record, acc: map<string, Value>, env: Env)
    requires forall f <- fields :: Dispatchable(f.dbType) && f.dbName != key
    requires key in acc
    requires EncodeFields(fields, s, rec, acc, env).Ok?
    ensures key in EncodeFields(fields, s, rec, acc, env).value
    ensures EncodeFields(fields, s, rec, acc, env).value[key] == acc[key]
  {
    if fields != [] {
      var r := EncodeStep(fields[0], s, rec, acc, env);
      EncodeKeeps(fields[1..], key, s, rec, r.value, env);
    }
  }

  /**
   * A field of a scalar kind is stored unchanged when its Go type is the
   * kind's runtime type, and converted to the runtime type otherwise.
   */
  lemma EncodeScalar(f: Field, s: Struct, sc: Scalar, v: Value, env: Env)
    requires f.dbType == ScalarName(sc)
    ensures Dispatchable(f.dbType) && StoresEntry(f)
    ensures f.goType == Runtime(sc) ==> EncodeValue(f, s, v, env) == Ok(v)
    ensures f.goType != Runtime(sc) ==> EncodeValue(f, s, v, env) == Ok(env.convert(Runtime(sc), v))
  {
    assert KindName(ScalarKind(sc)) == f.dbType;
    ParseKindName(ScalarKind(sc));
    PlanAgreesWithKind(f);
  }

  /** A container of scalars runs the element loop, copying or converting as the kind's runtime type says. */
  lemma EncodeScalarContainer(f: Field, s: Struct, shape: Shape, sc: Scalar, v: Value, env: Env)
    requires f.dbType == KindName(ContainerKind(shape, ScalarElem(sc)))
    ensures Dispatchable(f.dbType) && StoresEntry(f)
    ensures EncodeValue(f, s, v, env) == ConvertContainer(shape, v, ScalarElemConv(f, s, Runtime(sc) == ScalarName(sc), env))
  {
    ContainerPlanAgrees(f, shape, ScalarElem(sc));
  }

  /**
   * A container of `string` or `bool` elements is copied element by
   * element without conversion, so the stored value is the field's own.
   */
  lemma EncodeVerbatimContainer(f: Field, s: Struct, shape: Shape, sc: Scalar, v: Value, env: Env)
    requires f.dbType == KindName(ContainerKind(shape, ScalarElem(sc)))
    requires sc == StringKind || sc == BoolKind
    requires IsShape(shape, v)
    ensures Dispatchable(f.dbType) && StoresEntry(f)
    ensures EncodeValue(f, s, v, env) == Ok(v)
  {
    EncodeScalarContainer(f, s, shape, sc, v, env);
    VerbatimScalars(sc);
    CopyContainer(shape, v, ScalarElemConv(f, s, true, env));
  }

  /**
   * A container of `number` or `time` elements converts each element to
   * the field's Go type; whichever element fails, the error is the same
   * message naming the Go type, the kind, the struct and the field.
   */
  lemma EncodeConvertedContainer(f: Field, s: Struct, shape: Shape, sc: Scalar, v: Value, env: Env)
    requires f.dbType == KindName(ContainerKind(shape, ScalarElem(sc)))
    requires sc == NumberKind || sc == TimeKind
    ensures Dispatchable(f.dbType) && StoresEntry(f)
    ensures EncodeValue(f, s, v, env).Err? ==> EncodeValue(f, s, v, env).error == ElemError(f, s)
    ensures v.Arr? && shape == ArrayShape ==>
              (EncodeValue(f, s, v, env).Ok? <==> forall x <- v.items :: env.checkedConvert(f.goType, x).Some?)
  {
    EncodeScalarContainer(f, s, shape, sc, v, env);
    VerbatimScalars(sc);
    var conv := ScalarElemConv(f, s, false, env);
    ConvertContainerError(shape, v, conv, ElemError(f, s));
    if v.Arr? {
      ConvertSeqOkIff(v.items, conv);
    }
  }

  /**
   * A container of nested records marshals each element in turn; an
   * array stops at the first element whose `MarshalRQL` fails and returns
   * that element's error.
   */
  lemma EncodeNestedArray(f: Field, s: Struct, xs: seq<Value>, env: Env)
    requires f.dbType == "array_rql"
    ensures Dispatchable(f.dbType) && StoresEntry(f)
    ensures var r := EncodeValue(f, s, Arr(xs), env);
      && (r.Ok? ==> r.value.Arr? && |r.value.items| == |xs| &&
                    forall i :: 0 <= i < |xs| ==> env.marshal(xs[i]) == Ok(r.value.items[i]))
      && (r.Err? ==> exists i :: 0 <= i < |xs| && env.marshal(xs[i]) == Err(r.error) &&
                      forall j :: 0 <= j < i ==> env.marshal(xs[j]).Ok?)
  {
    assert KindName(ContainerKind(ArrayShape, RqlElem)) == f.dbType;
    ContainerPlanAgrees(f, ArrayShape, RqlElem);
  }

  /** A nested record is stored as what its own `MarshalRQL` returns, and its error is returned as is. */
  lemma EncodeNested(f: Field, s: Struct, v: Value, env: Env)
    requires f.dbType == "rql"
    ensures Dispatchable(f.dbType) && StoresEntry(f)
    ensures EncodeValue(f, s, v, env) == env.marshal(v)
  {
    assert "rql" !in DbType2Runtime;
  }
}
