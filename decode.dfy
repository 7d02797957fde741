/**
 * What the generated `UnmarshalRQL` does when it runs: the meaning of the
 * fragments `getUnmarshalStr` emits, read off the same per-field plan and
 * flags that select their text.
 */
module Decoding {
  import opened Wrappers
  import opened Kinds
  import opened Model
  import opened FieldGen
  import opened Values
  import opened Encoding

  /** What a run of decoding fragments did, in order: a field got its value, or the `mutate()` hook ran. */
  datatype Event = Assigned(name: string) | Mutated

  /** The record after a run of fragments, what happened, and the error that ended the method, if any. */
  datatype Outcome = Outcome(rec: Record, events: seq<Event>, err: Option<string>)

  function ConvertError(actual: string, target: string, f: Field, s: Struct): string {
    "Can't convert " + actual + " to " + target + " (" + s.name + "." + f.name + ")"
  }

  function NotConverseError(target: string, actual: string): string {
    "Not converse interface{} to " + target + " |" + actual
  }

  function NotFoundError(key: string): string {
    "Not found field: " + key
  }

  /** What `make(T, len(x))` gives before any element is copied in, `zero` being the zero element of `T`. */
  function Fresh(shape: Shape, v: Value, zero: Value): Value {
    match shape
    case ArrayShape => Arr(seq(if v.Arr? then |v.items| else 0, _ => zero))
    case MapShape => Obj(map[])
  }

  /** The zero element of a container field's declared type. */
  function ElemZero(f: Field): Value {
    ZeroOf(ElemTypeOf(f.goType))
  }

  /** The element conversion of a container of scalars; its error names the type of the whole container value `whole`. */
  function ScalarElemDecode(f: Field, s: Struct, gType: string, verbatim: bool, whole: Value, env: Env): Value -> Result<Value, string>
    requires !whole.Nil?
  {
    (x: Value) =>
      if !HasType(x, gType) then Err(ConvertError(TypeName(whole), gType, f, s))
      else if verbatim then Ok(x)
      else Ok(env.convert(f.goType, x))
  }

  /**
   * What a failed element statement of a container of scalars writes: the
   * assertion straight into the element (`verbatim`) writes the zero value
   * of the asserted type; the assertion into a temporary writes nothing.
   */
  function ScalarElemFail(gType: string, verbatim: bool): Value -> Option<Value> {
    (x: Value) => if verbatim then Some(ZeroOf(gType)) else None
  }

  /** The element decoding of a container of nested records: each element's own `UnmarshalRQL`, on the zero element. */
  function NestedElemDecode(zero: Value, env: Env): Value -> Result<Value, string> {
    (x: Value) =>
      var d := env.unmarshal(zero, x);
      if d.err.Some? then Err(d.err.value) else Ok(d.value)
  }

  /** A nested element whose `UnmarshalRQL` fails keeps what that call left in it. */
  function NestedElemFail(zero: Value, env: Env): Value -> Option<Value> {
    (x: Value) => Some(env.unmarshal(zero, x).value)
  }

  /**
   * The conversion part of a decoding fragment, run on a present, non-nil
   * value `v` with the field holding `current`: the field's value
   * afterwards and the error, if any. A failed assertion straight into the
   * field leaves its zero value there; a failed assertion into a temporary
   * leaves the field as it was. A container field is replaced by a fresh
   * container before its element loop, so an element that fails leaves
   * that container partly filled. The elements of a `map_rql` field are
   * decoded through `x.F[k]`, a map element that cannot be updated in
   * place: each call decodes into a record of its own, and the field keeps
   * the empty map.
   */
  ghost function DecodeValue(f: Field, s: Struct, v: Value, current: Value, env: Env): (r: Decoded)
    requires Dispatchable(f.dbType) && !v.Nil?
    ensures PlanOf(f).ScalarPlan? ==> (r.err.None? <==> HasType(v, PlanOf(f).gType))
    ensures PlanOf(f).ContainerPlan? && !IsShape(PlanOf(f).shape, v) ==>
              r == Decoded(current, Some(NotConverseError(ContainerType(PlanOf(f).shape, "interface{}"), TypeName(v))))
  {
    match PlanOf(f)
    case ScalarPlan(gType, true) =>
      if HasType(v, f.goType) then Decoded(v, None)
      else Decoded(ZeroOf(f.goType), Some(ConvertError(TypeName(v), f.goType, f, s)))
    case ScalarPlan(gType, false) =>
      if HasType(v, gType) then Decoded(env.convert(f.goType, v), None)
      else Decoded(current, Some(ConvertError(TypeName(v), gType, f, s)))
    case NestedPlan => env.unmarshal(current, v)
    case ContainerPlan(shape, elems) =>
      if !IsShape(shape, v) then
        Decoded(current, Some(NotConverseError(ContainerType(shape, "interface{}"), TypeName(v))))
      else
        var zero := ElemZero(f);
        match elems
        case NoElems => Decoded(Fresh(shape, v, zero), None)
        case ScalarElems(gType, verbatim) =>
          var conv := ScalarElemDecode(f, s, gType, verbatim, v, env);
          (match ConvertContainer(shape, v, conv)
           case Ok(c) => Decoded(c, None)
           case Err(e) => Decoded(PartialContainer(shape, v, conv, zero, ScalarElemFail(gType, verbatim)), Some(e)))
        case NestedElems =>
          var conv := NestedElemDecode(zero, env);
          (match ConvertContainer(shape, v, conv)
           case Ok(c) => Decoded(if shape == MapShape then Fresh(shape, v, zero) else c, None)
           case Err(e) =>
             Decoded(if shape == MapShape then Fresh(shape, v, zero) else PartialContainer(shape, v, conv, zero, NestedElemFail(zero, env)), Some(e)))
  }

  /** The `mutate()` call after the polymorphic field's block. */
  function Hook(f: Field): seq<Event> {
    if f.isPolymorphic then [Mutated] else []
  }

  /** The names of the fields of a run. */
  function FieldNames(fields: seq<Field>): set<string> {
    set f <- fields :: f.name
  }

  /**
   * What the polymorphic field's `mutate()` leaves in the record. Being a
   * method of the struct, it can rewrite any of the struct's fields and
   * nothing else.
   */
  ghost function Mutate(f: Field, s: Struct, rec: Record, env: Env): (r: Record)
    ensures !f.isPolymorphic ==> r == rec
    ensures f.isPolymorphic ==> forall n <- FieldNames(s.fields) :: Get(r, n) == Get(env.mutate(rec), n)
    ensures forall n :: n !in FieldNames(s.fields) ==> Get(r, n) == Get(rec, n)
    ensures r.Keys <= rec.Keys + FieldNames(s.fields)
  {
    if f.isPolymorphic then
      var m := env.mutate(rec);
      map n | n in rec.Keys + FieldNames(s.fields) :: if n in FieldNames(s.fields) then Get(m, n) else rec[n]
    else rec
  }

  /**
   * One field's own block run on the input map `obj`: look the key up; a
   * present, non-nil value is converted into the field; a present nil is
   * skipped; a missing key is an error unless the field is `omidempty`.
   */
  ghost function Block(f: Field, s: Struct, obj: map<string, Value>, rec: Record, env: Env): (r: Outcome)
    requires Dispatchable(f.dbType)
    ensures f.dbName !in obj ==> r.rec == rec && r.events == [] && (r.err.Some? <==> !f.omidempty)
    ensures f.dbName in obj && obj[f.dbName] == Nil ==> r == Outcome(rec, [], None)
    ensures r.events == (if r.err.None? && f.dbName in obj && obj[f.dbName] != Nil then [Assigned(f.name)] else [])
    ensures forall n :: n != f.name ==> Get(r.rec, n) == Get(rec, n)
    ensures r.rec.Keys <= rec.Keys + {f.name}
  {
    if f.dbName in obj then
      var v := obj[f.dbName];
      if v == Nil then Outcome(rec, [], None)
      else
        var d := ValueDecoder(s, env)(f, v, Get(rec, f.name));
        if d.err.Some? then Outcome(rec[f.name := d.value], [], d.err)
        else Outcome(rec[f.name := d.value], [Assigned(f.name)], None)
    else if f.omidempty then Outcome(rec, [], None)
    else Outcome(rec, [], Some(NotFoundError(f.dbName)))
  }

  /** The conversion of a present, non-nil value into the field, as a function value. */
  ghost function ValueDecoder(s: Struct, env: Env): (Field, Value, Value) --> Decoded {
    (f: Field, v: Value, current: Value) requires Dispatchable(f.dbType) && !v.Nil? => DecodeValue(f, s, v, current, env)
  }

  lemma ValueDecoderIs(f: Field, s: Struct, v: Value, current: Value, env: Env)
    requires Dispatchable(f.dbType) && !v.Nil?
    ensures ValueDecoder(s, env).requires(f, v, current)
    ensures ValueDecoder(s, env)(f, v, current) == DecodeValue(f, s, v, current, env)
  {
  }

  /**
   * One field's fragment: its own block and then, unless the block
   * returned an error, the polymorphic field's `mutate()`, which may
   * rewrite any field of the record, the ones still to be decoded among
   * them.
   */
  ghost function DecodeStep(f: Field, s: Struct, obj: map<string, Value>, rec: Record, env: Env): (r: Outcome)
    requires Dispatchable(f.dbType)
    ensures f.dbName !in obj ==> (r.err.Some? <==> !f.omidempty)
    ensures f.dbName !in obj && !f.omidempty ==> r == Outcome(rec, [], Some(NotFoundError(f.dbName)))
    ensures f.dbName in obj && obj[f.dbName] == Nil ==> r == Outcome(Mutate(f, s, rec, env), Hook(f), None)
    ensures r.err.None? ==> (|r.events| >= 1 && r.events[|r.events| - 1] == Mutated <==> f.isPolymorphic)
    ensures r.err.Some? ==> Mutated !in r.events
    ensures r.err.None? ==> r.rec == Mutate(f, s, Block(f, s, obj, rec, env).rec, env)
    ensures !f.isPolymorphic || r.err.Some? ==> forall n :: n != f.name ==> Get(r.rec, n) == Get(rec, n)
    ensures forall n :: n != f.name && n !in FieldNames(s.fields) ==> Get(r.rec, n) == Get(rec, n)
    ensures r.rec.Keys <= rec.Keys + {f.name} + (if f.isPolymorphic then FieldNames(s.fields) else {})
  {
    var b := Block(f, s, obj, rec, env);
    if b.err.Some? then b else Outcome(Mutate(f, s, b.rec, env), b.events + Hook(f), None)
  }

  /** One step per field, in order, each from the record the previous one left; the first error ends the run. */
  ghost function Run(fields: seq<Field>, rec: Record, step: (Field, Record) --> Outcome): Outcome
    requires forall f, r :: f in fields ==> step.requires(f, r)
  {
    if fields == [] then Outcome(rec, [], None)
    else
      var o := step(fields[0], rec);
      if o.err.Some? then o
      else
        var rest := Run(fields[1..], o.rec, step);
        Outcome(rest.rec, o.events + rest.events, rest.err)
  }

  /** Running a run of fields is running its first part, then, unless that failed, the rest from where it left off. */
  lemma {:induction false} RunAppend(xs: seq<Field>, ys: seq<Field>, rec: Record, step: (Field, Record) --> Outcome)
    requires forall f, r :: f in xs + ys ==> step.requires(f, r)
    ensures var a := Run(xs, rec, step);
      Run(xs + ys, rec, step) ==
        if a.err.Some? then a
        else
          var b := Run(ys, a.rec, step);
          Outcome(b.rec, a.events + b.events, b.err)
  {
    if xs == [] {
      assert xs + ys == ys;
    } else {
      assert (xs + ys)[0] == xs[0] && (xs + ys)[1..] == xs[1..] + ys;
      var o := step(xs[0], rec);
      if o.err.None? {
        RunAppend(xs[1..], ys, o.rec, step);
        var a := Run(xs[1..], o.rec, step);
        if a.err.None? {
          var b := Run(ys, a.rec, step);
          assert o.events + (a.events + b.events) == (o.events + a.events) + b.events;
        }
      }
    }
  }

  /** A run of one field is that field's step. */
  lemma RunOne(f: Field, rec: Record, step: (Field, Record) --> Outcome)
    requires forall r :: step.requires(f, r)
    ensures Run([f], rec, step) == if step(f, rec).err.Some? then step(f, rec) else Outcome(step(f, rec).rec, step(f, rec).events, None)
  {
    assert [f][1..] == [];
    assert step(f, rec).events + [] == step(f, rec).events;
  }

  /** The decoding fragment of a field of `s`, run on the input map `obj`. */
  ghost function Stepper(s: Struct, obj: map<string, Value>, env: Env): (Field, Record) --> Outcome {
    (f: Field, r: Record) requires Dispatchable(f.dbType) => DecodeStep(f, s, obj, r, env)
  }

  lemma StepperIs(f: Field, s: Struct, obj: map<string, Value>, rec: Record, env: Env)
    requires Dispatchable(f.dbType)
    ensures Stepper(s, obj, env).requires(f, rec)
    ensures Stepper(s, obj, env)(f, rec) == DecodeStep(f, s, obj, rec, env)
  {
  }

  /** The field fragments in declaration order; the first error ends the method. */
  ghost function DecodeFields(fields: seq<Field>, s: Struct, obj: map<string, Value>, rec: Record, env: Env): Outcome
    requires forall f <- fields :: Dispatchable(f.dbType)
  {
    Run(fields, rec, Stepper(s, obj, env))
  }

  /** `new(Name)`: a record that holds every field of the struct. */
  function ZeroRecord(fields: seq<Field>): (r: Record)
    ensures r.Keys == FieldNames(fields)
  {
    if fields == [] then map[] else ZeroRecord(fields[1..])[fields[0].name := ZeroOf(fields[0].goType)]
  }

  /** In `new(Name)`, each field holds the zero value of its Go type. */
  lemma {:induction false} ZeroRecordHoldsZeros(fields: seq<Field>, i: nat)
    requires i < |fields| && fields[i].name !in FieldNames(fields[..i])
    ensures Get(ZeroRecord(fields), fields[i].name) == ZeroOf(fields[i].goType)
  {
    if i > 0 {
      assert fields[0] in fields[..i];
      assert fields[1..][i - 1] == fields[i];
      assert fields[1..][..i - 1] == fields[1..i];
      assert forall g <- fields[1..i] :: g in fields[..i];
      ZeroRecordHoldsZeros(fields[1..], i - 1);
    }
  }

  /**
   * The generated `UnmarshalRQL` on receiver `recv` (`None` for a nil
   * pointer, which is replaced by `new(Name)`) and input `input`: a nil
   * input leaves the record alone, anything but a map is an error naming
   * its type, and a map runs the field fragments.
   */
  ghost function UnmarshalRQL(recv: Option<Record>, s: Struct, input: Value, env: Env): (r: Outcome)
    requires forall f <- s.fields :: Dispatchable(f.dbType)
    ensures recv.None? ==> r.rec.Keys <= FieldNames(s.fields)
    ensures input == Nil ==> r.events == [] && r.err == None
    ensures !input.Obj? ==> r.rec == if recv.Some? then recv.value else ZeroRecord(s.fields)
    ensures !input.Nil? && !input.Obj? ==>
              r.events == [] && r.err == Some(NotConverseError("map[string]interface{}", TypeName(input)))
  {
    var rec := if recv.Some? then recv.value else ZeroRecord(s.fields);
    if input == Nil then Outcome(rec, [], None)
    else if !input.Obj? then Outcome(rec, [], Some(NotConverseError("map[string]interface{}", TypeName(input))))
    else
      DecodeOnly(s.fields, s, input.entries, rec, env);
      DecodeFields(s.fields, s, input.entries, rec, env)
  }

  /** Decoding a run of fields is decoding its first part, then, unless that failed, the rest from where it left off. */
  lemma DecodeFieldsAppend(xs: seq<Field>, ys: seq<Field>, s: Struct, obj: map<string, Value>, rec: Record, env: Env)
    requires forall f <- xs + ys :: Dispatchable(f.dbType)
    ensures var a := DecodeFields(xs, s, obj, rec, env);
      DecodeFields(xs + ys, s, obj, rec, env) ==
        if a.err.Some? then a
        else
          var b := DecodeFields(ys, s, obj, a.rec, env);
          Outcome(b.rec, a.events + b.events, b.err)
  {
    RunAppend(xs, ys, rec, Stepper(s, obj, env));
  }

  /**
   * Decoding a run of fields changes only those fields' own slots and, for
   * a polymorphic field among them, what its `mutate()` rewrites: slots of
   * the struct's fields.
   */
  lemma {:induction false} DecodeOnly(fields: seq<Field>, s: Struct, obj: map<string, Value>, rec: Record, env: Env)
    requires forall f <- fields :: Dispatchable(f.dbType)
    ensures forall n :: n !in FieldNames(fields) && n !in FieldNames(s.fields) ==>
              Get(DecodeFields(fields, s, obj, rec, env).rec, n) == Get(rec, n)
    ensures DecodeFields(fields, s, obj, rec, env).rec.Keys <= rec.Keys + FieldNames(fields) + FieldNames(s.fields)
  {
    if fields != [] {
      StepperIs(fields[0], s, obj, rec, env);
      var o := DecodeStep(fields[0], s, obj, rec, env);
      if o.err.None? {
        DecodeOnly(fields[1..], s, obj, o.rec, env);
        assert FieldNames(fields) == {fields[0].name} + FieldNames(fields[1..]);
      }
    }
  }

  /** Without a polymorphic field in the run, only the run's own slots change. */
  lemma {:induction false} DecodeOnlyOwn(fields: seq<Field>, s: Struct, obj: map<string, Value>, rec: Record, env: Env)
    requires forall f <- fields :: Dispatchable(f.dbType)
    ensures (forall f <- fields :: !f.isPolymorphic) ==>
              forall n :: n !in FieldNames(fields) ==> Get(DecodeFields(fields, s, obj, rec, env).rec, n) == Get(rec, n)
    ensures (forall f <- fields :: !f.isPolymorphic) ==>
              DecodeFields(fields, s, obj, rec, env).rec.Keys <= rec.Keys + FieldNames(fields)
  {
    if fields != [] && forall f <- fields :: !f.isPolymorphic {
      StepperIs(fields[0], s, obj, rec, env);
      var o := DecodeStep(fields[0], s, obj, rec, env);
      if o.err.None? {
        DecodeOnlyOwn(fields[1..], s, obj, o.rec, env);
        assert FieldNames(fields) == {fields[0].name} + FieldNames(fields[1..]);
        assert forall f <- fields[1..] :: f in fields;
      }
    }
  }

  /**
   * The first failing field ends decoding: the method returns its error,
   * what the earlier fields did stays done, and no later field is looked
   * at or assigned.
   */
  lemma DecodeStopsAt(fields: seq<Field>, i: nat, s: Struct, obj: map<string, Value>, rec: Record, env: Env)
    requires forall f <- fields :: Dispatchable(f.dbType)
    requires i < |fields|
    requires DecodeFields(fields[..i], s, obj, rec, env).err.None?
    requires DecodeStep(fields[i], s, obj, DecodeFields(fields[..i], s, obj, rec, env).rec, env).err.Some?
    ensures var before := DecodeFields(fields[..i], s, obj, rec, env);
      var step := DecodeStep(fields[i], s, obj, before.rec, env);
      DecodeFields(fields, s, obj, rec, env) == Outcome(step.rec, before.events + step.events, step.err)
  {
    assert fields == fields[..i] + fields[i..];
    DecodeFieldsAppend(fields[..i], fields[i..], s, obj, rec, env);
    assert fields[i..][0] == fields[i];
    StepperIs(fields[i], s, obj, DecodeFields(fields[..i], s, obj, rec, env).rec, env);
  }

  /**
   * A required field whose key is missing ends decoding with "Not found
   * field" naming the key, after what the earlier fields did.
   */
  lemma MissingRequiredStops(fields: seq<Field>, i: nat, s: Struct, obj: map<string, Value>, rec: Record, env: Env)
    requires forall f <- fields :: Dispatchable(f.dbType)
    requires i < |fields| && fields[i].dbName !in obj && !fields[i].omidempty
    requires DecodeFields(fields[..i], s, obj, rec, env).err.None?
    ensures var before := DecodeFields(fields[..i], s, obj, rec, env);
      DecodeFields(fields, s, obj, rec, env) == Outcome(before.rec, before.events, Some(NotFoundError(fields[i].dbName)))
  {
    DecodeStopsAt(fields, i, s, obj, rec, env);
  }

  /** A step that gets through its block ends with the hook, applied to the record the block left. */
  lemma StepThroughBlock(f: Field, s: Struct, obj: map<string, Value>, rec: Record, env: Env)
    requires Dispatchable(f.dbType) && Block(f, s, obj, rec, env).err.None?
    ensures Stepper(s, obj, env).requires(f, rec)
    ensures var b := Block(f, s, obj, rec, env);
      Stepper(s, obj, env)(f, rec) == Outcome(Mutate(f, s, b.rec, env), b.events + Hook(f), None)
  {
    StepperIs(f, s, obj, rec, env);
  }

  /** A step that succeeds ends with `mutate()` exactly when its field is polymorphic. */
  lemma StepEndsWithHook(f: Field, s: Struct, obj: map<string, Value>, rec: Record, env: Env)
    requires Dispatchable(f.dbType)
    ensures Stepper(s, obj, env).requires(f, rec)
    ensures var o := Stepper(s, obj, env)(f, rec);
      o.err.None? ==> (|o.events| >= 1 && o.events[|o.events| - 1] == Mutated <==> f.isPolymorphic)
  {
    StepperIs(f, s, obj, rec, env);
  }

  /** When decoding gets through the polymorphic field, the last thing it did is call `mutate()`. */
  lemma MutateEndsBlock(xs: seq<Field>, f: Field, s: Struct, obj: map<string, Value>, rec: Record, env: Env)
    requires forall g <- xs + [f] :: Dispatchable(g.dbType)
    requires f.isPolymorphic
    requires DecodeFields(xs + [f], s, obj, rec, env).err.None?
    ensures var a := DecodeFields(xs + [f], s, obj, rec, env);
      |a.events| >= 1 && a.events[|a.events| - 1] == Mutated
  {
    var step := Stepper(s, obj, env);
    RunLast(xs, f, rec, step);
    var p := Run(xs, rec, step);
    StepEndsWithHook(f, s, obj, p.rec, env);
    LastOfAppend(p.events, step(f, p.rec).events);
  }

  /** A run that gets through its last field ends with that field's events. */
  lemma RunLast(xs: seq<Field>, f: Field, rec: Record, step: (Field, Record) --> Outcome)
    requires forall g, r :: g in xs + [f] ==> step.requires(g, r)
    requires Run(xs + [f], rec, step).err.None?
    ensures var p := Run(xs, rec, step);
      && p.err.None? && step(f, p.rec).err.None?
      && Run(xs + [f], rec, step).events == p.events + step(f, p.rec).events
  {
    RunAppend(xs, [f], rec, step);
    assert f in xs + [f];
    RunOne(f, Run(xs, rec, step).rec, step);
  }

  lemma LastOfAppend(a: seq<Event>, b: seq<Event>)
    requires |b| >= 1
    ensures |a + b| >= 1 && (a + b)[|a + b| - 1] == b[|b| - 1]
  {
  }

  /**
   * The polymorphic field's `mutate()` runs right after its own block and
   * before anything a later field does.
   */
  lemma MutateBeforeLaterFields(xs: seq<Field>, f: Field, ys: seq<Field>, s: Struct, obj: map<string, Value>, rec: Record, env: Env)
    requires forall g <- xs + [f] + ys :: Dispatchable(g.dbType)
    requires f.isPolymorphic
    requires DecodeFields(xs + [f], s, obj, rec, env).err.None?
    ensures var a := DecodeFields(xs + [f], s, obj, rec, env);
      var b := DecodeFields(ys, s, obj, a.rec, env);
      && |a.events| >= 1 && a.events[|a.events| - 1] == Mutated
      && DecodeFields(xs + [f] + ys, s, obj, rec, env).events == a.events + b.events
  {
    MutateEndsBlock(xs, f, s, obj, rec, env);
    DecodeFieldsAppend(xs + [f], ys, s, obj, rec, env);
  }

  /**
   * The fields after the polymorphic one decode from the record `mutate()`
   * left: the hook applied to what the polymorphic field's own block left.
   */
  lemma DecodeAfterMutate(xs: seq<Field>, f: Field, ys: seq<Field>, s: Struct, obj: map<string, Value>, rec: Record, env: Env)
    requires forall g <- xs + [f] + ys :: Dispatchable(g.dbType)
    requires f.isPolymorphic
    requires DecodeFields(xs, s, obj, rec, env).err.None?
    requires Block(f, s, obj, DecodeFields(xs, s, obj, rec, env).rec, env).err.None?
    ensures var a := DecodeFields(xs, s, obj, rec, env);
      var b := Block(f, s, obj, a.rec, env);
      var c := DecodeFields(ys, s, obj, Mutate(f, s, b.rec, env), env);
      DecodeFields(xs + [f] + ys, s, obj, rec, env) == Outcome(c.rec, a.events + b.events + [Mutated] + c.events, c.err)
  {
    var a := DecodeFields(xs, s, obj, rec, env);
    var b := Block(f, s, obj, a.rec, env);
    StepThroughBlock(f, s, obj, a.rec, env);
    assert Hook(f) == [Mutated];
    RunAfterStep(xs, f, ys, s, obj, rec, env);
    var c := DecodeFields(ys, s, obj, Mutate(f, s, b.rec, env), env);
    EventsRegroup(a.events, b.events, c.events);
  }

  lemma EventsRegroup(a: seq<Event>, b: seq<Event>, c: seq<Event>)
    ensures a + (b + [Mutated]) + c == a + b + [Mutated] + c
  {
  }

  /** Decoding through one more field that succeeds: the earlier fields, that field's step, then the rest from its record. */
  lemma RunAfterStep(xs: seq<Field>, f: Field, ys: seq<Field>, s: Struct, obj: map<string, Value>, rec: Record, env: Env)
    requires forall g <- xs + [f] + ys :: Dispatchable(g.dbType)
    requires DecodeFields(xs, s, obj, rec, env).err.None?
    requires Stepper(s, obj, env).requires(f, DecodeFields(xs, s, obj, rec, env).rec)
    requires Stepper(s, obj, env)(f, DecodeFields(xs, s, obj, rec, env).rec).err.None?
    ensures var a := DecodeFields(xs, s, obj, rec, env);
      var o := Stepper(s, obj, env)(f, a.rec);
      var c := DecodeFields(ys, s, obj, o.rec, env);
      DecodeFields(xs + [f] + ys, s, obj, rec, env) == Outcome(c.rec, a.events + o.events + c.events, c.err)
  {
    var a := DecodeFields(xs, s, obj, rec, env);
    var o := Stepper(s, obj, env)(f, a.rec);
    DecodeFieldsAppend(xs, [f], s, obj, rec, env);
    RunOne(f, a.rec, Stepper(s, obj, env));
    DecodeFieldsAppend(xs + [f], ys, s, obj, rec, env);
  }

  /**
   * A field of a scalar kind takes a present value exactly when the value
   * has the kind's runtime type: as it is when that is the field's Go type,
   * converted to the Go type otherwise.
   */
  lemma DecodeScalar(f: Field, s: Struct, sc: Scalar, v: Value, current: Value, env: Env)
    requires f.dbType == ScalarName(sc) && !v.Nil?
    ensures Dispatchable(f.dbType)
    ensures DecodeValue(f, s, v, current, env).err.None? <==> HasType(v, Runtime(sc))
    ensures HasType(v, Runtime(sc)) && f.goType == Runtime(sc) ==> DecodeValue(f, s, v, current, env).value == v
    ensures HasType(v, Runtime(sc)) && f.goType != Runtime(sc) ==>
              DecodeValue(f, s, v, current, env).value == env.convert(f.goType, v)
    ensures !HasType(v, Runtime(sc)) ==>
              DecodeValue(f, s, v, current, env).err == Some(ConvertError(TypeName(v), Runtime(sc), f, s))
  {
    assert KindName(ScalarKind(sc)) == f.dbType;
    ParseKindName(ScalarKind(sc));
    PlanAgreesWithKind(f);
  }

  /** A container field's plan: its shape, and element handling by the element kind. */
  lemma ContainerPlanOf(f: Field, shape: Shape, elem: Elem)
    requires f.dbType == KindName(ContainerKind(shape, elem))
    ensures Dispatchable(f.dbType)
    ensures PlanOf(f).ContainerPlan? && PlanOf(f).shape == shape
    ensures elem.RqlElem? <==> PlanOf(f).elems.NestedElems?
    ensures elem.ScalarElem? ==> PlanOf(f).elems == ScalarElems(Runtime(elem.scalar), Runtime(elem.scalar) == ScalarName(elem.scalar))
  {
    ContainerPlanAgrees(f, shape, elem);
  }

  /**
   * A container field first asserts the value to the untyped container of
   * its shape, and fails naming the value's type, leaving the field as it
   * was, when the value has the other shape or is not a container.
   */
  lemma DecodeNotConverse(f: Field, s: Struct, shape: Shape, elem: Elem, v: Value, current: Value, env: Env)
    requires f.dbType == KindName(ContainerKind(shape, elem)) && !v.Nil?
    requires !IsShape(shape, v)
    ensures Dispatchable(f.dbType)
    ensures DecodeValue(f, s, v, current, env) ==
              Decoded(current, Some(NotConverseError(ContainerType(shape, "interface{}"), TypeName(v))))
  {
    ContainerPlanOf(f, shape, elem);
  }

  /**
   * Past the shape check the field holds a container of that shape made
   * with the input's size, and once every scalar element is decoded, with
   * the input's keys.
   */
  lemma DecodeContainer(f: Field, s: Struct, shape: Shape, elem: Elem, v: Value, current: Value, env: Env)
    requires f.dbType == KindName(ContainerKind(shape, elem)) && !v.Nil?
    ensures Dispatchable(f.dbType)
    ensures IsShape(shape, v) ==>
              var d := DecodeValue(f, s, v, current, env).value;
              IsShape(shape, d) && (v.Arr? ==> |d.items| == |v.items|)
  {
    ContainerPlanOf(f, shape, elem);
  }

  /**
   * A decoded map has keys among the input's, and once every element of a
   * map of scalars is decoded, exactly the input's keys.
   */
  lemma DecodeContainerKeys(f: Field, s: Struct, shape: Shape, elem: Elem, v: Value, current: Value, env: Env)
    requires f.dbType == KindName(ContainerKind(shape, elem)) && IsShape(shape, v) && v.Obj?
    ensures Dispatchable(f.dbType)
    ensures var d := DecodeValue(f, s, v, current, env);
            d.value.Obj? && d.value.entries.Keys <= v.entries.Keys
    ensures var d := DecodeValue(f, s, v, current, env);
            elem.ScalarElem? && d.err.None? ==> d.value.Obj? && d.value.entries.Keys == v.entries.Keys
  {
    ContainerPlanOf(f, shape, elem);
  }

  /**
   * An element of a container of scalars that does not have the runtime
   * type fails the field with a message naming the type of the whole
   * container value, not that of the element, and leaves in the field the
   * fresh container of the input's shape, partly filled.
   */
  lemma DecodeElemError(f: Field, s: Struct, shape: Shape, sc: Scalar, v: Value, current: Value, env: Env)
    requires f.dbType == KindName(ContainerKind(shape, ScalarElem(sc))) && IsShape(shape, v)
    ensures Dispatchable(f.dbType)
    ensures DecodeValue(f, s, v, current, env).err.Some? ==>
              var d := DecodeValue(f, s, v, current, env);
              && d.err == Some(ConvertError(TypeName(v), Runtime(sc), f, s))
              && IsShape(shape, d.value)
              && (v.Arr? ==> |d.value.items| == |v.items|)
              && (v.Obj? ==> d.value.entries.Keys <= v.entries.Keys)
  {
    ContainerPlanOf(f, shape, ScalarElem(sc));
    var conv := ScalarElemDecode(f, s, Runtime(sc), Runtime(sc) == ScalarName(sc), v, env);
    ConvertContainerError(shape, v, conv, ConvertError(TypeName(v), Runtime(sc), f, s));
  }

  /**
   * A failed assertion straight into an element of a map of strings or
   * bools still writes the zero value under that element's key before the
   * error is returned.
   */
  lemma DecodeVerbatimMapFail(f: Field, s: Struct, sc: Scalar, v: Value, current: Value, env: Env)
    requires f.dbType == KindName(ContainerKind(MapShape, ScalarElem(sc))) && v.Obj?
    requires sc == StringKind || sc == BoolKind
    ensures Dispatchable(f.dbType)
    ensures DecodeValue(f, s, v, current, env).err.Some? ==>
              var d := DecodeValue(f, s, v, current, env).value;
              d.Obj? && exists k :: k in d.entries && k in v.entries && !HasType(v.entries[k], Runtime(sc)) && d.entries[k] == ZeroOf(Runtime(sc))
  {
    ContainerPlanOf(f, MapShape, ScalarElem(sc));
    VerbatimScalars(sc);
  }

  /**
   * As written, a `map_rql` field is left empty whatever the input holds:
   * each element decodes into a record of its own, and only the first
   * error among them reaches the caller.
   */
  lemma NestedMapDecodesEmpty(f: Field, s: Struct, v: Value, current: Value, env: Env)
    requires f.dbType == "map_rql" && v.Obj?
    ensures Dispatchable(f.dbType)
    ensures DecodeValue(f, s, v, current, env).value == Obj(map[])
    ensures DecodeValue(f, s, v, current, env).err.None? <==>
              forall k <- v.entries.Keys :: env.unmarshal(ElemZero(f), v.entries[k]).err.None?
  {
    assert KindName(ContainerKind(MapShape, RqlElem)) == f.dbType;
    ContainerPlanOf(f, MapShape, RqlElem);
  }

  /**
   * The `map_rql` decoding the fragment evidently intends: each element
   * decoded by its own `UnmarshalRQL` and stored under its key, or the
   * error of a failing element, with the elements visited before it
   * stored.
   */
  ghost function DecodeNestedMap(m: map<string, Value>, zero: Value, env: Env): (r: Decoded)
    ensures r.value.Obj? && r.value.entries.Keys <= m.Keys
    ensures r.err.None? <==> forall k <- m.Keys :: env.unmarshal(zero, m[k]).err.None?
    ensures r.err.None? ==> r.value.entries.Keys == m.Keys
    ensures r.err.None? ==> forall k <- m.Keys :: r.value.entries[k] == env.unmarshal(zero, m[k]).value
  {
    var conv := NestedElemDecode(zero, env);
    match ConvertMap(m, conv)
    case Ok(m') => Decoded(Obj(m'), None)
    case Err(e) => Decoded(Obj(PartialMap(m, conv, NestedElemFail(zero, env))), Some(e))
  }

  /**
   * The two differ on every non-empty input whose elements all decode:
   * the intended decoding stores the elements, the written one nothing.
   */
  lemma NestedMapLosesEntries(f: Field, s: Struct, v: Value, current: Value, env: Env)
    requires f.dbType == "map_rql" && v.Obj? && |v.entries| > 0
    requires forall k <- v.entries.Keys :: env.unmarshal(ElemZero(f), v.entries[k]).err.None?
    ensures Dispatchable(f.dbType)
    ensures DecodeValue(f, s, v, current, env).err.None?
    ensures |DecodeNestedMap(v.entries, ElemZero(f), env).value.entries| > 0
    ensures DecodeValue(f, s, v, current, env).value != DecodeNestedMap(v.entries, ElemZero(f), env).value
  {
    NestedMapDecodesEmpty(f, s, v, current, env);
    var r := DecodeNestedMap(v.entries, ElemZero(f), env);
    assert r.value.entries.Keys == v.entries.Keys;
  }
}
