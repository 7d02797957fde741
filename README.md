# rqlgen codec generation, modelled in Dafny

rqlgen is a build-time generator for Go record types stored in RethinkDB.
The user names one struct type. rqlgen reads its declaration and emits two
methods for it:

- `MarshalRQL` turns the typed record into an untyped
  `map[string]interface{}` tree.
- `UnmarshalRQL` turns such a tree back into the record.

Each field of the struct is described by its struct tags:

- `gorethink:"key[,omidempty]"` gives the storage key and the omit-empty
  marker.
- `rqlgen:"kind"` gives the storage kind. It is one of fifteen kinds: four
  scalars (`string`, `number`, `bool`, `time`), a nested record (`rql`),
  and `array_*` or `map_*` of a scalar or of `rql`.

This project models the generator in three parts, following the Go files.

**Building the field list** (`rqlgen.go`).
- Kinds and the kind-to-runtime-type table are in `kinds.dfy`.
- Rendering a field's declared type is in `type_expr.dfy`.
- `getFieldTag` and `readStruct` are in `builder.dfy`. `readStruct` is an
  imperative method with a loop over the declared fields.
- The `Field`/`Struct` records are in `model.dfy`.

**Per-field dispatch** (`field.go`), in `field.dfy`.
- The kind selects a `FieldPlan` once: a scalar (direct or cast), a nested
  record, or a container of scalars or of nested records.
- `getMarshalStr` and `getUnmarshalStr` render a plan as the exact lines
  the generator emits.

**Method assembly** (`struct.go`), in `struct.dfy`.
- `writeMarshal` and `writeUnmarshal` are methods on a `Writer` object.
  The writer records every write in order.
- Each method is proved against a function giving the complete sequence
  of writes: prologue, one fragment per field in declaration order, then
  epilogue.

The generator only produces text. The rules the text encodes can be stated
only about what the emitted code does when it runs, so the project also
gives the emitted methods a meaning:
- Untyped values are in `values.dfy`.
- The emitted `MarshalRQL` is in `encode.dfy`.
- The emitted `UnmarshalRQL` is in `decode.dfy`.

Both semantics read the same `FieldPlan` that selects the text, and cover
these rules:
- the missing-key rule;
- skipping a present-but-nil value;
- the `mutate()` hook of the polymorphic field;
- the first error ending the method.

Go's conversions, the codec methods of nested records and the record's own
`mutate()` method lie outside the generated code. They are parameters
(`Values.Env`). `mutate()` may rewrite any field of the record, including
the fields still to be decoded.

## Model

| member | source | states |
|---|---|---|
| Kinds.ParseKind | rqlgen.go:19 | a kind annotation is accepted exactly when it is one of the fifteen kinds, and an accepted annotation is the name of the kind it parses to |
| Kinds.ParseKindName | rqlgen.go:19 | every structured kind's name is one of the fifteen and parses back to that kind |
| Kinds.RuntimeTable | rqlgen.go:209-214 | a string is a key of the runtime table iff it names a scalar kind, iff it is a valid kind that parses as a scalar; so `rql` and the containers are not keys |
| Kinds.VerbatimScalars | rqlgen.go:209-214 | the runtime type equals the kind's own name exactly for `string` and `bool` |
| Kinds.SplitJoin | field.go:33 | splitting at `_` gives parts free of `_` that join back to the input |
| Kinds.SplitCount | field.go:33-34 | the split has a second part iff the kind contains `_` |
| Kinds.SplitContainerKind | field.go:33-35 | every container kind splits into exactly its shape word and its element word, so `dbType[1]` exists |
| TypeExprs.GetFieldType | rqlgen.go:217-240 | `getFieldType` as written, `*ast.SliceExpr` case included and `*ast.ArrayType` falling through; its properties are `GetFieldTypeAgrees`, `AsWrittenRenderInjective` and `SliceTypeRendersEmpty` |
| TypeExprs.GetFieldTypeFixed | rqlgen.go:217-240 | `getFieldType` with the slice type `[]T` rendered; its properties are `ParseRender` and `RenderInjective` |
| TypeExprs.GetFieldTypeAgrees | rqlgen.go:217-240 | on every type without a slice or array type in it, the rendering as written equals the corrected one |
| TypeExprs.AsWrittenRenderInjective | rqlgen.go:217-240 | as written, distinct well-formed field types without slice types get distinct renderings |
| TypeExprs.SliceTypeRendersEmpty | rqlgen.go:234-239 | as written, the slice type `[]T` renders as "" whatever `T` is, so `[]string` and `[]int` become indistinguishable |
| TypeExprs.ParseRender | rqlgen.go:217-240 | with slice types rendered, every well-formed field type can be read back from its rendering |
| TypeExprs.RenderInjective | rqlgen.go:217-240 | with slice types rendered, distinct well-formed field types get distinct renderings |
| Builder.GetFieldTag | rqlgen.go:242-254 | fails iff the kind annotation is missing or not one of the fifteen, with the message naming `Type.Field`; on success returns the storage key, the omit marker and a valid kind |
| Builder.ReadFields | rqlgen.go:266-280 | fails iff some declared field has a bad kind annotation, with the error of the first such field; otherwise one `Field` per declared field, in order, each with the tag's key, omit-empty iff the omit capture is non-empty, the valid kind, the type as `getFieldType` renders it ("" for `[]T`), and polymorphic iff its name is the poly field |
| Builder.ReadStruct | rqlgen.go:256-292 | a missing object, a non-type and a non-struct fail with their fixed messages; otherwise the build fails iff some field annotation is bad, naming the first; on success the struct has the object's name, the lower-cased first letter as short name, and the fields `ReadFields` describes |
| Builder.SinglePolymorphicField | rqlgen.go:277 | when field names are distinct, at most one field is marked polymorphic |
| FieldGen.PlanOf | field.go:17-68 | the kind dispatch shared by `getMarshalStr` and `getUnmarshalStr`: table lookup, `rql`, then the split at `_`; its properties are `PlanAgreesWithKind`, `ContainerDispatch` and `ContainerPlanAgrees` |
| FieldGen.ContainerDispatch | field.go:18-35 | a container kind is not in the runtime table, is not `rql`, contains `_`, and splits into its shape and element words |
| FieldGen.ContainerPlanAgrees | field.go:33-67 | for a container kind the dispatch selects the container of its shape, with scalar elements of the runtime type (verbatim when that is the kind's name) or nested elements |
| FieldGen.PlanAgreesWithKind | field.go:17-68 | for every valid kind the dispatch is defined and selects the plan read off the kind's structure, never the unrecognised-element fallthrough |
| FieldGen.GetMarshalStr | field.go:17-69 | the encoding fragment, line by line as the source emits it for each plan; its properties are `MarshalStrNonEmpty` and `MarshalStoresUnderKey`, and its meaning is `Encoding.EncodeStep` |
| FieldGen.GetUnmarshalStr | field.go:71-146 | the decoding fragment, line by line as the source emits it; its properties are `UnmarshalStartsWithLookup`, `UnmarshalRequiredIff` and `UnmarshalEndsWithMutate`, and its meaning is `Decoding.DecodeStep` |
| FieldGen.MarshalStrNonEmpty | field.go:17-69 | every valid kind produces a non-empty encoding fragment; the empty fallthrough is unreachable |
| FieldGen.MarshalStoresUnderKey | field.go:17-69 | a fragment emits nothing only for a container of an unrecognised element; a scalar or nested fragment opens with the assignment to `rqlgenTmp["<dbName>"]`, and a container fragment closes with it |
| FieldGen.UnmarshalStartsWithLookup | field.go:72-74 | every decoding fragment starts with the lookup of the field's storage key |
| FieldGen.UnmarshalRequiredIff | field.go:136-141 | after the present-value block, the fragment continues with the `else` branch returning "Not found field: key" iff the field is not omit-empty |
| FieldGen.UnmarshalEndsWithMutate | field.go:142-144 | the fragment ends with the `mutate()` call iff the field is polymorphic, and otherwise with the closing brace of the lookup |
| StructGen.Writer.Write | struct.go:15 | a write appends its text to what was written, and nothing else changes |
| StructGen.ParseNatToString | struct.go:19 | the capacity printed for the result map reads back as the number of fields |
| StructGen.FragmentsAppend | struct.go:20-22 | the fragments of consecutive runs of fields are the fragments of each run, in order |
| StructGen.FragmentsAt | struct.go:20-22 | fragment `i` is the rendering of field `i` |
| StructGen.WriteFragments | struct.go:20-22 | the field loop appends exactly one fragment per field, in field order |
| StructGen.EncodedAt | struct.go:21 | the marshal loop's fragment `i` is the `getMarshalStr` of field `i` |
| StructGen.DecodedAt | struct.go:43 | the unmarshal loop's fragment `i` is the `getUnmarshalStr` of field `i` |
| StructGen.WithMarshal | struct.go:14-25 | the complete writes of `writeMarshal`; `WriteMarshal` is proved against it and `MarshalFragmentsInOrder` states its layout |
| StructGen.WithUnmarshal | struct.go:27-47 | the complete writes of `writeUnmarshal`; `WriteUnmarshal` is proved against it and `UnmarshalFragmentsInOrder` states its layout |
| StructGen.WriteMarshalHeader | struct.go:15-19 | writes the signature, the nil-receiver guard returning `nil, nil`, and the result map allocation |
| StructGen.WriteMarshal | struct.go:14-25 | appends the whole generated `MarshalRQL` method to what was written before |
| StructGen.WriteUnmarshalHeader | struct.go:28-41 | writes the signature, the nil-receiver allocation, the declarations, the nil-input return and the map assertion with its error |
| StructGen.WriteUnmarshal | struct.go:27-47 | appends the whole generated `UnmarshalRQL` method to what was written before |
| StructGen.MarshalHeaderLayout | struct.go:15-19 | the marshal prologue is five writes after the earlier ones, which it keeps |
| StructGen.UnmarshalHeaderLayout | struct.go:28-41 | the unmarshal prologue is fourteen writes after the earlier ones, which it keeps |
| StructGen.MarshalFragmentsInOrder | struct.go:14-25 | the method is the earlier writes, the prologue, then field `i`'s fragment at position `i` of the field part, then `return rqlgenTmp, nil` and the closing brace |
| StructGen.UnmarshalFragmentsInOrder | struct.go:27-47 | the method is the earlier writes, the prologue, then field `i`'s fragment at position `i` of the field part, then `return nil` and the closing brace |
| Values.HasRuntimeType | field.go:75-88 | a value has the runtime type of a scalar kind exactly when it is a value of that kind |
| Values.ZeroOf | field.go:78 | a failed assertion leaves in its target the zero value of the asserted runtime type |
| Values.ConvertSeq | field.go:40-49 | the element loop over a slice yields every element converted, in order, or the error of the first element that fails |
| Values.ConvertContainer | field.go:35-50 | a converted container has the requested shape and, from a container of that shape, its length or keys |
| Values.PartialSeq | field.go:108-122 | the slice an element loop stopped in has the input's length; every element before the first failure is converted, the failing slot holds what the failed statement wrote (or the zero element), and every later slot the zero element |
| Values.PartialMap | field.go:108-122 | the map an element loop stopped in holds converted entries for some of the input's keys and, when the failed statement writes its target, that value under exactly one failing key |
| Values.PartialContainer | field.go:108-122 | the container an element loop stopped in has the shape it was made with and the input's length, or is a stopped map as `PartialMap` describes |
| Values.ConvertSeqIdentity | field.go:41-42 | copying slice elements unchanged gives the elements back |
| Values.CopyContainer | field.go:41-42 | copying a container's elements unchanged gives the container back |
| Values.ConvertSeqOkIff | field.go:43-48 | the loop over a slice succeeds iff every element converts |
| Values.ConvertContainerError | field.go:46 | when every failing element fails with the same message, that message is the loop's error, whatever the order |
| Encoding.ValidKindStores | field.go:17-69 | every field with a valid kind is dispatched and stores an entry |
| Encoding.EncodeValue | field.go:17-67 | only nested and container fields can fail, and a container result has the kind's shape |
| Encoding.EncodeStep | field.go:17-69 | a successful fragment adds exactly the field's storage key, or nothing for an unrecognised container, and keeps every other entry |
| Encoding.MarshalRQL | struct.go:14-25 | a nil receiver gives `nil, nil` before any field is read; a successful encoding of a record is a map |
| Encoding.EncodeFields | struct.go:20-22 | the field loop of the generated `MarshalRQL`, field by field with early exit; its properties are `EncodeFieldsAppend`, `EncodeFailsAt`, `EncodeKeys`, `EncodeStores` and `EncodeKeeps` |
| Encoding.EncodeFieldsAppend | struct.go:20-22 | encoding consecutive runs of fields is encoding the first, then, unless that failed, the rest from its result |
| Encoding.EncodeFailsAt | field.go:28-30 | the first failing field's error is the method's error, and no later field is encoded |
| Encoding.EncodeKeys | struct.go:19-22 | a successful encoding holds exactly the earlier keys and every field's storage key |
| Encoding.EncodeStores | field.go:21-23 | with distinct storage keys, the entry under each field's key is that field's own encoding |
| Encoding.EncodeKeeps | struct.go:20-22 | an entry under a key no field uses is left as it was |
| Encoding.EncodeScalar | field.go:18-24 | a scalar field is stored unchanged when its declared type is the runtime type, and otherwise converted to the runtime type |
| Encoding.EncodeScalarContainer | field.go:33-51 | a container of scalars is stored as the element loop's container of the kind's shape |
| Encoding.EncodeVerbatimContainer | field.go:41-42 | a container of strings or bools of the kind's shape is stored unchanged |
| Encoding.EncodeConvertedContainer | field.go:43-48 | a container of numbers or times can fail only with "Can't convert Type to kind (Struct.Field)", and a slice fails iff some element does not convert |
| Encoding.EncodeNestedArray | field.go:53-66 | an `array_rql` field is each element's `MarshalRQL` in order, or the first element error |
| Encoding.EncodeNested | field.go:26-31 | an `rql` field is stored as its own `MarshalRQL` result, and that call's error is the method's error |
| Decoding.DecodeValue | field.go:75-134 | a scalar decodes iff the value has the runtime type; a container value of the wrong shape fails with "Not converse interface{} to …" naming its type, leaving the field as it was |
| Decoding.Block | field.go:71-141 | the field's own block: a missing key fails iff the field is not omit-empty, and changes nothing; a present nil is skipped; only a present, decoded value is assigned; no other field changes |
| Decoding.Mutate | field.go:142-143 | the polymorphic field's `mutate()`: the struct's fields hold what the record's `mutate` method leaves in them, and names outside the struct keep their values; a non-polymorphic field has no hook |
| Decoding.DecodeStep | field.go:71-146 | a missing required key fails with "Not found field: key" and nothing changed; a present nil runs only the hook; without an error the record is `mutate()` applied to what the block left, and the last event is `mutate()` iff the field is polymorphic; an error comes before any `mutate()`; for a non-polymorphic or failing field no other field changes |
| Decoding.UnmarshalRQL | struct.go:27-47 | a nil receiver starts from `new(Name)`, and the record keeps to the struct's fields; a nil input returns nil before any field is read; a non-map input fails naming its type; either way the record is the receiver's or `new(Name)` |
| Decoding.ZeroRecordHoldsZeros | struct.go:29-31 | in `new(Name)` every field holds the zero value of its Go type |
| Decoding.DecodeFields | struct.go:42-44 | the field loop of the generated `UnmarshalRQL`, field by field with early exit; its properties are `DecodeFieldsAppend`, `DecodeOnly`, `DecodeStopsAt` and `MutateBeforeLaterFields` |
| Decoding.DecodeFieldsAppend | struct.go:42-44 | decoding consecutive runs of fields is decoding the first, then, unless that failed, the rest from where it left off |
| Decoding.DecodeOnly | field.go:71-146 | decoding changes only the run's own slots and the struct's fields `mutate()` may rewrite; no other name changes or appears |
| Decoding.DecodeOnlyOwn | field.go:71-146 | without a polymorphic field in the run, decoding changes only the run's own slots |
| Decoding.DecodeStopsAt | struct.go:42-44 | the first field whose fragment fails ends the method with that error, and no later field runs |
| Decoding.MissingRequiredStops | field.go:137-141 | a missing key of a required field ends the method with "Not found field: key" right there |
| Decoding.MutateEndsBlock | field.go:142-144 | when decoding gets through the polymorphic field, its last event is the `mutate()` call |
| Decoding.MutateBeforeLaterFields | field.go:142-144 | the polymorphic field's `mutate()` happens before every event of the later fields |
| Decoding.DecodeAfterMutate | field.go:142-144 | the fields after the polymorphic one decode from the record `mutate()` leaves, which is the hook applied to what the polymorphic field's block left |
| Decoding.DecodeScalar | field.go:75-88 | a scalar value decodes iff it has the runtime type; it is kept as is when the declared type is the runtime type and converted otherwise; a failure names the value's type |
| Decoding.ContainerPlanOf | field.go:96-133 | a container kind decodes with its shape, nested elements iff the element kind is `rql`, and otherwise scalar elements of the runtime type |
| Decoding.DecodeNotConverse | field.go:97-107 | a value not of the container's shape fails with "Not converse interface{} to …" naming its type, and leaves the field as it was |
| Decoding.DecodeContainer | field.go:108-133 | past the shape check, the field holds a container of that shape, and an array of the input's length |
| Decoding.DecodeContainerKeys | field.go:108-133 | past the shape check, a decoded map has keys among the input's; once every scalar element decodes, exactly the input's keys |
| Decoding.DecodeElemError | field.go:109-122 | an element without the runtime type fails with a message naming the whole container value's type, and leaves the fresh container partly filled in the field |
| Decoding.DecodeVerbatimMapFail | field.go:111-115 | a failed assertion into an element of a map of strings or bools leaves the zero value under a failing key |
| Decoding.NestedMapDecodesEmpty | field.go:125-132 | as written, a `map_rql` field is left empty whatever the input holds, and fails iff some element's `UnmarshalRQL` fails |
| Decoding.DecodeNestedMap | field.go:125-132 | the intended `map_rql` decoding fails iff some element fails, and otherwise stores every element's decoding under its key |
| Decoding.NestedMapLosesEntries | field.go:125-132 | on a non-empty input whose elements all decode, the written `map_rql` decoding succeeds but differs from the intended one, which holds entries |

## Left out

- `main` (rqlgen.go:310-344) is not modelled. It covers flag parsing, reading and parsing the source file, creating the output file, exit codes, and running `goimports`/`gofmt`. All of it is process and file I/O.
- `writeHeader` (rqlgen.go:294-308) is not modelled. It copies the import list of the parsed file into the output.
- `go/ast` and `go/parser` are not modelled.
  - A field type is a small `TypeExpr` datatype.
  - The target object and its declaration are small datatypes in `builder.dfy`.
- The two regular expressions over the raw tag (rqlgen.go:18-19, 243-247) are not modelled as regex matching.
  - A tag is given by what the patterns capture: the storage key, the omit marker, and the kind annotation if there is one.
  - `Builder.MatchKind` keeps the rule that the kind pattern matches only the fifteen kinds.
- Two panics of `getFieldTag` are not modelled:
  - a field without any struct tag panics on `field.Tag.Value` (rqlgen.go:243), but in the model every field has a tag;
  - the unguarded `out[1]` (rqlgen.go:245) panics on a tag without a `gorethink` part, but in the model the storage capture is always present.
- `Builder.GetFieldTag` and `Builder.ReadStruct` require what Go indexes without a check:
  - the first name of a field whose tag is bad (rqlgen.go:249);
  - the first name of every field (rqlgen.go:268);
  - the first character of the type name (rqlgen.go:262).
- `Builder.GetFieldTag`: the error names the type given by the `-type` flag (rqlgen.go:249). The model takes the type name as a parameter, and `Builder.ReadStruct` passes the object's name, which `main` looks up by that same flag.
- `Builder.LowerAscii`: lower-cases ASCII letters only. `strings.ToLower` of a first byte at or above 0x80 (a Latin-1 letter) is not modelled.
- `Builder.ReadFields` stores each field's type as `getFieldType` renders it as written, so a `[]T` field gets the type "". The corrected rendering `TypeExprs.GetFieldTypeFixed` is not used by the builder (see Findings).
- `Builder.ReadFields` is the field loop of `readStruct`, split out as its own method. It allocates each `Field` as a value rather than as a fresh pointer appended to the struct.
- rqlgen.go:22-201 repeats `Field`, `Struct` and their four methods. That copy is not modelled: the model follows field.go and struct.go. The copies diverge. The copy's `rql`-container decoding (rqlgen.go:141) uses the type name where field.go:127 uses the receiver's short name, and calls the misspelled `UmarshalRQL`.
- `FieldGen.PlanOf` requires `Dispatchable`. Go panics with an index out of range on a kind that is neither a scalar, nor `rql`, nor contains `_`. `readStruct` never produces such a kind (`FieldGen.PlanAgreesWithKind`).
- Each fragment is passed to `fmt.Fprintf` as a format string (struct.go:21, 43). The model treats it as plain text: a `%` in a key or name is not re-interpreted.
- Writing to the `io.Writer` cannot fail in the model, and the writer's errors are ignored as in the source.
- Some emitted fragments are not well-typed Go. Examples are `f[k], ok = T(v)` (field.go:44), the undeclared `tmp` in element loops (field.go:117), and the cast at field.go:121. `Encoding` and `Decoding` give them the meaning their text evidently intends. The conversion with an ok flag is the `checkedConvert` parameter, and casts are the `convert` parameter.
- `reflect.TypeOf(...).String()` of values other than scalars, slices and maps is a name carried by `Values.Value.Other`.
- Go's map iteration order is not modelled. When several map entries fail, `Values.ConvertMap` gives the error of some failing entry. `Values.PartialMap` gives some set of converted entries, plus at most one failing entry.
- Pointer receivers and aliasing are not modelled. A record is a value (`Encoding.Record`). The nested records' `MarshalRQL`/`UnmarshalRQL` are the `marshal`/`unmarshal` parameters of `Values.Env`.
  - `Decoding.UnmarshalRQL`: with a nil receiver the method decodes into a fresh record, which the model returns. In Go that record is assigned to the local receiver only, and the caller never sees it.
  - `Values.Env.unmarshal` applied to the zero element stands for what a nested `UnmarshalRQL` leaves in an element of a freshly made slice (field.go:127).
    - For `[]T` the call decodes into the element in place.
    - For `[]*T` the element is nil, and the nil-receiver `UnmarshalRQL` decodes into a record of its own, so the element stays nil and the decoded data is lost. This is the same defect as the `map_rql` finding. The model does not tell the two element types apart, because as written a slice field's Go type renders as "" (first finding).
  - A `map_rql` field is modelled for `map[string]*T`, where the field stays empty (see Findings). With `map[string]T` the emitted call does not compile.
- Decoding an `rql` field hands the current value and the input to the `unmarshal` parameter, and takes back the value and error it returns.
- Declared Go types are strings (`Field.goType`). Whether a cast compiles is not modelled.
- Zero values of Go types other than the four runtime scalar types are all `Nil` (`Values.ZeroOf`). A zero `int` or `float32` is not told apart from nil.
- `Encoding.EncodeScalarContainer`: the model stores an untyped `Arr`/`Obj`. Go stores a typed `[]gType` or `map[string]gType` (field.go:36-38, 50).
  - `Values.Value` carries no element type, so the dynamic type of such a value is not modelled.
  - Go's `[]interface{}` or `map[string]interface{}` assertion on such a value (field.go:98, 103) fails. In the model the same assertion succeeds.
- No runtime round trip of the emitted code is stated. The generated code is not well-typed in every case (see above), and its behaviour depends on the nested codecs and conversions.

## Findings

| source | as written | input that shows it | evidently intended | confidence | as-written member | corrected member |
|---|---|---|---|---|---|---|
| rqlgen.go:236-237 | `getFieldType` renders `*ast.SliceExpr` (a slicing expression `x[lo:hi]`, never a field type) and lets `*ast.ArrayType`, the node of `[]T`, fall through to "" | a field declared `Tags []string` gets type "", so the emitted `make(, len(...))` for an `array_*` field does not compile, and `[]string` and `[]int` render alike | render the slice type `[]T` as "[]" followed by the rendering of `T` | not executed | TypeExprs.SliceTypeRendersEmpty | TypeExprs.ParseRender |
| field.go:127 | each element of a `map_rql` field is decoded through `x.F[k].UnmarshalRQL(v)`. With `map[string]*T`, `x.F[k]` looks the key up in the map freshly made at field.go:108, which is empty, and gives nil. The nil-receiver `UnmarshalRQL` then decodes into a record of its own, so nothing is stored. (With `map[string]T` the line does not compile at all, because a map element is not addressable.) | a `map_rql` field and the input `{"a": {}}`, whose element decodes without error: the field ends as the empty map made at field.go:108 | decode each element and store the result under its key | not executed | Decoding.NestedMapLosesEntries | Decoding.DecodeNestedMap |
