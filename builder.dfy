/**
 * Building the `Struct` model from a parsed struct declaration:
 * `getFieldTag` and `readStruct`.
 */
module Builder {
  import opened Wrappers
  import opened Kinds
  import opened TypeExprs
  import opened Model

  /**
   * What the `gorethink:"..."` pattern captures in a field's tag: the
   * storage key, and the `omidempty` marker ("" when it is absent).
   */
  datatype StorageTag = StorageTag(key: string, omit: string)

  /**
   * A field's tag as the generator reads it: the storage captures and the
   * quoted value of the `rqlgen:"..."` annotation, if the tag has one.
   */
  datatype FieldTag = FieldTag(storage: StorageTag, kind: Option<string>)

  /** A field of a struct declaration: its names, its type expression and its tag. */
  datatype AstField = AstField(names: seq<string>, typ: TypeExpr, tag: FieldTag)

  /** The kinds of `go/ast` objects. */
  datatype ObjKind = Bad | Pkg | Con | Typ | Var | Fun | Lbl

  datatype TypeSpecType = StructType(fields: seq<AstField>) | NonStructType(expr: TypeExpr)

  datatype Decl = TypeSpec(typ: TypeSpecType) | OtherDecl

  /** The object the target type name resolves to in the file scope. */
  datatype Object = Object(name: string, kind: ObjKind, decl: Decl)

  /** The three strings `getFieldTag` returns: key, omit marker, kind. */
  datatype Tags = Tags(key: string, omit: string, kind: string)

  /** The `rqlgen` pattern matches an annotation value exactly when it is one of the fifteen kinds. */
  function MatchKind(tag: FieldTag): (m: Option<string>)
    ensures m.Some? <==> tag.kind.Some? && IsValidKind(tag.kind.value)
    ensures m.Some? ==> m.value == tag.kind.value
  {
    if tag.kind.Some? && IsValidKind(tag.kind.value) then tag.kind else None
  }

  function TagError(typeName: string, fieldName: string): string {
    "Please, set correct base type for " + typeName + "." + fieldName + "\n"
  }

  /**
   * `getFieldTag`: the storage captures and the kind, or an error naming
   * `Type.Field` when the kind annotation is missing or not one of the kinds.
   */
  function GetFieldTag(typeName: string, field: AstField): (r: Result<Tags, string>)
    requires MatchKind(field.tag).None? ==> |field.names| >= 1
    ensures r.Err? <==> field.tag.kind.None? || !IsValidKind(field.tag.kind.value)
    ensures r.Err? ==> r.error == TagError(typeName, field.names[0])
    ensures r.Ok? ==> r.value.key == field.tag.storage.key && r.value.omit == field.tag.storage.omit
    ensures r.Ok? ==> IsValidKind(r.value.kind) && Some(r.value.kind) == field.tag.kind
  {
    var storage := field.tag.storage;
    match MatchKind(field.tag)
    case None => Err(TagError(typeName, field.names[0]))
    case Some(kind) => Ok(Tags(storage.key, storage.omit, kind))
  }

  /** ASCII lower-casing of one character, as `strings.ToLower` does for it. */
  function LowerAscii(c: char): (d: char)
    ensures 'A' <= c <= 'Z' ==> d as int == c as int + 32
    ensures !('A' <= c <= 'Z') ==> d == c
  {
    if 'A' <= c <= 'Z' then (c as int + 32) as char else c
  }

  /** The object is a type declared as a struct. */
  predicate IsStructObject(o: Object) {
    o.kind == Typ && o.decl.TypeSpec? && o.decl.typ.StructType?
  }

  /** The declared fields of a struct object, none for anything else. */
  function DeclaredFields(o: Object): seq<AstField> {
    if IsStructObject(o) then o.decl.typ.fields else []
  }

  /** Field `f` is what `readStruct` makes of declared field `d` for polymorphic field name `poly`. */
  predicate Describes(f: Field, d: AstField, poly: string)
    requires |d.names| >= 1
  {
    && f.name == d.names[0]
    && f.dbName == d.tag.storage.key
    && (f.omidempty <==> |d.tag.storage.omit| != 0)
    && Some(f.dbType) == d.tag.kind
    && f.goType == GetFieldType(d.typ)
    && (f.isPolymorphic <==> f.name == poly)
  }

  /** Index `i` holds the first declared field whose kind annotation is missing or invalid. */
  predicate FirstBadField(ds: seq<AstField>, i: nat) {
    && i < |ds|
    && MatchKind(ds[i].tag).None?
    && forall j :: 0 <= j < i ==> MatchKind(ds[j].tag).Some?
  }

  /**
   * The field loop of `readStruct`: one `Field` per declared field, in
   * declaration order, or the error of the first field whose kind
   * annotation is missing or invalid.
   */
  method ReadFields(typeName: string, list: seq<AstField>, polyField: string) returns (r: Result<seq<Field>, string>)
    requires forall d <- list :: |d.names| >= 1
    ensures r.Err? <==> exists i :: 0 <= i < |list| && MatchKind(list[i].tag).None?
    ensures r.Err? ==> exists i: nat :: FirstBadField(list, i) && r.error == TagError(typeName, list[i].names[0])
    ensures r.Ok? ==> |r.value| == |list|
    ensures r.Ok? ==> forall i :: 0 <= i < |list| ==> Describes(r.value[i], list[i], polyField)
    ensures r.Ok? ==> forall f <- r.value :: IsValidKind(f.dbType)
  {
    var fields: seq<Field> := [];
    var i := 0;
    while i < |list|
      invariant 0 <= i <= |list| && |fields| == i
      invariant forall j :: 0 <= j < i ==> MatchKind(list[j].tag).Some?
      invariant forall j :: 0 <= j < i ==> Describes(fields[j], list[j], polyField)
      invariant forall f <- fields :: IsValidKind(f.dbType)
    {
      var field := list[i];
      var fieldName := field.names[0];
      var tags := GetFieldTag(typeName, field);
      if tags.Err? {
        assert FirstBadField(list, i);
        return Err(tags.error);
      }
      var f := Field(
        fieldName,
        tags.value.key,
        GetFieldType(field.typ),
        |tags.value.omit| != 0,
        fieldName == polyField,
        tags.value.kind);
      fields := fields + [f];
      i := i + 1;
    }
    return Ok(fields);
  }

  /**
   * `readStruct`: the `Struct` for the object the target name resolves to,
   * with one field per declared field in declaration order, or the error
   * that stops the whole build.
   */
  method ReadStruct(obj: Option<Object>, polyField: string) returns (r: Result<Struct, string>)
    requires obj.Some? ==> |obj.value.name| >= 1
    requires obj.Some? ==> forall d <- DeclaredFields(obj.value) :: |d.names| >= 1
    ensures obj.None? ==> r == Err("Not found target struct")
    ensures obj.Some? && !(obj.value.kind == Typ && obj.value.decl.TypeSpec?) ==> r == Err("Tagret isn't type")
    ensures obj.Some? && obj.value.kind == Typ && obj.value.decl.TypeSpec? && !obj.value.decl.typ.StructType? ==>
              r == Err("Tagret isn't struct")
    ensures obj.Some? && IsStructObject(obj.value) ==>
              (r.Err? <==> exists i :: 0 <= i < |DeclaredFields(obj.value)| && MatchKind(DeclaredFields(obj.value)[i].tag).None?)
    ensures obj.Some? && IsStructObject(obj.value) && r.Err? ==>
              exists i: nat :: FirstBadField(DeclaredFields(obj.value), i) &&
                          r.error == TagError(obj.value.name, DeclaredFields(obj.value)[i].names[0])
    ensures r.Ok? ==> obj.Some? && IsStructObject(obj.value)
    ensures r.Ok? ==> r.value.name == obj.value.name && r.value.shortName == [LowerAscii(obj.value.name[0])]
    ensures r.Ok? ==> |r.value.fields| == |DeclaredFields(obj.value)|
    ensures r.Ok? ==> forall i :: 0 <= i < |r.value.fields| ==>
              Describes(r.value.fields[i], DeclaredFields(obj.value)[i], polyField)
    ensures r.Ok? ==> forall f <- r.value.fields :: IsValidKind(f.dbType)
  {
    if obj.None? {
      return Err("Not found target struct");
    }
    var o := obj.value;
    var name := o.name;
    var shortName := [LowerAscii(name[0])];
    if o.kind != Typ || !o.decl.TypeSpec? {
      return Err("Tagret isn't type");
    }
    if !o.decl.typ.StructType? {
      return Err("Tagret isn't struct");
    }
    var list := o.decl.typ.fields;
    assert DeclaredFields(o) == list;
    var fields := ReadFields(name, list, polyField);
    if fields.Err? {
      return Err(fields.error);
    }
    r := Ok(Struct(fields.value, name, shortName));
    assert r.value.fields == fields.value;
  }

  /** Distinct field names leave at most one field marked polymorphic. */
  lemma SinglePolymorphicField(fields: seq<Field>, poly: string)
    requires forall i :: 0 <= i < |fields| ==> (fields[i].isPolymorphic <==> fields[i].name == poly)
    requires forall i, j :: 0 <= i < j < |fields| ==> fields[i].name != fields[j].name
    ensures forall i, j :: 0 <= i < |fields| && 0 <= j < |fields| && fields[i].isPolymorphic && fields[j].isPolymorphic ==> i == j
  {
  }
}
