/**
 * Rendering of a field's declared Go type (`getFieldType`) over a small
 * model of the `go/ast` expression nodes that can stand in a field type.
 */
module TypeExprs {
  import opened Wrappers

  /**
   * The `go/ast` expression shapes `getFieldType` distinguishes. `ArrayType`
   * is the node of the type `[]T` (`sized` is false) or `[N]T`; `SliceExpr`
   * is the node of the slicing expression `x[lo:hi]`; every other node
   * (func, chan, interface, struct, ...) is `OtherExpr`.
   */
  datatype TypeExpr =
    | Ident(name: string)
    | StarExpr(x: TypeExpr)
    | SelectorExpr(x: TypeExpr, sel: string)
    | MapType(key: TypeExpr, value: TypeExpr)
    | ArrayType(sized: bool, elt: TypeExpr)
    | SliceExpr(x: TypeExpr)
    | OtherExpr

  /**
   * `getFieldType` as written: the `*ast.SliceExpr` case is where a slice
   * type was meant, and `*ast.ArrayType` falls through to "".
   */
  function GetFieldType(e: TypeExpr): string {
    match e
    case Ident(name) => name
    case StarExpr(x) =>
      (match x
       case Ident(name) => "*" + name
       case SelectorExpr(Ident(pkg), sel) => "*" + pkg + "." + sel
       case _ => "")
    case SelectorExpr(Ident(pkg), sel) => pkg + "." + sel
    case MapType(key, value) => "map[" + GetFieldType(key) + "]" + GetFieldType(value)
    case SliceExpr(x) => "[]" + GetFieldType(x)
    case _ => ""
  }

  /** `getFieldType` with the slice type `[]T` rendered as "[]" followed by T. */
  function GetFieldTypeFixed(e: TypeExpr): string {
    match e
    case Ident(name) => name
    case StarExpr(x) =>
      (match x
       case Ident(name) => "*" + name
       case SelectorExpr(Ident(pkg), sel) => "*" + pkg + "." + sel
       case _ => "")
    case SelectorExpr(Ident(pkg), sel) => pkg + "." + sel
    case MapType(key, value) => "map[" + GetFieldTypeFixed(key) + "]" + GetFieldTypeFixed(value)
    case ArrayType(false, elt) => "[]" + GetFieldTypeFixed(elt)
    case SliceExpr(x) => "[]" + GetFieldTypeFixed(x)
    case _ => ""
  }

  /** No `ArrayType` node occurs in the expression: the only shape the two renderings treat differently. */
  predicate NoArrayType(e: TypeExpr) {
    match e
    case Ident(_) => true
    case StarExpr(x) => NoArrayType(x)
    case SelectorExpr(x, _) => NoArrayType(x)
    case MapType(k, v) => NoArrayType(k) && NoArrayType(v)
    case ArrayType(_, _) => false
    case SliceExpr(x) => NoArrayType(x)
    case OtherExpr => true
  }

  /**
   * `getFieldType` as written renders every field type without a slice or
   * array type in it exactly as the corrected rendering does, so the
   * properties proved of the corrected one hold of it there.
   */
  lemma {:induction false} GetFieldTypeAgrees(e: TypeExpr)
    requires NoArrayType(e)
    ensures GetFieldType(e) == GetFieldTypeFixed(e)
  {
    match e
    case MapType(k, v) =>
      GetFieldTypeAgrees(k);
      GetFieldTypeAgrees(v);
    case SliceExpr(x) =>
      GetFieldTypeAgrees(x);
    case _ =>
  }

  /** The well-formed field types `getFieldType` as written can tell apart: those without a slice type. */
  lemma AsWrittenRenderInjective(e1: TypeExpr, e2: TypeExpr)
    requires WellFormed(e1) && WellFormed(e2) && NoArrayType(e1) && NoArrayType(e2)
    requires GetFieldType(e1) == GetFieldType(e2)
    ensures e1 == e2
  {
    GetFieldTypeAgrees(e1);
    GetFieldTypeAgrees(e2);
    RenderInjective(e1, e2);
  }

  /** As written, every slice-typed field, whatever its element type, is rendered as "". */
  lemma SliceTypeRendersEmpty(elt: TypeExpr)
    ensures GetFieldType(ArrayType(false, elt)) == ""
    ensures GetFieldType(ArrayType(false, Ident("string"))) == GetFieldType(ArrayType(false, Ident("int")))
  {
  }

  // ---------------------------------------------------------------------
  // Reading a rendered type back
  // ---------------------------------------------------------------------

  /** Characters that may occur in an identifier as far as type syntax is concerned. */
  predicate IsNameChar(c: char) {
    c != '[' && c != ']' && c != '*' && c != '.'
  }

  predicate IsName(s: string) {
    |s| > 0 && forall i :: 0 <= i < |s| ==> IsNameChar(s[i])
  }

  /**
   * The type expressions a Go field type can be and `getFieldType` means to
   * render: names, pointers to names, qualified names, maps and slices.
   */
  predicate WellFormed(e: TypeExpr) {
    match e
    case Ident(n) => IsName(n)
    case StarExpr(Ident(n)) => IsName(n)
    case StarExpr(SelectorExpr(Ident(pkg), sel)) => IsName(pkg) && IsName(sel)
    case StarExpr(_) => false
    case SelectorExpr(Ident(pkg), sel) => IsName(pkg) && IsName(sel)
    case SelectorExpr(_, _) => false
    case MapType(k, v) => WellFormed(k) && WellFormed(v)
    case ArrayType(sized, elt) => !sized && WellFormed(elt)
    case SliceExpr(_) => false
    case OtherExpr => false
  }

  /** End of the run of name characters that starts at `i`. */
  function NameEnd(t: string, i: nat): (j: nat)
    requires i <= |t|
    ensures i <= j <= |t|
    decreases |t| - i
  {
    if i == |t| || !IsNameChar(t[i]) then i else NameEnd(t, i + 1)
  }

  /** Reads `name` or `pkg.name` at position `i` of `t`, returning it with the position after it. */
  function ParseNameAt(t: string, i: nat): (r: Option<(TypeExpr, nat)>)
    requires i <= |t|
    ensures r.Some? ==> i < r.value.1 <= |t|
  {
    var n := NameEnd(t, i);
    if n == i then None
    else if n < |t| && t[n] == '.' then
      var m := NameEnd(t, n + 1);
      if m == n + 1 then None
      else Some((SelectorExpr(Ident(t[i..n]), t[n + 1..m]), m))
    else Some((Ident(t[i..n]), n))
  }

  /** `map[` stands at position `i` of `t`. */
  predicate MapOpensAt(t: string, i: nat) {
    i + 4 <= |t| && t[i] == 'm' && t[i + 1] == 'a' && t[i + 2] == 'p' && t[i + 3] == '['
  }

  /** `[]` stands at position `i` of `t`. */
  predicate SliceOpensAt(t: string, i: nat) {
    i + 2 <= |t| && t[i] == '[' && t[i + 1] == ']'
  }

  /** `*` stands at position `i` of `t`. */
  predicate StarAt(t: string, i: nat) {
    i < |t| && t[i] == '*'
  }

  /** Reads one type at position `i` of `t`, returning it with the position after it. */
  function ParseAt(t: string, i: nat): (r: Option<(TypeExpr, nat)>)
    requires i <= |t|
    ensures r.Some? ==> i < r.value.1 <= |t|
    decreases |t| - i, 1
  {
    if MapOpensAt(t, i) then ParseMapAfter(t, i)
    else if SliceOpensAt(t, i) then ParseSliceAfter(t, i)
    else if StarAt(t, i) then
      var nr := ParseNameAt(t, i + 1);
      if nr.None? then None else Some((StarExpr(nr.value.0), nr.value.1))
    else
      ParseNameAt(t, i)
  }

  /** Reads the key, the `]` and the value of a map type whose `map[` stands at `i`. */
  function ParseMapAfter(t: string, i: nat): (r: Option<(TypeExpr, nat)>)
    requires MapOpensAt(t, i)
    ensures r.Some? ==> i < r.value.1 <= |t|
    decreases |t| - i, 0
  {
    var kr := ParseAt(t, i + 4);
    if kr.None? || kr.value.1 == |t| || t[kr.value.1] != ']' then None
    else
      var vr := ParseAt(t, kr.value.1 + 1);
      if vr.None? then None else Some((MapType(kr.value.0, vr.value.0), vr.value.1))
  }

  /** Reads the element of a slice type whose `[]` stands at `i`. */
  function ParseSliceAfter(t: string, i: nat): (r: Option<(TypeExpr, nat)>)
    requires SliceOpensAt(t, i)
    ensures r.Some? ==> i < r.value.1 <= |t|
    decreases |t| - i, 0
  {
    var er := ParseAt(t, i + 2);
    if er.None? then None else Some((ArrayType(false, er.value.0), er.value.1))
  }

  /** Reads a whole type string; `None` unless the type covers all of it. */
  function ParseType(s: string): Option<TypeExpr> {
    var r := ParseAt(s, 0);
    if r.Some? && r.value.1 == |s| then Some(r.value.0) else None
  }

  /** `r` occurs in `t` at position `i`. */
  predicate OccursAt(t: string, i: nat, r: string) {
    i + |r| <= |t| && t[i..i + |r|] == r
  }

  /** What may follow a rendered type at position `j`: the end, or the `]` closing a map key. */
  predicate FollowsAt(t: string, j: nat) {
    j == |t| || (j < |t| && t[j] == ']')
  }

  lemma CharAt(t: string, i: nat, r: string, k: nat)
    requires OccursAt(t, i, r) && k < |r|
    ensures t[i + k] == r[k]
  {
    assert t[i..i + |r|][k] == t[i + k];
  }

  lemma PartAt(t: string, i: nat, r: string, a: nat, b: nat)
    requires OccursAt(t, i, r) && a <= b <= |r|
    ensures OccursAt(t, i + a, r[a..b])
  {
    forall k | 0 <= k < b - a
      ensures t[i + a..i + b][k] == r[a..b][k]
    {
      assert t[i..i + |r|][a + k] == t[i + a + k];
    }
  }

  lemma {:induction false} NameEndOf(t: string, i: nat, n: string)
    requires OccursAt(t, i, n)
    requires forall k :: 0 <= k < |n| ==> IsNameChar(n[k])
    requires i + |n| == |t| || !IsNameChar(t[i + |n|])
    ensures NameEnd(t, i) == i + |n|
    decreases |n|
  {
    if |n| > 0 {
      CharAt(t, i, n, 0);
      PartAt(t, i, n, 1, |n|);
      NameEndOf(t, i + 1, n[1..]);
    }
  }

  /** Where the package, the dot and the selected name of `pkg.name` stand. */
  lemma SelectorPartsAt(t: string, i: nat, p: string, q: string)
    requires OccursAt(t, i, p + "." + q)
    ensures OccursAt(t, i, p) && t[i + |p|] == '.' && OccursAt(t, i + |p| + 1, q)
  {
    var r := p + "." + q;
    PartAt(t, i, r, 0, |p|);
    assert r[..|p|] == p;
    CharAt(t, i, r, |p|);
    PartAt(t, i, r, |p| + 1, |r|);
    assert r[|p| + 1..] == q;
  }

  /** `pkg.name` at `i`, followed by what may follow a type, reads back as the selector. */
  lemma ParseSelectorOf(t: string, i: nat, p: string, q: string)
    requires IsName(p) && IsName(q)
    requires OccursAt(t, i, p + "." + q) && FollowsAt(t, i + |p| + 1 + |q|)
    ensures ParseNameAt(t, i) == Some((SelectorExpr(Ident(p), q), i + |p| + 1 + |q|))
  {
    SelectorPartsAt(t, i, p, q);
    NameEndOf(t, i, p);
    NameEndOf(t, i + |p| + 1, q);
  }

  /** A name (or `pkg.name`) at `i`, followed by what may follow a type, reads back as itself. */
  lemma ParseNameOf(t: string, i: nat, e: TypeExpr)
    requires (e.Ident? && IsName(e.name)) || (e.SelectorExpr? && e.x.Ident? && IsName(e.x.name) && IsName(e.sel))
    requires OccursAt(t, i, GetFieldTypeFixed(e)) && FollowsAt(t, i + |GetFieldTypeFixed(e)|)
    ensures ParseNameAt(t, i) == Some((e, i + |GetFieldTypeFixed(e)|))
  {
    if e.Ident? {
      NameEndOf(t, i, e.name);
    } else {
      ParseSelectorOf(t, i, e.x.name, e.sel);
    }
  }

  /** A name-led rendering at `i` starts with none of the prefixes `ParseAt` looks for. */
  lemma NameLedAt(t: string, i: nat, n: string)
    requires IsName(n) && OccursAt(t, i, n)
    requires i + |n| == |t| || t[i + |n|] == '.' || t[i + |n|] == ']'
    ensures !MapOpensAt(t, i) && !SliceOpensAt(t, i) && !StarAt(t, i)
  {
    CharAt(t, i, n, 0);
    if |n| > 3 {
      CharAt(t, i, n, 3);
    } else if |n| == 2 {
      CharAt(t, i, n, 1);
    } else if |n| == 3 {
      CharAt(t, i, n, 1);
      CharAt(t, i, n, 2);
    }
  }

  /** A rendered map type opens with `map[` and has `]` right after its key. */
  lemma MapBracketsAt(t: string, i: nat, k: TypeExpr, v: TypeExpr)
    requires OccursAt(t, i, GetFieldTypeFixed(MapType(k, v)))
    ensures MapOpensAt(t, i)
    ensures i + 4 + |GetFieldTypeFixed(k)| < |t| && t[i + 4 + |GetFieldTypeFixed(k)|] == ']'
  {
    var r, kt := GetFieldTypeFixed(MapType(k, v)), GetFieldTypeFixed(k);
    assert r == "map[" + kt + "]" + GetFieldTypeFixed(v);
    CharAt(t, i, r, 0);
    CharAt(t, i, r, 1);
    CharAt(t, i, r, 2);
    CharAt(t, i, r, 3);
    CharAt(t, i, r, 4 + |kt|);
  }

  /** `map[`, a key ending at `j`, `]` and a value ending at `e` read back as the map type. */
  lemma ParseMapAfterOf(t: string, i: nat, k: TypeExpr, v: TypeExpr, j: nat, e: nat)
    requires MapOpensAt(t, i)
    requires ParseAt(t, i + 4) == Some((k, j)) && j < |t| && t[j] == ']'
    requires ParseAt(t, j + 1) == Some((v, e))
    ensures ParseAt(t, i) == Some((MapType(k, v), e))
  {
    assert ParseMapAfter(t, i) == Some((MapType(k, v), e));
  }

  lemma ParseSliceAt(t: string, i: nat, elt: TypeExpr)
    requires OccursAt(t, i, GetFieldTypeFixed(ArrayType(false, elt)))
    requires ParseAt(t, i + 2) == Some((elt, i + |GetFieldTypeFixed(ArrayType(false, elt))|))
    ensures ParseAt(t, i) == Some((ArrayType(false, elt), i + |GetFieldTypeFixed(ArrayType(false, elt))|))
  {
    var r := GetFieldTypeFixed(ArrayType(false, elt));
    CharAt(t, i, r, 0);
    CharAt(t, i, r, 1);
    if i + 4 <= |t| {
      assert t[i] != 'm';
    }
  }

  lemma ParseStarAt(t: string, i: nat, x: TypeExpr)
    requires OccursAt(t, i, "*" + GetFieldTypeFixed(x))
    requires ParseNameAt(t, i + 1) == Some((x, i + 1 + |GetFieldTypeFixed(x)|))
    ensures ParseAt(t, i) == Some((StarExpr(x), i + 1 + |GetFieldTypeFixed(x)|))
  {
    CharAt(t, i, "*" + GetFieldTypeFixed(x), 0);
  }

  /** Where the key and the value of a rendered map type stand. */
  lemma MapPartsAt(t: string, i: nat, k: TypeExpr, v: TypeExpr)
    requires OccursAt(t, i, GetFieldTypeFixed(MapType(k, v)))
    ensures OccursAt(t, i + 4, GetFieldTypeFixed(k))
    ensures FollowsAt(t, i + 4 + |GetFieldTypeFixed(k)|)
    ensures OccursAt(t, i + 5 + |GetFieldTypeFixed(k)|, GetFieldTypeFixed(v))
    ensures i + 5 + |GetFieldTypeFixed(k)| + |GetFieldTypeFixed(v)| == i + |GetFieldTypeFixed(MapType(k, v))|
  {
    var r, kt, vt := GetFieldTypeFixed(MapType(k, v)), GetFieldTypeFixed(k), GetFieldTypeFixed(v);
    assert r == "map[" + kt + "]" + vt;
    MapTextParts(kt, vt);
    PartAt(t, i, r, 4, 4 + |kt|);
    CharAt(t, i, r, 4 + |kt|);
    PartAt(t, i, r, 5 + |kt|, |r|);
  }

  /** Where the key, the `]` and the value stand in the text of a map type. */
  lemma MapTextParts(kt: string, vt: string)
    ensures var r := "map[" + kt + "]" + vt;
      && |r| == 5 + |kt| + |vt|
      && r[4..4 + |kt|] == kt && r[4 + |kt|] == ']' && r[5 + |kt|..] == vt
  {
    var r := "map[" + kt + "]" + vt;
    assert r[4..4 + |kt|] == kt;
    assert r[5 + |kt|..] == vt;
  }

  /** Where the element of a rendered slice type stands. */
  lemma SlicePartAt(t: string, i: nat, elt: TypeExpr)
    requires OccursAt(t, i, GetFieldTypeFixed(ArrayType(false, elt)))
    ensures OccursAt(t, i + 2, GetFieldTypeFixed(elt))
    ensures i + 2 + |GetFieldTypeFixed(elt)| == i + |GetFieldTypeFixed(ArrayType(false, elt))|
  {
    var r, et := GetFieldTypeFixed(ArrayType(false, elt)), GetFieldTypeFixed(elt);
    assert r == "[]" + et;
    PartAt(t, i, r, 2, |r|);
    assert r[2..] == et;
  }

  lemma ParseStarCase(t: string, i: nat, x: TypeExpr)
    requires WellFormed(StarExpr(x))
    requires OccursAt(t, i, GetFieldTypeFixed(StarExpr(x))) && FollowsAt(t, i + |GetFieldTypeFixed(StarExpr(x))|)
    ensures ParseAt(t, i) == Some((StarExpr(x), i + |GetFieldTypeFixed(StarExpr(x))|))
  {
    var r := GetFieldTypeFixed(StarExpr(x));
    assert r == "*" + GetFieldTypeFixed(x);
    PartAt(t, i, r, 1, |r|);
    assert r[1..] == GetFieldTypeFixed(x);
    ParseNameOf(t, i + 1, x);
    ParseStarAt(t, i, x);
  }

  lemma ParseNameCase(t: string, i: nat, e: TypeExpr)
    requires e.Ident? || e.SelectorExpr?
    requires WellFormed(e)
    requires OccursAt(t, i, GetFieldTypeFixed(e)) && FollowsAt(t, i + |GetFieldTypeFixed(e)|)
    ensures ParseAt(t, i) == Some((e, i + |GetFieldTypeFixed(e)|))
  {
    if e.Ident? {
      NameLedAt(t, i, e.name);
    } else {
      SelectorPartsAt(t, i, e.x.name, e.sel);
      NameLedAt(t, i, e.x.name);
    }
    ParseNameOf(t, i, e);
  }

  lemma {:induction false} ParseMapCase(t: string, i: nat, k: TypeExpr, v: TypeExpr)
    requires WellFormed(MapType(k, v))
    requires OccursAt(t, i, GetFieldTypeFixed(MapType(k, v))) && FollowsAt(t, i + |GetFieldTypeFixed(MapType(k, v))|)
    ensures ParseAt(t, i) == Some((MapType(k, v), i + |GetFieldTypeFixed(MapType(k, v))|))
    decreases MapType(k, v), 2
  {
    MapPartsAt(t, i, k, v);
    MapBracketsAt(t, i, k, v);
    ParseMapParts(t, i, k, v);
  }

  /** The map case, once the key, the `]` and the value are known to stand in place. */
  lemma {:induction false} ParseMapParts(t: string, i: nat, k: TypeExpr, v: TypeExpr)
    requires WellFormed(MapType(k, v)) && MapOpensAt(t, i)
    requires OccursAt(t, i + 4, GetFieldTypeFixed(k)) && FollowsAt(t, i + 4 + |GetFieldTypeFixed(k)|)
    requires i + 4 + |GetFieldTypeFixed(k)| < |t| && t[i + 4 + |GetFieldTypeFixed(k)|] == ']'
    requires OccursAt(t, i + 4 + |GetFieldTypeFixed(k)| + 1, GetFieldTypeFixed(v))
    requires FollowsAt(t, i + 4 + |GetFieldTypeFixed(k)| + 1 + |GetFieldTypeFixed(v)|)
    ensures ParseAt(t, i) == Some((MapType(k, v), i + 4 + |GetFieldTypeFixed(k)| + 1 + |GetFieldTypeFixed(v)|))
    decreases MapType(k, v), 1
  {
    var j := i + 4 + |GetFieldTypeFixed(k)|;
    ParseKeyAt(t, i + 4, k, v);
    ParseValueAt(t, j + 1, k, v);
    ParseMapAfterOf(t, i, k, v, j, j + 1 + |GetFieldTypeFixed(v)|);
  }

  /** The key of a map type reads back where it was rendered. */
  lemma {:induction false} ParseKeyAt(t: string, p: nat, k: TypeExpr, v: TypeExpr)
    requires WellFormed(MapType(k, v))
    requires OccursAt(t, p, GetFieldTypeFixed(k)) && FollowsAt(t, p + |GetFieldTypeFixed(k)|)
    ensures ParseAt(t, p) == Some((k, p + |GetFieldTypeFixed(k)|))
    decreases MapType(k, v), 0
  {
    ParseRenderAt(t, p, k);
  }

  /** The value of a map type reads back where it was rendered. */
  lemma {:induction false} ParseValueAt(t: string, p: nat, k: TypeExpr, v: TypeExpr)
    requires WellFormed(MapType(k, v))
    requires OccursAt(t, p, GetFieldTypeFixed(v)) && FollowsAt(t, p + |GetFieldTypeFixed(v)|)
    ensures ParseAt(t, p) == Some((v, p + |GetFieldTypeFixed(v)|))
    decreases MapType(k, v), 0
  {
    ParseRenderAt(t, p, v);
  }

  lemma {:induction false} ParseSliceCase(t: string, i: nat, elt: TypeExpr)
    requires WellFormed(ArrayType(false, elt))
    requires OccursAt(t, i, GetFieldTypeFixed(ArrayType(false, elt)))
    requires FollowsAt(t, i + |GetFieldTypeFixed(ArrayType(false, elt))|)
    ensures ParseAt(t, i) == Some((ArrayType(false, elt), i + |GetFieldTypeFixed(ArrayType(false, elt))|))
    decreases ArrayType(false, elt), 2
  {
    SlicePartAt(t, i, elt);
    ParseRenderAt(t, i + 2, elt);
    ParseSliceAt(t, i, elt);
  }

  /**
   * For the type shapes a field can have, the corrected rendering loses
   * nothing: the text, wherever it stands, reads back as the type it was
   * rendered from.
   */
  lemma {:induction false} ParseRenderAt(t: string, i: nat, e: TypeExpr)
    requires WellFormed(e)
    requires OccursAt(t, i, GetFieldTypeFixed(e)) && FollowsAt(t, i + |GetFieldTypeFixed(e)|)
    ensures ParseAt(t, i) == Some((e, i + |GetFieldTypeFixed(e)|))
    decreases e, 3
  {
    match e
    case Ident(_) => ParseNameCase(t, i, e);
    case SelectorExpr(_, _) => ParseNameCase(t, i, e);
    case StarExpr(x) => ParseStarCase(t, i, x);
    case MapType(k, v) => ParseMapCase(t, i, k, v);
    case ArrayType(_, elt) => ParseSliceCase(t, i, elt);
  }

  /** The corrected rendering of a field type reads back as that type. */
  lemma ParseRender(e: TypeExpr)
    requires WellFormed(e)
    ensures ParseType(GetFieldTypeFixed(e)) == Some(e)
  {
    var r := GetFieldTypeFixed(e);
    assert r[0..0 + |r|] == r;
    ParseRenderAt(r, 0, e);
  }

  /** Distinct field types get distinct corrected renderings. */
  lemma RenderInjective(e1: TypeExpr, e2: TypeExpr)
    requires WellFormed(e1) && WellFormed(e2)
    requires GetFieldTypeFixed(e1) == GetFieldTypeFixed(e2)
    ensures e1 == e2
  {
    ParseRender(e1);
    ParseRender(e2);
  }
}
