/**
 * Writing the two methods of the generated codec for one struct:
 * `writeMarshal` and `writeUnmarshal`.
 */
module StructGen {
  import opened Kinds
  import opened Model
  import opened FieldGen

  /**
   * The output the generated code is written to. `writes` holds the text of
   * every write so far, one entry per call, in order.
   */
  class Writer {
    var writes: seq<string>

    constructor()
      ensures writes == []
    {
      writes := [];
    }

    /** Everything written so far. */
    function Text(): string
      reads this
    {
      Concat(writes)
    }

    /** Writes `text` to the output. */
    method Write(text: string)
      modifies this
      ensures writes == old(writes) + [text]
    {
      writes := writes + [text];
    }
  }

  function Digit(d: nat): char
    requires d < 10
  {
    "0123456789"[d]
  }

  /** The decimal form of `n`, as `%v` prints an `int`. */
  function NatToString(n: nat): (s: string)
    ensures |s| >= 1
    ensures forall i :: 0 <= i < |s| ==> '0' <= s[i] <= '9'
  {
    if n < 10 then [Digit(n)] else NatToString(n / 10) + [Digit(n % 10)]
  }

  /** The number a string of decimal digits denotes. */
  function ParseNat(s: string): nat
    requires forall i :: 0 <= i < |s| ==> '0' <= s[i] <= '9'
  {
    if s == [] then 0
    else
      var init := s[..|s| - 1];
      assert forall i :: 0 <= i < |init| ==> init[i] == s[i];
      10 * ParseNat(init) + (s[|s| - 1] as int - '0' as int)
  }

  /** The capacity hint printed into the generated code reads back as the number of fields. */
  lemma {:induction false} ParseNatToString(n: nat)
    ensures ParseNat(NatToString(n)) == n
  {
    var s := NatToString(n);
    if n < 10 {
      assert s[..|s| - 1] == [];
    } else {
      ParseNatToString(n / 10);
      assert s[..|s| - 1] == NatToString(n / 10);
    }
  }

  /** Each field's fragment, as `render` gives it, in declaration order. */
  function Fragments(fields: seq<Field>, render: Field --> string): (frags: seq<string>)
    requires forall f <- fields :: render.requires(f)
    ensures |frags| == |fields|
  {
    if fields == [] then [] else [render(fields[0])] + Fragments(fields[1..], render)
  }

  /** The fragments of two runs of fields are those of the first run, then those of the second. */
  lemma {:induction false} FragmentsAppend(xs: seq<Field>, ys: seq<Field>, render: Field --> string)
    requires forall f <- xs + ys :: render.requires(f)
    ensures Fragments(xs + ys, render) == Fragments(xs, render) + Fragments(ys, render)
  {
    if xs != [] {
      assert (xs + ys)[1..] == xs[1..] + ys;
      FragmentsAppend(xs[1..], ys, render);
    } else {
      assert xs + ys == ys;
    }
  }

  /** Fragment `i` is the rendering of field `i`. */
  lemma {:induction false} FragmentsAt(fields: seq<Field>, render: Field --> string, i: nat)
    requires forall f <- fields :: render.requires(f)
    requires i < |fields|
    ensures Fragments(fields, render)[i] == render(fields[i])
  {
    if i > 0 {
      FragmentsAt(fields[1..], render, i - 1);
    }
  }

  /** The field loop shared by both writers: one write per field, in declaration order. */
  method WriteFragments(fields: seq<Field>, render: Field --> string, gen: Writer)
    requires forall f <- fields :: render.requires(f)
    modifies gen
    ensures gen.writes == old(gen.writes) + Fragments(fields, render)
  {
    var i := 0;
    while i < |fields|
      invariant 0 <= i <= |fields|
      invariant gen.writes == old(gen.writes) + Fragments(fields[..i], render)
    {
      gen.Write(render(fields[i]));
      assert fields[..i + 1] == fields[..i] + [fields[i]];
      FragmentsAppend(fields[..i], [fields[i]], render);
      i := i + 1;
    }
    assert fields[..i] == fields;
  }

  /** `getMarshalStr` of a field of `s`. */
  function Encoder(s: Struct): Field --> string {
    (f: Field) requires Dispatchable(f.dbType) => GetMarshalStr(f, s)
  }

  /** `getUnmarshalStr` of a field of `s`. */
  function Decoder(s: Struct): Field --> string {
    (f: Field) requires Dispatchable(f.dbType) => GetUnmarshalStr(f, s)
  }

  // The fixed pieces of the generated methods' prologues and epilogues.
  const FuncOpen: string := "func ("
  const PointerTo: string := " *"
  const IfOpen: string := "\tif "
  const IsNilOpen: string := " == nil {\n"
  const Indent2: string := "\t\t"
  const AssignNew: string := " = new("
  const CloseCall: string := ")\n"
  const MarshalSignatureTail: string := ") MarshalRQL() (rqlgenRes interface{}, err error) {\n"
  const ReturnNilNil: string := "\t\treturn nil, nil\n"
  const CloseGuard: string := "\t}\n"
  const MakeResultMap: string := "\trqlgenTmp := make(map[string]interface{}, "
  const ReturnResult: string := "\treturn rqlgenTmp, nil\n"
  const CloseFunc: string := "}\n"
  const UnmarshalSignatureTail: string := ") UnmarshalRQL(rqlgenIface interface{}) ( err error) {\n"
  const DeclareTmp: string := "\tvar rqlgenTmp map[string]interface{}\n"
  const DeclareOk: string := "\tvar ok bool\n"
  const DeclareGenrql: string := "\tvar genrql interface{}\n"
  const IfNilInput: string := "\tif rqlgenIface == nil {\n"
  const ReturnNil: string := "\treturn nil\n"
  const AssertMap: string := "\trqlgenTmp, ok = rqlgenIface.(map[string]interface{})\n"
  const IfNotOk: string := "\tif !ok {\n"
  const NotConverseReturn: string := "\t\treturn genrqlerrors.New(\"Not converse interface{} to map[string]interface{} |\"+reflect.TypeOf(rqlgenIface).String())\n"

  /** The writes after `w` once the signature, nil guard and result map allocation of `MarshalRQL` are written. */
  function WithMarshalHeader(w: seq<string>, s: Struct): seq<string> {
    w
    + [FuncOpen + s.shortName + PointerTo + s.name + MarshalSignatureTail]
    + [IfOpen + s.shortName + IsNilOpen]
    + [ReturnNilNil]
    + [CloseGuard]
    + [MakeResultMap + NatToString(|s.fields|) + CloseCall]
  }

  /** The writes after `w` once the generated `MarshalRQL` method has been written. */
  function WithMarshal(w: seq<string>, s: Struct): seq<string>
    requires forall f <- s.fields :: Dispatchable(f.dbType)
  {
    WithMarshalHeader(w, s) + Fragments(s.fields, Encoder(s)) + [ReturnResult] + [CloseFunc]
  }

  /** The part of `writeMarshal` before the field loop. */
  method WriteMarshalHeader(s: Struct, gen: Writer)
    modifies gen
    ensures gen.writes == WithMarshalHeader(old(gen.writes), s)
  {
    gen.Write(FuncOpen + s.shortName + PointerTo + s.name + MarshalSignatureTail);
    gen.Write(IfOpen + s.shortName + IsNilOpen);
    gen.Write(ReturnNilNil);
    gen.Write(CloseGuard);
    gen.Write(MakeResultMap + NatToString(|s.fields|) + CloseCall);
  }

  /** `writeMarshal`: writes the generated `MarshalRQL` method to `gen`. */
  method WriteMarshal(s: Struct, gen: Writer)
    requires forall f <- s.fields :: Dispatchable(f.dbType)
    modifies gen
    ensures gen.writes == WithMarshal(old(gen.writes), s)
  {
    WriteMarshalHeader(s, gen);
    WriteFragments(s.fields, Encoder(s), gen);
    gen.Write(ReturnResult);
    gen.Write(CloseFunc);
  }

  /** The writes after `w` once the signature, nil-receiver allocation, declarations and input checks of `UnmarshalRQL` are written. */
  function WithUnmarshalHeader(w: seq<string>, s: Struct): seq<string> {
    w
    + ["\n" + FuncOpen + s.shortName + PointerTo + s.name + UnmarshalSignatureTail]
    + [IfOpen + s.shortName + IsNilOpen]
    + [Indent2 + s.shortName + AssignNew + s.name + CloseCall]
    + [CloseGuard]
    + [DeclareTmp]
    + [DeclareOk]
    + [DeclareGenrql]
    + [IfNilInput]
    + [ReturnNil]
    + [CloseGuard]
    + [AssertMap]
    + [IfNotOk]
    + [NotConverseReturn]
    + [CloseGuard]
  }

  /** The writes after `w` once the generated `UnmarshalRQL` method has been written. */
  function WithUnmarshal(w: seq<string>, s: Struct): seq<string>
    requires forall f <- s.fields :: Dispatchable(f.dbType)
  {
    WithUnmarshalHeader(w, s) + Fragments(s.fields, Decoder(s)) + [ReturnNil] + [CloseFunc]
  }

  /** The part of `writeUnmarshal` before the field loop. */
  method WriteUnmarshalHeader(s: Struct, gen: Writer)
    modifies gen
    ensures gen.writes == WithUnmarshalHeader(old(gen.writes), s)
  {
    gen.Write("\n" + FuncOpen + s.shortName + PointerTo + s.name + UnmarshalSignatureTail);
    gen.Write(IfOpen + s.shortName + IsNilOpen);
    gen.Write(Indent2 + s.shortName + AssignNew + s.name + CloseCall);
    gen.Write(CloseGuard);
    gen.Write(DeclareTmp);
    gen.Write(DeclareOk);
    gen.Write(DeclareGenrql);
    gen.Write(IfNilInput);
    gen.Write(ReturnNil);
    gen.Write(CloseGuard);
    gen.Write(AssertMap);
    gen.Write(IfNotOk);
    gen.Write(NotConverseReturn);
    gen.Write(CloseGuard);
  }

  /** `writeUnmarshal`: writes the generated `UnmarshalRQL` method to `gen`. */
  method WriteUnmarshal(s: Struct, gen: Writer)
    requires forall f <- s.fields :: Dispatchable(f.dbType)
    modifies gen
    ensures gen.writes == WithUnmarshal(old(gen.writes), s)
  {
    WriteUnmarshalHeader(s, gen);
    WriteFragments(s.fields, Decoder(s), gen);
    gen.Write(ReturnNil);
    gen.Write(CloseFunc);
  }

  /** The prologue of `MarshalRQL` is five writes after the earlier ones, which it keeps. */
  lemma MarshalHeaderLayout(w: seq<string>, s: Struct)
    ensures |WithMarshalHeader(w, s)| == |w| + 5
    ensures WithMarshalHeader(w, s)[..|w|] == w
  {
    assert WithMarshalHeader(w, s)[..|w|] == w;
  }

  /** The prologue of `UnmarshalRQL` is fourteen writes after the earlier ones, which it keeps. */
  lemma UnmarshalHeaderLayout(w: seq<string>, s: Struct)
    ensures |WithUnmarshalHeader(w, s)| == |w| + 14
    ensures WithUnmarshalHeader(w, s)[..|w|] == w
  {
    assert WithUnmarshalHeader(w, s)[..|w|] == w;
  }

  /** `Encoder(s)` renders a field as `getMarshalStr` does. */
  lemma EncoderIs(f: Field, s: Struct)
    requires Dispatchable(f.dbType)
    ensures Encoder(s).requires(f) && Encoder(s)(f) == GetMarshalStr(f, s)
  {
  }

  /** `Decoder(s)` renders a field as `getUnmarshalStr` does. */
  lemma DecoderIs(f: Field, s: Struct)
    requires Dispatchable(f.dbType)
    ensures Decoder(s).requires(f) && Decoder(s)(f) == GetUnmarshalStr(f, s)
  {
  }

  /** Fragment `i` of the marshal loop is the `getMarshalStr` of field `i`. */
  lemma EncodedAt(s: Struct, i: nat)
    requires i < |s.fields|
    requires forall f <- s.fields :: Dispatchable(f.dbType)
    ensures Fragments(s.fields, Encoder(s))[i] == GetMarshalStr(s.fields[i], s)
  {
    FragmentsAt(s.fields, Encoder(s), i);
    EncoderIs(s.fields[i], s);
  }

  /** Fragment `i` of the unmarshal loop is the `getUnmarshalStr` of field `i`. */
  lemma DecodedAt(s: Struct, i: nat)
    requires i < |s.fields|
    requires forall f <- s.fields :: Dispatchable(f.dbType)
    ensures Fragments(s.fields, Decoder(s))[i] == GetUnmarshalStr(s.fields[i], s)
  {
    FragmentsAt(s.fields, Decoder(s), i);
    DecoderIs(s.fields[i], s);
  }

  /** A prologue, the fragments and a two-write epilogue, laid end to end. */
  lemma Layout(before: seq<string>, head: seq<string>, frags: seq<string>, last: string, close: string)
    requires |before| <= |head| && head[..|before|] == before
    ensures |head + frags + [last] + [close]| == |head| + |frags| + 2
    ensures (head + frags + [last] + [close])[..|before|] == before
    ensures forall i :: 0 <= i < |frags| ==> (head + frags + [last] + [close])[|head| + i] == frags[i]
    ensures (head + frags + [last] + [close])[|head| + |frags|] == last
  {
    assert (head + frags + [last] + [close])[..|before|] == head[..|before|];
  }

  /**
   * Fields are written in declaration order, one write each, between the
   * prologue and the closing `return`: the earlier writes are kept, five
   * prologue writes follow, then write `i` of the field part is fragment
   * `i` (by `EncodedAt`, the `getMarshalStr` of field `i`), and the method
   * ends with two more writes.
   */
  lemma MarshalFragmentsInOrder(before: seq<string>, s: Struct, i: nat)
    requires i < |s.fields|
    requires forall f <- s.fields :: Dispatchable(f.dbType)
    ensures |WithMarshal(before, s)| == |before| + 5 + |s.fields| + 2
    ensures WithMarshal(before, s)[..|before|] == before
    ensures WithMarshal(before, s)[|before| + 5 + i] == Fragments(s.fields, Encoder(s))[i]
    ensures WithMarshal(before, s)[|before| + 5 + |s.fields|] == ReturnResult
  {
    MarshalHeaderLayout(before, s);
    Layout(before, WithMarshalHeader(before, s), Fragments(s.fields, Encoder(s)), ReturnResult, CloseFunc);
  }

  /**
   * The same for decoding: fourteen prologue writes, then one fragment per
   * field in declaration order, then the final `return nil`.
   */
  lemma UnmarshalFragmentsInOrder(before: seq<string>, s: Struct, i: nat)
    requires i < |s.fields|
    requires forall f <- s.fields :: Dispatchable(f.dbType)
    ensures |WithUnmarshal(before, s)| == |before| + 14 + |s.fields| + 2
    ensures WithUnmarshal(before, s)[..|before|] == before
    ensures WithUnmarshal(before, s)[|before| + 14 + i] == Fragments(s.fields, Decoder(s))[i]
    ensures WithUnmarshal(before, s)[|before| + 14 + |s.fields|] == ReturnNil
  {
    UnmarshalHeaderLayout(before, s);
    Layout(before, WithUnmarshalHeader(before, s), Fragments(s.fields, Decoder(s)), ReturnNil, CloseFunc);
  }
}
