/**
 * `write_struct_accessor`: the borrowing wrapper of a `Struct` schema, one
 * method per field that is neither hidden nor `Special`.
 */
module AccessorWriter {
  import opened Wrappers
  import opened Text
  import opened Seqs
  import opened Toml
  import opened Schema
  import opened StructWriter

  /** What a field's method returns, and the one statement of its body. */
  datatype Accessor = Accessor(result: string, body: string)

  datatype Method = Method(name: string, docs: string, accessor: Accessor)

  function Signature(name: string, result: string): string {
    "  pub fn " + name + "(&self) -> " + result + " {"
  }

  function Statement(text: string): string {
    "    " + text
  }

  function MethodLines(m: Method): seq<string> {
    [DocComment("  ", m.docs), Signature(m.name, m.accessor.result), Statement(m.accessor.body), "  }"]
  }

  /** The two `Array` arms; neither looks at `optional`. */
  function ArrayAccessor(name: string, field: Value, pascal: string -> string): (r: Outcome<Accessor>)
    ensures r.Ok? ==> r.value.result == pascal(name) + "<'a>"
  {
    var of :- Index(field, "of");
    if of.Str? then
      Ok(Accessor(pascal(name) + "<'a>",
        if of.s == "Float" || of.s == "Integer" then "self." + name + ".iter()"
        else pascal(name) + " { document: self.document, iter: self." + name + ".iter().enumerate() }"))
    else if of.TableOf? then
      var element :- StrAt(of, "ty");
      if element != "Index" then Err(ArrayOfNonIndex(element))
      else Ok(Accessor(pascal(name) + "<'a>", pascal(name) + " { document: self.document, iter: self." + name + ".iter() }"))
    else Err(UnknownType("Array"))
  }

  /** The `match ty` of the accessor loop. */
  function AccessorArm(name: string, field: Value, ty: string, optional: bool, pascal: string -> string)
    : (r: Outcome<Accessor>)
    ensures r.Ok? && optional && ty != "Array" ==> StartsWith(r.value.result, "Option<")
    ensures r.Ok? && ty == "Array" ==> r.value.result == pascal(name) + "<'a>"
    ensures ty !in FIELD_KINDS || ty == "Special" ==> r == Err(UnknownType(ty))
  {
    if ty == "Index" then
      var of :- StrAt(field, "of");
      if optional then Ok(Accessor(OptionOf(true, "::" + of + "<'a>"), "self." + name + ".as_ref().map(|index| self.document.get(index))"))
      else Ok(Accessor("::" + of + "<'a>", "self.document.get(&self." + name + ")"))
    else if ty == "Struct" then
      var of :- StrAt(field, "of");
      if optional then Ok(Accessor(OptionOf(true, "::" + of + "<'a>"), "self." + name + ".as_ref().map(|json| ::" + of + "::new(self.document, json))"))
      else Ok(Accessor("::" + of + "<'a>", "::" + of + "::new(self.document, &self." + name + ")"))
    else if ty == "Array" then ArrayAccessor(name, field, pascal)
    else if ty == "String" then
      if optional then Ok(Accessor(OptionOf(true, "&'a str"), "self." + name + ".as_ref().map(|string| string.as_str())"))
      else Ok(Accessor("&'a str", "self." + name + ".as_str()"))
    else if ty == "Integer" then
      Ok(Accessor(OptionOf(optional, "u32"), if optional then "self." + name + ".clone()" else "self." + name))
    else if ty == "Float" then
      Ok(Accessor(OptionOf(optional, "f32"), if optional then "self." + name + ".clone()" else "self." + name))
    else if ty == "FixedSizeArray" then
      var fixed :- FixedArrayType(field);
      Ok(Accessor(OptionOf(optional, fixed), "self." + name + ".clone()"))
    else if ty == "Enum" then
      var of :- StrAt(field, "of");
      if optional then Ok(Accessor(OptionOf(true, "::" + of), "self." + name + ".as_ref().map(|checked| checked.unwrap())"))
      else Ok(Accessor("::" + of, "self." + name + ".unwrap()"))
    else if ty == "Bool" then
      if optional then Err(NotOptional(name, ty))
      else Ok(Accessor("bool", "self." + name))
    else if ty == "Any" then
      if optional then Err(NotOptional(name, ty))
      else Ok(Accessor("Option<&::serde::value::RawValue>", "self." + name + ".as_ref().map(|boxed| &*boxed)"))
    else Err(UnknownType(ty))
  }

  /** True when the accessor loop skips this field. */
  predicate Skipped(field: Value) {
    FlagAt(field, "hidden") == Ok(true) || StrAt(field, "ty") == Ok("Special")
  }

  /** One iteration of the accessor loop: `None` for a field it skips. */
  function AccessorField(entry: (string, Value), pascal: string -> string): (r: Outcome<Option<Method>>)
    ensures r.Ok? ==> (r.value.None? <==> Skipped(entry.1))
    ensures r.Ok? && r.value.Some? ==>
      r.value.value.name == entry.0 && StrAt(entry.1, "docs") == Ok(r.value.value.docs)
  {
    var name, field := entry.0, entry.1;
    var docs :- StrAt(field, "docs");
    var ty :- StrAt(field, "ty");
    var optional :- FlagAt(field, "optional");
    var hidden :- FlagAt(field, "hidden");
    if hidden || ty == "Special" then Ok(None)
    else
      var accessor :- AccessorArm(name, field, ty, optional, pascal);
      Ok(Some(Method(name, docs, accessor)))
  }

  function AccessorStep(pascal: string -> string): ((string, Value)) -> Outcome<Option<Method>> {
    entry => AccessorField(entry, pascal)
  }

  function MethodsLines(methods: seq<Method>): seq<string>
    decreases |methods|
  {
    if methods == [] then []
    else MethodsLines(methods[..|methods| - 1]) + MethodLines(methods[|methods| - 1])
  }

  /** Another field processed: its method, if any, comes after the others. */
  lemma MethodsLinesSnoc(found: seq<Option<Method>>, x: Option<Method>)
    ensures MethodsLines(Somes(found + [x]))
         == MethodsLines(Somes(found)) + (if x.Some? then MethodLines(x.value) else [])
  {
    SomesSnoc(found, x);
    if x.Some? {
      assert (Somes(found) + [x.value])[..|Somes(found)|] == Somes(found);
    } else {
      assert Somes(found) + [] == Somes(found);
    }
  }

  /** The methods every wrapper has before those of its fields: `name`, `extras`, `extensions`. */
  const NAME_ACCESSOR: seq<string> :=
    [DocComment("  ", "Optional user-defined name for this object."),
     Attribute("  ", "cfg(feature = \"names\")"),
     Signature("name", "Option<&str>"),
     Statement("self.json.name.as_ref().map(|name| name.as_str())"),
     "  }"]

  const EXTRAS_ACCESSOR: seq<string> :=
    [DocComment("  ", "Optional application specific data."),
     Attribute("  ", "cfg(feature = \"extras\")"),
     Signature("extras", "Option<&::serde::value::RawValue>"),
     Statement("self.json.extensions.map(|boxed| &*boxed)"),
     "  }"]

  const EXTENSIONS_ACCESSOR: seq<string> :=
    [DocComment("  ", "Extension specific data."),
     Signature("extensions", "Option<&::serde::value::RawValue>"),
     Statement("self.json.extensions.map(|boxed| &*boxed)"),
     "  }"]

  const ACCESSOR_BOILERPLATE: seq<string> := NAME_ACCESSOR + EXTRAS_ACCESSOR + EXTENSIONS_ACCESSOR

  function WrapperTop(name: string, docs: string): seq<string> {
    [DocComment("", docs),
     Attribute("", "derive(Clone, Debug)"),
     "pub struct " + name + "<'a> {",
     "  pub(crate) document: &'a ::Document,",
     "  pub(crate) json: &'a ::json::" + name + ",",
     "}",
     "",
     "impl<'a> " + name + "<'a> {"]
  }

  function AccessorHead(name: string, docs: string): seq<string> {
    WrapperTop(name, docs) + ACCESSOR_BOILERPLATE
  }

  /** The block ends at the brace closing the `impl`. */
  function AccessorText(name: string, docs: string, methods: seq<string>): seq<string> {
    AccessorHead(name, docs) + methods + ["}"]
  }

  /** The lines of the accessor block, or the error that stops generation. */
  function AccessorSpec(name: string, meta: Table, fields: Table, pascal: string -> string): Outcome<seq<string>> {
    var docs :- TableStrAt(meta, "docs");
    var found :- CollectAll(fields, AccessorStep(pascal));
    Ok(AccessorText(name, docs, MethodsLines(Somes(found))))
  }

  method WriteAccessor(name: string, meta: Table, fields: Table, pascal: string -> string)
    returns (r: Outcome<seq<string>>)
    ensures r == AccessorSpec(name, meta, fields, pascal)
  {
    var docs :- TableStrAt(meta, "docs");
    var methods: seq<string> := [];
    ghost var found: seq<Option<Method>> := [];
    for i := 0 to |fields|
      invariant CollectAll(fields[..i], AccessorStep(pascal)) == Ok(found)
      invariant methods == MethodsLines(Somes(found))
    {
      var method_ := AccessorField(fields[i], pascal);
      CollectAllSnoc(fields, i, AccessorStep(pascal), found);
      if method_.Err? {
        return Err(method_.error);
      }
      MethodsLinesSnoc(found, method_.value);
      if method_.value.Some? {
        methods := methods + MethodLines(method_.value.value);
      }
      found := found + [method_.value];
    }
    assert fields[..|fields|] == fields;
    r := Ok(AccessorText(name, docs, methods));
  }

  // ---- Which methods the wrapper has -----------------------------------------

  /** The prefix of the line opening a public method. */
  const PUBLIC_FN: string := "  pub fn "

  /** The methods every wrapper has before those of its fields. */
  const BOILERPLATE_SIGNATURES: seq<string> := [NAME_ACCESSOR[2], EXTRAS_ACCESSOR[2], EXTENSIONS_ACCESSOR[1]]

  function Signatures(methods: seq<Method>): (r: seq<string>)
    ensures |r| == |methods|
  {
    seq(|methods|, k requires 0 <= k < |methods| => Signature(methods[k].name, methods[k].accessor.result))
  }

  lemma SignatureIsPublic(name: string, result: string)
    ensures StartsWith(Signature(name, result), PUBLIC_FN)
  {
    assert Signature(name, result) == PUBLIC_FN + (name + "(&self) -> " + result + " {");
    StartsWithAppend(PUBLIC_FN, name + "(&self) -> " + result + " {");
  }

  lemma MethodIsPublic(m: Method)
    ensures Matching(MethodLines(m), PUBLIC_FN) == [Signature(m.name, m.accessor.result)]
  {
    var lines := MethodLines(m);
    DiffersAt(lines[0], PUBLIC_FN, 2);
    SignatureIsPublic(m.name, m.accessor.result);
    DiffersAt(lines[2], PUBLIC_FN, 2);
    MatchingOne(lines, PUBLIC_FN, 1);
  }

  lemma {:induction false} MethodsArePublic(methods: seq<Method>)
    ensures Matching(MethodsLines(methods), PUBLIC_FN) == Signatures(methods)
    decreases |methods|
  {
    if methods != [] {
      var init, last := methods[..|methods| - 1], methods[|methods| - 1];
      MethodsArePublic(init);
      MethodIsPublic(last);
      MatchingAppend(MethodsLines(init), MethodLines(last), PUBLIC_FN);
      assert Signatures(methods) == Signatures(init) + [Signature(last.name, last.accessor.result)];
    }
  }

  lemma WrapperTopIsPrivate(name: string, docs: string)
    ensures Matching(WrapperTop(name, docs), PUBLIC_FN) == []
  {
    var top := WrapperTop(name, docs);
    DiffersAt(top[0], PUBLIC_FN, 0);
    DiffersAt(top[1], PUBLIC_FN, 0);
    DiffersAt(top[2], PUBLIC_FN, 0);
    DiffersAt(top[3], PUBLIC_FN, 5);
    DiffersAt(top[4], PUBLIC_FN, 5);
    DiffersAt(top[7], PUBLIC_FN, 0);
    MatchingNone(top, PUBLIC_FN);
  }

  lemma NameAccessorIsPublic()
    ensures Matching(NAME_ACCESSOR, PUBLIC_FN) == [NAME_ACCESSOR[2]]
  {
    DiffersAt(NAME_ACCESSOR[0], PUBLIC_FN, 2);
    DiffersAt(NAME_ACCESSOR[1], PUBLIC_FN, 2);
    SignatureIsPublic("name", "Option<&str>");
    DiffersAt(NAME_ACCESSOR[3], PUBLIC_FN, 2);
    MatchingOne(NAME_ACCESSOR, PUBLIC_FN, 2);
  }

  lemma ExtrasAccessorIsPublic()
    ensures Matching(EXTRAS_ACCESSOR, PUBLIC_FN) == [EXTRAS_ACCESSOR[2]]
  {
    DiffersAt(EXTRAS_ACCESSOR[0], PUBLIC_FN, 2);
    DiffersAt(EXTRAS_ACCESSOR[1], PUBLIC_FN, 2);
    SignatureIsPublic("extras", "Option<&::serde::value::RawValue>");
    DiffersAt(EXTRAS_ACCESSOR[3], PUBLIC_FN, 2);
    MatchingOne(EXTRAS_ACCESSOR, PUBLIC_FN, 2);
  }

  lemma ExtensionsAccessorIsPublic()
    ensures Matching(EXTENSIONS_ACCESSOR, PUBLIC_FN) == [EXTENSIONS_ACCESSOR[1]]
  {
    DiffersAt(EXTENSIONS_ACCESSOR[0], PUBLIC_FN, 2);
    SignatureIsPublic("extensions", "Option<&::serde::value::RawValue>");
    DiffersAt(EXTENSIONS_ACCESSOR[2], PUBLIC_FN, 2);
    MatchingOne(EXTENSIONS_ACCESSOR, PUBLIC_FN, 1);
  }

  lemma HeadIsPublic(name: string, docs: string)
    ensures Matching(AccessorHead(name, docs), PUBLIC_FN) == BOILERPLATE_SIGNATURES
  {
    WrapperTopIsPrivate(name, docs);
    NameAccessorIsPublic();
    ExtrasAccessorIsPublic();
    ExtensionsAccessorIsPublic();
    MatchingAppend(NAME_ACCESSOR, EXTRAS_ACCESSOR, PUBLIC_FN);
    MatchingAppend(NAME_ACCESSOR + EXTRAS_ACCESSOR, EXTENSIONS_ACCESSOR, PUBLIC_FN);
    MatchingAppend(WrapperTop(name, docs), ACCESSOR_BOILERPLATE, PUBLIC_FN);
  }

  /** The public methods of a wrapper block: the boilerplate ones, then the given ones. */
  lemma TextIsPublic(name: string, docs: string, methods: seq<Method>)
    ensures Matching(AccessorText(name, docs, MethodsLines(methods)), PUBLIC_FN)
         == BOILERPLATE_SIGNATURES + Signatures(methods)
  {
    HeadIsPublic(name, docs);
    MethodsArePublic(methods);
    MatchingAppend(AccessorHead(name, docs), MethodsLines(methods), PUBLIC_FN);
    MatchingAppend(AccessorHead(name, docs) + MethodsLines(methods), ["}"], PUBLIC_FN);
    assert Matching(["}"], PUBLIC_FN) == Matching([], PUBLIC_FN);
  }

  /** The names of the fields the accessor loop does not skip, in order. */
  function VisibleNames(fields: Table): seq<string>
    decreases |fields|
  {
    if fields == [] then []
    else
      var last := fields[|fields| - 1];
      VisibleNames(fields[..|fields| - 1]) + (if Skipped(last.1) then [] else [last.0])
  }

  function Names(methods: seq<Method>): (r: seq<string>)
    ensures |r| == |methods|
  {
    seq(|methods|, k requires 0 <= k < |methods| => methods[k].name)
  }

  /** The accessor loop makes one method per visible field, in the order of `fields`. */
  lemma {:induction false} MethodsFollowVisibleFields(fields: Table, pascal: string -> string)
    requires CollectAll(fields, AccessorStep(pascal)).Ok?
    ensures Names(Somes(CollectAll(fields, AccessorStep(pascal)).value)) == VisibleNames(fields)
    decreases |fields|
  {
    if fields != [] {
      var n := |fields| - 1;
      var init := fields[..n];
      assert fields[..n + 1] == fields;
      var found := CollectAll(init, AccessorStep(pascal)).value;
      CollectAllSnoc(fields, n, AccessorStep(pascal), found);
      MethodsFollowVisibleFields(init, pascal);
      var x := AccessorField(fields[n], pascal).value;
      SomesSnoc(found, x);
      var ms := Somes(found);
      if x.Some? {
        assert Names(ms + [x.value]) == Names(ms) + [fields[n].0];
      } else {
        assert ms + [] == ms;
      }
    }
  }

  /**
   * The public methods of a generated wrapper are `name`, `extras` and
   * `extensions`, then one per visible field, in the order of `fields`.
   */
  lemma WrapperMethods(name: string, meta: Table, fields: Table, pascal: string -> string)
    requires AccessorSpec(name, meta, fields, pascal).Ok?
    ensures CollectAll(fields, AccessorStep(pascal)).Ok?
    ensures var methods := Somes(CollectAll(fields, AccessorStep(pascal)).value);
      && Matching(AccessorSpec(name, meta, fields, pascal).value, PUBLIC_FN)
         == BOILERPLATE_SIGNATURES + Signatures(methods)
      && Names(methods) == VisibleNames(fields)
  {
    var methods := Somes(CollectAll(fields, AccessorStep(pascal)).value);
    TextIsPublic(name, TableStrAt(meta, "docs").value, methods);
    MethodsFollowVisibleFields(fields, pascal);
  }

  // ---- Agreement with the struct writer --------------------------------------

  /** What a field of kind `ty` must provide to pass the checks of both writers' `match ty`. */
  predicate Accepted(field: Value, ty: string, optional: bool) {
    && ty in FIELD_KINDS
    && (ty in {"Index", "Struct", "Enum", "Special"} ==> StrAt(field, "of").Ok?)
    && (ty == "FixedSizeArray" ==> FixedArrayType(field).Ok?)
    && (ty == "Array" ==>
          && Index(field, "of").Ok?
          && (|| Index(field, "of").value.Str?
              || (Index(field, "of").value.TableOf? && StrAt(Index(field, "of").value, "ty") == Ok("Index"))))
    && (ty in {"Bool", "Any", "Special"} ==> !optional)
  }

  lemma StorageAccepted(name: string, field: Value, ty: string, optional: bool, default: Option<Value>,
                        pascal: string -> string)
    requires StorageArm(name, field, ty, optional, default, pascal).Ok?
    ensures Accepted(field, ty, optional)
  {
    if ty == "Array" {
      assert ArrayStorage(name, field, optional, pascal).Ok?;
    }
  }

  lemma AccessorAccepted(name: string, field: Value, ty: string, optional: bool, pascal: string -> string)
    requires Accepted(field, ty, optional) && ty != "Special"
    ensures AccessorArm(name, field, ty, optional, pascal).Ok?
  {
    if ty == "Array" {
      assert ArrayAccessor(name, field, pascal).Ok?;
    }
  }

  /** Every field the struct writer accepts gets an accessor, or is skipped, without error. */
  lemma AccessorOfStoredField(entry: (string, Value), pascal: string -> string)
    requires StorageField(entry, pascal).Ok? && FlagAt(entry.1, "hidden").Ok?
    ensures AccessorField(entry, pascal).Ok?
  {
    var name, field := entry.0, entry.1;
    var ty := StrAt(field, "ty").value;
    var optional := FlagAt(field, "optional").value;
    StorageAccepted(name, field, ty, optional, Get(field, "default"), pascal);
    if ty != "Special" {
      AccessorAccepted(name, field, ty, optional, pascal);
    }
  }

  /** A struct the struct writer accepts gets its wrapper too, when every `hidden` flag is a boolean. */
  lemma WrapperOfStoredStruct(name: string, meta: Table, fields: Table, pascal: string -> string)
    requires StructSpec(name, meta, fields, pascal).Ok?
    requires forall k :: 0 <= k < |fields| ==> FlagAt(fields[k].1, "hidden").Ok?
    ensures AccessorSpec(name, meta, fields, pascal).Ok?
  {
    CollectAllMeaning(fields, StorageStep(pascal));
    CollectAllMeaning(fields, AccessorStep(pascal));
    forall k | 0 <= k < |fields| ensures AccessorField(fields[k], pascal).Ok? {
      AccessorOfStoredField(fields[k], pascal);
    }
  }

  /**
   * The accessor of an optional member returns an `Option`, and the
   * accessor of an array returns the iterator type the struct writer
   * declares for it.
   */
  lemma AccessorMatchesStorage(entry: (string, Value), pascal: string -> string)
    requires StorageField(entry, pascal).Ok?
    requires AccessorField(entry, pascal).Ok? && AccessorField(entry, pascal).value.Some?
    ensures var m := AccessorField(entry, pascal).value.value;
      && (FlagAt(entry.1, "optional") == Ok(true) ==> StartsWith(m.accessor.result, "Option<"))
      && (StrAt(entry.1, "ty") == Ok("Array") ==>
            && m.accessor.result == pascal(entry.0) + "<'a>"
            && NamesIterator(pascal(entry.0), StorageField(entry, pascal).value.storage.extra))
  {
    var name, field := entry.0, entry.1;
    var ty := StrAt(field, "ty").value;
    var optional := FlagAt(field, "optional").value;
    assert StorageArm(name, field, ty, optional, Get(field, "default"), pascal).Ok?;
    assert AccessorArm(name, field, ty, optional, pascal).Ok?;
  }
}
