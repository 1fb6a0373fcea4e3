/**
 * `write_struct`: the serde struct of a `Struct` schema, one member per
 * entry of `fields`, plus the `extra` text (default helpers and iterator
 * types) that follows it.
 */
module StructWriter {
  import opened Wrappers
  import opened Numbers
  import opened Text
  import opened Seqs
  import opened Toml
  import opened Schema

  /** `Option<t>` for an optional field, `t` otherwise. */
  function OptionOf(optional: bool, t: string): (r: string)
    ensures optional ==> StartsWith(r, "Option<")
    ensures !optional ==> r == t
  {
    if optional then "Option<" + t + ">" else t
  }

  /** `Vec<t>`: the storage of an `Array` field. */
  function VecOf(t: string): (r: string)
    ensures StartsWith(r, "Vec<")
  {
    "Vec<" + t + ">"
  }

  /**
   * The Rust array type of a `FixedSizeArray` field: `field["of"]["ty"]`
   * names the element, `field["of"]["n"]` the length.
   */
  function FixedArrayType(field: Value): Outcome<string> {
    var of :- Index(field, "of");
    var element :- StrAt(of, "ty");
    var n :- IntAt(of, "n");
    if element == "Float" then Ok("[f32; " + IntToString(n as int) + "]")
    else if element == "Integer" then Ok("[u32; " + IntToString(n as int) + "]")
    else Err(UnsupportedFixedArray(element))
  }

  /** How one field is stored: its Rust type, whether it is a `Vec`, and the text it adds after the struct. */
  datatype Storage = Storage(vec: bool, ty: string, extra: seq<string>)

  /** The pair of functions a `#[serde(default = ...)]` field refers to: `<name>_default`, then `<name>_is_default`. */
  predicate HelperPair(name: string, extra: seq<string>) {
    && |extra| == 2
    && StartsWith(extra[0], "fn " + name + "_default() -> ")
    && StartsWith(extra[1], "fn " + name + "_is_default(x: ")
  }

  function Helpers(name: string, ty: string, lit: string, test: string): (r: seq<string>)
    ensures HelperPair(name, r)
  {
    ["fn " + name + "_default() -> " + ty + " { " + lit + " }",
     "fn " + name + "_is_default(x: " + ty + ") -> " + ty + " { " + test + " }"]
  }

  function IntegerHelpers(name: string, default: Option<Value>): (r: Outcome<seq<string>>)
    ensures r.Err? <==> default.Some? && !default.value.Integer?
    ensures r.Err? ==> r.error == WrongType("default")
    ensures r.Ok? ==> (r.value != [] <==> default.Some?) && (r.value != [] ==> HelperPair(name, r.value))
  {
    match default
    case None => Ok([])
    case Some(v) =>
      match AsInteger(v)
      case None => Err(WrongType("default"))
      case Some(d) => Ok(Helpers(name, "u32", IntToString(d as int), "x == " + IntToString(d as int)))
  }

  function FloatHelpers(name: string, default: Option<Value>): (r: Outcome<seq<string>>)
    ensures r.Err? <==> default.Some? && !default.value.Float?
    ensures r.Err? ==> r.error == WrongType("default")
    ensures r.Ok? ==> (r.value != [] <==> default.Some?) && (r.value != [] ==> HelperPair(name, r.value))
  {
    match default
    case None => Ok([])
    case Some(v) =>
      match AsFloat(v)
      case None => Err(WrongType("default"))
      case Some(d) => Ok(Helpers(name, "f32", d, "approx_eq!(x, " + d + ")"))
  }

  function BoolText(b: bool): string {
    if b then "true" else "false"
  }

  function BoolHelpers(name: string, default: Option<Value>): (r: Outcome<seq<string>>)
    ensures r.Err? <==> default.Some? && !default.value.Boolean?
    ensures r.Err? ==> r.error == WrongType("default")
    ensures r.Ok? ==> (r.value != [] <==> default.Some?) && (r.value != [] ==> HelperPair(name, r.value))
  {
    match default
    case None => Ok([])
    case Some(v) =>
      match AsBool(v)
      case None => Err(WrongType("default"))
      case Some(b) => Ok(Helpers(name, "bool", BoolText(b), "x == " + BoolText(b)))
  }

  /** The iterator type emitted for an array of structs, walking the elements with their indices. */
  function EnumerateIterator(iter: string, of: string): seq<string> {
    IteratorType(iter, of,
      "  pub(crate) iter: ::std::iter::Enumerate<::std::slice::Iter<'a, ::" + of + ">>,",
      "    self.iter.next().map(|(index, json)| ::" + of + "::new(self.document, index, json))")
  }

  /** The iterator type emitted for an array of indices, resolving each through the document. */
  function IndexIterator(iter: string, of: string): seq<string> {
    IteratorType(iter, of,
      "  pub(crate) iter: ::std::slice::Iter<'a, Index<::" + of + ">>,",
      "    self.iter.next().map(|index| self.document.get(index))")
  }

  /** The type an `Array` field adds after the struct: an alias (numbers) or an iterator struct, named `iter`. */
  predicate NamesIterator(iter: string, extra: seq<string>) {
    || (|extra| == 1 && StartsWith(extra[0], "pub type " + iter + " = "))
    || (|extra| == 16 && extra[1] == "pub struct " + iter + "<'a> {")
  }

  function IteratorType(iter: string, of: string, iterField: string, next: string): (r: seq<string>)
    ensures NamesIterator(iter, r)
  {
    ["#[derive(Clone, Debug)]",
     "pub struct " + iter + "<'a> {",
     iterField,
     "  pub(crate) document: &'a ::Document,",
     "}",
     "",
     "impl<'a> ExactSizeIterator for " + iter + "<'a> {}",
     "impl<'a> Iterator for " + iter + "<'a> {",
     "  type Item = ::" + of + "<'a>;",
     "  fn next(&mut self) -> Option<Self::Item> {",
     next,
     "  }",
     "  fn size_hint(&self) -> (usize, Option<usize>) {",
     "    self.iter.size_hint()",
     "  }",
     "}"]
  }

  /** The two `Array` arms: `of` names the element type, or is a table describing an array of indices. */
  function ArrayStorage(name: string, field: Value, optional: bool, pascal: string -> string): (r: Outcome<Storage>)
    ensures r.Ok? ==> !optional && r.value.vec && StartsWith(r.value.ty, "Vec<") && NamesIterator(pascal(name), r.value.extra)
    ensures optional && Index(field, "of").Ok? && (Index(field, "of").value.Str? || Index(field, "of").value.TableOf?) ==>
      r == Err(NotOptional(name, "Array"))
  {
    var of :- Index(field, "of");
    if of.Str? then
      if optional then Err(NotOptional(name, "Array"))
      else if of.s == "Float" then Ok(Storage(true, VecOf("f32"), ["pub type " + pascal(name) + " = ::std::slice::Iter<'a, f32>;"]))
      else if of.s == "Integer" then Ok(Storage(true, VecOf("u32"), ["pub type " + pascal(name) + " = ::std::slice::Iter<'a, u32>;"]))
      else Ok(Storage(true, VecOf("::" + of.s), EnumerateIterator(pascal(name), of.s)))
    else if of.TableOf? then
      if optional then Err(NotOptional(name, "Array"))
      else
        var element :- StrAt(of, "ty");
        if element != "Index" then Err(ArrayOfNonIndex(element))
        else
          var target :- StrAt(of, "of");
          Ok(Storage(true, VecOf("Index<::" + target + ">"), IndexIterator(pascal(name), target)))
    else Err(UnknownType("Array"))
  }

  /** The field kinds the generator knows. */
  const FIELD_KINDS: set<string> :=
    {"String", "Integer", "Index", "Struct", "Float", "FixedSizeArray", "Enum", "Array", "Bool", "Any", "Special"}

  /** The `match ty` of the field loop. */
  function StorageArm(name: string, field: Value, ty: string, optional: bool, default: Option<Value>,
                      pascal: string -> string): (r: Outcome<Storage>)
    ensures r.Ok? ==> (r.value.vec <==> ty == "Array")
    ensures r.Ok? && optional ==>
      ty !in {"Array", "Bool", "Any", "Special"} && StartsWith(r.value.ty, "Option<") && r.value.extra == []
    ensures r.Ok? && !optional && ty in {"Integer", "Float", "Bool"} ==>
      (r.value.extra != [] <==> default.Some?) && (r.value.extra != [] ==> HelperPair(name, r.value.extra))
    ensures ty !in FIELD_KINDS ==> r == Err(UnknownType(ty))
  {
    if ty == "String" then Ok(Storage(false, OptionOf(optional, "String"), []))
    else if ty == "Integer" then
      if optional then Ok(Storage(false, OptionOf(true, "u32"), []))
      else
        var extra :- IntegerHelpers(name, default);
        Ok(Storage(false, "u32", extra))
    else if ty == "Index" then
      var of :- StrAt(field, "of");
      Ok(Storage(false, OptionOf(optional, "Index<::" + of + ">"), []))
    else if ty == "Struct" then
      var of :- StrAt(field, "of");
      Ok(Storage(false, OptionOf(optional, "::" + of), []))
    else if ty == "Float" then
      if optional then Ok(Storage(false, OptionOf(true, "f32"), []))
      else
        var extra :- FloatHelpers(name, default);
        Ok(Storage(false, "f32", extra))
    else if ty == "FixedSizeArray" then
      var fixed :- FixedArrayType(field);
      Ok(Storage(false, OptionOf(optional, fixed), []))
    else if ty == "Enum" then
      var of :- StrAt(field, "of");
      Ok(Storage(false, OptionOf(optional, "Checked<::" + of + ">"), []))
    else if ty == "Array" then ArrayStorage(name, field, optional, pascal)
    else if ty == "Bool" then
      if optional then Err(NotOptional(name, ty))
      else
        var extra :- BoolHelpers(name, default);
        Ok(Storage(false, "bool", extra))
    else if ty == "Any" then
      if optional then Err(NotOptional(name, ty))
      else Ok(Storage(false, "Option<::std::boxed::Box<::serde::value::RawValue>>", []))
    else if ty == "Special" then
      if optional then Err(NotOptional(name, ty))
      else
        var of :- StrAt(field, "of");
        Ok(Storage(false, of, []))
    else Err(UnknownType(ty))
  }

  function DocComment(indent: string, text: string): string {
    indent + "/// " + text
  }

  function Attribute(indent: string, body: string): string {
    indent + "#[" + body + "]"
  }

  const SKIP_IF_NONE: string := Attribute("  ", "serde(default, skip_serializing_if = \"Option::is_none\")")
  const SKIP_IF_EMPTY: string := Attribute("  ", "serde(default, skip_serializing_if = \"Vec::is_empty\")")

  /** The serde directives written before the `match`: they depend only on `optional` and on whether a default is given. */
  function Directives(name: string, optional: bool, hasDefault: bool): seq<string> {
    if optional then [SKIP_IF_NONE]
    else if hasDefault then
      [Attribute("  ", "serde(default = \"" + name + "_default\")"),
       Attribute("  ", "serde(skip_serializing_if = \"" + name + "_is_default\")")]
    else []
  }

  /** One member of the struct, as read from its entry in `fields`. */
  datatype Member = Member(name: string, docs: string, directives: seq<string>, storage: Storage)

  function Declaration(name: string, ty: string): string {
    "  pub " + name + ": " + ty + ","
  }

  function MemberLines(m: Member): seq<string> {
    [DocComment("  ", m.docs)] + m.directives + (if m.storage.vec then [SKIP_IF_EMPTY] else [])
      + [Declaration(m.name, m.storage.ty)]
  }

  /** One iteration of the field loop; a field both optional and defaulted fails the `assert!`. */
  function StorageField(entry: (string, Value), pascal: string -> string): (r: Outcome<Member>)
    ensures r.Ok? ==> r.value.name == entry.0 && StrAt(entry.1, "docs") == Ok(r.value.docs)
  {
    var name, field := entry.0, entry.1;
    var docs :- StrAt(field, "docs");
    var ty :- StrAt(field, "ty");
    var optional :- FlagAt(field, "optional");
    var default := Get(field, "default");
    if optional && default.Some? then Err(OptionalWithDefault(name))
    else
      var storage :- StorageArm(name, field, ty, optional, default, pascal);
      Ok(Member(name, docs, Directives(name, optional, default.Some?), storage))
  }

  function StorageStep(pascal: string -> string): ((string, Value)) -> Outcome<Member> {
    entry => StorageField(entry, pascal)
  }

  function BodyLines(members: seq<Member>): seq<string>
    decreases |members|
  {
    if members == [] then []
    else BodyLines(members[..|members| - 1]) + MemberLines(members[|members| - 1])
  }

  function ExtraLines(members: seq<Member>): seq<string>
    decreases |members|
  {
    if members == [] then []
    else ExtraLines(members[..|members| - 1]) + members[|members| - 1].storage.extra
  }

  const STRUCT_DERIVE: string := Attribute("", "derive(Clone, Debug, Deserialize, Eq, Hash, PartialEq, Serialize)")

  /** The members every generated struct has before those of its schema: `name`, `extras`, `extensions`. */
  const NAME_MEMBER: seq<string> :=
    [DocComment("  ", "Optional user-defined name for this object."),
     Attribute("  ", "cfg(feature = \"names\")"),
     Attribute("  ", "cfg_attr(feature = \"names\", serde(default, skip_serializing_if = \"Option::is_none\"))"),
     Declaration("name", "Option<String>")]

  const EXTRAS_MEMBER: seq<string> :=
    [DocComment("  ", "Optional application specific data."),
     Attribute("  ", "cfg(feature = \"extras\")"),
     Attribute("  ", "cfg_attr(feature = \"extras\", serde(default, skip_serializing_if = \"Option::is_none\"))"),
     Declaration("extras", "Option<::std::boxed::Box<::serde::value::RawValue>>")]

  const EXTENSIONS_MEMBER: seq<string> :=
    [DocComment("  ", "Extension specific data."),
     SKIP_IF_NONE,
     Declaration("extensions", "Option<::std::boxed::Box<::serde::value::RawValue>>")]

  const STRUCT_BOILERPLATE: seq<string> := NAME_MEMBER + EXTRAS_MEMBER + EXTENSIONS_MEMBER

  function StructHead(name: string, docs: string): seq<string> {
    [DocComment("", docs), STRUCT_DERIVE, "pub struct " + name + " {"] + STRUCT_BOILERPLATE
  }

  /**
   * The closing brace, then the extra text. With no extra text the block
   * ends at the brace; otherwise every extra line is newline-terminated.
   */
  function Closing(extra: seq<string>): seq<string> {
    if extra == [] then ["}"] else ["}"] + extra + [""]
  }

  function StructText(name: string, docs: string, body: seq<string>, extra: seq<string>): seq<string> {
    StructHead(name, docs) + body + Closing(extra)
  }

  /** The lines of the struct block, or the error that stops generation. */
  function StructSpec(name: string, meta: Table, fields: Table, pascal: string -> string): Outcome<seq<string>> {
    var docs :- TableStrAt(meta, "docs");
    var members :- CollectAll(fields, StorageStep(pascal));
    Ok(StructText(name, docs, BodyLines(members), ExtraLines(members)))
  }

  /** The field loop writes members to the output and helpers and iterators to `extra`. */
  method WriteStruct(name: string, meta: Table, fields: Table, pascal: string -> string)
    returns (r: Outcome<seq<string>>)
    ensures r == StructSpec(name, meta, fields, pascal)
  {
    var docs :- TableStrAt(meta, "docs");
    var body: seq<string> := [];
    var extra: seq<string> := [];
    ghost var members: seq<Member> := [];
    for i := 0 to |fields|
      invariant CollectAll(fields[..i], StorageStep(pascal)) == Ok(members)
      invariant body == BodyLines(members) && extra == ExtraLines(members)
    {
      var member := StorageField(fields[i], pascal);
      CollectAllSnoc(fields, i, StorageStep(pascal), members);
      if member.Err? {
        return Err(member.error);
      }
      assert (members + [member.value])[..|members|] == members;
      body := body + MemberLines(member.value);
      extra := extra + member.value.storage.extra;
      members := members + [member.value];
    }
    assert fields[..|fields|] == fields;
    r := Ok(StructText(name, docs, body, extra));
  }

  // ---- What the struct declares --------------------------------------------

  /** The prefix of a line declaring a public member of the struct. */
  const MEMBER: string := "  pub "

  predicate Undeclared(lines: seq<string>) {
    forall i :: 0 <= i < |lines| ==> !StartsWith(lines[i], MEMBER)
  }

  /** The members every struct declares before those of its fields. */
  const BOILERPLATE_MEMBERS: seq<string> := [NAME_MEMBER[3], EXTRAS_MEMBER[3], EXTENSIONS_MEMBER[2]]

  function Declarations(members: seq<Member>): (r: seq<string>)
    ensures |r| == |members|
  {
    seq(|members|, k requires 0 <= k < |members| => Declaration(members[k].name, members[k].storage.ty))
  }

  lemma DeclarationDeclares(name: string, ty: string)
    ensures StartsWith(Declaration(name, ty), MEMBER)
  {
    assert Declaration(name, ty) == MEMBER + (name + ": " + ty + ",");
    StartsWithAppend(MEMBER, name + ": " + ty + ",");
  }

  lemma TopUndeclared(name: string, docs: string)
    ensures Matching([DocComment("", docs), STRUCT_DERIVE, "pub struct " + name + " {"], MEMBER) == []
  {
    var top := [DocComment("", docs), STRUCT_DERIVE, "pub struct " + name + " {"];
    DiffersAt(top[0], MEMBER, 0);
    DiffersAt(top[1], MEMBER, 0);
    DiffersAt(top[2], MEMBER, 0);
    MatchingNone(top, MEMBER);
  }

  lemma NameMemberDeclares()
    ensures Matching(NAME_MEMBER, MEMBER) == [NAME_MEMBER[3]]
  {
    DiffersAt(NAME_MEMBER[0], MEMBER, 2);
    DiffersAt(NAME_MEMBER[1], MEMBER, 2);
    DiffersAt(NAME_MEMBER[2], MEMBER, 2);
    DeclarationDeclares("name", "Option<String>");
    MatchingOne(NAME_MEMBER, MEMBER, 3);
  }

  lemma ExtrasMemberDeclares()
    ensures Matching(EXTRAS_MEMBER, MEMBER) == [EXTRAS_MEMBER[3]]
  {
    DiffersAt(EXTRAS_MEMBER[0], MEMBER, 2);
    DiffersAt(EXTRAS_MEMBER[1], MEMBER, 2);
    DiffersAt(EXTRAS_MEMBER[2], MEMBER, 2);
    DeclarationDeclares("extras", "Option<::std::boxed::Box<::serde::value::RawValue>>");
    MatchingOne(EXTRAS_MEMBER, MEMBER, 3);
  }

  lemma ExtensionsMemberDeclares()
    ensures Matching(EXTENSIONS_MEMBER, MEMBER) == [EXTENSIONS_MEMBER[2]]
  {
    DiffersAt(EXTENSIONS_MEMBER[0], MEMBER, 2);
    DiffersAt(EXTENSIONS_MEMBER[1], MEMBER, 2);
    DeclarationDeclares("extensions", "Option<::std::boxed::Box<::serde::value::RawValue>>");
    MatchingOne(EXTENSIONS_MEMBER, MEMBER, 2);
  }

  lemma HeadDeclares(name: string, docs: string)
    ensures Matching(StructHead(name, docs), MEMBER) == BOILERPLATE_MEMBERS
  {
    var top := [DocComment("", docs), STRUCT_DERIVE, "pub struct " + name + " {"];
    TopUndeclared(name, docs);
    NameMemberDeclares();
    ExtrasMemberDeclares();
    ExtensionsMemberDeclares();
    MatchingAppend(NAME_MEMBER, EXTRAS_MEMBER, MEMBER);
    MatchingAppend(NAME_MEMBER + EXTRAS_MEMBER, EXTENSIONS_MEMBER, MEMBER);
    MatchingAppend(top, STRUCT_BOILERPLATE, MEMBER);
  }

  /** A member declares itself once, after its doc comment and attributes. */
  lemma MemberDeclares(m: Member)
    requires Undeclared(m.directives)
    ensures Matching(MemberLines(m), MEMBER) == [Declaration(m.name, m.storage.ty)]
  {
    var vec := if m.storage.vec then [SKIP_IF_EMPTY] else [];
    var pre := [DocComment("  ", m.docs)] + m.directives + vec;
    var decl := Declaration(m.name, m.storage.ty);
    assert MemberLines(m) == pre + [decl];
    DiffersAt(DocComment("  ", m.docs), MEMBER, 2);
    DiffersAt(SKIP_IF_EMPTY, MEMBER, 2);
    assert Undeclared(pre) by {
      forall i | 0 <= i < |pre| ensures !StartsWith(pre[i], MEMBER) {
        if 0 < i <= |m.directives| {
          assert pre[i] == m.directives[i - 1];
        }
      }
    }
    MatchingNone(pre, MEMBER);
    DeclarationDeclares(m.name, m.storage.ty);
    MatchingAppend(pre, [decl], MEMBER);
    assert Matching([decl], MEMBER) == Matching([], MEMBER) + [decl];
  }

  lemma {:induction false} BodyDeclares(members: seq<Member>)
    requires forall k :: 0 <= k < |members| ==> Undeclared(members[k].directives)
    ensures Matching(BodyLines(members), MEMBER) == Declarations(members)
    decreases |members|
  {
    if members != [] {
      var init := members[..|members| - 1];
      var last := members[|members| - 1];
      assert forall k :: 0 <= k < |init| ==> init[k] == members[k];
      BodyDeclares(init);
      MemberDeclares(last);
      assert BodyLines(members) == BodyLines(init) + MemberLines(last);
      MatchingAppend(BodyLines(init), MemberLines(last), MEMBER);
      DeclarationsSnoc(members);
    }
  }

  lemma DeclarationsSnoc(members: seq<Member>)
    requires members != []
    ensures var last := members[|members| - 1];
      Declarations(members) == Declarations(members[..|members| - 1]) + [Declaration(last.name, last.storage.ty)]
  {
  }

  lemma DirectivesUndeclared(name: string, optional: bool, hasDefault: bool)
    ensures Undeclared(Directives(name, optional, hasDefault))
  {
    var d := Directives(name, optional, hasDefault);
    forall i | 0 <= i < |d| ensures !StartsWith(d[i], MEMBER) {
      DiffersAt(d[i], MEMBER, 2);
    }
  }

  /** No attribute of a field declares a member. */
  lemma FieldUndeclared(entry: (string, Value), pascal: string -> string)
    requires StorageField(entry, pascal).Ok?
    ensures Undeclared(StorageField(entry, pascal).value.directives)
  {
    DirectivesUndeclared(entry.0, FlagAt(entry.1, "optional").value, Get(entry.1, "default").Some?);
  }

  /** The lines of a struct block up to its closing brace declare the boilerplate members, then the given ones. */
  lemma TextDeclares(name: string, docs: string, members: seq<Member>, extra: seq<string>)
    requires forall k :: 0 <= k < |members| ==> Undeclared(members[k].directives)
    ensures var lines := StructText(name, docs, BodyLines(members), extra);
      var close := |StructHead(name, docs)| + |BodyLines(members)|;
      && close < |lines| && lines[close] == "}"
      && Matching(lines[..close], MEMBER) == BOILERPLATE_MEMBERS + Declarations(members)
  {
    var head, body := StructHead(name, docs), BodyLines(members);
    var lines := StructText(name, docs, body, extra);
    assert lines[..|head| + |body|] == head + body;
    HeadDeclares(name, docs);
    BodyDeclares(members);
    MatchingAppend(head, body, MEMBER);
  }

  /**
   * Up to its closing brace, a generated struct declares the public
   * members `name`, `extras` and `extensions`, then those of its fields.
   */
  lemma StructDeclaresFields(name: string, meta: Table, fields: Table, pascal: string -> string)
    requires StructSpec(name, meta, fields, pascal).Ok?
    ensures CollectAll(fields, StorageStep(pascal)).Ok?
    ensures var lines := StructSpec(name, meta, fields, pascal).value;
      var members := CollectAll(fields, StorageStep(pascal)).value;
      var close := |StructHead(name, TableStrAt(meta, "docs").value)| + |BodyLines(members)|;
      && close < |lines| && lines[close] == "}"
      && Matching(lines[..close], MEMBER) == BOILERPLATE_MEMBERS + Declarations(members)
  {
    var docs := TableStrAt(meta, "docs").value;
    var ms := CollectAll(fields, StorageStep(pascal)).value;
    CollectAllMeaning(fields, StorageStep(pascal));
    forall k | 0 <= k < |ms| ensures Undeclared(ms[k].directives) {
      FieldUndeclared(fields[k], pascal);
    }
    TextDeclares(name, docs, ms, ExtraLines(ms));
  }

  /** The field declarations are one per entry of `fields`, in order, naming the field and its storage type. */
  lemma DeclarationsFollowFields(fields: Table, pascal: string -> string)
    requires CollectAll(fields, StorageStep(pascal)).Ok?
    ensures var decls := Declarations(CollectAll(fields, StorageStep(pascal)).value);
      && |decls| == |fields|
      && forall k :: 0 <= k < |fields| ==>
           (StorageField(fields[k], pascal).Ok? &&
            decls[k] == Declaration(fields[k].0, StorageField(fields[k], pascal).value.storage.ty))
  {
    CollectAllMeaning(fields, StorageStep(pascal));
  }

  // ---- Properties of one field ---------------------------------------------

  /**
   * An optional field is stored as an `Option`, skipped when `None`, and
   * adds nothing after the struct; the kinds that must be present are never
   * optional.
   */
  lemma OptionalFields(entry: (string, Value), pascal: string -> string)
    requires StorageField(entry, pascal).Ok? && FlagAt(entry.1, "optional") == Ok(true)
    ensures Get(entry.1, "default").None?
    ensures StrAt(entry.1, "ty").value !in {"Array", "Bool", "Any", "Special"}
    ensures var m := StorageField(entry, pascal).value;
      && m.directives == [SKIP_IF_NONE]
      && StartsWith(m.storage.ty, "Option<")
      && !m.storage.vec && m.storage.extra == []
  {
  }

  /**
   * For the kinds that take a default (integer, float, bool) and are not
   * optional, the helper pair is written exactly when a default is given,
   * under the names the serde attributes refer to.
   */
  lemma DefaultsHaveHelpers(entry: (string, Value), pascal: string -> string)
    requires StorageField(entry, pascal).Ok?
    requires StrAt(entry.1, "ty").value in {"Integer", "Float", "Bool"}
    requires FlagAt(entry.1, "optional") == Ok(false)
    ensures var m := StorageField(entry, pascal).value;
      && (Get(entry.1, "default").Some? <==> m.storage.extra != [])
      && m.directives == Directives(entry.0, false, Get(entry.1, "default").Some?)
      && (m.storage.extra != [] ==> HelperPair(entry.0, m.storage.extra))
  {
  }

  /** A default of the wrong kind stops generation. */
  lemma MistypedDefault(entry: (string, Value), pascal: string -> string, ty: string, default: Value)
    requires StrAt(entry.1, "docs").Ok? && StrAt(entry.1, "ty") == Ok(ty)
    requires FlagAt(entry.1, "optional") == Ok(false) && Get(entry.1, "default") == Some(default)
    requires (ty == "Integer" && !default.Integer?) || (ty == "Float" && !default.Float?)
          || (ty == "Bool" && !default.Boolean?)
    ensures StorageField(entry, pascal) == Err(WrongType("default"))
  {
  }

  /** A field cannot be both optional and defaulted. */
  lemma OptionalWithDefaultFails(entry: (string, Value), pascal: string -> string)
    requires StrAt(entry.1, "docs").Ok? && StrAt(entry.1, "ty").Ok?
    requires FlagAt(entry.1, "optional") == Ok(true) && Get(entry.1, "default").Some?
    ensures StorageField(entry, pascal) == Err(OptionalWithDefault(entry.0))
  {
  }

  /** A kind outside the known ones stops generation, once the field's flags have been read. */
  lemma UnknownFieldKind(entry: (string, Value), pascal: string -> string, ty: string)
    requires StrAt(entry.1, "docs").Ok? && StrAt(entry.1, "ty") == Ok(ty) && ty !in FIELD_KINDS
    requires FlagAt(entry.1, "optional").Ok?
    requires !(FlagAt(entry.1, "optional").value && Get(entry.1, "default").Some?)
    ensures StorageField(entry, pascal) == Err(UnknownType(ty))
  {
  }

  /** A `FixedSizeArray` of anything but `Float` or `Integer` stops generation. */
  lemma UnsupportedFixedArrayFails(entry: (string, Value), pascal: string -> string, element: string)
    requires StrAt(entry.1, "docs").Ok? && StrAt(entry.1, "ty") == Ok("FixedSizeArray")
    requires FlagAt(entry.1, "optional").Ok?
    requires !(FlagAt(entry.1, "optional").value && Get(entry.1, "default").Some?)
    requires Index(entry.1, "of").Ok? && StrAt(Index(entry.1, "of").value, "ty") == Ok(element)
    requires IntAt(Index(entry.1, "of").value, "n").Ok?
    requires element != "Float" && element != "Integer"
    ensures StorageField(entry, pascal) == Err(UnsupportedFixedArray(element))
  {
  }

  /** An `Array` whose `of` is a table must describe an array of `Index`es. */
  lemma ArrayOfNonIndexFails(entry: (string, Value), pascal: string -> string, element: string)
    requires StrAt(entry.1, "docs").Ok? && StrAt(entry.1, "ty") == Ok("Array")
    requires FlagAt(entry.1, "optional") == Ok(false)
    requires Index(entry.1, "of").Ok? && Index(entry.1, "of").value.TableOf?
    requires StrAt(Index(entry.1, "of").value, "ty") == Ok(element) && element != "Index"
    ensures StorageField(entry, pascal) == Err(ArrayOfNonIndex(element))
  {
  }

  /** `Array`, `Bool`, `Any` and `Special` fields cannot be optional. */
  lemma NotOptionalKinds(entry: (string, Value), pascal: string -> string, ty: string)
    requires StrAt(entry.1, "docs").Ok? && StrAt(entry.1, "ty") == Ok(ty)
    requires FlagAt(entry.1, "optional") == Ok(true) && Get(entry.1, "default").None?
    requires || ty in {"Bool", "Any", "Special"}
             || (ty == "Array" && Index(entry.1, "of").Ok?
                 && (Index(entry.1, "of").value.Str? || Index(entry.1, "of").value.TableOf?))
    ensures StorageField(entry, pascal) == Err(NotOptional(entry.0, ty))
  {
  }

  /**
   * The serde directives of a field: `Option::is_none` for an optional one,
   * the pair naming its helpers for a defaulted one, none otherwise.
   */
  lemma FieldDirectives(entry: (string, Value), pascal: string -> string)
    requires StorageField(entry, pascal).Ok?
    ensures var m, optional, default :=
      StorageField(entry, pascal).value, FlagAt(entry.1, "optional").value, Get(entry.1, "default");
      && (optional ==> default.None? && m.directives == [SKIP_IF_NONE])
      && (!optional && default.Some? ==>
            m.directives == [Attribute("  ", "serde(default = \"" + entry.0 + "_default\")"),
                             Attribute("  ", "serde(skip_serializing_if = \"" + entry.0 + "_is_default\")")])
      && (!optional && default.None? ==> m.directives == [])
  {
  }

  /** Only the kinds that take a default, and arrays, add text after the struct. */
  lemma NoOtherExtraText(entry: (string, Value), pascal: string -> string)
    requires StorageField(entry, pascal).Ok?
    requires StrAt(entry.1, "ty").value !in {"Integer", "Float", "Bool", "Array"}
    ensures StorageField(entry, pascal).value.storage.extra == []
  {
  }

  /**
   * Exactly the `Array` fields are stored as `Vec`s, skipped when empty;
   * each adds a type named after the field: an alias of the slice iterator
   * for numbers, an iterator struct otherwise.
   */
  lemma ArraysAreVecs(entry: (string, Value), pascal: string -> string)
    requires StorageField(entry, pascal).Ok?
    ensures var m := StorageField(entry, pascal).value;
      && (m.storage.vec <==> StrAt(entry.1, "ty") == Ok("Array"))
      && (m.storage.vec ==>
            && m.directives == Directives(entry.0, false, Get(entry.1, "default").Some?)
            && StartsWith(m.storage.ty, "Vec<") && NamesIterator(pascal(entry.0), m.storage.extra))
  {
  }

  // ---- How the block ends ----------------------------------------------------

  /** The closing brace ends the block when there is no extra text; otherwise each extra line follows it, newline-terminated. */
  lemma ClosingText(extra: seq<string>)
    ensures Join(Closing(extra), "\n") == "}" + (if extra == [] then "" else "\n" + Terminated(extra))
  {
    if extra != [] {
      assert Closing(extra) == ["}"] + (extra + [""]);
      JoinAppend(["}"], extra + [""], "\n");
      JoinBlankIsTerminated(extra);
    }
  }

  /**
   * A struct block is its head and members, the closing brace, and then the
   * text its fields added, only when there is some.
   */
  lemma StructEnds(name: string, meta: Table, fields: Table, pascal: string -> string)
    requires StructSpec(name, meta, fields, pascal).Ok?
    ensures CollectAll(fields, StorageStep(pascal)).Ok?
    ensures var members := CollectAll(fields, StorageStep(pascal)).value;
      var extra := ExtraLines(members);
      Join(StructSpec(name, meta, fields, pascal).value, "\n")
        == Join(StructHead(name, TableStrAt(meta, "docs").value) + BodyLines(members), "\n")
           + "\n}" + (if extra == [] then "" else "\n" + Terminated(extra))
  {
    TextEnds(name, TableStrAt(meta, "docs").value, CollectAll(fields, StorageStep(pascal)).value);
  }

  lemma TextEnds(name: string, docs: string, members: seq<Member>)
    ensures var extra := ExtraLines(members);
      Join(StructText(name, docs, BodyLines(members), extra), "\n")
        == Join(StructHead(name, docs) + BodyLines(members), "\n")
           + "\n}" + (if extra == [] then "" else "\n" + Terminated(extra))
  {
    JoinAppend(StructHead(name, docs) + BodyLines(members), Closing(ExtraLines(members)), "\n");
    ClosingText(ExtraLines(members));
  }
}
