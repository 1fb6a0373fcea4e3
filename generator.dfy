/**
 * `run`: reading `meta`, choosing the writers by `kind` (and, for enums, by
 * encoding), and printing the blocks inside the module path.
 */
module Generator {
  import opened Wrappers
  import opened Text
  import opened Toml
  import opened Schema
  import opened ModuleWriter
  import opened StructWriter
  import opened AccessorWriter
  import opened EnumWriter

  /** The text of a block: its lines, the last one without a newline. */
  function Block(lines: seq<string>): string {
    Join(lines, "\n")
  }

  /** `meta["of"]` of an enum schema. */
  function EncodingOf(of: string): (r: Outcome<Encoding>)
    ensures r == Ok(StringEncoding) <==> of == "String"
    ensures r == Ok(IntegerEncoding) <==> of == "Integer"
    ensures r.Err? ==> r == Err(UnknownEncoding(of))
  {
    if of == "String" then Ok(StringEncoding)
    else if of == "Integer" then Ok(IntegerEncoding)
    else Err(UnknownEncoding(of))
  }

  /** The `include` block, when `meta` names one: the contents of that file, from `files`. */
  function Included(meta: Table, files: map<string, string>): (r: Outcome<seq<string>>)
    ensures Lookup(meta, "include").None? ==> r == Ok([])
    ensures r.Ok? && Lookup(meta, "include").Some? ==>
      && Lookup(meta, "include").value.Str?
      && Lookup(meta, "include").value.s in files
      && r == Ok([files[Lookup(meta, "include").value.s]])
  {
    match Lookup(meta, "include")
    case None => Ok([])
    case Some(v) =>
      match AsStr(v)
      case None => Err(WrongType("include"))
      case Some(path) => if path in files then Ok([files[path]]) else Err(Unreadable(path))
  }

  /**
   * The three block writers `run` chooses between: the struct, its wrapper
   * and the enum of an encoding. `run` uses `WRITERS`; the properties of a
   * run below hold for any writers.
   */
  datatype Writers = Writers(structText: StructTexts, accessorText: StructTexts, enumText: EnumTexts)

  /** A writer of the lines of a struct block from its name, `meta`, `fields` and the case conversion. */
  type StructTexts = (string, Table, Table, string -> string) -> Outcome<seq<string>>

  /** A writer of the lines of an enum block from its encoding, name, `meta` and `values`. */
  type EnumTexts = (Encoding, string, Table, Table) -> Outcome<seq<string>>

  /** `write_string_enum` or `write_integer_enum`, each with its own fixed text. */
  function SourceEnum(enc: Encoding, name: string, meta: Table, values: Table): Outcome<seq<string>> {
    EnumSpec(enc, name, EnumFrame(enc, name), meta, values)
  }

  /** The writers of the generator: `write_struct`, `write_struct_accessor` and the enum writers. */
  const WRITERS: Writers := Writers(StructSpec, AccessorSpec, SourceEnum)

  /** The struct block and its wrapper. */
  function StructKind(doc: Table, name: string, meta: Table, pascal: string -> string,
                      structText: StructTexts, accessorText: StructTexts): Outcome<seq<string>>
  {
    var fields :- TableAt(TableOf(doc), "fields");
    var s :- structText(name, meta, fields, pascal);
    var a :- accessorText(name, meta, fields, pascal);
    Ok([Block(s), Block(a)])
  }

  /** What an enum schema is written from: the encoding `meta["of"]` names and the `values` table. */
  function EnumInput(doc: Table, meta: Table): (r: Outcome<(Encoding, Table)>)
    ensures r.Ok? <==>
      && TableStrAt(meta, "of").Ok? && TableAt(TableOf(doc), "values").Ok?
      && EncodingOf(TableStrAt(meta, "of").value).Ok?
    ensures r.Ok? ==>
      r.value == (EncodingOf(TableStrAt(meta, "of").value).value, TableAt(TableOf(doc), "values").value)
  {
    var of :- TableStrAt(meta, "of");
    var values :- TableAt(TableOf(doc), "values");
    var enc :- EncodingOf(of);
    Ok((enc, values))
  }

  /** The lines a writer produced, as one block, or the error that stopped it. */
  function OneBlock(lines: Outcome<seq<string>>): Outcome<seq<string>> {
    var e :- lines;
    Ok([Block(e)])
  }

  /** The enum block of an encoding. */
  function EnumBlocks(enc: Encoding, name: string, meta: Table, values: Table, enumText: EnumTexts)
    : Outcome<seq<string>>
  {
    OneBlock(enumText(enc, name, meta, values))
  }

  /** The enum block, written for the encoding `meta["of"]` names. */
  function EnumKind(doc: Table, name: string, meta: Table, enumText: EnumTexts): Outcome<seq<string>> {
    var input :- EnumInput(doc, meta);
    EnumBlocks(input.0, name, meta, input.1, enumText)
  }

  /** The blocks a schema of the given kind produces. */
  function KindBlocks(doc: Table, kind: string, name: string, meta: Table, pascal: string -> string,
                      w: Writers)
    : Outcome<seq<string>>
  {
    if kind == "Struct" then StructKind(doc, name, meta, pascal, w.structText, w.accessorText)
    else if kind == "Enum" then EnumKind(doc, name, meta, w.enumText)
    else Err(UnknownKind(kind))
  }

  /** A schema read: the module path and the blocks to print inside it. */
  datatype Plan = Plan(modulePath: Option<string>, blocks: seq<string>)

  function Prepare(doc: Table, files: map<string, string>, pascal: string -> string,
                   w: Writers): Outcome<Plan>
  {
    var meta :- TableAt(TableOf(doc), "meta");
    var name :- TableStrAt(meta, "ident");
    var module_ :- TableIndex(meta, "module");
    var kind :- TableStrAt(meta, "kind");
    var included :- Included(meta, files);
    var blocks :- KindBlocks(doc, kind, name, meta, pascal, w);
    Ok(Plan(AsStr(module_), included + blocks))
  }

  /** What `write_module` and the final `writeln!` print for a plan. */
  function Render(plan: Plan): string {
    Terminated(ModuleLines(plan.modulePath, plan.blocks) + [""])
  }

  /** What `run` prints; nothing when it fails. */
  function Generate(doc: Table, files: map<string, string>, pascal: string -> string,
    w: Writers): Outcome<string>
  {
    var plan :- Prepare(doc, files, pascal, w);
    Ok(Render(plan))
  }

  method WriteStructKind(doc: Table, name: string, meta: Table, pascal: string -> string)
    returns (r: Outcome<seq<string>>)
    ensures r == StructKind(doc, name, meta, pascal, StructSpec, AccessorSpec)
  {
    var fields :- TableAt(TableOf(doc), "fields");
    var s :- WriteStruct(name, meta, fields, pascal);
    var a :- WriteAccessor(name, meta, fields, pascal);
    r := Ok([Block(s), Block(a)]);
  }

  method WriteEnumBlocks(enc: Encoding, name: string, meta: Table, values: Table)
    returns (r: Outcome<seq<string>>)
    ensures r == EnumBlocks(enc, name, meta, values, SourceEnum)
  {
    var e := WriteEnum(enc, name, EnumFrame(enc, name), meta, values);
    r := OneBlock(e);
  }

  method WriteEnumKind(doc: Table, name: string, meta: Table) returns (r: Outcome<seq<string>>)
    ensures r == EnumKind(doc, name, meta, SourceEnum)
  {
    var input :- EnumInput(doc, meta);
    r := WriteEnumBlocks(input.0, name, meta, input.1);
  }

  method WriteBlocks(doc: Table, kind: string, name: string, meta: Table, pascal: string -> string)
    returns (r: Outcome<seq<string>>)
    ensures r == KindBlocks(doc, kind, name, meta, pascal, WRITERS)
  {
    if kind == "Struct" {
      r := WriteStructKind(doc, name, meta, pascal);
    } else if kind == "Enum" {
      r := WriteEnumKind(doc, name, meta);
    } else {
      r := Err(UnknownKind(kind));
    }
  }

  /** `run`, for a parsed schema `doc`; `files` holds the readable files. */
  method Run(doc: Table, files: map<string, string>, pascal: string -> string) returns (r: Outcome<string>)
    ensures r == Generate(doc, files, pascal, WRITERS)
  {
    var meta :- TableAt(TableOf(doc), "meta");
    var name :- TableStrAt(meta, "ident");
    var module_ :- TableIndex(meta, "module");
    var kind :- TableStrAt(meta, "kind");
    var included :- Included(meta, files);
    var blocks :- WriteBlocks(doc, kind, name, meta, pascal);
    var lines := WriteModule(AsStr(module_), included + blocks);
    r := Ok(Terminated(lines + [""]));
    assert r == Ok(Render(Plan(AsStr(module_), included + blocks)));
  }

  // ---- Properties of a run -------------------------------------------------

  /** The output is the module lines, each newline-terminated, then one more newline. */
  lemma RenderEndsWithBlankLine(plan: Plan)
    ensures Render(plan) == Terminated(ModuleLines(plan.modulePath, plan.blocks)) + "\n"
  {
    TerminatedAppend(ModuleLines(plan.modulePath, plan.blocks), [""]);
  }

  /**
   * A struct schema prints, inside its module path, the included block,
   * then the struct, then its wrapper, and a final empty line.
   */
  lemma StructOutput(doc: Table, files: map<string, string>, pascal: string -> string,
    w: Writers)
    requires Generate(doc, files, pascal, w).Ok?
    requires TableStrAt(TableAt(TableOf(doc), "meta").value, "kind") == Ok("Struct")
    ensures var meta := TableAt(TableOf(doc), "meta").value;
      var name := TableStrAt(meta, "ident").value;
      var fields := TableAt(TableOf(doc), "fields").value;
      && w.structText(name, meta, fields, pascal).Ok? && w.accessorText(name, meta, fields, pascal).Ok?
      && Generate(doc, files, pascal, w).value
         == Terminated(ModuleLines(AsStr(TableIndex(meta, "module").value),
              Included(meta, files).value
              + [Block(w.structText(name, meta, fields, pascal).value),
                 Block(w.accessorText(name, meta, fields, pascal).value)]))
            + "\n"
  {
    RenderEndsWithBlankLine(Prepare(doc, files, pascal, w).value);
  }

  /**
   * An enum schema prints, inside its module path, the included block,
   * then the enum written for the encoding `meta["of"]` names, and a final
   * empty line.
   */
  lemma EnumOutput(doc: Table, files: map<string, string>, pascal: string -> string,
    w: Writers)
    requires Generate(doc, files, pascal, w).Ok?
    requires TableStrAt(TableAt(TableOf(doc), "meta").value, "kind") == Ok("Enum")
    ensures var meta := TableAt(TableOf(doc), "meta").value;
      var name := TableStrAt(meta, "ident").value;
      var values := TableAt(TableOf(doc), "values").value;
      var enc := EncodingOf(TableStrAt(meta, "of").value).value;
      && w.enumText(enc, name, meta, values).Ok?
      && Generate(doc, files, pascal, w).value
         == Terminated(ModuleLines(AsStr(TableIndex(meta, "module").value),
              Included(meta, files).value + [Block(w.enumText(enc, name, meta, values).value)]))
            + "\n"
  {
    RenderEndsWithBlankLine(Prepare(doc, files, pascal, w).value);
  }

  /** `meta` is read in order: the ident, then the module key (which must be present), then the kind, then the include. */
  predicate MetaReadable(doc: Table, files: map<string, string>) {
    && TableAt(TableOf(doc), "meta").Ok?
    && var meta := TableAt(TableOf(doc), "meta").value;
    && TableStrAt(meta, "ident").Ok?
    && TableIndex(meta, "module").Ok?
    && TableStrAt(meta, "kind").Ok?
    && Included(meta, files).Ok?
  }

  /** A kind other than `Struct` and `Enum` stops the run, after `meta` has been read. */
  lemma UnknownKindAborts(doc: Table, files: map<string, string>, pascal: string -> string,
    w: Writers, kind: string)
    requires MetaReadable(doc, files)
    requires TableStrAt(TableAt(TableOf(doc), "meta").value, "kind") == Ok(kind)
    requires kind != "Struct" && kind != "Enum"
    ensures Generate(doc, files, pascal, w) == Err(UnknownKind(kind))
  {
  }

  /** An enum whose `of` is neither `String` nor `Integer` stops the run, after `values` has been read. */
  lemma UnknownEncodingAborts(doc: Table, files: map<string, string>, pascal: string -> string,
    w: Writers, of: string)
    requires MetaReadable(doc, files)
    requires TableStrAt(TableAt(TableOf(doc), "meta").value, "kind") == Ok("Enum")
    requires TableStrAt(TableAt(TableOf(doc), "meta").value, "of") == Ok(of)
    requires TableAt(TableOf(doc), "values").Ok?
    requires of != "String" && of != "Integer"
    ensures Generate(doc, files, pascal, w) == Err(UnknownEncoding(of))
  {
  }

  /** The include is read before the kind is looked at: an unreadable file stops every run. */
  lemma UnreadableIncludeAborts(doc: Table, files: map<string, string>, pascal: string -> string,
    w: Writers, path: string)
    requires TableAt(TableOf(doc), "meta").Ok?
    requires var meta := TableAt(TableOf(doc), "meta").value;
      && TableStrAt(meta, "ident").Ok? && TableIndex(meta, "module").Ok? && TableStrAt(meta, "kind").Ok?
      && Lookup(meta, "include") == Some(Str(path))
    requires path !in files
    ensures Generate(doc, files, pascal, w) == Err(Unreadable(path))
  {
  }

  /** `meta["module"]` is indexed, so a schema without a `module` key stops the run. */
  lemma ModuleKeyRequired(doc: Table, files: map<string, string>, pascal: string -> string,
    w: Writers)
    requires TableAt(TableOf(doc), "meta").Ok?
    requires var meta := TableAt(TableOf(doc), "meta").value;
      TableStrAt(meta, "ident").Ok? && Lookup(meta, "module").None?
    ensures Generate(doc, files, pascal, w) == Err(Missing("module"))
  {
  }
}
