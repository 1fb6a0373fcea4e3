# gltf-codegen-experiment: the schema-to-Rust generator and the `Semantic` codec

This project models two pieces of the glTF code-generation experiment in Dafny and proves properties of them.

**The generator in `toml/src/main.rs`.** It reads one parsed TOML schema. The schema has a `meta` table, plus `fields` (for `kind = "Struct"`) or `values` (for `kind = "Enum"`). From it the generator prints Rust source:

- For a struct schema: a serde storage struct (`write_struct`), then a borrowing wrapper with one accessor method per visible field (`write_struct_accessor`).
- For an enum schema: an enum with a `Checked<_>` deserializer, an encoder (`as_str` or `as_gl_enum`) and a serializer (`write_string_enum` or `write_integer_enum`).

The blocks are preceded by an optional `include` file and wrapped in one `pub mod` per segment of `meta.module` (`write_module`).

How the model represents the generator:

- Each `write_*` routine is a Dafny method with the same loops. It is proved equal to a specification function that returns the emitted lines, or the error that stops generation.
- Every `panic!`, `assert!`, `unwrap()` and missing-key index of the Rust code becomes an `Err` of `Schema.Error`. The errors are checked in the same order as the Rust code.
- A block's text is its lines joined with newlines. Each `writeln!` ends a line and the final `write!` does not.
- The printed output is every line `write_module` writes, each followed by a newline, then one empty line.

Properties proved about the generated code's meaning:

- The emitted decoder and encoder are read as functions (`EnumWriter.Decode`, `EnumWriter.Encode`), using Rust's first-matching-arm rule.
- Decoding follows the `values` table, with `Invalid` for any literal it does not declare.
- Encoding, then decoding, gives back the variant.
- Which struct members and which wrapper methods are present is stated over the emitted lines.

**The vertex-attribute codec in `toml/support/primitive.rs`.** `Semantic::checked` parses names such as `POSITION` or `TEXCOORD_3`. The two `ToString` impls print them. The crate's `extras` feature is a boolean parameter. `str::parse::<u32>` is modelled as `Numbers.ParseU32`: an optional `+` and at least one decimal digit, with a value below 2^32. The proofs cover the round trip and that parsing is idempotent.

The properties of a whole run (`Generator.StructOutput`, `Generator.EnumOutput` and the `...Aborts` lemmas) are stated for any `Generator.Writers`. `Generator.Run` is proved equal to `Generate` with `Generator.WRITERS`, the model's own struct, accessor and enum writers.

Modules, one per file or group of files:

| module | file |
|---|---|
| `Wrappers` | `wrappers.dfy` |
| `Validation` | `wrappers.dfy` |
| `Numbers` | `numbers.dfy` |
| `Text` | `text.dfy` |
| `Seqs` | `text.dfy` |
| `Toml` | `toml.dfy` |
| `Schema` | `toml.dfy` |
| `ModuleWriter` | `module_writer.dfy` |
| `EnumWriter` | `enum_writer.dfy` |
| `StructWriter` | `struct_writer.dfy` |
| `AccessorWriter` | `accessor_writer.dfy` |
| `Generator` | `generator.dfy` |
| `Primitive` | `primitive.dfy` |

Where the documented design and the code disagree, the model follows the code:

- **Discriminants.** Both enum writers declare the k-th variant (from 0) as `= k + 1` (`toml/src/main.rs:45`, `toml/src/main.rs:110`). This includes integer enums, whose declared value appears only in the decoder and in `as_gl_enum`.
- **`meta.module`.** The key is indexed (`toml/src/main.rs:542`), so a schema without it aborts. A `module` that is not a string means "no module".
- **Output on failure.** The blocks are built before anything is printed, so a failing run prints nothing.

## Model

| member | source | states |
|---|---|---|
| Primitive.CheckedSemantic | toml/support/primitive.rs:76-111 | a name parses to a valid semantic only if that semantic exists in the build (`Extras` needs the `extras` feature) |
| Primitive.Keywords | toml/support/primitive.rs:80-82 | `NORMAL`, `POSITION` and `TANGENT` parse to `Normals`, `Positions` and `Tangents`, with or without `extras` |
| Primitive.ExtrasRule | toml/support/primitive.rs:83-84 | with `extras`, `_` followed by any text is `Extras` of that text, tried before the numbered prefixes |
| Primitive.NoExtrasWithoutFeature | toml/support/primitive.rs:83-84 | without `extras`, a name starting with `_` is `Invalid` |
| Primitive.ColorPrefix | toml/support/primitive.rs:85-90 | `COLOR_` plus a suffix is `Colors(n)` exactly when the suffix parses as the `u32` `n`, otherwise `Invalid` (empty suffix, a non-digit, overflow) |
| Primitive.TexCoordPrefix | toml/support/primitive.rs:91-96 | the same for `TEXCOORD_` and `TexCoords` |
| Primitive.JointsPrefix | toml/support/primitive.rs:97-102 | the same for `JOINTS_` and `Joints` |
| Primitive.WeightsPrefix | toml/support/primitive.rs:103-108 | the same for `WEIGHTS_` and `Weights` |
| Primitive.Unrecognised | toml/support/primitive.rs:109 | a name matching no keyword and no prefix is `Invalid` |
| Primitive.RoundTrip | toml/support/primitive.rs:122-137 | parsing the printed form of any semantic available in the build gives that semantic back |
| Primitive.CheckedRoundTrip | toml/support/primitive.rs:139-146 | the printed form of a checked semantic, `<invalid semantic name>` for `Invalid` included, parses back to the same checked value |
| Primitive.ParseIsIdempotent | toml/support/primitive.rs:139-146 | print-then-parse after a parse changes nothing: parsing is a normalisation |
| Primitive.LeadingZerosNormalise | toml/support/primitive.rs:85-90 | `COLOR_007` parses to `Colors(7)`, which prints as `COLOR_7`, so the printer is not a left inverse of the parser |
| Numbers.ParseU32 | toml/support/primitive.rs:86 | a successful `u32` parse needs a non-empty text that does not start with `-` |
| Numbers.ParseU32OfNatToString | toml/support/primitive.rs:129 | the `{}` text of every `u32` parses back to the same number |
| Numbers.ParseU32IgnoresZerosAndPlus | toml/support/primitive.rs:86 | a leading `0` or `+` before a digit string does not change the parsed value |
| Numbers.NatToString | toml/support/primitive.rs:129 | `{}` of an unsigned number is a non-empty digit string with no leading zero |
| Numbers.IntToString | toml/src/main.rs:128 | `{}` of a signed number starts with `-` exactly when it is negative |
| Toml.LookupFinds | toml/src/main.rs:541 | looking a key up in a table succeeds exactly when some entry has that key, and then yields that entry's value |
| Schema.FlagAt | toml/src/main.rs:192 | an absent flag reads as `false`; the read fails exactly when the flag is present and not a boolean |
| ModuleWriter.WriteModule | toml/src/main.rs:9-28 | the three loops write the openers, the blocks and the closers (`ModuleLines`) |
| ModuleWriter.ModuleNesting | toml/src/main.rs:14-26 | one `pub mod <segment> {` per `::`-separated segment, in order; then every block; then one `}` per segment. The segments are non-empty as a list, free of `::` and join back to the path. Without a module only the blocks are written |
| Text.JoinSplit | toml/src/main.rs:15 | joining the pieces of `split("::")` with `::` gives back the path |
| Text.SplitPiecesAvoidSeparator | toml/src/main.rs:15 | no piece of `split("::")` contains `::` |
| EnumWriter.WriteDeclarations | toml/src/main.rs:42-46 | the declaration loop reads each entry's `docs` in table order and writes two lines per entry, or stops at the first unreadable one |
| EnumWriter.WriteDecodeArms | toml/src/main.rs:61-64 | the decoder loop reads each entry's `value` (a string, or an integer in `write_integer_enum` at lines 126-129) and writes one arm per entry |
| EnumWriter.WriteEncodeArms | toml/src/main.rs:77-80 | the encoder loop writes one arm per literal the decoder loop read, in the same order |
| EnumWriter.WriteEnum | toml/src/main.rs:30-93 | the whole enum block, for either encoding (`write_integer_enum` is lines 95-158), equals `EnumSpec`: the docs, then the three loops between the fixed text, failing exactly where the Rust code unwraps |
| EnumWriter.FrameShape | toml/src/main.rs:47-91 | the fixed text has a 14-line decoder head, an 8-line decoder tail starting with `_ => Invalid,`, a 4-line encoder head and tail, and a 7-line serializer, in both encodings |
| EnumWriter.SpecText | toml/src/main.rs:37-46 | an accepted enum reads one doc and one literal for every entry of `values` and is exactly the text built from them |
| EnumWriter.DeclarationText | toml/src/main.rs:42-46 | a block has 4n + 40 lines for n entries, starts with the enum's doc, and declares the k-th entry (from 0) with its doc and `= k + 1` |
| EnumWriter.DeclarationLayout | toml/src/main.rs:107-111 | for an accepted schema the discriminants are positional in table order, for integer enums too |
| EnumWriter.VariantsFollowValues | toml/src/main.rs:42-44 | the k-th declared variant is the k-th entry of `values`, with its `docs` |
| EnumWriter.ArmsFollowValues | toml/src/main.rs:126-128 | the k-th decoder and encoder arm is the k-th entry with its declared `value`, a string or an integer as the encoding says |
| EnumWriter.DecoderText | toml/src/main.rs:61-64 | lines 2n + 17 to 3n + 16 of the block are the decoder arms, one per entry in order |
| EnumWriter.CatchAllText | toml/src/main.rs:65 | the line after the last decoder arm is `_ => Invalid,` |
| EnumWriter.EncoderText | toml/src/main.rs:77-80 | lines 3n + 29 to 4n + 28 of the block are the encoder arms, one per entry in order |
| EnumWriter.EncoderLayout | toml/src/main.rs:142-145 | for an accepted schema the encoder arms are the entries of `values`, in order |
| EnumWriter.DecodeFollowsTable | toml/src/main.rs:60-66 | a literal decodes to the variant of the first arm declaring it; it is `Invalid` exactly when no arm declares it; any variant decoded comes from such a first arm |
| EnumWriter.EncodeFindsVariant | toml/src/main.rs:76-81 | the encoder yields a literal exactly for the declared variants, and that literal is the one declared for it |
| EnumWriter.RoundTrip | toml/src/main.rs:61-80 | when literals are pairwise distinct, decoding the encoder's literal for any declared variant gives that variant |
| EnumWriter.StringRoundTrip | toml/src/main.rs:56-89 | what `as_str` (sent by `serialize_str`) produces decodes back to the variant in `visit_str` |
| EnumWriter.IntegerRoundTrip | toml/src/main.rs:121-154 | with distinct declared values below 2^32, `as_gl_enum` (sent by `serialize_u32`) decodes back to the variant in `visit_u64` |
| EnumWriter.WireKeepsLow32Bits | toml/src/main.rs:125 | `value as u32` makes wire values that differ by 2^32 decode alike |
| StructWriter.IntegerHelpers | toml/src/main.rs:216-222 | an integer default adds the `<name>_default` / `<name>_is_default` pair, no default adds nothing, and a non-integer default fails |
| StructWriter.FloatHelpers | toml/src/main.rs:243-250 | the same for a float default |
| StructWriter.BoolHelpers | toml/src/main.rs:338-346 | the same for a boolean default |
| StructWriter.ArrayStorage | toml/src/main.rs:278-337 | an array field is stored as a `Vec`, adds the type named after it (an alias, or an iterator struct) and cannot be optional |
| StructWriter.StorageArm | toml/src/main.rs:205-357 | only arrays are `Vec`s; an optional field is an `Option` with no extra text and not among `Array`, `Bool`, `Any`, `Special`; the helpers appear exactly with a default; an unknown kind fails |
| StructWriter.StorageField | toml/src/main.rs:189-204 | a member keeps its field's name and `docs` |
| StructWriter.WriteStruct | toml/src/main.rs:160-368 | the field loop writes the members and collects the extra text, equal to `StructSpec` |
| StructWriter.StructDeclaresFields | toml/src/main.rs:173-357 | up to its closing brace a struct declares `name`, `extras` and `extensions`, then one member per field (hidden and `Special` included) and nothing else |
| StructWriter.DeclarationsFollowFields | toml/src/main.rs:189-357 | the k-th field declaration names the k-th entry of `fields` with its storage type |
| StructWriter.OptionalFields | toml/src/main.rs:194-200 | an optional field has no default, is skipped when `None`, is stored as an `Option` and adds no extra text |
| StructWriter.FieldDirectives | toml/src/main.rs:198-204 | the directives are `Option::is_none` for an optional field, the two naming its helpers for a defaulted one, and none otherwise |
| StructWriter.DefaultsHaveHelpers | toml/src/main.rs:199-222 | a non-optional integer, float or bool field has the helper pair exactly when it has a default, named as its directives say |
| StructWriter.NoOtherExtraText | toml/src/main.rs:205-357 | fields other than integers, floats, bools and arrays add no extra text |
| StructWriter.MistypedDefault | toml/src/main.rs:218-219 | a default of the wrong kind stops generation |
| StructWriter.OptionalWithDefaultFails | toml/src/main.rs:194-196 | a field both optional and defaulted stops generation |
| StructWriter.UnknownFieldKind | toml/src/main.rs:356 | a `ty` outside the known kinds stops generation |
| StructWriter.UnsupportedFixedArrayFails | toml/src/main.rs:251-268 | a fixed-size array of anything but `Float` or `Integer` stops generation |
| StructWriter.ArrayOfNonIndexFails | toml/src/main.rs:314-316 | a table-valued `of` of an array must have `ty = "Index"` |
| StructWriter.NotOptionalKinds | toml/src/main.rs:277-355 | `Array`, `Bool`, `Any` and `Special` fields cannot be optional |
| StructWriter.ArraysAreVecs | toml/src/main.rs:278-337 | exactly the array fields are `Vec`s, and each adds the type named after the field |
| StructWriter.ClosingText | toml/src/main.rs:360-365 | after the closing brace comes nothing when the extra text is empty, otherwise a newline and every extra line newline-terminated |
| StructWriter.StructEnds | toml/src/main.rs:360-365 | a struct block is its head and members, `}` and then the extra text of its fields only when there is some |
| AccessorWriter.ArrayAccessor | toml/src/main.rs:438-452 | an array's accessor returns the iterator type named after the field |
| AccessorWriter.AccessorArm | toml/src/main.rs:416-529 | optional fields (arrays aside) return an `Option`; an unknown kind fails |
| AccessorWriter.AccessorField | toml/src/main.rs:405-415 | a field is skipped exactly when it is hidden or `Special`; otherwise its method has the field's name and `docs` |
| AccessorWriter.WriteAccessor | toml/src/main.rs:370-534 | the accessor loop writes one method per visible field, equal to `AccessorSpec` |
| AccessorWriter.HeadIsPublic | toml/src/main.rs:376-402 | the wrapper's fixed head has exactly the public methods `name`, `extras` and `extensions` |
| AccessorWriter.MethodsFollowVisibleFields | toml/src/main.rs:405-413 | the methods are one per field that is neither hidden nor `Special`, in the order of `fields` |
| AccessorWriter.WrapperMethods | toml/src/main.rs:376-534 | the public methods of a wrapper are `name`, `extras`, `extensions`, then one per visible field, in order |
| AccessorWriter.AccessorOfStoredField | toml/src/main.rs:405-529 | every field the struct writer accepts gets an accessor or is skipped, without error |
| AccessorWriter.WrapperOfStoredStruct | toml/src/main.rs:555-559 | once the struct is written its wrapper is too, whenever every `hidden` flag is a boolean |
| AccessorWriter.AccessorMatchesStorage | toml/src/main.rs:418-452 | the accessor of an optional member returns an `Option`, and an array's accessor returns the iterator type the struct writer declares |
| Generator.EncodingOf | toml/src/main.rs:566-569 | `String` and `Integer` select the two encodings, anything else is an unknown encoding |
| Generator.Included | toml/src/main.rs:546-550 | no `include` adds no block; otherwise the include is a string naming a readable file, whose contents come first |
| Generator.EnumInput | toml/src/main.rs:563-569 | an enum is written from the encoding `meta.of` names and the `values` table; reading fails exactly when one of them is missing or wrong |
| Generator.WriteStructKind | toml/src/main.rs:552-561 | a struct schema pushes the struct block, then the wrapper block |
| Generator.WriteEnumBlocks | toml/src/main.rs:565-571 | the enum block of the chosen encoding is pushed |
| Generator.WriteEnumKind | toml/src/main.rs:562-572 | an enum schema reads `of` and `values` and pushes one enum block |
| Generator.WriteBlocks | toml/src/main.rs:551-574 | the dispatch on `kind` |
| Generator.Run | toml/src/main.rs:536-579 | `run`, for a parsed schema and the readable files, equals `Generate` with the model's writers |
| Generator.RenderEndsWithBlankLine | toml/src/main.rs:576-577 | the output is every module line newline-terminated, then one more newline |
| Generator.StructOutput | toml/src/main.rs:552-561 | a struct run prints, inside the module path, the include, the struct and the wrapper, then an empty line |
| Generator.EnumOutput | toml/src/main.rs:562-572 | an enum run prints, inside the module path, the include and the enum of the encoding `of` names, then an empty line |
| Generator.UnknownKindAborts | toml/src/main.rs:573 | a kind other than `Struct` or `Enum` stops the run |
| Generator.UnknownEncodingAborts | toml/src/main.rs:569 | an enum encoding other than `String` or `Integer` stops the run |
| Generator.UnreadableIncludeAborts | toml/src/main.rs:548 | an unreadable include file stops the run, whatever the kind |
| Generator.ModuleKeyRequired | toml/src/main.rs:542 | a schema whose `meta` has no `module` key stops the run |

## Left out

- Process and file I/O: `env::args`, `fs::read_to_string`, `toml::from_str`, and write errors on stdout. The schema comes in already parsed as a `Toml.Value` table. The readable files are a map from path to contents.
- `main`, which only turns a failed `run` into a panic. The diagnostic messages of the panics are also left out: an error is identified by its `Schema.Error` constructor.
- Table iteration order: a table is the list of its entries in the order the TOML library iterates them. That order decides the order of fields and of enum discriminants. Which order the library uses depends on its build configuration, which is not part of this model.
- `inflections::to_pascal_case` is a foreign call. It is a function parameter `pascal`, with nothing assumed about it.
- Floats and datetimes are kept as opaque text. A float default is printed as given, and nothing is said about `approx_eq!`.
- Whether the generated Rust compiles, and how serde or rustc treat it. For example, `_is_default` is declared to return the field's type, and the `extras` accessor reads `extensions`. The model is about the emitted text and the meaning of the emitted enum codec.
- No escaping of names, docs or string literals: they are copied into the text as the Rust code copies them.
- EnumWriter.IntegerRoundTrip: stated only for declared values in `[0, 2^32)`. A negative or larger declared value is emitted as written; the resulting Rust is not considered.
- The `extras` feature of the generated struct and accessor code is plain text to the model. The core does not evaluate `cfg` either.
- The `Attributes` iterator and `Primitive::attributes` of `toml/support/primitive.rs`, and the serde `Serialize`/`Deserialize` impls of `Semantic`. They depend on `HashMap` iteration order and on the document's accessor list, which are not part of this model.
- toml/support/camera.rs, proc_macro/src/lib.rs, src/lib.rs, src/main.rs, schema/src/main.rs and tests/struct.rs are not part of this model.
