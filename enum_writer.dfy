/**
 * `write_string_enum` and `write_integer_enum`: the enum declaration, its
 * `Checked<_>` decoder, its encoder (`as_str` or `as_gl_enum`) and its
 * serializer, and the meaning of the emitted decoder and encoder.
 */
module EnumWriter {
  import opened Wrappers
  import opened Numbers
  import opened Seqs
  import opened Toml
  import opened Schema
  import opened Validation

  /** The enum's `meta.of`: how a variant travels on the wire. */
  datatype Encoding = StringEncoding | IntegerEncoding

  /** A variant's declared `value`. */
  datatype Lit = StrLit(s: string) | IntLit(i: i64)

  /** The docs of one entry of `values`, as the first loop reads them. */
  function VariantDocs(entry: (string, Value)): Outcome<(string, string)> {
    var docs :- StrAt(entry.1, "docs");
    Ok((entry.0, docs))
  }

  /** The declared `value` of one entry, as the decoder and encoder loops read it. */
  function VariantLit(enc: Encoding, entry: (string, Value)): Outcome<(string, Lit)> {
    match enc
    case StringEncoding =>
      var s :- StrAt(entry.1, "value");
      Ok((entry.0, StrLit(s)))
    case IntegerEncoding =>
      var i :- IntAt(entry.1, "value");
      Ok((entry.0, IntLit(i)))
  }

  function LitStep(enc: Encoding): ((string, Value)) -> Outcome<(string, Lit)> {
    entry => VariantLit(enc, entry)
  }

  /** The literal as it appears in a `match` arm: quoted for strings, decimal for integers. */
  function LitText(l: Lit): string {
    match l
    case StrLit(s) => "\"" + s + "\""
    case IntLit(i) => IntToString(i as int)
  }

  /** The traits the enum derives: integer enums are also `Copy`. */
  function Derives(enc: Encoding): string {
    match enc
    case StringEncoding => "Clone, Debug, Deserialize, Eq, Hash, PartialEq, Serialize"
    case IntegerEncoding => "Clone, Copy, Debug, Deserialize, Eq, Hash, PartialEq, Serialize"
  }

  /** The `k`-th variant (from 0) is declared with discriminant `k + 1`. */
  function VariantDecl(k: nat, variant: (string, string)): seq<string> {
    ["  /// " + variant.1, "  " + variant.0 + " = " + NatToString(k + 1) + ","]
  }

  function Declarations(variants: seq<(string, string)>): seq<string>
    decreases |variants|
  {
    if variants == [] then []
    else Declarations(variants[..|variants| - 1]) + VariantDecl(|variants| - 1, variants[|variants| - 1])
  }

  function DecoderHead(enc: Encoding, name: string): seq<string> {
    ["}",
     "",
     "impl<'de> ::serde::de::Deserialize<'de> for Checked<" + name + "> {",
     "  fn deserialize<D>(deserializer: D) -> Result<Self, D::Error>",
     "    where D: ::serde::de::Deserializer",
     "  {",
     "    struct Visitor;",
     "    impl<'de> ::serde::de::Visitor<'de> for Visitor {",
     "      type Value = Checked<" + name + ">;",
     match enc
       case StringEncoding => "      fn visit_str<E>(self, value: &str) -> Result<Self::Value, E>"
       case IntegerEncoding => "      fn visit_u64<E>(self, value: u64) -> Result<Self::Value, E>",
     "        where E: ::serde::de::Error",
     "      {",
     "        Ok(",
     match enc
       case StringEncoding => "          match value {"
       case IntegerEncoding => "          match value as u32 {"]
  }

  function DecodeArm(name: string, arm: (string, Lit)): string {
    "            " + LitText(arm.1) + " => Checked::Valid(" + name + "::" + arm.0 + "),"
  }

  function DecodeArms(name: string, arms: seq<(string, Lit)>): seq<string> {
    seq(|arms|, i requires 0 <= i < |arms| => DecodeArm(name, arms[i]))
  }

  const INVALID_ARM: string := "            _ => Invalid,"

  const DECODER_TAIL: seq<string> :=
    [INVALID_ARM, "          }", "        )", "      }", "    }", "  }", "}", ""]

  function EncoderHead(enc: Encoding, name: string): seq<string> {
    match enc
    case StringEncoding =>
      ["impl " + name + " {",
       "  /// Returns the equivalent string value.",
       "  pub fn as_str(&self) -> &'static str {",
       "    match *self {"]
    case IntegerEncoding =>
      ["impl " + name + " {",
       "  /// Returns the equivalent GLenum value.",
       "  pub fn as_gl_enum(&self) -> u32 {",
       "    match *self {"]
  }

  function EncodeArm(name: string, arm: (string, Lit)): string {
    "      " + name + "::" + arm.0 + " => " + LitText(arm.1) + ","
  }

  function EncodeArms(name: string, arms: seq<(string, Lit)>): seq<string> {
    seq(|arms|, i requires 0 <= i < |arms| => EncodeArm(name, arms[i]))
  }

  const ENCODER_TAIL: seq<string> := ["    }", "  }", "}", ""]

  function SerializerImpl(enc: Encoding, name: string): seq<string> {
    ["impl ::serde::ser::Serialize for " + name + " {",
     "  fn serialize<S>(&self, serializer: S) -> Result<S::Ok, S::Error>",
     "    where S: ::serde::ser::Serializer",
     "  {",
     match enc
       case StringEncoding => "    serializer.serialize_str(self.as_str())"
       case IntegerEncoding => "    serializer.serialize_u32(self.as_gl_enum())",
     "  }",
     "}"]
  }

  /** The fixed lines around what the loops produce, which depend only on the encoding and the enum's name. */
  datatype Frame = Frame(derives: string, decoderHead: seq<string>, decoderTail: seq<string>,
                         encoderHead: seq<string>, encoderTail: seq<string>, serializer: seq<string>)

  function EnumFrame(enc: Encoding, name: string): Frame {
    Frame(Derives(enc), DecoderHead(enc, name), DECODER_TAIL, EncoderHead(enc, name), ENCODER_TAIL,
          SerializerImpl(enc, name))
  }

  /** The block, from its frame, its docs and the lines the three loops produce. */
  function EnumText(name: string, docs: string, frame: Frame, declarations: seq<string>,
                    decoder: seq<string>, encoder: seq<string>): seq<string>
  {
    ["/// " + docs, "#[derive(" + frame.derives + ")]", "pub enum " + name + " {"]
      + declarations + frame.decoderHead + decoder + frame.decoderTail
      + frame.encoderHead + encoder + frame.encoderTail + frame.serializer
  }

  /** The sizes of the fixed parts, and the catch-all arm that closes the decoder's `match`. */
  predicate FrameFits(frame: Frame) {
    && |frame.decoderHead| == 14 && |frame.encoderHead| == 4
    && |frame.decoderTail| == 8 && frame.decoderTail[0] == INVALID_ARM
    && |frame.encoderTail| == 4 && |frame.serializer| == 7
  }

  lemma FrameShape(enc: Encoding, name: string)
    ensures FrameFits(EnumFrame(enc, name))
    ensures EnumFrame(enc, name).derives == Derives(enc)
  {
    DecoderHeadSize(enc, name);
    EncoderHeadSize(enc, name);
    DecoderTailShape();
    SerializerSize(enc, name);
  }

  lemma DecoderHeadSize(enc: Encoding, name: string)
    ensures |DecoderHead(enc, name)| == 14
  {
  }

  lemma EncoderHeadSize(enc: Encoding, name: string)
    ensures |EncoderHead(enc, name)| == 4
  {
  }

  lemma DecoderTailShape()
    ensures |DECODER_TAIL| == 8 && DECODER_TAIL[0] == INVALID_ARM
  {
  }

  lemma SerializerSize(enc: Encoding, name: string)
    ensures |SerializerImpl(enc, name)| == 7
  {
  }

  /**
   * The lines of the block, or the error that stops generation. The fixed
   * lines come in as `frame`: the generator passes `EnumFrame(enc, name)`.
   */
  function EnumSpec(enc: Encoding, name: string, frame: Frame, meta: Table, values: Table): Outcome<seq<string>> {
    var docs :- TableStrAt(meta, "docs");
    var variants :- CollectAll(values, VariantDocs);
    var arms :- CollectAll(values, LitStep(enc));
    Ok(EnumText(name, docs, frame, Declarations(variants), DecodeArms(name, arms), EncodeArms(name, arms)))
  }

  /** The first loop: one declaration per entry of `values`, in order. */
  method WriteDeclarations(values: Table) returns (r: Outcome<seq<(string, string)>>, lines: seq<string>)
    ensures r == CollectAll(values, VariantDocs)
    ensures r.Ok? ==> lines == Declarations(r.value)
  {
    var variants: seq<(string, string)> := [];
    lines := [];
    for i := 0 to |values|
      invariant CollectAll(values[..i], VariantDocs) == Ok(variants)
      invariant lines == Declarations(variants)
    {
      var variant := VariantDocs(values[i]);
      CollectAllSnoc(values, i, VariantDocs, variants);
      if variant.Err? {
        return Err(variant.error), lines;
      }
      assert (variants + [variant.value])[..|variants|] == variants;
      lines := lines + VariantDecl(i, variant.value);
      variants := variants + [variant.value];
    }
    assert values[..|values|] == values;
    r := Ok(variants);
  }

  /** The second loop: one decoder arm per entry of `values`, in order. */
  method WriteDecodeArms(enc: Encoding, name: string, values: Table)
    returns (r: Outcome<seq<(string, Lit)>>, lines: seq<string>)
    ensures r == CollectAll(values, LitStep(enc))
    ensures r.Ok? ==> lines == DecodeArms(name, r.value)
  {
    var arms: seq<(string, Lit)> := [];
    lines := [];
    for i := 0 to |values|
      invariant CollectAll(values[..i], LitStep(enc)) == Ok(arms)
      invariant lines == DecodeArms(name, arms)
    {
      var arm := VariantLit(enc, values[i]);
      CollectAllSnoc(values, i, LitStep(enc), arms);
      if arm.Err? {
        return Err(arm.error), lines;
      }
      lines := lines + [DecodeArm(name, arm.value)];
      arms := arms + [arm.value];
    }
    assert values[..|values|] == values;
    r := Ok(arms);
  }

  /** The third loop: one encoder arm per entry; it reads each `value` again and finds the literal the second loop read. */
  method WriteEncodeArms(name: string, arms: seq<(string, Lit)>) returns (lines: seq<string>)
    ensures lines == EncodeArms(name, arms)
  {
    lines := [];
    for i := 0 to |arms|
      invariant lines == EncodeArms(name, arms[..i])
    {
      lines := lines + [EncodeArm(name, arms[i])];
    }
    assert arms[..|arms|] == arms;
  }

  method WriteEnum(enc: Encoding, name: string, frame: Frame, meta: Table, values: Table)
    returns (r: Outcome<seq<string>>)
    ensures r == EnumSpec(enc, name, frame, meta, values)
  {
    var docs :- TableStrAt(meta, "docs");
    var variants, declarations := WriteDeclarations(values);
    if variants.Err? {
      return Err(variants.error);
    }
    var arms, decoder := WriteDecodeArms(enc, name, values);
    if arms.Err? {
      return Err(arms.error);
    }
    var encoder := WriteEncodeArms(name, arms.value);
    r := Ok(EnumText(name, docs, frame, declarations, decoder, encoder));
  }

  // ----- the emitted codec, read with Rust's first-matching-arm rule -----

  /** The decoder's `match`: the variant of the first arm whose literal equals the input, else `_ => Invalid`. */
  function Decode(arms: seq<(string, Lit)>, wire: Lit): Checked<string>
    decreases |arms|
  {
    if arms == [] then Invalid
    else if arms[0].1 == wire then Valid(arms[0].0)
    else Decode(arms[1..], wire)
  }

  /** `visit_str` of a string enum. */
  function DecodeStr(arms: seq<(string, Lit)>, value: string): Checked<string> {
    Decode(arms, StrLit(value))
  }

  /** `visit_u64` of an integer enum: `value as u32` keeps the low 32 bits before matching. */
  function DecodeU64(arms: seq<(string, Lit)>, value: u64): Checked<string> {
    Decode(arms, IntLit((value as int % U32_MODULUS) as i64))
  }

  /** `as_str` / `as_gl_enum`: the literal of the (first) arm for the variant. */
  function Encode(arms: seq<(string, Lit)>, variant: string): Option<Lit>
    decreases |arms|
  {
    if arms == [] then None
    else if arms[0].0 == variant then Some(arms[0].1)
    else Encode(arms[1..], variant)
  }

  predicate DistinctLits(arms: seq<(string, Lit)>) {
    forall i, j :: 0 <= i < j < |arms| ==> arms[i].1 != arms[j].1
  }

  /**
   * Decoding follows the table: a literal decodes to the variant of the first
   * arm declaring it, and exactly the literals no arm declares decode to
   * `Invalid`.
   */
  lemma {:induction false} DecodeFollowsTable(arms: seq<(string, Lit)>, wire: Lit)
    ensures Decode(arms, wire) == Invalid <==> forall k :: 0 <= k < |arms| ==> arms[k].1 != wire
    ensures forall k | 0 <= k < |arms| && arms[k].1 == wire && (forall j :: 0 <= j < k ==> arms[j].1 != wire) ::
              Decode(arms, wire) == Valid(arms[k].0)
    ensures Decode(arms, wire).Valid? ==>
      exists k :: 0 <= k < |arms| && arms[k] == (Decode(arms, wire).value, wire)
        && forall j :: 0 <= j < k ==> arms[j].1 != wire
    decreases |arms|
  {
    if arms != [] {
      DecodeFollowsTable(arms[1..], wire);
      assert forall k :: 0 < k < |arms| ==> arms[1..][k - 1] == arms[k];
      if arms[0].1 != wire && Decode(arms, wire).Valid? {
        var k :| 0 <= k < |arms[1..]| && arms[1..][k] == (Decode(arms, wire).value, wire)
          && forall j :: 0 <= j < k ==> arms[1..][j].1 != wire;
        assert arms[k + 1] == (Decode(arms, wire).value, wire);
        assert forall j :: 0 <= j < k + 1 ==> arms[j].1 != wire by {
          forall j | 0 <= j < k + 1 ensures arms[j].1 != wire {
            if j > 0 { assert arms[j] == arms[1..][j - 1]; }
          }
        }
      }
    }
  }

  /** The encoder maps a declared variant to the literal of its first arm, and nothing else to any literal. */
  lemma {:induction false} EncodeFindsVariant(arms: seq<(string, Lit)>, variant: string)
    ensures Encode(arms, variant).None? <==> forall k :: 0 <= k < |arms| ==> arms[k].0 != variant
    ensures Encode(arms, variant).Some? ==>
      exists k :: 0 <= k < |arms| && arms[k] == (variant, Encode(arms, variant).value)
    decreases |arms|
  {
    if arms != [] {
      EncodeFindsVariant(arms[1..], variant);
      assert forall k :: 0 < k < |arms| ==> arms[1..][k - 1] == arms[k];
      if arms[0].0 != variant && Encode(arms, variant).Some? {
        var k :| 0 <= k < |arms[1..]| && arms[1..][k] == (variant, Encode(arms, variant).value);
        assert arms[k + 1] == arms[1..][k];
      }
    }
  }

  /** With pairwise distinct literals, decoding what the encoder emits for a declared variant gives that variant. */
  lemma RoundTrip(arms: seq<(string, Lit)>, variant: string)
    requires DistinctLits(arms)
    requires exists k :: 0 <= k < |arms| && arms[k].0 == variant
    ensures Encode(arms, variant).Some?
    ensures Decode(arms, Encode(arms, variant).value) == Valid(variant)
  {
    EncodeFindsVariant(arms, variant);
    var lit := Encode(arms, variant).value;
    var k :| 0 <= k < |arms| && arms[k] == (variant, lit);
    DecodeFollowsTable(arms, lit);
  }

  /**
   * The integer path end to end: `as_gl_enum` gives the declared value, which
   * `serialize_u32` sends and `visit_u64` receives; when the declared values
   * are distinct and fit in a `u32`, it decodes to the same variant.
   */
  lemma IntegerRoundTrip(arms: seq<(string, Lit)>, variant: string)
    requires DistinctLits(arms)
    requires forall k :: 0 <= k < |arms| ==> arms[k].1.IntLit? && 0 <= arms[k].1.i as int < U32_MODULUS
    requires exists k :: 0 <= k < |arms| && arms[k].0 == variant
    ensures Encode(arms, variant).Some? && Encode(arms, variant).value.IntLit?
    ensures 0 <= Encode(arms, variant).value.i as int < U32_MODULUS
    ensures DecodeU64(arms, Encode(arms, variant).value.i as int as u64) == Valid(variant)
  {
    RoundTrip(arms, variant);
    EncodeFindsVariant(arms, variant);
    var lit := Encode(arms, variant).value;
    var k :| 0 <= k < |arms| && arms[k] == (variant, lit);
    assert lit.IntLit? && 0 <= lit.i as int < U32_MODULUS;
    var wire := lit.i as int as u64;
    assert wire as int % U32_MODULUS == lit.i as int;
    assert IntLit((wire as int % U32_MODULUS) as i64) == lit;
  }

  /** The string path end to end: `as_str` gives the declared string, which `visit_str` decodes back. */
  lemma StringRoundTrip(arms: seq<(string, Lit)>, variant: string)
    requires DistinctLits(arms)
    requires forall k :: 0 <= k < |arms| ==> arms[k].1.StrLit?
    requires exists k :: 0 <= k < |arms| && arms[k].0 == variant
    ensures Encode(arms, variant).Some? && Encode(arms, variant).value.StrLit?
    ensures DecodeStr(arms, Encode(arms, variant).value.s) == Valid(variant)
  {
    RoundTrip(arms, variant);
    EncodeFindsVariant(arms, variant);
    var k :| 0 <= k < |arms| && arms[k] == (variant, Encode(arms, variant).value);
  }

  /** Wire integers that agree in their low 32 bits decode alike. */
  lemma WireKeepsLow32Bits(arms: seq<(string, Lit)>, value: u64)
    requires value as int + U32_MODULUS < 0x1_0000_0000_0000_0000
    ensures DecodeU64(arms, (value as int + U32_MODULUS) as u64) == DecodeU64(arms, value)
  {
  }

  // ----- the emitted text -----

  lemma {:induction false} DeclarationsSize(variants: seq<(string, string)>)
    ensures |Declarations(variants)| == 2 * |variants|
    decreases |variants|
  {
    if variants != [] {
      DeclarationsSize(variants[..|variants| - 1]);
    }
  }

  lemma {:induction false} DeclarationsAt(variants: seq<(string, string)>)
    ensures |Declarations(variants)| == 2 * |variants|
    ensures forall k :: 0 <= k < |variants| ==>
      Declarations(variants)[2 * k] == "  /// " + variants[k].1
      && Declarations(variants)[2 * k + 1] == "  " + variants[k].0 + " = " + NatToString(k + 1) + ","
    decreases |variants|
  {
    if variants != [] {
      var init := variants[..|variants| - 1];
      DeclarationsAt(init);
      assert forall k :: 0 <= k < |init| ==> init[k] == variants[k];
    }
  }

  /** The size of the block, its first line and its catch-all decoder arm, given the sizes of the fixed parts. */
  lemma TextLayout(name: string, docs: string, frame: Frame, declarations: seq<string>,
                   decoder: seq<string>, encoder: seq<string>)
    requires FrameFits(frame)
    ensures var lines, d, n := EnumText(name, docs, frame, declarations, decoder, encoder), |declarations|, |decoder|;
      && |lines| == d + n + |encoder| + 40
      && lines[0] == "/// " + docs
      && lines[d + n + 17] == INVALID_ARM
  {
    var head := ["/// " + docs, "#[derive(" + frame.derives + ")]", "pub enum " + name + " {"];
    var b := head + declarations + frame.decoderHead + decoder + frame.decoderTail;
    var lines := EnumText(name, docs, frame, declarations, decoder, encoder);
    assert lines == b + frame.encoderHead + encoder + frame.encoderTail + frame.serializer;
    assert lines[|b| - 8] == b[|b| - 8] == frame.decoderTail[0];
  }

  /** The `k`-th declaration line is line `3 + k` of the block. */
  lemma DeclarationLineAt(name: string, docs: string, frame: Frame, declarations: seq<string>,
                          decoder: seq<string>, encoder: seq<string>, k: nat, at: int)
    requires FrameFits(frame) && k < |declarations| && at == 3 + k
    ensures 0 <= at < |EnumText(name, docs, frame, declarations, decoder, encoder)|
    ensures EnumText(name, docs, frame, declarations, decoder, encoder)[at] == declarations[k]
  {
    var head := ["/// " + docs, "#[derive(" + frame.derives + ")]", "pub enum " + name + " {"];
    var a := head + declarations;
    var lines := EnumText(name, docs, frame, declarations, decoder, encoder);
    assert lines == a + (frame.decoderHead + decoder + frame.decoderTail + frame.encoderHead + encoder
      + frame.encoderTail + frame.serializer);
  }

  /** The `k`-th encoder arm is line `d + n + 29 + k` of the block, for `d` declaration lines and `n` decoder arms. */
  lemma EncoderLineAt(name: string, docs: string, frame: Frame, declarations: seq<string>,
                      decoder: seq<string>, encoder: seq<string>, k: nat, at: int)
    requires FrameFits(frame) && k < |encoder| && at == |declarations| + |decoder| + 29 + k
    ensures 0 <= at < |EnumText(name, docs, frame, declarations, decoder, encoder)|
    ensures EnumText(name, docs, frame, declarations, decoder, encoder)[at] == encoder[k]
  {
    var head := ["/// " + docs, "#[derive(" + frame.derives + ")]", "pub enum " + name + " {"];
    var c := head + declarations + frame.decoderHead + decoder + frame.decoderTail + frame.encoderHead;
    var lines := EnumText(name, docs, frame, declarations, decoder, encoder);
    assert lines == (c + encoder) + (frame.encoderTail + frame.serializer);
  }

  /** The declarations of the block: two lines per variant, the `k`-th with discriminant `k + 1`. */
  lemma DeclarationText(name: string, docs: string, frame: Frame, variants: seq<(string, string)>,
                        arms: seq<(string, Lit)>)
    requires FrameFits(frame) && |variants| == |arms|
    ensures var lines, n := EnumText(name, docs, frame, Declarations(variants), DecodeArms(name, arms),
                                     EncodeArms(name, arms)), |arms|;
      && |lines| == 4 * n + 40
      && lines[0] == "/// " + docs
      && forall k :: 0 <= k < n ==>
           && lines[3 + 2 * k] == "  /// " + variants[k].1
           && lines[4 + 2 * k] == "  " + variants[k].0 + " = " + NatToString(k + 1) + ","
  {
    DeclarationsAt(variants);
    var declarations, decoder, encoder := Declarations(variants), DecodeArms(name, arms), EncodeArms(name, arms);
    TextLayout(name, docs, frame, declarations, decoder, encoder);
    forall k | 0 <= k < |arms|
      ensures EnumText(name, docs, frame, declarations, decoder, encoder)[3 + 2 * k] == "  /// " + variants[k].1
      ensures EnumText(name, docs, frame, declarations, decoder, encoder)[4 + 2 * k]
        == "  " + variants[k].0 + " = " + NatToString(k + 1) + ","
    {
      DeclarationLineAt(name, docs, frame, declarations, decoder, encoder, 2 * k, 3 + 2 * k);
      DeclarationLineAt(name, docs, frame, declarations, decoder, encoder, 2 * k + 1, 4 + 2 * k);
    }
  }

  /** The encoder arms of the block, in order. */
  lemma EncoderText(name: string, docs: string, frame: Frame, variants: seq<(string, string)>,
                    arms: seq<(string, Lit)>)
    requires FrameFits(frame) && |variants| == |arms|
    ensures var lines, n := EnumText(name, docs, frame, Declarations(variants), DecodeArms(name, arms),
                                     EncodeArms(name, arms)), |arms|;
      && |lines| == 4 * n + 40
      && forall k :: 0 <= k < n ==> lines[3 * n + 29 + k] == EncodeArm(name, arms[k])
  {
    DeclarationsSize(variants);
    var declarations, decoder, encoder := Declarations(variants), DecodeArms(name, arms), EncodeArms(name, arms);
    TextLayout(name, docs, frame, declarations, decoder, encoder);
    forall k | 0 <= k < |arms|
      ensures EnumText(name, docs, frame, declarations, decoder, encoder)[3 * |arms| + 29 + k] == EncodeArm(name, arms[k])
    {
      EncoderLineAt(name, docs, frame, declarations, decoder, encoder, k, 3 * |arms| + 29 + k);
    }
  }

  /** An enum the schema accepts is the text of its docs, its variants and its arms, one of each per entry. */
  lemma SpecText(enc: Encoding, name: string, frame: Frame, meta: Table, values: Table)
    requires EnumSpec(enc, name, frame, meta, values).Ok?
    ensures TableStrAt(meta, "docs").Ok?
    ensures CollectAll(values, VariantDocs).Ok? && |CollectAll(values, VariantDocs).value| == |values|
    ensures CollectAll(values, LitStep(enc)).Ok? && |CollectAll(values, LitStep(enc)).value| == |values|
    ensures var arms := CollectAll(values, LitStep(enc)).value;
      EnumSpec(enc, name, frame, meta, values).value
        == EnumText(name, TableStrAt(meta, "docs").value, frame, Declarations(CollectAll(values, VariantDocs).value),
                    DecodeArms(name, arms), EncodeArms(name, arms))
  {
    CollectAllLength(values, VariantDocs);
    CollectAllLength(values, LitStep(enc));
  }

  /**
   * The layout of a generated enum with n variants, in table order. The
   * k-th entry (from 0) is declared as `<variant> = k + 1` in both
   * encodings, so the declared discriminants are positional.
   */
  lemma DeclarationLayout(enc: Encoding, name: string, frame: Frame, meta: Table, values: Table)
    requires FrameFits(frame)
    requires EnumSpec(enc, name, frame, meta, values).Ok?
    ensures |CollectAll(values, VariantDocs).value| == |values|
    ensures var lines, n := EnumSpec(enc, name, frame, meta, values).value, |values|;
      var variants := CollectAll(values, VariantDocs).value;
      && |lines| == 4 * n + 40
      && lines[0] == "/// " + TableStrAt(meta, "docs").value
      && forall k :: 0 <= k < n ==>
           && lines[3 + 2 * k] == "  /// " + variants[k].1
           && lines[4 + 2 * k] == "  " + variants[k].0 + " = " + NatToString(k + 1) + ","
  {
    SpecText(enc, name, frame, meta, values);
    var docs, variants, arms :=
      TableStrAt(meta, "docs").value, CollectAll(values, VariantDocs).value, CollectAll(values, LitStep(enc)).value;
    DeclarationText(name, docs, frame, variants, arms);
  }

  /** The `k`-th decoder arm is line `d + 17 + k` of the block, for `d` declaration lines. */
  lemma DecoderLineAt(name: string, docs: string, frame: Frame, declarations: seq<string>,
                      decoder: seq<string>, encoder: seq<string>, k: nat, at: int)
    requires FrameFits(frame) && k < |decoder| && at == |declarations| + 17 + k
    ensures 0 <= at < |EnumText(name, docs, frame, declarations, decoder, encoder)|
    ensures EnumText(name, docs, frame, declarations, decoder, encoder)[at] == decoder[k]
  {
    var head := ["/// " + docs, "#[derive(" + frame.derives + ")]", "pub enum " + name + " {"];
    var a := head + declarations + frame.decoderHead;
    var lines := EnumText(name, docs, frame, declarations, decoder, encoder);
    assert lines == (a + decoder) + (frame.decoderTail + frame.encoderHead + encoder
      + frame.encoderTail + frame.serializer);
  }

  /**
   * The decoder of an enum of `n` entries: one arm per entry, in order,
   * mapping the entry's declared literal to its variant.
   */
  lemma DecoderText(name: string, docs: string, frame: Frame, variants: seq<(string, string)>,
                    arms: seq<(string, Lit)>, n: nat)
    requires FrameFits(frame) && |variants| == n && |arms| == n
    ensures var lines := EnumText(name, docs, frame, Declarations(variants), DecodeArms(name, arms),
                                  EncodeArms(name, arms));
      && |lines| == 4 * n + 40
      && forall i :: 2 * n + 17 <= i < 3 * n + 17 ==> lines[i] == DecodeArm(name, arms[i - (2 * n + 17)])
  {
    DeclarationsSize(variants);
    var declarations, decoder, encoder := Declarations(variants), DecodeArms(name, arms), EncodeArms(name, arms);
    assert |declarations| == 2 * n && |decoder| == n && |encoder| == n;
    TextLayout(name, docs, frame, declarations, decoder, encoder);
    forall i | 2 * n + 17 <= i < 3 * n + 17
      ensures EnumText(name, docs, frame, declarations, decoder, encoder)[i] == DecodeArm(name, arms[i - (2 * n + 17)])
    {
      DecoderLineAt(name, docs, frame, declarations, decoder, encoder, i - (2 * n + 17), i);
    }
  }

  /** The `_ => Invalid` arm closes the decoder's `match`, after the last entry's arm. */
  lemma CatchAllText(name: string, docs: string, frame: Frame, variants: seq<(string, string)>,
                     arms: seq<(string, Lit)>, n: nat)
    requires FrameFits(frame) && |variants| == n && |arms| == n
    ensures var lines := EnumText(name, docs, frame, Declarations(variants), DecodeArms(name, arms),
                                  EncodeArms(name, arms));
      |lines| == 4 * n + 40 && lines[3 * n + 17] == INVALID_ARM
  {
    DeclarationsSize(variants);
    TextLayout(name, docs, frame, Declarations(variants), DecodeArms(name, arms), EncodeArms(name, arms));
  }

  /** The encoder has one arm per entry, in table order, mapping the variant back to the same literal. */
  lemma EncoderLayout(enc: Encoding, name: string, frame: Frame, meta: Table, values: Table)
    requires FrameFits(frame)
    requires EnumSpec(enc, name, frame, meta, values).Ok?
    ensures |CollectAll(values, LitStep(enc)).value| == |values|
    ensures var lines, n := EnumSpec(enc, name, frame, meta, values).value, |values|;
      var arms := CollectAll(values, LitStep(enc)).value;
      && |lines| == 4 * n + 40
      && forall k :: 0 <= k < n ==> lines[3 * n + 29 + k] == EncodeArm(name, arms[k])
  {
    SpecText(enc, name, frame, meta, values);
    var docs, variants, arms :=
      TableStrAt(meta, "docs").value, CollectAll(values, VariantDocs).value, CollectAll(values, LitStep(enc)).value;
    EncoderText(name, docs, frame, variants, arms);
  }

  /** The arms the decoder and encoder are generated from are the table's entries, in order, with their declared literals. */
  lemma ArmsFollowValues(enc: Encoding, values: Table)
    requires CollectAll(values, LitStep(enc)).Ok?
    ensures |CollectAll(values, LitStep(enc)).value| == |values|
    ensures var arms := CollectAll(values, LitStep(enc)).value;
      forall k :: 0 <= k < |values| ==>
        && arms[k].0 == values[k].0
        && match enc
           case StringEncoding => arms[k].1.StrLit? && StrAt(values[k].1, "value") == Ok(arms[k].1.s)
           case IntegerEncoding => arms[k].1.IntLit? && IntAt(values[k].1, "value") == Ok(arms[k].1.i)
  {
    CollectAllMeaning(values, LitStep(enc));
    var arms := CollectAll(values, LitStep(enc)).value;
    forall k | 0 <= k < |values|
      ensures VariantLit(enc, values[k]) == Ok(arms[k])
    {
      assert LitStep(enc)(values[k]) == VariantLit(enc, values[k]);
    }
  }

  /** The declarations are the table's entries, in order, with their docs. */
  lemma VariantsFollowValues(values: Table)
    requires CollectAll(values, VariantDocs).Ok?
    ensures |CollectAll(values, VariantDocs).value| == |values|
    ensures var variants := CollectAll(values, VariantDocs).value;
      forall k :: 0 <= k < |values| ==>
        variants[k].0 == values[k].0 && StrAt(values[k].1, "docs") == Ok(variants[k].1)
  {
    CollectAllMeaning(values, VariantDocs);
  }
}
