/**
 * The vertex-attribute semantic names of a mesh primitive (`POSITION`,
 * `TEXCOORD_0`, ...): the validating parser and its printers. `extras` stands
 * for the crate's `extras` feature, which adds the `_`-prefixed
 * application-specific names.
 */
module Primitive {
  import opened Wrappers
  import opened Numbers
  import opened Text
  import opened Validation

  datatype Semantic =
    | Extras(name: string)
    | Positions
    | Normals
    | Tangents
    | Colors(setIndex: u32)
    | TexCoords(setIndex: u32)
    | Joints(setIndex: u32)
    | Weights(setIndex: u32)

  /** `Extras` exists only when the crate is built with the `extras` feature. */
  predicate Available(s: Semantic, extras: bool) {
    s.Extras? ==> extras
  }

  const INVALID_NAME: string := "<invalid semantic name>"

  /**
   * `Semantic::checked`: exact keywords first, then (with `extras`) the `_`
   * prefix, then the numbered prefixes, and `Invalid` for anything else.
   */
  function CheckedSemantic(s: string, extras: bool): (r: Checked<Semantic>)
    ensures r.Valid? ==> Available(r.value, extras)
  {
    if s == "NORMAL" then Valid(Normals)
    else if s == "POSITION" then Valid(Positions)
    else if s == "TANGENT" then Valid(Tangents)
    else if extras && StartsWith(s, "_") then Valid(Extras(s[1..]))
    else if StartsWith(s, "COLOR_") then
      match ParseU32(s[6..]) case Some(n) => Valid(Colors(n)) case None => Invalid
    else if StartsWith(s, "TEXCOORD_") then
      match ParseU32(s[9..]) case Some(n) => Valid(TexCoords(n)) case None => Invalid
    else if StartsWith(s, "JOINTS_") then
      match ParseU32(s[7..]) case Some(n) => Valid(Joints(n)) case None => Invalid
    else if StartsWith(s, "WEIGHTS_") then
      match ParseU32(s[8..]) case Some(n) => Valid(Weights(n)) case None => Invalid
    else Invalid
  }

  /** `ToString for Semantic`. */
  function ToString(s: Semantic): string {
    match s
    case Positions => "POSITION"
    case Normals => "NORMAL"
    case Tangents => "TANGENT"
    case Colors(n) => "COLOR_" + NatToString(n as nat)
    case TexCoords(n) => "TEXCOORD_" + NatToString(n as nat)
    case Joints(n) => "JOINTS_" + NatToString(n as nat)
    case Weights(n) => "WEIGHTS_" + NatToString(n as nat)
    case Extras(name) => "_" + name
  }

  /** `ToString for Checked<Semantic>`. */
  function CheckedToString(c: Checked<Semantic>): string {
    match c
    case Valid(s) => ToString(s)
    case Invalid => INVALID_NAME
  }

  /** The three keywords decode to their variants, whatever the feature set. */
  lemma Keywords(extras: bool)
    ensures CheckedSemantic("NORMAL", extras) == Valid(Normals)
    ensures CheckedSemantic("POSITION", extras) == Valid(Positions)
    ensures CheckedSemantic("TANGENT", extras) == Valid(Tangents)
  {
  }

  /** The result of a numbered prefix, given the `u32` parse of its suffix. */
  function Numbered(parsed: Option<u32>, variant: u32 -> Semantic): Checked<Semantic> {
    match parsed case Some(n) => Valid(variant(n)) case None => Invalid
  }

  /** A name starting with a capital other than `N`, `P` or `T`, or longer than every keyword, is none of them. */
  lemma NotAKeyword(s: string)
    requires |s| > 8 || (|s| > 0 && s[0] != 'N' && s[0] != 'P' && s[0] != 'T')
    ensures s != "NORMAL" && s != "POSITION" && s != "TANGENT"
  {
    assert "NORMAL"[0] == 'N' && "POSITION"[0] == 'P' && "TANGENT"[0] == 'T';
  }

  /**
   * `COLOR_` followed by text that parses as `u32` decodes to `Colors` of that
   * number, and followed by anything else (nothing, a non-digit, a number over
   * 4294967295) decodes to `Invalid`. The three lemmas after it say the same
   * of the other numbered prefixes.
   */
  lemma ColorPrefix(suffix: string, extras: bool)
    ensures CheckedSemantic("COLOR_" + suffix, extras) == Numbered(ParseU32(suffix), n => Colors(n))
  {
    var s := "COLOR_" + suffix;
    assert s[..6] == "COLOR_" && s[6..] == suffix && s[0] == 'C' && s[..1] != "_";
    NotAKeyword(s);
  }

  lemma TexCoordPrefix(suffix: string, extras: bool)
    ensures CheckedSemantic("TEXCOORD_" + suffix, extras) == Numbered(ParseU32(suffix), n => TexCoords(n))
  {
    var s := "TEXCOORD_" + suffix;
    assert s[..9] == "TEXCOORD_" && s[9..] == suffix;
    assert s[0] == 'T' && s[..1] != "_" && s[..6] != "COLOR_";
    NotAKeyword(s);
  }

  lemma JointsPrefix(suffix: string, extras: bool)
    ensures CheckedSemantic("JOINTS_" + suffix, extras) == Numbered(ParseU32(suffix), n => Joints(n))
  {
    var s := "JOINTS_" + suffix;
    assert s[..7] == "JOINTS_" && s[7..] == suffix && s[0] == 'J';
    assert s[..1] != "_" && s[..6] != "COLOR_" && !StartsWith(s, "TEXCOORD_");
    NotAKeyword(s);
  }

  lemma WeightsPrefix(suffix: string, extras: bool)
    ensures CheckedSemantic("WEIGHTS_" + suffix, extras) == Numbered(ParseU32(suffix), n => Weights(n))
  {
    var s := "WEIGHTS_" + suffix;
    assert s[..8] == "WEIGHTS_" && s[8..] == suffix && s[0] == 'W';
    assert s[..1] != "_" && s[..6] != "COLOR_" && !StartsWith(s, "TEXCOORD_") && s[..7] != "JOINTS_";
    NotAKeyword(s);
  }

  /** With `extras`, a leading `_` wins over every numbered prefix: the rest is the extra name. */
  lemma ExtrasRule(rest: string)
    ensures CheckedSemantic("_" + rest, true) == Valid(Extras(rest))
  {
    var s := "_" + rest;
    assert s[..1] == "_" && s[1..] == rest && s[0] == '_';
    NotAKeyword(s);
  }

  /** Without `extras`, no string decodes to an extra name, and a `_` name is `Invalid`. */
  lemma NoExtrasWithoutFeature(rest: string)
    ensures CheckedSemantic("_" + rest, false) == Invalid
  {
    var s := "_" + rest;
    assert s[0] == '_';
    NotAKeyword(s);
    DiffersAt(s, "COLOR_", 0);
    DiffersAt(s, "TEXCOORD_", 0);
    DiffersAt(s, "JOINTS_", 0);
    DiffersAt(s, "WEIGHTS_", 0);
  }

  /** A name that matches no keyword and no prefix is `Invalid`. */
  lemma Unrecognised(s: string, extras: bool)
    requires s != "NORMAL" && s != "POSITION" && s != "TANGENT"
    requires !(extras && StartsWith(s, "_"))
    requires !StartsWith(s, "COLOR_") && !StartsWith(s, "TEXCOORD_")
    requires !StartsWith(s, "JOINTS_") && !StartsWith(s, "WEIGHTS_")
    ensures CheckedSemantic(s, extras) == Invalid
  {
  }

  /** Printing a semantic and parsing the text gives back the same semantic. */
  lemma RoundTrip(s: Semantic, extras: bool)
    requires Available(s, extras)
    ensures CheckedSemantic(ToString(s), extras) == Valid(s)
  {
    match s
    case Positions =>
    case Normals =>
    case Tangents =>
    case Extras(name) => ExtrasRule(name);
    case Colors(n) => ParseU32OfNatToString(n); ColorPrefix(NatToString(n as nat), extras);
    case TexCoords(n) => ParseU32OfNatToString(n); TexCoordPrefix(NatToString(n as nat), extras);
    case Joints(n) => ParseU32OfNatToString(n); JointsPrefix(NatToString(n as nat), extras);
    case Weights(n) => ParseU32OfNatToString(n); WeightsPrefix(NatToString(n as nat), extras);
  }

  /** The printed form of a checked semantic, `Invalid` included, parses back to itself. */
  lemma CheckedRoundTrip(c: Checked<Semantic>, extras: bool)
    requires c.Valid? ==> Available(c.value, extras)
    ensures CheckedSemantic(CheckedToString(c), extras) == c
  {
    match c
    case Valid(s) => RoundTrip(s, extras);
    case Invalid =>
      var t := INVALID_NAME;
      assert |t| == 23 && t[0] == '<';
      NotAKeyword(t);
      assert t[..1] != "_" && t[..6] != "COLOR_" && t[..7] != "JOINTS_";
      assert t[..8] != "WEIGHTS_" && t[..9] != "TEXCOORD_";
  }

  /**
   * Parsing is a normalisation: printing what was parsed and parsing again
   * gives the same result, although the text may differ (`COLOR_007` prints as
   * `COLOR_7`).
   */
  lemma ParseIsIdempotent(s: string, extras: bool)
    ensures CheckedSemantic(CheckedToString(CheckedSemantic(s, extras)), extras) == CheckedSemantic(s, extras)
  {
    CheckedRoundTrip(CheckedSemantic(s, extras), extras);
  }

  /** Leading zeros are accepted and lost, so the printer is not a left inverse of the parser. */
  lemma LeadingZerosNormalise(extras: bool)
    ensures CheckedSemantic("COLOR_007", extras) == Valid(Colors(7))
    ensures ToString(Colors(7)) == "COLOR_7"
  {
    assert "007"[..2] == "00" && "00"[..1] == "0" && "0"[..0] == "";
    assert DigitsValue("007") == 7;
    assert ParseU32("007") == Some(7 as u32);
    ColorPrefix("007", extras);
    assert "COLOR_" + "007" == "COLOR_007";
    assert NatToString(7) == "7";
  }
}
