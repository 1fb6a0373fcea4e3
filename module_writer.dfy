/** `write_module`: wrapping the generated blocks in the entity's nested `pub mod` path. */
module ModuleWriter {
  import opened Wrappers
  import opened Text

  /** The `::`-separated segments of the module path; none when there is no module. */
  function Segments(modulePath: Option<string>): seq<string> {
    match modulePath
    case None => []
    case Some(path) => Split(path, "::")
  }

  function Opener(segment: string): string {
    "pub mod " + segment + " {"
  }

  /** The `pub mod <segment> {` lines, outermost first. */
  function Openers(segments: seq<string>): seq<string> {
    seq(|segments|, i requires 0 <= i < |segments| => Opener(segments[i]))
  }

  /** `n` closing braces. */
  function Closers(n: nat): seq<string> {
    seq(n, _ => "}")
  }

  /** Every line that `write_module` writes with `writeln!`, in order. */
  function ModuleLines(modulePath: Option<string>, blocks: seq<string>): seq<string> {
    var segments := Segments(modulePath);
    Openers(segments) + blocks + Closers(|segments|)
  }

  method WriteModule(modulePath: Option<string>, blocks: seq<string>) returns (lines: seq<string>)
    ensures lines == ModuleLines(modulePath, blocks)
  {
    var segments := Segments(modulePath);
    lines := [];
    for i := 0 to |segments|
      invariant lines == Openers(segments)[..i]
    {
      assert Openers(segments)[..i + 1] == Openers(segments)[..i] + [Opener(segments[i])];
      lines := lines + [Opener(segments[i])];
    }
    assert Openers(segments)[..|segments|] == Openers(segments);
    for i := 0 to |blocks|
      invariant lines == Openers(segments) + blocks[..i]
    {
      assert blocks[..i + 1] == blocks[..i] + [blocks[i]];
      lines := lines + [blocks[i]];
    }
    assert blocks[..|blocks|] == blocks;
    for i := 0 to |segments|
      invariant lines == Openers(segments) + blocks + Closers(i)
    {
      assert Closers(i + 1) == Closers(i) + ["}"];
      lines := lines + ["}"];
    }
  }

  /**
   * Module nesting balances: one `pub mod <segment> {` line per segment of the
   * path, in order, then every block on its own line, then one `}` per
   * segment. The segments are exactly the `::`-separated pieces of the path:
   * at least one, none containing `::`, joined back they give the path.
   * Without a module only the blocks are written.
   */
  lemma ModuleNesting(modulePath: Option<string>, blocks: seq<string>)
    ensures var lines, segments := ModuleLines(modulePath, blocks), Segments(modulePath);
      && |lines| == 2 * |segments| + |blocks|
      && (forall i :: 0 <= i < |segments| ==> lines[i] == "pub mod " + segments[i] + " {")
      && lines[|segments|..|segments| + |blocks|] == blocks
      && (forall i :: |segments| + |blocks| <= i < |lines| ==> lines[i] == "}")
    ensures modulePath.None? ==> ModuleLines(modulePath, blocks) == blocks
    ensures modulePath.Some? ==>
      && |Segments(modulePath)| >= 1
      && Join(Segments(modulePath), "::") == modulePath.value
      && forall k :: 0 <= k < |Segments(modulePath)| ==> !Contains(Segments(modulePath)[k], "::")
  {
    if modulePath.Some? {
      JoinSplit(modulePath.value, "::");
      SplitPiecesAvoidSeparator(modulePath.value, "::");
    }
    var lines, segments := ModuleLines(modulePath, blocks), Segments(modulePath);
    assert lines[|segments|..|segments| + |blocks|] == blocks;
  }
}
