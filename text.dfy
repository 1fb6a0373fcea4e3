/** Strings as the Rust program handles them: prefixes, `split`, and line output. */
module Text {

  predicate StartsWith(s: string, prefix: string) {
    |prefix| <= |s| && s[..|prefix|] == prefix
  }

  predicate OccursAt(s: string, sep: string, i: int) {
    0 <= i && i + |sep| <= |s| && s[i..i + |sep|] == sep
  }

  /** True when `sep` occurs somewhere in `s`. */
  predicate Contains(s: string, sep: string) {
    exists i :: 0 <= i <= |s| && OccursAt(s, sep, i)
  }

  /**
   * `str::split` with a string pattern: the pieces between the non-overlapping
   * occurrences of `sep`, found from left to right.
   */
  function Split(s: string, sep: string): (parts: seq<string>)
    requires |sep| > 0
    ensures |parts| >= 1
    decreases |s|
  {
    if |s| < |sep| then [s]
    else if s[..|sep|] == sep then [""] + Split(s[|sep|..], sep)
    else
      var rest := Split(s[1..], sep);
      [[s[0]] + rest[0]] + rest[1..]
  }

  /** The pieces separated by `sep`; the inverse of `Split`. */
  function Join(parts: seq<string>, sep: string): string
    decreases |parts|
  {
    if parts == [] then ""
    else if |parts| == 1 then parts[0]
    else parts[0] + sep + Join(parts[1..], sep)
  }

  /** The text that `writeln!` produces for these lines, one after another. */
  function Terminated(lines: seq<string>): string
    decreases |lines|
  {
    if lines == [] then "" else lines[0] + "\n" + Terminated(lines[1..])
  }

  lemma {:induction false} TerminatedAppend(a: seq<string>, b: seq<string>)
    ensures Terminated(a + b) == Terminated(a) + Terminated(b)
    decreases |a|
  {
    if a == [] {
      assert a + b == b;
    } else {
      assert (a + b)[1..] == a[1..] + b;
      TerminatedAppend(a[1..], b);
    }
  }

  /** Joining with newlines after an empty last line newline-terminates every line. */
  lemma {:induction false} JoinBlankIsTerminated(lines: seq<string>)
    ensures Join(lines + [""], "\n") == Terminated(lines)
    decreases |lines|
  {
    if lines != [] {
      assert (lines + [""])[1..] == lines[1..] + [""];
      JoinBlankIsTerminated(lines[1..]);
    }
  }

  lemma {:induction false} JoinAppend(a: seq<string>, b: seq<string>, sep: string)
    requires |a| > 0 && |b| > 0
    ensures Join(a + b, sep) == Join(a, sep) + sep + Join(b, sep)
    decreases |a|
  {
    if |a| == 1 {
      assert (a + b)[1..] == b;
    } else {
      assert (a + b)[1..] == a[1..] + b;
      JoinAppend(a[1..], b, sep);
    }
  }

  lemma JoinConsHead(c: char, parts: seq<string>, sep: string)
    requires |parts| >= 1
    ensures Join([[c] + parts[0]] + parts[1..], sep) == [c] + Join(parts, sep)
  {
    var q := [[c] + parts[0]] + parts[1..];
    assert q[1..] == parts[1..];
  }

  /** Splitting and joining again gives back the original string. */
  lemma {:induction false} JoinSplit(s: string, sep: string)
    requires |sep| > 0
    ensures Join(Split(s, sep), sep) == s
    decreases |s|
  {
    if |s| < |sep| {
    } else if s[..|sep|] == sep {
      var rest := Split(s[|sep|..], sep);
      assert Split(s, sep) == [""] + rest;
      JoinSplit(s[|sep|..], sep);
      assert Join([""] + rest, sep) == sep + Join(rest, sep) by {
        assert ([""] + rest)[1..] == rest;
      }
      assert s == sep + s[|sep|..];
    } else {
      var rest := Split(s[1..], sep);
      assert Split(s, sep) == [[s[0]] + rest[0]] + rest[1..];
      JoinSplit(s[1..], sep);
      JoinConsHead(s[0], rest, sep);
      assert s == [s[0]] + s[1..];
    }
  }

  lemma ContainsShift(c: char, p: string, sep: string)
    requires |sep| > 0 && !Contains(p, sep)
    requires !StartsWith([c] + p, sep)
    ensures !Contains([c] + p, sep)
  {
    var q := [c] + p;
    forall i | 0 < i && i + |sep| <= |q|
      ensures !OccursAt(q, sep, i)
    {
      assert q[i..i + |sep|] == p[i - 1..i - 1 + |sep|];
      assert !OccursAt(p, sep, i - 1);
    }
    assert !OccursAt(q, sep, 0);
  }

  /** The first piece of a split is a prefix of the split string. */
  lemma {:induction false} SplitHeadIsPrefix(s: string, sep: string)
    requires |sep| > 0
    ensures StartsWith(s, Split(s, sep)[0])
    decreases |s|
  {
    if |s| >= |sep| && s[..|sep|] != sep {
      SplitHeadIsPrefix(s[1..], sep);
    }
  }

  /** No piece of a split contains the separator. */
  lemma {:induction false} SplitPiecesAvoidSeparator(s: string, sep: string)
    requires |sep| > 0
    ensures forall k :: 0 <= k < |Split(s, sep)| ==> !Contains(Split(s, sep)[k], sep)
    decreases |s|
  {
    var parts := Split(s, sep);
    if |s| < |sep| {
      assert parts == [s];
    } else if s[..|sep|] == sep {
      SplitPiecesAvoidSeparator(s[|sep|..], sep);
      assert !Contains("", sep);
    } else {
      SplitPiecesAvoidSeparator(s[1..], sep);
      var rest := Split(s[1..], sep);
      SplitHeadIsPrefix(s[1..], sep);
      var head := [s[0]] + rest[0];
      assert !StartsWith(head, sep) by {
        if |sep| <= |head| {
          assert head[..|sep|] == s[..|sep|];
        }
      }
      ContainsShift(s[0], rest[0], sep);
      forall k | 0 <= k < |parts|
        ensures !Contains(parts[k], sep)
      {
        if k > 0 {
          assert parts[k] == rest[k];
        }
      }
    }
  }

  /** The lines that start with `prefix`, in order. */
  function Matching(lines: seq<string>, prefix: string): seq<string>
    decreases |lines|
  {
    if lines == [] then []
    else
      var last := lines[|lines| - 1];
      Matching(lines[..|lines| - 1], prefix) + (if StartsWith(last, prefix) then [last] else [])
  }

  lemma {:induction false} MatchingAppend(a: seq<string>, b: seq<string>, prefix: string)
    ensures Matching(a + b, prefix) == Matching(a, prefix) + Matching(b, prefix)
    decreases |b|
  {
    if b != [] {
      var init := b[..|b| - 1];
      assert (a + b)[..|a + b| - 1] == a + init;
      var last := b[|b| - 1];
      assert (a + b)[|a + b| - 1] == last;
      var tail := if StartsWith(last, prefix) then [last] else [];
      MatchingAppend(a, init, prefix);
      assert Matching(a + b, prefix) == Matching(a + init, prefix) + tail;
      assert Matching(b, prefix) == Matching(init, prefix) + tail;
    } else {
      assert a + b == a;
    }
  }

  lemma {:induction false} MatchingNone(lines: seq<string>, prefix: string)
    requires forall i :: 0 <= i < |lines| ==> !StartsWith(lines[i], prefix)
    ensures Matching(lines, prefix) == []
    decreases |lines|
  {
    if lines != [] {
      MatchingNone(lines[..|lines| - 1], prefix);
    }
  }

  /** Lines of which only the `k`-th starts with `prefix`. */
  lemma MatchingOne(lines: seq<string>, prefix: string, k: nat)
    requires k < |lines| && StartsWith(lines[k], prefix)
    requires forall i :: 0 <= i < |lines| && i != k ==> !StartsWith(lines[i], prefix)
    ensures Matching(lines, prefix) == [lines[k]]
  {
    var before, after := lines[..k], lines[k + 1..];
    assert lines == before + [lines[k]] + after;
    assert forall i :: 0 <= i < |after| ==> after[i] == lines[k + 1 + i];
    MatchingNone(before, prefix);
    MatchingNone(after, prefix);
    MatchingAppend(before, [lines[k]], prefix);
    MatchingAppend(before + [lines[k]], after, prefix);
    assert Matching([lines[k]], prefix) == Matching([], prefix) + [lines[k]];
  }

  /** A line whose first characters differ from those of `prefix` does not start with it. */
  lemma DiffersAt(s: string, prefix: string, k: nat)
    requires k < |s| && k < |prefix| && s[k] != prefix[k]
    ensures !StartsWith(s, prefix)
  {
  }

  lemma StartsWithAppend(a: string, b: string)
    ensures StartsWith(a + b, a)
  {
    assert (a + b)[..|a|] == a;
  }
}

/** Generic sequence helpers: flattening, and collecting results with the first error winning. */
module Seqs {
  import opened Wrappers

  function Flatten<T>(ss: seq<seq<T>>): seq<T>
    decreases |ss|
  {
    if ss == [] then [] else Flatten(ss[..|ss| - 1]) + ss[|ss| - 1]
  }

  /**
   * Applies `f` to every element in order. The result is the list of values
   * when every application succeeds, and otherwise the error of the first
   * element that fails: the loops of the generator stop at the first failing
   * entry.
   */
  function CollectAll<T, U, E>(xs: seq<T>, f: T -> Result<U, E>): Result<seq<U>, E>
    decreases |xs|
  {
    if xs == [] then Ok([])
    else
      var init :- CollectAll(xs[..|xs| - 1], f);
      var last :- f(xs[|xs| - 1]);
      Ok(init + [last])
  }

  /**
   * The collection succeeds exactly when every application does, and then
   * holds their values in order; otherwise its error is that of the first
   * failing element.
   */
  lemma {:induction false} CollectAllMeaning<T, U, E>(xs: seq<T>, f: T -> Result<U, E>)
    ensures CollectAll(xs, f).Ok? <==> forall i :: 0 <= i < |xs| ==> f(xs[i]).Ok?
    ensures CollectAll(xs, f).Ok? ==>
      |CollectAll(xs, f).value| == |xs| && forall i :: 0 <= i < |xs| ==> CollectAll(xs, f).value[i] == f(xs[i]).value
    ensures CollectAll(xs, f).Err? ==>
      exists i :: 0 <= i < |xs| && f(xs[i]) == Err(CollectAll(xs, f).error) && forall j :: 0 <= j < i ==> f(xs[j]).Ok?
    decreases |xs|
  {
    if xs != [] {
      var init := xs[..|xs| - 1];
      CollectAllMeaning(init, f);
      assert forall i :: 0 <= i < |init| ==> init[i] == xs[i];
      if CollectAll(init, f).Err? {
        var i :| 0 <= i < |init| && f(init[i]) == Err(CollectAll(init, f).error)
          && forall j :: 0 <= j < i ==> f(init[j]).Ok?;
        assert f(xs[i]) == Err(CollectAll(xs, f).error);
      }
    }
  }

  lemma CollectAllLength<T, U, E>(xs: seq<T>, f: T -> Result<U, E>)
    ensures CollectAll(xs, f).Ok? ==> |CollectAll(xs, f).value| == |xs|
  {
    CollectAllMeaning(xs, f);
  }

  /** Extending the input by one element extends a successful collection by that element's value. */
  lemma CollectAllSnoc<T, U, E>(xs: seq<T>, i: nat, f: T -> Result<U, E>, done: seq<U>)
    requires i < |xs| && CollectAll(xs[..i], f) == Ok(done)
    ensures |done| == i
    ensures f(xs[i]).Ok? ==> CollectAll(xs[..i + 1], f) == Ok(done + [f(xs[i]).value])
    ensures f(xs[i]).Err? ==> CollectAll(xs, f) == Err(f(xs[i]).error)
  {
    assert xs[..i + 1][..i] == xs[..i];
    CollectAllMeaning(xs[..i], f);
    if f(xs[i]).Err? {
      assert forall j :: 0 <= j < i ==> xs[..i][j] == xs[j];
      assert forall j :: 0 <= j < i ==> f(xs[j]).Ok?;
      CollectAllMeaning(xs, f);
      var r := CollectAll(xs, f);
      var k :| 0 <= k < |xs| && f(xs[k]) == Err(r.error) && forall j :: 0 <= j < k ==> f(xs[j]).Ok?;
      assert k == i;
    }
  }

  /** The values held by the `Some` entries, in order. */
  function Somes<T>(xs: seq<Option<T>>): seq<T>
    decreases |xs|
  {
    if xs == [] then []
    else Somes(xs[..|xs| - 1]) + (if xs[|xs| - 1].Some? then [xs[|xs| - 1].value] else [])
  }

  lemma SomesSnoc<T>(xs: seq<Option<T>>, x: Option<T>)
    ensures Somes(xs + [x]) == Somes(xs) + (if x.Some? then [x.value] else [])
  {
    assert (xs + [x])[..|xs|] == xs;
  }
}
