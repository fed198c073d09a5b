// lineInString (pkg/backy/lineinfile.go): replace every line matching a
// pattern, or append the line when none matched. The regular expression is
// abstracted as the predicate `matches`.
module LineInFile {
  import Strs

  /** The scanned lines with every match replaced by `line`. */
  function Replaced(lines: seq<string>, matches: string -> bool, line: string): (r: seq<string>)
    ensures |r| == |lines|
    ensures forall k :: 0 <= k < |lines| ==> r[k] == (if matches(lines[k]) then line else lines[k])
  {
    seq(|lines|, k requires 0 <= k < |lines| => if matches(lines[k]) then line else lines[k])
  }

  predicate AnyMatch(lines: seq<string>, matches: string -> bool)
  {
    exists k :: 0 <= k < |lines| && matches(lines[k])
  }

  /** The lines of the result, before they are joined. */
  function OutputLines(content: string, matches: string -> bool, line: string): seq<string>
  {
    var lines := Strs.ScanLines(content);
    Replaced(lines, matches, line) + (if AnyMatch(lines, matches) then [] else [line])
  }

  /** The text lineInString returns. */
  function Rewrite(content: string, matches: string -> bool, line: string): string
  {
    Strs.Join(OutputLines(content, matches, line), "\n") + "\n"
  }

  /** One more scanned line: its replacement follows, and it may be the first match. */
  lemma ScanStep(lines: seq<string>, i: nat, matches: string -> bool, line: string)
    requires i < |lines|
    ensures Replaced(lines[..i + 1], matches, line)
            == Replaced(lines[..i], matches, line) + [if matches(lines[i]) then line else lines[i]]
    ensures AnyMatch(lines[..i + 1], matches) <==> AnyMatch(lines[..i], matches) || matches(lines[i])
  {
    var pre := lines[..i + 1];
    assert pre == lines[..i] + [lines[i]];
    ReplacedSnoc(lines[..i], lines[i], matches, line);
    AnyMatchSnoc(lines[..i], lines[i], matches);
  }

  lemma ReplacedSnoc(lines: seq<string>, l: string, matches: string -> bool, line: string)
    ensures Replaced(lines + [l], matches, line) == Replaced(lines, matches, line) + [if matches(l) then line else l]
  {
    var a := Replaced(lines + [l], matches, line);
    var b := Replaced(lines, matches, line) + [if matches(l) then line else l];
    assert |a| == |b|;
    forall k | 0 <= k < |a| ensures a[k] == b[k] {
      if k < |lines| {
        assert (lines + [l])[k] == lines[k];
      }
    }
  }

  lemma AnyMatchSnoc(lines: seq<string>, l: string, matches: string -> bool)
    ensures AnyMatch(lines + [l], matches) <==> AnyMatch(lines, matches) || matches(l)
  {
    var pre := lines + [l];
    if AnyMatch(pre, matches) {
      var k :| 0 <= k < |pre| && matches(pre[k]);
      if k < |lines| {
        assert lines[k] == pre[k];
      }
    }
    if AnyMatch(lines, matches) {
      var k :| 0 <= k < |lines| && matches(lines[k]);
      assert pre[k] == lines[k];
    }
    assert pre[|lines|] == l;
  }

  /** lineInString, as the scanner loop it is. */
  method LineInString(content: string, matches: string -> bool, line: string) returns (r: string)
    ensures r == Rewrite(content, matches, line)
  {
    var scanned := Strs.ScanLines(content);
    var lines: seq<string> := [];
    var found := false;
    var i := 0;
    while i < |scanned|
      invariant 0 <= i <= |scanned|
      invariant lines == Replaced(scanned[..i], matches, line)
      invariant found == AnyMatch(scanned[..i], matches)
    {
      var l := scanned[i];
      ScanStep(scanned, i, matches, line);
      if matches(l) {
        found := true;
        lines := lines + [line];
      } else {
        lines := lines + [l];
      }
      i := i + 1;
    }
    assert scanned[..i] == scanned;
    if !found {
      lines := lines + [line];
    }
    assert lines == OutputLines(content, matches, line);
    r := Strs.Join(lines, "\n") + "\n";
  }

  /** Each input line is kept, or replaced by `line` when it matches. */
  lemma ReplacesMatches(content: string, matches: string -> bool, line: string, k: nat)
    requires k < |Strs.ScanLines(content)|
    ensures var out := OutputLines(content, matches, line);
      k < |out| && out[k] == (if matches(Strs.ScanLines(content)[k]) then line else Strs.ScanLines(content)[k])
  {
  }

  /** When nothing matched, `line` is appended as the last line. */
  lemma AppendsWhenNoMatch(content: string, matches: string -> bool, line: string)
    requires !AnyMatch(Strs.ScanLines(content), matches)
    ensures var out := OutputLines(content, matches, line);
      out == Strs.ScanLines(content) + [line]
  {
    var lines := Strs.ScanLines(content);
    assert Replaced(lines, matches, line) == lines;
  }

  /** One more line than the input exactly when nothing matched. */
  lemma LineCount(content: string, matches: string -> bool, line: string)
    ensures |OutputLines(content, matches, line)| ==
      |Strs.ScanLines(content)| + (if AnyMatch(Strs.ScanLines(content), matches) then 0 else 1)
  {
  }

  /** The result always ends in a newline; empty content gives `line` with one. */
  lemma Terminates(content: string, matches: string -> bool, line: string)
    ensures Strs.HasSuffix(Rewrite(content, matches, line), "\n")
    ensures content == "" ==> Rewrite(content, matches, line) == line + "\n"
  {
    if content == "" {
      assert OutputLines(content, matches, line) == [line];
    }
  }

  predicate PlainLines(lines: seq<string>)
  {
    forall k :: 0 <= k < |lines| ==> Strs.PlainLine(lines[k])
  }

  lemma OutputPlain(content: string, matches: string -> bool, line: string)
    requires Strs.PlainLine(line) && PlainLines(Strs.ScanLines(content))
    ensures PlainLines(OutputLines(content, matches, line))
  {
    var lines := Strs.ScanLines(content);
    var out := OutputLines(content, matches, line);
    forall k | 0 <= k < |out| ensures Strs.PlainLine(out[k]) {
      if k < |lines| {
        assert out[k] == (if matches(lines[k]) then line else lines[k]);
      }
    }
  }

  /** A matching `line` always ends up among the output lines. */
  lemma OutputMatches(content: string, matches: string -> bool, line: string)
    requires matches(line)
    ensures AnyMatch(OutputLines(content, matches, line), matches)
  {
    var lines := Strs.ScanLines(content);
    var out := OutputLines(content, matches, line);
    if AnyMatch(lines, matches) {
      var k :| 0 <= k < |lines| && matches(lines[k]);
      assert out[k] == line;
    } else {
      assert out[|out| - 1] == line;
    }
  }

  /** The output lines are a fixed point of the replacement. */
  lemma OutputStable(content: string, matches: string -> bool, line: string)
    requires matches(line)
    ensures var out := OutputLines(content, matches, line); Replaced(out, matches, line) == out
  {
    var lines := Strs.ScanLines(content);
    var out := OutputLines(content, matches, line);
    forall j | 0 <= j < |out| ensures (if matches(out[j]) then line else out[j]) == out[j] {
      if j < |lines| {
        assert out[j] == (if matches(lines[j]) then line else lines[j]);
      }
    }
  }

  /**
   * When `line` matches the pattern and the scanner gives every line back
   * unchanged (no line ends in a carriage return), a second application
   * changes nothing.
   */
  lemma Idempotent(content: string, matches: string -> bool, line: string)
    requires matches(line) && Strs.PlainLine(line) && PlainLines(Strs.ScanLines(content))
    ensures Rewrite(Rewrite(content, matches, line), matches, line) == Rewrite(content, matches, line)
  {
    var out := OutputLines(content, matches, line);
    OutputPlain(content, matches, line);
    assert |out| > 0 by { LineCount(content, matches, line); OutputMatches(content, matches, line); }
    Strs.JoinTerminated(out);
    Strs.ScanLinesOfTerminated(out);
    var once := Rewrite(content, matches, line);
    assert Strs.ScanLines(once) == out;
    OutputMatches(content, matches, line);
    OutputStable(content, matches, line);
    assert OutputLines(once, matches, line) == out;
  }
}
