// The APT package manager (pkg/pkgman/apt/apt.go): argv builders and the
// parser of `apt-cache policy` output.
module Apt {
  import opened PkgCommon
  import Strs

  const DefaultAuthCommand: string := "sudo"
  const DefaultPackageCommand: string := "apt-get"

  class AptManager {
    var useAuth: bool
    var authCommand: string

    /** NewAptManager */
    constructor ()
      ensures useAuth && authCommand == DefaultAuthCommand
    {
      useAuth := true;
      authCommand := DefaultAuthCommand;
    }

    /** prependAuthCommand */
    function PrependAuthCommand(baseCmd: string): (r: string)
      reads this
      ensures useAuth ==> r == authCommand + " " + baseCmd
      ensures !useAuth ==> r == baseCmd
    {
      if useAuth then authCommand + " " + baseCmd else baseCmd
    }

    function Install(pkgs: seq<Package>, args: seq<string>): (r: (string, seq<string>))
      reads this
      ensures r.0 == PrependAuthCommand(DefaultPackageCommand)
      ensures r.1 == ["update", "&&", r.0, "install", "-y"] + Names(pkgs) + args
    {
      var baseCmd := PrependAuthCommand(DefaultPackageCommand);
      (baseCmd, ["update", "&&", baseCmd, "install", "-y"] + Names(pkgs) + Extra(args))
    }

    function Remove(pkgs: seq<Package>, args: seq<string>): (r: (string, seq<string>))
      reads this
      ensures r.0 == PrependAuthCommand(DefaultPackageCommand)
      ensures r.1 == ["remove", "-y"] + Names(pkgs) + args
    {
      (PrependAuthCommand(DefaultPackageCommand), ["remove", "-y"] + Names(pkgs) + Extra(args))
    }

    function Upgrade(pkgs: seq<Package>): (r: (string, seq<string>))
      reads this
      ensures r.0 == PrependAuthCommand(DefaultPackageCommand)
      ensures r.1 == ["update", "&&", r.0, "install", "--only-upgrade", "-y"] + Names(pkgs)
    {
      var baseCmd := PrependAuthCommand(DefaultPackageCommand);
      (baseCmd, ["update", "&&", baseCmd, "install", "--only-upgrade", "-y"] + Names(pkgs))
    }

    function CheckVersion(pkgs: seq<Package>): (r: (string, seq<string>))
      reads this
      ensures r.0 == PrependAuthCommand("apt-cache")
      ensures r.1 == ["policy"] + Names(pkgs)
    {
      (PrependAuthCommand("apt-cache"), ["policy"] + Names(pkgs))
    }

    function UpgradeAll(): (r: (string, seq<string>))
      reads this
      ensures r.0 == PrependAuthCommand(DefaultPackageCommand)
      ensures r.1 == ["update", "&&", r.0, "upgrade", "-y"]
    {
      var baseCmd := PrependAuthCommand(DefaultPackageCommand);
      (baseCmd, ["update", "&&", baseCmd, "upgrade", "-y"])
    }

    method SetUseAuth(useAuth: bool)
      modifies this
      ensures this.useAuth == useAuth && authCommand == old(authCommand)
    {
      this.useAuth := useAuth;
    }

    method SetAuthCommand(authCommand: string)
      modifies this
      ensures this.authCommand == authCommand && useAuth == old(useAuth)
    {
      this.authCommand := authCommand;
    }

    /** ParseRemotePackageManagerVersionOutput, as the scanner loop it is. */
    method ParseRemotePackageManagerVersionOutput(output: string) returns (pkgs: seq<Package>, errs: seq<string>)
      ensures (pkgs, errs) == ParsePolicy(output)
    {
      if Strs.Contains(output, "Unable to locate package") {
        return [], ["error: " + Strs.TrimSpace(output)];
      }
      var lines := Strs.ScanLines(output);
      var st := Start;
      var i := 0;
      while i < |lines|
        invariant 0 <= i <= |lines|
        invariant st == Fold(lines[..i])
      {
        assert lines[..i + 1][..i] == lines[..i];
        st := Step(st, lines[i]);
        i := i + 1;
      }
      assert lines[..i] == lines;
      return st.packages, [];
    }
  }

  /** The variables of the parser's scanner loop. */
  datatype Scan = Scan(packageName: string, installed: string, candidate: string, count: nat, packages: seq<Package>)

  const Start: Scan := Scan("", "", "", 0, [])

  /** One iteration of the scanner loop. */
  function Step(st: Scan, line: string): Scan
  {
    var name := if !Strs.HasPrefix(line, "  ") && Strs.HasSuffix(line, ":")
      then Strs.TrimSpace(Strs.TrimSuffix(line, ":")) else st.packageName;
    var isInst := Strs.Contains(line, "Installed:");
    var isCand := Strs.Contains(line, "Candidate:");
    var inst := if isInst then Strs.TrimPrefix(Strs.TrimSpace(line), "Installed:") else st.installed;
    var cand := if isCand then Strs.TrimPrefix(Strs.TrimSpace(line), "Candidate:") else st.candidate;
    var count := st.count + (if isInst then 1 else 0) + (if isCand then 1 else 0);
    if count == 2 then
      Scan(name, inst, cand, 0, st.packages + [Record(name, inst, cand)])
    else
      Scan(name, inst, cand, count, st.packages)
  }

  /** The record emitted from the untrimmed version strings. */
  function Record(name: string, inst: string, cand: string): Package
  {
    Package(name, "", PackageVersion(Strs.TrimSpace(inst), Strs.TrimSpace(cand), inst == cand, ""))
  }

  function Fold(lines: seq<string>): Scan
  {
    if |lines| == 0 then Start else Step(Fold(lines[..|lines| - 1]), lines[|lines| - 1])
  }

  /** What the parser returns: the packages and the error list. */
  function ParsePolicy(output: string): (seq<Package>, seq<string>)
  {
    if Strs.Contains(output, "Unable to locate package") then ([], ["error: " + Strs.TrimSpace(output)])
    else (Fold(Strs.ScanLines(output)).packages, [])
  }

  /** "Unable to locate package" gives no packages and exactly one error; nothing else errs. */
  lemma ParseErrors(output: string)
    ensures var (pkgs, errs) := ParsePolicy(output);
      if Strs.Contains(output, "Unable to locate package") then pkgs == [] && |errs| == 1 else errs == []
  {
  }

  /** A record is emitted exactly when the count of marker lines reaches two. */
  lemma {:induction false} RecordOnSecondMarker(st: Scan, line: string)
    ensures var n := st.count + (if Strs.Contains(line, "Installed:") then 1 else 0)
                              + (if Strs.Contains(line, "Candidate:") then 1 else 0);
      var st' := Step(st, line);
      (n == 2 ==> st'.count == 0 && |st'.packages| == |st.packages| + 1)
      && (n != 2 ==> st'.count == n && st'.packages == st.packages)
  {
  }

  /** One package of `apt-cache policy` output: its name line and the two version lines. */
  datatype Block = Block(name: string, installed: string, candidate: string)

  function BlockLines(b: Block): seq<string>
  {
    [b.name + ":", MarkerLine("Installed:", b.installed), MarkerLine("Candidate:", b.candidate)]
  }

  function AllLines(blocks: seq<Block>): seq<string>
  {
    if |blocks| == 0 then [] else AllLines(blocks[..|blocks| - 1]) + BlockLines(blocks[|blocks| - 1])
  }

  /** An indented version line, as `apt-cache policy` prints it. */
  function MarkerLine(marker: string, v: string): string
  {
    "  " + marker + " " + v
  }

  function Render(blocks: seq<Block>): string
  {
    Strs.Terminated(AllLines(blocks))
  }

  /** A version string the tool prints: no surrounding white space, no newline. */
  predicate Word(s: string)
  {
    |s| > 0 && !Strs.IsSpace(s[0]) && !Strs.IsSpace(s[|s| - 1]) && '\n' !in s
  }

  predicate WellFormed(b: Block)
  {
    Word(b.name) && Word(b.installed) && Word(b.candidate)
    && !Strs.Contains(b.name + ":", "Installed:") && !Strs.Contains(b.name + ":", "Candidate:")
    && !Strs.Contains(MarkerLine("Installed:", b.installed), "Candidate:")
    && !Strs.Contains(MarkerLine("Candidate:", b.candidate), "Installed:")
  }

  function Expected(blocks: seq<Block>): seq<Package>
  {
    if |blocks| == 0 then []
    else
      var b := blocks[|blocks| - 1];
      Expected(blocks[..|blocks| - 1])
        + [Package(b.name, "", PackageVersion(b.installed, b.candidate, b.installed == b.candidate, ""))]
  }

  lemma {:induction false} TrimLeftOfSpaces(pre: string, x: string)
    requires forall k :: 0 <= k < |pre| ==> Strs.IsSpace(pre[k])
    requires |x| > 0 && !Strs.IsSpace(x[0])
    ensures Strs.TrimLeftSpace(pre + x) == x
  {
    if |pre| > 0 {
      assert (pre + x)[1..] == pre[1..] + x;
      TrimLeftOfSpaces(pre[1..], x);
    }
  }

  lemma TrimSpaceOfPadded(pre: string, x: string)
    requires forall k :: 0 <= k < |pre| ==> Strs.IsSpace(pre[k])
    requires Word(x)
    ensures Strs.TrimSpace(pre + x) == x
  {
    TrimLeftOfSpaces(pre, x);
  }

  lemma MarkerContains(marker: string, v: string)
    ensures Strs.Contains(MarkerLine(marker, v), marker)
    ensures Strs.HasPrefix(MarkerLine(marker, v), "  ")
  {
    assert MarkerLine(marker, v)[..2] == "  ";
    Strs.ContainsPrefix(marker, "  ", " " + v);
    assert "  " + marker + " " + v == "  " + marker + (" " + v);
  }

  /** The version value a marker line leaves in the loop variable. */
  lemma MarkerValue(marker: string, v: string)
    requires |marker| > 0 && !Strs.IsSpace(marker[0]) && '\n' !in marker
    requires Word(v)
    ensures Strs.TrimPrefix(Strs.TrimSpace(MarkerLine(marker, v)), marker) == " " + v
  {
    var x := marker + (" " + v);
    WordJoin(marker, v);
    assert MarkerLine(marker, v) == "  " + x;
    TrimSpaceOfPadded("  ", x);
    TrimPrefixOfJoin(marker, " " + v);
  }

  lemma WordJoin(marker: string, v: string)
    requires |marker| > 0 && !Strs.IsSpace(marker[0]) && '\n' !in marker
    requires Word(v)
    ensures Word(marker + (" " + v))
  {
    var x := marker + (" " + v);
    assert x[0] == marker[0];
    assert x[|x| - 1] == v[|v| - 1];
    forall k | 0 <= k < |x| ensures x[k] != '\n' {
      if k < |marker| { assert x[k] == marker[k]; }
      else if k > |marker| { assert x[k] == v[k - |marker| - 1]; }
    }
  }

  lemma TrimPrefixOfJoin(p: string, rest: string)
    ensures Strs.TrimPrefix(p + rest, p) == rest
  {
    assert (p + rest)[..|p|] == p;
    assert (p + rest)[|p|..] == rest;
  }

  lemma VersionValue(v: string)
    requires Word(v)
    ensures Strs.TrimSpace(" " + v) == v
  {
    TrimSpaceOfPadded(" ", v);
  }

  lemma NameLine(st: Scan, name: string)
    requires Word(name) && st.count == 0
    requires !Strs.Contains(name + ":", "Installed:") && !Strs.Contains(name + ":", "Candidate:")
    ensures Step(st, name + ":") == st.(packageName := name)
  {
    var l0 := name + ":";
    assert Strs.HasSuffix(l0, ":");
    assert Strs.TrimSuffix(l0, ":") == name;
    assert !Strs.HasPrefix(l0, "  ") by {
      assert l0[0] == name[0];
    }
    Strs.TrimSpaceOfUnspaced(name);
  }

  lemma InstalledLine(st: Scan, v: string)
    requires Word(v) && st.count == 0
    requires !Strs.Contains(MarkerLine("Installed:", v), "Candidate:")
    ensures Step(st, MarkerLine("Installed:", v)) == st.(installed := " " + v, count := 1)
  {
    MarkerContains("Installed:", v);
    MarkerValue("Installed:", v);
  }

  lemma CandidateLine(st: Scan, v: string)
    requires Word(v) && st.count == 1
    requires !Strs.Contains(MarkerLine("Candidate:", v), "Installed:")
    ensures Step(st, MarkerLine("Candidate:", v))
      == Scan(st.packageName, st.installed, " " + v, 0, st.packages + [Record(st.packageName, st.installed, " " + v)])
  {
    MarkerContains("Candidate:", v);
    MarkerValue("Candidate:", v);
  }

  /** The three lines of a well-formed block emit exactly its record. */
  lemma BlockStep(st: Scan, b: Block)
    requires st.count == 0 && WellFormed(b)
    ensures var st3 := Step(Step(Step(st, b.name + ":"), MarkerLine("Installed:", b.installed)), MarkerLine("Candidate:", b.candidate));
      st3.count == 0
      && st3.packages == st.packages + [Package(b.name, "", PackageVersion(b.installed, b.candidate, b.installed == b.candidate, ""))]
  {
    NameLine(st, b.name);
    var st1 := st.(packageName := b.name);
    InstalledLine(st1, b.installed);
    var st2 := st1.(installed := " " + b.installed, count := 1);
    CandidateLine(st2, b.candidate);
    VersionValue(b.installed);
    VersionValue(b.candidate);
    assert (" " + b.installed == " " + b.candidate) == (b.installed == b.candidate) by {
      if " " + b.installed == " " + b.candidate {
        assert b.installed == (" " + b.installed)[1..];
      }
    }
  }

  lemma FoldSnoc(pre: seq<string>, l: string)
    ensures Fold(pre + [l]) == Step(Fold(pre), l)
  {
    assert (pre + [l])[..|pre|] == pre;
  }

  lemma FoldThree(pre: seq<string>, a: string, b: string, c: string)
    ensures Fold(pre + [a, b, c]) == Step(Step(Step(Fold(pre), a), b), c)
  {
    FoldSnoc(pre, a);
    FoldSnoc(pre + [a], b);
    FoldSnoc(pre + [a] + [b], c);
    assert pre + [a] + [b] + [c] == pre + [a, b, c];
  }

  lemma {:induction false} FoldBlocks(blocks: seq<Block>)
    requires forall k :: 0 <= k < |blocks| ==> WellFormed(blocks[k])
    ensures Fold(AllLines(blocks)).count == 0
    ensures Fold(AllLines(blocks)).packages == Expected(blocks)
  {
    if |blocks| > 0 {
      var init := blocks[..|blocks| - 1];
      var b := blocks[|blocks| - 1];
      FoldBlocks(init);
      var pre := AllLines(init);
      FoldThree(pre, b.name + ":", MarkerLine("Installed:", b.installed), MarkerLine("Candidate:", b.candidate));
      BlockStep(Fold(pre), b);
    }
  }

  lemma {:induction false} AllLinesPlain(blocks: seq<Block>)
    requires forall k :: 0 <= k < |blocks| ==> WellFormed(blocks[k])
    ensures forall k :: 0 <= k < |AllLines(blocks)| ==> Strs.PlainLine(AllLines(blocks)[k])
  {
    if |blocks| > 0 {
      var b := blocks[|blocks| - 1];
      AllLinesPlain(blocks[..|blocks| - 1]);
      var ls := BlockLines(b);
      assert "\n" == ['\n'];
      forall k | 0 <= k < 3 ensures Strs.PlainLine(ls[k]) {
        var l := ls[k];
        assert l[|l| - 1] != '\r' by {
          if k == 0 { assert l[|l| - 1] == ':'; }
          else if k == 1 { assert l[|l| - 1] == b.installed[|b.installed| - 1]; }
          else { assert l[|l| - 1] == b.candidate[|b.candidate| - 1]; }
        }
        assert l[|l| - 1..] == [l[|l| - 1]];
      }
    }
  }

  /**
   * Rendered policy output of well-formed packages parses back to one record
   * per package, in order, with the versions and their comparison.
   */
  lemma ParsesRenderedOutput(blocks: seq<Block>)
    requires forall k :: 0 <= k < |blocks| ==> WellFormed(blocks[k])
    requires !Strs.Contains(Render(blocks), "Unable to locate package")
    ensures ParsePolicy(Render(blocks)) == (Expected(blocks), [])
  {
    AllLinesPlain(blocks);
    Strs.ScanLinesOfTerminated(AllLines(blocks));
    FoldBlocks(blocks);
  }
}
