/**
 * The requirements-file filter of the package's setup script: each line is
 * stripped of surrounding whitespace; blank lines, options (`-`) and
 * comments (`#`) are skipped; the dependency name, the text before `==`,
 * is checked against the `exclude` list; every other entry is kept whole,
 * version included, in file order. A line holding `==` more than once makes
 * the two-name unpacking of its split fail, and with it the whole load.
 *
 * The file is given as its list of lines.
 */
module Requirements {

  import opened Wrappers

  /** The characters `str.strip()` removes: space, tab, newline, carriage return, vertical tab, form feed. */
  predicate IsSpace(c: char) {
    c == ' ' || c == '\t' || c == '\n' || c == '\r' || c == '\U{000B}' || c == '\U{000C}'
  }

  /** `s.lstrip()`. */
  function LStrip(s: string): string {
    if s != [] && IsSpace(s[0]) then LStrip(s[1..]) else s
  }

  /** `s.rstrip()`. */
  function RStrip(s: string): string {
    if s != [] && IsSpace(s[|s| - 1]) then RStrip(s[..|s| - 1]) else s
  }

  /** `s.lstrip()` is the suffix of `s` after its leading whitespace. */
  lemma {:induction false} LStripMeaning(s: string)
    ensures var r := LStrip(s);
      && |r| <= |s| && r == s[|s| - |r|..]
      && (forall k :: 0 <= k < |s| - |r| ==> IsSpace(s[k]))
      && (r != [] ==> !IsSpace(r[0]))
  {
    if s != [] && IsSpace(s[0]) {
      LStripMeaning(s[1..]);
      var r := LStrip(s);
      forall k | 1 <= k < |s| - |r| ensures IsSpace(s[k]) {
        assert s[k] == s[1..][k - 1];
      }
    }
  }

  /** `s.rstrip()` is the prefix of `s` before its trailing whitespace. */
  lemma {:induction false} RStripMeaning(s: string)
    ensures var r := RStrip(s);
      && |r| <= |s| && r == s[..|r|]
      && (forall k :: |r| <= k < |s| ==> IsSpace(s[k]))
      && (r != [] ==> !IsSpace(r[|r| - 1]))
  {
    if s != [] && IsSpace(s[|s| - 1]) {
      RStripMeaning(s[..|s| - 1]);
      var r := RStrip(s);
      forall k | |r| <= k < |s| - 1 ensures IsSpace(s[k]) {
        assert s[k] == s[..|s| - 1][k];
      }
    }
  }

  /** `s.strip()`. */
  function Strip(s: string): string {
    RStrip(LStrip(s))
  }

  /**
   * `s.strip()` is the slice of `s` starting at `i` with only whitespace
   * around it, and neither starts nor ends with whitespace.
   */
  lemma StripMeaning(s: string) returns (i: nat)
    ensures var r := Strip(s);
      && i + |r| <= |s| && r == s[i..i + |r|]
      && (forall k :: 0 <= k < i ==> IsSpace(s[k]))
      && (forall k :: i + |r| <= k < |s| ==> IsSpace(s[k]))
      && (r != [] ==> !IsSpace(r[0]) && !IsSpace(r[|r| - 1]))
  {
    var l := LStrip(s);
    var r := RStrip(l);
    LStripMeaning(s);
    RStripMeaning(l);
    i := |s| - |l|;
    assert r == l[..|r|] == s[i..][..|r|] == s[i..i + |r|];
    forall k | i + |r| <= k < |s| ensures IsSpace(s[k]) {
      assert s[k] == l[k - i];
    }
    assert r != [] ==> r[0] == l[0];
  }

  /** Stripping twice strips nothing more. */
  lemma StripIdempotent(s: string)
    ensures Strip(Strip(s)) == Strip(s)
  {
    var i := StripMeaning(s);
    var r := Strip(s);
    if r != [] {
      assert LStrip(r) == r;
      assert RStrip(r) == r;
    }
  }

  /** `sep in s` for the separator `==`. */
  predicate HasEq(s: string) {
    exists i :: 0 <= i < |s| - 1 && s[i] == '=' && s[i + 1] == '='
  }

  /**
   * `s.split('==')`: the pieces between the occurrences of `==` found
   * from the left, never overlapping.
   */
  function Split(s: string): (parts: seq<string>)
    ensures |parts| >= 1
    decreases |s|
  {
    if |s| < 2 then [s]
    else if s[0] == '=' && s[1] == '=' then [""] + Split(s[2..])
    else
      var rest := Split(s[1..]);
      [[s[0]] + rest[0]] + rest[1..]
  }

  /** `'=='.join(parts)`. */
  function Join(parts: seq<string>): string
    decreases |parts|
  {
    if parts == [] then ""
    else if |parts| == 1 then parts[0]
    else parts[0] + "==" + Join(parts[1..])
  }

  /** Joining the pieces of a split with the separator gives the string back. */
  lemma {:induction false} JoinSplit(s: string)
    ensures Join(Split(s)) == s
    decreases |s|
  {
    if |s| < 2 {
    } else if s[0] == '=' && s[1] == '=' {
      JoinSplit(s[2..]);
      assert s == "==" + s[2..];
    } else {
      JoinSplit(s[1..]);
      JoinCons(s[0], Split(s[1..]));
      assert s == [s[0]] + s[1..];
    }
  }

  /** A character put in front of the first piece comes out in front of the joined string. */
  lemma JoinCons(c: char, rest: seq<string>)
    requires |rest| >= 1
    ensures Join([[c] + rest[0]] + rest[1..]) == [c] + Join(rest)
  {
    var parts := [[c] + rest[0]] + rest[1..];
    if |rest| > 1 {
      assert parts[1..] == rest[1..];
    }
  }

  /** A split into one piece leaves the string whole. */
  lemma SplitWhole(s: string)
    ensures |Split(s)| == 1 ==> Split(s)[0] == s
  {
    JoinSplit(s);
  }

  /** The split has more than one piece exactly when the separator occurs. */
  lemma {:induction false} SplitFindsEq(s: string)
    ensures |Split(s)| > 1 <==> HasEq(s)
    decreases |s|
  {
    if |s| < 2 {
    } else if s[0] == '=' && s[1] == '=' {
      assert |Split(s)| > 1;
    } else {
      SplitFindsEq(s[1..]);
      if HasEq(s[1..]) {
        var i :| 0 <= i < |s| - 2 && s[1..][i] == '=' && s[1..][i + 1] == '=';
        assert s[i + 1] == '=' && s[i + 2] == '=';
      }
      if HasEq(s) {
        var i :| 0 <= i < |s| - 1 && s[i] == '=' && s[i + 1] == '=';
        assert i >= 1;
        assert s[1..][i - 1] == '=' && s[1..][i] == '=';
      }
    }
  }

  /** What one line of the file comes to: skipped, kept as an entry, or the unpacking error. */
  datatype Verdict = Skip | Keep(entry: string) | TooManyValues

  /** The dependency name of an entry: everything before its first `==`. */
  function Dep(entry: string): string {
    Split(entry)[0]
  }

  /** One iteration of the loop over the file's lines. */
  function Judge(line: string, exclude: seq<string>): Verdict {
    var entry := Strip(line);
    if entry == [] || entry[0] == '-' || entry[0] == '#' then Skip
    else if |Split(entry)| > 2 then TooManyValues
    else if Dep(entry) in exclude then Skip
    else Keep(entry)
  }

  /** The verdict on each line, in order. */
  function Verdicts(lines: seq<string>, exclude: seq<string>): (vs: seq<Verdict>)
    ensures |vs| == |lines| && forall i :: 0 <= i < |lines| ==> vs[i] == Judge(lines[i], exclude)
  {
    seq(|lines|, i requires 0 <= i < |lines| => Judge(lines[i], exclude))
  }

  /** The kept entries of a run of verdicts, in order, or `None` once one is the unpacking error. */
  function Collect(vs: seq<Verdict>): Option<seq<string>>
    decreases |vs|
  {
    if vs == [] then Some([])
    else
      match Collect(vs[..|vs| - 1])
      case None => None
      case Some(entries) =>
        match vs[|vs| - 1]
        case Skip => Some(entries)
        case Keep(e) => Some(entries + [e])
        case TooManyValues => None
  }

  /** The entries of the file's lines, or `None` when a line fails to unpack. */
  function Load(lines: seq<string>, exclude: seq<string>): Option<seq<string>> {
    Collect(Verdicts(lines, exclude))
  }

  /** The verdicts of the first `i + 1` lines extend those of the first `i`. */
  lemma VerdictsSnoc(lines: seq<string>, exclude: seq<string>, i: nat)
    requires i < |lines|
    ensures Verdicts(lines[..i + 1], exclude) == Verdicts(lines[..i], exclude) + [Judge(lines[i], exclude)]
  {
    assert Verdicts(lines[..i + 1], exclude)[..i] == Verdicts(lines[..i], exclude);
  }

  /** Once the verdicts so far hold the unpacking error, so do all the verdicts. */
  lemma CollectFailsFromPrefix(vs: seq<Verdict>, k: nat)
    requires k <= |vs| && Collect(vs[..k]).None?
    ensures Collect(vs).None?
  {
    CollectAppend(vs[..k], vs[k..]);
    assert vs[..k] + vs[k..] == vs;
  }

  /**
   * `load_requirements(requirements)` over the file's lines: the entries
   * to install, or `None` where the source raises `ValueError`.
   */
  method LoadRequirements(lines: seq<string>, exclude: seq<string>) returns (entries: Option<seq<string>>)
    ensures entries == Load(lines, exclude)
  {
    ghost var vs := Verdicts(lines, exclude);
    var kept: seq<string> := [];
    for i := 0 to |lines|
      invariant Collect(vs[..i]) == Some(kept)
    {
      CollectSnoc(vs, i);
      var entry := Strip(lines[i]);
      if entry == [] {
        continue;
      }
      if entry[0] == '-' || entry[0] == '#' {
        continue;
      }
      var dep := entry;
      SplitWhole(entry);
      if |Split(entry)| > 1 {
        var parts := Split(entry);
        if |parts| != 2 {
          CollectFailsFromPrefix(vs, i + 1);
          return None;
        }
        dep := parts[0];
      }
      if dep in exclude {
        continue;
      }
      kept := kept + [entry];
    }
    assert vs[..|lines|] == vs;
    entries := Some(kept);
  }

  /** Collecting one more verdict. */
  lemma CollectSnoc(vs: seq<Verdict>, i: nat)
    requires i < |vs|
    ensures Collect(vs[..i + 1]) ==
      match Collect(vs[..i])
      case None => None
      case Some(entries) =>
        match vs[i]
        case Skip => Some(entries)
        case Keep(e) => Some(entries + [e])
        case TooManyValues => None
  {
    assert vs[..i + 1][..i] == vs[..i];
  }

  /** The verdicts of two runs one after the other collect to the two collections joined. */
  lemma {:induction false} CollectAppend(a: seq<Verdict>, b: seq<Verdict>)
    ensures Collect(a + b) ==
      if Collect(a).Some? && Collect(b).Some? then Some(Collect(a).value + Collect(b).value)
      else None
    decreases |b|
  {
    if b == [] {
      assert a + b == a;
      assert Collect(a).Some? ==> Collect(a).value + [] == Collect(a).value;
    } else {
      var init := b[..|b| - 1];
      assert (a + b)[..|a + b| - 1] == a + init;
      CollectAppend(a, init);
      if Collect(a).Some? && Collect(init).Some? && b[|b| - 1].Keep? {
        assert Collect(a).value + (Collect(init).value + [b[|b| - 1].entry])
            == Collect(a).value + Collect(init).value + [b[|b| - 1].entry];
      }
    }
  }

  /** Loading two files one after the other is loading their concatenation. */
  lemma LoadAppend(a: seq<string>, b: seq<string>, exclude: seq<string>)
    ensures Load(a + b, exclude) ==
      if Load(a, exclude).Some? && Load(b, exclude).Some? then Some(Load(a, exclude).value + Load(b, exclude).value)
      else None
  {
    assert Verdicts(a + b, exclude) == Verdicts(a, exclude) + Verdicts(b, exclude);
    CollectAppend(Verdicts(a, exclude), Verdicts(b, exclude));
  }

  /** A line on its own: skipped, kept as its stripped text, or the failure. */
  lemma LoadOne(line: string, exclude: seq<string>)
    ensures Load([line], exclude) == match Judge(line, exclude)
      case Skip => Some([])
      case Keep(e) => Some([e])
      case TooManyValues => None
  {
    var vs := Verdicts([line], exclude);
    assert vs == [Judge(line, exclude)] && vs[..0] == [];
    assert Collect(vs[..0]) == Some([]);
    assert forall e: string :: [] + [e] == [e];
  }

  /** A skipped line (blank, an option, a comment or excluded) changes nothing around it. */
  lemma SkippedLineIsInert(a: seq<string>, line: string, b: seq<string>, exclude: seq<string>)
    requires Judge(line, exclude).Skip?
    ensures Load(a + [line] + b, exclude) == Load(a + b, exclude)
  {
    LoadOne(line, exclude);
    LoadAppend(a, [line], exclude);
    LoadAppend(a + [line], b, exclude);
    LoadAppend(a, b, exclude);
    if Load(a, exclude).Some? {
      assert Load(a, exclude).value + [] == Load(a, exclude).value;
    }
  }

  /** Collecting fails exactly when some verdict is the unpacking error. */
  lemma {:induction false} CollectFails(vs: seq<Verdict>)
    ensures Collect(vs).None? <==> exists i :: 0 <= i < |vs| && vs[i].TooManyValues?
    decreases |vs|
  {
    if vs != [] {
      var init := vs[..|vs| - 1];
      CollectFails(init);
      if exists i :: 0 <= i < |init| && init[i].TooManyValues? {
        var i :| 0 <= i < |init| && init[i].TooManyValues?;
        assert vs[i] == init[i];
      }
      if exists i :: 0 <= i < |vs| && vs[i].TooManyValues? {
        var i :| 0 <= i < |vs| && vs[i].TooManyValues?;
        if i < |init| {
          assert init[i] == vs[i];
        }
      }
    }
  }

  /** The load fails exactly when some line fails to unpack. */
  lemma LoadFails(lines: seq<string>, exclude: seq<string>)
    ensures Load(lines, exclude).None? <==> exists i :: 0 <= i < |lines| && Judge(lines[i], exclude).TooManyValues?
  {
    var vs := Verdicts(lines, exclude);
    CollectFails(vs);
    if exists i :: 0 <= i < |vs| && vs[i].TooManyValues? {
      var i :| 0 <= i < |vs| && vs[i].TooManyValues?;
      assert Judge(lines[i], exclude).TooManyValues?;
    }
  }

  /**
   * What a kept entry is: stripped and non-empty, neither an option nor
   * a comment, holding `==` at most once, and naming a dependency that is
   * not excluded.
   */
  predicate Wanted(e: string, exclude: seq<string>) {
    && e != [] && Strip(e) == e && e[0] != '-' && e[0] != '#'
    && |Split(e)| <= 2 && Dep(e) !in exclude
  }

  /** Only a wanted entry is kept, as the stripped text of its line. */
  lemma JudgeKeepsWanted(line: string, exclude: seq<string>)
    requires Judge(line, exclude).Keep?
    ensures Judge(line, exclude).entry == Strip(line) && Wanted(Strip(line), exclude)
  {
    StripIdempotent(line);
  }

  /** Collecting keeps only the entries some verdict kept. */
  lemma {:induction false} CollectKeeps(vs: seq<Verdict>, k: nat)
    requires Collect(vs).Some? && k < |Collect(vs).value|
    ensures exists i :: 0 <= i < |vs| && vs[i] == Keep(Collect(vs).value[k])
    decreases |vs|
  {
    var init := vs[..|vs| - 1];
    if k < |Collect(init).value| {
      CollectKeeps(init, k);
      var i :| 0 <= i < |init| && init[i] == Keep(Collect(init).value[k]);
      assert vs[i] == init[i];
    } else {
      assert vs[|vs| - 1] == Keep(Collect(vs).value[k]);
    }
  }

  /** Every loaded entry is the stripped text of a line of the file, and is wanted. */
  lemma LoadKeepsWanted(lines: seq<string>, exclude: seq<string>, k: nat)
    requires Load(lines, exclude).Some? && k < |Load(lines, exclude).value|
    ensures exists i :: 0 <= i < |lines| && Load(lines, exclude).value[k] == Strip(lines[i])
    ensures Wanted(Load(lines, exclude).value[k], exclude)
  {
    var vs := Verdicts(lines, exclude);
    CollectKeeps(vs, k);
    var i :| 0 <= i < |vs| && vs[i] == Keep(Collect(vs).value[k]);
    JudgeKeepsWanted(lines[i], exclude);
  }

  /**
   * A kept entry with a version is kept whole: it is the dependency name,
   * `==` and the version.
   */
  lemma EntryKeepsVersion(line: string, exclude: seq<string>)
    requires Judge(line, exclude).Keep? && HasEq(Strip(line))
    ensures var e := Judge(line, exclude).entry;
      e == Strip(line) && |Split(e)| == 2 && e == Dep(e) + "==" + Split(e)[1]
  {
    var e := Strip(line);
    SplitFindsEq(e);
    JoinSplit(e);
  }

  /** An entry without `==` is its own dependency name. */
  lemma EntryWithoutVersion(e: string)
    requires !HasEq(e)
    ensures Dep(e) == e
  {
    SplitFindsEq(e);
    JoinSplit(e);
  }

  /** With the setup script's empty `exclude`, a line is skipped only as a blank, an option or a comment. */
  lemma NothingExcluded(line: string)
    ensures Judge(line, []).Skip? <==>
      var e := Strip(line); e == [] || e[0] == '-' || e[0] == '#'
  {
  }

  lemma PinnedLine()
    ensures Judge("a==1\n", []) == Keep("a==1")
  {
    assert LStrip("a==1\n") == "a==1\n";
    assert "a==1\n"[..4] == "a==1";
    assert RStrip("a==1") == "a==1";
    assert RStrip("a==1\n") == "a==1";
    assert "a==1"[1..] == "==1" && "==1"[2..] == "1";
    assert Split("1") == ["1"];
    assert Split("==1") == ["", "1"];
    assert Split("a==1") == [['a'] + ""] + ["1"];
    assert ['a'] + "" == "a";
  }

  lemma CommentLine()
    ensures Judge("#c\n", []) == Skip
  {
    assert LStrip("#c\n") == "#c\n";
    assert "#c\n"[..2] == "#c";
    assert RStrip("#c") == "#c";
  }

  lemma BlankLine()
    ensures Judge("\n", []) == Skip
  {
    assert "\n"[1..] == "";
  }

  lemma OptionLine()
    ensures Judge("-e .\n", []) == Skip
  {
    assert LStrip("-e .\n") == "-e .\n";
    assert "-e .\n"[..4] == "-e .";
    assert RStrip("-e .") == "-e .";
  }

  lemma PaddedLine()
    ensures Judge(" b \n", []) == Keep("b")
  {
    assert " b \n"[1..] == "b \n";
    assert LStrip(" b \n") == "b \n";
    assert "b \n"[..2] == "b " && "b "[..1] == "b";
    assert RStrip("b \n") == "b";
    assert Split("b") == ["b"];
  }

  /** A small requirements file: a pinned dependency, a comment, a blank line, an option and a padded name. */
  lemma LoadExample()
    ensures Load(["a==1\n", "#c\n", "\n", "-e .\n", " b \n"], []) == Some(["a==1", "b"])
  {
    var lines := ["a==1\n", "#c\n", "\n", "-e .\n", " b \n"];
    PinnedLine();
    CommentLine();
    BlankLine();
    OptionLine();
    PaddedLine();
    var vs := Verdicts(lines, []);
    assert vs == [Keep("a==1"), Skip, Skip, Skip, Keep("b")];
    CollectExample();
  }

  lemma CollectExample()
    ensures Collect([Keep("a==1"), Skip, Skip, Skip, Keep("b")]) == Some(["a==1", "b"])
  {
    var vs := [Keep("a==1"), Skip, Skip, Skip, Keep("b")];
    assert vs[..0] == [];
    assert Collect(vs[..0]) == Some([]);
    CollectSnoc(vs, 0);
    assert [] + ["a==1"] == ["a==1"];
    assert Collect(vs[..1]) == Some(["a==1"]);
    CollectSnoc(vs, 1);
    CollectSnoc(vs, 2);
    CollectSnoc(vs, 3);
    assert Collect(vs[..4]) == Some(["a==1"]);
    CollectSnoc(vs, 4);
    assert Collect(vs[..5]) == Some(["a==1"] + ["b"]);
    assert vs[..5] == vs;
    assert ["a==1"] + ["b"] == ["a==1", "b"];
  }

  /** A line pinning two versions makes the whole load fail, wherever it stands. */
  lemma TwoPinsFail(before: seq<string>, after: seq<string>)
    ensures Load(before + ["a==1==2"] + after, []).None?
  {
    assert LStrip("a==1==2") == "a==1==2";
    assert RStrip("a==1==2") == "a==1==2";
    assert "a==1==2"[1..] == "==1==2" && "==1==2"[2..] == "1==2";
    assert "1==2"[1..] == "==2" && "==2"[2..] == "2";
    assert |Split("a==1==2")| == 3;
    var lines := before + ["a==1==2"] + after;
    assert lines[|before|] == "a==1==2";
    LoadFails(lines, []);
  }
}
