/**
 * What follows from the verdict `Expected` alone, and hence, through the
 * contract of `Validate`, about every answer `validate` gives: which lines
 * are skipped, that blank and comment lines and the order of lines never
 * matter, that an unknown line always rejects, that letter case and
 * carriage returns never matter, and a few concrete lines.
 */
module ValidatorFacts {
  import opened JsStrings
  import opened Validator

  /** A line is skipped exactly when it is blank or its first non-blank character is `#`. */
  lemma ClassifySkip(line: string)
    ensures Classify(line) == Skip <==> AllWhitespace(line) || Trim(line)[0] == '#'
  {
    var t := Trim(line);
    if t != [] {
      assert Normalize(line)[0] == UpperChar(t[0]);
    }
  }

  /** A line is classified as FROM exactly when, trimmed and upper-cased, it starts with `FROM`. */
  lemma ClassifyFrom(line: string)
    ensures Classify(line) == From <==> StartsWith(ToUpper(Trim(line)), "FROM")
  {
    var t := ToUpper(Trim(line));
    if StartsWith(t, "FROM") {
      assert t[0] == 'F';
    }
  }

  /** A line is classified as CMD exactly when, trimmed and upper-cased, it starts with `CMD`. */
  lemma ClassifyCmd(line: string)
    ensures Classify(line) == Cmd <==> StartsWith(ToUpper(Trim(line)), "CMD")
  {
    var t := ToUpper(Trim(line));
    if StartsWith(t, "CMD") {
      assert t[0] == 'C';
    }
  }

  /** Lines that differ only in letter case are classified alike. */
  lemma ClassifyIgnoresCase(l1: string, l2: string)
    requires ToUpper(l1) == ToUpper(l2)
    ensures Classify(l1) == Classify(l2)
  {
    TrimToUpper(l1);
    TrimToUpper(l2);
    assert Normalize(l1) == Normalize(l2);
  }

  /** Whitespace around a line, a trailing carriage return among it, never changes its kind. */
  lemma ClassifyPadded(before: string, line: string, after: string)
    requires AllWhitespace(before) && AllWhitespace(after)
    ensures Classify(before + line + after) == Classify(line)
  {
    TrimPadded(before, line, after);
    assert Normalize(before + line + after) == Normalize(line);
  }

  /** A line with no surrounding whitespace is examined upper-cased and otherwise unchanged. */
  lemma UnpaddedKind(line: string)
    requires line != [] && !IsWhitespace(line[0]) && !IsWhitespace(line[|line| - 1])
    ensures Classify(line) == KindOf(ToUpper(line))
  {
    TrimUnpadded(line);
  }

  /** A FROM prefix is enough, whatever follows it: no separator or argument is checked. */
  lemma FromPrefixKind(current: string)
    requires StartsWith(current, "FROM")
    ensures KindOf(current) == From
  {
    assert current[0] == 'F';
  }

  /** A CMD prefix is enough, whatever follows it. */
  lemma CmdPrefixKind(current: string)
    requires StartsWith(current, "CMD")
    ensures KindOf(current) == Cmd
  {
    assert current[0] == 'C' && "FROM"[0] == 'F';
  }

  /** A prefix that is one of the ten keywords, in any letter case, is enough, whatever follows it. */
  lemma CommandPrefixKind(current: string, k: nat)
    requires k < |Commands| && StartsWith(ToUpper(current), Commands[k])
    ensures KindOf(ToUpper(current)) == Command
  {
    var u, w := ToUpper(current), Commands[k];
    CommandUpper(k);
    forall i | 0 <= i < |w| ensures UpperChar(u[i]) == UpperChar(w[i]) {
      assert u[..|w|][i] == w[i];
      assert ToUpper(w)[i] == UpperChar(w[i]);
    }
    assert StartsWithIgnoringCase(u, w);
    assert u[0] == w[0];
    assert u[0] != '#' && u[0] != 'F' && u[0] != 'C';
  }

  /** `from x` is a FROM line. */
  lemma FromLowerCaseExample(line: string)
    requires line == "from x"
    ensures Classify(line) == From
  {
    UnpaddedKind(line);
    assert ToUpper(line) == "FROM X";
    FromPrefixKind("FROM X");
  }

  /** `FROMAGE` is a FROM line. */
  lemma FromageExample(line: string)
    requires line == "FROMAGE"
    ensures Classify(line) == From
  {
    UnpaddedKind(line);
    assert ToUpper(line) == line;
    FromPrefixKind(line);
  }

  /** `RUNNER` is an accepted instruction line. */
  lemma RunnerExample(line: string)
    requires line == "RUNNER"
    ensures Classify(line) == Command
  {
    UnpaddedKind(line);
    CommandPrefixKind(line, 1);
  }

  /** ` \tcmd run` followed by a carriage return is a CMD line. */
  lemma PaddedCmdExample(line: string)
    requires line == " \tcmd run\r"
    ensures Classify(line) == Cmd
  {
    var inner := "cmd run";
    assert line == " \t" + inner + "\r";
    ClassifyPadded(" \t", inner, "\r");
    CmdExample(inner);
  }

  lemma CmdExample(line: string)
    requires line == "cmd run"
    ensures Classify(line) == Cmd
  {
    UnpaddedKind(line);
    assert ToUpper(line) == "CMD RUN";
    CmdPrefixKind("CMD RUN");
  }

  /** `COPY a b` is rejected: COPY is not one of the keywords. */
  lemma CopyExample(line: string)
    requires line == "COPY a b"
    ensures Classify(line) == Unknown
  {
    UnpaddedKind(line);
    assert ToUpper(line) == "COPY A B";
    CopyKind("COPY A B");
  }

  /** `COPY A B` starts with none of the keywords, so it is unknown. */
  lemma CopyKind(u: string)
    requires u == "COPY A B"
    ensures KindOf(u) == Unknown
  {
    assert u[0] == 'C' && u[1] == 'O' && UpperChar(u[0]) == 'C';
    forall k | 0 <= k < |Commands| ensures !StartsWithIgnoringCase(u, Commands[k]) {
      assert k == 0 || k == 1 || k == 2 || k == 3 || k == 4 || k == 5 || k == 6 || k == 7 || k == 8 || k == 9;
      assert UpperChar(u[0]) != UpperChar(Commands[k][0]);
    }
  }

  /** The kinds of two runs of lines, one after the other. */
  lemma KindsConcat(a: seq<string>, b: seq<string>)
    ensures Kinds(a + b) == Kinds(a) + Kinds(b)
  {
    var x, ks := a + b, Kinds(a) + Kinds(b);
    forall j | 0 <= j < |x| ensures Kinds(x)[j] == ks[j] {
      if j < |a| {
        assert x[j] == a[j];
      } else {
        assert x[j] == b[j - |a|];
      }
    }
  }

  /**
   * The verdict on lines, stated line by line: every line is known, some line
   * is a FROM line and some line is a CMD line.
   */
  lemma AcceptedMeans(lines: seq<string>)
    ensures Accepted(lines) <==>
      && (forall i :: 0 <= i < |lines| ==> Classify(lines[i]) != Unknown)
      && (exists i :: 0 <= i < |lines| && Classify(lines[i]) == From)
      && (exists i :: 0 <= i < |lines| && Classify(lines[i]) == Cmd)
  {
    var ks := Kinds(lines);
    KindPresent(lines, From);
    KindPresent(lines, Cmd);
    KindPresent(lines, Unknown);
  }

  /** A kind occurs among the kinds of the lines exactly when some line has it. */
  lemma KindPresent(lines: seq<string>, k: LineKind)
    ensures k in Kinds(lines) <==> exists i :: 0 <= i < |lines| && Classify(lines[i]) == k
  {
    KindsIn(Kinds(lines), lines, k);
  }

  /** `KindPresent` for any sequence of kinds that classifies the lines one by one. */
  lemma KindsIn(ks: seq<LineKind>, lines: seq<string>, k: LineKind)
    requires |ks| == |lines| && forall j :: 0 <= j < |lines| ==> ks[j] == Classify(lines[j])
    ensures k in ks <==> exists i :: 0 <= i < |lines| && Classify(lines[i]) == k
  {
    if k in ks {
      var i :| 0 <= i < |ks| && ks[i] == k;
      assert Classify(lines[i]) == k;
    }
  }


  /** Only the set of distinct lines matters: their order and how often each occurs do not. */
  lemma SameLinesSameVerdict(a: seq<string>, b: seq<string>)
    requires forall l :: l in a <==> l in b
    ensures Accepted(a) == Accepted(b)
  {
    KindsSubset(a, b);
    KindsSubset(b, a);
  }

  lemma KindsSubset(a: seq<string>, b: seq<string>)
    requires forall l :: l in a ==> l in b
    ensures forall k :: k in Kinds(a) ==> k in Kinds(b)
  {
    forall k | k in Kinds(a) ensures k in Kinds(b) {
      var i :| 0 <= i < |a| && Kinds(a)[i] == k;
      assert a[i] in b;
      var j :| 0 <= j < |b| && b[j] == a[i];
      assert Kinds(b)[j] == k;
    }
  }

  /** Reordering the lines never changes the verdict. */
  lemma ReorderLines(a: seq<string>, b: seq<string>)
    requires multiset(a) == multiset(b)
    ensures Accepted(a) == Accepted(b)
  {
    forall l ensures l in a <==> l in b {
      assert l in a <==> l in multiset(a);
      assert l in b <==> l in multiset(b);
    }
    SameLinesSameVerdict(a, b);
  }

  /** A blank or comment line can be inserted anywhere, or deleted, without changing the verdict. */
  lemma SkippedLineIrrelevant(a: seq<string>, line: string, b: seq<string>)
    requires Classify(line) == Skip
    ensures Accepted(a + [line] + b) == Accepted(a + b)
  {
    KindsConcat(a + [line], b);
    KindsConcat(a, [line]);
    KindsConcat(a, b);
    assert Kinds([line]) == [Skip];
    SkipKindIrrelevant(Kinds(a), Kinds(b));
  }

  lemma SkipKindIrrelevant(ka: seq<LineKind>, kb: seq<LineKind>)
    ensures AcceptedKinds(ka + [Skip] + kb) == AcceptedKinds(ka + kb)
  {
    assert forall k :: k != Skip ==> (k in ka + [Skip] + kb <==> k in ka + kb);
  }

  /** Lines that are all blank or comments are rejected: no FROM line was seen. */
  lemma OnlySkippedRejected(lines: seq<string>)
    requires forall i :: 0 <= i < |lines| ==> Classify(lines[i]) == Skip
    ensures !Accepted(lines)
  {
    assert From !in Kinds(lines);
  }

  /** An unknown line rejects, whatever precedes or follows it. */
  lemma UnknownLineRejects(before: seq<string>, line: string, after: seq<string>)
    requires Classify(line) == Unknown
    ensures !Accepted(before + [line] + after)
  {
    var lines := before + [line] + after;
    assert lines[|before|] == line;
    assert Kinds(lines)[|before|] == Unknown;
  }

  /** A trailing carriage return on every line, as in a file with CRLF line ends, changes nothing. */
  lemma CrlfLines(lines: seq<string>)
    ensures Accepted(seq(|lines|, i requires 0 <= i < |lines| => lines[i] + "\r")) == Accepted(lines)
  {
    var crlf := seq(|lines|, i requires 0 <= i < |lines| => lines[i] + "\r");
    forall i | 0 <= i < |lines| ensures Classify(crlf[i]) == Classify(lines[i]) {
      ClassifyPadded("", lines[i], "\r");
      assert "" + lines[i] + "\r" == crlf[i];
    }
    assert Kinds(crlf) == Kinds(lines);
  }

  /** Lines that differ only in letter case get the same verdict. */
  lemma AcceptedIgnoresCase(lines: seq<string>)
    ensures Accepted(UpperAll(lines)) == Accepted(lines)
  {
    var up := UpperAll(lines);
    forall i | 0 <= i < |lines| ensures Classify(up[i]) == Classify(lines[i]) {
      ToUpperIdempotent(lines[i]);
      ClassifyIgnoresCase(up[i], lines[i]);
    }
    assert Kinds(up) == Kinds(lines);
  }

  /**
   * The verdict on a text whose lines are `lines`: `validate` sees exactly
   * those lines, including when there are none (the empty text).
   */
  lemma ExpectedOfJoin(lines: seq<string>)
    requires forall i :: 0 <= i < |lines| ==> '\n' !in lines[i]
    ensures Expected(Text(Join(lines, '\n'))) == Accepted(lines)
  {
    if lines == [] {
      EmptyTextRejected();
    } else {
      SplitJoin(lines, '\n');
    }
  }

  /** The empty text is rejected: it is one blank line. */
  lemma EmptyTextRejected()
    ensures !Expected(Text(""))
  {
    assert Split("", '\n') == [""];
    assert Classify("") == Skip by {
      assert Trim("") == "";
    }
    OnlySkippedRejected([""]);
  }

  /** A text of blank and comment lines only is rejected. */
  lemma OnlySkippedTextRejected(text: string)
    requires forall i :: 0 <= i < |Split(text, '\n')| ==> Classify(Split(text, '\n')[i]) == Skip
    ensures !Expected(Text(text))
  {
    OnlySkippedRejected(Split(text, '\n'));
  }

  /** In a text, blank and comment lines can be inserted or deleted without changing the verdict. */
  lemma SkippedTextLineIrrelevant(a: seq<string>, line: string, b: seq<string>)
    requires forall i :: 0 <= i < |a + b| ==> '\n' !in (a + b)[i]
    requires '\n' !in line && Classify(line) == Skip
    ensures Expected(Text(Join(a + [line] + b, '\n'))) == Expected(Text(Join(a + b, '\n')))
  {
    var x := a + [line] + b;
    forall i | 0 <= i < |x| ensures '\n' !in x[i] {
      if i < |a| {
        assert x[i] == (a + b)[i];
      } else if i > |a| {
        assert x[i] == (a + b)[i - 1];
      }
    }
    ExpectedOfJoin(x);
    ExpectedOfJoin(a + b);
    SkippedLineIrrelevant(a, line, b);
  }

  /** In a text, an unknown first line rejects, whatever the lines after it contain. */
  lemma UnknownFirstLineRejects(line: string, after: string)
    requires '\n' !in line && Classify(line) == Unknown
    ensures !Expected(Text(line + ['\n'] + after))
  {
    var q := Split(after, '\n');
    SplitConcat(line, after, '\n');
    assert Split(line, '\n') == [line];
    UnknownLineRejects([], line, q);
    assert [] + [line] + q == [line] + q;
  }

  /** In a text, an unknown later line rejects, whatever the lines before and after it contain. */
  lemma UnknownLaterLineRejects(before: string, line: string, after: string)
    requires '\n' !in line && Classify(line) == Unknown
    ensures !Expected(Text(before + ['\n'] + line + ['\n'] + after))
  {
    var p, q := Split(before, '\n'), Split(after, '\n');
    assert Split(line, '\n') == [line];
    SplitConcat(before, line, '\n');
    SplitConcat(before + ['\n'] + line, after, '\n');
    UnknownLineRejects(p, line, q);
  }

  /** In a text, an unknown line at any position rejects, the last line included. */
  lemma UnknownTextLine(text: string, i: nat)
    requires i < |Split(text, '\n')| && Classify(Split(text, '\n')[i]) == Unknown
    ensures !Expected(Text(text))
  {
    UnknownAt(Split(text, '\n'), i);
  }

  /** An unknown line at index `i` rejects the lines. */
  lemma UnknownAt(lines: seq<string>, i: nat)
    requires i < |lines| && Classify(lines[i]) == Unknown
    ensures !Accepted(lines)
  {
    assert Kinds(lines)[i] == Unknown;
  }

  /** `COPY a b` alone is rejected. */
  lemma CopyTextRejected(text: string)
    requires text == "COPY a b"
    ensures !Expected(Text(text))
  {
    assert '\n' !in text;
    assert Split(text, '\n') == [text];
    CopyExample(text);
    UnknownTextLine(text, 0);
  }

  /** Reordering the lines of a text never changes the verdict. */
  lemma ReorderTextLines(a: seq<string>, b: seq<string>)
    requires multiset(a) == multiset(b)
    requires forall i :: 0 <= i < |a| ==> '\n' !in a[i]
    ensures Expected(Text(Join(a, '\n'))) == Expected(Text(Join(b, '\n')))
  {
    forall i | 0 <= i < |b| ensures '\n' !in b[i] {
      assert b[i] in multiset(b);
      var j :| 0 <= j < |a| && a[j] == b[i];
    }
    ExpectedOfJoin(a);
    ExpectedOfJoin(b);
    ReorderLines(a, b);
  }

  /** Letter case never changes the verdict on a text. */
  lemma ExpectedIgnoresCase(text: string)
    ensures Expected(Text(ToUpper(text))) == Expected(Text(text))
  {
    SplitToUpper(text);
    AcceptedIgnoresCase(Split(text, '\n'));
  }

  /** FROM need not come first nor CMD last: a CMD line followed by a FROM line is accepted. */
  lemma CmdThenFromAccepted(first: string, second: string)
    requires '\n' !in first && '\n' !in second
    requires Classify(first) == Cmd && Classify(second) == From
    ensures Expected(Text(first + ['\n'] + second))
  {
    SplitConcat(first, second, '\n');
    assert Split(first, '\n') == [first];
    assert Split(second, '\n') == [second];
    assert Kinds([first] + [second]) == [Cmd, From];
  }

  /** `cmd run`, then `from base`, is accepted. */
  lemma CmdBeforeFromExample(text: string)
    requires text == "cmd run\nfrom base"
    ensures Expected(Text(text))
  {
    var first, second := "cmd run", "from base";
    assert text == first + ['\n'] + second;
    assert '\n' !in first && '\n' !in second;
    CmdExample(first);
    FromBaseExample(second);
    CmdThenFromAccepted(first, second);
  }

  /** `from base` is a FROM line. */
  lemma FromBaseExample(line: string)
    requires line == "from base"
    ensures Classify(line) == From
  {
    UnpaddedKind(line);
    assert ToUpper(line) == "FROM BASE";
    FromPrefixKind("FROM BASE");
  }
}
