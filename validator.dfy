/**
 * The Dockerfile validator of index.js: `validate(dockerfile)` walks the lines
 * of the text once, skips blank and comment lines, notes whether a FROM line
 * and a CMD line were seen, rejects at once any line that starts with no known
 * instruction keyword, and finally accepts when both FROM and CMD were seen.
 *
 * `Validate` is that loop; `Expected` is the property it is proved against:
 * every significant line starts with a known keyword, some line starts with
 * FROM and some line starts with CMD. The lemmas below state what follows from
 * `Expected` alone: blank and comment lines never matter, line order never
 * matters, letter case and surrounding whitespace never matter.
 */
module Validator {
  import opened JsStrings

  /** The argument of `validate`: a JavaScript string, or any value of another type. */
  datatype Input = Text(text: string) | NotText

  /** The ten alternatives of `commandsRegex`, in the order the regular expression lists them. */
  const Commands: seq<string> :=
    ["MAINTAINER", "RUN", "EXPOSE", "ENV", "ADD", "ENTRYPOINT", "VOLUME", "USER", "WORKDIR", "ONBUILD"]

  /** What one line contributes to the verdict. */
  datatype LineKind =
    | Skip      // blank, or a `#` comment
    | From      // starts with FROM
    | Cmd       // starts with CMD
    | Command   // starts with one of `Commands`
    | Unknown   // anything else: the whole text is rejected

  /**
   * One alternative of a regular expression with the `i` flag, anchored by `^`:
   * `line` starts with `keyword` when both are compared character by character
   * after case mapping.
   */
  predicate StartsWithIgnoringCase(line: string, keyword: string) {
    |keyword| <= |line| && forall i :: 0 <= i < |keyword| ==> UpperChar(line[i]) == UpperChar(keyword[i])
  }

  /** A case-insensitive prefix test is a plain prefix test on the upper-cased strings. */
  lemma StartsWithIgnoringCaseUpper(line: string, keyword: string)
    ensures StartsWithIgnoringCase(line, keyword) <==> StartsWith(ToUpper(line), ToUpper(keyword))
  {
    var u, k := ToUpper(line), ToUpper(keyword);
    if StartsWith(u, k) {
      forall i | 0 <= i < |keyword| ensures UpperChar(line[i]) == UpperChar(keyword[i]) {
        assert u[..|k|][i] == k[i];
      }
    }
  }

  /**
   * `commandsRegex.test(line)`: the regular expression is anchored by `^` and has
   * the `i` flag, so it holds when one of its ten alternatives is a
   * case-insensitive prefix of the line. Alternation tries them in order, but
   * only whether one of them matches decides the test.
   */
  predicate CommandsRegexTest(line: string) {
    exists k :: 0 <= k < |Commands| && StartsWithIgnoringCase(line, Commands[k])
  }

  /** The regular expression accepts a line exactly when, upper-cased, it starts with one of the ten keywords. */
  lemma CommandsRegexMeans(line: string)
    ensures CommandsRegexTest(line) <==> exists k :: 0 <= k < |Commands| && StartsWith(ToUpper(line), Commands[k])
  {
    forall k | 0 <= k < |Commands|
      ensures StartsWithIgnoringCase(line, Commands[k]) <==> StartsWith(ToUpper(line), Commands[k])
    {
      StartsWithIgnoringCaseUpper(line, Commands[k]);
      CommandUpper(k);
    }
  }

  /** The keywords are written in upper case. */
  lemma CommandUpper(k: nat)
    requires k < |Commands|
    ensures ToUpper(Commands[k]) == Commands[k]
  {
  }

  /** The line as the loop examines it: trimmed, then upper-cased. */
  function Normalize(line: string): (current: string)
    ensures |current| <= |line|
    ensures forall i :: 0 <= i < |current| ==> !('a' <= current[i] <= 'z')
  {
    ToUpper(Trim(line))
  }

  /** The kind of a line that has already been trimmed and upper-cased: the tests of the loop body, in order. */
  function KindOf(current: string): LineKind {
    if current == [] then Skip
    else if current[0] == '#' then Skip
    else if StartsWith(current, "FROM") then From
    else if StartsWith(current, "CMD") then Cmd
    else if CommandsRegexTest(current) then Command
    else Unknown
  }

  /** How the loop classifies one line. */
  function Classify(line: string): LineKind {
    KindOf(Normalize(line))
  }

  /** The kind of every line, in order. */
  function Kinds(lines: seq<string>): (ks: seq<LineKind>)
    ensures |ks| == |lines|
    ensures forall j :: 0 <= j < |lines| ==> ks[j] == Classify(lines[j])
  {
    if lines == [] then [] else [Classify(lines[0])] + Kinds(lines[1..])
  }

  /** The verdict on the kinds of the lines: none is unknown, one is FROM and one is CMD. */
  predicate AcceptedKinds(ks: seq<LineKind>)
    ensures AcceptedKinds(ks) ==> |ks| >= 2
  {
    Unknown !in ks && From in ks && Cmd in ks
  }

  /**
   * The verdict on a sequence of lines: no line is unknown, some line is a FROM
   * line and some line is a CMD line.
   */
  predicate Accepted(lines: seq<string>)
    ensures Accepted(lines) ==> |lines| >= 2
  {
    AcceptedKinds(Kinds(lines))
  }

  /** The verdict `validate` must return: `false` for a non-string, else the verdict on its lines. */
  function Expected(dockerfile: Input): (valid: bool)
    ensures !dockerfile.Text? ==> !valid
  {
    match dockerfile
    case NotText => false
    case Text(text) => Accepted(Split(text, '\n'))
  }

  /** The first `i + 1` kinds are the first `i` kinds and one more. */
  lemma PrefixStep(kinds: seq<LineKind>, i: nat)
    requires i < |kinds|
    ensures kinds[..i + 1] == kinds[..i] + [kinds[i]]
  {
  }

  /**
   * `validate(dockerfile)`: one pass over the lines with two flags and an early
   * rejection of the first line that starts with no known keyword.
   */
  method Validate(dockerfile: Input) returns (valid: bool)
    ensures valid == Expected(dockerfile)
  {
    if !dockerfile.Text? {
      return false;
    }
    var linesArr := Split(dockerfile.text, '\n');
    ghost var kinds := Kinds(linesArr);
    var hasFrom, hasCmd := false, false;
    for i := 0 to |linesArr|
      invariant hasFrom <==> From in kinds[..i]
      invariant hasCmd <==> Cmd in kinds[..i]
      invariant Unknown !in kinds[..i]
    {
      PrefixStep(kinds, i);
      var currentLine := ToUpper(Trim(linesArr[i]));
      ghost var kind := KindOf(currentLine);
      assert kind == kinds[i];
      if currentLine == [] {
        assert kind == Skip;
        continue;
      }
      if currentLine[0] == '#' {
        assert kind == Skip;
        continue;
      }
      if StartsWith(currentLine, "FROM") {
        assert kind == From;
        hasFrom := true;
        continue;
      }
      if StartsWith(currentLine, "CMD") {
        assert kind == Cmd;
        hasCmd := true;
        continue;
      }
      if CommandsRegexTest(currentLine) {
        assert kind == Command;
        continue;
      }
      assert kind == Unknown;
      return false;
    }
    assert kinds[..|linesArr|] == kinds;
    return hasFrom && hasCmd;
  }
}
