# validate-dockerfile, modelled in Dafny

The package exports one function, `validate(dockerfile)` (index.js:6-45). It gives a yes/no
structural verdict on the text of a Dockerfile:

- A value that is not a string is rejected.
- The text is split on line feeds. Each line is trimmed and upper-cased.
- Blank lines and `#` comment lines are skipped.
- A line that starts with `FROM` or `CMD` sets a flag.
- A line that starts with one of the ten keywords of `commandsRegex` (index.js:4) is accepted.
- Any other line rejects the whole text at once.
- At the end the text is accepted exactly when both a FROM line and a CMD line were seen.

The project has three modules:

- `JsStrings` (strings.dfy) models the JavaScript string operations the validator uses.
  - `split('\n')` is `Split`, proved to be the inverse of `Join`.
  - `trim()` is `Trim`, over the whitespace and line-terminator set of ECMAScript.
  - `toUpperCase()` is `ToUpper`.
- `Validator` (validator.dfy) models the validator itself.
  - `Classify` gives the kind of one line exactly as the loop body tests it.
  - `Expected` is the verdict as a function of the input.
  - `Validate` is the loop itself, with its two flags, its `continue`s and its early `return false`.
    It is proved to return `Expected`.
- `ValidatorFacts` (facts.dfy) proves what the verdict means. Each fact follows for `validate`
  through the contract of `Validate`:
  - blank and comment lines never matter;
  - the order of lines never matters;
  - an unknown line always rejects;
  - letter case and surrounding whitespace never matter;
  - keywords are bare prefixes.

The repository's tests describe a richer validator, and this model follows `index.js` instead.
That richer validator would:

- return error objects with a message, a line and a priority;
- check the parameters of each instruction;
- require FROM to be the first instruction;
- report an empty file with its own message.

The `index.js` modelled here does none of these. It returns a plain boolean. For example, it accepts `CMD x` followed by
`FROM y`, and it accepts the lines `RUNNER` and `FROMAGE` as instruction lines.

## Model

| member | source | states |
|---|---|---|
| `Validator.Validate` | index.js:6-45 | returns exactly `Expected(dockerfile)`. The loop invariants tie `hasFrom`, `hasCmd` and "no line so far is unknown" to the kinds of the lines examined so far. |
| `Validator.Expected` | index.js:7-9 | a value that is not a string gets the verdict `false`. |
| `Validator.CommandsRegexTest` | index.js:4 | `commandsRegex.test(line)`: one of the ten alternatives, the constant `Commands` in the order the regular expression lists them, is a case-insensitive prefix of the line. |
| `Validator.StartsWithIgnoringCaseUpper` | index.js:4 | a match under the `i` flag is a plain prefix match of the upper-cased line against the upper-cased keyword. |
| `Validator.CommandsRegexMeans` | index.js:4 | `commandsRegex.test(line)` holds exactly when the upper-cased line starts with one of the ten keywords. |
| `Validator.Normalize` | index.js:15 | the line as the loop examines it, trimmed and then upper-cased: never longer than the line and with no lower-case ASCII letter left. |
| `Validator.KindOf` | index.js:16-41 | the kind the loop body gives a trimmed, upper-cased line, by its five tests in their order: empty or `#` is skipped, then `FROM`, `CMD`, one of the ten keywords, and anything else rejects. |
| `Validator.Classify` | index.js:15-41 | the kind of one raw line: `KindOf` of its `Normalize`d form. |
| `Validator.Kinds` | index.js:14-15 | the kinds of the lines, one per line and in order, each as the loop body classifies that line. |
| `Validator.AcceptedKinds` | index.js:41-44 | the verdict on the kinds of the lines: no kind is unknown, and FROM and CMD both occur, so there are at least two lines. |
| `Validator.Accepted` | index.js:14-44 | the verdict on a sequence of lines, which needs at least two lines. |
| `JsStrings.StartsWith` | index.js:26 | `currentLine.indexOf(prefix) === 0`: the string begins with the prefix. |
| `JsStrings.Trim` | index.js:15 | `trim()`: never longer than its argument. `TrimShape` gives the full characterisation. |
| `JsStrings.Split` | index.js:10 | there is at least one piece, no piece contains the separator, and joining the pieces with the separator gives back the text. |
| `JsStrings.SplitJoin` | index.js:10 | splitting a join of separator-free pieces gives back exactly those pieces, so `Split` is the only such decomposition. |
| `JsStrings.SplitConcat` | index.js:10 | splitting `x`, a line feed and `y` gives the lines of `x` followed by the lines of `y`. |
| `JsStrings.FirstIndex` | index.js:10 | the index of the first occurrence of the separator. |
| `JsStrings.LeadingFrom` | index.js:15 | the run of whitespace starting at an index ends at the end of the text or at a character that is not whitespace. |
| `JsStrings.TrailingBefore` | index.js:15 | the run of whitespace ending before an index starts at the start of the text or just after a character that is not whitespace. |
| `JsStrings.TrimShape` | index.js:15 | `trim` returns an infix that has only whitespace before and after it and that neither starts nor ends with whitespace. It is empty exactly when the line is all whitespace. |
| `JsStrings.TrimPadded` | index.js:15 | whitespace added on either side of a string does not change what `trim` returns. |
| `JsStrings.TrimUnpadded` | index.js:15 | a string that neither starts nor ends with whitespace is its own trim. |
| `JsStrings.UpperChar` | index.js:15 | `a` to `z` map to `A` to `Z`, every other character is unchanged, and the result is never a lower-case ASCII letter. |
| `JsStrings.ToUpper` | index.js:15 | the result has the same length as the input, and each character is upper-cased. |
| `JsStrings.TrimToUpper` | index.js:15 | trimming and upper-casing commute. |
| `JsStrings.SplitToUpper` | index.js:10-15 | upper-casing a text upper-cases each of its lines and moves no line break. |
| `JsStrings.JoinAppend` | index.js:10 | joining two non-empty runs of pieces puts one separator between the two joins. |
| `ValidatorFacts.ClassifySkip` | index.js:16-24 | a line is skipped exactly when it is all whitespace or its first non-whitespace character is `#`. |
| `ValidatorFacts.ClassifyFrom` | index.js:26-29 | a line is a FROM line exactly when, trimmed and upper-cased, it starts with `FROM`. |
| `ValidatorFacts.ClassifyCmd` | index.js:31-34 | a line is a CMD line exactly when, trimmed and upper-cased, it starts with `CMD`. |
| `ValidatorFacts.ClassifyIgnoresCase` | index.js:15 | two lines that are equal up to letter case have the same kind. |
| `ValidatorFacts.ClassifyPadded` | index.js:15 | whitespace around a line, such as the `\r` of a CRLF line end, does not change its kind. |
| `ValidatorFacts.UnpaddedKind` | index.js:15 | a line with no surrounding whitespace is examined upper-cased and otherwise unchanged. |
| `ValidatorFacts.FromPrefixKind` | index.js:26-29 | any line that starts with `FROM` is a FROM line, whatever follows the keyword. |
| `ValidatorFacts.CmdPrefixKind` | index.js:31-34 | any line that starts with `CMD` is a CMD line, whatever follows the keyword. |
| `ValidatorFacts.CommandPrefixKind` | index.js:4 | any line whose upper-cased form starts with one of the ten keywords, so the keyword in any letter case, is accepted, whatever follows. |
| `ValidatorFacts.FromLowerCaseExample` | index.js:15 | `from x` is a FROM line. |
| `ValidatorFacts.FromageExample` | index.js:26 | `FROMAGE` is a FROM line. |
| `ValidatorFacts.RunnerExample` | index.js:36 | `RUNNER` is an accepted instruction line. |
| `ValidatorFacts.PaddedCmdExample` | index.js:15 | ` \tcmd run\r` is a CMD line. |
| `ValidatorFacts.CmdExample` | index.js:31 | `cmd run` is a CMD line. |
| `ValidatorFacts.FromBaseExample` | index.js:26 | `from base` is a FROM line. |
| `ValidatorFacts.CopyExample` | index.js:36-41 | `COPY a b` is an unknown line. |
| `ValidatorFacts.CopyKind` | index.js:36-41 | `COPY A B` starts with no keyword and is unknown. |
| `ValidatorFacts.KindsConcat` | index.js:14 | the kinds of two runs of lines, one after the other, are the two runs of kinds one after the other. |
| `ValidatorFacts.AcceptedMeans` | index.js:26-44 | the verdict on lines is true exactly when no line is unknown, some line is a FROM line and some line is a CMD line. |
| `ValidatorFacts.KindPresent` | index.js:11-12 | a kind occurs among the kinds of the lines exactly when some line has that kind. |
| `ValidatorFacts.SameLinesSameVerdict` | index.js:11-12 | two runs of lines with the same set of distinct lines get the same verdict. |
| `ValidatorFacts.KindsSubset` | index.js:14-15 | when every line of one run also occurs in another, every kind of the first also occurs in the second. |
| `ValidatorFacts.ReorderLines` | index.js:26-44 | reordering the lines never changes the verdict. |
| `ValidatorFacts.SkippedLineIrrelevant` | index.js:16-24 | inserting or deleting a blank or comment line never changes the verdict. |
| `ValidatorFacts.SkipKindIrrelevant` | index.js:16-24 | a skipped kind never changes the verdict on kinds. |
| `ValidatorFacts.OnlySkippedRejected` | index.js:44 | lines that are all blank or comments are rejected. |
| `ValidatorFacts.UnknownLineRejects` | index.js:36-41 | a line with no known keyword rejects, whatever lines come before or after it. |
| `ValidatorFacts.CrlfLines` | index.js:10-15 | a `\r` at the end of every line, as with CRLF line ends, never changes the verdict. |
| `ValidatorFacts.AcceptedIgnoresCase` | index.js:15 | upper-casing every line never changes the verdict. |
| `ValidatorFacts.ExpectedOfJoin` | index.js:10 | the verdict on the text made of some lines joined by line feeds is the verdict on those lines, even when there are none. |
| `ValidatorFacts.EmptyTextRejected` | index.js:10-24 | the empty text is rejected: it consists of one blank line. |
| `ValidatorFacts.OnlySkippedTextRejected` | index.js:10-24 | a text of blank and comment lines only is rejected. |
| `ValidatorFacts.SkippedTextLineIrrelevant` | index.js:16-24 | in a text, a blank or comment line can be inserted or deleted without changing the verdict. |
| `ValidatorFacts.UnknownFirstLineRejects` | index.js:36-41 | a text whose first line is unknown and followed by a line feed is rejected, whatever comes after. |
| `ValidatorFacts.UnknownLaterLineRejects` | index.js:36-41 | a text with an unknown line between two line feeds is rejected, whatever comes before or after it. |
| `ValidatorFacts.UnknownTextLine` | index.js:36-41 | a text with an unknown line at any position is rejected. This includes a single line, and a last line with no line feed after it. |
| `ValidatorFacts.UnknownAt` | index.js:36-41 | lines with an unknown line at any index are rejected. |
| `ValidatorFacts.CopyTextRejected` | index.js:36-41 | the one-line text `COPY a b` is rejected. |
| `ValidatorFacts.ReorderTextLines` | index.js:26-44 | reordering the lines of a text never changes the verdict. |
| `ValidatorFacts.ExpectedIgnoresCase` | index.js:15 | upper-casing the whole text never changes the verdict. |
| `ValidatorFacts.CmdThenFromAccepted` | index.js:26-34 | a CMD line followed by a FROM line is accepted, so FROM need not come first and CMD need not come last. |
| `ValidatorFacts.CmdBeforeFromExample` | index.js:26-34 | the text `cmd run`, a line feed, `from base` is accepted. |

## Left out

- The test suite, the `bin/docklint` command-line tool and its file reading, exit codes and output are I/O and are not part of this model.
- The richer results the tests expect are not implemented by `index.js`, so they are not modelled. These are error objects, parameter grammars, a FROM-first rule and an "Empty dockerfile" message.
- JavaScript's dynamic `typeof` check is modelled by the `Input` datatype: a string, or a value of any other type.
- `ToUpper` applies the ASCII case mapping only. Full Unicode upper-casing also maps other letters, such as `ß` to `SS` (which changes the length) or `ſ` to `S`. So a line whose non-ASCII letters upper-case to a keyword is classified differently here.
- `Trim` removes the ECMAScript WhiteSpace and LineTerminator code points as of current Unicode. JavaScript strings are sequences of UTF-16 code units, while Dafny strings here are sequences of Unicode scalar values. Surrogate pairs are not modelled.
- `commandsRegex.test` is modelled as a case-insensitive prefix test against the ten alternatives (`CommandsRegexTest`). The JavaScript regular-expression engine is not modelled. Its case-insensitive canonicalisation agrees with `UpperChar` on ASCII.
