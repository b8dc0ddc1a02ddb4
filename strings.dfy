/**
 * The three JavaScript string operations the validator relies on:
 * `String.prototype.split` with a one-character separator, `trim` and
 * `toUpperCase`. Each is a function whose contract characterises its result
 * completely, so the validator's proofs never need to look at the bodies.
 */
module JsStrings {

  /** ECMAScript WhiteSpace and LineTerminator code points: what `trim` removes. */
  predicate IsWhitespace(c: char) {
    || c == '\t' || c == '\n' || c == '\U{000B}' || c == '\U{000C}' || c == '\r'
    || c == ' ' || c == '\U{00A0}' || c == '\U{1680}'
    || ('\U{2000}' <= c <= '\U{200A}')
    || c == '\U{2028}' || c == '\U{2029}' || c == '\U{202F}' || c == '\U{205F}'
    || c == '\U{3000}' || c == '\U{FEFF}'
  }

  predicate AllWhitespace(s: string) {
    forall i :: 0 <= i < |s| ==> IsWhitespace(s[i])
  }

  /** Whether `s[lo..hi]` consists of whitespace only, stated on the indices of `s`. */
  predicate WhitespaceBetween(s: string, lo: int, hi: int) {
    forall i :: lo <= i < hi && 0 <= i < |s| ==> IsWhitespace(s[i])
  }

  predicate StartsWith(s: string, prefix: string) {
    |prefix| <= |s| && s[..|prefix|] == prefix
  }

  /** The length of the run of whitespace in `s` that starts at index `i`. */
  function LeadingFrom(s: string, i: nat): (n: nat)
    requires i <= |s|
    ensures i + n <= |s| && WhitespaceBetween(s, i, i + n)
    ensures i + n < |s| ==> !IsWhitespace(s[i + n])
    decreases |s| - i
  {
    if i < |s| && IsWhitespace(s[i]) then LeadingFrom(s, i + 1) + 1 else 0
  }

  /** The length of the run of whitespace in `s` that ends just before index `j`. */
  function TrailingBefore(s: string, j: nat): (n: nat)
    requires j <= |s|
    ensures n <= j && WhitespaceBetween(s, j - n, j)
    ensures n < j ==> !IsWhitespace(s[j - 1 - n])
  {
    if 0 < j && IsWhitespace(s[j - 1]) then TrailingBefore(s, j - 1) + 1 else 0
  }

  /** The number of whitespace characters at the start of `s`. */
  function Leading(s: string): (n: nat)
    ensures n <= |s| && WhitespaceBetween(s, 0, n)
    ensures n < |s| ==> !IsWhitespace(s[n])
  {
    LeadingFrom(s, 0)
  }

  /** The number of whitespace characters at the end of `s`. */
  function Trailing(s: string): (n: nat)
    ensures n <= |s| && WhitespaceBetween(s, |s| - n, |s|)
    ensures n < |s| ==> !IsWhitespace(s[|s| - 1 - n])
  {
    TrailingBefore(s, |s|)
  }

  /** `Leading` is the only count with its two properties. */
  lemma LeadingUnique(s: string, n: nat)
    requires n <= |s| && WhitespaceBetween(s, 0, n)
    requires n < |s| ==> !IsWhitespace(s[n])
    ensures Leading(s) == n
  {
  }

  /** `Trailing` is the only count with its two properties. */
  lemma TrailingUnique(s: string, n: nat)
    requires n <= |s| && WhitespaceBetween(s, |s| - n, |s|)
    requires n < |s| ==> !IsWhitespace(s[|s| - 1 - n])
    ensures Trailing(s) == n
  {
  }

  /** In a string that is not all whitespace, the leading and trailing whitespace do not overlap. */
  lemma LeadingBeforeTrailing(s: string)
    requires Leading(s) < |s|
    ensures Leading(s) < |s| - Trailing(s)
  {
    assert !IsWhitespace(s[Leading(s)]);
  }

  /** `String.prototype.trim`: `s` without its leading and trailing whitespace. */
  function Trim(s: string): (r: string)
    ensures |r| <= |s|
  {
    var a := Leading(s);
    if a == |s| then ""
    else
      var b := Trailing(s);
      LeadingBeforeTrailing(s);
      s[a..|s| - b]
  }

  /**
   * What `trim` returns: the infix of `s` that starts after its `Leading(s)`
   * whitespace characters and has only whitespace after it; it neither starts
   * nor ends with whitespace, and it is empty exactly when `s` is all whitespace.
   */
  lemma TrimShape(s: string)
    ensures Leading(s) + |Trim(s)| <= |s| && Trim(s) == s[Leading(s)..Leading(s) + |Trim(s)|]
    ensures WhitespaceBetween(s, Leading(s) + |Trim(s)|, |s|)
    ensures Trim(s) == [] || (!IsWhitespace(Trim(s)[0]) && !IsWhitespace(Trim(s)[|Trim(s)| - 1]))
    ensures Trim(s) == [] <==> AllWhitespace(s)
  {
    var r := Trim(s);
    if Leading(s) < |s| {
      LeadingBeforeTrailing(s);
      assert r[0] == s[Leading(s)];
      assert r[|r| - 1] == s[|s| - 1 - Trailing(s)];
      assert !AllWhitespace(s) by { assert !IsWhitespace(s[Leading(s)]); }
    }
  }

  lemma TrimBetween(s: string)
    requires Leading(s) < |s|
    ensures Trim(s) == s[Leading(s)..|s| - Trailing(s)]
  {
  }

  /** A string that neither starts nor ends with whitespace is its own trim. */
  lemma TrimUnpadded(s: string)
    requires s != [] && !IsWhitespace(s[0]) && !IsWhitespace(s[|s| - 1])
    ensures Trim(s) == s
  {
    LeadingUnique(s, 0);
    TrailingUnique(s, 0);
    TrimBetween(s);
  }

  /** ASCII case mapping: `a`..`z` to `A`..`Z`, every other character unchanged. */
  function UpperChar(c: char): (u: char)
    ensures 'a' <= c <= 'z' ==> u as int == c as int - 32
    ensures !('a' <= c <= 'z') ==> u == c
    ensures !('a' <= u <= 'z')
  {
    if 'a' <= c <= 'z' then (c as int - 32) as char else c
  }

  /** `String.prototype.toUpperCase`, restricted to the ASCII case mapping. */
  function ToUpper(s: string): (r: string)
    ensures |r| == |s| && forall i :: 0 <= i < |s| ==> r[i] == UpperChar(s[i])
  {
    seq(|s|, i requires 0 <= i < |s| => UpperChar(s[i]))
  }

  /** The index of the first occurrence of `sep` in `s`, which must contain it. */
  function FirstIndex(s: string, sep: char): (k: nat)
    requires sep in s
    ensures k < |s| && s[k] == sep && sep !in s[..k]
  {
    if s[0] == sep then 0 else FirstIndex(s[1..], sep) + 1
  }

  /** Concatenation of the pieces with `sep` between neighbours (`Array.prototype.join`). */
  function Join(pieces: seq<string>, sep: char): string {
    if pieces == [] then ""
    else if |pieces| == 1 then pieces[0]
    else pieces[0] + [sep] + Join(pieces[1..], sep)
  }

  /**
   * `String.prototype.split` with a single-character separator: the pieces between
   * occurrences of `sep`. There is always at least one piece, so `""` splits into `[""]`.
   */
  function Split(s: string, sep: char): (r: seq<string>)
    ensures |r| >= 1
    ensures forall i :: 0 <= i < |r| ==> sep !in r[i]
    ensures Join(r, sep) == s
    decreases |s|
  {
    if sep !in s then [s]
    else
      var k := FirstIndex(s, sep);
      var rest := Split(s[k + 1..], sep);
      assert s == s[..k] + [sep] + s[k + 1..];
      [s[..k]] + rest
  }

  /** Splitting undoes joining: `Split` is the only separator-free decomposition of its input. */
  lemma {:induction false} SplitJoin(pieces: seq<string>, sep: char)
    requires |pieces| >= 1
    requires forall i :: 0 <= i < |pieces| ==> sep !in pieces[i]
    ensures Split(Join(pieces, sep), sep) == pieces
    decreases |pieces|
  {
    if |pieces| == 1 {
    } else {
      var s := Join(pieces, sep);
      var tail := Join(pieces[1..], sep);
      assert s == pieces[0] + [sep] + tail;
      assert sep in s by { assert s[|pieces[0]|] == sep; }
      var k := FirstIndex(s, sep);
      assert s[..|pieces[0]|] == pieces[0];
      assert s[|pieces[0]|] == sep;
      assert k == |pieces[0]|;
      assert s[..k] == pieces[0];
      assert s[k + 1..] == tail;
      SplitJoin(pieces[1..], sep);
      assert Split(s, sep) == [pieces[0]] + pieces[1..];
    }
  }

  lemma UpperWhitespace(c: char)
    ensures IsWhitespace(UpperChar(c)) == IsWhitespace(c)
  {
  }

  /** Upper-casing leaves whitespace alone, so it commutes with trimming. */
  lemma TrimToUpper(s: string)
    ensures Trim(ToUpper(s)) == ToUpper(Trim(s))
  {
    UpperCounts(s);
    if Leading(s) < |s| {
      LeadingBeforeTrailing(s);
      TrimBetween(s);
      TrimBetween(ToUpper(s));
      ToUpperSlice(s, Leading(s), |s| - Trailing(s));
    }
  }


  lemma UpperCounts(s: string)
    ensures Leading(ToUpper(s)) == Leading(s) && Trailing(ToUpper(s)) == Trailing(s)
  {
    var u := ToUpper(s);
    forall i | 0 <= i < |s| ensures IsWhitespace(u[i]) == IsWhitespace(s[i]) {
      UpperWhitespace(s[i]);
    }
    LeadingUnique(u, Leading(s));
    TrailingUnique(u, Trailing(s));
  }

  lemma ToUpperSlice(s: string, lo: nat, hi: nat)
    requires lo <= hi <= |s|
    ensures ToUpper(s)[lo..hi] == ToUpper(s[lo..hi])
  {
  }

  /** Whitespace padding on either side never changes what `trim` returns. */
  lemma TrimPadded(before: string, s: string, after: string)
    requires AllWhitespace(before) && AllWhitespace(after)
    ensures Trim(before + s + after) == Trim(s)
  {
    if Leading(s) == |s| {
      assert AllWhitespace(s);
      AllWhitespaceConcat(before, s, after);
    } else {
      var x := before + s + after;
      var a, b := Leading(s), Trailing(s);
      LeadingBeforeTrailing(s);
      PaddedCounts(before, s, after);
      TrimBetween(x);
      TrimBetween(s);
      SliceOfInfix(before, s, after, a, |s| - b);
    }
  }

  lemma AllWhitespaceConcat(before: string, s: string, after: string)
    requires AllWhitespace(before) && AllWhitespace(s) && AllWhitespace(after)
    ensures AllWhitespace(before + s + after)
  {
    var x := before + s + after;
    forall i | 0 <= i < |x| ensures IsWhitespace(x[i]) {
      if i < |before| {
        assert x[i] == before[i];
      } else if i < |before| + |s| {
        assert x[i] == s[i - |before|];
      } else {
        assert x[i] == after[i - |before| - |s|];
      }
    }
  }

  lemma SliceOfInfix(before: string, s: string, after: string, lo: nat, hi: nat)
    requires lo <= hi <= |s|
    ensures (before + s + after)[|before| + lo..|before| + hi] == s[lo..hi]
  {
    var x := before + s + after;
    assert forall i :: lo <= i < hi ==> x[|before| + i] == s[i];
  }

  /** Around a string that is not all whitespace, padding adds to the leading and trailing counts. */
  lemma PaddedCounts(before: string, s: string, after: string)
    requires AllWhitespace(before) && AllWhitespace(after)
    requires Leading(s) < |s|
    ensures Leading(before + s + after) == |before| + Leading(s)
    ensures Trailing(before + s + after) == Trailing(s) + |after|
  {
    var x := before + s + after;
    var a, b := Leading(s), Trailing(s);
    LeadingBeforeTrailing(s);
    assert forall i :: 0 <= i < |before| ==> x[i] == before[i];
    assert forall i :: 0 <= i < |s| ==> x[|before| + i] == s[i];
    assert forall i :: 0 <= i < |after| ==> x[|before| + |s| + i] == after[i];
    assert WhitespaceBetween(x, 0, |before| + a) by {
      forall i | 0 <= i < |before| + a ensures IsWhitespace(x[i]) {
        if i >= |before| { assert x[i] == s[i - |before|]; }
      }
    }
    assert x[|before| + a] == s[a];
    LeadingUnique(x, |before| + a);
    assert WhitespaceBetween(x, |x| - (b + |after|), |x|) by {
      forall i | |x| - (b + |after|) <= i < |x| ensures IsWhitespace(x[i]) {
        if i < |before| + |s| { assert x[i] == s[i - |before|]; }
        else { assert x[i] == after[i - |before| - |s|]; }
      }
    }
    assert x[|x| - 1 - (b + |after|)] == s[|s| - 1 - b];
    TrailingUnique(x, b + |after|);
  }

  lemma ToUpperIdempotent(s: string)
    ensures ToUpper(ToUpper(s)) == ToUpper(s)
  {
  }

  /** Joining two non-empty runs of pieces puts one separator between the two joins. */
  lemma {:induction false} JoinAppend(a: seq<string>, b: seq<string>, sep: char)
    requires |a| >= 1 && |b| >= 1
    ensures Join(a + b, sep) == Join(a, sep) + [sep] + Join(b, sep)
    decreases |a|
  {
    if |a| == 1 {
      assert (a + b)[1..] == b;
    } else {
      assert (a + b)[1..] == a[1..] + b;
      JoinAppend(a[1..], b, sep);
    }
  }

  /** Splitting `x`, a separator and `y` gives the pieces of `x` followed by the pieces of `y`. */
  lemma SplitConcat(x: string, y: string, sep: char)
    ensures Split(x + [sep] + y, sep) == Split(x, sep) + Split(y, sep)
  {
    var p, q := Split(x, sep), Split(y, sep);
    JoinAppend(p, q, sep);
    SplitJoin(p + q, sep);
  }

  /** Each piece upper-cased. */
  function UpperAll(pieces: seq<string>): (r: seq<string>)
    ensures |r| == |pieces| && forall i :: 0 <= i < |pieces| ==> r[i] == ToUpper(pieces[i])
  {
    seq(|pieces|, i requires 0 <= i < |pieces| => ToUpper(pieces[i]))
  }

  /** Upper-casing leaves a line feed alone, so it commutes with joining on line feeds. */
  lemma {:induction false} JoinToUpper(pieces: seq<string>)
    ensures Join(UpperAll(pieces), '\n') == ToUpper(Join(pieces, '\n'))
    decreases |pieces|
  {
    if |pieces| > 1 {
      JoinToUpper(pieces[1..]);
      assert UpperAll(pieces)[1..] == UpperAll(pieces[1..]);
      var tail := Join(pieces[1..], '\n');
      assert ToUpper(pieces[0] + ['\n'] + tail) == ToUpper(pieces[0]) + ['\n'] + ToUpper(tail);
    }
  }

  /** Upper-casing a text upper-cases each of its lines and keeps the line breaks where they were. */
  lemma SplitToUpper(s: string)
    ensures Split(ToUpper(s), '\n') == UpperAll(Split(s, '\n'))
  {
    var pieces := Split(s, '\n');
    var up := UpperAll(pieces);
    forall i | 0 <= i < |up| ensures '\n' !in up[i] {
      forall j | 0 <= j < |up[i]| ensures up[i][j] != '\n' {
        assert pieces[i][j] != '\n';
      }
    }
    JoinToUpper(pieces);
    SplitJoin(up, '\n');
  }
}
