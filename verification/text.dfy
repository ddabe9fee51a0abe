/**
 * The string handling both assemblers rely on, written out as sequence
 * functions: the whitespace classes of JavaScript and Python, trimming,
 * splitting on the pattern `[,\s]+`, the `name:` label prefix pattern, ASCII
 * upper-casing, and numeral parsing and rendering.
 */
module Text {
  import opened Wrappers

  /** JavaScript WhiteSpace or LineTerminator: what `trim`, `\s` and `parseInt` treat as space. */
  predicate IsJsSpace(c: char) {
    var n := c as int;
    (9 <= n <= 13) || n == 32 || n == 0xA0 || n == 0x1680 || (0x2000 <= n <= 0x200A)
    || n == 0x2028 || n == 0x2029 || n == 0x202F || n == 0x205F || n == 0x3000 || n == 0xFEFF
  }

  /** JavaScript LineTerminator: the characters a regular-expression `.` does not match. */
  predicate IsJsLineTerminator(c: char) {
    var n := c as int;
    n == 10 || n == 13 || n == 0x2028 || n == 0x2029
  }

  /** Python `str.isspace`: what `strip()` removes and `\s` matches. */
  predicate IsPySpace(c: char) {
    var n := c as int;
    (9 <= n <= 13) || (0x1C <= n <= 0x1F) || n == 32 || n == 0x85 || n == 0xA0 || n == 0x1680
    || (0x2000 <= n <= 0x200A) || n == 0x2028 || n == 0x2029 || n == 0x202F || n == 0x205F
    || n == 0x3000
  }

  /** Python's regular-expression `.` matches everything but a newline. */
  predicate IsPyLineTerminator(c: char) {
    c == '\n'
  }

  /** `\w`, restricted to ASCII. */
  predicate IsWordChar(c: char) {
    ('a' <= c <= 'z') || ('A' <= c <= 'Z') || ('0' <= c <= '9') || c == '_'
  }

  predicate IsDigit(c: char) {
    '0' <= c <= '9'
  }

  predicate AllDigits(s: string) {
    forall i :: 0 <= i < |s| ==> IsDigit(s[i])
  }

  predicate StartsWith(s: string, prefix: string) {
    |prefix| <= |s| && s[..|prefix|] == prefix
  }

  /** The length of the longest prefix whose characters all satisfy `drop`. */
  function LeadingRun(s: string, drop: char -> bool): (n: nat)
    ensures n <= |s|
    ensures forall i :: 0 <= i < n ==> drop(s[i])
    ensures n < |s| ==> !drop(s[n])
  {
    if s != [] && drop(s[0]) then 1 + LeadingRun(s[1..], drop) else 0
  }

  /** Drops the leading characters satisfying `drop`. */
  function TrimStart(s: string, drop: char -> bool): (r: string)
    ensures |r| <= |s| && r == s[|s| - |r|..]
    ensures forall i :: 0 <= i < |s| - |r| ==> drop(s[i])
    ensures r != [] ==> !drop(r[0])
  {
    s[LeadingRun(s, drop)..]
  }

  /** Drops the trailing characters satisfying `drop`. */
  function TrimEnd(s: string, drop: char -> bool): (r: string)
    ensures |r| <= |s| && r == s[..|r|]
    ensures forall i :: |r| <= i < |s| ==> drop(s[i])
    ensures r != [] ==> !drop(r[|r| - 1])
  {
    if s != [] && drop(s[|s| - 1]) then TrimEnd(s[..|s| - 1], drop) else s
  }

  /** JavaScript `String.prototype.trim`. */
  function JsTrim(s: string): string {
    TrimEnd(TrimStart(s, IsJsSpace), IsJsSpace)
  }

  /** Python `str.strip()` with no argument. */
  function PyStrip(s: string): string {
    TrimEnd(TrimStart(s, IsPySpace), IsPySpace)
  }

  /** Everything before the first `;`, i.e. `s.split(";")[0]` in both languages. */
  function BeforeSemicolon(s: string): (r: string)
    ensures StartsWith(s, r) && ';' !in r
    ensures |r| < |s| ==> s[|r|] == ';'
  {
    if s == [] || s[0] == ';' then [] else [s[0]] + BeforeSemicolon(s[1..])
  }

  /** The longest prefix without a line terminator: what a greedy `(.*)` captures. */
  function RestOfLine(s: string, terminator: char -> bool): (r: string)
    ensures StartsWith(s, r)
    ensures forall i :: 0 <= i < |r| ==> !terminator(r[i])
    ensures |r| < |s| ==> terminator(s[|r|])
  {
    if s == [] || terminator(s[0]) then [] else [s[0]] + RestOfLine(s[1..], terminator)
  }

  /** The length of the longest prefix of word characters. */
  function WordPrefixLength(s: string): (n: nat)
    ensures n <= |s|
    ensures forall i :: 0 <= i < n ==> IsWordChar(s[i])
    ensures n < |s| ==> !IsWordChar(s[n])
  {
    if s != [] && IsWordChar(s[0]) then 1 + WordPrefixLength(s[1..]) else 0
  }

  /**
   * The pattern `^(\w+):\s*(.*)`: a run of word characters and a colon; the
   * result is the label and the text after the colon, with the following space
   * skipped and the text cut at the first line terminator.
   */
  function MatchLabelPrefix(s: string, space: char -> bool, terminator: char -> bool): (r: Option<(string, string)>)
    ensures r.Some? ==> |r.value.0| > 0 && StartsWith(s, r.value.0 + ":")
    ensures r.Some? ==> |r.value.1| < |s| - |r.value.0|
  {
    var n := WordPrefixLength(s);
    if n == 0 || n == |s| || s[n] != ':' then None
    else Some((s[..n], RestOfLine(TrimStart(s[n + 1..], space), terminator)))
  }

  /**
   * What MatchLabelPrefix captures: a match exactly when the word run at the
   * start is non-empty and followed by ':'; the label is that whole run, and
   * the rest is the line after the colon and its leading spaces, up to the
   * first terminator.
   */
  lemma MatchLabelPrefixCaptures(s: string, space: char -> bool, terminator: char -> bool)
    ensures var r := MatchLabelPrefix(s, space, terminator);
      r.None? <==> (WordPrefixLength(s) == 0 || WordPrefixLength(s) == |s| || s[WordPrefixLength(s)] != ':')
    ensures var r := MatchLabelPrefix(s, space, terminator);
      r.Some? ==> |r.value.0| == WordPrefixLength(s) && forall i :: 0 <= i < |r.value.0| ==> IsWordChar(r.value.0[i])
    ensures var r := MatchLabelPrefix(s, space, terminator);
      r.Some? ==> var after := TrimStart(s[|r.value.0| + 1..], space);
        StartsWith(after, r.value.1) && (forall i :: 0 <= i < |r.value.1| ==> !terminator(r.value.1[i]))
        && (|r.value.1| < |after| ==> terminator(after[|r.value.1|]))
  {
  }

  /** A field separator of `[,\s]+`. */
  predicate IsSeparator(c: char, space: char -> bool) {
    c == ',' || space(c)
  }

  /** The characters of `s` that are not separators, in order. */
  function WithoutSeparators(s: string, space: char -> bool): (r: string)
    ensures |r| <= |s|
  {
    if s == [] then []
    else (if IsSeparator(s[0], space) then [] else [s[0]]) + WithoutSeparators(s[1..], space)
  }

  function Concat(fields: seq<string>): string {
    if fields == [] then [] else fields[0] + Concat(fields[1..])
  }

  /** Drops a leading run of separators. */
  function DropSeparators(s: string, space: char -> bool): (r: string)
    ensures |r| <= |s| && r == s[|s| - |r|..]
    ensures forall i :: 0 <= i < |s| - |r| ==> IsSeparator(s[i], space)
    ensures r != [] ==> !IsSeparator(r[0], space)
  {
    if s != [] && IsSeparator(s[0], space) then DropSeparators(s[1..], space) else s
  }

  /**
   * `s.split(/[,\s]+/)` in JavaScript and `re.split(r"[,\s]+", s)` in Python:
   * the text between maximal runs of separators, with an empty first field when
   * `s` starts with a separator and an empty last field when it ends with one.
   */
  function SplitFields(s: string, space: char -> bool): (fields: seq<string>)
    ensures |fields| >= 1
    ensures forall k, i :: 0 <= k < |fields| && 0 <= i < |fields[k]| ==> !IsSeparator(fields[k][i], space)
    ensures s == [] ==> fields == [[]]
    ensures s != [] && !IsSeparator(s[0], space) ==> fields[0] != [] && fields[0][0] == s[0]
    ensures s != [] && IsSeparator(s[0], space) ==> fields[0] == []
    decreases |s|
  {
    if s == [] then [[]]
    else if IsSeparator(s[0], space) then [[]] + SplitFields(DropSeparators(s, space), space)
    else
      var rest := SplitFields(s[1..], space);
      [[s[0]] + rest[0]] + rest[1..]
  }

  lemma ConcatCons(f: string, rest: seq<string>)
    ensures Concat([f] + rest) == f + Concat(rest)
  {
    assert ([f] + rest)[1..] == rest;
  }

  /** No character is lost or invented by splitting: the fields concatenate to the non-separator characters. */
  lemma {:induction false} SplitFieldsKeepsText(s: string, space: char -> bool)
    ensures Concat(SplitFields(s, space)) == WithoutSeparators(s, space)
    decreases |s|
  {
    if s == [] {
    } else if IsSeparator(s[0], space) {
      SplitFieldsKeepsText(DropSeparators(s, space), space);
      LeadingSeparatorsVanish(s, space);
    } else {
      SplitFieldsKeepsText(s[1..], space);
      LeadingCharacterKept(s, space);
    }
  }

  /** The step of SplitFieldsKeepsText for a line that starts with a separator. */
  lemma LeadingSeparatorsVanish(s: string, space: char -> bool)
    requires s != [] && IsSeparator(s[0], space)
    requires Concat(SplitFields(DropSeparators(s, space), space)) == WithoutSeparators(DropSeparators(s, space), space)
    ensures Concat(SplitFields(s, space)) == WithoutSeparators(s, space)
  {
    var t := DropSeparators(s, space);
    SeparatorRunVanishes(s, t, space);
    ConcatCons([], SplitFields(t, space));
  }

  /** The step of SplitFieldsKeepsText for a line that starts with a field character. */
  lemma LeadingCharacterKept(s: string, space: char -> bool)
    requires s != [] && !IsSeparator(s[0], space)
    requires Concat(SplitFields(s[1..], space)) == WithoutSeparators(s[1..], space)
    ensures Concat(SplitFields(s, space)) == WithoutSeparators(s, space)
  {
    var rest := SplitFields(s[1..], space);
    var first, others := rest[0], rest[1..];
    assert SplitFields(s, space) == [[s[0]] + first] + others;
    ConcatCons([s[0]] + first, others);
    assert rest == [first] + others;
    ConcatCons(first, others);
    PrependAssociates(s[0], first, Concat(others));
  }

  lemma PrependAssociates(c: char, a: string, b: string)
    ensures ([c] + a) + b == [c] + (a + b)
  {
  }

  lemma {:induction false} SeparatorRunVanishes(s: string, t: string, space: char -> bool)
    requires |t| <= |s| && t == s[|s| - |t|..]
    requires forall i :: 0 <= i < |s| - |t| ==> IsSeparator(s[i], space)
    ensures WithoutSeparators(s, space) == WithoutSeparators(t, space)
    decreases |s|
  {
    if |s| != |t| {
      assert s[1..][|s| - 1 - |t|..] == t;
      SeparatorRunVanishes(s[1..], t, space);
    } else {
      assert s == t;
    }
  }

  /** A field: no separator in it. */
  predicate NoSeparator(f: string, space: char -> bool) {
    forall i :: 0 <= i < |f| ==> !IsSeparator(f[i], space)
  }

  /** A non-empty run of separators. */
  predicate SeparatorRun(sep: string, space: char -> bool) {
    sep != [] && forall i :: 0 <= i < |sep| ==> IsSeparator(sep[i], space)
  }

  /** fields[0] + seps[0] + fields[1] + ... + seps[n - 1] + fields[n]. */
  function Interleave(fields: seq<string>, seps: seq<string>): (s: string)
    requires |fields| == |seps| + 1
    ensures StartsWith(s, fields[0])
    decreases |seps|
  {
    if seps == [] then fields[0] else fields[0] + (seps[0] + Interleave(fields[1..], seps[1..]))
  }

  /**
   * Fields that a split gives back: none holds a separator, they are joined
   * by non-empty separator runs, and only the first and the last may be empty.
   */
  predicate Splittable(fields: seq<string>, seps: seq<string>, space: char -> bool) {
    |fields| == |seps| + 1
    && (forall k :: 0 <= k < |fields| ==> NoSeparator(fields[k], space))
    && (forall k :: 0 <= k < |seps| ==> SeparatorRun(seps[k], space))
    && (forall k :: 0 < k < |fields| - 1 ==> fields[k] != [])
  }

  /** Splitting undoes joining: fields joined by separator runs split back into those fields. */
  lemma {:induction false} SplitInterleaved(fields: seq<string>, seps: seq<string>, space: char -> bool)
    requires Splittable(fields, seps, space)
    ensures SplitFields(Interleave(fields, seps), space) == fields
    decreases |seps|, 1
  {
    if seps == [] {
      SplitFieldPrefix(fields[0], [], space);
      assert fields[0] + [] == fields[0];
      assert fields == [fields[0]];
    } else {
      SplitInterleavedStep(fields, seps, space);
    }
  }

  /** The step of SplitInterleaved: the first field, a separator run, then the rest. */
  lemma {:induction false} SplitInterleavedStep(fields: seq<string>, seps: seq<string>, space: char -> bool)
    requires Splittable(fields, seps, space) && seps != []
    ensures SplitFields(Interleave(fields, seps), space) == fields
    decreases |seps|, 0
  {
    var rest := Interleave(fields[1..], seps[1..]);
    assert Interleave(fields, seps) == fields[0] + (seps[0] + rest);
    assert SplitFields(rest, space) == fields[1..] by {
      SplittableTail(fields, seps, space);
      SplitInterleaved(fields[1..], seps[1..], space);
    }
    var after := SplitFields(seps[0] + rest, space);
    assert after == [[]] + fields[1..] by {
      JoinedRestStart(fields, seps, space);
      SplitAfterRun(seps[0], rest, space);
    }
    assert SplitFields(fields[0] + (seps[0] + rest), space) == [fields[0] + after[0]] + after[1..] by {
      assert NoSeparator(fields[0], space);
      SplitFieldPrefix(fields[0], seps[0] + rest, space);
    }
    PrefixJoin(fields, after, SplitFields(Interleave(fields, seps), space));
  }

  lemma SplittableTail(fields: seq<string>, seps: seq<string>, space: char -> bool)
    requires Splittable(fields, seps, space) && seps != []
    ensures Splittable(fields[1..], seps[1..], space)
  {
    assert forall k :: 0 < k < |fields| - 2 ==> fields[1..][k] == fields[k + 1];
  }

  /** What follows the first separator run starts with a field, or is empty. */
  lemma JoinedRestStart(fields: seq<string>, seps: seq<string>, space: char -> bool)
    requires Splittable(fields, seps, space) && seps != []
    ensures var rest := Interleave(fields[1..], seps[1..]);
      rest == [] || !IsSeparator(rest[0], space)
  {
    var rest := Interleave(fields[1..], seps[1..]);
    if |fields| > 2 {
      assert fields[1..][0] != [] && StartsWith(rest, fields[1..][0]);
      assert rest[0] == fields[1][0];
    }
  }

  /** The first field put back in front of the split of the rest. */
  lemma PrefixJoin(fields: seq<string>, after: seq<string>, whole: seq<string>)
    requires fields != [] && after == [[]] + fields[1..] && whole == [fields[0] + after[0]] + after[1..]
    ensures whole == fields
  {
    assert fields[0] + after[0] == fields[0];
    assert after[1..] == fields[1..];
    assert [fields[0]] + fields[1..] == fields;
  }

  /** A leading field stays glued to the first field of what follows it. */
  lemma {:induction false} SplitFieldPrefix(f: string, t: string, space: char -> bool)
    requires NoSeparator(f, space)
    ensures SplitFields(f + t, space) == [f + SplitFields(t, space)[0]] + SplitFields(t, space)[1..]
    decreases |f|, 1
  {
    if f == [] {
      var x := SplitFields(t, space);
      assert f + t == t && f + x[0] == x[0];
      assert [x[0]] + x[1..] == x;
    } else {
      SplitFieldPrefixStep(f, t, space);
    }
  }

  /** The step of SplitFieldPrefix: f[0] is glued in front of the split of the rest. */
  lemma {:induction false} SplitFieldPrefixStep(f: string, t: string, space: char -> bool)
    requires f != [] && NoSeparator(f, space)
    ensures SplitFields(f + t, space) == [f + SplitFields(t, space)[0]] + SplitFields(t, space)[1..]
    decreases |f|, 0
  {
    var x, u := SplitFields(t, space), f[1..] + t;
    var rest := SplitFields(u, space);
    assert SplitFields(f + t, space) == [[f[0]] + rest[0]] + rest[1..] by {
      assert !IsSeparator(f[0], space);
      GluedHead(f, t, space);
    }
    assert rest == [f[1..] + x[0]] + x[1..] by {
      NoSeparatorTail(f, space);
      SplitFieldPrefix(f[1..], t, space);
    }
    GlueFirst(f, x, rest, SplitFields(f + t, space));
  }

  /** Gluing f[0] onto a split whose first field starts with the rest of f. */
  lemma GlueFirst(f: string, x: seq<string>, rest: seq<string>, whole: seq<string>)
    requires f != [] && x != [] && rest == [f[1..] + x[0]] + x[1..]
    requires whole == [[f[0]] + rest[0]] + rest[1..]
    ensures whole == [f + x[0]] + x[1..]
  {
    assert rest[0] == f[1..] + x[0] && rest[1..] == x[1..];
    PrependAssociates(f[0], f[1..], x[0]);
    assert [f[0]] + f[1..] == f;
  }

  /** A first character that is no separator joins the first field of what follows it. */
  lemma GluedHead(f: string, t: string, space: char -> bool)
    requires f != [] && !IsSeparator(f[0], space)
    ensures SplitFields(f + t, space) == [[f[0]] + SplitFields(f[1..] + t, space)[0]] + SplitFields(f[1..] + t, space)[1..]
  {
    assert (f + t)[0] == f[0] && (f + t)[1..] == f[1..] + t;
  }

  lemma NoSeparatorTail(f: string, space: char -> bool)
    requires f != [] && NoSeparator(f, space)
    ensures NoSeparator(f[1..], space)
  {
  }
  /** A separator run before a field (or before nothing) starts a new, empty-first split. */
  lemma SplitAfterRun(sep: string, u: string, space: char -> bool)
    requires SeparatorRun(sep, space) && (u == [] || !IsSeparator(u[0], space))
    ensures SplitFields(sep + u, space) == [[]] + SplitFields(u, space)
  {
    DropSeparatorRun(sep, u, space);
  }

  lemma {:induction false} DropSeparatorRun(sep: string, u: string, space: char -> bool)
    requires forall i :: 0 <= i < |sep| ==> IsSeparator(sep[i], space)
    requires u == [] || !IsSeparator(u[0], space)
    ensures DropSeparators(sep + u, space) == u
    decreases |sep|
  {
    if sep == [] {
      assert sep + u == u;
    } else {
      assert (sep + u)[1..] == sep[1..] + u;
      DropSeparatorRun(sep[1..], u, space);
    }
  }

  /** ASCII upper-casing (`toUpperCase` / `upper` on the ASCII range). */
  function ToUpperAscii(s: string): (r: string)
    ensures |r| == |s|
    ensures forall i :: 0 <= i < |s| ==> r[i] == (if 'a' <= s[i] <= 'z' then (s[i] as int - 32) as char else s[i])
  {
    if s == [] then [] else [if 'a' <= s[0] <= 'z' then (s[0] as int - 32) as char else s[0]] + ToUpperAscii(s[1..])
  }

  // ---- numerals ----

  /** The value of a character as a digit in radices up to 36 (36 for anything else). */
  function DigitValue(c: char): (d: nat)
    ensures d <= 36
  {
    if '0' <= c <= '9' then c as int - '0' as int
    else if 'a' <= c <= 'z' then c as int - 'a' as int + 10
    else if 'A' <= c <= 'Z' then c as int - 'A' as int + 10
    else 36
  }

  predicate IsDigitIn(c: char, radix: nat) {
    DigitValue(c) < radix
  }

  /** The value of a digit string, most significant digit first. */
  function DigitsValue(s: string, radix: nat): nat {
    if s == [] then 0 else DigitsValue(s[..|s| - 1], radix) * radix + DigitValue(s[|s| - 1])
  }

  /** The length of the longest prefix of digits valid in `radix`. */
  function DigitPrefixLength(s: string, radix: nat): (n: nat)
    ensures n <= |s|
    ensures forall i :: 0 <= i < n ==> IsDigitIn(s[i], radix)
    ensures n < |s| ==> !IsDigitIn(s[n], radix)
  {
    if s != [] && IsDigitIn(s[0], radix) then 1 + DigitPrefixLength(s[1..], radix) else 0
  }

  /**
   * JavaScript `parseInt(s, radix)` for radix 2 or 16: leading space and one
   * sign are skipped, a `0x`/`0X` prefix too when the radix is 16, then the
   * longest run of valid digits is read. None stands for NaN (no digits).
   */
  function JsParseInt(s: string, radix: nat): (r: Option<int>)
    requires radix == 2 || radix == 16
    ensures r.None? <==> DigitPrefixLength(JsParseIntDigits(s, radix), radix) == 0
  {
    var digits := JsParseIntDigits(s, radix);
    var n := DigitPrefixLength(digits, radix);
    if n == 0 then None
    else
      var t := TrimStart(s, IsJsSpace);
      var magnitude := DigitsValue(digits[..n], radix);
      var value: int := if t != [] && t[0] == '-' then -(magnitude as int) else magnitude;
      Some(value)
  }

  /** The text `JsParseInt` reads its digits from: after the space, the sign and the prefix. */
  function JsParseIntDigits(s: string, radix: nat): string {
    var t := TrimStart(s, IsJsSpace);
    var unsigned := if t != [] && (t[0] == '-' || t[0] == '+') then t[1..] else t;
    if radix == 16 && |unsigned| >= 2 && unsigned[0] == '0' && (unsigned[1] == 'x' || unsigned[1] == 'X')
    then unsigned[2..] else unsigned
  }

  /** A string that starts and ends with a character that is not space is its own trim. */
  lemma TrimKeeps(s: string, space: char -> bool)
    requires s != [] && !space(s[0]) && !space(s[|s| - 1])
    ensures TrimEnd(TrimStart(s, space), space) == s
  {
    assert LeadingRun(s, space) == 0;
    assert TrimStart(s, space) == s;
  }

  lemma {:induction false} DigitPrefixOfDigits(s: string, radix: nat)
    requires forall i :: 0 <= i < |s| ==> IsDigitIn(s[i], radix)
    ensures DigitPrefixLength(s, radix) == |s|
  {
    if s != [] {
      DigitPrefixOfDigits(s[1..], radix);
    }
  }

  /** parseInt reads a bare run of digits back as their value. */
  lemma JsParseIntOfDigits(s: string, radix: nat)
    requires radix == 2 || radix == 16
    requires s != [] && forall i :: 0 <= i < |s| ==> IsDigitIn(s[i], radix)
    ensures JsParseInt(s, radix) == Some(DigitsValue(s, radix))
  {
    NothingToSkip(s, radix);
    DigitPrefixOfDigits(s, radix);
    assert s[..|s|] == s;
  }

  /** A run of digits has no leading space, sign or `0x` for parseInt to skip. */
  lemma NothingToSkip(s: string, radix: nat)
    requires radix == 2 || radix == 16
    requires s != [] && forall i :: 0 <= i < |s| ==> IsDigitIn(s[i], radix)
    ensures JsParseIntDigits(s, radix) == s
  {
    var c := s[0];
    DigitIsNotSpace(c, radix);
    var t := TrimStart(s, IsJsSpace);
    assert t == s;
    if |s| >= 2 {
      assert IsDigitIn(s[1], radix);
    }
  }

  lemma DigitIsNotSpace(c: char, radix: nat)
    requires radix <= 16 && IsDigitIn(c, radix)
    ensures !IsJsSpace(c) && c != '-' && c != '+'
  {
  }

  /**
   * The digits after a Python integer prefix: digits, with single underscores
   * allowed between them and one underscore allowed before the first.
   */
  predicate PyDigitsAfterPrefix(s: string, radix: nat) {
    var t := if s != [] && s[0] == '_' then s[1..] else s;
    t != [] && IsDigitIn(t[0], radix) && PyDigitTail(t[1..], radix)
  }

  predicate PyDigitTail(s: string, radix: nat)
    decreases |s|
  {
    s == []
    || (IsDigitIn(s[0], radix) && PyDigitTail(s[1..], radix))
    || (|s| >= 2 && s[0] == '_' && IsDigitIn(s[1], radix) && PyDigitTail(s[2..], radix))
  }

  /** The characters of `s` other than `_`, in order: what `int` reads after checking the separators. */
  function WithoutUnderscores(s: string): (r: string)
    ensures |r| <= |s|
    ensures forall i :: 0 <= i < |r| ==> r[i] in s && r[i] != '_'
    ensures '_' !in s ==> r == s
    ensures s == "_" ==> r == []
  {
    if s == [] then [] else (if s[0] == '_' then [] else [s[0]]) + WithoutUnderscores(s[1..])
  }

  /** Dropping underscores works piece by piece, so exactly the underscores go and the rest keeps its order. */
  lemma {:induction false} WithoutUnderscoresAppend(a: string, b: string)
    ensures WithoutUnderscores(a + b) == WithoutUnderscores(a) + WithoutUnderscores(b)
    decreases |a|
  {
    if a != [] {
      var head := if a[0] == '_' then [] else [a[0]];
      assert (a + b)[0] == a[0] && (a + b)[1..] == a[1..] + b;
      assert WithoutUnderscores(a + b) == head + WithoutUnderscores(a[1..] + b);
      WithoutUnderscoresAppend(a[1..], b);
      assert WithoutUnderscores(a) == head + WithoutUnderscores(a[1..]);
    } else {
      assert a + b == b;
    }
  }

  lemma {:induction false} PyTailDigits(s: string, radix: nat)
    requires radix <= 36 && PyDigitTail(s, radix)
    ensures forall i :: 0 <= i < |WithoutUnderscores(s)| ==> IsDigitIn(WithoutUnderscores(s)[i], radix)
    decreases |s|
  {
    if s == [] {
    } else if IsDigitIn(s[0], radix) && PyDigitTail(s[1..], radix) {
      PyTailDigits(s[1..], radix);
      assert WithoutUnderscores(s) == [s[0]] + WithoutUnderscores(s[1..]);
    } else {
      PyTailDigits(s[2..], radix);
      assert WithoutUnderscores(s) == [s[1]] + WithoutUnderscores(s[2..]) by {
        assert WithoutUnderscores(s) == WithoutUnderscores(s[1..]);
        assert WithoutUnderscores(s[1..]) == [s[1]] + WithoutUnderscores(s[2..]);
      }
    }
  }

  /**
   * Python `int(s, radix)` for a string that starts with the prefix `0x`
   * (radix 16) or `0b` (radix 2) and has no surrounding space; None stands
   * for the ValueError `int` raises.
   */
  function PyParsePrefixed(s: string, radix: nat): (r: Option<nat>)
    requires radix == 2 || radix == 16
    requires |s| >= 2
  {
    var body := s[2..];
    if !PyDigitsAfterPrefix(body, radix) then None
    else
      var t := if body[0] == '_' then body[1..] else body;
      PyTailDigits(t[1..], radix);
      assert WithoutUnderscores(t) == [t[0]] + WithoutUnderscores(t[1..]);
      Some(DigitsValue(WithoutUnderscores(t), radix))
  }

  // ---- rendering ----

  function DigitChar(d: nat, upper: bool): (c: char)
    requires d < 16
    ensures DigitValue(c) == d
  {
    if d < 10 then ('0' as int + d) as char
    else if upper then ('A' as int + d - 10) as char
    else ('a' as int + d - 10) as char
  }

  lemma AppendDigit(p: string, c: char, radix: nat)
    requires forall i :: 0 <= i < |p| ==> IsDigitIn(p[i], radix)
    requires IsDigitIn(c, radix)
    ensures forall i :: 0 <= i < |p + [c]| ==> IsDigitIn((p + [c])[i], radix)
    ensures DigitsValue(p + [c], radix) == DigitsValue(p, radix) * radix + DigitValue(c)
  {
    assert (p + [c])[..|p|] == p;
  }

  lemma DivMod(n: nat, radix: nat)
    requires radix > 0
    ensures n / radix * radix + n % radix == n
  {
  }

  /** A numeral of a positive value does not start with a lone zero. */
  lemma LeadingDigitNotZero(p: string, radix: nat)
    requires |p| >= 1 && (|p| > 1 ==> p[0] != '0')
    requires forall i :: 0 <= i < |p| ==> IsDigitIn(p[i], radix)
    requires DigitsValue(p, radix) > 0
    ensures p[0] != '0'
  {
    if |p| == 1 {
      assert p[..0] == [];
    }
  }

  /** Dividing by the radix shrinks a number that is at least the radix, to a positive value. */
  lemma QuotientShrinks(n: nat, radix: nat)
    requires 2 <= radix <= n
    ensures 0 < n / radix < n
  {
  }

  /** Appending the last digit of n to the numeral of n / radix gives a numeral of n. */
  lemma NumeralStep(p: string, n: nat, radix: nat, upper: bool)
    requires 2 <= radix <= 16 && n >= radix
    requires |p| >= 1 && (|p| > 1 ==> p[0] != '0')
    requires forall i :: 0 <= i < |p| ==> IsDigitIn(p[i], radix)
    requires DigitsValue(p, radix) == n / radix
    ensures var s := p + [DigitChar(n % radix, upper)];
      |s| > 1 && s[0] != '0'
      && (forall i :: 0 <= i < |s| ==> IsDigitIn(s[i], radix))
      && DigitsValue(s, radix) == n
  {
    var s := p + [DigitChar(n % radix, upper)];
    AppendDigit(p, DigitChar(n % radix, upper), radix);
    DivMod(n, radix);
    QuotientShrinks(n, radix);
    LeadingDigitNotZero(p, radix);
    assert s[0] == p[0];
  }

  /** `n.toString(radix)` / `str(n)`: the shortest numeral, no leading zeros. */
  function Numeral(n: nat, radix: nat, upper: bool): (s: string)
    requires 2 <= radix <= 16
    ensures |s| >= 1 && (|s| > 1 ==> s[0] != '0')
    ensures forall i :: 0 <= i < |s| ==> IsDigitIn(s[i], radix)
    ensures DigitsValue(s, radix) == n
    decreases n
  {
    if n < radix then [DigitChar(n, upper)]
    else
      QuotientShrinks(n, radix);
      var p := Numeral(n / radix, radix, upper);
      NumeralStep(p, n, radix, upper);
      p + [DigitChar(n % radix, upper)]
  }

  function Decimal(n: nat): string { Numeral(n, 10, false) }

  /** `padStart(2, "0")` on a numeral. */
  function PadTwo(s: string): (r: string)
    ensures |s| >= 2 ==> r == s
    ensures |s| < 2 ==> |r| == 2 && r[2 - |s|..] == s
  {
    if |s| == 0 then "00" else if |s| == 1 then "0" + s else s
  }

  /** `b.toString(16).padStart(2, "0")`: two hexadecimal digits for a byte. */
  function HexByte(b: nat, upper: bool): (s: string)
    requires b < 256
    ensures |s| == 2
    ensures forall i :: 0 <= i < 2 ==> IsDigitIn(s[i], 16)
    ensures DigitsValue(s, 16) == b
  {
    var s := PadTwo(Numeral(b, 16, upper));
    if b < 16 then
      assert s == ['0', DigitChar(b, upper)];
      assert s[..1] == ['0'];
      s
    else
      assert Numeral(b / 16, 16, upper) == [DigitChar(b / 16, upper)];
      assert s == [DigitChar(b / 16, upper), DigitChar(b % 16, upper)];
      assert s[..1] == [DigitChar(b / 16, upper)];
      s
  }
}
