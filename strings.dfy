/**
 * The few JavaScript string operations the outline pipeline depends on:
 * `trim`, `startsWith`, `split` on one character, `join`, the regular-expression
 * word boundary `\b`, and decimal rendering of a count.
 * Strings are sequences of Unicode scalar values; lengths count scalars.
 */
module Strings {

  /** The characters `String.prototype.trim` and the regex class `\s` treat as blank:
      the WhiteSpace and LineTerminator sets of ECMAScript. */
  predicate IsSpace(c: char) {
    || c == '\t' || c == '\n' || c == '\U{000B}' || c == '\U{000C}' || c == '\r' || c == ' '
    || c == '\U{00A0}' || c == '\U{1680}' || ('\U{2000}' <= c <= '\U{200A}')
    || c == '\U{2028}' || c == '\U{2029}' || c == '\U{202F}' || c == '\U{205F}'
    || c == '\U{3000}' || c == '\U{FEFF}'
  }

  /** Removes the trailing blanks. */
  function TrimEnd(s: string): (r: string)
    ensures |r| <= |s| && r == s[..|r|]
    ensures r == [] || !IsSpace(r[|r| - 1])
  {
    if s != [] && IsSpace(s[|s| - 1]) then TrimEnd(s[..|s| - 1]) else s
  }

  /** What `TrimEnd` drops is blank. */
  lemma {:induction false} TrimEndBlanks(s: string)
    ensures forall i :: |TrimEnd(s)| <= i < |s| ==> IsSpace(s[i])
  {
    if s != [] && IsSpace(s[|s| - 1]) {
      var init := s[..|s| - 1];
      TrimEndBlanks(init);
      forall i | |TrimEnd(s)| <= i < |s| ensures IsSpace(s[i]) {
        if i < |init| { assert s[i] == init[i]; }
      }
    }
  }

  /** The number of leading blanks of `s`. */
  function LeadingBlanks(s: string): (n: nat)
    ensures n <= |s|
    ensures n == |s| || !IsSpace(s[n])
  {
    if s != [] && IsSpace(s[0]) then 1 + LeadingBlanks(s[1..]) else 0
  }

  /** The characters `LeadingBlanks` counts are blank. */
  lemma {:induction false} LeadingBlanksBlank(s: string)
    ensures forall i :: 0 <= i < LeadingBlanks(s) ==> IsSpace(s[i])
  {
    if s != [] && IsSpace(s[0]) {
      LeadingBlanksBlank(s[1..]);
      forall i | 0 <= i < LeadingBlanks(s) ensures IsSpace(s[i]) {
        if i > 0 { assert s[i] == s[1..][i - 1]; }
      }
    }
  }

  /** `s.trim()`: what is left of `s` once the leading and trailing blanks are dropped;
      it neither starts nor ends with a blank. */
  function Trim(s: string): (r: string)
    ensures LeadingBlanks(s) + |r| <= |s|
    ensures r == s[LeadingBlanks(s)..LeadingBlanks(s) + |r|]
    ensures r != [] ==> !IsSpace(r[0])
    ensures r != [] ==> !IsSpace(r[|r| - 1])
  {
    var n := LeadingBlanks(s);
    var r := TrimEnd(s[n..]);
    assert r != [] ==> r[0] == s[n];
    r
  }

  /** Trimming only removes characters. */
  lemma TrimKeepsOut(s: string, c: char)
    requires c !in s
    ensures c !in Trim(s)
  {
    var a := LeadingBlanks(s);
    var r := Trim(s);
    assert r == s[a..a + |r|];
    forall i | 0 <= i < |r| ensures r[i] != c {
      assert r[i] == s[a..a + |r|][i];
    }
  }

  /** Everything `Trim` drops is blank. */
  lemma TrimBlanks(s: string)
    ensures forall i :: 0 <= i < LeadingBlanks(s) ==> IsSpace(s[i])
    ensures forall i :: LeadingBlanks(s) + |Trim(s)| <= i < |s| ==> IsSpace(s[i])
  {
    LeadingBlanksBlank(s);
    TrimTailBlank(s);
  }

  lemma TrimTailBlank(s: string)
    ensures forall i :: LeadingBlanks(s) + |Trim(s)| <= i < |s| ==> IsSpace(s[i])
  {
    var n := LeadingBlanks(s);
    var t := s[n..];
    TrimEndBlanks(t);
    var r := Trim(s);
    assert r == TrimEnd(t);
    forall i | n + |r| <= i < |s| ensures IsSpace(s[i]) {
      assert IsSpace(t[i - n]);
      assert t[i - n] == s[i];
    }
  }

  predicate StartsWith(s: string, prefix: string) {
    |prefix| <= |s| && s[..|prefix|] == prefix
  }

  predicate EndsWith(s: string, suffix: string) {
    |suffix| <= |s| && s[|s| - |suffix|..] == suffix
  }

  /** `s.split(sep)` for a one-character separator: the pieces between separators,
      always at least one (the empty string splits into `[""]`). */
  function Split(s: string, sep: char): (parts: seq<string>)
    ensures |parts| >= 1
    ensures forall k :: 0 <= k < |parts| ==> sep !in parts[k]
  {
    if |s| == 0 then [""]
    else if s[0] == sep then [""] + Split(s[1..], sep)
    else
      var rest := Split(s[1..], sep);
      [[s[0]] + rest[0]] + rest[1..]
  }

  /** `parts.join(sep)`. */
  function Join(parts: seq<string>, sep: string): string {
    if |parts| == 0 then ""
    else if |parts| == 1 then parts[0]
    else parts[0] + sep + Join(parts[1..], sep)
  }

  /** Splitting and joining again on the same separator gives back the string. */
  lemma {:induction false} JoinSplit(s: string, sep: char)
    ensures Join(Split(s, sep), [sep]) == s
  {
    if |s| == 0 {
    } else if s[0] == sep {
      JoinSplit(s[1..], sep);
      var rest := Split(s[1..], sep);
      assert Split(s, sep) == [""] + rest;
      assert s == [sep] + s[1..];
    } else {
      JoinSplit(s[1..], sep);
      var rest := Split(s[1..], sep);
      var parts := Split(s, sep);
      assert parts == [[s[0]] + rest[0]] + rest[1..];
      if |rest| == 1 {
        assert Join(parts, [sep]) == [s[0]] + rest[0];
      } else {
        assert parts[1..] == rest[1..];
        assert Join(parts, [sep]) == [s[0]] + rest[0] + [sep] + Join(rest[1..], [sep]);
        assert Join(rest, [sep]) == rest[0] + [sep] + Join(rest[1..], [sep]);
      }
      assert s == [s[0]] + s[1..];
    }
  }

  /** A string without the separator splits into itself alone. */
  lemma {:induction false} SplitWithoutSeparator(s: string, sep: char)
    requires sep !in s
    ensures Split(s, sep) == [s]
  {
    if |s| > 0 {
      assert sep !in s[1..];
      SplitWithoutSeparator(s[1..], sep);
      assert s == [s[0]] + s[1..];
    }
  }

  /** The number of separators in `s`. */
  function Occurrences(s: string, c: char): nat {
    if |s| == 0 then 0 else (if s[0] == c then 1 else 0) + Occurrences(s[1..], c)
  }

  /** `split` yields one more piece than there are separators. */
  lemma {:induction false} SplitCount(s: string, sep: char)
    ensures |Split(s, sep)| == Occurrences(s, sep) + 1
  {
    if |s| > 0 {
      SplitCount(s[1..], sep);
    }
  }

  /** The regex class `\w`: ASCII letters, digits and underscore. */
  predicate IsWordChar(c: char) {
    ('a' <= c <= 'z') || ('A' <= c <= 'Z') || ('0' <= c <= '9') || c == '_'
  }

  /** `word` occurs in `text` at offset `i` with a `\b` boundary on each side. */
  predicate WordAt(text: string, word: string, i: nat)
    requires |word| > 0 && IsWordChar(word[0]) && IsWordChar(word[|word| - 1])
  {
    && i + |word| <= |text|
    && text[i..i + |word|] == word
    && (i == 0 || !IsWordChar(text[i - 1]))
    && (i + |word| == |text| || !IsWordChar(text[i + |word|]))
  }

  /** The regular-expression test `/\bword\b/.test(text)`. */
  predicate ContainsWord(text: string, word: string)
    requires |word| > 0 && IsWordChar(word[0]) && IsWordChar(word[|word| - 1])
  {
    exists i: nat :: i + |word| <= |text| && WordAt(text, word, i)
  }

  function DigitChar(d: nat): (c: char)
    requires d < 10
  {
    "0123456789"[d]
  }

  /** The number a string of decimal digits denotes, most significant digit first. */
  ghost function DigitsValue(s: string): nat
    requires forall i :: 0 <= i < |s| ==> '0' <= s[i] <= '9'
  {
    if s == [] then 0 else 10 * DigitsValue(s[..|s| - 1]) + (s[|s| - 1] as int - '0' as int)
  }

  /** Decimal rendering of a count, as a template literal `${n}` prints it. */
  function NatToString(n: nat): (r: string)
    ensures |r| >= 1
    ensures forall i :: 0 <= i < |r| ==> '0' <= r[i] <= '9'
    ensures n >= 10 ==> r[0] != '0'
    ensures DigitsValue(r) == n
  {
    if n < 10 then [DigitChar(n)] else NatToString(n / 10) + [DigitChar(n % 10)]
  }
}
