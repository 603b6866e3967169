/**
 * The JavaScript string and number primitives that the bot's handlers use, written out
 * with the semantics they have on the inputs the bot sees: `toLowerCase` (on ASCII
 * letters), `length` (in UTF-16 code units), `trim`, `split(/ +/)`, `join`, `parseInt`
 * (decimal), `String(n)` for a non-negative integer, `startsWith`, `indexOf`, `replace`
 * with a string pattern (first occurrence) and `replace` with a global regular expression
 * (every occurrence).
 */
module JsText {
  import opened Wrappers

  // ---------------------------------------------------------------- case

  function LowerChar(c: char): char {
    if 'A' <= c <= 'Z' then (c as int + 32) as char else c
  }

  /** `s.toLowerCase()` on ASCII letters; other characters are kept. */
  function ToLower(s: string): (r: string)
    ensures |r| == |s|
    ensures forall i :: 0 <= i < |s| ==> r[i] == LowerChar(s[i])
  {
    if s == [] then [] else [LowerChar(s[0])] + ToLower(s[1..])
  }

  /** Text with no upper-case ASCII letter is its own lower-case form. */
  lemma ToLowerOfLower(s: string)
    requires forall i :: 0 <= i < |s| ==> !('A' <= s[i] <= 'Z')
    ensures ToLower(s) == s
  {
  }

  // ---------------------------------------------------------------- length

  /** A character outside the Basic Multilingual Plane, stored in UTF-16 as a surrogate pair. */
  predicate Astral(c: char) { c as int >= 0x1_0000 }

  /** `s.length`: the number of UTF-16 code units, two for every astral character. */
  function Utf16Length(s: string): (n: nat)
    ensures |s| <= n <= 2 * |s|
  {
    if s == [] then 0 else (if Astral(s[0]) then 2 else 1) + Utf16Length(s[1..])
  }

  /** Without astral characters, `length` is the number of characters. */
  lemma {:induction false} Utf16LengthBmp(s: string)
    requires forall i :: 0 <= i < |s| ==> !Astral(s[i])
    ensures Utf16Length(s) == |s|
  {
    if s != [] {
      Utf16LengthBmp(s[1..]);
    }
  }

  /** Text made only of astral characters (emoji, say) has twice as many code units as characters. */
  lemma {:induction false} Utf16LengthAstral(s: string)
    requires forall i :: 0 <= i < |s| ==> Astral(s[i])
    ensures Utf16Length(s) == 2 * |s|
  {
    if s != [] {
      Utf16LengthAstral(s[1..]);
    }
  }

  // ---------------------------------------------------------------- whitespace

  /** The characters `String.prototype.trim` removes (WhiteSpace and LineTerminator). */
  predicate IsSpace(c: char) {
    || c == ' ' || c == '\t' || c == '\n' || c == '\r'
    || c == '\U{000B}' || c == '\U{000C}' || c == '\U{00A0}' || c == '\U{FEFF}'
    || c == '\U{1680}' || ('\U{2000}' <= c <= '\U{200A}')
    || c == '\U{2028}' || c == '\U{2029}' || c == '\U{202F}' || c == '\U{205F}' || c == '\U{3000}'
  }

  function TrimStart(s: string): (r: string)
    ensures |r| <= |s| && r == s[|s| - |r|..]
    ensures r == [] || !IsSpace(r[0])
    ensures forall i :: 0 <= i < |s| - |r| ==> IsSpace(s[i])
  {
    if s != [] && IsSpace(s[0]) then TrimStart(s[1..]) else s
  }

  function TrimEnd(s: string): (r: string)
    ensures |r| <= |s| && r == s[..|r|]
    ensures r == [] || !IsSpace(r[|r| - 1])
    ensures forall i :: |r| <= i < |s| ==> IsSpace(s[i])
  {
    if s != [] && IsSpace(s[|s| - 1]) then TrimEnd(s[..|s| - 1]) else s
  }

  /** `s.trim()`. */
  function Trim(s: string): (r: string)
    ensures |r| <= |s|
    ensures r == [] || (!IsSpace(r[0]) && !IsSpace(r[|r| - 1]))
    ensures r == [] <==> forall i :: 0 <= i < |s| ==> IsSpace(s[i])
  {
    var t := TrimStart(s);
    var r := TrimEnd(t);
    assert r == [] || r[0] == t[0];
    r
  }

  // ---------------------------------------------------------------- split / join

  /** The leading run of space characters removed. */
  function DropSpaces(s: string): (r: string)
    ensures |r| <= |s| && r == s[|s| - |r|..]
    ensures r == [] || r[0] != ' '
    ensures forall i :: 0 <= i < |s| - |r| ==> s[i] == ' '
  {
    if s != [] && s[0] == ' ' then DropSpaces(s[1..]) else s
  }

  /** The text before the first space character. */
  function TakeWord(s: string): (r: string)
    ensures |r| <= |s| && r == s[..|r|] && ' ' !in r
    ensures |r| < |s| ==> s[|r|] == ' '
  {
    if s == [] || s[0] == ' ' then [] else [s[0]] + TakeWord(s[1..])
  }

  function SplitFrom(s: string, cur: string): (r: seq<string>)
    requires ' ' !in cur
    ensures |r| >= 1
    ensures forall i :: 0 <= i < |r| ==> ' ' !in r[i]
    decreases |s|
  {
    if s == [] then [cur]
    else if s[0] == ' ' then [cur] + SplitFrom(DropSpaces(s), "")
    else SplitFrom(s[1..], cur + [s[0]])
  }

  /** `s.split(/ +/)`: the pieces of `s` between maximal runs of the space character. */
  function Split(s: string): (r: seq<string>)
    ensures |r| >= 1
    ensures forall i :: 0 <= i < |r| ==> ' ' !in r[i]
  {
    SplitFrom(s, "")
  }

  lemma {:induction false} SplitFromFirst(s: string, cur: string)
    requires ' ' !in cur
    ensures SplitFrom(s, cur)[0] == cur + TakeWord(s)
    decreases |s|
  {
    if s == [] || s[0] == ' ' {
    } else {
      SplitFromFirst(s[1..], cur + [s[0]]);
      assert cur + TakeWord(s) == (cur + [s[0]]) + TakeWord(s[1..]);
    }
  }

  /** The first piece of a split is the text up to the first space. */
  lemma SplitFirst(s: string)
    ensures Split(s)[0] == TakeWord(s)
  {
    SplitFromFirst(s, "");
  }

  lemma {:induction false} SplitFromWordsNonEmpty(s: string, cur: string)
    requires ' ' !in cur
    requires s == [] ==> cur != []
    requires s != [] ==> s[|s| - 1] != ' ' && (cur != [] || s[0] != ' ')
    ensures forall i :: 0 <= i < |SplitFrom(s, cur)| ==> SplitFrom(s, cur)[i] != []
    decreases |s|
  {
    if s == [] {
    } else if s[0] == ' ' {
      var t := DropSpaces(s);
      assert t != [];
      assert t[|t| - 1] == s[|s| - 1];
      SplitFromWordsNonEmpty(t, "");
    } else {
      if s[1..] != [] { assert s[1..][|s[1..]| - 1] == s[|s| - 1]; }
      SplitFromWordsNonEmpty(s[1..], cur + [s[0]]);
    }
  }

  /** Splitting text that neither starts nor ends with a space never yields an empty piece. */
  lemma SplitWordsNonEmpty(s: string)
    requires s != [] && s[0] != ' ' && s[|s| - 1] != ' '
    ensures forall i :: 0 <= i < |Split(s)| ==> Split(s)[i] != []
  {
    SplitFromWordsNonEmpty(s, "");
  }

  /** `xs.join(sep)`. */
  function Join(xs: seq<string>, sep: string): string {
    if xs == [] then "" else if |xs| == 1 then xs[0] else xs[0] + sep + Join(xs[1..], sep)
  }

  /** `s.split(sep)` with a one-character string separator: empty pieces are kept. */
  function SplitOn(s: string, sep: char): (r: seq<string>)
    ensures |r| >= 1
    ensures forall i :: 0 <= i < |r| ==> sep !in r[i]
  {
    if s == [] then [""]
    else
      var rest := SplitOn(s[1..], sep);
      if s[0] == sep then [""] + rest else [[s[0]] + rest[0]] + rest[1..]
  }

  /** Joining the pieces with the separator gives the text back. */
  lemma {:induction false} SplitOnJoin(s: string, sep: char)
    ensures Join(SplitOn(s, sep), [sep]) == s
  {
    if s != [] {
      var rest := SplitOn(s[1..], sep);
      SplitOnJoin(s[1..], sep);
      if s[0] == sep {
        assert ([""] + rest)[1..] == rest;
      } else if |rest| > 1 {
        var r := [[s[0]] + rest[0]] + rest[1..];
        assert r[1..] == rest[1..];
        assert Join(rest, [sep]) == rest[0] + [sep] + Join(rest[1..], [sep]);
        assert s == [s[0]] + s[1..];
      } else {
        assert s == [s[0]] + s[1..];
      }
    }
  }

  /** Text without the separator is one piece. */
  lemma {:induction false} SplitOnAbsent(s: string, sep: char)
    requires sep !in s
    ensures SplitOn(s, sep) == [s]
  {
    if s != [] {
      assert sep !in s[1..];
      SplitOnAbsent(s[1..], sep);
      assert s == [s[0]] + s[1..];
    }
  }

  /** The first separator ends the first piece. */
  lemma {:induction false} SplitOnAfter(a: string, sep: char, b: string)
    requires sep !in a
    ensures SplitOn(a + [sep] + b, sep) == [a] + SplitOn(b, sep)
  {
    if a == [] {
      assert ([] + [sep] + b)[1..] == b;
    } else {
      assert (a + [sep] + b)[1..] == a[1..] + [sep] + b;
      assert sep !in a[1..];
      SplitOnAfter(a[1..], sep, b);
      assert a == [a[0]] + a[1..];
    }
  }

  /** `s.includes(p)`. */
  predicate Includes(s: string, p: string) { IndexOf(s, p).Some? }

  /** `xs[i]` when it exists; JavaScript yields `undefined` otherwise. */
  function At(xs: seq<string>, i: nat): Option<string> {
    if i < |xs| then Some(xs[i]) else None
  }

  // ---------------------------------------------------------------- numbers

  predicate IsDigit(c: char) { '0' <= c <= '9' }

  predicate AllDigits(s: string) { forall i :: 0 <= i < |s| ==> IsDigit(s[i]) }

  function DigitValue(c: char): nat
    requires IsDigit(c)
  {
    c as int - '0' as int
  }

  function DigitChar(n: nat): (c: char)
    requires n < 10
    ensures IsDigit(c) && DigitValue(c) == n
  {
    ('0' as int + n) as char
  }

  /** The longest prefix of decimal digits. */
  function LeadingDigits(s: string): (r: string)
    ensures |r| <= |s| && r == s[..|r|] && AllDigits(r)
    ensures |r| < |s| ==> !IsDigit(s[|r|])
  {
    if s == [] || !IsDigit(s[0]) then [] else [s[0]] + LeadingDigits(s[1..])
  }

  /** The number a string of decimal digits denotes. */
  function DigitsValue(d: string): nat
    requires AllDigits(d)
  {
    if d == [] then 0 else DigitsValue(d[..|d| - 1]) * 10 + DigitValue(d[|d| - 1])
  }

  /**
   * `parseInt(s)` for decimal text: leading whitespace, an optional sign and the longest
   * run of digits; `None` stands for NaN (no digit after the optional sign).
   */
  function ParseInt(s: string): (r: Option<int>)
    ensures r.Some? <==> var t := TrimStart(s);
      LeadingDigits(if t != [] && (t[0] == '-' || t[0] == '+') then t[1..] else t) != []
  {
    var t := TrimStart(s);
    var signed := t != [] && (t[0] == '-' || t[0] == '+');
    var d := LeadingDigits(if signed then t[1..] else t);
    var v: int := DigitsValue(d);
    if d == [] then None
    else if signed && t[0] == '-' then Some(-v)
    else Some(v)
  }

  /** `parseInt(xs[i])`, where a missing element is `undefined` and parses to NaN. */
  function ParseIntAt(xs: seq<string>, i: nat): Option<int> {
    if i < |xs| then ParseInt(xs[i]) else None
  }

  /** `String(n)` for a non-negative integer. */
  function NatToString(n: nat): (r: string)
    ensures r != [] && AllDigits(r)
  {
    if n < 10 then [DigitChar(n)] else NatToString(n / 10) + [DigitChar(n % 10)]
  }

  lemma {:induction false} DigitsValueOfNatToString(n: nat)
    ensures DigitsValue(NatToString(n)) == n
  {
    if n >= 10 {
      var r := NatToString(n);
      assert r[..|r| - 1] == NatToString(n / 10);
      DigitsValueOfNatToString(n / 10);
    }
  }

  /** Printing a count and parsing it back gives the count. */
  lemma ParseIntOfNatToString(n: nat)
    ensures ParseInt(NatToString(n)) == Some(n)
  {
    var s := NatToString(n);
    assert TrimStart(s) == s;
    LeadingDigitsOfDigits(s);
    DigitsValueOfNatToString(n);
  }

  lemma {:induction false} LeadingDigitsOfDigits(s: string)
    requires AllDigits(s)
    ensures LeadingDigits(s) == s
  {
    if s != [] { LeadingDigitsOfDigits(s[1..]); }
  }

  /** The digit run stops at the first character that is not a digit. */
  lemma {:induction false} LeadingDigitsThen(d: string, rest: string)
    requires AllDigits(d) && (rest == [] || !IsDigit(rest[0]))
    ensures LeadingDigits(d + rest) == d
  {
    if d != [] {
      assert (d + rest)[1..] == d[1..] + rest;
      LeadingDigitsThen(d[1..], rest);
    } else {
      assert d + rest == rest;
    }
  }

  /** `parseInt` reads a number followed by a unit letter as the number: `parseInt("5m")` is 5. */
  lemma ParseIntOfNatThen(n: nat, rest: string)
    requires rest == [] || !IsDigit(rest[0])
    ensures ParseInt(NatToString(n) + rest) == Some(n)
  {
    var d := NatToString(n);
    var s := d + rest;
    assert s[0] == d[0] && IsDigit(d[0]);
    assert !IsSpace(s[0]) && s[0] != '-' && s[0] != '+';
    assert TrimStart(s) == s;
    LeadingDigitsThen(d, rest);
    DigitsValueOfNatToString(n);
    assert LeadingDigits(s) == d && DigitsValue(d) == n;
  }

  // ---------------------------------------------------------------- search and replace

  predicate OccursAt(s: string, p: string, i: int) {
    0 <= i && i + |p| <= |s| && s[i..i + |p|] == p
  }

  function IndexOfFrom(s: string, p: string, i: nat): (r: Option<nat>)
    requires i <= |s|
    ensures r.Some? ==> i <= r.value && OccursAt(s, p, r.value)
    ensures r.Some? ==> forall j :: i <= j < r.value ==> !OccursAt(s, p, j)
    ensures r.None? ==> forall j :: i <= j ==> !OccursAt(s, p, j)
    decreases |s| - i
  {
    if i + |p| > |s| then None
    else if OccursAt(s, p, i) then Some(i)
    else IndexOfFrom(s, p, i + 1)
  }

  /** `s.indexOf(p)`, with `None` for -1. */
  function IndexOf(s: string, p: string): (r: Option<nat>)
    ensures r.Some? ==> OccursAt(s, p, r.value) && forall j :: 0 <= j < r.value ==> !OccursAt(s, p, j)
    ensures r.None? ==> forall j :: !OccursAt(s, p, j)
  {
    IndexOfFrom(s, p, 0)
  }

  /** `s.startsWith(p)`. */
  predicate StartsWith(s: string, p: string) { p <= s }

  /** `s.endsWith(p)`. */
  predicate EndsWith(s: string, p: string) { |p| <= |s| && s[|s| - |p|..] == p }

  /** `s.replace(p, v)` with a string pattern: only the first occurrence is replaced. */
  function ReplaceFirst(s: string, p: string, v: string): (r: string)
  {
    match IndexOf(s, p)
    case None => s
    case Some(i) => s[..i] + v + s[i + |p|..]
  }

  /**
   * When `p` first occurs right after `a`, replacing it yields `a + v + b`: later
   * occurrences of `p` in `b` are left as they are.
   */
  lemma ReplaceFirstOnlyFirst(a: string, p: string, b: string, v: string)
    requires forall j :: 0 <= j < |a| ==> !OccursAt(a + p + b, p, j)
    ensures ReplaceFirst(a + p + b, p, v) == a + v + b
  {
    var s := a + p + b;
    assert OccursAt(s, p, |a|) by { assert s[|a|..|a| + |p|] == p; }
    var i := IndexOf(s, p);
    assert i == Some(|a|);
    assert s[..|a|] == a && s[|a| + |p|..] == b;
  }

  /**
   * `s.replace(new RegExp(p, 'g'), v)` for a pattern with no regex metacharacters and a
   * value without `$` patterns: every non-overlapping occurrence, scanning left to right.
   */
  function ReplaceAll(s: string, p: string, v: string): string
    requires p != []
    decreases |s|
  {
    if s == [] then []
    else if OccursAt(s, p, 0) then v + ReplaceAll(s[|p|..], p, v)
    else [s[0]] + ReplaceAll(s[1..], p, v)
  }

  /** A text with no occurrence of the pattern is left as it is. */
  lemma {:induction false} ReplaceAllAbsent(s: string, p: string, v: string)
    requires p != []
    requires forall j :: !OccursAt(s, p, j)
    ensures ReplaceAll(s, p, v) == s
    decreases |s|
  {
    if s != [] {
      assert !OccursAt(s, p, 0);
      assert forall j :: !OccursAt(s[1..], p, j) by {
        forall j | OccursAt(s[1..], p, j) ensures OccursAt(s, p, j + 1) {
          assert s[j + 1..j + 1 + |p|] == s[1..][j..j + |p|];
        }
      }
      ReplaceAllAbsent(s[1..], p, v);
    }
  }

  /** Every occurrence is replaced: a text made of `n` copies of the pattern becomes `n` copies of the value. */
  lemma {:induction false} ReplaceAllRepeated(p: string, v: string, n: nat)
    requires p != []
    ensures ReplaceAll(Repeat(p, n), p, v) == Repeat(v, n)
  {
    if n > 0 {
      var s := Repeat(p, n);
      assert s == p + Repeat(p, n - 1);
      assert OccursAt(s, p, 0) by { assert s[0..|p|] == p; }
      assert s[|p|..] == Repeat(p, n - 1);
      ReplaceAllRepeated(p, v, n - 1);
    }
  }

  function Repeat(s: string, n: nat): string {
    if n == 0 then [] else s + Repeat(s, n - 1)
  }
}
