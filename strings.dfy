/**
 * The Python `str` builtins that the scraper's text rules are built from,
 * written over `seq<char>`: whitespace classes, strip, split, join,
 * replace, lower, `in` and `int()`.
 */
module Strings {
  import opened Base

  /** Python 3 `c.isspace()` (also the class `\s` of `re` and of `str.split()`). */
  predicate IsSpace(c: char) {
    || ('\t' <= c <= '\r') || ('\U{1C}' <= c <= '\U{1F}') || c == ' '
    || c == '\U{85}' || c == '\U{A0}' || c == '\U{1680}'
    || ('\U{2000}' <= c <= '\U{200A}') || c == '\U{2028}' || c == '\U{2029}'
    || c == '\U{202F}' || c == '\U{205F}' || c == '\U{3000}'
  }

  predicate NoSpace(s: string) {
    forall i :: 0 <= i < |s| ==> !IsSpace(s[i])
  }

  /** The class `[0-9]` of `re` (and `str.isdigit()` restricted to ASCII). */
  predicate IsDigit(c: char) {
    '0' <= c <= '9'
  }

  predicate AllDigits(s: string) {
    forall i :: 0 <= i < |s| ==> IsDigit(s[i])
  }

  /** `s.lstrip()` */
  function LStrip(s: string): (r: string)
    ensures |r| <= |s| && r == s[|s| - |r|..]
    ensures r == [] || !IsSpace(r[0])
    ensures forall i :: 0 <= i < |s| - |r| ==> IsSpace(s[i])
  {
    if s != [] && IsSpace(s[0]) then LStrip(s[1..]) else s
  }

  /** `s.rstrip()` */
  function RStrip(s: string): (r: string)
    ensures |r| <= |s| && r == s[..|r|]
    ensures r == [] || !IsSpace(r[|r| - 1])
    ensures forall i :: |r| <= i < |s| ==> IsSpace(s[i])
  {
    if s != [] && IsSpace(s[|s| - 1]) then RStrip(s[..|s| - 1]) else s
  }

  /** `s.strip()`, which is also `s.rstrip().lstrip()` */
  function Strip(s: string): (r: string)
    ensures r == [] || (!IsSpace(r[0]) && !IsSpace(r[|r| - 1]))
    ensures forall x :: x in r ==> x in s
  {
    var t := RStrip(s);
    var r := LStrip(t);
    assert r == s[|t| - |r|..|t|];
    SliceMembers(s, |t| - |r|, |t|);
    r
  }

  lemma SliceMembers(s: string, a: nat, b: nat)
    requires a <= b <= |s|
    ensures forall i :: 0 <= i < b - a ==> s[a..b][i] in s
  {
    assert forall i :: 0 <= i < b - a ==> s[a..b][i] == s[a + i];
  }

  /** `sub in s` */
  predicate Contains(s: string, sub: string)
    decreases |s|
  {
    sub <= s || (s != [] && Contains(s[1..], sub))
  }

  lemma {:induction false} ContainsWithin(s: string, sub: string, k: nat)
    requires k + |sub| <= |s| && s[k..k + |sub|] == sub
    ensures Contains(s, sub)
    decreases k
  {
    if k > 0 {
      assert s[1..][k - 1..k - 1 + |sub|] == s[k..k + |sub|];
      ContainsWithin(s[1..], sub, k - 1);
    }
  }

  /** One character of `str.lower()`: ASCII and Latin-1 capitals. */
  function LowerChar(c: char): char {
    if 'A' <= c <= 'Z' || ('\U{C0}' <= c <= '\U{DE}' && c != '\U{D7}') then
      (c as int + 32) as char
    else
      c
  }

  /** `s.lower()` */
  function Lower(s: string): (r: string)
    ensures |r| == |s|
    ensures forall i :: 0 <= i < |s| ==> r[i] == LowerChar(s[i])
  {
    if s == [] then [] else [LowerChar(s[0])] + Lower(s[1..])
  }

  /** The longest prefix of `s` that holds no whitespace. */
  function Word(s: string): (w: string)
    ensures w <= s && NoSpace(w)
    ensures |w| == |s| || IsSpace(s[|w|])
    ensures s != [] && !IsSpace(s[0]) ==> w != []
  {
    if s == [] || IsSpace(s[0]) then [] else [s[0]] + Word(s[1..])
  }

  /** `s.split()`: the maximal runs of non-whitespace characters, in order. */
  function Split(s: string): (r: seq<string>)
    ensures forall k :: 0 <= k < |r| ==> r[k] != [] && NoSpace(r[k])
    decreases |s|
  {
    if s == [] then []
    else if IsSpace(s[0]) then Split(s[1..])
    else
      var w := Word(s);
      [w] + Split(s[|w|..])
  }

  /** `sep.join(parts)` */
  function Join(sep: string, parts: seq<string>): string
  {
    if parts == [] then []
    else if |parts| == 1 then parts[0]
    else parts[0] + sep + Join(sep, parts[1..])
  }

  /** `s.split(sep)` for a one-character separator: never empty, separators dropped. */
  function SplitOn(s: string, sep: char): (r: seq<string>)
    ensures |r| >= 1
    ensures forall k :: 0 <= k < |r| ==> sep !in r[k]
  {
    if s == [] then [[]]
    else if s[0] == sep then [[]] + SplitOn(s[1..], sep)
    else
      var rest := SplitOn(s[1..], sep);
      [[s[0]] + rest[0]] + rest[1..]
  }

  /** `s.replace(c, new)` for a one-character pattern. */
  function ReplaceChar(s: string, c: char, repl: string): (r: string)
    ensures forall x :: x in r ==> x in repl || (x != c && x in s)
  {
    if s == [] then []
    else
      var head := if s[0] == c then repl else [s[0]];
      var tail := ReplaceChar(s[1..], c, repl);
      assert forall x :: x in s[1..] ==> x in s;
      head + tail
  }

  /** Replacement of a single character works piece by piece. */
  lemma {:induction false} ReplaceCharAppend(a: string, b: string, c: char, repl: string)
    ensures ReplaceChar(a + b, c, repl) == ReplaceChar(a, c, repl) + ReplaceChar(b, c, repl)
  {
    if a != [] {
      assert (a + b)[1..] == a[1..] + b;
      ReplaceCharAppend(a[1..], b, c, repl);
    } else {
      assert a + b == b;
    }
  }

  /** `s.replace(pat, new)`: non-overlapping occurrences, scanned left to right. */
  function Replace(s: string, pat: string, repl: string): string
    requires pat != []
    decreases |s|
  {
    if s == [] then []
    else if pat <= s then repl + Replace(s[|pat|..], pat, repl)
    else [s[0]] + Replace(s[1..], pat, repl)
  }

  /** Value of a string of decimal digits, most significant first. */
  function DigitsValue(ds: string): nat
    requires AllDigits(ds)
  {
    if ds == [] then 0 else DigitsValue(ds[..|ds| - 1]) * 10 + (ds[|ds| - 1] as int - '0' as int)
  }

  /**
   * Python `int(s)` on ASCII text: surrounding whitespace, an optional
   * sign, then one or more ASCII digits; anything else is `None` here,
   * where Python raises ValueError. The underscores between digits and the
   * non-ASCII decimal digits that Python also accepts are read as `None`.
   */
  function ParseInt(s: string): Option<int>
  {
    var t := Strip(s);
    if t != [] && (t[0] == '-' || t[0] == '+') then
      if |t| > 1 && AllDigits(t[1..]) then
        var v: int := DigitsValue(t[1..]);
        Some(if t[0] == '-' then -v else v)
      else None
    else if t != [] && AllDigits(t) then Some(DigitsValue(t))
    else None
  }

  /** Python `str(n)` for a natural number. */
  function NatToString(n: nat): (s: string)
    ensures s != [] && AllDigits(s)
  {
    if n < 10 then [('0' as int + n) as char]
    else NatToString(n / 10) + [('0' as int + n % 10) as char]
  }

  /** Python `str(n)` for any integer. */
  function IntToString(n: int): (s: string)
    ensures s != []
  {
    if n < 0 then "-" + NatToString(-n) else NatToString(n)
  }

  // ---------------------------------------------------------------------
  // Properties of the builtins that the model relies on

  /** Every whitespace character of `s` is the plain blank. */
  predicate BlanksOnly(s: string) {
    forall x :: x in s && IsSpace(x) ==> x == ' '
  }

  /** `str(n)` is read back by `int()`: decimal rendering and parsing are inverse. */
  lemma {:induction false} NatToStringValue(n: nat)
    ensures DigitsValue(NatToString(n)) == n
    decreases n
  {
    if n >= 10 {
      var s := NatToString(n / 10);
      var d := ('0' as int + n % 10) as char;
      assert (s + [d])[..|s + [d]| - 1] == s;
      NatToStringValue(n / 10);
    }
  }

  lemma StripNoSpace(s: string)
    requires NoSpace(s)
    ensures Strip(s) == s
  {
  }

  /** A string that neither starts nor ends with whitespace is its own `strip()`. */
  lemma StripTrimmed(s: string)
    requires s == [] || (!IsSpace(s[0]) && !IsSpace(s[|s| - 1]))
    ensures Strip(s) == s
  {
  }

  lemma ParseIntNatToString(n: nat)
    ensures ParseInt(NatToString(n)) == Some(n)
  {
    var s := NatToString(n);
    StripNoSpace(s);
    NatToStringValue(n);
  }

  /** `int(str(n)) == n` for every integer. */
  lemma ParseIntIntToString(n: int)
    ensures ParseInt(IntToString(n)) == Some(n)
  {
    if n < 0 {
      var d := NatToString(-n);
      var s := "-" + d;
      assert s[1..] == d;
      assert !IsSpace(s[0]) && !IsSpace(s[|s| - 1]);
      StripTrimmed(s);
      NatToStringValue(-n);
    } else {
      ParseIntNatToString(n);
    }
  }

  /** Splitting on a separator and joining with it gives the string back. */
  lemma {:induction false} JoinSplitOn(s: string, sep: char)
    ensures Join([sep], SplitOn(s, sep)) == s
    decreases |s|
  {
    if s == [] {
    } else if s[0] == sep {
      JoinSplitOn(s[1..], sep);
      var rest := SplitOn(s[1..], sep);
      assert ([[]] + rest)[1..] == rest;
    } else {
      JoinSplitOn(s[1..], sep);
      var rest := SplitOn(s[1..], sep);
      var parts := [[s[0]] + rest[0]] + rest[1..];
      assert SplitOn(s, sep) == parts;
      if |rest| == 1 {
        assert Join([sep], parts) == [s[0]] + rest[0];
      } else {
        assert parts[1..] == rest[1..];
        assert Join([sep], rest) == rest[0] + [sep] + Join([sep], rest[1..]);
        assert Join([sep], parts) == [s[0]] + rest[0] + [sep] + Join([sep], rest[1..]);
      }
    }
  }

  /** Joining non-empty words with a blank leaves the blank as the only whitespace. */
  lemma {:induction false} JoinWordsBlanks(parts: seq<string>)
    requires forall k :: 0 <= k < |parts| ==> NoSpace(parts[k])
    ensures BlanksOnly(Join(" ", parts))
    decreases |parts|
  {
    if |parts| > 1 {
      JoinWordsBlanks(parts[1..]);
      var rest := Join(" ", parts[1..]);
      var j := parts[0] + " " + rest;
      assert Join(" ", parts) == j;
      assert forall x :: x in j ==> x in parts[0] || x == ' ' || x in rest;
    }
  }

  lemma {:induction false} SplitAllSpaces(sp: string)
    requires forall i :: 0 <= i < |sp| ==> IsSpace(sp[i])
    ensures Split(sp) == []
    decreases |sp|
  {
    if sp != [] {
      SplitAllSpaces(sp[1..]);
    }
  }

  lemma {:induction false} WordAppend(s: string, t: string)
    requires t == [] || IsSpace(t[0])
    ensures Word(s + t) == Word(s)
    decreases |s|
  {
    if s != [] && !IsSpace(s[0]) {
      assert (s + t)[1..] == s[1..] + t;
      WordAppend(s[1..], t);
    }
  }

  /** Trailing whitespace does not change `split()`. */
  lemma {:induction false} SplitAppendSpaces(s: string, sp: string)
    requires forall i :: 0 <= i < |sp| ==> IsSpace(sp[i])
    ensures Split(s + sp) == Split(s)
    decreases |s|
  {
    if s == [] {
      assert s + sp == sp;
      SplitAllSpaces(sp);
    } else if IsSpace(s[0]) {
      assert (s + sp)[1..] == s[1..] + sp;
      SplitAppendSpaces(s[1..], sp);
    } else {
      WordAppend(s, sp);
      var w := Word(s);
      assert (s + sp)[|w|..] == s[|w|..] + sp;
      SplitAppendSpaces(s[|w|..], sp);
    }
  }

  /** Leading whitespace does not change `split()`. */
  lemma {:induction false} SplitLStrip(s: string)
    ensures Split(LStrip(s)) == Split(s)
    decreases |s|
  {
    if s != [] && IsSpace(s[0]) {
      SplitLStrip(s[1..]);
    }
  }

  /** `split()` ignores surrounding whitespace, so `s.strip().split() == s.split()`. */
  lemma SplitStrip(s: string)
    ensures Split(Strip(s)) == Split(s)
  {
    var t := RStrip(s);
    assert s == t + s[|t|..];
    SplitAppendSpaces(t, s[|t|..]);
    SplitLStrip(t);
  }

  lemma {:induction false} SplitOneWord(s: string)
    requires s != [] && NoSpace(s)
    ensures Split(s) == [s]
  {
    WordWhole(s);
  }

  lemma {:induction false} WordWhole(s: string)
    requires NoSpace(s)
    ensures Word(s) == s
    decreases |s|
  {
    if s != [] {
      WordWhole(s[1..]);
    }
  }

  lemma {:induction false} ReplaceCharAbsent(s: string, c: char, repl: string)
    requires c !in s
    ensures ReplaceChar(s, c, repl) == s
    decreases |s|
  {
    if s != [] {
      ReplaceCharAbsent(s[1..], c, repl);
    }
  }

  lemma {:induction false} ReplaceAbsent(s: string, pat: string, repl: string)
    requires pat != [] && !Contains(s, pat)
    ensures Replace(s, pat, repl) == s
    decreases |s|
  {
    if s != [] {
      ReplaceAbsent(s[1..], pat, repl);
    }
  }

  /** An occurrence that `Contains` finds has a position. */
  lemma {:induction false} ContainsWitness(s: string, sub: string) returns (k: nat)
    requires Contains(s, sub)
    ensures k + |sub| <= |s| && s[k..k + |sub|] == sub
    decreases |s|
  {
    if sub <= s {
      k := 0;
    } else {
      var j := ContainsWitness(s[1..], sub);
      assert s[1..][j..j + |sub|] == s[j + 1..j + 1 + |sub|];
      k := j + 1;
    }
  }

  /** Stripping keeps every character that is not whitespace. */
  lemma StripKeeps(s: string, k: nat)
    requires k < |s| && !IsSpace(s[k])
    ensures s[k] in Strip(s)
  {
    var t := RStrip(s);
    var r := LStrip(t);
    assert k < |t|;
    assert k >= |t| - |r|;
    assert r[k - (|t| - |r|)] == s[k];
  }

  /** `strip` is idempotent. */
  lemma StripIdempotent(s: string)
    ensures Strip(Strip(s)) == Strip(s)
  {
    StripTrimmed(Strip(s));
  }

  /** Removing occurrences of `pat` never lengthens the text. */
  lemma {:induction false} ReplaceEmptyShorter(s: string, pat: string)
    requires pat != []
    ensures |Replace(s, pat, "")| <= |s|
    decreases |s|
  {
    if s != [] {
      if pat <= s {
        ReplaceEmptyShorter(s[|pat|..], pat);
      } else {
        ReplaceEmptyShorter(s[1..], pat);
      }
    }
  }

  /** A character the pattern does not contain survives replacement. */
  lemma {:induction false} ReplaceKeeps(s: string, pat: string, repl: string, x: char)
    requires pat != [] && x in s && x !in pat
    ensures x in Replace(s, pat, repl)
    decreases |s|
  {
    if pat <= s {
      assert s == pat + s[|pat|..];
      assert x in s[|pat|..];
      ReplaceKeeps(s[|pat|..], pat, repl, x);
    } else if x != s[0] {
      assert s == [s[0]] + s[1..];
      ReplaceKeeps(s[1..], pat, repl, x);
    }
  }

  /**
   * Replacement of a text that ends in the pattern, where no occurrence
   * starts earlier, drops exactly that final occurrence.
   */
  lemma {:induction false} ReplaceFinal(n: string, pat: string)
    requires pat != []
    requires forall i :: 0 <= i < |n| ==> !(pat <= (n + pat)[i..])
    ensures Replace(n + pat, pat, "") == n
    decreases |n|
  {
    if n == [] {
      assert n + pat == pat;
      assert pat[|pat|..] == [];
    } else {
      assert !(pat <= (n + pat)[0..]);
      assert (n + pat)[1..] == n[1..] + pat;
      forall i | 0 <= i < |n[1..]|
        ensures !(pat <= (n[1..] + pat)[i..])
      {
        assert (n[1..] + pat)[i..] == (n + pat)[i + 1..];
      }
      ReplaceFinal(n[1..], pat);
    }
  }

  /** The last part of a join comes after the last separator. */
  lemma {:induction false} JoinLast(sep: string, parts: seq<string>)
    requires |parts| >= 2
    ensures Join(sep, parts) == Join(sep, parts[..|parts| - 1]) + sep + parts[|parts| - 1]
    decreases |parts|
  {
    var n := |parts|;
    if n > 2 {
      JoinLast(sep, parts[1..]);
      assert parts[1..][..n - 2] == parts[..n - 1][1..];
      assert parts[1..][n - 2] == parts[n - 1];
    } else {
      assert parts[..1] == [parts[0]];
      assert parts[1..] == [parts[1]];
    }
  }

  /** A string holding the separator splits into at least two parts. */
  lemma {:induction false} SplitOnHasSep(s: string, sep: char)
    requires sep in s
    ensures |SplitOn(s, sep)| >= 2
    decreases |s|
  {
    if s[0] != sep {
      assert sep in s[1..];
      SplitOnHasSep(s[1..], sep);
    }
  }

  /** A string without the separator is its own single part. */
  lemma {:induction false} SplitOnAbsent(s: string, sep: char)
    requires sep !in s
    ensures SplitOn(s, sep) == [s]
    decreases |s|
  {
    if s != [] {
      assert sep !in s[1..];
      SplitOnAbsent(s[1..], sep);
      assert [s[0]] + s[1..] == s;
    }
  }

  /** The part before the first separator comes off first. */
  lemma {:induction false} SplitOnPrefix(a: string, b: string, sep: char)
    requires sep !in a
    ensures SplitOn(a + [sep] + b, sep) == [a] + SplitOn(b, sep)
    decreases |a|
  {
    var s := a + [sep] + b;
    if a == [] {
      assert s == [sep] + b;
      assert s[1..] == b;
    } else {
      assert s[1..] == a[1..] + [sep] + b;
      assert sep !in a[1..];
      SplitOnPrefix(a[1..], b, sep);
      assert [a[0]] + a[1..] == a;
    }
  }

  /** Splitting at one separator splits the two sides independently. */
  lemma {:induction false} SplitOnConcat(a: string, b: string, sep: char)
    ensures SplitOn(a + [sep] + b, sep) == SplitOn(a, sep) + SplitOn(b, sep)
    decreases |a|
  {
    var s := a + [sep] + b;
    if a == [] {
      assert s == [sep] + b && s[1..] == b;
    } else {
      assert s[0] == a[0] && s[1..] == a[1..] + [sep] + b;
      SplitOnConcat(a[1..], b, sep);
    }
  }

  /** Joining parts free of the separator and splitting again gives the parts back. */
  lemma {:induction false} SplitOnJoin(parts: seq<string>, sep: char)
    requires |parts| >= 1
    requires forall k :: 0 <= k < |parts| ==> sep !in parts[k]
    ensures SplitOn(Join([sep], parts), sep) == parts
    decreases |parts|
  {
    if |parts| == 1 {
      SplitOnAbsent(parts[0], sep);
    } else {
      SplitOnJoin(parts[1..], sep);
      SplitOnPrefix(parts[0], Join([sep], parts[1..]), sep);
      assert [parts[0]] + parts[1..] == parts;
    }
  }

  /** A join starts with the first part's first character and ends with the last part's last one. */
  lemma {:induction false} JoinEnds(sep: string, parts: seq<string>)
    requires |parts| >= 1 && parts[|parts| - 1] != []
    ensures var t := Join(sep, parts); var last := parts[|parts| - 1];
      t != [] && t[|t| - 1] == last[|last| - 1] && (parts[0] != [] ==> t[0] == parts[0][0])
    decreases |parts|
  {
    if |parts| > 1 {
      var rest := parts[1..];
      assert rest[|rest| - 1] == parts[|parts| - 1];
      JoinEnds(sep, rest);
      var j := Join(sep, rest);
      var t := parts[0] + sep + j;
      assert Join(sep, parts) == t;
      assert t[|t| - 1] == j[|j| - 1];
    }
  }

  /** A string holding the separator is the join of all parts but the last, the separator, and the last part. */
  lemma SplitOnLastPart(s: string, sep: char)
    requires sep in s
    ensures var parts := SplitOn(s, sep);
      s == Join([sep], parts[..|parts| - 1]) + [sep] + parts[|parts| - 1]
  {
    var parts := SplitOn(s, sep);
    SplitOnHasSep(s, sep);
    JoinLast([sep], parts);
    JoinSplitOn(s, sep);
  }
}
