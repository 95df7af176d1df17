/**
 * String normalisation and cleaning used by every extraction step:
 * `clean_string`, the banned-fragment filter, `clean_list` and
 * `normalize_str` (whose Unicode folding is a parameter).
 */
module Util {
  import opened Base
  import opened Strings

  /** A character that `clean_string` never leaves behind. */
  predicate Removed(c: char) {
    c == '.' || c == '\r' || c == '\n' || c == '\U{A0}' || c == '\U{AD}'
  }

  /** What `clean_string`'s five replacements turn one character into. */
  function CleanChar(c: char): string {
    if c == '\r' || c == '.' then ""
    else if c == '\n' || c == '\U{A0}' then " "
    else if c == '\U{AD}' then "-"
    else [c]
  }

  /** The five replacements of `clean_string`, applied character by character. */
  function CleanChars(s: string): string {
    if s == [] then [] else CleanChar(s[0]) + CleanChars(s[1..])
  }

  /**
   * `clean_string`: whitespace runs become single blanks, then '\r' and '.'
   * are deleted, '\n' and '\xa0' become blanks, '\xad' becomes '-', and the
   * result is stripped.
   */
  function CleanString(text: string): string {
    Strip(CleanChars(Join(" ", Split(text))))
  }

  /** The source's chain of five `str.replace` calls, in the source's order. */
  function ReplaceChain(s: string): string {
    ReplaceChar(ReplaceChar(ReplaceChar(ReplaceChar(ReplaceChar(
      s, '\r', ""), '.', ""), '\n', " "), '\U{A0}', " "), '\U{AD}', "-")
  }

  lemma ReplaceChainAppend(a: string, b: string)
    ensures ReplaceChain(a + b) == ReplaceChain(a) + ReplaceChain(b)
  {
    ReplaceCharAppend(a, b, '\r', "");
    var a1 := ReplaceChar(a, '\r', "");
    var b1 := ReplaceChar(b, '\r', "");
    ReplaceCharAppend(a1, b1, '.', "");
    var a2 := ReplaceChar(a1, '.', "");
    var b2 := ReplaceChar(b1, '.', "");
    ReplaceCharAppend(a2, b2, '\n', " ");
    var a3 := ReplaceChar(a2, '\n', " ");
    var b3 := ReplaceChar(b2, '\n', " ");
    ReplaceCharAppend(a3, b3, '\U{A0}', " ");
    var a4 := ReplaceChar(a3, '\U{A0}', " ");
    var b4 := ReplaceChar(b3, '\U{A0}', " ");
    ReplaceCharAppend(a4, b4, '\U{AD}', "-");
  }

  /** The one-pass `CleanChars` is the source's chain of `str.replace` calls. */
  lemma {:induction false} CleanCharsIsReplaceChain(s: string)
    ensures CleanChars(s) == ReplaceChain(s)
  {
    if s != [] {
      CleanCharsIsReplaceChain(s[1..]);
      assert s == [s[0]] + s[1..];
      ReplaceChainAppend([s[0]], s[1..]);
      ReplaceChainChar(s[0]);
    }
  }

  lemma ReplaceChainChar(c: char)
    ensures ReplaceChain([c]) == CleanChar(c)
  {
    ReplaceCharOne(c, '\r', "");
    ReplaceCharOne(c, '.', "");
    ReplaceCharOne(c, '\n', " ");
    ReplaceCharOne(c, '\U{A0}', " ");
    ReplaceCharOne(c, '\U{AD}', "-");
    ReplaceCharOne(' ', '\U{A0}', " ");
    ReplaceCharOne(' ', '\U{AD}', "-");
  }

  lemma ReplaceCharOne(c: char, x: char, repl: string)
    ensures ReplaceChar([c], x, repl) == if c == x then repl else [c]
  {
    assert [c][1..] == [];
  }

  /** The replacements leave no removed character and add no whitespace but blanks. */
  lemma {:induction false} CleanCharsClean(s: string)
    requires BlanksOnly(s)
    ensures forall x :: x in CleanChars(s) ==> !Removed(x)
    ensures BlanksOnly(CleanChars(s))
  {
    if s != [] {
      assert forall x :: x in s[1..] ==> x in s;
      CleanCharsClean(s[1..]);
    }
  }

  /**
   * What is left after `clean_string`: no deleted or replaced character, no
   * whitespace other than the plain blank, and no whitespace at either end.
   */
  lemma CleanStringClean(text: string)
    ensures var r := CleanString(text);
      (forall x :: x in r ==> !Removed(x)) && BlanksOnly(r) &&
      (r == [] || (!IsSpace(r[0]) && !IsSpace(r[|r| - 1])))
  {
    var joined := Join(" ", Split(text));
    JoinWordsBlanks(Split(text));
    CleanCharsClean(joined);
  }

  /** Fragments known to be transcription noise or people outside the chamber. */
  const BannedSet: set<string> := {
    " Ramaekers Jef",
    " Collignon Christophe",
    "Collignon Christophe",
    "Christophe Collignon",
    " Annane Jihane",
    "Annane Jihane",
    "Jihane Annane",
    "(Ingevolge een technisch mankement werd de stemming van mevrouw Inge Vervotte",
    " afwezig",
    " opgenomen)",
    "(A la suite d\U{2019}une erreur technique",
    " le vote de Mme Inge Vervotte",
    " absente",
    "(Om technische redenen is er geen stemming nr 2 / Pour raison technique",
    " il n'y a pas de vote n\U{B0} 2)",
    "(De heer Guido De Padt heeft gestemd vanop de bank van de heer Ludo Van Campenhout",
    " afwezig)",
    " a \U{E9}t\U{E9} enregistr\U{E9})",
    "<![if !supportEmptyParas]> <![endif]>"
  }

  /** No banned fragment is empty or ends with a decimal digit. */
  lemma BannedEndNonDigit()
    ensures forall b :: b in BannedSet ==> b != [] && !IsDigit(b[|b| - 1])
  {
    forall b | b in BannedSet ensures b != [] && !IsDigit(b[|b| - 1]) {
      if b == " Ramaekers Jef" {
        assert b[|b| - 1] == 'f';
      } else if b == " Collignon Christophe" {
        assert b[|b| - 1] == 'e';
      } else if b == "Collignon Christophe" {
        assert b[|b| - 1] == 'e';
      } else if b == "Christophe Collignon" {
        assert b[|b| - 1] == 'n';
      } else if b == " Annane Jihane" {
        assert b[|b| - 1] == 'e';
      } else if b == "Annane Jihane" {
        assert b[|b| - 1] == 'e';
      } else if b == "Jihane Annane" {
        assert b[|b| - 1] == 'e';
      } else if b == "(Ingevolge een technisch mankement werd de stemming van mevrouw Inge Vervotte" {
        assert b[|b| - 1] == 'e';
      } else if b == " afwezig" {
        assert b[|b| - 1] == 'g';
      } else if b == " opgenomen)" {
        assert b[|b| - 1] == ')';
      } else if b == "(A la suite d\U{2019}une erreur technique" {
        assert b[|b| - 1] == 'e';
      } else if b == " le vote de Mme Inge Vervotte" {
        assert b[|b| - 1] == 'e';
      } else if b == " absente" {
        assert b[|b| - 1] == 'e';
      } else if b == "(Om technische redenen is er geen stemming nr 2 / Pour raison technique" {
        assert b[|b| - 1] == 'e';
      } else if b == " il n'y a pas de vote n\U{B0} 2)" {
        assert b[|b| - 1] == ')';
      } else if b == "(De heer Guido De Padt heeft gestemd vanop de bank van de heer Ludo Van Campenhout" {
        assert b[|b| - 1] == 't';
      } else if b == " afwezig)" {
        assert b[|b| - 1] == ')';
      } else if b == " a \U{E9}t\U{E9} enregistr\U{E9})" {
        assert b[|b| - 1] == ')';
      } else if b == "<![if !supportEmptyParas]> <![endif]>" {
        assert b[|b| - 1] == '>';
      }
    }
  }

  /** `is_string_banned`: exact membership, so a leading blank is significant. */
  predicate IsStringBanned(s: string) {
    s in BannedSet
  }

  /** `is_string_banned_or_empty` */
  predicate IsStringBannedOrEmpty(s: string) {
    s == [] || IsStringBanned(s)
  }

  /**
   * A list comprehension `[f(x) for x in items if keep(x)]`: the kept items,
   * in order, each mapped by `f`.
   */
  function FilterMap(items: seq<string>, keep: string -> bool, f: string -> string): (r: seq<string>)
    ensures |r| <= |items|
  {
    if items == [] then []
    else
      var rest := FilterMap(items[1..], keep, f);
      if keep(items[0]) then [f(items[0])] + rest else rest
  }

  /** Every output item is `f` of a kept input item. */
  lemma {:induction false} FilterMapMembers(items: seq<string>, keep: string -> bool, f: string -> string)
    ensures forall y :: y in FilterMap(items, keep, f) ==> exists x :: x in items && keep(x) && y == f(x)
    decreases |items|
  {
    if items != [] {
      FilterMapMembers(items[1..], keep, f);
      assert forall x :: x in items[1..] ==> x in items;
    }
  }

  /** The items `clean_list` keeps: neither empty nor banned, tested before cleaning. */
  predicate Kept(s: string) {
    !IsStringBannedOrEmpty(s)
  }

  /** `clean_list`: keep, in order, the items that are neither empty nor banned and clean each. */
  function CleanList(items: seq<string>): seq<string> {
    FilterMap(items, Kept, CleanString)
  }

  /**
   * `normalize_str`: clean the stripped text and fold it to ASCII; `fold`
   * stands for the NFKD decomposition followed by dropping non-ASCII.
   */
  function NormalizeStr(fold: string -> string, text: string): (r: string)
    ensures r == fold(CleanString(text))
  {
    CleanStringStrip(text);
    fold(CleanString(Strip(text)))
  }

  // ---------------------------------------------------------------------
  // Lemmas

  /** Stripping first is redundant: `clean_string` already splits on whitespace. */
  lemma CleanStringStrip(text: string)
    ensures CleanString(Strip(text)) == CleanString(text)
  {
    SplitStrip(text);
  }

  /** A word without whitespace, '.' or soft hyphen is already clean. */
  lemma CleanStringPlainWord(s: string)
    requires s != [] && NoSpace(s) && '.' !in s && '\U{AD}' !in s
    ensures CleanString(s) == s
  {
    SplitOneWord(s);
    assert Join(" ", [s]) == s;
    CleanCharsPlain(s);
    StripNoSpace(s);
  }

  /** Characters other than the five replaced ones pass through unchanged. */
  lemma {:induction false} CleanCharsPlain(s: string)
    requires NoSpace(s) && '.' !in s && '\U{AD}' !in s
    ensures CleanChars(s) == s
  {
    if s != [] {
      var t := s[1..];
      assert !IsSpace(s[0]) && s[0] != '.' && s[0] != '\U{AD}';
      assert CleanChar(s[0]) == [s[0]];
      assert NoSpace(t) by {
        forall i | 0 <= i < |t| ensures !IsSpace(t[i]) {
          assert t[i] == s[i + 1];
        }
      }
      assert forall x :: x in t ==> x in s;
      CleanCharsPlain(t);
      assert s == [s[0]] + t;
    }
  }

  /** The decimal rendering of a count survives cleaning unchanged. */
  lemma CleanStringNatToString(n: nat)
    ensures CleanString(NatToString(n)) == NatToString(n)
  {
    var s := NatToString(n);
    assert forall i :: 0 <= i < |s| ==> IsDigit(s[i]);
    CleanStringPlainWord(s);
  }

  /** A lone '.' between blanks is deleted after the whitespace has been joined. */
  lemma CleanStringDropsDot()
    ensures CleanString("a . b") == "a  b"
  {
    SplitDotted();
    assert Join(" ", ["a", ".", "b"]) == "a . b";
    CleanCharsDotted();
    StripTrimmed("a  b");
  }

  lemma CleanCharsDotted()
    ensures CleanChars("a . b") == "a  b"
  {
    assert "a . b"[1..] == " . b";
    assert " . b"[1..] == ". b";
    assert ". b"[1..] == " b";
    assert " b"[1..] == "b";
  }

  lemma CleanStringJoinsBlanks()
    ensures CleanString("a  b") == "a b"
  {
    SplitDoubleBlank();
    assert Join(" ", ["a", "b"]) == "a b";
    assert CleanChars("a b") == "a b" by {
      assert "a b"[1..] == " b";
      assert " b"[1..] == "b";
    }
    StripTrimmed("a b");
  }

  /** `clean_string` is not idempotent: the double blank left by a deleted '.' is joined on a second pass. */
  lemma CleanStringNotIdempotent()
    ensures CleanString(CleanString("a . b")) != CleanString("a . b")
  {
    CleanStringDropsDot();
    CleanStringJoinsBlanks();
    assert "a b" != "a  b" by {
      assert |"a b"| == 3;
    }
  }

  lemma SplitDotted()
    ensures Split("a . b") == ["a", ".", "b"]
  {
    assert "a . b"[1..] == " . b";
    assert " . b"[1..] == ". b";
    assert ". b"[1..] == " b";
    assert " b"[1..] == "b";
    assert Word("b") == "b";
    assert Word(". b") == ".";
    assert Word("a . b") == "a";
    assert Split("b") == ["b"];
    assert Split(" b") == ["b"];
    assert Split(". b") == ["."] + Split(" b");
    assert Split(" . b") == [".", "b"];
  }

  lemma SplitDoubleBlank()
    ensures Split("a  b") == ["a", "b"]
  {
    assert "a  b"[1..] == "  b";
    assert "  b"[1..] == " b";
    assert " b"[1..] == "b";
    assert Word("b") == "b";
    assert Word("a  b") == "a";
    assert Split("b") == ["b"];
    assert Split(" b") == ["b"];
    assert Split("  b") == ["b"];
  }


  /** A comprehension distributes over concatenation, so it keeps the input order. */
  lemma {:induction false} FilterMapAppend(a: seq<string>, b: seq<string>, keep: string -> bool, f: string -> string)
    ensures FilterMap(a + b, keep, f) == FilterMap(a, keep, f) + FilterMap(b, keep, f)
    decreases |a|
  {
    if a != [] {
      assert (a + b)[1..] == a[1..] + b;
      FilterMapAppend(a[1..], b, keep, f);
    } else {
      assert a + b == b;
    }
  }

  /**
   * Nothing is invented: every output item is the cleaned form of an input
   * item that is neither empty nor banned.
   */
  lemma CleanListMembers(items: seq<string>)
    ensures |CleanList(items)| <= |items|
    ensures forall y :: y in CleanList(items) ==>
      exists x :: x in items && Kept(x) && y == CleanString(x)
  {
    var r := FilterMap(items, Kept, CleanString);
    FilterMapMembers(items, Kept, CleanString);
    forall y | y in r ensures exists x :: x in items && Kept(x) && y == CleanString(x) {
      var x :| x in items && Kept(x) && y == CleanString(x);
    }
  }

  /** `clean_list` distributes over concatenation. */
  lemma CleanListAppend(a: seq<string>, b: seq<string>)
    ensures CleanList(a + b) == CleanList(a) + CleanList(b)
  {
    FilterMapAppend(a, b, Kept, CleanString);
  }

  /** One item is dropped when empty or banned, and cleaned otherwise. */
  lemma CleanListSingle(x: string)
    ensures CleanList([x]) == if IsStringBannedOrEmpty(x) then [] else [CleanString(x)]
  {
    assert [x][1..] == [];
    assert FilterMap([x][1..], Kept, CleanString) == [];
    assert Kept(x) == !IsStringBannedOrEmpty(x);
  }

  /** The banned test is exact: the fragment with its leading blank is banned, the bare name is not. */
  lemma BannedLeadingBlankSignificant()
    ensures IsStringBanned(" afwezig") && !IsStringBanned("afwezig")
    ensures IsStringBanned(" Ramaekers Jef") && !IsStringBanned("Ramaekers Jef")
  {
  }
}
