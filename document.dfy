/**
 * The text rules of the legislative-document and parliamentary-question
 * pages: `extract_name`, the author lines of both pages, the question
 * title, the two-step author lookup, and the bounded re-fetch of a page
 * that shows the site's error notice. What the parsed pages yield is an
 * input here; the records are what the two loaders keep.
 */
module Document {
  import opened Base
  import opened Strings
  import opened Util
  import opened Common

  // ---------------------------------------------------------------------
  // extract_name: re.match(r"(.+, .+) (\S+)$", name)

  /** `g` matches `.+, .+`: a ", " with at least one character on either side. */
  predicate CommaSplit(g: string) {
    |g| >= 2 && Contains(g[1..|g| - 1], ", ")
  }

  /** Where `$` may sit: the very end, or just before a final newline. */
  function NameEnd(s: string): (e: nat)
    ensures e <= |s|
    ensures e == |s| || (e == |s| - 1 && s[e] == '\n')
  {
    if s != [] && s[|s| - 1] == '\n' then |s| - 1 else |s|
  }

  /** The last whitespace position before `e`. */
  function LastSpace(s: string, e: nat): (r: Option<nat>)
    requires e <= |s|
    ensures r.Some? ==> r.value < e && IsSpace(s[r.value])
    ensures r.Some? ==> forall k :: r.value < k < e ==> !IsSpace(s[k])
    ensures r.None? ==> forall k :: 0 <= k < e ==> !IsSpace(s[k])
    decreases e
  {
    if e == 0 then None
    else if IsSpace(s[e - 1]) then Some(e - 1)
    else LastSpace(s, e - 1)
  }

  /**
   * Group 1 of the match, or `None` when the pattern does not match. The
   * trailing `\S+` cannot hold whitespace, so the blank before it is the
   * last whitespace before `$`; `.` does not match a newline.
   */
  function NameHead(s: string): Option<string> {
    var e := NameEnd(s);
    match LastSpace(s, e)
    case None => None
    case Some(q) =>
      if s[q] == ' ' && q + 1 < e && '\n' !in s[..q] && CommaSplit(s[..q]) then Some(s[..q]) else None
  }

  /** The fragment the "het kartel" fix removes. */
  const Kartel := " CD&V -"

  /** `extract_name`: the name in front of the trailing token, cleaned, or the input. */
  function ExtractName(name: string): string {
    match NameHead(name)
    case None => name
    case Some(g) =>
      var res := Replace(g, Kartel, "");
      CommaSplitHasComma(g);
      ReplaceKeeps(g, Kartel, "", ',');
      if res[|res| - 1] == ',' then res[..|res| - 1] else res
  }

  lemma CommaSplitHasComma(g: string)
    requires CommaSplit(g)
    ensures ',' in g
  {
    var v := g[1..|g| - 1];
    var k := ContainsWitness(v, ", ");
    assert v[k..k + 2][0] == v[k];
  }

  lemma CommaSplitExtend(g: string, x: string)
    requires CommaSplit(g)
    ensures CommaSplit(g + x)
  {
    var v := g[1..|g| - 1];
    var k := ContainsWitness(v, ", ");
    assert v[k] == ',' && v[k + 1] == ' ' by {
      assert v[k..k + 2][0] == v[k] && v[k..k + 2][1] == v[k + 1];
    }
    var h := g + x;
    var w := h[1..|h| - 1];
    assert w[k] == v[k] && w[k + 1] == v[k + 1];
    assert w[k..k + 2] == ", ";
    ContainsWithin(w, ", ", k);
  }

  /**
   * The pattern matches exactly the texts made of a head matching
   * `.+, .+` without newline, one blank, a token without whitespace, and
   * at most one final newline; group 1 is that head.
   */
  lemma NameHeadOf(g: string, t: string, tail: string)
    requires CommaSplit(g) && '\n' !in g
    requires t != [] && NoSpace(t)
    requires tail == [] || tail == "\n"
    ensures NameHead(g + " " + t + tail) == Some(g)
  {
    var s := g + " " + t + tail;
    var e := |g| + 1 + |t|;
    assert !IsSpace(s[e - 1]) by { assert s[e - 1] == t[|t| - 1]; }
    assert NameEnd(s) == e;
    assert IsSpace(s[|g|]);
    forall k | |g| < k < e
      ensures !IsSpace(s[k])
    {
      assert s[k] == t[k - |g| - 1];
    }
    var r := LastSpace(s, e);
    assert r.Some?;
    assert r.value == |g|;
    assert s[..|g|] == g;
  }

  /** Conversely, a match always has that shape. */
  lemma NameHeadShape(s: string)
    requires NameHead(s).Some?
    ensures var g := NameHead(s).value; var e := NameEnd(s);
      |g| + 1 < e && s[..|g| + 1] == g + " " &&
      CommaSplit(g) && '\n' !in g && NoSpace(s[|g| + 1..e]) && s[|g| + 1..e] != []
  {
    var g := NameHead(s).value;
    var e := NameEnd(s);
    var q := LastSpace(s, e).value;
    assert q == |g|;
    var w := s[q + 1..e];
    forall k | 0 <= k < |w|
      ensures !IsSpace(w[k])
    {
      assert w[k] == s[q + 1 + k];
    }
  }

  /** A name followed by its party: the party goes, the name stays. */
  lemma ExtractNameDropsToken(g: string, t: string, tail: string)
    requires CommaSplit(g) && '\n' !in g
    requires t != [] && NoSpace(t)
    requires tail == [] || tail == "\n"
    requires !Contains(g, Kartel) && g[|g| - 1] != ','
    ensures ExtractName(g + " " + t + tail) == g
  {
    NameHeadOf(g, t, tail);
    ReplaceAbsent(g, Kartel, "");
  }

  /** One trailing comma in front of the token is dropped too. */
  lemma ExtractNameDropsComma(h: string, t: string)
    requires CommaSplit(h + ",") && '\n' !in h
    requires t != [] && NoSpace(t)
    requires !Contains(h + ",", Kartel)
    ensures ExtractName(h + "," + " " + t) == h
  {
    NameHeadOf(h + ",", t, []);
    assert h + "," + " " + t + [] == h + "," + " " + t;
    ReplaceAbsent(h + ",", Kartel, "");
    assert (h + ",")[..|h|] == h;
  }

  /**
   * The cartel notation "name CD&V - party" loses both the cartel fragment
   * and the party.
   */
  lemma ExtractNameKartel(n: string, t: string)
    requires CommaSplit(n) && '\n' !in n && '\n' !in Kartel
    requires t != [] && NoSpace(t)
    requires forall i :: 0 <= i < |n| ==> !(Kartel <= (n + Kartel)[i..])
    requires n[|n| - 1] != ','
    ensures ExtractName(n + Kartel + " " + t) == n
  {
    var g := n + Kartel;
    CommaSplitExtend(n, Kartel);
    NameHeadOf(g, t, []);
    assert g + " " + t + [] == n + Kartel + " " + t;
    ReplaceFinal(n, Kartel);
  }

  /** Without a ", " followed later by a blank there is nothing to extract. */
  lemma ExtractNameNoComma(s: string)
    requires !Contains(s, ", ")
    ensures ExtractName(s) == s
  {
    if NameHead(s).Some? {
      var g := NameHead(s).value;
      NameHeadShape(s);
      var v := g[1..|g| - 1];
      var k := ContainsWitness(v, ", ");
      assert v[k] == ',' && v[k + 1] == ' ' by {
        assert v[k..k + 2][0] == v[k] && v[k..k + 2][1] == v[k + 1];
      }
      assert s[k + 1] == v[k] && s[k + 2] == v[k + 1];
      assert s[k + 1..k + 3] == ", ";
      ContainsWithin(s, ", ", k + 1);
    }
  }

  /** The result is the input or strictly shorter: the token always goes. */
  lemma ExtractNameShorter(s: string)
    ensures ExtractName(s) == s || |ExtractName(s)| < |s|
  {
    if NameHead(s).Some? {
      var g := NameHead(s).value;
      NameHeadShape(s);
      var res := Replace(g, Kartel, "");
      ReplaceEmptyShorter(g, Kartel);
      CommaSplitHasComma(g);
      ReplaceKeeps(g, Kartel, "", ',');
      assert ExtractName(s) == if res[|res| - 1] == ',' then res[..|res| - 1] else res;
    }
  }

  // ---------------------------------------------------------------------
  // Author lines

  /** `str(text).isspace()`: non-empty and whitespace throughout. */
  predicate PyIsSpace(s: string) {
    s != [] && forall i :: 0 <= i < |s| ==> IsSpace(s[i])
  }

  /** The author lines both pages keep: not blank and holding ", ". */
  predicate AuthorLine(text: string) {
    !PyIsSpace(text) && Contains(text, ", ")
  }

  /** The blank test is redundant: a line with ", " is never all whitespace. */
  lemma AuthorLineComma(text: string)
    ensures AuthorLine(text) <==> Contains(text, ", ")
  {
    if Contains(text, ", ") {
      var k := ContainsWitness(text, ", ");
      assert !IsSpace(text[k]) by { assert text[k..k + 2][0] == text[k]; }
    }
  }

  /** A document's author names: its kept text nodes, stripped. */
  function DocumentAuthorNames(texts: seq<string>): seq<string> {
    FilterMap(texts, AuthorLine, Strip)
  }

  /** One author line, stripped, is trimmed and still holds its comma. */
  lemma AuthorNameHolds(x: string)
    requires AuthorLine(x)
    ensures ',' in Strip(x) && Strip(Strip(x)) == Strip(x)
  {
    var k := ContainsWitness(x, ", ");
    assert x[k] == ',' by { assert x[k..k + 2][0] == x[k]; }
    StripKeeps(x, k);
    StripIdempotent(x);
  }

  /** Every document author name is trimmed and still holds its comma. */
  lemma {:induction false} DocumentAuthorNamesHold(texts: seq<string>)
    ensures forall y :: y in DocumentAuthorNames(texts) ==> ',' in y && Strip(y) == y
    decreases |texts|
  {
    if texts != [] {
      DocumentAuthorNamesHold(texts[1..]);
      if AuthorLine(texts[0]) {
        AuthorNameHolds(texts[0]);
      }
    }
  }

  /** `','.join(text.strip().split(',')[:-1])`: everything before the last comma. */
  function QuestionAuthorName(text: string): string {
    var parts := SplitOn(Strip(text), ',');
    Join(",", parts[..|parts| - 1])
  }

  /** A question's author names: the kept lines of the author cell, each without its party. */
  function QuestionAuthorNames(cell: string): seq<string> {
    FilterMap(SplitOn(cell, '\n'), AuthorLine, QuestionAuthorName)
  }

  /**
   * The name of a kept question line is the stripped line up to its last
   * comma: what follows that comma (the party) holds no comma and is dropped.
   */
  lemma QuestionAuthorNameSplit(text: string)
    requires AuthorLine(text)
    ensures var parts := SplitOn(Strip(text), ',');
      Strip(text) == QuestionAuthorName(text) + "," + parts[|parts| - 1] &&
      ',' !in parts[|parts| - 1]
  {
    var k := ContainsWitness(text, ", ");
    assert text[k] == ',' by { assert text[k..k + 2][0] == text[k]; }
    StripKeeps(text, k);
    SplitOnLastPart(Strip(text), ',');
  }

  // ---------------------------------------------------------------------
  // Question title

  predicate NonBlank(item: string) {
    Strip(item) != []
  }

  /** The stripped, non-blank lines. */
  function TitleLines(lines: seq<string>): seq<string> {
    FilterMap(lines, NonBlank, Strip)
  }

  /** The title cell's stripped text with each line stripped and blank lines dropped. */
  function QuestionTitle(cell: string): string {
    Join("\n", TitleLines(SplitOn(Strip(cell), '\n')))
  }

  /** The kept lines are trimmed, non-empty and free of newlines. */
  lemma {:induction false} TitleLinesClean(lines: seq<string>)
    requires forall k :: 0 <= k < |lines| ==> '\n' !in lines[k]
    ensures forall y :: y in TitleLines(lines) ==> y != [] && Strip(y) == y && '\n' !in y
    decreases |lines|
  {
    if lines != [] {
      TitleLinesClean(lines[1..]);
      StripIdempotent(lines[0]);
    }
  }

  /** A list whose every item is kept and mapped to itself passes through unchanged. */
  lemma {:induction false} FilterMapIdentity(items: seq<string>, keep: string -> bool, f: string -> string)
    requires forall k :: 0 <= k < |items| ==> keep(items[k]) && f(items[k]) == items[k]
    ensures FilterMap(items, keep, f) == items
  {
    if items != [] {
      FilterMapIdentity(items[1..], keep, f);
    }
  }

  /** Joined non-empty trimmed lines form a trimmed text. */
  lemma JoinTrimmed(lines: seq<string>)
    requires forall k :: 0 <= k < |lines| ==> lines[k] != [] && Strip(lines[k]) == lines[k]
    ensures Strip(Join("\n", lines)) == Join("\n", lines)
  {
    var n := |lines|;
    if n > 0 {
      var first := lines[0];
      var last := lines[n - 1];
      assert !IsSpace(first[0]) && !IsSpace(last[|last| - 1]);
      JoinEnds("\n", lines);
      StripTrimmed(Join("\n", lines));
    }
  }

  /** Normalising a title a second time changes nothing. */
  lemma QuestionTitleIdempotent(cell: string)
    ensures QuestionTitle(QuestionTitle(cell)) == QuestionTitle(cell)
  {
    var lines := TitleLines(SplitOn(Strip(cell), '\n'));
    var t := Join("\n", lines);
    TitleLinesClean(SplitOn(Strip(cell), '\n'));
    assert forall k :: 0 <= k < |lines| ==> lines[k] in lines;
    JoinTrimmed(lines);
    if lines == [] {
      assert t == [];
      assert SplitOn([], '\n') == [[]];
      assert TitleLines([[]]) == [];
    } else {
      SplitOnJoin(lines, '\n');
      FilterMapIdentity(lines, NonBlank, Strip);
    }
  }

  // ---------------------------------------------------------------------
  // Author lookup

  /** Each author name through `normalize`, which stands for `normalize_str(name).decode()`. */
  function NormalizedNames(normalize: string -> string, names: seq<string>): seq<string> {
    seq(|names|, k requires 0 <= k < |names| => normalize(names[k]))
  }

  /**
   * One normalised author name looked up: as a key of the members
   * dictionary, else with `extract_name` applied, else nothing.
   */
  function ResolveKey(dict: map<string, Member>, key: string): (r: Option<Member>)
    ensures r.Some? ==> r.value in dict.Values
  {
    if key in dict then Some(dict[key])
    else if ExtractName(key) in dict then Some(dict[ExtractName(key)])
    else None
  }

  /** The authors the normalised names resolve to, in order; unresolved names are skipped. */
  function ResolvedAuthors(dict: map<string, Member>, keys: seq<string>): (r: seq<Member>)
    ensures |r| <= |keys|
  {
    if keys == [] then []
    else
      var rest := ResolvedAuthors(dict, keys[..|keys| - 1]);
      match ResolveKey(dict, keys[|keys| - 1])
      case Some(m) => rest + [m]
      case None => rest
  }

  /** Every resolved author is a member of the dictionary. */
  lemma {:induction false} ResolvedAuthorsInDict(dict: map<string, Member>, keys: seq<string>)
    ensures forall m :: m in ResolvedAuthors(dict, keys) ==> m in dict.Values
  {
    if keys != [] {
      ResolvedAuthorsInDict(dict, keys[..|keys| - 1]);
    }
  }

  /**
   * When every normalised name is a key, no name is lost and each author
   * is the entry of its own name.
   */
  lemma {:induction false} ResolvedAuthorsExact(dict: map<string, Member>, keys: seq<string>)
    requires forall k :: 0 <= k < |keys| ==> keys[k] in dict
    ensures |ResolvedAuthors(dict, keys)| == |keys|
    ensures forall k :: 0 <= k < |keys| ==> ResolvedAuthors(dict, keys)[k] == dict[keys[k]]
  {
    if keys != [] {
      var n := |keys|;
      var init := keys[..n - 1];
      assert forall k :: 0 <= k < |init| ==> init[k] == keys[k];
      ResolvedAuthorsExact(dict, init);
      var rest := ResolvedAuthors(dict, init);
      var r := ResolvedAuthors(dict, keys);
      assert r == rest + [dict[keys[n - 1]]];
      forall k | 0 <= k < n
        ensures r[k] == dict[keys[k]]
      {
        if k < n - 1 {
          assert r[k] == rest[k];
        }
      }
    }
  }

  /** When no name resolves, there are no authors. */
  lemma {:induction false} ResolvedAuthorsNone(dict: map<string, Member>, keys: seq<string>)
    requires forall k :: 0 <= k < |keys| ==> ResolveKey(dict, keys[k]).None?
    ensures ResolvedAuthors(dict, keys) == []
  {
    if keys != [] {
      ResolvedAuthorsNone(dict, keys[..|keys| - 1]);
    }
  }

  // ---------------------------------------------------------------------
  // Bounded re-fetch

  /**
   * What one fetch of a page shows: no content block, a "not found" (or
   * "does not exist") notice, the site's error notice, or a parsed page.
   */
  datatype Page<+T> = NoContent | NotFound | ErrorPage | Loaded(content: T)

  /** `_initialize` gives up after the error notice at this retry count. */
  const MaxRetry := 10

  /**
   * `_initialize(retry)`: the parsed page it goes on with, if any, and the
   * number of fetches it made; `fetch(i)` is what fetch number `i` shows.
   */
  function Initialize<T>(fetch: nat -> Page<T>, retry: nat): (r: (Option<T>, nat))
    requires retry <= MaxRetry
    ensures 1 <= r.1 <= MaxRetry + 1 - retry
    ensures forall i :: retry <= i < retry + r.1 - 1 ==> fetch(i).ErrorPage?
    ensures r.0.Some? <==> fetch(retry + r.1 - 1).Loaded?
    ensures r.0.Some? ==> r.0.value == fetch(retry + r.1 - 1).content
    ensures fetch(retry + r.1 - 1).ErrorPage? ==> retry + r.1 - 1 == MaxRetry
    decreases MaxRetry - retry
  {
    match fetch(retry)
    case ErrorPage =>
      if retry >= MaxRetry then (None, 1)
      else
        var next := Initialize(fetch, retry + 1);
        (next.0, next.1 + 1)
    case Loaded(c) => (Some(c), 1)
    case _ => (None, 1)
  }

  /**
   * A loader fetches eleven times exactly when the first ten fetches show
   * the error notice, and it gives up on an error notice exactly when all
   * eleven do.
   */
  lemma GivesUp<T>(fetch: nat -> Page<T>)
    ensures var r := Initialize(fetch, 0);
      r.1 == MaxRetry + 1 <==> forall i :: 0 <= i < MaxRetry ==> fetch(i).ErrorPage?
    ensures var r := Initialize(fetch, 0);
      fetch(r.1 - 1).ErrorPage? <==> forall i :: 0 <= i <= MaxRetry ==> fetch(i).ErrorPage?
  {
  }

  // ---------------------------------------------------------------------
  // Records

  /**
   * What a document page yields: the filing date (parsed), the `h4` title,
   * the first text of the document-type cell (`None` when the page has no
   * document-type row) and the text nodes of the author cell (`None` when
   * it has no author row).
   */
  datatype DocumentPage = DocumentPage(
    date: Option<Date>, title: Option<string>, docType: Option<string>, authorTexts: Option<seq<string>>)

  /** A loaded legislative document. */
  datatype DocumentRecord = DocumentRecord(
    number: string, date: Date, title: Option<string>, docType: Option<string>, authors: seq<Member>)

  /**
   * The author names a document page lists; none when the page is missing
   * or lacks the document-type row, since that raises before the authors
   * are read.
   */
  function DocumentNames(page: Option<DocumentPage>): seq<string> {
    if page.Some? && page.value.docType.Some? && page.value.authorTexts.Some? then DocumentAuthorNames(page.value.authorTexts.value) else []
  }

  /**
   * The record `ParliamentaryDocument(session, number)` ends up with, given
   * the page `_initialize` went on with and the authors it resolved; a page
   * without a document-type row raises IndexError.
   */
  function DocumentOf(number: string, start: Date, page: Option<DocumentPage>, authors: seq<Member>): (r: Outcome<DocumentRecord>)
    ensures r.Raised? <==> page.Some? && page.value.docType.None?
    ensures r.Ok? ==> r.value.number == number && r.value.authors == authors
    ensures r.Ok? && (page.None? || page.value.date.None?) ==> r.value.date == start
  {
    match page
    case None => Ok(DocumentRecord(number, start, None, None, authors))
    case Some(p) =>
      if p.docType.None? then Raised("IndexError")
      else
        var date := if p.date.Some? then p.date.value else start;
        var title := if p.title.Some? then Some(Strip(p.title.value)) else None;
        Ok(DocumentRecord(number, date, title, Some(p.docType.value[Min(3, |p.docType.value|)..]), authors))
  }

  function Min(a: int, b: int): int {
    if a < b then a else b
  }

  /**
   * What a question page yields: the text of the author cell (`None` when
   * there is no author row), of the responding-minister cell, of the title
   * cell, and the discussion date (parsed).
   */
  datatype QuestionPage = QuestionPage(
    authorCell: Option<string>, minister: Option<string>, title: Option<string>, date: Option<Date>)

  /** A loaded parliamentary question. */
  datatype QuestionRecord = QuestionRecord(
    number: string, date: Date, title: Option<string>, minister: Option<string>, authors: seq<Member>)

  /** The author names a question page lists. */
  function QuestionNames(page: Option<QuestionPage>): seq<string> {
    if page.Some? && page.value.authorCell.Some? then QuestionAuthorNames(page.value.authorCell.value) else []
  }

  /** `text.strip()[:-1]`: the minister's name without its final character. */
  function DropLastChar(s: string): (r: string)
    ensures |r| == if s == [] then 0 else |s| - 1
    ensures r <= s
  {
    if s == [] then [] else s[..|s| - 1]
  }

  /** The record `ParliamentaryQuestion(session, number)` ends up with. */
  function QuestionOf(number: string, start: Date, page: Option<QuestionPage>, authors: seq<Member>): (r: QuestionRecord)
    ensures r.number == number && r.authors == authors
    ensures page.None? ==> r.title.None? && r.minister.None? && r.date == start
    ensures r.title.Some? ==> QuestionTitle(r.title.value) == r.title.value
  {
    match page
    case None => QuestionRecord(number, start, None, None, authors)
    case Some(p) =>
      var minister := if p.minister.Some? then Some(DropLastChar(Strip(p.minister.value))) else None;
      var title := if p.title.Some? then (QuestionTitleIdempotent(p.title.value); Some(QuestionTitle(p.title.value))) else None;
      var date := if p.date.Some? then p.date.value else start;
      QuestionRecord(number, date, title, minister, authors)
  }
}
