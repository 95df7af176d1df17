/**
 * The plenary meeting notes: how agenda items are cut out of the title
 * paragraphs, classified, linked to the documents and questions their
 * titles cite, and given the votes held on them.
 */
module Meetings {
  import opened Base
  import opened Strings
  import opened Util
  import opened Common
  import opened Dom
  import opened Activity
  import opened Document
  import opened Parliament
  import Vote

  // ---------------------------------------------------------------------
  // Topic types

  datatype TopicType =
    | General
    | CurrentAffairs
    | Budget
    | SecretVote
    | RevisionOfConstitution
    | Interpellation
    | NameVote
    | DraftBill
    | BillProposal
    | Legislation
    | Questions

  /** The types whose titles cite bills (`related_documents` is rebuilt for them). */
  predicate CitesBills(t: TopicType) {
    t == BillProposal || t == DraftBill || t == Legislation || t == NameVote || t == SecretVote
  }

  /**
   * The keyword tests `from_section_and_title` makes, on the lower-cased
   * Dutch title and section.
   */
  datatype Keywords = Keywords(
    begroting: bool, actualiteitsdebat: bool, naamstemming: bool, geheim: bool, stemming: bool,
    vragenInSection: bool, vragenInTitle: bool, vraagInTitle: bool, interpellatie: bool,
    herziening: bool, grondwet: bool, ontwerpInSection: bool, voorstelInSection: bool,
    voorstelInTitle: bool, ontwerpInTitle: bool)

  function KeywordsOf(title: string, section: string): Keywords {
    var t := Lower(title);
    var s := Lower(section);
    Keywords(
      Contains(s, "begroting"), Contains(s, "actualiteitsdebat"), Contains(s, "naamstemming"),
      Contains(s, "geheim"), Contains(s, "stemming"),
      Contains(s, "vragen"), Contains(t, "vragen"), Contains(t, "vraag"), Contains(s, "interpellatie"),
      Contains(s, "herziening"), Contains(s, "grondwet"), Contains(s, "ontwerp"), Contains(s, "voorstel"),
      Contains(t, "voorstel"), Contains(t, "ontwerp"))
  }

  /** The tests in the order `from_section_and_title` makes them; the first that holds decides. */
  function Decide(k: Keywords): (r: TopicType)
    ensures r != Legislation
  {
    if k.begroting then Budget
    else if k.actualiteitsdebat then CurrentAffairs
    else if k.naamstemming then NameVote
    else if k.geheim && k.stemming then SecretVote
    else if k.vragenInSection || k.vragenInTitle || k.vraagInTitle then Questions
    else if k.interpellatie then Interpellation
    else if k.herziening && k.grondwet then RevisionOfConstitution
    else if k.ontwerpInSection || k.voorstelInSection then
      if !k.ontwerpInSection || k.voorstelInTitle then BillProposal
      else if !k.voorstelInSection || k.ontwerpInTitle then DraftBill
      else General
    else General
  }

  /** `TopicType.from_section_and_title(title_NL, section_NL)`; it never yields LEGISLATION. */
  function Classify(titleNL: string, sectionNL: string): (r: TopicType)
    ensures r != Legislation
  {
    Decide(KeywordsOf(titleNL, sectionNL))
  }

  /** None of the four section-only tests that come before the question test holds. */
  predicate NoSectionRule(k: Keywords) {
    !k.begroting && !k.actualiteitsdebat && !k.naamstemming && !(k.geheim && k.stemming)
  }

  /** 'begroting' in the section gives BUDGET, whatever the title says. */
  lemma ClassifyBudget(title: string, section: string)
    requires Contains(Lower(section), "begroting")
    ensures Classify(title, section) == Budget
  {
  }

  /** While one of the first four tests fires, the title plays no part. */
  lemma ClassifySectionFirst(title1: string, title2: string, section: string)
    requires !NoSectionRule(KeywordsOf(title1, section))
    ensures Classify(title1, section) == Classify(title2, section)
  {
  }

  /** The section-only tests in their order: each fires only when the ones before it fail. */
  lemma ClassifySectionOrder(title: string, section: string)
    ensures var k := KeywordsOf(title, section);
      && (Classify(title, section) == CurrentAffairs <==> !k.begroting && k.actualiteitsdebat)
      && (Classify(title, section) == NameVote <==> !k.begroting && !k.actualiteitsdebat && k.naamstemming)
      && (Classify(title, section) == SecretVote <==>
            !k.begroting && !k.actualiteitsdebat && !k.naamstemming && k.geheim && k.stemming)
  {
  }

  /** QUESTIONS: 'vragen' in the section or 'vragen'/'vraag' in the title, once the first four tests fail. */
  lemma ClassifyQuestions(title: string, section: string)
    ensures var k := KeywordsOf(title, section);
      Classify(title, section) == Questions <==>
        NoSectionRule(k) && (k.vragenInSection || k.vragenInTitle || k.vraagInTitle)
  {
  }

  /** The bill rule: a proposal unless the section names only a draft; a draft unless both are named. */
  lemma ClassifyBills(title: string, section: string)
    ensures var k := KeywordsOf(title, section);
      var billRule := NoSectionRule(k) && !(k.vragenInSection || k.vragenInTitle || k.vraagInTitle)
        && !k.interpellatie && !(k.herziening && k.grondwet) && (k.ontwerpInSection || k.voorstelInSection);
      && (Classify(title, section) == BillProposal <==> billRule && (!k.ontwerpInSection || k.voorstelInTitle))
      && (Classify(title, section) == DraftBill <==>
            billRule && k.ontwerpInSection && !k.voorstelInTitle && (!k.voorstelInSection || k.ontwerpInTitle))
  {
  }

  /** `str.lower()` is idempotent on the characters it maps. */
  lemma LowerCharIdempotent(c: char)
    ensures LowerChar(LowerChar(c)) == LowerChar(c)
  {
  }

  lemma LowerIdempotent(s: string)
    ensures Lower(Lower(s)) == Lower(s)
  {
    forall i | 0 <= i < |s|
      ensures Lower(Lower(s))[i] == Lower(s)[i]
    {
      LowerCharIdempotent(s[i]);
    }
  }

  /** The classifier lower-cases its inputs, so lower-casing them first changes nothing. */
  lemma ClassifyCaseInsensitive(title: string, section: string)
    ensures Classify(Lower(title), Lower(section)) == Classify(title, section)
  {
    LowerIdempotent(title);
    LowerIdempotent(section);
  }

  // ---------------------------------------------------------------------
  // The paragraph classes of the meeting notes

  /** `Meeting.language_mapping[language][0]`: the class of section headings. */
  function SectionClass(language: Language): string {
    if language == NL then "Titre1NL" else "Titre1FR"
  }

  /** `Meeting.language_mapping[language][1]`: the class of agenda-item titles. */
  function TitleClass(language: Language): string {
    if language == NL then "Titre2NL" else "Titre2FR"
  }

  /** The four classes are distinct, so the passes of the two languages read disjoint paragraphs. */
  lemma ClassesDistinct(a: Language, b: Language)
    ensures SectionClass(a) != TitleClass(b)
    ensures a != b ==> SectionClass(a) != SectionClass(b) && TitleClass(a) != TitleClass(b)
  {
  }

  // ---------------------------------------------------------------------
  // The meeting list row

  datatype TimeOfDay = Am | Pm | Evening

  /** The time-of-day rule of `Meeting.from_soup`: 'PM' wins over 'Avond'; otherwise morning. */
  function TimeOfDayOf(cell: string): (r: TimeOfDay)
    ensures r == Pm <==> Contains(cell, "PM")
    ensures r == Evening <==> !Contains(cell, "PM") && Contains(cell, "Avond")
    ensures r == Am <==> !Contains(cell, "PM") && !Contains(cell, "Avond")
  {
    if Contains(cell, "PM") then Pm
    else if Contains(cell, "Avond") then Evening
    else Am
  }

  /** What a row of the meeting list gives: the meeting number, its time of day and its date. */
  datatype MeetingHeader = MeetingHeader(id: int, timeOfDay: TimeOfDay, date: Option<Date>)

  /**
   * `Meeting.from_soup`: the number from the first cell (ValueError when it
   * is no integer), the date from the third (parsed by `parseDate`), the
   * time of day from the second; missing cells raise IndexError.
   */
  function MeetingFromRow(cells: seq<string>, parseDate: string -> Option<Date>): (r: Outcome<MeetingHeader>)
    ensures r.Ok? <==> |cells| >= 3 && ParseInt(Strip(cells[0])).Some?
    ensures r.Ok? ==> Some(r.value.id) == ParseInt(Strip(cells[0])) && r.value.timeOfDay == TimeOfDayOf(cells[1])
    ensures r.Ok? ==> r.value.date == parseDate(Strip(cells[2]))
  {
    if |cells| == 0 then Raised("IndexError")
    else match ParseInt(Strip(cells[0]))
      case None => Raised("ValueError")
      case Some(id) =>
        if |cells| < 3 then Raised("IndexError")
        else Ok(MeetingHeader(id, TimeOfDayOf(cells[1]), parseDate(Strip(cells[2]))))
  }

  // ---------------------------------------------------------------------
  // Item numbers: `re.match("([0-9]+) (.*)", text)`

  /** The longest prefix of ASCII digits. */
  function DigitRun(s: string): (d: string)
    ensures d <= s && AllDigits(d)
    ensures |d| == |s| || !IsDigit(s[|d|])
  {
    if s != [] && IsDigit(s[0]) then [s[0]] + DigitRun(s[1..]) else []
  }

  /** What `.*` matches: everything up to the first newline. */
  function Line(s: string): (r: string)
    ensures r <= s && '\n' !in r
    ensures |r| == |s| || s[|r|] == '\n'
  {
    if s == [] || s[0] == '\n' then [] else [s[0]] + Line(s[1..])
  }

  datatype Numbered = Numbered(item: nat, rest: string)

  /** `re.match("([0-9]+) (.*)", text)`: the item number and the rest of the line. */
  function ItemNumber(text: string): (r: Option<Numbered>)
    ensures r.Some? <==> HasItemNumber(text)
  {
    HasItemNumberRun(text);
    var d := DigitRun(text);
    if d != [] && |d| < |text| && text[|d|] == ' ' then Some(Numbered(DigitsValue(d), Line(text[|d| + 1..])))
    else None
  }

  /** `re.match("([0-9]+) (.*)", text)` succeeds: a digit, then digits up to a blank. */
  predicate HasItemNumber(text: string)
    decreases |text|
  {
    |text| >= 2 && IsDigit(text[0]) && (text[1] == ' ' || HasItemNumber(text[1..]))
  }

  /** The match succeeds exactly when the leading run of digits is not empty and a blank follows it. */
  lemma {:induction false} HasItemNumberRun(text: string)
    ensures var d := DigitRun(text);
      HasItemNumber(text) <==> d != [] && |d| < |text| && text[|d|] == ' '
    decreases |text|
  {
    if text != [] && IsDigit(text[0]) {
      var t := text[1..];
      assert DigitRun(text) == [text[0]] + DigitRun(t);
      if t != [] && IsDigit(t[0]) {
        HasItemNumberRun(t);
      }
    }
  }

  lemma {:induction false} DigitRunAppend(d: string, t: string)
    requires AllDigits(d) && (t == [] || !IsDigit(t[0]))
    ensures DigitRun(d + t) == d
  {
    if d != [] {
      assert (d + t)[1..] == d[1..] + t;
      DigitRunAppend(d[1..], t);
    } else {
      assert d + t == t;
    }
  }

  lemma {:induction false} LineWhole(s: string)
    requires '\n' !in s
    ensures Line(s) == s
  {
    if s != [] {
      LineWhole(s[1..]);
    }
  }

  /** A line written as `str(n) + " " + text` reads back as item `n` with title `text`. */
  lemma ItemNumberRoundTrip(n: nat, text: string)
    requires '\n' !in text
    ensures ItemNumber(NatToString(n) + " " + text) == Some(Numbered(n, text))
  {
    var d := NatToString(n);
    var t := " " + text;
    var s := d + t;
    assert NatToString(n) + " " + text == s;
    DigitRunAppend(d, t);
    assert s[|d|] == ' ';
    assert s[|d| + 1..] == text;
    LineWhole(text);
    NatToStringValue(n);
    assert ItemNumber(s) == Some(Numbered(DigitsValue(d), Line(text)));
  }

  /** A text that does not start with digits and a blank carries no item number. */
  lemma ItemNumberNeedsDigits(text: string)
    requires text == [] || !IsDigit(text[0])
    ensures ItemNumber(text).None?
  {
  }

  // ---------------------------------------------------------------------
  // Bill and question numbers cited in a title line

  /**
   * The three patterns `complete_type` matches: `(digits/… )` for bills,
   * `(8 digits + P|C)` for a question and `(nr. P####)` for a question in
   * the older numbering.
   */
  datatype Pattern = BillPattern | QuestionPattern | OldQuestionPattern

  /** The group the pattern captures when its parenthesis opens at `p`, on a newline-free text. */
  function MatchAt(pat: Pattern, s: string, p: nat): Option<string> {
    match pat
    case BillPattern => BillAt(s, p)
    case QuestionPattern => QuestionAt(s, p)
    case OldQuestionPattern => OldQuestionAt(s, p)
  }

  /** `\(([0-9]+)\/.*\)` at `p`: digits, a slash, and a ')' somewhere after it. */
  function BillAt(s: string, p: nat): Option<string> {
    if p >= |s| || s[p] != '(' then None
    else
      var d := DigitRun(s[p + 1..]);
      var q := p + 1 + |d|;
      if d != [] && q < |s| && s[q] == '/' && ')' in s[q + 1..] then Some(d) else None
  }

  /** `\(([0-9]{8}(P|C))\)` at `p`. */
  function QuestionAt(s: string, p: nat): Option<string> {
    if p + 11 <= |s| && s[p] == '(' && AllDigits(s[p + 1..p + 9]) && (s[p + 9] == 'P' || s[p + 9] == 'C') && s[p + 10] == ')'
    then Some(s[p + 1..p + 10])
    else None
  }

  /** `\(nr\.? (P[0-9]{4})\)` at `p`; `\.?` takes the dot when there is one. */
  function OldQuestionAt(s: string, p: nat): Option<string> {
    if p + 3 <= |s| && s[p] == '(' && s[p + 1] == 'n' && s[p + 2] == 'r' then
      var q := if p + 3 < |s| && s[p + 3] == '.' then p + 4 else p + 3;
      if q + 7 <= |s| && s[q] == ' ' && s[q + 1] == 'P' && AllDigits(s[q + 2..q + 6]) && s[q + 6] == ')'
      then Some(s[q + 1..q + 6])
      else None
    else None
  }

  /**
   * The match with the parenthesis furthest right among the first `n`
   * positions: the leading greedy `.*` makes `re.match` pick that one.
   */
  function LastMatch(pat: Pattern, s: string, n: nat): Option<string>
    decreases n
  {
    if n == 0 then None
    else if MatchAt(pat, s, n - 1).Some? then MatchAt(pat, s, n - 1)
    else LastMatch(pat, s, n - 1)
  }

  /** `re.match(".*<pattern>", line)`: `.` stops at a newline, so only the first line counts. */
  function Search(pat: Pattern, line: string): Option<string> {
    var l := Line(line);
    LastMatch(pat, l, |l|)
  }

  /** The bill number a title line cites. */
  function BillNumber(line: string): Option<string> {
    Search(BillPattern, line)
  }

  /** The question number a title line cites: the new form first, else the old one prefixed with the session. */
  function QuestionNumber(session: int, line: string): Option<string> {
    match Search(QuestionPattern, line)
    case Some(n) => Some(n)
    case None =>
      match Search(OldQuestionPattern, line)
      case Some(n) => Some(IntToString(session) + n)
      case None => None
  }

  /** No match opens at a position without a '('. */
  lemma {:induction false} LastMatchSkip(pat: Pattern, s: string, m: nat, n: nat)
    requires m <= n <= |s|
    requires forall k :: m <= k < n ==> s[k] != '('
    ensures LastMatch(pat, s, n) == LastMatch(pat, s, m)
    decreases n
  {
    if n > m {
      LastMatchSkip(pat, s, m, n - 1);
    }
  }

  /** The match found is one the pattern allows, and none opens further right. */
  lemma {:induction false} LastMatchFurthest(pat: Pattern, s: string, n: nat) returns (p: nat)
    requires LastMatch(pat, s, n).Some?
    ensures p < n && MatchAt(pat, s, p) == LastMatch(pat, s, n)
    ensures forall k :: p < k < n ==> MatchAt(pat, s, k).None?
    decreases n
  {
    if MatchAt(pat, s, n - 1).Some? {
      p := n - 1;
    } else {
      p := LastMatchFurthest(pat, s, n - 1);
    }
  }

  /** No match is found only when the pattern matches nowhere. */
  lemma {:induction false} LastMatchNone(pat: Pattern, s: string, n: nat)
    ensures LastMatch(pat, s, n).None? <==> forall k :: 0 <= k < n ==> MatchAt(pat, s, k).None?
    decreases n
  {
    if n > 0 {
      LastMatchNone(pat, s, n - 1);
    }
  }

  /** The bill pattern matches at `p` when digits, a slash and later a ')' follow the '('. */
  lemma {:induction false} MatchBillAt(s: string, p: nat, digits: string)
    requires digits != [] && AllDigits(digits)
    requires p + 1 + |digits| < |s| - 1 && s[p] == '(' && s[p + 1..p + 1 + |digits|] == digits
    requires s[p + 1 + |digits|] == '/' && s[|s| - 1] == ')'
    ensures MatchAt(BillPattern, s, p) == Some(digits)
  {
    var q := p + 1 + |digits|;
    assert s[p + 1..] == digits + s[q..];
    DigitRunAppend(digits, s[q..]);
    assert s[q + 1..][|s| - q - 2] == ')';
  }

  /** A line ending in `(digits/…)`, with no other '(' after it, cites exactly those digits. */
  lemma BillNumberOf(prefix: string, digits: string, inside: string)
    requires digits != [] && AllDigits(digits)
    requires '\n' !in prefix && '\n' !in inside && '(' !in inside
    ensures BillNumber(prefix + "(" + digits + "/" + inside + ")") == Some(digits)
  {
    var tail := "/" + inside + ")";
    var s := prefix + ("(" + (digits + tail));
    assert prefix + "(" + digits + "/" + inside + ")" == s;
    var p := |prefix|;
    var q := p + 1 + |digits|;
    assert s[p] == '(' && s[q] == '/' && s[|s| - 1] == ')' && s[p + 1..q] == digits;
    assert forall k :: 0 <= k < |s| ==> s[k] != '\n' && (k > p ==> s[k] != '(') by {
      forall k | 0 <= k < |s|
        ensures s[k] != '\n' && (k > p ==> s[k] != '(')
      {
        if p < k < q {
          assert s[k] == digits[k - p - 1];
          assert IsDigit(digits[k - p - 1]);
        } else if q < k < |s| - 1 {
          assert s[k] == inside[k - q - 1];
          assert inside[k - q - 1] in inside;
        } else if k < p {
          assert s[k] == prefix[k];
          assert prefix[k] in prefix;
        }
      }
    }
    MatchBillAt(s, p, digits);
    LastMatchSkip(BillPattern, s, p + 1, |s|);
    LineWhole(s);
  }

  /** A line ending in `(########P)` or `(########C)` cites that question, whatever came before. */
  lemma QuestionNumberOf(session: int, prefix: string, digits: string, house: char)
    requires |digits| == 8 && AllDigits(digits) && (house == 'P' || house == 'C')
    requires '\n' !in prefix
    ensures QuestionNumber(session, prefix + "(" + digits + [house] + ")") == Some(digits + [house])
  {
    var s := prefix + ("(" + (digits + [house] + ")"));
    assert prefix + "(" + digits + [house] + ")" == s;
    var p := |prefix|;
    assert |s| == p + 11 && s[p] == '(' && s[p + 9] == house && s[p + 10] == ')';
    assert s[p + 1..p + 9] == digits && s[p + 1..p + 10] == digits + [house];
    assert forall k :: 0 <= k < |s| ==> s[k] != '\n' && (k > p ==> s[k] != '(') by {
      forall k | 0 <= k < |s|
        ensures s[k] != '\n' && (k > p ==> s[k] != '(')
      {
        if p < k < p + 9 {
          assert s[k] == digits[k - p - 1];
          assert IsDigit(digits[k - p - 1]);
        } else if k < p {
          assert s[k] == prefix[k];
          assert prefix[k] in prefix;
        }
      }
    }
    assert MatchAt(QuestionPattern, s, p) == Some(digits + [house]);
    LastMatchSkip(QuestionPattern, s, p + 1, |s|);
    LineWhole(s);
  }

  /** The old-form pattern matches at `p`: "(nr", an optional '.', a blank, 'P', four digits, ')'. */
  lemma {:induction false} MatchOldAt(s: string, p: nat, q: nat, digits: string)
    requires |digits| == 4 && AllDigits(digits)
    requires q + 7 == |s| && (q == p + 3 || q == p + 4)
    requires s[p] == '(' && s[p + 1] == 'n' && s[p + 2] == 'r' && (q == p + 4 ==> s[p + 3] == '.')
    requires s[q] == ' ' && s[q + 1] == 'P' && s[q + 2..q + 6] == digits && s[q + 6] == ')'
    ensures MatchAt(OldQuestionPattern, s, p) == Some("P" + digits)
  {
    assert s[q + 1..q + 6] == "P" + digits;
  }

  /** The old-form number is found when its '(' is the only one and no newline precedes it. */
  lemma {:induction false} OldQuestionLine(session: int, s: string, p: nat, q: nat, digits: string)
    requires |digits| == 4 && AllDigits(digits)
    requires q + 7 == |s| && (q == p + 3 || q == p + 4)
    requires s[p] == '(' && s[p + 1] == 'n' && s[p + 2] == 'r' && (q == p + 4 ==> s[p + 3] == '.')
    requires s[q] == ' ' && s[q + 1] == 'P' && s[q + 2..q + 6] == digits && s[q + 6] == ')'
    requires forall k :: 0 <= k < |s| ==> s[k] != '\n' && (k != p ==> s[k] != '(')
    ensures QuestionNumber(session, s) == Some(IntToString(session) + ("P" + digits))
  {
    assert Line(s) == s by {
      assert '\n' !in s;
      LineWhole(s);
    }
    assert LastMatch(QuestionPattern, s, |s|).None? by {
      assert QuestionAt(s, p).None? by {
        assert !IsDigit(s[p + 1]);
        if p + 11 <= |s| {
          assert s[p + 1..p + 9][0] == s[p + 1];
        }
      }
      LastMatchSkip(QuestionPattern, s, p + 1, |s|);
      LastMatchSkip(QuestionPattern, s, 0, p);
    }
    assert LastMatch(OldQuestionPattern, s, |s|) == Some("P" + digits) by {
      MatchOldAt(s, p, q, digits);
      LastMatchSkip(OldQuestionPattern, s, p + 1, |s|);
    }
  }

  /** The characters of `prefix + nr + digits + ")"`: no newline, and no '(' but the one opening `nr`. */
  lemma OldQuestionChars(prefix: string, nr: string, digits: string)
    requires nr == "(nr. P" || nr == "(nr P"
    requires AllDigits(digits) && '\n' !in prefix && '(' !in prefix
    ensures var s := prefix + nr + digits + ")";
      forall k :: 0 <= k < |s| ==> s[k] != '\n' && (k != |prefix| ==> s[k] != '(')
  {
    var s := prefix + nr + digits + ")";
    var p := |prefix|;
    forall k | 0 <= k < |s|
      ensures s[k] != '\n' && (k != p ==> s[k] != '(')
    {
      if k < p {
        assert s[k] == prefix[k];
        assert prefix[k] in prefix;
      } else if k < p + |nr| {
        assert s[k] == nr[k - p];
      } else if k < p + |nr| + |digits| {
        assert s[k] == digits[k - p - |nr|];
        assert IsDigit(digits[k - p - |nr|]);
      }
    }
  }

  /**
   * A line citing `(nr. P####)` (or `(nr P####)`) and no other parenthesis
   * cites the session followed by `P####`.
   */
  lemma OldQuestionNumberOf(session: int, prefix: string, dot: bool, digits: string)
    requires |digits| == 4 && AllDigits(digits)
    requires '\n' !in prefix && '(' !in prefix
    ensures var nr := if dot then "(nr. P" else "(nr P";
      QuestionNumber(session, prefix + nr + digits + ")") == Some(IntToString(session) + "P" + digits)
  {
    var nr := if dot then "(nr. P" else "(nr P";
    var s := prefix + nr + digits + ")";
    var p := |prefix|;
    var q := p + |nr| - 2;
    assert |s| == q + 7 && (q == p + 3 || q == p + 4) by {
      assert |nr| == 5 || |nr| == 6;
    }
    assert s[p] == '(' && s[p + 1] == 'n' && s[p + 2] == 'r' && (q == p + 4 ==> s[p + 3] == '.') by {
      assert forall k :: 0 <= k < |nr| ==> s[p + k] == nr[k];
    }
    assert s[q] == ' ' && s[q + 1] == 'P' && s[q + 2..q + 6] == digits && s[q + 6] == ')' by {
      assert forall k :: 0 <= k < |nr| ==> s[p + k] == nr[k];
      assert s[p + |nr|..] == digits + ")";
    }
    OldQuestionChars(prefix, nr, digits);
    OldQuestionLine(session, s, p, q, digits);
    assert IntToString(session) + "P" + digits == IntToString(session) + ("P" + digits);
  }

  /** The numbers `cite` finds in the lines of a title, one per line that cites one, in line order. */
  function Cited(cite: string -> Option<string>, lines: seq<string>): seq<string> {
    if lines == [] then []
    else
      var rest := Cited(cite, lines[..|lines| - 1]);
      match cite(lines[|lines| - 1])
      case Some(n) => rest + [n]
      case None => rest
  }

  /** The bill numbers a title cites. */
  function BillNumbers(lines: seq<string>): seq<string> {
    Cited(BillNumber, lines)
  }

  /** The question numbers a title cites. */
  function QuestionNumbers(session: int, lines: seq<string>): seq<string> {
    Cited(l => QuestionNumber(session, l), lines)
  }

  /** Every number collected is cited by some line, and there are at most as many as lines. */
  lemma {:induction false} CitedFrom(cite: string -> Option<string>, lines: seq<string>)
    ensures |Cited(cite, lines)| <= |lines|
    ensures forall n :: n in Cited(cite, lines) ==> exists l :: l in lines && cite(l) == Some(n)
  {
    if lines != [] {
      var init := lines[..|lines| - 1];
      CitedFrom(cite, init);
      assert forall l :: l in init ==> l in lines;
    }
  }

  /** When every line cites a number, there is one number per line, in line order. */
  lemma {:induction false} CitedAll(cite: string -> Option<string>, lines: seq<string>)
    requires forall k :: 0 <= k < |lines| ==> cite(lines[k]).Some?
    ensures |Cited(cite, lines)| == |lines|
    ensures forall k :: 0 <= k < |lines| ==> Cited(cite, lines)[k] == cite(lines[k]).value
  {
    if lines != [] {
      var init := lines[..|lines| - 1];
      assert forall k :: 0 <= k < |init| ==> init[k] == lines[k];
      CitedAll(cite, init);
    }
  }

  /** Every collected bill number is cited by some line, and there are at most as many as lines. */
  lemma BillNumbersCited(lines: seq<string>)
    ensures |BillNumbers(lines)| <= |lines|
    ensures forall n :: n in BillNumbers(lines) ==> exists l :: l in lines && BillNumber(l) == Some(n)
  {
    CitedFrom(BillNumber, lines);
  }

  /** A title whose every line cites a bill yields one number per line. */
  lemma BillNumbersAll(lines: seq<string>)
    requires forall k :: 0 <= k < |lines| ==> BillNumber(lines[k]).Some?
    ensures |BillNumbers(lines)| == |lines|
    ensures forall k :: 0 <= k < |lines| ==> BillNumbers(lines)[k] == BillNumber(lines[k]).value
  {
    CitedAll(BillNumber, lines);
  }

  /** Every collected question number is cited by some line. */
  lemma QuestionNumbersCited(session: int, lines: seq<string>)
    ensures |QuestionNumbers(session, lines)| <= |lines|
    ensures forall n :: n in QuestionNumbers(session, lines) ==>
      exists l :: l in lines && QuestionNumber(session, l) == Some(n)
  {
    CitedFrom(l => QuestionNumber(session, l), lines);
  }

  // ---------------------------------------------------------------------
  // The registry of documents and questions

  /** Every entry of `before` is still in `after`, unchanged. */
  predicate Extends<K, V(==)>(before: map<K, V>, after: map<K, V>) {
    forall n :: n in before ==> n in after && after[n] == before[n]
  }

  /** The legislative activities of loading the document `d` under `number`: one per author. */
  function DocumentPosts(number: string, d: DocumentRecord): seq<Activity> {
    Posts(d.authors, d.date, Authored(DocumentUri(number)))
  }

  /** The question activities of loading the question `q` under `number`: one per author. */
  function QuestionPosts(number: string, q: QuestionRecord): seq<Activity> {
    Posts(q.authors, q.date, QuestionAsked(QuestionUri(number)))
  }

  /**
   * The activities of getting the records `recs` of `numbers`, in order,
   * from a registry that held the numbers `known`: a number is loaded, and
   * its load posts, only when neither the registry nor an earlier request
   * of the walk has it.
   */
  function LoadPosts<R>(known: set<string>, numbers: seq<string>, recs: seq<R>, post: (string, R) -> seq<Activity>)
    : seq<Activity>
    requires |recs| == |numbers|
    decreases |numbers|
  {
    if numbers == [] then []
    else
      var n := |numbers| - 1;
      LoadPosts(known, numbers[..n], recs[..n], post) +
        if numbers[n] in known || numbers[n] in numbers[..n] then [] else post(numbers[n], recs[n])
  }

  /** One more request posts the activities of its record exactly when its number is new. */
  lemma LoadPostsSnoc<R>(known: set<string>, numbers: seq<string>, recs: seq<R>, post: (string, R) -> seq<Activity>,
                         n: string, r: R)
    requires |recs| == |numbers|
    ensures LoadPosts(known, numbers + [n], recs + [r], post) ==
      LoadPosts(known, numbers, recs, post) + if n in known || n in numbers then [] else post(n, r)
  {
    assert (numbers + [n])[..|numbers|] == numbers;
    assert (recs + [r])[..|recs|] == recs;
  }

  /** One more request of a walk, as the loop of `map` makes it: the log grows by that request's posts. */
  lemma LoadPostsStep<R>(known: set<string>, numbers: seq<string>, i: nat, recs: seq<R>, post: (string, R) -> seq<Activity>,
                         r: R, inRegistry: bool, base: seq<Activity>, before: seq<Activity>, after: seq<Activity>)
    requires i < |numbers| && |recs| == i
    requires inRegistry <==> numbers[i] in known || numbers[i] in numbers[..i]
    requires before == base + LoadPosts(known, numbers[..i], recs, post)
    requires after == before + if inRegistry then [] else post(numbers[i], r)
    ensures after == base + LoadPosts(known, numbers[..i + 1], recs + [r], post)
  {
    LoadPostsSnoc(known, numbers[..i], recs, post, numbers[i], r);
    assert numbers[..i + 1] == numbers[..i] + [numbers[i]];
    AppendAssoc(base, LoadPosts(known, numbers[..i], recs, post), if inRegistry then [] else post(numbers[i], r));
  }

  /** Getting records that are all registered already posts nothing. */
  lemma {:induction false} LoadPostsKnown<R>(known: set<string>, numbers: seq<string>, recs: seq<R>,
                                             post: (string, R) -> seq<Activity>)
    requires |recs| == |numbers| && forall n :: n in numbers ==> n in known
    ensures LoadPosts(known, numbers, recs, post) == []
    decreases |numbers|
  {
    if numbers != [] {
      var n := |numbers| - 1;
      var init := numbers[..n];
      forall x | x in init
        ensures x in known
      {
        assert x in numbers;
      }
      LoadPostsKnown(known, init, recs[..n], post);
      assert numbers[n] in numbers;
      assert LoadPosts(known, numbers, recs, post) == LoadPosts(known, init, recs[..n], post) + [];
    }
  }

  /** Every document load posts legislative activities only, and every question load question activities only. */
  lemma {:induction false} LoadPostsKinds<R>(known: set<string>, numbers: seq<string>, recs: seq<R>,
                                             post: (string, R) -> seq<Activity>, isKind: Kind -> bool)
    requires |recs| == |numbers|
    requires forall n, r, a :: a in post(n, r) ==> isKind(a.kind)
    ensures forall a :: a in LoadPosts(known, numbers, recs, post) ==> isKind(a.kind)
    decreases |numbers|
  {
    if numbers != [] {
      var n := |numbers| - 1;
      LoadPostsKinds(known, numbers[..n], recs[..n], post, isKind);
    }
  }

  /**
   * Midway through a walk that registered the records of `numbers[..i]`,
   * the next number is registered exactly when it was before the walk or
   * was asked for earlier in it.
   */
  lemma InRegistry<R>(before: map<string, R>, now: map<string, R>, numbers: seq<string>, i: nat, recs: seq<R>)
    requires i < |numbers| && |recs| == i && Registered(before, now, numbers, i, recs)
    ensures numbers[i] in now <==> numbers[i] in before.Keys || numbers[i] in numbers[..i]
  {
    if numbers[i] in numbers[..i] {
      var k :| 0 <= k < i && numbers[k] == numbers[i];
    }
  }

  /**
   * The records of `numbers[..i]` are registered, each under its number;
   * the registry extends `before` with those numbers only.
   */
  ghost predicate Registered<R>(before: map<string, R>, now: map<string, R>, numbers: seq<string>, i: nat, recs: seq<R>)
    requires i <= |numbers| && |recs| == i
  {
    && (forall k :: 0 <= k < i ==> numbers[k] in now && now[numbers[k]] == recs[k])
    && Extends(before, now)
    && (forall n :: n in now ==> n in before || n in numbers[..i])
  }

  /** Getting the next number, from the registry or by a load that registers it, keeps the walk registered. */
  lemma RegisteredStep<R>(before: map<string, R>, now: map<string, R>, after: map<string, R>,
                          numbers: seq<string>, i: nat, recs: seq<R>, r: R)
    requires i < |numbers| && |recs| == i && Registered(before, now, numbers, i, recs)
    requires numbers[i] in now ==> after == now && now[numbers[i]] == r
    requires numbers[i] !in now ==> after == now[numbers[i] := r]
    ensures Registered(before, after, numbers, i + 1, recs + [r])
  {
    assert numbers[..i + 1] == numbers[..i] + [numbers[i]];
    forall k | 0 <= k < i + 1
      ensures numbers[k] in after && after[numbers[k]] == (recs + [r])[k]
    {
      if k < i && numbers[i] !in now {
        assert numbers[k] != numbers[i];
      }
    }
  }

  /** A legislative or question activity: what loading a cited document or question posts. */
  predicate LoadActivity(a: Activity) {
    a.kind.Authored? || a.kind.QuestionAsked?
  }

  /** Document loads post legislative activities and question loads question activities, and nothing else. */
  lemma LoadPostsAreLoads(known: set<string>, numbers: seq<string>, docs: seq<DocumentRecord>, qs: seq<QuestionRecord>)
    ensures |docs| == |numbers| ==> forall a :: a in LoadPosts(known, numbers, docs, DocumentPosts) ==> a.kind.Authored?
    ensures |qs| == |numbers| ==> forall a :: a in LoadPosts(known, numbers, qs, QuestionPosts) ==> a.kind.QuestionAsked?
  {
    forall n, d: DocumentRecord, a | a in DocumentPosts(n, d)
      ensures a.kind.Authored?
    {
      PostsKinds(d.authors, d.date, Authored(DocumentUri(n)));
    }
    forall n, q: QuestionRecord, a | a in QuestionPosts(n, q)
      ensures a.kind.QuestionAsked?
    {
      PostsKinds(q.authors, q.date, QuestionAsked(QuestionUri(n)));
    }
    if |docs| == |numbers| {
      LoadPostsKinds(known, numbers, docs, DocumentPosts, (k: Kind) => k.Authored?);
    }
    if |qs| == |numbers| {
      LoadPostsKinds(known, numbers, qs, QuestionPosts, (k: Kind) => k.QuestionAsked?);
    }
  }

  /** Where the pages of documents and questions come from: one fetch per number and attempt. */
  datatype Web = Web(document: string -> nat -> Page<DocumentPage>, question: string -> nat -> Page<QuestionPage>)

  /**
   * `create_or_get_doc`: a number already registered gives its document;
   * any other is loaded (and registered) as a new `ParliamentaryDocument`.
   */
  method CreateOrGetDoc(session: ParliamentarySession, number: string, web: Web, log: ActivityLog)
    returns (r: Outcome<DocumentRecord>)
    modifies session, log
    ensures number in old(session.documents) ==>
      r == Ok(old(session.documents)[number]) && session.documents == old(session.documents) &&
      session.membersDict == old(session.membersDict) && log.posted == old(log.posted)
    ensures number !in old(session.documents) ==> var page := Initialize(web.document(number), 0).0;
      r == DocumentOf(number, Date(session.start), page,
                      ResolvedAuthors(session.membersDict, NormalizedNames(session.normalize, DocumentNames(page))))
    ensures number !in old(session.documents) && r.Ok? ==>
      session.documents == old(session.documents)[number := r.value] &&
      log.posted == old(log.posted) + DocumentPosts(number, r.value)
    ensures r.Raised? ==>
      number !in old(session.documents) && session.documents == old(session.documents) && log.posted == old(log.posted)
    ensures session.members == old(session.members) && session.fnLn == old(session.fnLn)
    ensures session.questions == old(session.questions)
  {
    if number in session.documents {
      r := Ok(session.documents[number]);
    } else {
      r := session.NewDocument(number, web.document(number), log);
    }
  }

  /**
   * `create_or_get_question`, the same for questions. The question page is
   * read field by field, each `Option` standing for a row that may be
   * missing; the exceptions of a malformed row are not part of this model.
   */
  method CreateOrGetQuestion(session: ParliamentarySession, number: string, web: Web, log: ActivityLog)
    returns (q: QuestionRecord)
    modifies session, log
    ensures number in old(session.questions) ==>
      q == old(session.questions)[number] && session.questions == old(session.questions) &&
      session.membersDict == old(session.membersDict) && log.posted == old(log.posted)
    ensures number !in old(session.questions) ==> var page := Initialize(web.question(number), 0).0;
      q == QuestionOf(number, Date(session.start), page,
                      ResolvedAuthors(session.membersDict, NormalizedNames(session.normalize, QuestionNames(page))))
    ensures number !in old(session.questions) ==> log.posted == old(log.posted) + QuestionPosts(number, q)
    ensures session.questions == old(session.questions)[number := q]
    ensures session.members == old(session.members) && session.fnLn == old(session.fnLn)
    ensures session.documents == old(session.documents)
  {
    if number in session.questions {
      q := session.questions[number];
    } else {
      q := session.NewQuestion(number, web.question(number), log);
    }
  }

  /**
   * `list(map(partial(create_or_get_doc, session), numbers))`: the
   * document of each number, in order; the first load that raises ends
   * the walk. Each result is the document then registered under its
   * number, and nothing registered before changes.
   */
  method CreateOrGetDocs(session: ParliamentarySession, numbers: seq<string>, web: Web, log: ActivityLog)
    returns (r: Outcome<seq<DocumentRecord>>, ghost loaded: seq<DocumentRecord>)
    modifies session, log
    ensures |loaded| <= |numbers| && (r.Ok? ==> loaded == r.value)
    ensures log.posted == old(log.posted) + LoadPosts(old(session.documents).Keys, numbers[..|loaded|], loaded, DocumentPosts)
    ensures r.Ok? ==> |r.value| == |numbers|
    ensures r.Ok? ==> forall k :: 0 <= k < |numbers| ==>
      numbers[k] in session.documents && session.documents[numbers[k]] == r.value[k]
    ensures Extends(old(session.documents), session.documents)
    ensures forall n :: n in session.documents ==> n in old(session.documents) || n in numbers
    ensures session.members == old(session.members) && session.fnLn == old(session.fnLn)
    ensures session.questions == old(session.questions)
  {
    var docs := [];
    var i := 0;
    while i < |numbers|
      invariant 0 <= i <= |numbers| && |docs| == i
      invariant Registered(old(session.documents), session.documents, numbers, i, docs)
      invariant session.members == old(session.members) && session.fnLn == old(session.fnLn)
      invariant session.questions == old(session.questions)
      invariant log.posted == old(log.posted) + LoadPosts(old(session.documents).Keys, numbers[..i], docs, DocumentPosts)
    {
      InRegistry(old(session.documents), session.documents, numbers, i, docs);
      ghost var inRegistry, before, now := numbers[i] in session.documents, log.posted, session.documents;
      var d := CreateOrGetDoc(session, numbers[i], web, log);
      if d.Raised? {
        return Raised(d.error), docs;
      }
      LoadPostsStep(old(session.documents).Keys, numbers, i, docs, DocumentPosts, d.value, inRegistry,
                    old(log.posted), before, log.posted);
      RegisteredStep(old(session.documents), now, session.documents, numbers, i, docs, d.value);
      docs := docs + [d.value];
      i := i + 1;
    }
    assert numbers[..i] == numbers;
    r, loaded := Ok(docs), docs;
  }

  /** The questions of the given numbers, in order, each the one then registered under its number. */
  method CreateOrGetQuestions(session: ParliamentarySession, numbers: seq<string>, web: Web, log: ActivityLog)
    returns (qs: seq<QuestionRecord>)
    modifies session, log
    ensures |qs| == |numbers|
    ensures log.posted == old(log.posted) + LoadPosts(old(session.questions).Keys, numbers, qs, QuestionPosts)
    ensures forall k :: 0 <= k < |numbers| ==>
      numbers[k] in session.questions && session.questions[numbers[k]] == qs[k]
    ensures Extends(old(session.questions), session.questions)
    ensures forall n :: n in session.questions ==> n in old(session.questions) || n in numbers
    ensures session.members == old(session.members) && session.fnLn == old(session.fnLn)
    ensures session.documents == old(session.documents)
  {
    qs := [];
    var i := 0;
    while i < |numbers|
      invariant 0 <= i <= |numbers| && |qs| == i
      invariant Registered(old(session.questions), session.questions, numbers, i, qs)
      invariant session.members == old(session.members) && session.fnLn == old(session.fnLn)
      invariant session.documents == old(session.documents)
      invariant log.posted == old(log.posted) + LoadPosts(old(session.questions).Keys, numbers[..i], qs, QuestionPosts)
    {
      InRegistry(old(session.questions), session.questions, numbers, i, qs);
      ghost var inRegistry, before, now := numbers[i] in session.questions, log.posted, session.questions;
      var q := CreateOrGetQuestion(session, numbers[i], web, log);
      LoadPostsStep(old(session.questions).Keys, numbers, i, qs, QuestionPosts, q, inRegistry,
                    old(log.posted), before, log.posted);
      RegisteredStep(old(session.questions), now, session.questions, numbers, i, qs, q);
      qs := qs + [q];
      i := i + 1;
    }
    assert numbers[..i] == numbers;
  }

  // ---------------------------------------------------------------------
  // Agenda items

  /** A vote recorded on an agenda item: one read from a table of names, or an electronic count. */
  datatype TopicVote = Named(vote: Vote.NameVote) | Electronic(count: Vote.ElectronicVote)

  /** The bill numbers `complete_type` collects from a title: one per line, as the lines come. */
  method CollectBillNumbers(title: string) returns (numbers: seq<string>)
    ensures numbers == BillNumbers(SplitOn(title, '\n'))
  {
    var lines := SplitOn(title, '\n');
    numbers := [];
    var i := 0;
    while i < |lines|
      invariant 0 <= i <= |lines|
      invariant numbers == BillNumbers(lines[..i])
    {
      assert lines[..i + 1][..i] == lines[..i];
      var n := BillNumber(lines[i]);
      if n.Some? {
        numbers := numbers + [n.value];
      }
      i := i + 1;
    }
    assert lines[..i] == lines;
  }

  /** The question numbers `complete_type` collects from a title: new form first, then old form per line. */
  method CollectQuestionNumbers(session: int, title: string) returns (numbers: seq<string>)
    ensures numbers == QuestionNumbers(session, SplitOn(title, '\n'))
  {
    var lines := SplitOn(title, '\n');
    numbers := [];
    var i := 0;
    while i < |lines|
      invariant 0 <= i <= |lines|
      invariant numbers == QuestionNumbers(session, lines[..i])
    {
      assert lines[..i + 1][..i] == lines[..i];
      var n := QuestionNumber(session, lines[i]);
      if n.Some? {
        numbers := numbers + [n.value];
      }
      i := i + 1;
    }
    assert lines[..i] == lines;
  }

  /** What an agenda item knows of itself apart from its votes and links. */
  datatype Header = Header(
    titleNL: Option<string>, titleFR: Option<string>,
    sectionNL: Option<string>, sectionFR: Option<string>, topicType: TopicType)

  /**
   * `MeetingTopic`: one agenda item of a meeting. A title that was never
   * set is `None`; a section never set is `None` too, which stands for
   * the attribute being absent.
   */
  class MeetingTopic {
    const session: ParliamentarySession
    const meetingId: int
    const meetingDate: Date
    const item: int
    var topicType: TopicType
    var votes: seq<TopicVote>
    var relatedDocuments: seq<DocumentRecord>
    var relatedQuestions: seq<QuestionRecord>
    var titleNL: Option<string>
    var titleFR: Option<string>
    var sectionNL: Option<string>
    var sectionFR: Option<string>

    constructor (session: ParliamentarySession, meetingId: int, meetingDate: Date, item: int)
      ensures this.session == session && this.meetingId == meetingId && this.meetingDate == meetingDate
      ensures this.item == item
      ensures Head() == Header(None, None, None, None, General)
      ensures votes == [] && relatedDocuments == [] && relatedQuestions == []
    {
      this.session := session;
      this.meetingId := meetingId;
      this.meetingDate := meetingDate;
      this.item := item;
      topicType := General;
      votes, relatedDocuments, relatedQuestions := [], [], [];
      titleNL, titleFR := None, None;
      sectionNL, sectionFR := None, None;
    }

    function Head(): Header
      reads this
    {
      Header(titleNL, titleFR, sectionNL, sectionFR, topicType)
    }

    /** `get_uri` */
    function Uri(): string {
      TopicUri(meetingId, item)
    }

    /** The title in one language. */
    function TitleIn(language: Language): Option<string>
      reads this
    {
      if language == NL then titleNL else titleFR
    }

    /** The section in one language. */
    function SectionIn(language: Language): Option<string>
      reads this
    {
      if language == NL then sectionNL else sectionFR
    }

    /** The type agrees with the classifier on the Dutch title and section. */
    predicate Classified()
      reads this
    {
      titleNL.Some? && sectionNL.Some? && topicType == Classify(titleNL.value, sectionNL.value)
    }

    /** `set_title`: only the given language's title changes. */
    method SetTitle(language: Language, title: string)
      modifies this
      ensures TitleIn(language) == Some(title)
      ensures TitleIn(if language == NL then FR else NL) == old(TitleIn(if language == NL then FR else NL))
      ensures sectionNL == old(sectionNL) && sectionFR == old(sectionFR) && topicType == old(topicType)
      ensures votes == old(votes) && relatedDocuments == old(relatedDocuments) && relatedQuestions == old(relatedQuestions)
    {
      if language == NL {
        titleNL := Some(title);
      } else {
        titleFR := Some(title);
      }
    }

    /** `set_section`: only the given language's section changes. */
    method SetSection(language: Language, name: string)
      modifies this
      ensures SectionIn(language) == Some(name)
      ensures SectionIn(if language == NL then FR else NL) == old(SectionIn(if language == NL then FR else NL))
      ensures titleNL == old(titleNL) && titleFR == old(titleFR) && topicType == old(topicType)
      ensures votes == old(votes) && relatedDocuments == old(relatedDocuments) && relatedQuestions == old(relatedQuestions)
    {
      if language == NL {
        sectionNL := Some(name);
      } else {
        sectionFR := Some(name);
      }
    }

    /** `add_vote`: the vote goes at the end of the list. */
    method AddVote(v: TopicVote)
      modifies this
      ensures votes == old(votes) + [v]
      ensures Head() == old(Head())
      ensures relatedDocuments == old(relatedDocuments) && relatedQuestions == old(relatedQuestions)
    {
      votes := votes + [v];
    }

    /** The related documents are, in order, the session's documents with these numbers. */
    predicate DocumentsLinked(numbers: seq<string>)
      reads this, session
    {
      && |relatedDocuments| == |numbers|
      && forall k :: 0 <= k < |numbers| ==>
           numbers[k] in session.documents && session.documents[numbers[k]] == relatedDocuments[k]
    }

    /** The related questions are, in order, the session's questions with these numbers. */
    predicate QuestionsLinked(numbers: seq<string>)
      reads this, session
    {
      && |relatedQuestions| == |numbers|
      && forall k :: 0 <= k < |numbers| ==>
           numbers[k] in session.questions && session.questions[numbers[k]] == relatedQuestions[k]
    }

    /**
     * The activities `complete_type` posts for this item's links, loading
     * from registries that held the numbers `documents` and `questions`:
     * those of every cited record loaded for the first time, in citation
     * order.
     */
    ghost function LinkPosts(documents: set<string>, questions: set<string>): seq<Activity>
      reads this
    {
      if titleNL.None? then []
      else if CitesBills(topicType) then
        var numbers := BillNumbers(SplitOn(titleNL.value, '\n'));
        if |relatedDocuments| == |numbers| then LoadPosts(documents, numbers, relatedDocuments, DocumentPosts) else []
      else if topicType == Questions then
        var numbers := QuestionNumbers(session.session, SplitOn(titleNL.value, '\n'));
        if |relatedQuestions| == |numbers| then LoadPosts(questions, numbers, relatedQuestions, QuestionPosts) else []
      else []
    }

    /** What the links post are loads of documents and questions only. */
    lemma LinkPostsAreLoads(documents: set<string>, questions: set<string>)
      ensures forall a :: a in LinkPosts(documents, questions) ==> LoadActivity(a)
    {
      if titleNL.Some? {
        var bills := BillNumbers(SplitOn(titleNL.value, '\n'));
        var asked := QuestionNumbers(session.session, SplitOn(titleNL.value, '\n'));
        LoadPostsAreLoads(documents, bills, relatedDocuments, []);
        LoadPostsAreLoads(questions, asked, [], relatedQuestions);
      }
    }

    /** The bill branch of `complete_type`: link the documents the lines of `title` cite. */
    method LinkDocuments(title: string, web: Web, log: ActivityLog) returns (raised: Option<string>)
      modifies this, session, log
      ensures raised.None? ==> DocumentsLinked(BillNumbers(SplitOn(title, '\n')))
      ensures raised.None? ==>
        log.posted == old(log.posted) +
          LoadPosts(old(session.documents).Keys, BillNumbers(SplitOn(title, '\n')), relatedDocuments, DocumentPosts)
      ensures old(log.posted) <= log.posted
      ensures raised.Some? ==> relatedDocuments == old(relatedDocuments)
      ensures Head() == old(Head()) && votes == old(votes) && relatedQuestions == old(relatedQuestions)
      ensures Extends(old(session.documents), session.documents) && session.questions == old(session.questions)
      ensures session.members == old(session.members) && session.fnLn == old(session.fnLn)
    {
      var numbers := CollectBillNumbers(title);
      var docs, _ := CreateOrGetDocs(session, numbers, web, log);
      if docs.Raised? {
        return Some(docs.error);
      }
      assert numbers[..|docs.value|] == numbers;
      relatedDocuments := docs.value;
      return None;
    }

    /** The question branch of `complete_type`: link the questions the lines of `title` cite. */
    method LinkQuestions(title: string, web: Web, log: ActivityLog)
      modifies this, session, log
      ensures QuestionsLinked(QuestionNumbers(session.session, SplitOn(title, '\n')))
      ensures log.posted == old(log.posted) +
        LoadPosts(old(session.questions).Keys, QuestionNumbers(session.session, SplitOn(title, '\n')), relatedQuestions, QuestionPosts)
      ensures Head() == old(Head()) && votes == old(votes) && relatedDocuments == old(relatedDocuments)
      ensures Extends(old(session.questions), session.questions) && session.documents == old(session.documents)
      ensures session.members == old(session.members) && session.fnLn == old(session.fnLn)
    {
      var numbers := CollectQuestionNumbers(session.session, title);
      relatedQuestions := CreateOrGetQuestions(session, numbers, web, log);
    }

    /**
     * `complete_type(type)`: set the type (the given one, else the
     * classifier's on the Dutch title and section), then, for the types
     * that cite bills, replace the related documents by those the Dutch
     * title's lines cite, and for questions the related questions. Reading
     * an absent Dutch title or section raises AttributeError; a document
     * that fails to load raises and leaves the links as they were.
     */
    method CompleteType(given: Option<TopicType>, web: Web, log: ActivityLog) returns (raised: Option<string>)
      modifies this, session, log
      ensures given.None? && (titleNL.None? || sectionNL.None?) ==>
        raised == Some("AttributeError") && Head() == old(Head())
      ensures given.Some? ==> topicType == given.value
      ensures given.None? && titleNL.Some? && sectionNL.Some? ==> topicType == Classify(titleNL.value, sectionNL.value)
      ensures raised.None? && CitesBills(topicType) ==>
        titleNL.Some? && DocumentsLinked(BillNumbers(SplitOn(titleNL.value, '\n')))
      ensures raised.None? && topicType == Questions ==>
        titleNL.Some? && QuestionsLinked(QuestionNumbers(session.session, SplitOn(titleNL.value, '\n')))
      ensures (CitesBills(topicType) || topicType == Questions) && titleNL.None? ==> raised == Some("AttributeError")
      ensures (given.Some? || (titleNL.Some? && sectionNL.Some?)) && !CitesBills(topicType) && topicType != Questions ==>
        raised.None?
      ensures !CitesBills(topicType) || raised.Some? ==> relatedDocuments == old(relatedDocuments)
      ensures topicType != Questions || raised.Some? ==> relatedQuestions == old(relatedQuestions)
      ensures titleNL == old(titleNL) && titleFR == old(titleFR) && sectionNL == old(sectionNL) && sectionFR == old(sectionFR)
      ensures votes == old(votes)
      ensures Extends(old(session.documents), session.documents) && Extends(old(session.questions), session.questions)
      ensures session.members == old(session.members) && session.fnLn == old(session.fnLn)
      ensures raised.None? ==> log.posted == old(log.posted) + LinkPosts(old(session.documents).Keys, old(session.questions).Keys)
      ensures old(log.posted) <= log.posted
    {
      if given.Some? {
        topicType := given.value;
      } else {
        if titleNL.None? || sectionNL.None? {
          return Some("AttributeError");
        }
        topicType := Classify(titleNL.value, sectionNL.value);
      }
      if !CitesBills(topicType) && topicType != Questions {
        return None;
      }
      if titleNL.None? {
        return Some("AttributeError");
      }
      if CitesBills(topicType) {
        raised := LinkDocuments(titleNL.value, web, log);
      } else {
        LinkQuestions(titleNL.value, web, log);
        raised := None;
      }
    }
  }
}
