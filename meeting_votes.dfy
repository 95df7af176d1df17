/**
 * Locating the votes in the meeting notes: the markers that introduce
 * them, the agenda item a vote belongs to, the lists of names printed
 * under a name vote, and the shape of a vote table. The notes are one
 * flat sequence of sibling nodes (see `Dom`).
 */
module MeetingVotes {
  import opened Base
  import opened Strings
  import opened Util
  import opened Common
  import opened Dom
  import opened Meetings
  import Vote

  // ---------------------------------------------------------------------
  // Marker patterns: literal text with optional whitespace runs (`\s*`)

  datatype Tok = Lit(c: char) | Blanks

  /** The pattern matches a prefix of `s` (`re.match`). */
  predicate MatchesAt(p: seq<Tok>, s: string)
    decreases |p| + |s|
  {
    if p == [] then true
    else match p[0]
      case Lit(c) => s != [] && s[0] == c && MatchesAt(p[1..], s[1..])
      case Blanks => MatchesAt(p[1..], s) || (s != [] && IsSpace(s[0]) && MatchesAt(p, s[1..]))
  }

  /** The pattern matches somewhere in `s` (`re.search`, which `find_all(text=...)` uses). */
  predicate Found(p: seq<Tok>, s: string)
    decreases |s|
  {
    MatchesAt(p, s) || (s != [] && Found(p, s[1..]))
  }

  /** The text the pattern stands for with one blank for each optional run, as the notes print it. */
  function Spaced(p: seq<Tok>): (r: string)
    ensures |r| == |p|
  {
    if p == [] then [] else [if p[0].Lit? then p[0].c else ' '] + Spaced(p[1..])
  }

  /** The pattern matches its printed text, whatever follows. */
  lemma {:induction false} MatchesSpaced(p: seq<Tok>, rest: string)
    ensures MatchesAt(p, Spaced(p) + rest)
    decreases |p|
  {
    if p != [] {
      var s := Spaced(p) + rest;
      var s' := Spaced(p[1..]) + rest;
      MatchesSpaced(p[1..], rest);
      assert s[1..] == s';
      if p[0].Blanks? {
        assert s[0] == ' ' && MatchesAt(p[1..], s');
        assert MatchesAt(p, s');
      } else {
        assert s != [] && s[0] == p[0].c && MatchesAt(p[1..], s[1..]);
      }
    }
  }

  /** A match anywhere is found. */
  lemma {:induction false} FoundWithin(p: seq<Tok>, s: string, k: nat)
    requires k <= |s| && MatchesAt(p, s[k..])
    ensures Found(p, s)
    decreases k
  {
    if k > 0 {
      assert s[1..][k - 1..] == s[k..];
      FoundWithin(p, s[1..], k - 1);
    }
  }

  /** A node whose text holds the printed pattern anywhere is marked. */
  lemma FoundSpaced(p: seq<Tok>, before: string, after: string)
    ensures Found(p, before + Spaced(p) + after)
  {
    var s := before + Spaced(p) + after;
    MatchesSpaced(p, after);
    assert s[|before|..] == Spaced(p) + after;
    FoundWithin(p, s, |before|);
  }

  /** `Vote\s*nominatif\s*-\s*Naamstemming:` */
  const NameMarkerFR: seq<Tok> := [
    Lit('V'), Lit('o'), Lit('t'), Lit('e'), Blanks, Lit('n'), Lit('o'), Lit('m'),
    Lit('i'), Lit('n'), Lit('a'), Lit('t'), Lit('i'), Lit('f'), Blanks, Lit('-'),
    Blanks, Lit('N'), Lit('a'), Lit('a'), Lit('m'), Lit('s'), Lit('t'), Lit('e'),
    Lit('m'), Lit('m'), Lit('i'), Lit('n'), Lit('g'), Lit(':')]

  /** `Naamstemming\s*-\s*Vote\s*nominatif:` */
  const NameMarkerNL: seq<Tok> := [
    Lit('N'), Lit('a'), Lit('a'), Lit('m'), Lit('s'), Lit('t'), Lit('e'), Lit('m'),
    Lit('m'), Lit('i'), Lit('n'), Lit('g'), Blanks, Lit('-'), Blanks, Lit('V'),
    Lit('o'), Lit('t'), Lit('e'), Blanks, Lit('n'), Lit('o'), Lit('m'), Lit('i'),
    Lit('n'), Lit('a'), Lit('t'), Lit('i'), Lit('f'), Lit(':')]

  /** `Comptage\s*électronique\s*–\s*Elektronische telling:` */
  const ElectronicMarker: seq<Tok> := [
    Lit('C'), Lit('o'), Lit('m'), Lit('p'), Lit('t'), Lit('a'), Lit('g'), Lit('e'),
    Blanks, Lit('\U{E9}'), Lit('l'), Lit('e'), Lit('c'), Lit('t'), Lit('r'),
    Lit('o'), Lit('n'), Lit('i'), Lit('q'), Lit('u'), Lit('e'), Blanks,
    Lit('\U{2013}'), Blanks, Lit('E'), Lit('l'), Lit('e'), Lit('k'), Lit('t'),
    Lit('r'), Lit('o'), Lit('n'), Lit('i'), Lit('s'), Lit('c'), Lit('h'), Lit('e'),
    Lit(' '), Lit('t'), Lit('e'), Lit('l'), Lit('l'), Lit('i'), Lit('n'), Lit('g'),
    Lit(':')]

  /** The positions, in document order, of the nodes before `n` that `marked` selects. */
  function Positions(notes: seq<Node>, marked: Node -> bool, n: nat): (r: seq<nat>)
    requires n <= |notes|
    ensures forall k :: 0 <= k < |r| ==> r[k] < n && marked(notes[r[k]])
    ensures forall i :: 0 <= i < n && marked(notes[i]) ==> i in r
    ensures forall j, k :: 0 <= j < k < |r| ==> r[j] < r[k]
  {
    if n == 0 then []
    else Positions(notes, marked, n - 1) + (if marked(notes[n - 1]) then [n - 1] else [])
  }

  /** `s3.find_all(text=...)` for one pattern: the nodes whose text holds a match. */
  function Marked(notes: seq<Node>, p: seq<Tok>): (r: seq<nat>)
    ensures forall k :: 0 <= k < |r| ==> r[k] < |notes| && Found(p, Text(notes[r[k]]))
  {
    Positions(notes, n => Found(p, Text(n)), |notes|)
  }

  /** The name-vote markers: those of the first spelling, then those of the second. */
  function NameMarkers(notes: seq<Node>): (r: seq<nat>)
    ensures forall k :: 0 <= k < |r| ==> r[k] < |notes|
  {
    Marked(notes, NameMarkerFR) + Marked(notes, NameMarkerNL)
  }

  // ---------------------------------------------------------------------
  // The `Stemming/vote N` marker of a vote table or paragraph

  /**
   * `(Stemming/vote|Vote/stemming)\s+([0-9]+)` matched at the start of
   * `s`: the number it carries.
   */
  function StemmingAt(s: string): Option<nat> {
    if |s| >= 13 && (s[..13] == "Stemming/vote" || s[..13] == "Vote/stemming") then
      var t := s[13..];
      var u := LStrip(t);
      var d := DigitRun(u);
      if |u| < |t| && d != [] then Some(DigitsValue(d)) else None
    else None
  }

  /** The text holds a vote marker somewhere (`re.search`). */
  predicate HasVoteMarker(s: string)
    decreases |s|
  {
    StemmingAt(s).Some? || (s != [] && HasVoteMarker(s[1..]))
  }

  /** `re.match(r'\(?(Stemming/vote|Vote/stemming)\s+([0-9]+)\)?', s).group(2)`; no match raises AttributeError. */
  function VoteMarkerNumber(s: string): Outcome<nat> {
    var m := if s != [] && s[0] == '(' then StemmingAt(s[1..]) else StemmingAt(s);
    if m.Some? then Ok(m.value) else Raised("AttributeError")
  }

  /** One blank before text that starts with a non-blank is stripped exactly. */
  lemma LStripOneBlank(x: string)
    requires x != [] && !IsSpace(x[0])
    ensures LStrip(" " + x) == x
  {
    var t := " " + x;
    assert t[0] == ' ' && t[1..] == x;
    assert LStrip(x) == x;
  }

  /** After either spelling of the marker, `StemmingAt` only looks at what follows it. */
  lemma StemmingAtAfter(w: string, t: string)
    requires w == "Stemming/vote" || w == "Vote/stemming"
    ensures StemmingAt(w + t) ==
      (var u := LStrip(t); if |u| < |t| && DigitRun(u) != [] then Some(DigitsValue(DigitRun(u))) else None)
  {
    var s := w + t;
    assert |w| == 13;
    assert s[..13] == w && s[13..] == t;
  }

  /** Either spelling of the marker, one blank and a numeral read back the numeral's value. */
  lemma StemmingAtPrinted(w: string, d: string, rest: string)
    requires w == "Stemming/vote" || w == "Vote/stemming"
    requires d != [] && AllDigits(d) && (rest == [] || !IsDigit(rest[0]))
    ensures StemmingAt(w + (" " + (d + rest))) == Some(DigitsValue(d))
  {
    var x := d + rest;
    assert x[0] == d[0] && IsDigit(d[0]);
    LStripOneBlank(x);
    DigitRunAppend(d, rest);
    StemmingAtAfter(w, " " + x);
  }

  /** The marker read at the start of a text that opens with it: its number. */
  lemma VoteMarkerPrinted(w: string, d: string, rest: string)
    requires w == "Stemming/vote" || w == "Vote/stemming"
    requires d != [] && AllDigits(d) && (rest == [] || !IsDigit(rest[0]))
    ensures VoteMarkerNumber(w + (" " + (d + rest))) == Ok(DigitsValue(d))
  {
    StemmingAtPrinted(w, d, rest);
    var s := w + (" " + (d + rest));
    assert s[0] == w[0] && w[0] != '(';
  }

  /** The marker as the notes print it reads back its number. */
  lemma VoteMarkerRoundTrip(w: string, n: nat, rest: string)
    requires w == "Stemming/vote" || w == "Vote/stemming"
    requires rest == [] || !IsDigit(rest[0])
    ensures VoteMarkerNumber(w + " " + NatToString(n) + rest) == Ok(n)
  {
    var d := NatToString(n);
    AppendAssoc(w, " ", d);
    AppendAssoc(w, " " + d, rest);
    AppendAssoc(" ", d, rest);
    NatToStringValue(n);
    VoteMarkerPrinted(w, d, rest);
  }

  /** An opening parenthesis before the marker changes nothing. */
  lemma VoteMarkerParenthesis(s: string)
    requires s == [] || s[0] != '('
    ensures VoteMarkerNumber("(" + s) == VoteMarkerNumber(s)
  {
    assert ("(" + s)[1..] == s;
  }

  /** `soup.find_all(text=...)` for the vote marker: every node whose text holds one. */
  function VoteTags(notes: seq<Node>): (r: seq<nat>)
    ensures forall k :: 0 <= k < |r| ==> r[k] < |notes|
  {
    Positions(notes, n => HasVoteMarker(Text(n)), |notes|)
  }

  /** The markers are the nodes whose text holds a vote marker, every one of them, in document order. */
  lemma VoteTagsMarked(notes: seq<Node>)
    ensures var r := VoteTags(notes);
      forall k :: 0 <= k < |r| ==> HasVoteMarker(Text(notes[r[k]]))
    ensures var r := VoteTags(notes);
      forall i :: 0 <= i < |notes| && HasVoteMarker(Text(notes[i])) ==> i in r
    ensures var r := VoteTags(notes);
      forall j, k :: 0 <= j < k < |r| ==> r[j] < r[k]
  {
  }

  // ---------------------------------------------------------------------
  // The agenda item above a vote

  /**
   * The item number a title paragraph starts with: the leading digits of
   * `re.match(r"([0-9]+) (.*)", clean_string(text))`. The agenda walk
   * below takes this reader as a parameter `number`, so that its proof
   * does not depend on how the text is cleaned.
   */
  function TitleNumber(n: Node): Option<nat> {
    match ItemNumber(CleanString(Text(n)))
    case Some(t) => Some(t.item)
    case None => None
  }

  /** A paragraph of class `c` that `number` reads an item number from. */
  predicate NumberedTitle(n: Node, c: string, number: Node -> Option<nat>) {
    HasClass(n, c) && number(n).Some?
  }

  /** The nearest numbered title of class `c` strictly before `pos`. */
  function NumberedBefore(notes: seq<Node>, pos: nat, c: string, number: Node -> Option<nat>): (r: Option<nat>)
    requires pos <= |notes|
    ensures r.Some? ==> r.value < pos && NumberedTitle(notes[r.value], c, number)
    decreases pos
  {
    if pos == 0 then None
    else if NumberedTitle(notes[pos - 1], c, number) then Some(pos - 1)
    else NumberedBefore(notes, pos - 1, c, number)
  }

  /** No numbered title lies between what the search finds and `pos`; none at all when it finds nothing. */
  lemma {:induction false} NumberedBeforeNearest(notes: seq<Node>, pos: nat, c: string, number: Node -> Option<nat>)
    requires pos <= |notes|
    ensures var r := NumberedBefore(notes, pos, c, number);
      && (r.Some? ==> forall k :: r.value < k < pos ==> !NumberedTitle(notes[k], c, number))
      && (r.None? ==> forall k :: 0 <= k < pos ==> !NumberedTitle(notes[k], c, number))
    decreases pos
  {
    if pos > 0 && !NumberedTitle(notes[pos - 1], c, number) {
      NumberedBeforeNearest(notes, pos - 1, c, number);
    }
  }

  /** Positions without a paragraph of class `c` do not change the search. */
  lemma {:induction false} NumberedBeforeSkip(notes: seq<Node>, a: nat, b: nat, c: string, number: Node -> Option<nat>)
    requires a <= b <= |notes|
    requires forall k :: a <= k < b ==> !HasClass(notes[k], c)
    ensures NumberedBefore(notes, b, c, number) == NumberedBefore(notes, a, c, number)
    decreases b - a
  {
    if a < b {
      NumberedBeforeSkip(notes, a, b - 1, c, number);
    }
  }

  /**
   * `extract_title_by_vote`: no title paragraph at all above the vote
   * raises AttributeError; otherwise the item number of the nearest
   * numbered one, or `None` when none of them is numbered.
   */
  function AgendaItem(notes: seq<Node>, pos: nat, c: string, number: Node -> Option<nat>): (r: Outcome<Option<nat>>)
    requires pos <= |notes|
    ensures r.Raised? <==> PrevWithClass(notes, pos, c).None?
    ensures r.Ok? && r.value.Some? <==> NumberedBefore(notes, pos, c, number).Some?
  {
    if PrevWithClass(notes, pos, c).None? then
      NumberedBeforeSkip(notes, 0, pos, c, number);
      Raised("AttributeError")
    else
      match NumberedBefore(notes, pos, c, number)
      case None => Ok(None)
      case Some(q) => Ok(number(notes[q]))
  }

  /**
   * The vote's agenda item is the number of a title above it, and every
   * title of class `c` between that one and the vote is unnumbered.
   */
  lemma AgendaItemIsTitle(notes: seq<Node>, pos: nat, c: string, number: Node -> Option<nat>)
    requires pos <= |notes| && AgendaItem(notes, pos, c, number).Ok? && AgendaItem(notes, pos, c, number).value.Some?
    ensures exists q :: 0 <= q < pos && HasClass(notes[q], c) && number(notes[q]) == AgendaItem(notes, pos, c, number).value &&
              (forall k :: q < k < pos && HasClass(notes[k], c) ==> number(notes[k]).None?)
  {
    NumberedBeforeNearest(notes, pos, c, number);
    var q := NumberedBefore(notes, pos, c, number).value;
    assert number(notes[q]) == AgendaItem(notes, pos, c, number).value;
  }

  /** Without any numbered title above the vote the item is `None`, and it is never raised once a title exists. */
  lemma AgendaItemUnnumbered(notes: seq<Node>, pos: nat, c: string, number: Node -> Option<nat>)
    requires pos <= |notes| && PrevWithClass(notes, pos, c).Some?
    requires forall k :: 0 <= k < pos && HasClass(notes[k], c) ==> number(notes[k]).None?
    ensures AgendaItem(notes, pos, c, number) == Ok(None)
  {
    NumberedBeforeNearest(notes, pos, c, number);
  }

  /** The loop of `extract_title_by_vote`, walking back over the title paragraphs. */
  method TitleByVote(notes: seq<Node>, pos: nat, language: Language, number: Node -> Option<nat>)
    returns (r: Outcome<Option<nat>>)
    requires pos <= |notes|
    ensures r == AgendaItem(notes, pos, TitleClass(language), number)
  {
    var c := TitleClass(language);
    var first := PrevWithClass(notes, pos, c);
    if first.None? {
      return Raised("AttributeError");
    }
    var line: nat := first.value;
    var exhausted := false;
    NumberedBeforeSkip(notes, line + 1, pos, c, number);
    while !exhausted && number(notes[line]).None?
      invariant line < pos && HasClass(notes[line], c)
      invariant !exhausted ==> NumberedBefore(notes, pos, c, number) == NumberedBefore(notes, line + 1, c, number)
      invariant exhausted ==> NumberedBefore(notes, pos, c, number).None?
      decreases line + (if exhausted then 0 else 1)
    {
      var prev := PrevWithClass(notes, line, c);
      if prev.None? {
        NumberedBeforeSkip(notes, 0, line, c, number);
        exhausted := true;
      } else {
        NumberedBeforeSkip(notes, prev.value + 1, line, c, number);
        line := prev.value;
      }
    }
    if exhausted {
      r := Ok(None);
    } else {
      r := Ok(number(notes[line]));
    }
  }

  // ---------------------------------------------------------------------
  // The vote number in a marker's paragraph

  /** The first word made of ASCII digits only (`str.isdigit` on ASCII text). */
  function FirstNumeral(ws: seq<string>): (r: Option<nat>)
    ensures r.Some? ==> exists k :: 0 <= k < |ws| && ws[k] != [] && AllDigits(ws[k]) && r.value == DigitsValue(ws[k])
    ensures r.None? ==> forall k :: 0 <= k < |ws| ==> ws[k] == [] || !AllDigits(ws[k])
  {
    if ws == [] then None
    else if ws[0] != [] && AllDigits(ws[0]) then Some(DigitsValue(ws[0]))
    else
      var r := FirstNumeral(ws[1..]);
      assert forall k :: 1 <= k < |ws| ==> ws[k] == ws[1..][k - 1];
      r
  }

  /**
   * `extract_vote_number_from_tag`: the first whitespace-separated word
   * of the cleaned paragraph text made only of digits, else `default`.
   */
  function VoteNumberOf(clean: string -> string, text: string, default: int): int {
    match FirstNumeral(Split(clean(text)))
    case Some(n) => n
    case None => default
  }

  /** A paragraph without a numeral takes the marker's index as its vote number. */
  lemma VoteNumberDefault(text: string, default: int)
    requires forall k :: 0 <= k < |Split(CleanString(text))| ==> !AllDigits(Split(CleanString(text))[k])
    ensures VoteNumberOf(CleanString, text, default) == default
  {
  }

  /** A paragraph whose cleaned text starts with a number `n` has vote number `n`. */
  lemma VoteNumberLeading(n: nat, rest: string, default: int)
    requires rest == [] || IsSpace(rest[0])
    requires Split(CleanString(NatToString(n) + rest)) == [NatToString(n)] + Split(rest)
    ensures VoteNumberOf(CleanString, NatToString(n) + rest, default) == n
  {
    NatToStringValue(n);
  }

  // ---------------------------------------------------------------------
  // Cancelled votes

  /** A node that cancels the vote: it mentions 'annulé' or article 42.5. */
  predicate CancelMark(n: Node) {
    Contains(Lower(Text(n)), "annul\U{E9}") || Contains(Lower(Text(n)), "42.5")
  }

  /**
   * The scan of `is_vote_cancelled` from `pos`: up to the first table, a
   * node that cancels the vote ends it with `true`. The second component
   * is where the scan stopped, `None` when it ran off the end.
   */
  function CancelScan(notes: seq<Node>, pos: nat, rd: Readers): (r: (bool, Option<nat>))
    ensures r.1.Some? ==> pos <= r.1.value < |notes|
    ensures r.1.Some? ==> forall j :: pos <= j < r.1.value ==> !notes[j].Table? && !rd.cancels(notes[j])
    ensures r.0 ==> r.1.Some? && !notes[r.1.value].Table? && rd.cancels(notes[r.1.value])
    ensures !r.0 && r.1.Some? ==> notes[r.1.value].Table?
    ensures r.1.None? ==> !r.0 && forall j :: pos <= j < |notes| ==> !notes[j].Table? && !rd.cancels(notes[j])
    decreases |notes| - pos
  {
    if pos >= |notes| then (false, None)
    else if notes[pos].Table? then (false, Some(pos))
    else if rd.cancels(notes[pos]) then (true, Some(pos))
    else CancelScan(notes, pos + 1, rd)
  }

  /** `is_vote_cancelled` */
  method IsVoteCancelled(notes: seq<Node>, pos: nat, rd: Readers) returns (cancelled: bool, current: Option<nat>)
    ensures (cancelled, current) == CancelScan(notes, pos, rd)
  {
    cancelled := false;
    var i := pos;
    while i < |notes| && !notes[i].Table?
      invariant pos <= i
      invariant CancelScan(notes, pos, rd) == CancelScan(notes, i, rd)
      decreases |notes| - i
    {
      if rd.cancels(notes[i]) {
        cancelled := true;
        break;
      }
      i := i + 1;
    }
    current := if i < |notes| then Some(i) else None;
  }

  // ---------------------------------------------------------------------
  // The text operations the name lists are read with

  /**
   * The text operations the name-list loops are built from, passed as
   * values so that the loops' proofs depend only on the laws below:
   * `clean` is `clean_string`, `list` is `clean_list(text.split(','))`,
   * `ends` tells a node that closes a list, `abstains` a closing node
   * that announces abstentions and `cancels` a node that cancels a vote.
   * `Source` holds the operations themselves.
   */
  datatype Readers = Readers(
    clean: string -> string, list: string -> seq<string>,
    ends: Node -> bool, abstains: Node -> bool, cancels: Node -> bool)

  /** `a + ',' + b` */
  function Comma(a: string, b: string): string {
    a + "," + b
  }

  /** The laws the loops rely on: empty text is cleaned to itself and holds no names, and a comma splits the names. */
  ghost predicate Lawful(rd: Readers) {
    rd.clean([]) == [] && rd.list([]) == [] &&
    forall a, b :: rd.list(Comma(a, b)) == rd.list(a) + rd.list(b)
  }

  /** A table or a 'naamstemming' paragraph closes a name list. */
  predicate EndsList(n: Node) {
    n.Table? || Contains(Lower(Text(n)), "naamstemming")
  }

  /** The closing node of the no-list announces abstentions: it mentions 'onthoudingen' or 'abstentions'. */
  predicate AnnouncesAbstentions(n: Node) {
    Contains(Lower(Text(n)), "onthoudingen") || Contains(Lower(Text(n)), "abstentions")
  }

  /** `clean_list(text.split(','))` */
  function CommaList(text: string): seq<string> {
    CleanList(SplitOn(text, ','))
  }

  /** The operations of the scraper. */
  const Source: Readers := Readers(CleanString, CommaList, EndsList, AnnouncesAbstentions, CancelMark)

  /** Appending `',' + b` to the text appends the names of `b`. */
  lemma CommaListAppend(a: string, b: string)
    ensures CommaList(Comma(a, b)) == CommaList(a) + CommaList(b)
  {
    assert Comma(a, b) == a + [','] + b;
    SplitOnConcat(a, b, ',');
    CleanListAppend(SplitOn(a, ','), SplitOn(b, ','));
  }

  /** The scraper's operations obey the laws. */
  lemma SourceLawful()
    ensures Lawful(Source)
  {
    assert CleanString([]) == [];
    CleanListSingle("");
    forall a, b ensures CommaList(Comma(a, b)) == CommaList(a) + CommaList(b) {
      CommaListAppend(a, b);
    }
  }

  // ---------------------------------------------------------------------
  // The name lists under a name-vote table

  /** The names one node contributes: its cleaned text read as a list. */
  function NodeNames(n: Node, rd: Readers): seq<string> {
    rd.list(rd.clean(Text(n)))
  }

  /** The names of the nodes in `[a, b)`, in document order. */
  function NamesBetween(notes: seq<Node>, a: nat, b: nat, rd: Readers): seq<string>
    requires a <= b <= |notes|
    decreases b - a
  {
    if a == b then [] else NamesBetween(notes, a, b - 1, rd) + NodeNames(notes[b - 1], rd)
  }

  /** The same run read from its front. */
  lemma {:induction false} NamesBetweenFront(notes: seq<Node>, a: nat, b: nat, rd: Readers)
    requires a < b <= |notes|
    ensures NamesBetween(notes, a, b, rd) == NodeNames(notes[a], rd) + NamesBetween(notes, a + 1, b, rd)
    decreases b - a
  {
    if a + 1 < b {
      NamesBetweenFront(notes, a, b - 1, rd);
    }
  }

  /** The first node at or after `pos` that closes a list; `None` when the notes run out first. */
  function ListEnd(notes: seq<Node>, pos: nat, rd: Readers): (r: Option<nat>)
    ensures r.Some? ==> pos <= r.value < |notes| && rd.ends(notes[r.value])
    ensures r.Some? ==> forall j :: pos <= j < r.value ==> !rd.ends(notes[j])
    ensures r.None? ==> forall j :: pos <= j < |notes| ==> !rd.ends(notes[j])
    decreases |notes| - pos
  {
    if pos >= |notes| then None
    else if rd.ends(notes[pos]) then Some(pos)
    else ListEnd(notes, pos + 1, rd)
  }

  /**
   * The list under a table, each node read once: the names of the nodes
   * from `pos` up to the closing node, and that node. Running off the
   * notes raises AttributeError.
   */
  function NameList(notes: seq<Node>, pos: nat, rd: Readers): (r: Outcome<(seq<string>, nat)>)
    ensures r.Ok? ==> pos <= r.value.1 < |notes| && rd.ends(notes[r.value.1])
  {
    match ListEnd(notes, pos, rd)
    case None => Raised("AttributeError")
    case Some(e) => Ok((NamesBetween(notes, pos, e, rd), e))
  }

  /** One step of the text: `',' + clean(text)` appended for a node with text, nothing otherwise. */
  function Extend(acc: string, n: Node, rd: Readers): string {
    if Text(n) != [] then Comma(acc, rd.clean(Text(n))) else acc
  }

  /** A step appends the node's names. */
  lemma ExtendNames(acc: string, n: Node, rd: Readers)
    requires Lawful(rd)
    ensures rd.list(Extend(acc, n, rd)) == rd.list(acc) + NodeNames(n, rd)
  {
    if Text(n) != [] {
      assert rd.list(Comma(acc, rd.clean(Text(n)))) == rd.list(acc) + rd.list(rd.clean(Text(n)));
    } else {
      assert NodeNames(n, rd) == [];
    }
  }

  /**
   * The loop of `extract_name_list_from_under_table` with the text
   * started empty: `',' + clean_string(text)` is appended for every node
   * with text until a closing node.
   */
  method ReadNameList(notes: seq<Node>, pos: nat, rd: Readers) returns (r: Outcome<(seq<string>, nat)>)
    requires Lawful(rd)
    ensures r == NameList(notes, pos, rd)
  {
    if pos >= |notes| {
      return Raised("AttributeError");
    }
    var text := "";
    var i := pos;
    while i < |notes| && !rd.ends(notes[i])
      invariant pos <= i <= |notes| && ListEnd(notes, i, rd) == ListEnd(notes, pos, rd)
      invariant rd.list(text) == NamesBetween(notes, pos, i, rd)
      decreases |notes| - i
    {
      ExtendNames(text, notes[i], rd);
      text := Extend(text, notes[i], rd);
      i := i + 1;
    }
    if i == |notes| {
      r := Raised("AttributeError");
    } else {
      r := Ok((rd.list(text), i));
    }
  }

  /**
   * The text as `extract_name_list_from_under_table` accumulates it from
   * node `i` on, starting from `acc`: the text and the closing node.
   */
  function ListText(notes: seq<Node>, i: nat, acc: string, rd: Readers): (r: Outcome<(string, nat)>)
    ensures r.Ok? ==> i <= r.value.1 < |notes|
    decreases |notes| - i
  {
    if i >= |notes| then Raised("AttributeError")
    else if rd.ends(notes[i]) then Ok((acc, i))
    else ListText(notes, i + 1, Extend(acc, notes[i], rd), rd)
  }

  /**
   * `extract_name_list_from_under_table` as written: the text starts as
   * the first node's cleaned text, and the loop then reads that node again.
   */
  function NameListAsWritten(notes: seq<Node>, pos: nat, rd: Readers): Outcome<(seq<string>, nat)> {
    if pos >= |notes| then Raised("AttributeError")
    else
      match ListText(notes, pos, rd.clean(Text(notes[pos])), rd)
      case Raised(e) => Raised(e)
      case Ok((t, e)) => Ok((rd.list(t), e))
  }

  /** The accumulation stops at the list's closing node, and raises exactly when there is none. */
  lemma {:induction false} ListTextEnd(notes: seq<Node>, i: nat, acc: string, rd: Readers)
    ensures ListText(notes, i, acc, rd).Raised? <==> ListEnd(notes, i, rd).None?
    ensures ListText(notes, i, acc, rd).Ok? ==> ListEnd(notes, i, rd) == Some(ListText(notes, i, acc, rd).value.1)
    decreases |notes| - i
  {
    if i < |notes| && !rd.ends(notes[i]) {
      ListTextEnd(notes, i + 1, Extend(acc, notes[i], rd), rd);
    }
  }

  /** The accumulation adds the names of every node up to the closing one. */
  lemma {:induction false} ListTextNames(notes: seq<Node>, i: nat, acc: string, rd: Readers)
    requires Lawful(rd) && ListText(notes, i, acc, rd).Ok?
    ensures rd.list(ListText(notes, i, acc, rd).value.0) == rd.list(acc) + NamesBetween(notes, i, ListText(notes, i, acc, rd).value.1, rd)
    decreases |notes| - i
  {
    if !rd.ends(notes[i]) {
      var acc' := Extend(acc, notes[i], rd);
      var r := ListText(notes, i + 1, acc', rd);
      assert ListText(notes, i, acc, rd) == r;
      ListTextNames(notes, i + 1, acc', rd);
      ExtendNames(acc, notes[i], rd);
      NamesBetweenFront(notes, i, r.value.1, rd);
      AppendAssoc(rd.list(acc), NodeNames(notes[i], rd), NamesBetween(notes, i + 1, r.value.1, rd));
    }
  }

  /**
   * As written, the list holds the first node's names once more in front
   * of the list read once; it closes at the same node and raises exactly
   * when that does.
   */
  lemma NameListAsWrittenRepeats(notes: seq<Node>, pos: nat, rd: Readers)
    requires Lawful(rd)
    ensures NameListAsWritten(notes, pos, rd).Raised? <==> NameList(notes, pos, rd).Raised?
    ensures NameListAsWritten(notes, pos, rd).Ok? ==>
      NameListAsWritten(notes, pos, rd).value.1 == NameList(notes, pos, rd).value.1 &&
      NameListAsWritten(notes, pos, rd).value.0 == NodeNames(notes[pos], rd) + NameList(notes, pos, rd).value.0
  {
    if pos < |notes| {
      var acc := rd.clean(Text(notes[pos]));
      ListTextEnd(notes, pos, acc, rd);
      if ListText(notes, pos, acc, rd).Ok? {
        ListTextNames(notes, pos, acc, rd);
      }
    }
  }

  /** A first node that does not close the list and holds names has them listed twice. */
  lemma NameListAsWrittenTwice(notes: seq<Node>, pos: nat, rd: Readers)
    requires Lawful(rd)
    requires pos < |notes| && !rd.ends(notes[pos]) && NameList(notes, pos, rd).Ok?
    ensures NameListAsWritten(notes, pos, rd).Ok?
    ensures NameListAsWritten(notes, pos, rd).value.0 ==
      NodeNames(notes[pos], rd) + NodeNames(notes[pos], rd) + NamesBetween(notes, pos + 1, NameList(notes, pos, rd).value.1, rd)
    ensures NodeNames(notes[pos], rd) != [] ==> NameListAsWritten(notes, pos, rd) != NameList(notes, pos, rd)
  {
    NameListAsWrittenRepeats(notes, pos, rd);
    var e := ListEnd(notes, pos, rd).value;
    NamesBetweenFront(notes, pos, e, rd);
    var first := NodeNames(notes[pos], rd);
    var rest := NamesBetween(notes, pos + 1, e, rd);
    assert NameList(notes, pos, rd).value.0 == first + rest;
    assert first + (first + rest) == first + first + rest;
  }

  // ---------------------------------------------------------------------
  // The abstentions, read backwards from the node before the next vote

  /** The nearest node strictly before `last` that closes a list. */
  function EndBefore(notes: seq<Node>, last: nat, rd: Readers): (r: Option<nat>)
    requires last <= |notes|
    ensures r.Some? ==> r.value < last && rd.ends(notes[r.value])
    ensures r.Some? ==> forall j :: r.value < j < last ==> !rd.ends(notes[j])
    ensures r.None? ==> forall j :: 0 <= j < last ==> !rd.ends(notes[j])
    decreases last
  {
    if last == 0 then None
    else if rd.ends(notes[last - 1]) then Some(last - 1)
    else EndBefore(notes, last - 1, rd)
  }

  /**
   * The abstention list ending at node `last`: the names of `last` and of
   * the nodes before it back to the closing node, which is not read.
   * Running off the front of the notes raises AttributeError.
   */
  function Abstentions(notes: seq<Node>, last: nat, rd: Readers): Outcome<seq<string>>
    requires last < |notes|
  {
    match EndBefore(notes, last, rd)
    case None => Raised("AttributeError")
    case Some(s) => Ok(NamesBetween(notes, s + 1, last + 1, rd))
  }

  /** One backward step: `clean(text) + ','` in front for a node with text, nothing otherwise. */
  function ExtendFront(n: Node, acc: string, rd: Readers): string {
    if Text(n) != [] then Comma(rd.clean(Text(n)), acc) else acc
  }

  /** A backward step prepends the node's names. */
  lemma ExtendFrontNames(n: Node, acc: string, rd: Readers)
    requires Lawful(rd)
    ensures rd.list(ExtendFront(n, acc, rd)) == NodeNames(n, rd) + rd.list(acc)
  {
    if Text(n) != [] {
      assert rd.list(Comma(rd.clean(Text(n)), acc)) == rd.list(rd.clean(Text(n))) + rd.list(acc);
    } else {
      assert NodeNames(n, rd) == [];
    }
  }

  /** A backward step of the loop keeps its invariant. */
  lemma AbstentionStep(notes: seq<Node>, cur: nat, last: nat, text: string, rd: Readers)
    requires cur < last < |notes| && Lawful(rd) && !rd.ends(notes[cur])
    requires rd.list(text) == NamesBetween(notes, cur + 1, last + 1, rd)
    ensures rd.list(ExtendFront(notes[cur], text, rd)) == NamesBetween(notes, cur, last + 1, rd)
    ensures EndBefore(notes, cur, rd) == EndBefore(notes, cur + 1, rd)
  {
    ExtendFrontNames(notes[cur], text, rd);
    NamesBetweenFront(notes, cur, last + 1, rd);
  }

  /** Where the loop stops decides the outcome. */
  lemma AbstentionsStop(notes: seq<Node>, cur: int, last: nat, rd: Readers)
    requires -1 <= cur < last < |notes| && EndBefore(notes, cur + 1, rd) == EndBefore(notes, last, rd)
    requires cur >= 0 ==> rd.ends(notes[cur])
    ensures cur < 0 ==> Abstentions(notes, last, rd) == Raised("AttributeError")
    ensures cur >= 0 ==> Abstentions(notes, last, rd) == Ok(NamesBetween(notes, cur + 1, last + 1, rd))
  {
  }

  /**
   * The abstention loop of `get_name_and_electronic_votes`: the text
   * starts as the cleaned text of `last` and grows at the front until a
   * closing node.
   */
  method ReadAbstentions(notes: seq<Node>, last: nat, rd: Readers) returns (r: Outcome<seq<string>>)
    requires last < |notes| && Lawful(rd)
    ensures r == Abstentions(notes, last, rd)
  {
    var text := rd.clean(Text(notes[last]));
    var cur: int := last - 1;
    assert NamesBetween(notes, last, last + 1, rd) == NodeNames(notes[last], rd);
    while cur >= 0 && !rd.ends(notes[cur])
      invariant -1 <= cur < last && EndBefore(notes, cur + 1, rd) == EndBefore(notes, last, rd)
      invariant rd.list(text) == NamesBetween(notes, cur + 1, last + 1, rd)
      decreases cur
    {
      AbstentionStep(notes, cur, last, text, rd);
      text := ExtendFront(notes[cur], text, rd);
      cur := cur - 1;
    }
    AbstentionsStop(notes, cur, last, rd);
    if cur < 0 {
      r := Raised("AttributeError");
    } else {
      r := Ok(rd.list(text));
    }
  }

  /** The index of the last paragraph of the notes (`find_all('p')[-1]`). */
  function LastParagraph(notes: seq<Node>): (r: Option<nat>)
    ensures r.Some? ==> r.value < |notes| && notes[r.value].P?
    ensures r.Some? ==> forall j :: r.value < j < |notes| ==> !notes[j].P?
    ensures r.None? ==> forall j :: 0 <= j < |notes| ==> !notes[j].P?
  {
    LastParagraphIn(notes, |notes|)
  }

  function LastParagraphIn(notes: seq<Node>, n: nat): (r: Option<nat>)
    requires n <= |notes|
    ensures r.Some? ==> r.value < n && notes[r.value].P?
    ensures r.Some? ==> forall j :: r.value < j < n ==> !notes[j].P?
    ensures r.None? ==> forall j :: 0 <= j < n ==> !notes[j].P?
  {
    if n == 0 then None
    else if notes[n - 1].P? then Some(n - 1)
    else LastParagraphIn(notes, n - 1)
  }

  /**
   * Where the abstentions of marker `i` end: the node before the next
   * marker in `tags` (AttributeError when that marker opens the notes), or
   * for the last marker the last paragraph (IndexError when there is none).
   */
  function AbstentionEnd(notes: seq<Node>, tags: seq<nat>, i: nat): (r: Outcome<nat>)
    requires i < |tags| && forall k :: 0 <= k < |tags| ==> tags[k] < |notes|
    ensures r.Ok? ==> r.value < |notes|
    ensures i + 1 < |tags| ==> (r.Ok? <==> tags[i + 1] > 0) && (r.Ok? ==> r.value + 1 == tags[i + 1])
    ensures i + 1 == |tags| ==> (r.Ok? <==> exists j :: 0 <= j < |notes| && notes[j].P?)
    ensures i + 1 == |tags| && r.Ok? ==> notes[r.value].P? && forall j :: r.value < j < |notes| ==> !notes[j].P?
  {
    if i + 1 < |tags| then
      if tags[i + 1] == 0 then Raised("AttributeError") else Ok(tags[i + 1] - 1)
    else
      match LastParagraph(notes)
      case None => Raised("IndexError")
      case Some(p) => Ok(p)
  }

  // ---------------------------------------------------------------------
  // Collecting the name votes and the electronic votes

  /** The three name lists of one name vote. */
  datatype NameLists = NameLists(yes: seq<string>, no: seq<string>, abstention: seq<string>)

  /** The marker in `tags[i]` and the node after it exist. */
  predicate Markers(notes: seq<Node>, tags: seq<nat>) {
    forall k :: 0 <= k < |tags| ==> tags[k] < |notes|
  }

  /**
   * The abstentions after the no list that closes at node `close`: none
   * unless that node announces them, else the list that ends where
   * `AbstentionEnd` says.
   */
  function AbstentionsAfter(notes: seq<Node>, tags: seq<nat>, i: nat, close: nat, rd: Readers): Outcome<seq<string>>
    requires i < |tags| && Markers(notes, tags) && close < |notes|
  {
    if !rd.abstains(notes[close]) then Ok([])
    else
      match AbstentionEnd(notes, tags, i)
      case Raised(e) => Raised(e)
      case Ok(last) => Abstentions(notes, last, rd)
  }

  /**
   * The three lists of marker `i` whose cancellation scan stopped at the
   * table `table`: the yes list starts after that table, the no list after
   * the yes list's closing node, then the abstentions.
   */
  function ListsAfter(notes: seq<Node>, tags: seq<nat>, i: nat, table: nat, rd: Readers): Outcome<NameLists>
    requires i < |tags| && Markers(notes, tags)
  {
    match NameList(notes, table + 1, rd)
    case Raised(e) => Raised(e)
    case Ok((yes, e1)) =>
      match NameList(notes, e1 + 1, rd)
      case Raised(e) => Raised(e)
      case Ok((no, e2)) =>
        match AbstentionsAfter(notes, tags, i, e2, rd)
        case Raised(e) => Raised(e)
        case Ok(abstention) => Ok(NameLists(yes, no, abstention))
  }

  /**
   * One pass of the name-vote loop for marker `i`: `None` for a cancelled
   * vote; AttributeError when the scan ran off the notes; else the vote
   * number and the lists.
   */
  function NameVoteAt(notes: seq<Node>, tags: seq<nat>, i: nat, rd: Readers)
    : Outcome<Option<(int, NameLists)>>
    requires i < |tags| && Markers(notes, tags)
  {
    var (cancelled, current) := CancelScan(notes, tags[i], rd);
    if cancelled then Ok(None)
    else if current.None? then Raised("AttributeError")
    else
      match ListsAfter(notes, tags, i, current.value, rd)
      case Raised(e) => Raised(e)
      case Ok(lists) => Ok(Some((VoteNumberOf(rd.clean, Text(notes[tags[i]]), i), lists)))
  }

  /**
   * A dictionary filled from `steps` in order: a step `Some((key, value))`
   * sets `key`, overwriting an earlier value; `None` leaves it alone.
   */
  function Overwrite<V>(steps: seq<Option<(int, V)>>): map<int, V>
    decreases |steps|
  {
    if steps == [] then map[]
    else
      var m := Overwrite(steps[..|steps| - 1]);
      match steps[|steps| - 1]
      case None => m
      case Some((key, value)) => m[key := value]
  }

  /** A key's entry: the step that set it last. */
  predicate SetsKey<V>(step: Option<(int, V)>, key: int) {
    step.Some? && step.value.0 == key
  }

  /** Step `j` sets `key` to `value` and no later step sets `key`. */
  predicate SetLast<V(==)>(steps: seq<Option<(int, V)>>, j: int, key: int, value: V) {
    0 <= j < |steps| && steps[j] == Some((key, value)) &&
    forall j' :: j < j' < |steps| ==> !SetsKey(steps[j'], key)
  }

  /** The step that set a key of the dictionary last, with the key's very value. */
  lemma {:induction false} OverwriteLast<V>(steps: seq<Option<(int, V)>>, key: int) returns (j: int)
    requires key in Overwrite(steps)
    ensures SetLast(steps, j, key, Overwrite(steps)[key])
    decreases |steps|
  {
    var init := steps[..|steps| - 1];
    if SetsKey(steps[|steps| - 1], key) {
      j := |steps| - 1;
    } else {
      assert key in Overwrite(init) && Overwrite(init)[key] == Overwrite(steps)[key];
      j := OverwriteLast(init, key);
      assert forall j' :: 0 <= j' < |init| ==> steps[j'] == init[j'];
    }
  }

  /**
   * Every key of the dictionary was set by some step with that very value,
   * and by no later step; every key some step sets has an entry.
   */
  lemma {:induction false} OverwriteLastWins<V>(steps: seq<Option<(int, V)>>)
    ensures var m := Overwrite(steps);
      forall key :: key in m ==> exists j :: SetLast(steps, j, key, m[key])
    ensures forall j :: 0 <= j < |steps| && steps[j].Some? ==> steps[j].value.0 in Overwrite(steps)
    decreases |steps|
  {
    forall key | key in Overwrite(steps) ensures exists j :: SetLast(steps, j, key, Overwrite(steps)[key]) {
      var j := OverwriteLast(steps, key);
    }
    if steps != [] {
      var init := steps[..|steps| - 1];
      OverwriteLastWins(init);
      forall j | 0 <= j < |steps| && steps[j].Some? ensures steps[j].value.0 in Overwrite(steps) {
        if j < |init| {
          assert steps[j] == init[j];
        }
      }
    }
  }

  /** Steps that may raise: the first raise ends the fill, else the dictionary of their values. */
  function OverwriteAll<V>(steps: seq<Outcome<Option<(int, V)>>>): Outcome<map<int, V>>
    decreases |steps|
  {
    if steps == [] then Ok(map[])
    else
      match OverwriteAll(steps[..|steps| - 1])
      case Raised(e) => Raised(e)
      case Ok(m) =>
        match steps[|steps| - 1]
        case Raised(e) => Raised(e)
        case Ok(None) => Ok(m)
        case Ok(Some((key, value))) => Ok(m[key := value])
  }

  /** Step `j` raises `e` and no step before it raises. */
  predicate FirstRaise<V>(steps: seq<Outcome<V>>, j: int, e: string) {
    0 <= j < |steps| && steps[j].Raised? && steps[j].error == e && forall j' :: 0 <= j' < j ==> steps[j'].Ok?
  }

  /** The values of steps none of which raised. */
  function Values<V>(steps: seq<Outcome<Option<(int, V)>>>): (r: seq<Option<(int, V)>>)
    requires forall j :: 0 <= j < |steps| ==> steps[j].Ok?
    ensures |r| == |steps| && forall j :: 0 <= j < |steps| ==> r[j] == steps[j].value
  {
    seq(|steps|, j requires 0 <= j < |steps| => steps[j].value)
  }

  /** The fill raises exactly when some step raises, and then with the first step's error; otherwise it is `Overwrite` of the values. */
  lemma {:induction false} OverwriteAllOk<V>(steps: seq<Outcome<Option<(int, V)>>>)
    ensures OverwriteAll(steps).Ok? <==> forall j :: 0 <= j < |steps| ==> steps[j].Ok?
    ensures OverwriteAll(steps).Ok? ==> OverwriteAll(steps).value == Overwrite(Values(steps))
    ensures OverwriteAll(steps).Raised? ==> exists j :: FirstRaise(steps, j, OverwriteAll(steps).error)
    decreases |steps|
  {
    if steps != [] {
      var init := steps[..|steps| - 1];
      OverwriteAllOk(init);
      assert forall j :: 0 <= j < |init| ==> init[j] == steps[j];
      if forall j :: 0 <= j < |steps| ==> steps[j].Ok? {
        assert Values(steps)[..|steps| - 1] == Values(init);
      }
      if OverwriteAll(init).Raised? {
        var j :| FirstRaise(init, j, OverwriteAll(init).error);
        assert FirstRaise(steps, j, OverwriteAll(init).error);
      } else if OverwriteAll(steps).Raised? {
        assert FirstRaise(steps, |steps| - 1, OverwriteAll(steps).error);
      }
    }
  }

  /** The pass results of the first `k` name-vote markers. */
  function NameSteps(notes: seq<Node>, tags: seq<nat>, k: nat, rd: Readers)
    : (r: seq<Outcome<Option<(int, NameLists)>>>)
    requires k <= |tags| && Markers(notes, tags)
    ensures |r| == k && forall j :: 0 <= j < k ==> r[j] == NameVoteAt(notes, tags, j, rd)
  {
    seq(k, j requires 0 <= j < k => NameVoteAt(notes, tags, j, rd))
  }

  /** The dictionary `name_votes` after the first `k` markers: a later vote with the same number overwrites. */
  function NameVotesUpTo(notes: seq<Node>, tags: seq<nat>, k: nat, rd: Readers)
    : Outcome<map<int, NameLists>>
    requires k <= |tags| && Markers(notes, tags)
  {
    OverwriteAll(NameSteps(notes, tags, k, rd))
  }

  /** The cancellation scan of the electronic marker `i` and what it keeps: the node where the scan stopped. */
  function ElectronicAt(notes: seq<Node>, tags: seq<nat>, i: nat, rd: Readers): Option<(int, Option<nat>)>
    requires i < |tags| && Markers(notes, tags)
  {
    var (cancelled, current) := CancelScan(notes, tags[i], rd);
    if cancelled then None else Some((VoteNumberOf(rd.clean, Text(notes[tags[i]]), i), current))
  }

  /** The scan results of the first `k` electronic markers. */
  function ElectronicSteps(notes: seq<Node>, tags: seq<nat>, k: nat, rd: Readers): (r: seq<Option<(int, Option<nat>)>>)
    requires k <= |tags| && Markers(notes, tags)
    ensures |r| == k && forall j :: 0 <= j < k ==> r[j] == ElectronicAt(notes, tags, j, rd)
  {
    seq(k, j requires 0 <= j < k => ElectronicAt(notes, tags, j, rd))
  }

  /** The dictionary `electronic_votes` after the first `k` electronic markers. */
  function ElectronicUpTo(notes: seq<Node>, tags: seq<nat>, k: nat, rd: Readers): map<int, Option<nat>>
    requires k <= |tags| && Markers(notes, tags)
  {
    Overwrite(ElectronicSteps(notes, tags, k, rd))
  }

  /** The first `i` steps of `NameSteps` do not depend on how many follow. */
  lemma NameStepsPrefix(notes: seq<Node>, tags: seq<nat>, i: nat, rd: Readers)
    requires i < |tags| && Markers(notes, tags)
    ensures NameSteps(notes, tags, i + 1, rd)[..i] == NameSteps(notes, tags, i, rd)
    ensures NameSteps(notes, tags, i + 1, rd)[i] == NameVoteAt(notes, tags, i, rd)
  {
  }

  /** The same for the electronic markers. */
  lemma ElectronicStepsPrefix(notes: seq<Node>, tags: seq<nat>, i: nat, rd: Readers)
    requires i < |tags| && Markers(notes, tags)
    ensures ElectronicSteps(notes, tags, i + 1, rd)[..i] == ElectronicSteps(notes, tags, i, rd)
    ensures ElectronicSteps(notes, tags, i + 1, rd)[i] == ElectronicAt(notes, tags, i, rd)
  {
  }

  /** The abstention branch of the name-vote loop. */
  method ReadAbstentionsAfter(notes: seq<Node>, tags: seq<nat>, i: nat, close: nat, rd: Readers)
    returns (r: Outcome<seq<string>>)
    requires i < |tags| && Markers(notes, tags) && close < |notes| && Lawful(rd)
    ensures r == AbstentionsAfter(notes, tags, i, close, rd)
  {
    if !rd.abstains(notes[close]) {
      return Ok([]);
    }
    var last := AbstentionEnd(notes, tags, i);
    if last.Raised? {
      return Raised(last.error);
    }
    r := ReadAbstentions(notes, last.value, rd);
  }

  /** The yes, no and abstention lists under a name-vote table. */
  method ReadLists(notes: seq<Node>, tags: seq<nat>, i: nat, table: nat, rd: Readers) returns (r: Outcome<NameLists>)
    requires i < |tags| && Markers(notes, tags) && Lawful(rd)
    ensures r == ListsAfter(notes, tags, i, table, rd)
  {
    var yes := ReadNameList(notes, table + 1, rd);
    if yes.Raised? {
      return Raised(yes.error);
    }
    var no := ReadNameList(notes, yes.value.1 + 1, rd);
    if no.Raised? {
      return Raised(no.error);
    }
    var abstention := ReadAbstentionsAfter(notes, tags, i, no.value.1, rd);
    if abstention.Raised? {
      return Raised(abstention.error);
    }
    r := Ok(NameLists(yes.value.0, no.value.0, abstention.value));
  }

  /** The body of the name-vote loop of `get_name_and_electronic_votes` for marker `i`. */
  method NameVoteStep(notes: seq<Node>, tags: seq<nat>, i: nat, rd: Readers)
    returns (step: Outcome<Option<(int, NameLists)>>)
    requires i < |tags| && Markers(notes, tags) && Lawful(rd)
    ensures step == NameVoteAt(notes, tags, i, rd)
  {
    var number := VoteNumberOf(rd.clean, Text(notes[tags[i]]), i);
    var cancelled, current := IsVoteCancelled(notes, tags[i], rd);
    if cancelled {
      return Ok(None);
    }
    if current.None? {
      return Raised("AttributeError");
    }
    var lists := ReadLists(notes, tags, i, current.value, rd);
    if lists.Raised? {
      return Raised(lists.error);
    }
    step := Ok(Some((number, lists.value)));
  }

  /** Once a step has raised, the fill stays raised with the same error. */
  lemma {:induction false} OverwriteAllRaisedStays<V>(steps: seq<Outcome<Option<(int, V)>>>, k: nat)
    requires k <= |steps| && OverwriteAll(steps[..k]).Raised?
    ensures OverwriteAll(steps) == OverwriteAll(steps[..k])
    decreases |steps| - k
  {
    if k < |steps| {
      assert steps[..k + 1][..k] == steps[..k];
      if k + 1 < |steps| {
        assert steps[..k + 1] == steps[..k + 1];
      }
      OverwriteAllRaisedStays(steps, k + 1);
    } else {
      assert steps[..k] == steps;
    }
  }

  /** Once a pass has raised, the dictionary stays raised with the same error. */
  lemma NameVotesRaisedStays(notes: seq<Node>, tags: seq<nat>, i: nat, rd: Readers)
    requires i <= |tags| && Markers(notes, tags) && NameVotesUpTo(notes, tags, i, rd).Raised?
    ensures NameVotesUpTo(notes, tags, |tags|, rd) == NameVotesUpTo(notes, tags, i, rd)
  {
    var all := NameSteps(notes, tags, |tags|, rd);
    assert all[..i] == NameSteps(notes, tags, i, rd);
    OverwriteAllRaisedStays(all, i);
  }

  /** One more pass: its raise, nothing for a cancelled vote, or its entry. */
  lemma NameVotesNext(notes: seq<Node>, tags: seq<nat>, i: nat, m: map<int, NameLists>, step: Outcome<Option<(int, NameLists)>>, rd: Readers)
    requires i < |tags| && Markers(notes, tags) && NameVotesUpTo(notes, tags, i, rd) == Ok(m)
    requires step == NameVoteAt(notes, tags, i, rd)
    ensures step.Raised? ==> NameVotesUpTo(notes, tags, i + 1, rd) == Raised(step.error)
    ensures step == Ok(None) ==> NameVotesUpTo(notes, tags, i + 1, rd) == Ok(m)
    ensures step.Ok? && step.value.Some? ==>
      NameVotesUpTo(notes, tags, i + 1, rd) == Ok(m[step.value.value.0 := step.value.value.1])
  {
    NameStepsPrefix(notes, tags, i, rd);
  }

  /** The name-vote loop: the first raise ends it, otherwise each pass sets its vote number. */
  method CollectNameVotes(notes: seq<Node>, tags: seq<nat>, rd: Readers) returns (r: Outcome<map<int, NameLists>>)
    requires Markers(notes, tags) && Lawful(rd)
    ensures r == NameVotesUpTo(notes, tags, |tags|, rd)
  {
    var votes: map<int, NameLists> := map[];
    var i := 0;
    while i < |tags|
      invariant i <= |tags| && NameVotesUpTo(notes, tags, i, rd) == Ok(votes)
    {
      var step := NameVoteStep(notes, tags, i, rd);
      NameVotesNext(notes, tags, i, votes, step, rd);
      if step.Raised? {
        NameVotesRaisedStays(notes, tags, i + 1, rd);
        return Raised(step.error);
      }
      if step.value.Some? {
        votes := votes[step.value.value.0 := step.value.value.1];
      }
      i := i + 1;
    }
    r := Ok(votes);
  }

  /** The electronic-vote loop: every uncancelled marker sets its vote number to where its scan stopped. */
  method CollectElectronicVotes(notes: seq<Node>, tags: seq<nat>, rd: Readers) returns (votes: map<int, Option<nat>>)
    requires Markers(notes, tags)
    ensures votes == ElectronicUpTo(notes, tags, |tags|, rd)
  {
    votes := map[];
    var i := 0;
    while i < |tags|
      invariant i <= |tags| && ElectronicUpTo(notes, tags, i, rd) == votes
    {
      var cancelled, current := IsVoteCancelled(notes, tags[i], rd);
      ElectronicStepsPrefix(notes, tags, i, rd);
      if !cancelled {
        votes := votes[VoteNumberOf(rd.clean, Text(notes[tags[i]]), i) := current];
      }
      i := i + 1;
    }
  }

  /**
   * `get_name_and_electronic_votes`: without a `Section3` division both
   * dictionaries are empty; otherwise the name votes of the name markers
   * and the electronic votes of the electronic markers.
   */
  function NameAndElectronicVotes(notes: seq<Node>, hasSection3: bool, rd: Readers)
    : Outcome<(map<int, NameLists>, map<int, Option<nat>>)>
  {
    if !hasSection3 then Ok((map[], map[]))
    else
      var names := NameMarkers(notes);
      var electronic := Marked(notes, ElectronicMarker);
      match NameVotesUpTo(notes, names, |names|, rd)
      case Raised(e) => Raised(e)
      case Ok(nv) => Ok((nv, ElectronicUpTo(notes, electronic, |electronic|, rd)))
  }

  method GetNameAndElectronicVotes(notes: seq<Node>, hasSection3: bool, rd: Readers)
    returns (r: Outcome<(map<int, NameLists>, map<int, Option<nat>>)>)
    requires Lawful(rd)
    ensures r == NameAndElectronicVotes(notes, hasSection3, rd)
  {
    if !hasSection3 {
      return Ok((map[], map[]));
    }
    var names := NameMarkers(notes);
    var nv := CollectNameVotes(notes, names, rd);
    if nv.Raised? {
      return Raised(nv.error);
    }
    var electronic := Marked(notes, ElectronicMarker);
    var ev := CollectElectronicVotes(notes, electronic, rd);
    r := Ok((nv.value, ev));
  }
}
