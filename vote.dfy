/**
 * The four kinds of vote, their pass rules, the parsers that read a vote
 * from its result table, and the reconciliation of a name vote's counts
 * with the lists of names printed under it.
 */
module Vote {
  import opened Base
  import opened Strings
  import opened Util
  import opened Common
  import opened Dom
  import opened Activity

  // ---------------------------------------------------------------------
  // Tallies and pass rules

  /** The three counts of a vote with names. */
  datatype Tally = Tally(yes: int, no: int, abstention: int)

  /** `GenericVote.has_passed`: a strict majority over no and abstention together. */
  predicate GenericPassed(t: Tally) {
    t.yes > t.no + t.abstention
  }

  /** The totals of a language-group vote: the sums of its two halves. */
  function Sum(a: Tally, b: Tally): (r: Tally)
    ensures r.yes - a.yes == b.yes && r.no - a.no == b.no && r.abstention - a.abstention == b.abstention
  {
    Tally(a.yes + b.yes, a.no + b.no, a.abstention + b.abstention)
  }

  /** `LanguageGroupVote.has_passed`: a majority in the Dutch and in the French group. */
  predicate GroupPassed(nl: Tally, fr: Tally) {
    GenericPassed(nl) && GenericPassed(fr)
  }

  /** The anonymous electronic votes. */
  datatype ElectronicVote =
    | ElectronicGeneric(number: int, yes: int, no: int)
    | ElectronicAdvisory(number: int, yes: int)

  /**
   * `ElectronicGenericVote.has_passed`: more yes than no, with more than 75
   * votes cast; `ElectronicAdvisoryVote.has_passed`: more than 50 yes.
   */
  predicate ElectronicPassed(e: ElectronicVote) {
    match e
    case ElectronicGeneric(_, yes, no) => yes > no && yes + no > 75
    case ElectronicAdvisory(_, yes) => yes > 50
  }

  /** Passing in both language groups implies passing on the totals. */
  lemma GroupPassedImpliesTotalPassed(nl: Tally, fr: Tally)
    requires GroupPassed(nl, fr)
    ensures GenericPassed(Sum(nl, fr))
  {
  }

  /** The converse fails: a large majority in one group can carry the totals alone. */
  lemma TotalPassedDoesNotImplyGroupPassed()
    ensures GenericPassed(Sum(Tally(60, 0, 0), Tally(10, 20, 0)))
    ensures !GroupPassed(Tally(60, 0, 0), Tally(10, 20, 0))
  {
  }

  /** More yes votes never turn a passing generic vote into a failing one. */
  lemma GenericPassedMonotone(t: Tally, extraYes: nat, fewerAgainst: nat)
    requires GenericPassed(t)
    ensures GenericPassed(Tally(t.yes + extraYes, t.no - fewerAgainst, t.abstention))
  {
  }

  /** An electronic generic vote cannot pass with fewer than 39 yes votes. */
  lemma ElectronicGenericQuorum(e: ElectronicVote)
    requires e.ElectronicGeneric? && ElectronicPassed(e)
    ensures e.yes >= 39
  {
  }

  // ---------------------------------------------------------------------
  // Reading a vote from its table

  /**
   * `clean_string(rows[r].find_all('td')[c].find('p').get_text())`;
   * a missing row or cell raises IndexError.
   */
  function Cell(rows: seq<Row>, r: nat, c: nat): (o: Outcome<string>)
    ensures o.Ok? <==> r < |rows| && c < |rows[r].cells|
    ensures o.Ok? ==> o.value == CleanString(rows[r].cells[c])
  {
    if r < |rows| && c < |rows[r].cells| then Ok(CleanString(rows[r].cells[c]))
    else Raised("IndexError")
  }

  /** `int(s)` on ASCII text, which raises ValueError on text that is not a decimal integer. */
  function Count(s: string): (o: Outcome<int>)
    ensures o.Ok? <==> ParseInt(s).Some?
    ensures o.Ok? ==> ParseInt(s) == Some(o.value)
  {
    match ParseInt(s)
    case Some(v) => Ok(v)
    case None => Raised("ValueError")
  }

  /** The count in cell `c` of row `r`. */
  function CountAt(rows: seq<Row>, r: nat, c: nat): Outcome<int> {
    match Cell(rows, r, c)
    case Raised(e) => Raised(e)
    case Ok(s) => Count(s)
  }

  /**
   * `GenericVote.from_table`: yes, no and abstention from cell 1 of rows
   * 1, 2 and 3. An empty yes cell means an empty table and gives no vote.
   */
  function GenericFromTable(rows: seq<Row>): (r: Parse<Tally>)
    ensures r.Declined? <==> Cell(rows, 1, 1) == Ok("")
    ensures r.Parsed? <==>
      Cell(rows, 1, 1) != Ok("") && CountAt(rows, 1, 1).Ok? && CountAt(rows, 2, 1).Ok? && CountAt(rows, 3, 1).Ok?
    ensures r.Parsed? ==>
      |rows| >= 4 && CountAt(rows, 1, 1) == Ok(r.value.yes) &&
      CountAt(rows, 2, 1) == Ok(r.value.no) && CountAt(rows, 3, 1) == Ok(r.value.abstention)
  {
    match Cell(rows, 1, 1)
    case Raised(e) => Fault(e)
    case Ok(yesText) =>
      if yesText == [] then Declined
      else
        match (Count(yesText), CountAt(rows, 2, 1), CountAt(rows, 3, 1))
        case (Ok(yes), Ok(no), Ok(abstention)) => Parsed(Tally(yes, no, abstention))
        case (Raised(e), _, _) => Fault(e)
        case (_, Raised(e), _) => Fault(e)
        case (_, _, Raised(e)) => Fault(e)
  }

  /** The three count texts of one column of a vote table. */
  datatype TallyText = TallyText(yes: string, no: string, abstention: string)

  /** Whether any of the three texts is empty or banned. */
  predicate AnyBannedOrEmpty(t: TallyText) {
    IsStringBannedOrEmpty(t.yes) || IsStringBannedOrEmpty(t.no) || IsStringBannedOrEmpty(t.abstention)
  }

  /** `int()` of the three texts; the first that is not a number raises ValueError. */
  function ReadTally(t: TallyText): (r: Outcome<Tally>)
    ensures r.Ok? <==> Count(t.yes).Ok? && Count(t.no).Ok? && Count(t.abstention).Ok?
    ensures r.Ok? ==>
      Count(t.yes) == Ok(r.value.yes) && Count(t.no) == Ok(r.value.no) &&
      Count(t.abstention) == Ok(r.value.abstention)
  {
    match (Count(t.yes), Count(t.no), Count(t.abstention))
    case (Ok(y), Ok(n), Ok(a)) => Ok(Tally(y, n, a))
    case _ => Raised("ValueError")
  }

  /** The six count cells of a language-group table exist. */
  predicate GroupCellsPresent(rows: seq<Row>) {
    |rows| >= 5 && forall r :: 2 <= r <= 4 ==> |rows[r].cells| >= 4
  }

  /** The cleaned texts of rows 2, 3 and 4 in column `c`. */
  function ColumnTexts(rows: seq<Row>, c: nat): TallyText
    requires GroupCellsPresent(rows) && c < 4
  {
    TallyText(CleanString(rows[2].cells[c]), CleanString(rows[3].cells[c]), CleanString(rows[4].cells[c]))
  }

  /**
   * `LanguageGroupVote.from_table`: rows 2, 3 and 4 hold yes, no and
   * abstention, the French count in cell 1 and the Dutch count in cell 3.
   * All six cells are read before any is checked; an empty or banned one
   * gives no vote. The result is the pair (Dutch, French).
   */
  function GroupFromTable(rows: seq<Row>): (r: Parse<(Tally, Tally)>)
    ensures r.Declined? <==>
      GroupCellsPresent(rows) &&
      (AnyBannedOrEmpty(ColumnTexts(rows, 1)) || AnyBannedOrEmpty(ColumnTexts(rows, 3)))
    ensures r.Parsed? <==>
      GroupCellsPresent(rows) &&
      !AnyBannedOrEmpty(ColumnTexts(rows, 1)) && !AnyBannedOrEmpty(ColumnTexts(rows, 3)) &&
      ReadTally(ColumnTexts(rows, 1)).Ok? && ReadTally(ColumnTexts(rows, 3)).Ok?
    ensures r.Parsed? ==>
      GroupCellsPresent(rows) &&
      ReadTally(ColumnTexts(rows, 3)) == Ok(r.value.0) && ReadTally(ColumnTexts(rows, 1)) == Ok(r.value.1)
    ensures r.Fault? ==> r.reason == if GroupCellsPresent(rows) then "ValueError" else "IndexError"
  {
    if !GroupCellsPresent(rows) then Fault("IndexError")
    else
      var fr := ColumnTexts(rows, 1);
      var nl := ColumnTexts(rows, 3);
      if AnyBannedOrEmpty(fr) || AnyBannedOrEmpty(nl) then Declined
      else
        match (ReadTally(fr), ReadTally(nl))
        case (Ok(f), Ok(n)) => Parsed((n, f))
        case _ => Fault("ValueError")
  }

  // ---------------------------------------------------------------------
  // Printed tables are read back

  /** Text of one or more ASCII digits. */
  predicate Numeral(d: string) {
    d != [] && AllDigits(d)
  }

  /** A column of three printed counts. */
  predicate PrintedOk(p: TallyText) {
    Numeral(p.yes) && Numeral(p.no) && Numeral(p.abstention)
  }

  /** The tally a printed column stands for. */
  function ReadBack(p: TallyText): Tally
    requires PrintedOk(p)
  {
    Tally(DigitsValue(p.yes), DigitsValue(p.no), DigitsValue(p.abstention))
  }

  /** A generic vote table as the meeting notes print it. */
  function GenericTable(p: TallyText): seq<Row> {
    [Row(false, "", []),
     Row(false, "", ["Oui", p.yes, "Ja"]),
     Row(false, "", ["Non", p.no, "Nee"]),
     Row(false, "", ["Abstentions", p.abstention, "Onthoudingen"]),
     Row(false, "", ["Totaal", "", "Totaal"])]
  }

  /** A language-group table: French counts in column 1, Dutch counts in column 3. */
  function GroupTable(nl: TallyText, fr: TallyText): seq<Row> {
    [Row(false, "", []),
     Row(false, "", ["", "FR", "", "NL"]),
     Row(false, "", ["Oui", fr.yes, "Ja", nl.yes]),
     Row(false, "", ["Non", fr.no, "Nee", nl.no]),
     Row(false, "", ["Abst.", fr.abstention, "Onth.", nl.abstention]),
     Row(false, "Total", ["Total", "", "Totaal", ""])]
  }

  /** A numeral survives cleaning. */
  lemma NumeralClean(d: string)
    requires Numeral(d)
    ensures CleanString(d) == d
  {
    assert forall x :: x in d ==> IsDigit(x);
    CleanStringPlainWord(d);
  }

  /** `int()` reads a numeral as its value. */
  lemma NumeralCount(d: string)
    requires Numeral(d)
    ensures Count(d) == Ok(DigitsValue(d))
  {
    StripNoSpace(d);
  }

  /** A numeral is never a banned fragment: every banned fragment ends with a non-digit. */
  lemma NumeralNotBanned(d: string)
    requires Numeral(d)
    ensures !IsStringBannedOrEmpty(d)
  {
    BannedEndNonDigit();
    assert IsDigit(d[|d| - 1]);
  }

  /** A cell holding a numeral is read as its value. */
  lemma CellNumeral(rows: seq<Row>, r: nat, c: nat, d: string)
    requires r < |rows| && c < |rows[r].cells| && rows[r].cells[c] == d && Numeral(d)
    ensures Cell(rows, r, c) == Ok(d)
    ensures CountAt(rows, r, c) == Ok(DigitsValue(d))
  {
    NumeralClean(d);
    NumeralCount(d);
  }

  /** Any table whose three count cells hold numerals parses to their values. */
  lemma GenericFromPrinted(rows: seq<Row>, p: TallyText)
    requires PrintedOk(p) && |rows| >= 4
    requires forall r :: 1 <= r <= 3 ==> |rows[r].cells| >= 2
    requires rows[1].cells[1] == p.yes && rows[2].cells[1] == p.no && rows[3].cells[1] == p.abstention
    ensures GenericFromTable(rows) == Parsed(ReadBack(p))
  {
    CellNumeral(rows, 1, 1, p.yes);
    CellNumeral(rows, 2, 1, p.no);
    CellNumeral(rows, 3, 1, p.abstention);
  }

  /** Reading a printed generic table gives back the tally that was printed. */
  lemma GenericTableRoundTrip(p: TallyText)
    requires PrintedOk(p)
    ensures GenericFromTable(GenericTable(p)) == Parsed(ReadBack(p))
  {
    GenericFromPrinted(GenericTable(p), p);
  }

  /** A printed column is neither empty nor banned. */
  lemma PrintedKept(t: TallyText)
    requires PrintedOk(t)
    ensures !AnyBannedOrEmpty(t)
  {
    NumeralNotBanned(t.yes);
    NumeralNotBanned(t.no);
    NumeralNotBanned(t.abstention);
  }

  /** A printed column is read as the tally it prints. */
  lemma PrintedRead(t: TallyText)
    requires PrintedOk(t)
    ensures ReadTally(t) == Ok(ReadBack(t))
  {
    NumeralCount(t.yes);
    NumeralCount(t.no);
    NumeralCount(t.abstention);
  }

  /** A column holding numerals is cleaned to those numerals. */
  lemma ColumnPrinted(rows: seq<Row>, c: nat, t: TallyText)
    requires GroupCellsPresent(rows) && c < 4 && PrintedOk(t)
    requires rows[2].cells[c] == t.yes && rows[3].cells[c] == t.no && rows[4].cells[c] == t.abstention
    ensures ColumnTexts(rows, c) == t
  {
    NumeralClean(t.yes);
    NumeralClean(t.no);
    NumeralClean(t.abstention);
  }

  /** Any table whose six count cells hold numerals parses to their values. */
  lemma GroupFromPrinted(rows: seq<Row>, nl: TallyText, fr: TallyText)
    requires PrintedOk(nl) && PrintedOk(fr) && GroupCellsPresent(rows)
    requires rows[2].cells[1] == fr.yes && rows[3].cells[1] == fr.no && rows[4].cells[1] == fr.abstention
    requires rows[2].cells[3] == nl.yes && rows[3].cells[3] == nl.no && rows[4].cells[3] == nl.abstention
    ensures GroupFromTable(rows) == Parsed((ReadBack(nl), ReadBack(fr)))
  {
    ColumnPrinted(rows, 1, fr);
    ColumnPrinted(rows, 3, nl);
    PrintedKept(fr);
    PrintedKept(nl);
    PrintedRead(fr);
    PrintedRead(nl);
  }

  /** Reading a printed language-group table gives back both halves. */
  lemma GroupTableRoundTrip(nl: TallyText, fr: TallyText)
    requires PrintedOk(nl) && PrintedOk(fr)
    ensures GroupFromTable(GroupTable(nl, fr)) == Parsed((ReadBack(nl), ReadBack(fr)))
  {
    GroupFromPrinted(GroupTable(nl, fr), nl, fr);
  }

  // ---------------------------------------------------------------------
  // Electronic votes

  /** The cells of a node's tables (`node.find_all('td')`); a paragraph holds none. */
  function NodeCells(n: Node): seq<string> {
    match n
    case Table(rows) => AllCells(rows)
    case _ => []
  }

  /** `int(clean_string(node.find_all('td')[1]...get_text()))` */
  function SecondCellCount(n: Node): (r: Outcome<int>)
    ensures |NodeCells(n)| < 2 ==> r == Raised("IndexError")
    ensures |NodeCells(n)| >= 2 ==> r == Count(CleanString(NodeCells(n)[1]))
  {
    var cells := NodeCells(n);
    if |cells| < 2 then Raised("IndexError") else Count(CleanString(cells[1]))
  }

  /**
   * `electronic_vote_from_table`: yes is read from the start node. The
   * sibling after next decides the kind: when it is a table, `no` is read
   * from it and the vote is generic, otherwise the vote is advisory. A
   * missing start node or a missing next sibling raises AttributeError.
   */
  function ElectronicFromTable(doc: seq<Node>, start: Option<nat>, number: int): (r: Outcome<ElectronicVote>)
    ensures r.Ok? ==> start.Some? && start.value + 1 < |doc| && r.value.number == number
    ensures r.Ok? ==> SecondCellCount(doc[start.value]) == Ok(r.value.yes)
    ensures r.Ok? && r.value.ElectronicGeneric? <==>
      r.Ok? && start.value + 2 < |doc| && doc[start.value + 2].Table?
    ensures r.Ok? && r.value.ElectronicGeneric? ==> SecondCellCount(doc[start.value + 2]) == Ok(r.value.no)
  {
    if start.None? || start.value >= |doc| then Raised("AttributeError")
    else
      var s := start.value;
      match SecondCellCount(doc[s])
      case Raised(e) => Raised(e)
      case Ok(yes) =>
        if s + 1 >= |doc| then Raised("AttributeError")
        else if s + 2 >= |doc| || !doc[s + 2].Table? then Ok(ElectronicAdvisory(number, yes))
        else
          match SecondCellCount(doc[s + 2])
          case Raised(e) => Raised(e)
          case Ok(no) => Ok(ElectronicGeneric(number, yes, no))
  }

  /** `ElectronicGenericVote.to_dict` and `ElectronicAdvisoryVote.to_dict` */
  function ElectronicDict(e: ElectronicVote): (d: map<string, Json>)
    ensures d.Keys == {"id", "type", "yes", "passed"} + if e.ElectronicGeneric? then {"no"} else {}
    ensures "id" in d && d["id"] == JInt(e.number)
    ensures "passed" in d && d["passed"] == JBool(ElectronicPassed(e))
    ensures "yes" in d && d["yes"] == JInt(e.yes)
    ensures "no" in d <==> e.ElectronicGeneric?
    ensures e.ElectronicGeneric? ==> "no" in d && d["no"] == JInt(e.no)
    ensures "type" in d && d["type"] == JStr(if e.ElectronicGeneric? then "electronic_generic" else "electronic_advisory")
  {
    match e
    case ElectronicGeneric(n, yes, no) =>
      map["id" := JInt(n), "type" := JStr("electronic_generic"), "yes" := JInt(yes), "no" := JInt(no),
          "passed" := JBool(ElectronicPassed(e))]
    case ElectronicAdvisory(n, yes) =>
      map["id" := JInt(n), "type" := JStr("electronic_advisory"), "yes" := JInt(yes),
          "passed" := JBool(ElectronicPassed(e))]
  }

  /** The rendering loses nothing: two electronic votes with the same dictionary are the same vote. */
  lemma ElectronicDictDetermines(e: ElectronicVote, e': ElectronicVote)
    ensures ElectronicDict(e) == ElectronicDict(e') <==> e == e'
  {
    if ElectronicDict(e) == ElectronicDict(e') {
      var d := ElectronicDict(e);
      assert d["id"] == JInt(e.number) == JInt(e'.number);
      assert d["yes"] == JInt(e.yes) == JInt(e'.yes);
      assert e.ElectronicGeneric? <==> e'.ElectronicGeneric?;
      if e.ElectronicGeneric? {
        assert d["no"] == JInt(e.no) == JInt(e'.no);
      }
    }
  }

  // ---------------------------------------------------------------------
  // Name votes and the reconciliation of their voter lists

  /** The members of a voter list up to the first name that found no member. */
  function KnownPrefix(l: seq<Option<Member>>): (r: seq<Member>)
    ensures |r| <= |l|
    ensures forall i :: 0 <= i < |r| ==> l[i] == Some(r[i])
    ensures |r| < |l| ==> l[|r|].None?
  {
    if l == [] || l[0].None? then [] else [l[0].value] + KnownPrefix(l[1..])
  }

  predicate AllKnown(l: seq<Option<Member>>) {
    forall i :: 0 <= i < |l| ==> l[i].Some?
  }

  /** A list in which every name found its member posts for every entry. */
  lemma KnownPrefixAll(l: seq<Option<Member>>)
    ensures AllKnown(l) <==> |KnownPrefix(l)| == |l|
  {
  }

  /**
   * `post_vote_activity`: post one vote activity per member, in order.
   * A name that found no member is `None` and raises AttributeError;
   * everything posted before it stays posted.
   */
  method PostVoteActivity(v: VoteRef, c: Choice, members: seq<Option<Member>>, log: ActivityLog)
    returns (ok: bool)
    modifies log
    ensures ok <==> AllKnown(members)
    ensures log.posted == old(log.posted) + Posts(KnownPrefix(members), v.meetingDate, VoteCast(v, c))
  {
    ghost var known := KnownPrefix(members);
    var i := 0;
    while i < |members|
      invariant 0 <= i <= |known|
      invariant log.posted == old(log.posted) + Posts(known[..i], v.meetingDate, VoteCast(v, c))
    {
      var m := members[i];
      if m.None? {
        assert |known| == i;
        assert known[..i] == known;
        return false;
      }
      assert i < |known|;
      PostsAppend(known[..i], m.value, v.meetingDate, VoteCast(v, c));
      assert known[..i + 1] == known[..i] + [m.value];
      log.Post(NewVoteActivity(m.value, v, c));
      i := i + 1;
    }
    assert known[..i] == known;
    return true;
  }

  function Abs(x: int): nat {
    if x < 0 then -x else x
  }

  /** `f'{session_base_URI}members/{member.uuid}.json'` */
  function MemberUri(baseUri: string, m: Member): string {
    baseUri + "members/" + m.uuid + ".json"
  }

  /** The member's uuid reads back from its URI, so two members share a URI exactly when they share a uuid. */
  lemma MemberUriUuid(baseUri: string, m: Member, m': Member)
    ensures |MemberUri(baseUri, m)| == |baseUri| + |m.uuid| + 13
    ensures MemberUri(baseUri, m)[..|baseUri|] == baseUri
    ensures MemberUri(baseUri, m)[|baseUri| + 8..|baseUri| + 8 + |m.uuid|] == m.uuid
    ensures MemberUri(baseUri, m) == MemberUri(baseUri, m') <==> m.uuid == m'.uuid
  {
    var u := MemberUri(baseUri, m);
    var k := |baseUri| + 8;
    assert u == (baseUri + "members/") + (m.uuid + ".json");
    assert u[k..k + |m.uuid|] == m.uuid;
    if u == MemberUri(baseUri, m') {
      var u' := MemberUri(baseUri, m');
      assert u' == (baseUri + "members/") + (m'.uuid + ".json");
      assert |m'.uuid| == |m.uuid|;
      assert u'[k..k + |m'.uuid|] == m'.uuid;
    }
  }

  /** The URI of each voter, in order; a `None` voter raises. */
  function MemberUris(baseUri: string, l: seq<Option<Member>>): (r: Option<seq<Json>>)
    ensures r.Some? <==> AllKnown(l)
    ensures r.Some? ==> |r.value| == |l|
    ensures r.Some? ==> forall i :: 0 <= i < |l| ==> r.value[i] == JStr(MemberUri(baseUri, l[i].value))
  {
    if l == [] then Some([])
    else if l[0].None? then None
    else
      match MemberUris(baseUri, l[1..])
      case None => None
      case Some(rest) => Some([JStr(MemberUri(baseUri, l[0].value))] + rest)
  }

  /** The dictionary of a generic vote's three counts, pass flag and voter lists. */
  function CountsDict(number: int, kind: string, t: Tally, passed: bool, voters: Json): map<string, Json> {
    map["id" := JInt(number), "type" := JStr(kind), "yes" := JInt(t.yes), "no" := JInt(t.no),
        "abstention" := JInt(t.abstention), "passed" := JBool(passed), "voters" := voters]
  }

  /**
   * A vote with names: a `GenericVote`, or a `LanguageGroupVote` when
   * `groups` holds its Dutch and French sub-votes. The counts start as the
   * table's (the sums of the halves for a language-group vote) and are
   * replaced by the lengths of the name lists once those are known.
   */
  class NameVote {
    const number: int
    const ref: VoteRef
    const groups: Option<(Tally, Tally)>
    var yes: int
    var no: int
    var abstention: int
    var unsure: bool
    var yesVoters: seq<Option<Member>>
    var noVoters: seq<Option<Member>>
    var abstentionVoters: seq<Option<Member>>

    /** `GenericVote(topic, number, yes, no, abstention)` */
    constructor Generic(number: int, ref: VoteRef, t: Tally)
      ensures this.number == number && this.ref == ref && groups.None?
      ensures Counts() == t && !unsure
      ensures yesVoters == [] && noVoters == [] && abstentionVoters == []
    {
      this.number := number;
      this.ref := ref;
      groups := None;
      yes, no, abstention := t.yes, t.no, t.abstention;
      unsure := false;
      yesVoters, noVoters, abstentionVoters := [], [], [];
    }

    /** `LanguageGroupVote(topic, number, vote_NL, vote_FR)`: the counts are the sums of the halves. */
    constructor Group(number: int, ref: VoteRef, nl: Tally, fr: Tally)
      ensures this.number == number && this.ref == ref && groups == Some((nl, fr))
      ensures Counts() == Sum(nl, fr) && !unsure
      ensures yesVoters == [] && noVoters == [] && abstentionVoters == []
    {
      this.number := number;
      this.ref := ref;
      groups := Some((nl, fr));
      var t := Sum(nl, fr);
      yes, no, abstention := t.yes, t.no, t.abstention;
      unsure := false;
      yesVoters, noVoters, abstentionVoters := [], [], [];
    }

    function Counts(): Tally
      reads this
    {
      Tally(yes, no, abstention)
    }

    /** The count for one choice. */
    function CountOf(c: Choice): int
      reads this
    {
      match c
      case Yes => yes
      case No => no
      case Abstention => abstention
    }

    /** The voter list for one choice. */
    function VotersOf(c: Choice): seq<Option<Member>>
      reads this
    {
      match c
      case Yes => yesVoters
      case No => noVoters
      case Abstention => abstentionVoters
    }

    /**
     * `has_passed`: a generic vote compares its current counts; a
     * language-group vote needs a majority in both halves.
     */
    function HasPassed(): bool
      reads this
    {
      match groups
      case None => GenericPassed(Counts())
      case Some(g) => GroupPassed(g.0, g.1)
    }

    /** The counts `to_dict` reports: the current ones, or the sums of the halves. */
    function DictCounts(): Tally
      reads this
    {
      match groups
      case None => Counts()
      case Some(g) => Sum(g.0, g.1)
    }

    /**
     * `to_dict`; a language-group vote adds the dictionaries of its halves,
     * whose voter lists are never filled. A voter that is `None` raises.
     */
    function ToDict(baseUri: string): (r: Outcome<map<string, Json>>)
      reads this
      ensures r.Ok? <==> AllKnown(yesVoters) && AllKnown(noVoters) && AllKnown(abstentionVoters)
      ensures r.Ok? ==>
        "passed" in r.value && r.value["passed"] == JBool(HasPassed()) &&
        "yes" in r.value && r.value["yes"] == JInt(DictCounts().yes) &&
        "no" in r.value && r.value["no"] == JInt(DictCounts().no) &&
        "abstention" in r.value && r.value["abstention"] == JInt(DictCounts().abstention)
      ensures r.Ok? ==> ("detail" in r.value <==> groups.Some?)
      ensures r.Ok? ==>
        r.value.Keys == {"id", "type", "yes", "no", "abstention", "passed", "voters"} + (if groups.Some? then {"detail"} else {})
      ensures r.Ok? ==>
        "id" in r.value && r.value["id"] == JInt(number) &&
        "type" in r.value && r.value["type"] == JStr(if groups.None? then "general" else "language_group")
      ensures r.Ok? ==>
        MemberUris(baseUri, yesVoters).Some? && MemberUris(baseUri, noVoters).Some? &&
        MemberUris(baseUri, abstentionVoters).Some? &&
        "voters" in r.value &&
        r.value["voters"] == JObj(map["yes" := JList(MemberUris(baseUri, yesVoters).value),
                                      "no" := JList(MemberUris(baseUri, noVoters).value),
                                      "abstention" := JList(MemberUris(baseUri, abstentionVoters).value)])
      ensures r.Ok? && groups.Some? ==>
        "detail" in r.value && r.value["detail"] == JObj(map["NL" := JObj(SubVoteDict(number, groups.value.0)),
                                      "FR" := JObj(SubVoteDict(number, groups.value.1))])
    {
      var y, n, a := MemberUris(baseUri, yesVoters), MemberUris(baseUri, noVoters), MemberUris(baseUri, abstentionVoters);
      if y.None? || n.None? || a.None? then Raised("AttributeError")
      else
        var voters := JObj(map["yes" := JList(y.value), "no" := JList(n.value), "abstention" := JList(a.value)]);
        var kind := if groups.None? then "general" else "language_group";
        var d := CountsDict(number, kind, DictCounts(), HasPassed(), voters);
        if groups.None? then Ok(d)
        else Ok(d["detail" := JObj(map["NL" := JObj(SubVoteDict(number, groups.value.0)),
                                       "FR" := JObj(SubVoteDict(number, groups.value.1))])])
    }

    /**
     * `set_yes_voters`, `set_no_voters` and `set_abstention_voters`: the
     * count becomes the list's length and the list is stored; a difference
     * of more than 2 from the previous count marks the vote unsure. Then
     * one vote activity per member is posted.
     */
    method SetVoters(c: Choice, l: seq<Option<Member>>, log: ActivityLog) returns (ok: bool)
      modifies this, log
      ensures CountOf(c) == |l| && VotersOf(c) == l
      ensures forall d :: d != c ==> CountOf(d) == old(CountOf(d)) && VotersOf(d) == old(VotersOf(d))
      ensures unsure == (old(unsure) || Abs(|l| - old(CountOf(c))) > 2)
      ensures ok <==> AllKnown(l)
      ensures log.posted == old(log.posted) + Posts(KnownPrefix(l), ref.meetingDate, VoteCast(ref, c))
    {
      if Abs(|l| - CountOf(c)) > 2 {
        unsure := true;
      }
      match c {
        case Yes => yes, yesVoters := |l|, l;
        case No => no, noVoters := |l|, l;
        case Abstention => abstention, abstentionVoters := |l|, l;
      }
      ok := PostVoteActivity(ref, c, l, log);
    }
  }

  /** The dictionary of a sub-vote of a language-group vote: its own counts and no voters. */
  function SubVoteDict(number: int, t: Tally): map<string, Json> {
    CountsDict(number, "general", t, GenericPassed(t),
               JObj(map["yes" := JList([]), "no" := JList([]), "abstention" := JList([])]))
  }

  /**
   * Once a generic vote's counts are the lengths of its lists, as the
   * setters leave them, each count it renders is the length of the URI
   * list it renders for that choice.
   */
  lemma RenderedCountsMatchVoters(v: NameVote, baseUri: string)
    requires v.groups.None? && v.ToDict(baseUri).Ok?
    requires v.yes == |v.yesVoters| && v.no == |v.noVoters| && v.abstention == |v.abstentionVoters|
    ensures var d := v.ToDict(baseUri).value;
      d["voters"].JObj? && d["voters"].fields.Keys == {"yes", "no", "abstention"} &&
      d["yes"] == JInt(|d["voters"].fields["yes"].items|) &&
      d["no"] == JInt(|d["voters"].fields["no"].items|) &&
      d["abstention"] == JInt(|d["voters"].fields["abstention"].items|)
  {
  }

  /**
   * Reconciling the voter lists of a language-group vote changes neither
   * whether it passed nor the counts it reports.
   */
  method ReconcileGroupVote(v: NameVote, yesL: seq<Option<Member>>, noL: seq<Option<Member>>,
                            abstL: seq<Option<Member>>, log: ActivityLog) returns (ok: bool)
    requires v.groups.Some?
    modifies v, log
    ensures v.HasPassed() == old(v.HasPassed()) && v.DictCounts() == old(v.DictCounts())
  {
    ok := v.SetVoters(Yes, yesL, log);
    if ok {
      ok := v.SetVoters(No, noL, log);
    }
    if ok {
      ok := v.SetVoters(Abstention, abstL, log);
    }
  }
}
