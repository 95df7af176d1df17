/**
 * The dispatch loop of `__get_votes`: for every `Stemming/vote N` marker
 * of the notes, which agenda item the vote belongs to, which kind of
 * vote its table holds, and what the vote looks like once its voter
 * lists are known.
 */
module VoteDispatch {
  import opened Base
  import opened Strings
  import opened Common
  import opened Dom
  import opened Activity
  import opened Parliament
  import opened Meetings
  import opened MeetingVotes
  import opened Vote

  // ---------------------------------------------------------------------
  // The shape of a vote table

  /** How a vote table is read: as a generic vote, as a language-group vote, or not at all. */
  datatype Shape = GenericShape | GroupShape | NoShape

  /** A row whose stripped text is empty or starts with '<'. */
  predicate BlankRow(r: Row) {
    var t := Strip(r.text);
    t == [] || t[0] == '<'
  }

  /**
   * The shape test of `__get_votes` on the rows without a height: the
   * last row's text is read first, which raises IndexError on a table
   * without rows; five rows, or six whose last is blank, make a generic
   * vote, any other six rows a language-group vote.
   */
  function TableShape(rows: seq<Row>): (r: Outcome<Shape>)
    ensures r.Raised? <==> rows == []
    ensures r == Ok(GenericShape) <==> |rows| == 5 || (|rows| == 6 && BlankRow(rows[5]))
    ensures r == Ok(GroupShape) <==> |rows| == 6 && !BlankRow(rows[5])
  {
    if rows == [] then Raised("IndexError")
    else
      var last := rows[|rows| - 1];
      assert |rows| == 6 ==> last == rows[5];
      var lastBlank := BlankRow(last);
      if |rows| == 5 || (|rows| == 6 && lastBlank) then Ok(GenericShape)
      else if |rows| == 6 then Ok(GroupShape)
      else Ok(NoShape)
  }

  /** The rows of a table without a height attribute keep the table's order when none has one. */
  lemma {:induction false} PlainRowsAll(rows: seq<Row>)
    requires forall x :: x in rows ==> !x.hasHeight
    ensures PlainRows(rows) == rows
  {
    if rows != [] {
      PlainRowsAll(rows[1..]);
      assert [rows[0]] + rows[1..] == rows;
    }
  }

  /** A printed generic table is read as a generic vote. */
  lemma PrintedGenericShape(p: TallyText)
    ensures TableShape(PlainRows(GenericTable(p))) == Ok(GenericShape)
  {
    var rows := GenericTable(p);
    PlainRowsAll(rows);
    assert |PlainRows(rows)| == 5;
  }

  /** The last row of a printed language-group table is not blank. */
  lemma TotalRow()
    ensures !BlankRow(Row(false, "Total", ["Total", "", "Totaal", ""]))
  {
    var t := "Total";
    assert !IsSpace(t[0]) && !IsSpace(t[|t| - 1]);
    assert RStrip(t) == t;
    assert LStrip(t) == t;
  }

  /** A printed language-group table is read as a language-group vote. */
  lemma PrintedGroupShape(nl: TallyText, fr: TallyText)
    ensures TableShape(PlainRows(GroupTable(nl, fr))) == Ok(GroupShape)
  {
    var rows := GroupTable(nl, fr);
    PlainRowsAll(rows);
    assert |PlainRows(rows)| == 6;
    assert rows[5] == Row(false, "Total", ["Total", "", "Totaal", ""]);
    TotalRow();
  }

  /**
   * `GenericVote.from_table` or `LanguageGroupVote.from_table` by shape:
   * the counts the vote starts with, and the Dutch and French halves of a
   * language-group vote.
   */
  function Tabulate(shape: Shape, rows: seq<Row>): (r: Parse<(Tally, Option<(Tally, Tally)>)>)
    ensures shape == NoShape ==> r.Declined?
    ensures r.Parsed? && shape == GenericShape ==> GenericFromTable(rows) == Parsed(r.value.0) && r.value.1.None?
    ensures r.Parsed? && shape == GroupShape ==>
      r.value.1.Some? && GroupFromTable(rows) == Parsed(r.value.1.value) &&
      r.value.0 == Sum(r.value.1.value.0, r.value.1.value.1)
  {
    match shape
    case GenericShape =>
      (match GenericFromTable(rows)
       case Declined => Declined
       case Fault(e) => Fault(e)
       case Parsed(t) => Parsed((t, None)))
    case GroupShape =>
      (match GroupFromTable(rows)
       case Declined => Declined
       case Fault(e) => Fault(e)
       case Parsed(halves) => Parsed((Sum(halves.0, halves.1), Some(halves))))
    case NoShape => Declined
  }

  // ---------------------------------------------------------------------
  // What a vote looks like once it is made

  /**
   * A vote as it is given to its agenda item: a vote with names (its
   * number, its halves if it is a language-group vote, its counts, whether
   * they disagree with the voter lists, and the voter lists, where a name
   * that found no member is `None`), or an electronic vote.
   */
  datatype Ballot =
    | Tabled(number: int, groups: Option<(Tally, Tally)>, counts: Tally, unsure: bool,
             yes: seq<Option<Member>>, no: seq<Option<Member>>, abstention: seq<Option<Member>>)
    | Counted(vote: ElectronicVote)

  /** A vote with names whose counts are the table's and that has no voters. */
  predicate Silent(b: Ballot) {
    b.Tabled? && !b.unsure && b.yes == [] && b.no == [] && b.abstention == []
  }

  /** A vote given to the agenda item with number `item`. */
  datatype Cast = Cast(item: nat, ballot: Ballot)

  /** The state of a vote with names. */
  function Summary(v: NameVote): Ballot
    reads v
  {
    Tabled(v.number, v.groups, v.Counts(), v.unsure, v.yesVoters, v.noVoters, v.abstentionVoters)
  }

  /** `[session.find_member(name) for name in names]` */
  function Voters(find: string -> Option<Member>, names: seq<string>): (r: seq<Option<Member>>)
    ensures |r| == |names| && forall i :: 0 <= i < |names| ==> r[i] == find(names[i])
  {
    seq(|names|, i requires 0 <= i < |names| => find(names[i]))
  }

  /** Whether a voter list's length is more than 2 away from the count it replaces. */
  predicate Off(l: seq<Option<Member>>, count: int) {
    Abs(|l| - count) > 2
  }

  /**
   * The vote made from a table with `counts` and, when the vote has name
   * lists, the three `set_*_voters` calls: each count becomes its list's
   * length, the vote is unsure when one of them moved by more than 2, and
   * a name that found no member raises AttributeError.
   */
  function Reconciled(number: int, groups: Option<(Tally, Tally)>, counts: Tally, lists: Option<NameLists>,
                      find: string -> Option<Member>): Outcome<Ballot>
  {
    match lists
    case None => Ok(Tabled(number, groups, counts, false, [], [], []))
    case Some(l) =>
      var yes := Voters(find, l.yes);
      var no := Voters(find, l.no);
      var abstention := Voters(find, l.abstention);
      if !AllKnown(yes) || !AllKnown(no) || !AllKnown(abstention) then Raised("AttributeError")
      else
        var unsure := Off(yes, counts.yes) || Off(no, counts.no) || Off(abstention, counts.abstention);
        Ok(Tabled(number, groups, Tally(|yes|, |no|, |abstention|), unsure, yes, no, abstention))
  }

  /**
   * A vote without name lists keeps the table's counts and no voters; one
   * with name lists has one voter per name, every one a member, and counts
   * equal to the lists' lengths. The number and the halves are the table's.
   */
  lemma ReconciledCounts(number: int, groups: Option<(Tally, Tally)>, counts: Tally, lists: Option<NameLists>,
                         find: string -> Option<Member>)
    ensures var r := Reconciled(number, groups, counts, lists, find);
      r.Ok? ==> r.value.Tabled? && r.value.number == number && r.value.groups == groups
    ensures var r := Reconciled(number, groups, counts, lists, find);
      lists.None? ==> r == Ok(Tabled(number, groups, counts, false, [], [], []))
    ensures var r := Reconciled(number, groups, counts, lists, find);
      lists.Some? && r.Ok? ==>
        && r.value.yes == Voters(find, lists.value.yes) && AllKnown(r.value.yes)
        && r.value.no == Voters(find, lists.value.no) && AllKnown(r.value.no)
        && r.value.abstention == Voters(find, lists.value.abstention) && AllKnown(r.value.abstention)
        && r.value.counts == Tally(|lists.value.yes|, |lists.value.no|, |lists.value.abstention|)
    ensures var r := Reconciled(number, groups, counts, lists, find);
      r.Raised? <==> lists.Some? && exists name :: name in lists.value.yes + lists.value.no + lists.value.abstention && find(name).None?
  {
    if lists.Some? {
      var l := lists.value;
      var all := l.yes + l.no + l.abstention;
      if !AllKnown(Voters(find, l.yes)) {
        var i :| 0 <= i < |l.yes| && Voters(find, l.yes)[i].None?;
        assert all[i] == l.yes[i];
      } else if !AllKnown(Voters(find, l.no)) {
        var i :| 0 <= i < |l.no| && Voters(find, l.no)[i].None?;
        assert all[|l.yes| + i] == l.no[i];
      } else if !AllKnown(Voters(find, l.abstention)) {
        var i :| 0 <= i < |l.abstention| && Voters(find, l.abstention)[i].None?;
        assert all[|l.yes| + |l.no| + i] == l.abstention[i];
      } else {
        forall name | name in all
          ensures find(name).Some?
        {
          if name in l.yes {
            var i :| 0 <= i < |l.yes| && l.yes[i] == name;
            assert Voters(find, l.yes)[i].Some?;
          } else if name in l.no {
            var i :| 0 <= i < |l.no| && l.no[i] == name;
            assert Voters(find, l.no)[i].Some?;
          } else {
            assert name in l.abstention;
            var i :| 0 <= i < |l.abstention| && l.abstention[i] == name;
            assert Voters(find, l.abstention)[i].Some?;
          }
        }
      }
    }
  }

  /** All three lists known: the counts are the lists' lengths, and unsure says which moved by more than 2. */
  lemma ReconciledKnown(number: int, groups: Option<(Tally, Tally)>, counts: Tally, l: NameLists,
                        find: string -> Option<Member>)
    requires AllKnown(Voters(find, l.yes)) && AllKnown(Voters(find, l.no)) && AllKnown(Voters(find, l.abstention))
    ensures var yes, no, abstention := Voters(find, l.yes), Voters(find, l.no), Voters(find, l.abstention);
      Reconciled(number, groups, counts, Some(l), find) ==
        Ok(Tabled(number, groups, Tally(|yes|, |no|, |abstention|),
                  Off(yes, counts.yes) || Off(no, counts.no) || Off(abstention, counts.abstention), yes, no, abstention))
  {
  }

  /** A name of any list that finds no member raises AttributeError. */
  lemma ReconciledUnknown(number: int, groups: Option<(Tally, Tally)>, counts: Tally, l: NameLists,
                          find: string -> Option<Member>)
    requires !AllKnown(Voters(find, l.yes)) || !AllKnown(Voters(find, l.no)) || !AllKnown(Voters(find, l.abstention))
    ensures Reconciled(number, groups, counts, Some(l), find) == Raised("AttributeError")
  {
  }

  // ---------------------------------------------------------------------
  // One marker

  /**
   * A vote with names at the table `pos`, whose marker carries `number`,
   * for agenda item `item`: a table of more than six plain rows or of no
   * shape is passed over, a missing agenda item raises KeyError before
   * the table is read, an empty or banned table gives no vote, and the
   * name lists of the vote, if any, are then set.
   */
  function TableCast(notes: seq<Node>, pos: nat, number: nat, item: nat, nv: map<int, NameLists>, items: set<nat>,
                     find: string -> Option<Member>): (r: Outcome<Option<Cast>>)
    requires pos < |notes| && notes[pos].Table?
    ensures r.Ok? && r.value.Some? ==> r.value.value.item == item && item in items && r.value.value.ballot.Tabled?
    ensures r.Ok? && r.value.Some? && number !in nv ==> Silent(r.value.value.ballot)
  {
    var rows := PlainRows(notes[pos].rows);
    if |rows| > 6 then Ok(None)
    else
      match TableShape(rows)
      case Raised(e) => Raised(e)
      case Ok(shape) =>
        if shape == NoShape then Ok(None)
        else if item !in items then Raised("KeyError")
        else
          match Tabulate(shape, rows)
          case Declined => Ok(None)
          case Fault(e) => Raised(e)
          case Parsed((counts, groups)) =>
            match Reconciled(number, groups, counts, if number in nv then Some(nv[number]) else None, find)
            case Raised(e) => Raised(e)
            case Ok(b) =>
              ReconciledCounts(number, groups, counts, if number in nv then Some(nv[number]) else None, find);
              Ok(Some(Cast(item, b)))
  }

  /**
   * One turn of the dispatch loop for the marker at `pos`: read the vote
   * number (AttributeError when the marker does not start the text); a
   * vote that is not electronic needs its marker inside a table; the
   * agenda item is read above it in French, then in Dutch, the two must
   * agree (AssertionError) and an absent or zero item passes the vote
   * over. A vote with names is read from its table, an electronic one
   * from the nodes its marker found, after the KeyError check.
   */
  function CastAt(notes: seq<Node>, pos: nat, nv: map<int, NameLists>, ev: map<int, Option<nat>>, items: set<nat>,
                  find: string -> Option<Member>): Outcome<Option<Cast>>
    requires pos < |notes|
  {
    match MarkedItem(notes, pos, ev)
    case Raised(e) => Raised(e)
    case Ok(None) => Ok(None)
    case Ok(Some((number, item))) => ItemCast(notes, pos, number, item, nv, ev, items, find)
  }

  /**
   * The vote number of the marker at `pos` and the agenda item read above
   * it in both languages; `None` when the vote is passed over (not
   * electronic and not in a table, or an absent or zero item).
   */
  function MarkedItem(notes: seq<Node>, pos: nat, ev: map<int, Option<nat>>): (r: Outcome<Option<(nat, nat)>>)
    requires pos < |notes|
    ensures r.Ok? && r.value.Some? ==> r.value.value.0 in ev || notes[pos].Table?
  {
    match VoteMarkerNumber(Text(notes[pos]))
    case Raised(e) => Raised(e)
    case Ok(number) =>
      if number !in ev && !notes[pos].Table? then Ok(None)
      else
        match AgendaItem(notes, pos, TitleClass(FR), TitleNumber)
        case Raised(e) => Raised(e)
        case Ok(fr) =>
          match AgendaItem(notes, pos, TitleClass(NL), TitleNumber)
          case Raised(e) => Raised(e)
          case Ok(nl) =>
            if nl != fr then Raised("AssertionError")
            else if fr.None? || fr.value == 0 then Ok(None)
            else Ok(Some((number, fr.value)))
  }

  /** The marker's number and item as the two `extract_title_by_vote` loops read them. */
  method ReadMarkedItem(notes: seq<Node>, pos: nat, ev: map<int, Option<nat>>) returns (r: Outcome<Option<(nat, nat)>>)
    requires pos < |notes|
    ensures r == MarkedItem(notes, pos, ev)
  {
    var marker := VoteMarkerNumber(Text(notes[pos]));
    if marker.Raised? {
      return Raised(marker.error);
    }
    var number := marker.value;
    if number !in ev && !notes[pos].Table? {
      return Ok(None);
    }
    var fr := TitleByVote(notes, pos, FR, TitleNumber);
    if fr.Raised? {
      return Raised(fr.error);
    }
    var nl := TitleByVote(notes, pos, NL, TitleNumber);
    if nl.Raised? {
      return Raised(nl.error);
    }
    if nl.value != fr.value {
      return Raised("AssertionError");
    }
    if fr.value.None? || fr.value.value == 0 {
      return Ok(None);
    }
    return Ok(Some((number, fr.value.value)));
  }

  /**
   * The vote of the marker at `pos` once its agenda item is known: read
   * from its table, or, when electronic, from the nodes its marker found
   * after the KeyError check.
   */
  function ItemCast(notes: seq<Node>, pos: nat, number: nat, item: nat, nv: map<int, NameLists>, ev: map<int, Option<nat>>,
                    items: set<nat>, find: string -> Option<Member>): Outcome<Option<Cast>>
    requires pos < |notes| && (number in ev || notes[pos].Table?)
  {
    if number !in ev then TableCast(notes, pos, number, item, nv, items, find)
    else if item !in items then Raised("KeyError")
    else
      match ElectronicFromTable(notes, ev[number], number)
      case Raised(e) => Raised(e)
      case Ok(e) => Ok(Some(Cast(item, Counted(e))))
  }

  /**
   * A vote is given to an agenda item the meeting has, the one whose
   * number both languages' nearest numbered title above the marker
   * carries, never to item 0; it is electronic exactly when its number is
   * among the electronic votes.
   */
  lemma CastAtItem(notes: seq<Node>, pos: nat, nv: map<int, NameLists>, ev: map<int, Option<nat>>, items: set<nat>,
                   find: string -> Option<Member>)
    requires pos < |notes|
    requires CastAt(notes, pos, nv, ev, items, find).Ok? && CastAt(notes, pos, nv, ev, items, find).value.Some?
    ensures var c := CastAt(notes, pos, nv, ev, items, find).value.value;
      && c.item in items && c.item != 0
      && AgendaItem(notes, pos, TitleClass(FR), TitleNumber) == Ok(Some(c.item))
      && AgendaItem(notes, pos, TitleClass(NL), TitleNumber) == Ok(Some(c.item))
      && VoteMarkerNumber(Text(notes[pos])).Ok?
      && (c.ballot.Counted? <==> VoteMarkerNumber(Text(notes[pos])).value in ev)
  {
    var r := CastAt(notes, pos, nv, ev, items, find);
    var m := VoteMarkerNumber(Text(notes[pos]));
    assert m.Ok?;
    var fr := AgendaItem(notes, pos, TitleClass(FR), TitleNumber);
    var nl := AgendaItem(notes, pos, TitleClass(NL), TitleNumber);
    assert fr.Ok? && nl.Ok? && nl.value == fr.value;
    assert fr.value.Some? && fr.value.value != 0;
    if m.value in ev {
      assert fr.value.value in items;
      var e := ElectronicFromTable(notes, ev[m.value], m.value);
      assert e.Ok? && r == Ok(Some(Cast(fr.value.value, Counted(e.value))));
    } else {
      assert r == TableCast(notes, pos, m.value, fr.value.value, nv, items, find);
    }
  }

  /** A vote that is not electronic and whose marker is not in a table is passed over. */
  lemma CastAtParagraph(notes: seq<Node>, pos: nat, nv: map<int, NameLists>, ev: map<int, Option<nat>>, items: set<nat>,
                        find: string -> Option<Member>)
    requires pos < |notes| && !notes[pos].Table?
    requires VoteMarkerNumber(Text(notes[pos])).Ok? && VoteMarkerNumber(Text(notes[pos])).value !in ev
    ensures CastAt(notes, pos, nv, ev, items, find) == Ok(None)
  {
  }

  /** The two languages disagreeing on the agenda item raises AssertionError. */
  lemma CastAtDisagree(notes: seq<Node>, pos: nat, nv: map<int, NameLists>, ev: map<int, Option<nat>>, items: set<nat>,
                       find: string -> Option<Member>)
    requires pos < |notes| && VoteMarkerNumber(Text(notes[pos])).Ok?
    requires VoteMarkerNumber(Text(notes[pos])).value in ev || notes[pos].Table?
    requires AgendaItem(notes, pos, TitleClass(FR), TitleNumber).Ok? && AgendaItem(notes, pos, TitleClass(NL), TitleNumber).Ok?
    requires AgendaItem(notes, pos, TitleClass(FR), TitleNumber) != AgendaItem(notes, pos, TitleClass(NL), TitleNumber)
    ensures CastAt(notes, pos, nv, ev, items, find) == Raised("AssertionError")
  {
  }

  // ---------------------------------------------------------------------
  // All markers

  /** The dispatch at every position of the notes; a position past the end holds no marker. */
  function Dispatch(notes: seq<Node>, nv: map<int, NameLists>, ev: map<int, Option<nat>>, items: set<nat>,
                    find: string -> Option<Member>): nat -> Outcome<Option<Cast>>
  {
    (p: nat) => if p < |notes| then CastAt(notes, p, nv, ev, items, find) else Ok(None)
  }

  /** `at` reads every position of the notes as the dispatch does. */
  ghost predicate Dispatches(at: nat -> Outcome<Option<Cast>>, notes: seq<Node>, nv: map<int, NameLists>,
                             ev: map<int, Option<nat>>, items: set<nat>, find: string -> Option<Member>)
  {
    forall p: nat {:trigger CastAt(notes, p, nv, ev, items, find)} ::
      p < |notes| ==> at(p) == CastAt(notes, p, nv, ev, items, find)
  }

  lemma DispatchDispatches(notes: seq<Node>, nv: map<int, NameLists>, ev: map<int, Option<nat>>, items: set<nat>,
                           find: string -> Option<Member>)
    ensures Dispatches(Dispatch(notes, nv, ev, items, find), notes, nv, ev, items, find)
  {
  }

  /** The votes of the markers `tags`, in order, each read by `at`; the first marker that raises ends the loop. */
  function Casts(at: nat -> Outcome<Option<Cast>>, tags: seq<nat>): (r: Outcome<seq<Cast>>)
    ensures r.Ok? ==> |r.value| <= |tags|
    decreases |tags|
  {
    if tags == [] then Ok([])
    else
      match Casts(at, tags[..|tags| - 1])
      case Raised(e) => Raised(e)
      case Ok(cs) =>
        match at(tags[|tags| - 1])
        case Raised(e) => Raised(e)
        case Ok(None) => Ok(cs)
        case Ok(Some(c)) => Ok(cs + [c])
  }

  /** Every vote goes to an agenda item the meeting has, and none to item 0. */
  lemma {:induction false} CastsItems(notes: seq<Node>, tags: seq<nat>, nv: map<int, NameLists>, ev: map<int, Option<nat>>,
                                      items: set<nat>, find: string -> Option<Member>)
    requires forall k :: 0 <= k < |tags| ==> tags[k] < |notes|
    requires Casts(Dispatch(notes, nv, ev, items, find), tags).Ok?
    ensures forall c :: c in Casts(Dispatch(notes, nv, ev, items, find), tags).value ==> c.item in items && c.item != 0
    decreases |tags|
  {
    if tags != [] {
      var at := Dispatch(notes, nv, ev, items, find);
      var init, p := tags[..|tags| - 1], tags[|tags| - 1];
      CastsItems(notes, init, nv, ev, items, find);
      var last := CastAt(notes, p, nv, ev, items, find);
      assert at(p) == last;
      forall c | c in Casts(at, tags).value
        ensures c.item in items && c.item != 0
      {
        if c !in Casts(at, init).value {
          assert last.value == Some(c);
          CastAtItem(notes, p, nv, ev, items, find);
        }
      }
    }
  }

  /** Without electronic votes and name lists every vote is a vote with names, and none has voters. */
  lemma {:induction false} CastsWithoutLists(notes: seq<Node>, tags: seq<nat>, items: set<nat>, find: string -> Option<Member>)
    requires forall k :: 0 <= k < |tags| ==> tags[k] < |notes|
    requires Casts(Dispatch(notes, map[], map[], items, find), tags).Ok?
    ensures forall c :: c in Casts(Dispatch(notes, map[], map[], items, find), tags).value ==> Silent(c.ballot)
    decreases |tags|
  {
    if tags != [] {
      var init := tags[..|tags| - 1];
      CastsWithoutLists(notes, init, items, find);
      var last := CastAt(notes, tags[|tags| - 1], map[], map[], items, find);
      assert Dispatch(notes, map[], map[], items, find)(tags[|tags| - 1]) == last;
      if last.value.Some? {
        CastAtWithoutLists(notes, tags[|tags| - 1], items, find);
      }
    }
  }

  /** Without electronic votes every vote read at a marker is a vote with names and, without name lists, it has no voters. */
  lemma CastAtWithoutLists(notes: seq<Node>, pos: nat, items: set<nat>, find: string -> Option<Member>)
    requires pos < |notes|
    requires CastAt(notes, pos, map[], map[], items, find).Ok? && CastAt(notes, pos, map[], map[], items, find).value.Some?
    ensures Silent(CastAt(notes, pos, map[], map[], items, find).value.value.ballot)
  {
  }

  /** `get_name_and_electronic_votes` followed by the dispatch loop over every marker. */
  function VotePlan(notes: seq<Node>, hasSection3: bool, items: set<nat>, find: string -> Option<Member>)
    : Outcome<seq<Cast>>
  {
    match NameAndElectronicVotes(notes, hasSection3, Source)
    case Raised(e) => Raised(e)
    case Ok((nv, ev)) => Casts(Dispatch(notes, nv, ev, items, find), VoteTags(notes))
  }

  /** A meeting without a `Section3` division has votes with names only, and none of them has voters. */
  lemma NoSection3NoVoters(notes: seq<Node>, items: set<nat>, find: string -> Option<Member>)
    requires VotePlan(notes, false, items, find).Ok?
    ensures forall c :: c in VotePlan(notes, false, items, find).value ==> Silent(c.ballot)
  {
    CastsWithoutLists(notes, VoteTags(notes), items, find);
  }

  /** The votes given to agenda item `k`, in order. */
  function BallotsFor(cs: seq<Cast>, k: nat): (r: seq<Ballot>)
    ensures |r| <= |cs|
    decreases |cs|
  {
    if cs == [] then []
    else BallotsFor(cs[..|cs| - 1], k) + (if cs[|cs| - 1].item == k then [cs[|cs| - 1].ballot] else [])
  }

  /** One more vote. */
  lemma BallotsForSnoc(cs: seq<Cast>, c: Cast, k: nat)
    ensures BallotsFor(cs + [c], k) == BallotsFor(cs, k) + (if c.item == k then [c.ballot] else [])
  {
    assert (cs + [c])[..|cs|] == cs;
  }

  /** Every vote is given to exactly one agenda item: the votes of all items together are as many as the votes. */
  lemma {:induction false} BallotsForPartition(cs: seq<Cast>, k: nat)
    ensures forall b :: b in BallotsFor(cs, k) ==> exists c :: c in cs && c.item == k && c.ballot == b
    ensures (forall c :: c in cs ==> c.item != k) ==> BallotsFor(cs, k) == []
    decreases |cs|
  {
    if cs != [] {
      var init := cs[..|cs| - 1];
      BallotsForPartition(init, k);
      assert forall c :: c in init ==> c in cs;
    }
  }

  // ---------------------------------------------------------------------
  // The vote activities of a vote

  /** The vote activities `post_vote_activity` posts for one voter list: one per member up to the first `None`. */
  function ChoicePosts(ref: VoteRef, c: Choice, l: seq<Option<Member>>): seq<Activity> {
    Posts(KnownPrefix(l), ref.meetingDate, VoteCast(ref, c))
  }

  /**
   * The vote activities the three `set_*_voters` calls post for the name
   * lists `l`: the yes voters, then the no voters, then the abstainers.
   * A list with a name that found no member raises once its members before
   * that name are posted, so the lists after it post nothing.
   */
  function ListPosts(ref: VoteRef, l: NameLists, find: string -> Option<Member>): seq<Activity> {
    var yes := Voters(find, l.yes);
    var no := Voters(find, l.no);
    ChoicePosts(ref, Yes, yes) +
      if !AllKnown(yes) then []
      else ChoicePosts(ref, No, no) + if !AllKnown(no) then [] else ChoicePosts(ref, Abstention, Voters(find, l.abstention))
  }

  /** The posts of the lists, as the three setters make them one after the other. */
  lemma ListPostsSteps(ref: VoteRef, l: NameLists, find: string -> Option<Member>)
    ensures var ys := ChoicePosts(ref, Yes, Voters(find, l.yes));
      !AllKnown(Voters(find, l.yes)) ==> ListPosts(ref, l, find) == ys
    ensures var ys, ns := ChoicePosts(ref, Yes, Voters(find, l.yes)), ChoicePosts(ref, No, Voters(find, l.no));
      AllKnown(Voters(find, l.yes)) && !AllKnown(Voters(find, l.no)) ==> ListPosts(ref, l, find) == ys + ns
    ensures var ys, ns := ChoicePosts(ref, Yes, Voters(find, l.yes)), ChoicePosts(ref, No, Voters(find, l.no));
      AllKnown(Voters(find, l.yes)) && AllKnown(Voters(find, l.no)) ==>
        ListPosts(ref, l, find) == ys + ns + ChoicePosts(ref, Abstention, Voters(find, l.abstention))
  {
    var ys, ns := ChoicePosts(ref, Yes, Voters(find, l.yes)), ChoicePosts(ref, No, Voters(find, l.no));
    assert ys + [] == ys;
    assert ns + [] == ns;
  }

  /**
   * The vote activities of a vote as it stands: one per voter, yes voters
   * first, then no voters, then abstainers; an electronic vote has none.
   */
  function BallotPosts(ref: VoteRef, b: Ballot): seq<Activity> {
    match b
    case Counted(_) => []
    case Tabled(_, _, _, _, yes, no, abstention) =>
      ChoicePosts(ref, Yes, yes) + ChoicePosts(ref, No, no) + ChoicePosts(ref, Abstention, abstention)
  }

  /**
   * The activities the setters post are those of the vote they make: a
   * vote without name lists posts nothing, and one whose lists all found
   * their members posts one vote activity per name, with that name's
   * member and choice.
   */
  lemma ReconciledPosts(number: int, groups: Option<(Tally, Tally)>, counts: Tally, lists: Option<NameLists>,
                        find: string -> Option<Member>, ref: VoteRef)
    requires Reconciled(number, groups, counts, lists, find).Ok?
    ensures lists.None? ==> BallotPosts(ref, Reconciled(number, groups, counts, lists, find).value) == []
    ensures lists.Some? ==> BallotPosts(ref, Reconciled(number, groups, counts, lists, find).value) == ListPosts(ref, lists.value, find)
    ensures lists.Some? ==> |ListPosts(ref, lists.value, find)| == |lists.value.yes| + |lists.value.no| + |lists.value.abstention|
  {
    ReconciledCounts(number, groups, counts, lists, find);
    if lists.Some? {
      var l := lists.value;
      KnownPrefixAll(Voters(find, l.yes));
      KnownPrefixAll(Voters(find, l.no));
      KnownPrefixAll(Voters(find, l.abstention));
    }
  }

  /** The vote activities of the votes `cs` of the meeting with `date` and `meetingId`, vote by vote. */
  function CastsPosts(date: Date, meetingId: int, cs: seq<Cast>): seq<Activity>
    decreases |cs|
  {
    if cs == [] then []
    else
      var c := cs[|cs| - 1];
      CastsPosts(date, meetingId, cs[..|cs| - 1]) + BallotPosts(VoteRef(date, TopicUri(meetingId, c.item)), c.ballot)
  }

  /** One more vote posts its own activities after those of the votes before it. */
  lemma CastsPostsSnoc(date: Date, meetingId: int, cs: seq<Cast>, c: Cast)
    ensures CastsPosts(date, meetingId, cs + [c]) ==
      CastsPosts(date, meetingId, cs) + BallotPosts(VoteRef(date, TopicUri(meetingId, c.item)), c.ballot)
  {
    assert (cs + [c])[..|cs|] == cs;
  }

  /**
   * Every activity the votes of a meeting post is a vote activity dated
   * on the meeting, about one of the meeting's items that has a vote.
   */
  lemma {:induction false} CastsPostsAreVotes(date: Date, meetingId: int, cs: seq<Cast>)
    ensures forall a :: a in CastsPosts(date, meetingId, cs) ==>
      && a.date == date && a.kind.VoteCast? && a.kind.vote.meetingDate == date
      && exists c :: c in cs && a.kind.vote.topicUri == TopicUri(meetingId, c.item)
    decreases |cs|
  {
    if cs != [] {
      var init, c := cs[..|cs| - 1], cs[|cs| - 1];
      CastsPostsAreVotes(date, meetingId, init);
      assert forall x :: x in init ==> x in cs;
      var ref := VoteRef(date, TopicUri(meetingId, c.item));
      match c.ballot
      case Counted(_) =>
      case Tabled(_, _, _, _, yes, no, abstention) =>
        PostsKinds(KnownPrefix(yes), date, VoteCast(ref, Yes));
        PostsKinds(KnownPrefix(no), date, VoteCast(ref, No));
        PostsKinds(KnownPrefix(abstention), date, VoteCast(ref, Abstention));
    }
  }

  /** Votes without voters post no vote activity. */
  lemma {:induction false} SilentCastsPost(date: Date, meetingId: int, cs: seq<Cast>)
    requires forall c :: c in cs ==> Silent(c.ballot)
    ensures CastsPosts(date, meetingId, cs) == []
    decreases |cs|
  {
    if cs != [] {
      assert forall c :: c in cs[..|cs| - 1] ==> c in cs;
      SilentCastsPost(date, meetingId, cs[..|cs| - 1]);
      assert cs[|cs| - 1] in cs;
    }
  }

  /** A meeting without a `Section3` division posts no vote activity. */
  lemma NoSection3NoPosts(notes: seq<Node>, items: set<nat>, find: string -> Option<Member>, date: Date, meetingId: int)
    requires VotePlan(notes, false, items, find).Ok?
    ensures CastsPosts(date, meetingId, VotePlan(notes, false, items, find).value) == []
  {
    NoSection3NoVoters(notes, items, find);
    SilentCastsPost(date, meetingId, VotePlan(notes, false, items, find).value);
  }

  // ---------------------------------------------------------------------
  // Finding the voters

  /** The list comprehension of `find_member` calls over a name list. */
  method FindMembers(session: ParliamentarySession, names: seq<string>) returns (r: seq<Option<Member>>)
    requires session.Valid()
    modifies session
    ensures session.Valid()
    ensures session.Loaded() == old(session.Loaded())
    ensures session.members == (if old(session.members) == [] && names != [] then session.roster else old(session.members))
    ensures session.membersDict == old(session.membersDict)
    ensures session.documents == old(session.documents) && session.questions == old(session.questions)
    ensures r == Voters(Finder(session.normalize, session.hasName, old(session.Loaded())), names)
  {
    ghost var find := Finder(session.normalize, session.hasName, old(session.Loaded()));
    r := [];
    var i := 0;
    while i < |names|
      invariant 0 <= i <= |names| && session.Valid()
      invariant session.Loaded() == old(session.Loaded())
      invariant session.members == (if old(session.members) == [] && i > 0 then session.roster else old(session.members))
      invariant session.membersDict == old(session.membersDict)
      invariant session.documents == old(session.documents) && session.questions == old(session.questions)
      invariant r == Voters(find, names[..i])
    {
      var m := session.FindMember(names[i]);
      assert session.members == session.Loaded() || session.members == [];
      r := r + [m];
      i := i + 1;
    }
    assert names[..i] == names;
  }

  /** One `set_*_voters` call with the members found for `names`. */
  method SetList(session: ParliamentarySession, v: NameVote, c: Choice, names: seq<string>, log: ActivityLog)
    returns (ok: bool, ghost l: seq<Option<Member>>)
    requires session.Valid()
    modifies session, v, log
    ensures session.Valid() && session.Loaded() == old(session.Loaded())
    ensures l == Voters(Finder(session.normalize, session.hasName, old(session.Loaded())), names)
    ensures ok <==> AllKnown(l)
    ensures v.CountOf(c) == |l| && v.VotersOf(c) == l
    ensures forall d :: d != c ==> v.CountOf(d) == old(v.CountOf(d)) && v.VotersOf(d) == old(v.VotersOf(d))
    ensures v.unsure == (old(v.unsure) || Off(l, old(v.CountOf(c))))
    ensures log.posted == old(log.posted) + ChoicePosts(v.ref, c, l)
  {
    var found := FindMembers(session, names);
    ok := v.SetVoters(c, found, log);
    l := found;
  }

  /**
   * The three `set_*_voters` calls of a vote with name lists, each with
   * the members found for its names; a name that finds no member raises
   * AttributeError when its vote activity is posted.
   */
  method SetLists(session: ParliamentarySession, v: NameVote, lists: NameLists, log: ActivityLog)
    returns (raised: Option<string>)
    requires session.Valid() && !v.unsure
    modifies session, v, log
    ensures session.Valid() && session.Loaded() == old(session.Loaded())
    ensures var r := Reconciled(v.number, v.groups, old(v.Counts()), Some(lists),
                                Finder(session.normalize, session.hasName, old(session.Loaded())));
      && (raised.Some? <==> r.Raised?)
      && (r.Raised? ==> raised == Some(r.error))
      && (raised.None? ==> r == Ok(Summary(v)))
    ensures log.posted == old(log.posted) + ListPosts(v.ref, lists, Finder(session.normalize, session.hasName, old(session.Loaded())))
  {
    ghost var find := Finder(session.normalize, session.hasName, session.Loaded());
    ghost var counts := v.Counts();
    ghost var posted := log.posted;
    ListPostsSteps(v.ref, lists, find);
    var ok, yes := SetList(session, v, Yes, lists.yes, log);
    assert v.CountOf(No) == counts.no && v.CountOf(Abstention) == counts.abstention;
    ghost var ys := ChoicePosts(v.ref, Yes, yes);
    assert log.posted == posted + ys;
    if !ok {
      ReconciledUnknown(v.number, v.groups, counts, lists, find);
      return Some("AttributeError");
    }
    ghost var no;
    ok, no := SetList(session, v, No, lists.no, log);
    assert v.CountOf(Yes) == |yes| && v.CountOf(Abstention) == counts.abstention && v.VotersOf(Yes) == yes;
    ghost var ns := ChoicePosts(v.ref, No, no);
    AppendAssoc(posted, ys, ns);
    if !ok {
      ReconciledUnknown(v.number, v.groups, counts, lists, find);
      return Some("AttributeError");
    }
    ghost var abstention;
    ok, abstention := SetList(session, v, Abstention, lists.abstention, log);
    assert v.CountOf(Yes) == |yes| && v.CountOf(No) == |no| && v.VotersOf(Yes) == yes && v.VotersOf(No) == no;
    AppendAssoc(posted, ys + ns, ChoicePosts(v.ref, Abstention, abstention));
    if !ok {
      ReconciledUnknown(v.number, v.groups, counts, lists, find);
      return Some("AttributeError");
    }
    ReconciledKnown(v.number, v.groups, counts, lists, find);
    raised := None;
  }

  /**
   * The vote with names of one table: a generic vote, or a vote by
   * language group when the table has its two halves, with the name
   * lists of the vote, if any, set; it is the ballot the dispatch reads.
   */
  method NewNameVote(session: ParliamentarySession, number: nat, ref: VoteRef, counts: Tally,
                     groups: Option<(Tally, Tally)>, lists: Option<NameLists>, log: ActivityLog)
    returns (raised: Option<string>, v: NameVote)
    requires session.Valid()
    requires groups.Some? ==> counts == Sum(groups.value.0, groups.value.1)
    modifies session, log
    ensures session.Valid() && session.Loaded() == old(session.Loaded())
    ensures fresh(v)
    ensures var r := Reconciled(number, groups, counts, lists,
                                Finder(session.normalize, session.hasName, old(session.Loaded())));
      && (raised.Some? <==> r.Raised?)
      && (r.Raised? ==> raised == Some(r.error))
      && (raised.None? ==> r == Ok(Summary(v)))
    ensures log.posted == old(log.posted) +
      if lists.None? then [] else ListPosts(ref, lists.value, Finder(session.normalize, session.hasName, old(session.Loaded())))
  {
    if groups.None? {
      v := new NameVote.Generic(number, ref, counts);
    } else {
      v := new NameVote.Group(number, ref, groups.value.0, groups.value.1);
    }
    if lists.Some? {
      raised := SetLists(session, v, lists.value, log);
    } else {
      raised := None;
    }
  }
}
