/**
 * The meeting itself: how one pass over the title paragraphs of its
 * notes cuts them into agenda items, how the items are created or
 * updated, and how the votes found in the notes are given to them.
 */
module MeetingNotes {
  import opened Base
  import opened Strings
  import Util
  import opened Common
  import opened Dom
  import opened Activity
  import opened Parliament
  import opened Meetings
  import opened MeetingVotes
  import opened VoteDispatch
  import Vote

  // ---------------------------------------------------------------------
  // The title paragraphs, popped from the end

  /**
   * `soup.find_all('p', {'class': c})` cut down to the nodes before `k`:
   * the stack `parse_topics` pops, in document order.
   */
  function TitlesBelow(notes: seq<Node>, k: nat, c: string): (r: seq<nat>)
    requires k <= |notes|
    ensures forall x :: x in r ==> x < k && HasClass(notes[x], c)
    decreases k
  {
    if k == 0 then []
    else TitlesBelow(notes, k - 1, c) + (if HasClass(notes[k - 1], c) then [k - 1] else [])
  }

  /** The top of the stack is the nearest title before `k`, and popping it leaves the titles before that one. */
  lemma {:induction false} TitlesBelowTop(notes: seq<Node>, k: nat, c: string)
    requires k <= |notes|
    ensures TitlesBelow(notes, k, c) == [] <==> PrevWithClass(notes, k, c).None?
    ensures TitlesBelow(notes, k, c) != [] ==>
      var t := TitlesBelow(notes, k, c);
      t[|t| - 1] == PrevWithClass(notes, k, c).value && t[..|t| - 1] == TitlesBelow(notes, t[|t| - 1], c)
    decreases k
  {
    if k == 0 {
      assert PrevWithClass(notes, k, c) == None;
    } else {
      var below := TitlesBelow(notes, k - 1, c);
      if HasClass(notes[k - 1], c) {
        assert PrevWithClass(notes, k, c) == Some(k - 1);
        assert TitlesBelow(notes, k, c) == below + [k - 1];
        assert (below + [k - 1])[..|below|] == below;
      } else {
        assert PrevWithClass(notes, k, c) == PrevWithClass(notes, k - 1, c);
        assert TitlesBelow(notes, k, c) == below;
        TitlesBelowTop(notes, k - 1, c);
      }
    }
  }

  // ---------------------------------------------------------------------
  // Merging the lines of one agenda item

  /** The cleaned text of a node. */
  function LineAt(notes: seq<Node>, j: nat, clean: string -> string): string
    requires j < |notes|
  {
    clean(Text(notes[j]))
  }

  /** The line starts with an item number: `re.match("([0-9]+) (.*)", line)` succeeds. */
  predicate NumberedAt(notes: seq<Node>, j: nat, clean: string -> string)
    requires j < |notes|
  {
    HasItemNumber(LineAt(notes, j, clean))
  }

  /** The cleaned lines of the nodes `a` to `b - 1`, each followed by a newline. */
  function Lines(notes: seq<Node>, a: nat, b: nat, clean: string -> string): string
    requires a <= b <= |notes|
    decreases b - a
  {
    if a == b then [] else LineAt(notes, a, clean) + "\n" + Lines(notes, a + 1, b, clean)
  }

  /**
   * The inner loop of `parse_topics` from title `j` down: while the line
   * is unnumbered, put it in front of the lines gathered so far and step
   * to the previous sibling if that is a title of the same class. The
   * result is where the loop stopped and the lines gathered; the first
   * node of the notes has no previous sibling, and asking for it raises
   * IndexError.
   */
  function Merge(notes: seq<Node>, j: nat, acc: string, c: string, clean: string -> string): (r: Outcome<(nat, string)>)
    requires j < |notes|
    ensures r.Ok? ==> r.value.0 <= j
    decreases j
  {
    if NumberedAt(notes, j, clean) then Ok((j, acc))
    else
      var gathered := LineAt(notes, j, clean) + "\n" + acc;
      if j == 0 then Raised("IndexError")
      else if !HasClass(notes[j - 1], c) then Ok((j, gathered))
      else Merge(notes, j - 1, gathered, c, clean)
  }

  /** The nodes `q` to `i` are titles of class `c` and all of them after `q` are unnumbered. */
  predicate Run(notes: seq<Node>, q: nat, i: nat, c: string, clean: string -> string)
    requires q <= i < |notes|
  {
    forall k :: q <= k <= i ==> HasClass(notes[k], c) && (k > q ==> !NumberedAt(notes, k, clean))
  }

  /**
   * What the merge loop does, started at title `i`: it stops at a
   * numbered title `q` having gathered the lines after it, or at an
   * unnumbered title `q` whose previous sibling is not a title, having
   * gathered the lines from `q` on; between the two every title is
   * unnumbered. It raises only when the titles reach back, unnumbered,
   * to the first node.
   */
  lemma {:induction false} MergeStops(notes: seq<Node>, i: nat, j: nat, acc: string, c: string, clean: string -> string)
    requires j <= i < |notes| && Run(notes, j, i, c, clean) && acc == Lines(notes, j + 1, i + 1, clean)
    ensures var r := Merge(notes, j, acc, c, clean);
      r.Ok? ==> (Run(notes, r.value.0, i, c, clean) &&
        if NumberedAt(notes, r.value.0, clean) then r.value.1 == Lines(notes, r.value.0 + 1, i + 1, clean)
        else r.value.0 > 0 && !HasClass(notes[r.value.0 - 1], c) && r.value.1 == Lines(notes, r.value.0, i + 1, clean))
    ensures var r := Merge(notes, j, acc, c, clean);
      r.Raised? ==> r.error == "IndexError" && Run(notes, 0, i, c, clean) && !NumberedAt(notes, 0, clean)
  {
    MergeStopsAt(notes, i, j, acc, c, clean);
    MergeRaises(notes, i, j, acc, c, clean);
    MergeGathers(notes, i, j, acc, c, clean);
  }

  /** Where the merge loop stops: the titles it passes are an unnumbered run. */
  lemma {:induction false} MergeStopsAt(notes: seq<Node>, i: nat, j: nat, acc: string, c: string, clean: string -> string)
    requires j <= i < |notes| && Run(notes, j, i, c, clean)
    ensures var r := Merge(notes, j, acc, c, clean);
      r.Ok? ==> (Run(notes, r.value.0, i, c, clean) &&
        (!NumberedAt(notes, r.value.0, clean) ==> r.value.0 > 0 && !HasClass(notes[r.value.0 - 1], c)))
    decreases j
  {
    if !NumberedAt(notes, j, clean) && j > 0 && HasClass(notes[j - 1], c) {
      RunBack(notes, j, i, c, clean);
      MergeStopsAt(notes, i, j - 1, LineAt(notes, j, clean) + "\n" + acc, c, clean);
    }
  }

  /** The merge loop raises only after an unnumbered run back to the first node. */
  lemma {:induction false} MergeRaises(notes: seq<Node>, i: nat, j: nat, acc: string, c: string, clean: string -> string)
    requires j <= i < |notes| && Run(notes, j, i, c, clean)
    ensures var r := Merge(notes, j, acc, c, clean);
      r.Raised? ==> r.error == "IndexError" && Run(notes, 0, i, c, clean) && !NumberedAt(notes, 0, clean)
    decreases j
  {
    if !NumberedAt(notes, j, clean) && j > 0 && HasClass(notes[j - 1], c) {
      RunBack(notes, j, i, c, clean);
      MergeRaises(notes, i, j - 1, LineAt(notes, j, clean) + "\n" + acc, c, clean);
    }
  }

  /** An unnumbered run grows back by one title of its class. */
  lemma RunBack(notes: seq<Node>, j: nat, i: nat, c: string, clean: string -> string)
    requires 0 < j <= i < |notes| && Run(notes, j, i, c, clean)
    requires !NumberedAt(notes, j, clean) && HasClass(notes[j - 1], c)
    ensures Run(notes, j - 1, i, c, clean)
  {
    forall k | j - 1 <= k <= i
      ensures HasClass(notes[k], c) && (k > j - 1 ==> !NumberedAt(notes, k, clean))
    {
      if k > j - 1 {
        assert j <= k <= i;
      }
    }
  }

  /** What the merge loop gathers: the lines after a numbered stop, or from an unnumbered one. */
  lemma {:induction false} MergeGathers(notes: seq<Node>, i: nat, j: nat, acc: string, c: string, clean: string -> string)
    requires j <= i < |notes| && acc == Lines(notes, j + 1, i + 1, clean)
    ensures var r := Merge(notes, j, acc, c, clean);
      r.Ok? ==> r.value.1 == Lines(notes, r.value.0 + if NumberedAt(notes, r.value.0, clean) then 1 else 0, i + 1, clean)
    decreases j
  {
    if NumberedAt(notes, j, clean) {
      assert Merge(notes, j, acc, c, clean) == Ok((j, acc));
    } else {
      var gathered := LineAt(notes, j, clean) + "\n" + acc;
      assert gathered == Lines(notes, j, i + 1, clean);
      if j > 0 && HasClass(notes[j - 1], c) {
        assert Merge(notes, j, acc, c, clean) == Merge(notes, j - 1, gathered, c, clean);
        MergeGathers(notes, i, j - 1, gathered, c, clean);
      }
    }
  }

  // ---------------------------------------------------------------------
  // The agenda items of one pass

  /** One agenda item as a pass finds it: its number, its title and its section. */
  datatype Segment = Segment(item: nat, title: string, section: string)

  /** The section of a title with no section paragraph above it. */
  function DefaultSection(language: Language): string {
    if language == NL then "Algemeen" else "Generale"
  }

  /** The cleaned text of the nearest section paragraph before `j`, or the default. */
  function SectionAbove(notes: seq<Node>, j: nat, language: Language, clean: string -> string): string
    requires j <= |notes|
  {
    match PrevWithClass(notes, j, SectionClass(language))
    case None => DefaultSection(language)
    case Some(s) => LineAt(notes, s, clean)
  }

  /**
   * The agenda item the merge loop's stop `q` gives, with the new counter:
   * a numbered line gives its number and its rest followed by the lines
   * gathered; an unnumbered one takes the counter plus one and only its
   * own line as title.
   */
  function SegmentAt(notes: seq<Node>, q: nat, acc: string, last: nat, language: Language, clean: string -> string)
    : (r: (Segment, nat))
    requires q < |notes|
    ensures r.0.item == r.1
    ensures r.0.section == SectionAbove(notes, q, language, clean)
  {
    var (item, title) :=
      match ItemNumber(LineAt(notes, q, clean))
      case None => (last + 1, LineAt(notes, q, clean))
      case Some(m) => (m.item, m.rest + "\n" + acc);
    (Segment(item, RStrip(title), SectionAbove(notes, q, language, clean)), item)
  }

  /** The agenda items of one pass below `cursor`, in the order they are found, and the error that ended it if any. */
  datatype Walk = Walk(segments: seq<Segment>, error: Option<string>)

  /**
   * `parse_topics(language)` on the titles before `cursor`, the
   * counter standing at `last`: pop the nearest title, skip it when its
   * cleaned text is empty or starts with '<', else merge and cut one
   * agenda item, and go on below where the merge stopped.
   */
  function WalkFrom(notes: seq<Node>, cursor: nat, last: nat, language: Language, clean: string -> string): Walk
    requires cursor <= |notes|
    decreases cursor
  {
    var c := TitleClass(language);
    match PrevWithClass(notes, cursor, c)
    case None => Walk([], None)
    case Some(i) =>
      var line := LineAt(notes, i, clean);
      if line == [] || line[0] == '<' then WalkFrom(notes, i, last, language, clean)
      else
        match Merge(notes, i, "", c, clean)
        case Raised(e) => Walk([], Some(e))
        case Ok((q, acc)) =>
          var (segment, next) := SegmentAt(notes, q, acc, last, language, clean);
          var rest := WalkFrom(notes, q, next, language, clean);
          Walk([segment] + rest.segments, rest.error)
  }

  /** A skipped title: the walk goes on below it with the same counter. */
  lemma WalkSkips(notes: seq<Node>, cursor: nat, i: nat, last: nat, language: Language, clean: string -> string)
    requires cursor <= |notes| && PrevWithClass(notes, cursor, TitleClass(language)) == Some(i)
    requires LineAt(notes, i, clean) == [] || LineAt(notes, i, clean)[0] == '<'
    ensures WalkFrom(notes, cursor, last, language, clean) == WalkFrom(notes, i, last, language, clean)
  {
  }

  /** A merge that stops at `q` gives one agenda item, and the walk goes on below `q` with the new counter. */
  lemma WalkCuts(notes: seq<Node>, cursor: nat, i: nat, last: nat, language: Language, clean: string -> string,
                 q: nat, acc: string, s: Segment, next: nat)
    requires cursor <= |notes| && PrevWithClass(notes, cursor, TitleClass(language)) == Some(i)
    requires LineAt(notes, i, clean) != [] && LineAt(notes, i, clean)[0] != '<'
    requires Merge(notes, i, "", TitleClass(language), clean) == Ok((q, acc))
    requires q < |notes| && SegmentAt(notes, q, acc, last, language, clean) == (s, next)
    ensures var rest := WalkFrom(notes, q, next, language, clean);
      WalkFrom(notes, cursor, last, language, clean) == Walk([s] + rest.segments, rest.error)
  {
  }

  /**
   * The agenda item the title `i` on top of the stack ends: merge the run
   * of titles and cut the item. The walk below `cursor` starts with that
   * item and goes on below the stop `q` with the new counter; the merge
   * raising is the only error.
   */
  method CutAt(notes: seq<Node>, ghost cursor: nat, i: nat, titles: seq<nat>, last: nat, language: Language,
               clean: string -> string)
    returns (raised: Option<string>, q: nat, rest: seq<nat>, next: nat, s: Segment)
    requires cursor <= |notes| && PrevWithClass(notes, cursor, TitleClass(language)) == Some(i)
    requires LineAt(notes, i, clean) != [] && LineAt(notes, i, clean)[0] != '<'
    requires titles == TitlesBelow(notes, i, TitleClass(language))
    ensures raised.Some? <==> Merge(notes, i, "", TitleClass(language), clean).Raised?
    ensures raised.None? ==> q <= i && rest == TitlesBelow(notes, q, TitleClass(language))
    ensures raised.None? ==> var later := WalkFrom(notes, q, next, language, clean);
      WalkFrom(notes, cursor, last, language, clean) == Walk([s] + later.segments, later.error)
  {
    var c := TitleClass(language);
    var r;
    r, rest := MergeRun(notes, titles, i, c, clean);
    if r.Raised? {
      return Some(r.error), i, rest, last, Segment(0, [], []);
    }
    var acc;
    q, acc := r.value.0, r.value.1;
    s, next := SegmentAt(notes, q, acc, last, language, clean).0, SegmentAt(notes, q, acc, last, language, clean).1;
    WalkCuts(notes, cursor, i, last, language, clean, q, acc, s, next);
    raised := None;
  }

  /** A whole pass: every title, the counter seeded at 1. */
  function Pass(notes: seq<Node>, language: Language, clean: string -> string): Walk {
    WalkFrom(notes, |notes|, 1, language, clean)
  }

  // ---------------------------------------------------------------------
  // What a pass does to the agenda items

  /** A `MeetingTopic` just made: no titles, no sections, the general type. */
  function Untitled(): Header {
    Header(None, None, None, None, General)
  }

  /** `set_title` and `set_section` in one language. */
  function Retitled(h: Header, language: Language, s: Segment): (r: Header)
    ensures r.topicType == h.topicType
  {
    if language == NL then h.(titleNL := Some(s.title), sectionNL := Some(s.section))
    else h.(titleFR := Some(s.title), sectionFR := Some(s.section))
  }

  /** `complete_type()` on the header: the classifier on the Dutch title and section, AttributeError if either is absent. */
  function Typed(h: Header, classify: (string, string) -> TopicType): (r: Outcome<Header>)
    ensures r.Raised? <==> h.titleNL.None? || h.sectionNL.None?
    ensures r.Ok? ==> r.value == h.(topicType := classify(h.titleNL.value, h.sectionNL.value))
  {
    if h.titleNL.None? || h.sectionNL.None? then Raised("AttributeError")
    else Ok(h.(topicType := classify(h.titleNL.value, h.sectionNL.value)))
  }

  /** The header's title and section in one language. */
  function TitleOf(h: Header, language: Language): Option<string> {
    if language == NL then h.titleNL else h.titleFR
  }

  function SectionOf(h: Header, language: Language): Option<string> {
    if language == NL then h.sectionNL else h.sectionFR
  }

  /** The type agrees with the classifier on the Dutch title and section. */
  predicate Classified(h: Header, classify: (string, string) -> TopicType) {
    h.titleNL.Some? && h.sectionNL.Some? && h.topicType == classify(h.titleNL.value, h.sectionNL.value)
  }

  /**
   * One agenda item of a pass: the item of its number, made when it is
   * new, gets the title and section, then its type.
   */
  function ApplyTo(view: map<nat, Header>, s: Segment, language: Language, classify: (string, string) -> TopicType)
    : Outcome<map<nat, Header>>
  {
    var h := if s.item in view then view[s.item] else Untitled();
    match Typed(Retitled(h, language, s), classify)
    case Raised(e) => Raised(e)
    case Ok(h') => Ok(view[s.item := h'])
  }

  /** The agenda items of a pass, applied in the order they are found; the first that raises ends it. */
  function Applied(view: map<nat, Header>, segments: seq<Segment>, language: Language,
                   classify: (string, string) -> TopicType)
    : Outcome<map<nat, Header>>
    decreases |segments|
  {
    if segments == [] then Ok(view)
    else
      match Applied(view, segments[..|segments| - 1], language, classify)
      case Raised(e) => Raised(e)
      case Ok(v) => ApplyTo(v, segments[|segments| - 1], language, classify)
  }

  /** Applying one more agenda item. */
  lemma AppliedSnoc(view: map<nat, Header>, segments: seq<Segment>, s: Segment, language: Language,
                    classify: (string, string) -> TopicType)
    ensures Applied(view, segments + [s], language, classify) ==
      match Applied(view, segments, language, classify)
      case Raised(e) => Raised(e)
      case Ok(v) => ApplyTo(v, s, language, classify)
  {
    assert (segments + [s])[..|segments|] == segments;
  }

  /** The numbers of the agenda items of a pass. */
  function Items(segments: seq<Segment>): set<nat> {
    set s | s in segments :: s.item
  }

  /** After a pass the items are those before it and those of the pass. */
  lemma {:induction false} AppliedKeys(view: map<nat, Header>, segments: seq<Segment>, language: Language,
                                       classify: (string, string) -> TopicType)
    requires Applied(view, segments, language, classify).Ok?
    ensures Applied(view, segments, language, classify).value.Keys == view.Keys + Items(segments)
    decreases |segments|
  {
    if segments != [] {
      var init := segments[..|segments| - 1];
      var last := segments[|segments| - 1];
      AppliedKeys(view, init, language, classify);
      ItemsSnoc(init, last);
      assert segments == init + [last];
    }
  }

  lemma ItemsSnoc(segments: seq<Segment>, s: Segment)
    ensures Items(segments + [s]) == Items(segments) + {s.item}
  {
    assert forall x :: x in segments + [s] <==> x in segments || x == s;
  }

  /** The Dutch pass sets the Dutch title and section before the type, so its own updates never raise. */
  lemma {:induction false} DutchPassApplies(view: map<nat, Header>, segments: seq<Segment>, classify: (string, string) -> TopicType)
    ensures Applied(view, segments, NL, classify).Ok?
    decreases |segments|
  {
    if segments != [] {
      DutchPassApplies(view, segments[..|segments| - 1], classify);
    }
  }

  /**
   * The French pass leaves the Dutch half of every item as it was, and a
   * classified item keeps its type; it raises AttributeError on an item
   * the Dutch pass did not make.
   */
  lemma {:induction false} FrenchPassKeepsDutch(view: map<nat, Header>, segments: seq<Segment>,
                                                classify: (string, string) -> TopicType)
    requires Applied(view, segments, FR, classify).Ok?
    ensures forall s :: s in segments ==> s.item in view
    ensures var m := Applied(view, segments, FR, classify).value;
      forall k :: k in view ==> (k in m && m[k].titleNL == view[k].titleNL && m[k].sectionNL == view[k].sectionNL &&
        (Classified(view[k], classify) ==> m[k].topicType == view[k].topicType))
    decreases |segments|
  {
    if segments != [] {
      var init := segments[..|segments| - 1];
      var last := segments[|segments| - 1];
      FrenchPassKeepsDutch(view, init, classify);
      AppliedKeys(view, init, FR, classify);
      var v := Applied(view, init, FR, classify).value;
      assert v.Keys == view.Keys;
      assert last.item in v;
      var h := Retitled(v[last.item], FR, last);
      assert Applied(view, segments, FR, classify).value == v[last.item := Typed(h, classify).value];
      assert segments == init + [last];
    }
  }

  /** A French item whose number the Dutch pass never made raises AttributeError. */
  lemma FrenchOnlyRaises(view: map<nat, Header>, s: Segment, classify: (string, string) -> TopicType)
    requires s.item !in view
    ensures ApplyTo(view, s, FR, classify) == Raised("AttributeError")
  {
  }

  /** The last agenda item of the pass with number `k`, if any. */
  function LastFor(segments: seq<Segment>, k: nat): (r: Option<Segment>)
    ensures r.Some? ==> r.value in segments && r.value.item == k
    ensures r.None? <==> k !in Items(segments)
    decreases |segments|
  {
    if segments == [] then None
    else if segments[|segments| - 1].item == k then Some(segments[|segments| - 1])
    else
      var r := LastFor(segments[..|segments| - 1], k);
      assert Items(segments) == Items(segments[..|segments| - 1]) + {segments[|segments| - 1].item};
      r
  }

  /**
   * The last agenda item with a number decides its title and section in
   * the pass's language, and the item ends classified; an item the pass
   * does not reach keeps its header.
   */
  lemma {:induction false} AppliedLastWins(view: map<nat, Header>, segments: seq<Segment>, language: Language, k: nat,
                                           classify: (string, string) -> TopicType)
    requires Applied(view, segments, language, classify).Ok? && k in Applied(view, segments, language, classify).value
    ensures var h := Applied(view, segments, language, classify).value[k];
      match LastFor(segments, k)
      case None => k in view && h == view[k]
      case Some(s) => TitleOf(h, language) == Some(s.title) && SectionOf(h, language) == Some(s.section) && Classified(h, classify)
    decreases |segments|
  {
    if segments != [] {
      var init := segments[..|segments| - 1];
      var v := Applied(view, init, language, classify).value;
      var last := segments[|segments| - 1];
      if last.item != k {
        AppliedLastWins(view, init, language, k, classify);
      }
    }
  }

  // ---------------------------------------------------------------------
  // Members named in a title

  /** The members whose normalised name occurs in `title`, in roster order. */
  function Mentioned(members: seq<Member>, title: string, nameOf: Member -> string): (r: seq<Member>)
    ensures |r| <= |members|
    decreases |members|
  {
    if members == [] then []
    else
      var last := members[|members| - 1];
      Mentioned(members[..|members| - 1], title, nameOf) + (if Contains(title, nameOf(last)) then [last] else [])
  }

  /** A member is mentioned exactly when it is on the roster and its name occurs in the title. */
  lemma {:induction false} MentionedIff(members: seq<Member>, title: string, nameOf: Member -> string, m: Member)
    ensures m in Mentioned(members, title, nameOf) <==> m in members && Contains(title, nameOf(m))
    decreases |members|
  {
    if members != [] {
      var init := members[..|members| - 1];
      MentionedIff(init, title, nameOf, m);
      assert members == init + [members[|members| - 1]];
    }
  }

  /** One more member of the roster is looked at. */
  lemma MentionedNext(members: seq<Member>, i: nat, title: string, nameOf: Member -> string)
    requires i < |members|
    ensures Mentioned(members[..i + 1], title, nameOf) ==
      Mentioned(members[..i], title, nameOf) + (if Contains(title, nameOf(members[i])) then [members[i]] else [])
  {
    assert members[..i + 1][..i] == members[..i];
  }

  /**
   * The mention loop of the Dutch pass: one `TopicActivity` per member
   * whose normalised name occurs in the normalised title, in roster order.
   */
  method PostMentions(members: seq<Member>, title: string, nameOf: Member -> string,
                      date: Date, meetingId: int, item: int, log: ActivityLog)
    modifies log
    ensures log.posted == old(log.posted) + Posts(Mentioned(members, title, nameOf), date, TopicMention(TopicUri(meetingId, item)))
  {
    ghost var kind := TopicMention(TopicUri(meetingId, item));
    var i := 0;
    while i < |members|
      invariant 0 <= i <= |members|
      invariant log.posted == old(log.posted) + Posts(Mentioned(members[..i], title, nameOf), date, kind)
    {
      MentionedNext(members, i, title, nameOf);
      ghost var sofar := Mentioned(members[..i], title, nameOf);
      if Contains(title, nameOf(members[i])) {
        PostsAppend(sofar, members[i], date, kind);
        log.Post(NewTopicActivity(members[i], date, meetingId, item));
        assert Mentioned(members[..i + 1], title, nameOf) == sofar + [members[i]];
      } else {
        assert sofar + [] == sofar;
      }
      i := i + 1;
    }
    assert members[..i] == members;
  }

  // ---------------------------------------------------------------------
  // The merge loop

  /**
   * The inner loop of `parse_topics`, popping the titles of a run from
   * the stack: where it stopped and the lines it gathered, exactly as
   * `Merge` says.
   */
  method MergeRun(notes: seq<Node>, titles: seq<nat>, top: nat, c: string, clean: string -> string)
    returns (r: Outcome<(nat, string)>, rest: seq<nat>)
    requires top < |notes| && titles == TitlesBelow(notes, top, c)
    ensures r == Merge(notes, top, "", c, clean)
    ensures r.Ok? ==> rest == TitlesBelow(notes, r.value.0, c)
  {
    var item: nat := top;
    var currentTitle := "";
    rest := titles;
    while ItemNumber(clean(Text(notes[item]))).None?
      invariant item <= top && rest == TitlesBelow(notes, item, c)
      invariant Merge(notes, top, "", c, clean) == Merge(notes, item, currentTitle, c, clean)
      decreases item
    {
      currentTitle := clean(Text(notes[item])) + "\n" + currentTitle;
      if item == 0 {
        return Raised("IndexError"), rest;
      }
      if !HasClass(notes[item - 1], c) {
        return Ok((item, currentTitle)), rest;
      }
      TitlesBelowTop(notes, item, c);
      item := rest[|rest| - 1];
      rest := rest[..|rest| - 1];
    }
    r := Ok((item, currentTitle));
  }

  // ---------------------------------------------------------------------
  // What a pass posts

  /** What the mention loop reads of the meeting: the roster, the two normalisations, the date and the id. */
  datatype Mentioning = Mentioning(members: seq<Member>, normalize: string -> string, nameOf: Member -> string,
                                   date: Date, meetingId: int)

  /**
   * The topic activities a pass posts for the agenda item `s`: in the
   * Dutch pass one per roster member whose name occurs in the lower-cased,
   * normalised title, in roster order; none in the French pass.
   */
  function SegmentMentions(language: Language, m: Mentioning, s: Segment): seq<Activity> {
    if language == FR then []
    else Posts(Mentioned(m.members, m.normalize(Lower(s.title)), m.nameOf), m.date, TopicMention(TopicUri(m.meetingId, s.item)))
  }

  /**
   * What a pass posts for the agenda items `segments`, in the order it
   * applies them: for each, what completing its type loaded (`loads`),
   * then its mentions.
   */
  function PassPosts(language: Language, m: Mentioning, segments: seq<Segment>, loads: seq<seq<Activity>>): seq<Activity>
    requires |loads| == |segments|
    decreases |segments|
  {
    if segments == [] then []
    else
      var n := |segments| - 1;
      PassPosts(language, m, segments[..n], loads[..n]) + loads[n] + SegmentMentions(language, m, segments[n])
  }

  /** Every activity of `loads` is a document or question load. */
  ghost predicate AllLoads(loads: seq<seq<Activity>>) {
    forall k, a :: 0 <= k < |loads| && a in loads[k] ==> LoadActivity(a)
  }

  /** One more agenda item posts its loads, then its mentions, after what the items before it posted. */
  lemma PassPostsSnoc(language: Language, m: Mentioning, segments: seq<Segment>, loads: seq<seq<Activity>>,
                      s: Segment, load: seq<Activity>)
    requires |loads| == |segments|
    ensures PassPosts(language, m, segments + [s], loads + [load]) ==
      PassPosts(language, m, segments, loads) + load + SegmentMentions(language, m, s)
  {
    assert (segments + [s])[..|segments|] == segments;
    assert (loads + [load])[..|loads|] == loads;
  }

  /** The log after one more agenda item is the log of the pass with that item added. */
  lemma PassPostsStep(language: Language, m: Mentioning, segments: seq<Segment>, loads: seq<seq<Activity>>,
                      s: Segment, load: seq<Activity>, base: seq<Activity>)
    requires |loads| == |segments| && AllLoads(loads) && forall a :: a in load ==> LoadActivity(a)
    ensures AllLoads(loads + [load])
    ensures base + PassPosts(language, m, segments, loads) + load + SegmentMentions(language, m, s) ==
      base + PassPosts(language, m, segments + [s], loads + [load])
  {
    PassPostsSnoc(language, m, segments, loads, s, load);
    var before := PassPosts(language, m, segments, loads);
    AppendAssoc(base, before, load);
    AppendAssoc(base, before + load, SegmentMentions(language, m, s));
    forall k, a | 0 <= k < |loads + [load]| && a in (loads + [load])[k]
      ensures LoadActivity(a)
    {
      if k < |loads| {
        assert (loads + [load])[k] == loads[k];
      }
    }
  }

  /**
   * An activity of the Dutch pass naming `a.member`: dated on the meeting,
   * for a roster member whose name occurs in the normalised title of an
   * agenda item with that activity's URI.
   */
  ghost predicate TitleMention(language: Language, m: Mentioning, segments: seq<Segment>, a: Activity) {
    && language == NL && a.date == m.date && a.member in m.members
    && exists s :: s in segments && a.kind == TopicMention(TopicUri(m.meetingId, s.item)) &&
                   Contains(m.normalize(Lower(s.title)), m.nameOf(a.member))
  }

  /**
   * What a pass posts are loads and mentions only: every topic activity
   * is dated on the meeting, is posted in the Dutch pass, and names a
   * roster member whose name occurs in the normalised title of an agenda
   * item with that activity's URI.
   */
  lemma {:induction false} PassPostsMentions(language: Language, m: Mentioning, segments: seq<Segment>,
                                             loads: seq<seq<Activity>>)
    requires |loads| == |segments| && AllLoads(loads)
    ensures forall a :: a in PassPosts(language, m, segments, loads) ==> LoadActivity(a) || TitleMention(language, m, segments, a)
    decreases |segments|
  {
    if segments != [] {
      var n := |segments| - 1;
      var s := segments[n];
      var prev := PassPosts(language, m, segments[..n], loads[..n]);
      var mention := SegmentMentions(language, m, s);
      assert PassPosts(language, m, segments, loads) == prev + loads[n] + mention;
      assert AllLoads(loads[..n]) by {
        forall k, a | 0 <= k < n && a in loads[..n][k]
          ensures LoadActivity(a)
        {
          assert loads[..n][k] == loads[k];
        }
      }
      PassPostsMentions(language, m, segments[..n], loads[..n]);
      forall a | a in prev + loads[n] + mention
        ensures LoadActivity(a) || TitleMention(language, m, segments, a)
      {
        if a in prev {
          if !LoadActivity(a) {
            var t :| t in segments[..n] && a.kind == TopicMention(TopicUri(m.meetingId, t.item)) &&
                     Contains(m.normalize(Lower(t.title)), m.nameOf(a.member));
            assert t in segments;
          }
        } else if a !in loads[n] {
          assert language == NL && a in mention;
          var title := m.normalize(Lower(s.title));
          var named := Mentioned(m.members, title, m.nameOf);
          PostsKinds(named, m.date, TopicMention(TopicUri(m.meetingId, s.item)));
          MentionedIff(m.members, title, m.nameOf, a.member);
          assert s in segments;
        }
      }
    }
  }

  /**
   * What the pass does to the item object of one agenda item: set the
   * title and section, complete the type, and in the Dutch pass post a
   * `TopicActivity` for every member named in the title.
   */
  method RetitleTopic(topic: MeetingTopic, s: Segment, language: Language, nameOf: Member -> string,
                      web: Web, log: ActivityLog) returns (raised: Option<string>)
    requires topic.session.Valid() && topic.item == s.item
    modifies topic, topic.session, log
    ensures topic.session.Valid() && topic.session.Loaded() == old(topic.session.Loaded())
    ensures topic.votes == old(topic.votes)
    ensures raised.None? ==> Typed(Retitled(old(topic.Head()), language, s), Classify) == Ok(topic.Head())
    ensures Typed(Retitled(old(topic.Head()), language, s), Classify).Raised? ==> raised.Some?
    ensures raised.None? ==>
      log.posted == old(log.posted) + topic.LinkPosts(old(topic.session.documents).Keys, old(topic.session.questions).Keys) +
        SegmentMentions(language, Mentioning(topic.session.Loaded(), topic.session.normalize, nameOf, topic.meetingDate,
                                             topic.meetingId), s)
    ensures old(log.posted) <= log.posted
  {
    topic.SetTitle(language, s.title);
    topic.SetSection(language, s.section);
    assert topic.Head() == Retitled(old(topic.Head()), language, s);
    raised := topic.CompleteType(None, web, log);
    if raised.Some? {
      return;
    }
    ghost var loaded := log.posted;
    if language == NL {
      var session := topic.session;
      var title := session.normalize(Lower(s.title));
      var members := session.GetMembers();
      PostMentions(members, title, nameOf, topic.meetingDate, topic.meetingId, topic.item, log);
    } else {
      assert log.posted == loaded + [];
    }
  }

  /** A map that differs from `m` only at `k`, where it holds `v`, is `m[k := v]`. */
  lemma MapUpdated<V>(after: map<nat, V>, m: map<nat, V>, k: nat, v: V)
    requires after.Keys == m.Keys + {k} && k in after && after[k] == v
    requires forall j :: j in after && j != k ==> after[j] == m[j]
    ensures after == m[k := v]
  {
  }

  /** `a + ([s] + b)` is `(a + [s]) + b`. */
  lemma Regrouped<T>(a: seq<T>, s: T, b: seq<T>)
    ensures a + ([s] + b) == (a + [s]) + b
  {
  }

  /** Writing a key twice keeps the second value. */
  lemma UpdatedTwice<V>(m: map<nat, V>, k: nat, a: V, b: V)
    ensures m[k := a][k := b] == m[k := b]
  {
  }

  // ---------------------------------------------------------------------
  // The whole agenda

  /**
   * What `get_meeting_topics` makes of the notes: the Dutch pass on no
   * items, then the French pass on the items the Dutch pass made; the
   * headers of the items, or the first error.
   */
  function Agenda(notes: seq<Node>, clean: string -> string): Outcome<map<nat, Header>> {
    var nl := Pass(notes, NL, clean);
    if nl.error.Some? then Raised(nl.error.value)
    else
      match Applied(map[], nl.segments, NL, Classify)
      case Raised(e) => Raised(e)
      case Ok(h) =>
        var fr := Pass(notes, FR, clean);
        if fr.error.Some? then Raised(fr.error.value) else Applied(h, fr.segments, FR, Classify)
  }

  /**
   * The items of the agenda are those the Dutch pass cuts, and every item
   * the French pass cuts is one of them.
   */
  lemma AgendaItems(notes: seq<Node>, clean: string -> string)
    requires Agenda(notes, clean).Ok?
    ensures Agenda(notes, clean).value.Keys == Items(Pass(notes, NL, clean).segments)
    ensures Items(Pass(notes, FR, clean).segments) <= Agenda(notes, clean).value.Keys
  {
    var nl := Pass(notes, NL, clean).segments;
    var fr := Pass(notes, FR, clean).segments;
    AppliedKeys(map[], nl, NL, Classify);
    var h := Applied(map[], nl, NL, Classify).value;
    FrenchPassKeepsDutch(h, fr, Classify);
    AppliedKeys(h, fr, FR, Classify);
  }

  // ---------------------------------------------------------------------
  // The votes of the items

  /** A vote object given to an item is the ballot the dispatch made. */
  ghost predicate Carried(tv: TopicVote, b: Ballot)
    reads if tv.Named? then {tv.vote} else {}
  {
    match tv
    case Named(v) => Summary(v) == b
    case Electronic(e) => b == Counted(e)
  }

  /** The vote objects `vs`, made as `made`, are the ballots `bs`, one for one. */
  ghost predicate Carries(vs: seq<TopicVote>, bs: seq<Ballot>, made: set<Vote.NameVote>)
    reads made
  {
    && |vs| == |bs|
    && forall i :: 0 <= i < |vs| ==> (vs[i].Named? ==> vs[i].vote in made) && Carried(vs[i], bs[i])
  }

  lemma CarriesSnoc(vs: seq<TopicVote>, bs: seq<Ballot>, made: set<Vote.NameVote>, tv: TopicVote, b: Ballot,
                    made': set<Vote.NameVote>)
    requires Carries(vs, bs, made) && Carried(tv, b) && made <= made' && (tv.Named? ==> tv.vote in made')
    ensures Carries(vs + [tv], bs + [b], made')
  {
    assert forall i :: 0 <= i < |vs| ==> (vs + [tv])[i] == vs[i] && (bs + [b])[i] == bs[i];
  }

  lemma CarriesGrow(vs: seq<TopicVote>, bs: seq<Ballot>, made: set<Vote.NameVote>, made': set<Vote.NameVote>)
    requires Carries(vs, bs, made) && made <= made'
    ensures Carries(vs, bs, made')
  {
  }

  /** The votes `vs` of an item are the votes `pre` it had, followed by vote objects carrying the ballots `bs`. */
  ghost predicate Extended(pre: seq<TopicVote>, vs: seq<TopicVote>, bs: seq<Ballot>, made: set<Vote.NameVote>)
    reads made
  {
    |pre| <= |vs| && vs[..|pre|] == pre && Carries(vs[|pre|..], bs, made)
  }

  lemma ExtendedSnoc(pre: seq<TopicVote>, vs: seq<TopicVote>, bs: seq<Ballot>, made: set<Vote.NameVote>,
                     tv: TopicVote, b: Ballot, made': set<Vote.NameVote>)
    requires Extended(pre, vs, bs, made) && Carried(tv, b) && made <= made' && (tv.Named? ==> tv.vote in made')
    ensures Extended(pre, vs + [tv], bs + [b], made')
  {
    assert (vs + [tv])[..|pre|] == vs[..|pre|];
    assert (vs + [tv])[|pre|..] == vs[|pre|..] + [tv];
    CarriesSnoc(vs[|pre|..], bs, made, tv, b, made');
  }

  lemma ExtendedGrow(pre: seq<TopicVote>, vs: seq<TopicVote>, bs: seq<Ballot>, made: set<Vote.NameVote>,
                     made': set<Vote.NameVote>)
    requires Extended(pre, vs, bs, made) && made <= made'
    ensures Extended(pre, vs, bs, made')
  {
    CarriesGrow(vs[|pre|..], bs, made, made');
  }

  // ---------------------------------------------------------------------
  // The meeting

  /**
   * `Meeting`: its session, number, time of day and date, its notes (the
   * page `__get_soup` fetches, as a flat sequence of nodes, and whether it
   * has a `Section3` division) and its agenda items by number.
   */
  class Meeting {
    const session: ParliamentarySession
    const id: int
    const timeOfDay: TimeOfDay
    const date: Date
    const notes: seq<Node>
    const hasSection3: bool
    /** `Member.normalized_name` */
    const nameOf: Member -> string
    var topics: map<nat, MeetingTopic>
    /** The item objects, made by this meeting. */
    ghost var Repr: set<MeetingTopic>

    constructor (session: ParliamentarySession, id: int, timeOfDay: TimeOfDay, date: Date,
                 notes: seq<Node>, hasSection3: bool, nameOf: Member -> string)
      ensures this.session == session && this.id == id && this.timeOfDay == timeOfDay && this.date == date
      ensures this.notes == notes && this.hasSection3 == hasSection3 && this.nameOf == nameOf
      ensures topics == map[] && Valid()
    {
      this.session := session;
      this.id := id;
      this.timeOfDay := timeOfDay;
      this.date := date;
      this.notes := notes;
      this.hasSection3 := hasSection3;
      this.nameOf := nameOf;
      topics := map[];
      Repr := {};
    }

    /** Every item belongs to this meeting under its own number, and no object serves two numbers. */
    ghost predicate Valid()
      reads this
    {
      && (forall k :: k in topics ==>
            topics[k] in Repr && topics[k].session == session && topics[k].meetingId == id &&
            topics[k].meetingDate == date && topics[k].item == k)
      && (forall a, b :: a in topics && b in topics && a != b ==> topics[a] != topics[b])
    }

    /** The titles, sections and types of the items. */
    ghost function Heads(): map<nat, Header>
      requires Valid()
      reads this, Repr
    {
      map k | k in topics :: topics[k].Head()
    }

    /** No item has a vote yet. */
    ghost predicate Unvoted()
      reads this, Repr
    {
      forall k :: k in topics ==> topics[k] in Repr && topics[k].votes == []
    }

    /** What the mention loop of this meeting reads. */
    ghost function Mentions(): Mentioning
      reads session
    {
      Mentioning(session.Loaded(), session.normalize, nameOf, date, id)
    }

    /** `self.topics[item]`, made first when the number is new. */
    method TopicFor(item: nat) returns (topic: MeetingTopic)
      requires Valid()
      modifies this
      ensures Valid()
      ensures topics == old(topics)[item := topic] && topic in Repr && topic.session == session
      ensures item in old(topics) ==> topic == old(topics[item]) && Repr == old(Repr)
      ensures item !in old(topics) ==> fresh(topic) && topic.Head() == Untitled() && Repr == old(Repr) + {topic}
      ensures Heads() == old(Heads())[item := topic.Head()]
      ensures old(Unvoted()) ==> Unvoted()
    {
      if item !in topics {
        topic := new MeetingTopic(session, id, date, item);
        topics := topics[item := topic];
        Repr := Repr + {topic};
      } else {
        topic := topics[item];
      }
    }

    /** Retitling the object of one item changes the headers at that number only. */
    method RetitleItem(topic: MeetingTopic, s: Segment, language: Language, web: Web, log: ActivityLog)
      returns (raised: Option<string>)
      requires Valid() && session.Valid() && s.item in topics && topics[s.item] == topic
      modifies topic, session, log
      ensures Valid() && session.Valid()
      ensures Heads() == old(Heads())[s.item := topic.Head()]
      ensures session.Loaded() == old(session.Loaded()) && (old(Unvoted()) ==> Unvoted())
      ensures raised.None? ==> Typed(Retitled(old(topic.Head()), language, s), Classify) == Ok(topic.Head())
      ensures Typed(Retitled(old(topic.Head()), language, s), Classify).Raised? ==> raised.Some?
      ensures raised.None? ==>
        log.posted == old(log.posted) + topic.LinkPosts(old(session.documents).Keys, old(session.questions).Keys) +
          SegmentMentions(language, Mentions(), s)
      ensures old(log.posted) <= log.posted
    {
      ghost var before := Heads();
      raised := RetitleTopic(topic, s, language, nameOf, web, log);
      forall k | k in topics && k != s.item
        ensures topics[k].Head() == before[k]
      {
        assert topics[k] != topic;
      }
      ghost var after := Heads();
      assert after.Keys == topics.Keys;
      MapUpdated(after, before, s.item, topic.Head());
    }

    /**
     * The body of the pass for one agenda item: make the item when its
     * number is new, set the title and section, complete the type, and in
     * the Dutch pass post a `TopicActivity` for every member named in the
     * title. `load` is what completing the type loaded.
     */
    method ApplySegment(s: Segment, language: Language, web: Web, log: ActivityLog)
      returns (raised: Option<string>, ghost load: seq<Activity>)
      requires Valid() && session.Valid()
      modifies this, Repr, session, log
      ensures Valid() && session.Valid()
      ensures s.item in topics && topics == old(topics)[s.item := topics[s.item]]
      ensures session.Loaded() == old(session.Loaded()) && (old(Unvoted()) ==> Unvoted())
      ensures old(Repr) <= Repr && fresh(Repr - old(Repr))
      ensures raised.None? ==> ApplyTo(old(Heads()), s, language, Classify) == Ok(Heads())
      ensures ApplyTo(old(Heads()), s, language, Classify).Raised? ==> raised.Some?
      ensures raised.None? ==>
        && load == topics[s.item].LinkPosts(old(session.documents).Keys, old(session.questions).Keys)
        && (forall a :: a in load ==> LoadActivity(a))
        && log.posted == old(log.posted) + load + SegmentMentions(language, Mentions(), s)
    {
      ghost var before := Heads();
      var topic := TopicFor(s.item);
      ghost var first := topic.Head();
      assert first == if s.item in before then before[s.item] else Untitled();
      raised := RetitleItem(topic, s, language, web, log);
      load := topic.LinkPosts(old(session.documents).Keys, old(session.questions).Keys);
      topic.LinkPostsAreLoads(old(session.documents).Keys, old(session.questions).Keys);
      if raised.None? {
        UpdatedTwice(before, s.item, first, topic.Head());
      }
    }

    /**
     * One turn of the outer loop of `parse_topics` for the title `i` on top
     * of the stack: merge the run of titles it ends, cut the agenda item
     * and apply it. When nothing raises, the walk below `cursor` starts
     * with that item and goes on below the stop `q` with the new counter.
     */
    method CutItem(ghost cursor: nat, i: nat, titles: seq<nat>, last: nat, language: Language,
                   clean: string -> string, web: Web, log: ActivityLog)
      returns (raised: Option<string>, q: nat, rest: seq<nat>, next: nat, s: Segment, ghost load: seq<Activity>)
      requires Valid() && session.Valid()
      requires cursor <= |notes| && PrevWithClass(notes, cursor, TitleClass(language)) == Some(i)
      requires LineAt(notes, i, clean) != [] && LineAt(notes, i, clean)[0] != '<'
      requires titles == TitlesBelow(notes, i, TitleClass(language))
      modifies this, Repr, session, log
      ensures Valid() && session.Valid()
      ensures old(Repr) <= Repr && fresh(Repr - old(Repr))
      ensures session.Loaded() == old(session.Loaded()) && (old(Unvoted()) ==> Unvoted())
      ensures raised.None? ==> q <= i && rest == TitlesBelow(notes, q, TitleClass(language))
      ensures raised.None? ==> var later := WalkFrom(notes, q, next, language, clean);
        WalkFrom(notes, cursor, last, language, clean) == Walk([s] + later.segments, later.error)
      ensures raised.None? ==> ApplyTo(old(Heads()), s, language, Classify) == Ok(Heads())
      ensures raised.None? ==>
        (forall a :: a in load ==> LoadActivity(a)) && log.posted == old(log.posted) + load + SegmentMentions(language, Mentions(), s)
    {
      raised, q, rest, next, s := CutAt(notes, cursor, i, titles, last, language, clean);
      HeadsKept();
      load := [];
      if raised.None? {
        raised, load := ApplySegment(s, language, web, log);
      }
    }

    /**
     * Where a pass stands between two turns of its outer loop: the stack
     * holds the titles before `cursor`, the items `done` are cut and
     * applied to the headers `view` the pass started from, and what is
     * left of the walk, from `cursor` with the counter at `last`, ends the
     * whole walk `pass`.
     */
    ghost predicate Walking(pass: Walk, view: map<nat, Header>, cursor: nat, titles: seq<nat>, last: nat,
                            done: seq<Segment>, language: Language, clean: string -> string)
      reads this, Repr
    {
      && Valid()
      && cursor <= |notes| && titles == TitlesBelow(notes, cursor, TitleClass(language))
      && (var w := WalkFrom(notes, cursor, last, language, clean);
          pass == Walk(done + w.segments, w.error))
      && Applied(view, done, language, Classify) == Ok(Heads())
    }

    /** One turn of the outer loop of `parse_topics`: pop a title, and skip it or cut and apply an agenda item. */
    method ParseStep(ghost pass: Walk, ghost view: map<nat, Header>, ghost cursor: nat, titles: seq<nat>, last: nat,
                     ghost done: seq<Segment>, ghost loads: seq<seq<Activity>>, ghost base: seq<Activity>,
                     language: Language, clean: string -> string, web: Web, log: ActivityLog)
      returns (raised: Option<string>, titles': seq<nat>, last': nat, ghost cursor': nat, ghost done': seq<Segment>,
               ghost loads': seq<seq<Activity>>)
      requires Walking(pass, view, cursor, titles, last, done, language, clean) && session.Valid() && titles != []
      requires |loads| == |done| && AllLoads(loads) && log.posted == base + PassPosts(language, Mentions(), done, loads)
      modifies this, Repr, session, log
      ensures Valid() && session.Valid()
      ensures old(Repr) <= Repr && fresh(Repr - old(Repr))
      ensures session.Loaded() == old(session.Loaded()) && (old(Unvoted()) ==> Unvoted())
      ensures raised.None? ==> cursor' < cursor && Walking(pass, view, cursor', titles', last', done', language, clean)
      ensures raised.None? ==>
        |loads'| == |done'| && AllLoads(loads') && log.posted == base + PassPosts(language, Mentions(), done', loads')
    {
      ghost var m := Mentions();
      var c := TitleClass(language);
      TitlesBelowTop(notes, cursor, c);
      var i := titles[|titles| - 1];
      titles' := titles[..|titles| - 1];
      var line := clean(Text(notes[i]));
      if line == [] || line[0] == '<' {
        WalkSkips(notes, cursor, i, last, language, clean);
        return None, titles', last, i, done, loads;
      }
      var q, s;
      ghost var load;
      cursor', done', loads' := cursor, done, loads;
      raised, q, titles', last', s, load := CutItem(cursor, i, titles', last, language, clean, web, log);
      if raised.None? {
        ghost var later := WalkFrom(notes, q, last', language, clean);
        Regrouped(done, s, later.segments);
        AppliedSnoc(view, done, s, language, Classify);
        assert Mentions() == m;
        PassPostsStep(language, m, done, loads, s, load, base);
        cursor', done', loads' := q, done + [s], loads + [load];
      }
    }

    /**
     * `parse_topics(language)`: the agenda items of one pass, in the order
     * they are found, applied to the items; the pass raises where the
     * walk or an item raises, and only there. `clean` is `clean_string`
     * (`Source.clean`); nothing here depends on what it does.
     */
    method ParseTopics(language: Language, clean: string -> string, web: Web, log: ActivityLog)
      returns (raised: Option<string>, ghost loads: seq<seq<Activity>>)
      requires Valid() && session.Valid()
      modifies this, Repr, session, log
      ensures Valid() && session.Valid()
      ensures old(Repr) <= Repr && fresh(Repr - old(Repr))
      ensures session.Loaded() == old(session.Loaded()) && (old(Unvoted()) ==> Unvoted())
      ensures var w := Pass(notes, language, clean);
        raised.None? ==> w.error.None? && Applied(old(Heads()), w.segments, language, Classify) == Ok(Heads())
      ensures var w := Pass(notes, language, clean);
        w.error.Some? || Applied(old(Heads()), w.segments, language, Classify).Raised? ==> raised.Some?
      ensures raised.None? ==>
        var w := Pass(notes, language, clean);
        |loads| == |w.segments| && AllLoads(loads) && log.posted == old(log.posted) + PassPosts(language, Mentions(), w.segments, loads)
    {
      ghost var view := Heads();
      ghost var pass := Pass(notes, language, clean);
      ghost var cursor: nat := |notes|;
      ghost var done: seq<Segment> := [];
      var titles := TitlesBelow(notes, |notes|, TitleClass(language));
      var lastItemId: nat := 1;
      loads := [];
      while titles != []
        invariant Walking(pass, view, cursor, titles, lastItemId, done, language, clean) && session.Valid()
        invariant old(Repr) <= Repr && fresh(Repr - old(Repr))
        invariant session.Loaded() == old(session.Loaded()) && (old(Unvoted()) ==> Unvoted())
        invariant |loads| == |done| && AllLoads(loads) && log.posted == old(log.posted) + PassPosts(language, Mentions(), done, loads)
        decreases cursor
      {
        raised, titles, lastItemId, cursor, done, loads :=
          ParseStep(pass, view, cursor, titles, lastItemId, done, loads, old(log.posted), language, clean, web, log);
        if raised.Some? {
          return;
        }
      }
      TitlesBelowTop(notes, cursor, TitleClass(language));
      assert WalkFrom(notes, cursor, lastItemId, language, clean) == Walk([], None);
      assert done + [] == done;
      raised := None;
    }

    /** The votes of the items. */
    ghost function VoteLists(): map<nat, seq<TopicVote>>
      requires Valid()
      reads this, Repr
    {
      map k | k in topics :: topics[k].votes
    }

    /**
     * Every item has been given the ballots of `cs` for it, after the
     * votes `before` it had; `made` holds the vote objects with names.
     */
    ghost predicate Voted(before: map<nat, seq<TopicVote>>, cs: seq<Cast>, made: set<Vote.NameVote>)
      reads this, Repr, made
    {
      && Valid() && topics.Keys == before.Keys
      && forall k :: k in topics ==> Extended(before[k], topics[k].votes, BallotsFor(cs, k), made)
    }

    /** Before the loop every item has the votes it had and no ballot more. */
    lemma VotedStart()
      requires Valid()
      ensures Voted(VoteLists(), [], {})
    {
      forall k | k in topics
        ensures Extended(VoteLists()[k], topics[k].votes, [], {})
      {
        assert topics[k].votes[|topics[k].votes|..] == [];
      }
    }

    /** The titles, sections and types of the items are those of the state `old`. */
    twostate lemma HeadsKept()
      requires old(Valid()) && Valid() && topics == old(topics) && Repr == old(Repr)
      requires forall t :: t in Repr ==> t.Head() == old(t.Head())
      ensures Heads() == old(Heads())
    {
    }

    /**
     * The branch of the dispatch loop for a vote with names whose marker
     * is in the table `pos`: read the shape, make the vote from the table
     * and, when the vote has name lists, find and set its voters.
     */
    method TableVote(pos: nat, number: nat, item: nat, nv: map<int, NameLists>, ghost find: string -> Option<Member>,
                     log: ActivityLog)
      returns (raised: Option<string>, tv: Option<TopicVote>, ghost b: Ballot)
      requires Valid() && session.Valid() && pos < |notes| && notes[pos].Table?
      requires find == Finder(session.normalize, session.hasName, session.Loaded())
      modifies session, log
      ensures session.Valid() && session.Loaded() == old(session.Loaded())
      ensures var r := TableCast(notes, pos, number, item, nv, topics.Keys, find);
        (raised.Some? <==> r.Raised?) && (r.Raised? ==> raised == Some(r.error))
      ensures var r := TableCast(notes, pos, number, item, nv, topics.Keys, find);
        raised.None? ==> (tv.None? <==> r.value.None?)
      ensures var r := TableCast(notes, pos, number, item, nv, topics.Keys, find);
        raised.None? && tv.Some? ==>
          r.value == Some(Cast(item, b)) && Carried(tv.value, b) && (tv.value.Named? ==> fresh(tv.value.vote))
    ensures raised.None? ==>
      log.posted == old(log.posted) + if tv.None? then [] else BallotPosts(VoteRef(date, TopicUri(id, item)), b)
    ensures raised.Some? ==>
      log.posted == old(log.posted) ||
      (number in nv && log.posted == old(log.posted) + ListPosts(VoteRef(date, TopicUri(id, item)), nv[number], find))
    {
      b, tv := Counted(Vote.ElectronicGeneric(number, 0, 0)), None;
      var rows := PlainRows(notes[pos].rows);
      if |rows| > 6 {
        return None, None, b;
      }
      var shape := TableShape(rows);
      if shape.Raised? {
        return Some(shape.error), None, b;
      }
      if shape.value == NoShape {
        return None, None, b;
      }
      if item !in topics {
        return Some("KeyError"), None, b;
      }
      var table := Tabulate(shape.value, rows);
      if table.Declined? {
        return None, None, b;
      }
      if table.Fault? {
        return Some(table.reason), None, b;
      }
      var counts, groups := table.value.0, table.value.1;
      var lists := if number in nv then Some(nv[number]) else None;
      var v;
      raised, v := NewNameVote(session, number, VoteRef(date, TopicUri(id, item)), counts, groups, lists, log);
      if raised.Some? {
        return raised, None, b;
      }
      ReconciledPosts(number, groups, counts, lists, find, VoteRef(date, TopicUri(id, item)));
      b := Summary(v);
      tv := Some(Named(v));
    }

    /**
     * One turn of the dispatch loop for the marker at `pos`, up to the
     * vote it makes: the vote number, the agenda item read above the
     * marker in both languages, then the vote of that item.
     */
    method CastVote(pos: nat, nv: map<int, NameLists>, ev: map<int, Option<nat>>, ghost find: string -> Option<Member>,
                    ghost at: nat -> Outcome<Option<Cast>>, log: ActivityLog)
      returns (raised: Option<string>, cast: Option<(nat, TopicVote)>, ghost b: Ballot)
      requires Valid() && session.Valid() && pos < |notes|
      requires find == Finder(session.normalize, session.hasName, session.Loaded())
      requires at(pos) == CastAt(notes, pos, nv, ev, topics.Keys, find)
      modifies session, log
      ensures session.Valid() && session.Loaded() == old(session.Loaded())
      ensures var r := at(pos);
        (raised.Some? <==> r.Raised?) && (r.Raised? ==> raised == Some(r.error))
      ensures var r := at(pos);
        raised.None? ==> (cast.None? <==> r.value.None?)
      ensures var r := at(pos);
        raised.None? && cast.Some? ==>
          && r.value == Some(Cast(cast.value.0, b)) && cast.value.0 in topics
          && Carried(cast.value.1, b) && (cast.value.1.Named? ==> fresh(cast.value.1.vote))
      ensures raised.None? && cast.None? ==> log.posted == old(log.posted)
      ensures raised.None? && cast.Some? ==> log.posted == old(log.posted) + BallotPosts(VoteRef(date, TopicUri(id, cast.value.0)), b)
    {
      b, cast := Counted(Vote.ElectronicGeneric(0, 0, 0)), None;
      var marked := ReadMarkedItem(notes, pos, ev);
      if marked.Raised? {
        return Some(marked.error), None, b;
      }
      if marked.value.None? {
        return None, None, b;
      }
      var (number, item) := marked.value.value;
      raised, cast, b := ItemVote(pos, number, item, nv, ev, find, log);
    }

    /**
     * The vote of the marker at `pos` for agenda item `item`: read from
     * its table, or, when its number is among the electronic votes, from
     * the nodes its marker found once the item is known to exist.
     */
    method ItemVote(pos: nat, number: nat, item: nat, nv: map<int, NameLists>, ev: map<int, Option<nat>>,
                    ghost find: string -> Option<Member>, log: ActivityLog)
      returns (raised: Option<string>, cast: Option<(nat, TopicVote)>, ghost b: Ballot)
      requires Valid() && session.Valid() && pos < |notes| && (number in ev || notes[pos].Table?)
      requires find == Finder(session.normalize, session.hasName, session.Loaded())
      modifies session, log
      ensures session.Valid() && session.Loaded() == old(session.Loaded())
      ensures var r := ItemCast(notes, pos, number, item, nv, ev, topics.Keys, find);
        (raised.Some? <==> r.Raised?) && (r.Raised? ==> raised == Some(r.error))
      ensures var r := ItemCast(notes, pos, number, item, nv, ev, topics.Keys, find);
        raised.None? ==> (cast.None? <==> r.value.None?)
      ensures var r := ItemCast(notes, pos, number, item, nv, ev, topics.Keys, find);
        raised.None? && cast.Some? ==>
          && r.value == Some(Cast(item, b)) && cast.value.0 == item && item in topics
          && Carried(cast.value.1, b) && (cast.value.1.Named? ==> fresh(cast.value.1.vote))
      ensures raised.None? && cast.None? ==> log.posted == old(log.posted)
      ensures raised.None? && cast.Some? ==> log.posted == old(log.posted) + BallotPosts(VoteRef(date, TopicUri(id, item)), b)
    {
      b, cast := Counted(Vote.ElectronicGeneric(0, 0, 0)), None;
      if number !in ev {
        var tv;
        raised, tv, b := TableVote(pos, number, item, nv, find, log);
        if raised.None? && tv.Some? {
          cast := Some((item, tv.value));
        }
        return;
      }
      if item !in topics {
        return Some("KeyError"), None, b;
      }
      var e := Vote.ElectronicFromTable(notes, ev[number], number);
      if e.Raised? {
        return Some(e.error), None, b;
      }
      raised, b := None, Counted(e.value);
      cast := Some((item, Electronic(e.value)));
    }

    /** `self.topics[item].add_vote(vote)`: the ballot joins the item's votes and nothing else changes. */
    method Record(item: nat, tv: TopicVote, ghost b: Ballot, ghost before: map<nat, seq<TopicVote>>, ghost cs: seq<Cast>,
                  ghost made: set<Vote.NameVote>)
      returns (ghost made': set<Vote.NameVote>)
      requires Voted(before, cs, made) && item in topics && Carried(tv, b)
      modifies topics[item]
      ensures made' == made + (if tv.Named? then {tv.vote} else {})
      ensures Voted(before, cs + [Cast(item, b)], made')
      ensures forall t :: t in Repr ==> t.Head() == old(t.Head())
    {
      var topic := topics[item];
      ghost var vs := topic.votes;
      topic.AddVote(tv);
      made' := made + (if tv.Named? then {tv.vote} else {});
      forall k | k in topics
        ensures Extended(before[k], topics[k].votes, BallotsFor(cs + [Cast(item, b)], k), made')
      {
        BallotsForSnoc(cs, Cast(item, b), k);
        if k == item {
          ExtendedSnoc(before[k], vs, BallotsFor(cs, k), made, tv, b, made');
        } else {
          assert topics[k] != topic;
          ExtendedGrow(before[k], topics[k].votes, BallotsFor(cs, k), made, made');
        }
      }
    }

    /** One turn of the dispatch loop: the vote of the marker at `pos`, read by `at`, given to its item. */
    method VoteStep(pos: nat, nv: map<int, NameLists>, ev: map<int, Option<nat>>, ghost find: string -> Option<Member>,
                    ghost at: nat -> Outcome<Option<Cast>>, ghost before: map<nat, seq<TopicVote>>, ghost cs: seq<Cast>,
                    ghost made: set<Vote.NameVote>, ghost base: seq<Activity>, log: ActivityLog)
      returns (raised: Option<string>, ghost cs': seq<Cast>, ghost made': set<Vote.NameVote>)
      requires Voted(before, cs, made) && session.Valid() && pos < |notes|
      requires log.posted == base + CastsPosts(date, id, cs)
      requires find == Finder(session.normalize, session.hasName, session.Loaded())
      requires Dispatches(at, notes, nv, ev, topics.Keys, find)
      modifies Repr, session, log
      ensures session.Valid() && session.Loaded() == old(session.Loaded())
      ensures forall t :: t in Repr ==> t.Head() == old(t.Head())
      ensures (raised.Some? <==> at(pos).Raised?) && (at(pos).Raised? ==> raised == Some(at(pos).error))
      ensures raised.None? ==> Voted(before, cs', made') && cs' == if at(pos).value.None? then cs else cs + [at(pos).value.value]
      ensures raised.None? ==> log.posted == base + CastsPosts(date, id, cs')
    {
      var cast;
      ghost var b;
      assert at(pos) == CastAt(notes, pos, nv, ev, topics.Keys, find);
      raised, cast, b := CastVote(pos, nv, ev, find, at, log);
      cs', made' := RecordCast(raised, cast, b, before, cs, made);
      if raised.None? && cast.Some? {
        CastsPostsSnoc(date, id, cs, Cast(cast.value.0, b));
        AppendAssoc(base, CastsPosts(date, id, cs), BallotPosts(VoteRef(date, TopicUri(id, cast.value.0)), b));
      }
    }

    /** The end of a turn of the dispatch loop: the vote made, if any, is given to its item. */
    method RecordCast(raised: Option<string>, cast: Option<(nat, TopicVote)>, ghost b: Ballot,
                      ghost before: map<nat, seq<TopicVote>>, ghost cs: seq<Cast>, ghost made: set<Vote.NameVote>)
      returns (ghost cs': seq<Cast>, ghost made': set<Vote.NameVote>)
      requires Voted(before, cs, made)
      requires raised.None? && cast.Some? ==> cast.value.0 in topics && Carried(cast.value.1, b)
      modifies Repr
      ensures forall t :: t in Repr ==> t.Head() == old(t.Head())
      ensures raised.None? ==> Voted(before, cs', made') && cs' == if cast.None? then cs else cs + [Cast(cast.value.0, b)]
    {
      cs', made' := cs, made;
      if raised.None? && cast.Some? {
        made' := Record(cast.value.0, cast.value.1, b, before, cs, made);
        cs' := cs + [Cast(cast.value.0, b)];
      }
    }

    /** The turn of the dispatch loop for the `i`-th marker: the votes so far are those of the markers before it. */
    method VoteTurn(tags: seq<nat>, i: nat, nv: map<int, NameLists>, ev: map<int, Option<nat>>,
                    ghost find: string -> Option<Member>, ghost at: nat -> Outcome<Option<Cast>>,
                    ghost before: map<nat, seq<TopicVote>>, ghost cs: seq<Cast>, ghost made: set<Vote.NameVote>,
                    ghost base: seq<Activity>, log: ActivityLog)
      returns (raised: Option<string>, ghost cs': seq<Cast>, ghost made': set<Vote.NameVote>)
      requires i < |tags| && tags[i] < |notes| && Casts(at, tags[..i]) == Ok(cs)
      requires log.posted == base + CastsPosts(date, id, cs)
      requires Voted(before, cs, made) && session.Valid()
      requires find == Finder(session.normalize, session.hasName, session.Loaded())
      requires Dispatches(at, notes, nv, ev, topics.Keys, find)
      modifies Repr, session, log
      ensures session.Valid() && session.Loaded() == old(session.Loaded())
      ensures forall t :: t in Repr ==> t.Head() == old(t.Head())
      ensures raised.None? ==> Voted(before, cs', made') && Casts(at, tags[..i + 1]) == Ok(cs')
      ensures raised.None? ==> log.posted == base + CastsPosts(date, id, cs')
    {
      assert tags[..i + 1][..i] == tags[..i];
      raised, cs', made' := VoteStep(tags[i], nv, ev, find, at, before, cs, made, base, log);
    }

    /** The dispatch loop of `__get_votes` over every vote marker in document order, each read by `at`. */
    method VoteLoop(nv: map<int, NameLists>, ev: map<int, Option<nat>>, ghost find: string -> Option<Member>,
                    ghost at: nat -> Outcome<Option<Cast>>, log: ActivityLog)
      returns (raised: Option<string>, ghost cs: seq<Cast>, ghost made: set<Vote.NameVote>)
      requires Valid() && session.Valid()
      requires find == Finder(session.normalize, session.hasName, session.Loaded())
      requires Dispatches(at, notes, nv, ev, topics.Keys, find)
      modifies Repr, session, log
      ensures session.Valid() && session.Loaded() == old(session.Loaded())
      ensures forall t :: t in Repr ==> t.Head() == old(t.Head())
      ensures raised.None? ==> Casts(at, VoteTags(notes)) == Ok(cs) && Voted(old(VoteLists()), cs, made)
      ensures raised.None? ==> log.posted == old(log.posted) + CastsPosts(date, id, cs)
      ensures Casts(at, VoteTags(notes)).Raised? ==> raised.Some?
    {
      ghost var before := VoteLists();
      cs, made := [], {};
      VotedStart();
      var tags := VoteTags(notes);
      var i := 0;
      while i < |tags|
        invariant 0 <= i <= |tags|
        invariant Voted(before, cs, made) && session.Valid() && session.Loaded() == old(session.Loaded())
        invariant forall t :: t in Repr ==> t.Head() == old(t.Head())
        invariant Casts(at, tags[..i]) == Ok(cs)
        invariant log.posted == old(log.posted) + CastsPosts(date, id, cs)
      {
        raised, cs, made := VoteTurn(tags, i, nv, ev, find, at, before, cs, made, old(log.posted), log);
        if raised.Some? {
          return;
        }
        i := i + 1;
      }
      assert tags[..i] == tags;
      raised := None;
    }

    /**
     * `__get_votes`: the name lists and electronic votes of the notes,
     * then every vote marker in document order, each vote given to its
     * item after the votes the item has; it raises where the plan does.
     */
    method GetVotes(log: ActivityLog) returns (raised: Option<string>, ghost made: set<Vote.NameVote>)
      requires Valid() && session.Valid()
      modifies Repr, session, log
      ensures session.Valid() && session.Loaded() == old(session.Loaded())
      ensures Heads() == old(Heads())
      ensures var plan := VotePlan(notes, hasSection3, topics.Keys, Finder(session.normalize, session.hasName, session.Loaded()));
        raised.None? ==> plan.Ok? && Voted(old(VoteLists()), plan.value, made)
      ensures var plan := VotePlan(notes, hasSection3, topics.Keys, Finder(session.normalize, session.hasName, session.Loaded()));
        raised.None? ==> log.posted == old(log.posted) + CastsPosts(date, id, plan.value)
      ensures var plan := VotePlan(notes, hasSection3, topics.Keys, Finder(session.normalize, session.hasName, session.Loaded()));
        plan.Raised? ==> raised.Some?
    {
      ghost var find := Finder(session.normalize, session.hasName, session.Loaded());
      SourceLawful();
      var lists := GetNameAndElectronicVotes(notes, hasSection3, Source);
      if lists.Raised? {
        return Some(lists.error), {};
      }
      var nv, ev := lists.value.0, lists.value.1;
      ghost var at := Dispatch(notes, nv, ev, topics.Keys, find);
      DispatchDispatches(notes, nv, ev, topics.Keys, find);
      ghost var plan := VotePlan(notes, hasSection3, topics.Keys, find);
      assert plan == Casts(at, VoteTags(notes));
      ghost var cs;
      raised, cs, made := VoteLoop(nv, ev, find, at, log);
      HeadsKept();
    }

    /**
     * `get_meeting_topics`: the items as they are when there are some and
     * no refresh is asked; otherwise the items are dropped and made again
     * by the Dutch pass, the French pass and the votes, with `clean_string`
     * as the cleaner of the title text.
     */
    method GetMeetingTopics(refresh: bool, web: Web, log: ActivityLog)
      returns (raised: Option<string>, ghost made: set<Vote.NameVote>, ghost nl: seq<seq<Activity>>, ghost fr: seq<seq<Activity>>)
      requires Valid() && session.Valid()
      modifies this, Repr, session, log
      ensures Valid() && session.Valid() && session.Loaded() == old(session.Loaded())
      ensures !refresh && old(topics) != map[] ==> raised.None? && topics == old(topics) && Heads() == old(Heads())
      ensures refresh || old(topics) == map[] ==>
        var plan := VotePlan(notes, hasSection3, topics.Keys, Finder(session.normalize, session.hasName, session.Loaded()));
        raised.None? ==>
          && Agenda(notes, Util.CleanString) == Ok(Heads()) && plan.Ok?
          && forall k :: k in topics ==> Carries(topics[k].votes, BallotsFor(plan.value, k), made)
      ensures refresh || old(topics) == map[] ==>
        var agenda := Agenda(notes, Util.CleanString);
        var find := Finder(session.normalize, session.hasName, session.Loaded());
        agenda.Raised? || (agenda.Ok? && VotePlan(notes, hasSection3, agenda.value.Keys, find).Raised?) ==> raised.Some?
      ensures !refresh && old(topics) != map[] ==> log.posted == old(log.posted)
      ensures refresh || old(topics) == map[] ==>
        var plan := VotePlan(notes, hasSection3, topics.Keys, Finder(session.normalize, session.hasName, session.Loaded()));
        var nlPass, frPass := Pass(notes, NL, Util.CleanString), Pass(notes, FR, Util.CleanString);
        raised.None? ==>
          && |nl| == |nlPass.segments| && AllLoads(nl) && |fr| == |frPass.segments| && AllLoads(fr)
          && log.posted == old(log.posted) + PassPosts(NL, Mentions(), nlPass.segments, nl) +
               PassPosts(FR, Mentions(), frPass.segments, fr) + CastsPosts(date, id, plan.value)
    {
      made, nl, fr := {}, [], [];
      if !refresh && topics != map[] {
        return None, made, nl, fr;
      }
      topics := map[];
      assert Heads() == map[];
      raised, nl := ParseTopics(NL, Util.CleanString, web, log);
      if raised.Some? {
        return;
      }
      raised, fr := ParseTopics(FR, Util.CleanString, web, log);
      if raised.Some? {
        return;
      }
      assert Heads().Keys == topics.Keys;
      ghost var before := VoteLists();
      raised, made := GetVotes(log);
      if raised.None? {
        ghost var plan := VotePlan(notes, hasSection3, topics.Keys, Finder(session.normalize, session.hasName, session.Loaded()));
        forall k | k in topics
          ensures Carries(topics[k].votes, BallotsFor(plan.value, k), made)
        {
          assert Extended(before[k], topics[k].votes, BallotsFor(plan.value, k), made);
          assert before[k] == [];
          assert topics[k].votes[0..] == topics[k].votes;
        }
      }
    }
  }
}
