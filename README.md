# Belgian federal parliament scraper: a Dafny model of the extraction engine

The scraper reads the published plenary meeting notes of the Belgian Chamber
of Representatives. It splits them into agenda items (topics) in Dutch and
French and classifies each topic. It links the bills and questions a topic
cites, reads the votes held on each topic (name votes and electronic counts,
with the lists of members who voted yes, no or abstained), and records an
activity for every member who voted, was mentioned, asked a question or
authored a document. This project models that engine in Dafny and proves
what it guarantees.

The model keeps the program's structure:

- `Util` (util.py) holds `clean_string`, the banned-fragment filter,
  `clean_list` and `normalize_str`, with its ASCII folding left as a
  parameter.
- `Strings` holds the Python string built-ins the program leans on (`strip`,
  `split`, `replace`, `int`, `str`, `in`, `lower`).
- `Dom` is the document as a flat sequence of sibling nodes: paragraphs with
  their class lists, tables with their rows, and other elements. The previous
  and next siblings of a node are the nodes at index -1 and +1.
- `Activity` (activity.py) holds the activity records, their `dict` tags and
  the log every `post_activity` call appends to.
- `Vote` (vote.py) holds the four vote variants and their pass rules, the
  table parsers, the electronic-vote reader and `post_vote_activity`. It also
  holds a `NameVote` class whose setters reconcile the counts with the voter
  lists in place.
- `MeetingVotes` (meeting.py:225-320) holds the helpers that locate votes in
  the notes: the agenda item above a vote, vote numbers, cancellation, the
  name lists under a table, the abstention list read backwards, and the two
  dictionaries of name and electronic votes.
- `VoteDispatch` (meeting.py:326-368) holds the dispatch of every vote marker
  on the table's row count, and the reconciliation of a name vote with its
  lists.
- `Meetings` (meeting.py) holds the topic classifier, the time-of-day rule,
  item numbers, bill and question citations, the get-or-create registries,
  and the `MeetingTopic` class.
- `MeetingNotes` (meeting.py:95-460) holds the `Meeting` class. Its
  `ParseTopics` walks the title paragraphs last-to-first, merges continuation
  lines and creates or retitles topics. `GetVotes` attaches the votes, and
  `GetMeetingTopics` runs the Dutch pass, the French pass and the votes.
- `Document` (document.py) holds `extract_name`, the author-line and title
  steps of the two page loaders, the bounded re-fetch on the error notice,
  and the records loaded for documents and questions.
- `Parliament` (parliament_parser.py) holds the `ParliamentarySession` class:
  the session range, the member roster, its two name indexes, `find_member`,
  and the registries of loaded documents and questions.

Python exceptions become an `Outcome` (`Ok(value)` or `Raised(name)`). A
parser that returns `None` gives `Declined` in a `Parse` result. HTTP, HTML
parsing, the clock and date parsing become parameters: a fetch function per
page, a date parser, and the member roster given as loaded. Member name
matching (`Member.has_name`, `normalized_name`) and the Unicode folding are
uninterpreted functions.

## Behaviour kept as written

- A name that `find_member` cannot resolve stays in the voter list as `None`.
  Posting the vote activities then fails with AttributeError; the names are
  not dropped.
- Counts that do not parse raise ValueError rather than voiding the vote.
- A topic first seen in the French pass raises AttributeError when it is
  classified.

## Model

| member | source | states |
|---|---|---|
| Common.ChoiceFromStr | common.py:14-20 | a string read back as a choice is exactly that choice's `str` form |
| Common.ChoiceStrRoundTrip | common.py:14-20 | `str(choice)` reads back to the same choice for all three choices |
| Dom.PrevWithClass | meeting.py:230-233 | `find_previous_sibling("p", class)` gives the nearest earlier paragraph of that class, and none exactly when no earlier node has it |
| Dom.PlainRows | meeting.py:344-345 | every row kept is a row of the table without a height attribute, and no more rows are kept than the table has |
| Dom.PlainRowsCounts | meeting.py:344-345 | every row without a height is kept exactly as often as the table has it, and no row with a height is kept |
| Dom.PlainRowsAppend | meeting.py:344-345 | the rows are selected in document order: selecting from two stretches of rows is selecting from each in turn, and a single row is kept exactly when it has no height |
| Util.CleanCharsIsReplaceChain | util.py:32-34 | the one-pass character cleaning equals the program's chain of `replace` calls on every string |
| Util.CleanStringClean | util.py:22-35 | a cleaned string has no '.', '\r', '\n', soft hyphen or non-breaking space, its only blanks are spaces, and it has no leading or trailing blank |
| Util.CleanStringStrip | util.py:18-19 | stripping before cleaning changes nothing, so `normalize_str` is folding after `clean_string` |
| Util.CleanStringPlainWord | util.py:22-35 | a non-empty word without blanks, dots or soft hyphens is left as it is |
| Util.CleanStringNatToString | util.py:22-35 | a printed count is left as it is by cleaning |
| Util.CleanStringDropsDot | util.py:32-34 | blanks are joined before dots are deleted, so "a . b" becomes "a  b" with two blanks |
| Util.CleanStringJoinsBlanks | util.py:32-33 | a run of blanks between words becomes one space |
| Util.CleanStringNotIdempotent | util.py:22-35 | cleaning twice can differ from cleaning once ("a . b") |
| Util.BannedEndNonDigit | util.py:38-65 | every banned fragment is non-empty and does not end in a digit |
| Util.BannedLeadingBlankSignificant | util.py:68-78 | membership in the banned set is exact: " afwezig" is banned and "afwezig" is not |
| Util.NormalizeStr | util.py:8-19 | `normalize_str` is the ASCII folding applied to the cleaned text |
| Util.FilterMap | util.py:104 | the comprehension never lengthens the list |
| Util.FilterMapMembers | util.py:104 | every output item is the mapped form of a kept input item |
| Util.FilterMapAppend | util.py:104 | filtering a concatenation is the concatenation of the filtered parts |
| Util.CleanListMembers | util.py:94-104 | `clean_list` is no longer than its input, and every item is the cleaned form of an input item that is neither empty nor banned |
| Util.CleanListAppend | util.py:94-104 | `clean_list` keeps order: a concatenation is cleaned part by part |
| Util.CleanListSingle | util.py:94-104 | one item is dropped exactly when it is empty or banned before cleaning, and otherwise comes out cleaned |
| Activity.NewVoteActivity | activity.py:30-34 | a vote activity is dated on its vote's meeting date and carries the vote and the choice |
| Activity.NewTopicActivity | activity.py:54-57 | a topic activity is dated on its meeting's date and points at the topic's URI |
| Activity.NewQuestionActivity | activity.py:73-76 | a question activity carries the given date and the question's URI |
| Activity.NewLegislativeActivity | activity.py:92-95 | a legislative activity carries the given date and the document's URI |
| Activity.Posts | vote.py:450-452 | one activity is posted per member |
| Activity.PostsAt | vote.py:450-452 | the i-th activity posted belongs to the i-th member, with the shared date and kind |
| Activity.PostsAppend | vote.py:450-452 | posting for one more member appends exactly one activity |
| Activity.ToDict | activity.py:18-20 | the base activity raises, and every concrete activity renders with its "type" tag |
| Activity.ToDictIdentifies | activity.py:36-42 | the rendered type tag identifies the kind; a vote's rendered choice reads back to its choice, and its "topic" is the base URI plus the topic URI |
| Activity.TypeTagsDistinct | activity.py:39 | the tags 'vote', 'topic', 'question' and 'legislation' are pairwise distinct |
| Activity.KindTagOf | activity.py:36-102 | a tag read from a rendered record is one of the four concrete tags |
| Activity.ActivityLog.Post | vote.py:452 | posting appends the activity and keeps the earlier ones |
| Activity.ActivityLog.PostEach | vote.py:450-452 | posting for a list of members appends one activity per member, in list order |
| Vote.Sum | vote.py:205-206 | a language-group vote's totals are the two sub-votes' sums, count by count |
| Vote.GroupPassedImpliesTotalPassed | vote.py:259-266 | a vote that passes in both language groups also passes on its totals |
| Vote.TotalPassedDoesNotImplyGroupPassed | vote.py:259-266 | a vote can pass on its totals and still fail in one language group |
| Vote.GenericPassedMonotone | vote.py:77-87 | more yes votes and fewer no votes never turn a passed vote into a failed one |
| Vote.ElectronicGenericQuorum | vote.py:329-334 | a passed electronic vote has at least 39 yes votes (more yes than no, more than 75 cast) |
| Vote.Cell | vote.py:100-111 | a cell is read exactly when its row and column exist, and it is read cleaned |
| Vote.Count | vote.py:100-111 | a count is obtained exactly when `int()` accepts the text, and equals that number |
| Vote.GenericFromTable | vote.py:89-111 | the parser declines exactly when row 1's count cell is empty; otherwise yes, no and abstention are the counts of rows 1, 2 and 3 |
| Vote.ReadTally | vote.py:280-300 | a column of three texts is read exactly when all three are numbers, and gives those numbers |
| Vote.GroupFromTable | vote.py:268-300 | declines exactly when one of the six cells of rows 2-4 is empty or banned; otherwise NL comes from column 3 and FR from column 1; a short table raises IndexError and a non-number ValueError |
| Vote.GenericFromPrinted | vote.py:89-111 | a table whose rows 1-3 hold printed counts parses back to those counts |
| Vote.GenericTableRoundTrip | vote.py:89-111 | a generic vote printed as a table parses back to the same tally |
| Vote.GroupFromPrinted | vote.py:268-300 | a group table holding printed counts parses back to the NL and FR tallies |
| Vote.GroupTableRoundTrip | vote.py:268-300 | a language-group vote printed as a table parses back to the same two tallies |
| Vote.SecondCellCount | vote.py:424-437 | a count is read from the second cell of a table; a table with fewer cells raises IndexError |
| Vote.ElectronicFromTable | vote.py:410-437 | the vote is generic exactly when the node after next is a table, whose second cell gives the no count; otherwise it is advisory; yes always comes from the first table |
| Vote.ElectronicDict | vote.py:342-349 | the dictionary has exactly the keys id, type, yes, passed, and no for a generic vote; id is the vote number, yes and no the counts, passed the verdict, type names the variant |
| Vote.ElectronicDictDetermines | vote.py:342-349 | two electronic votes render to the same dictionary exactly when they are the same vote, so the rendering loses nothing |
| Vote.KnownPrefix | vote.py:450-452 | the members posted before the first unresolved name, in order; the prefix stops exactly at a `None` |
| Vote.KnownPrefixAll | vote.py:450-452 | the whole list is posted exactly when every name resolved |
| Vote.PostVoteActivity | vote.py:450-452 | one vote activity is posted per member in list order until an unresolved name, which raises AttributeError |
| Vote.MemberUris | vote.py:71-73 | with every voter resolved, the i-th entry is the URI `<base>members/<uuid>.json` of the i-th voter, one per voter in order; a `None` voter gives no list |
| Vote.MemberUriUuid | vote.py:71-73 | the URI starts with the base and holds the member's uuid after "members/", so two members share a URI exactly when they share a uuid |
| Vote.NameVote.Generic | vote.py:18-44 | a new generic vote holds its counts, empty voter lists and `unsure` false |
| Vote.NameVote.Group | vote.py:195-208 | a new language-group vote holds both sub-votes, totals equal to their sums, empty voter lists and `unsure` false |
| Vote.NameVote.ToDict | vote.py:227-254 | renders exactly when every voter resolved, with exactly the keys id, type, yes, no, abstention, passed, voters (and detail for a language-group vote); id is the vote number, type "general" or "language_group", the counts and verdict those of the vote, voters the three URI lists in voter order, detail the two halves' own dictionaries |
| Vote.RenderedCountsMatchVoters | vote.py:61-74 | once a generic vote's counts are its list lengths, each rendered count is the length of the rendered URI list for that choice |
| Vote.NameVote.SetVoters | vote.py:116-184 | after `set_*_voters(l)` that count is `len(l)` and that list is `l`; the other counts and lists are unchanged; `unsure` becomes true when the count moved by more than 2 and is never reset; one activity is posted per member in order |
| Vote.ReconcileGroupVote | vote.py:227-266 | reconciling a language-group vote's lists never changes its pass verdict or the tallies it renders |
| VoteDispatch.TableShape | meeting.py:344-354 | 5 rows, or 6 rows whose last row is blank or starts with '<', give a generic vote; any other 6-row table a language-group vote; an empty table raises IndexError |
| VoteDispatch.PrintedGenericShape | meeting.py:344-350 | a printed generic vote table is dispatched as a generic vote |
| VoteDispatch.PrintedGroupShape | meeting.py:351-353 | a printed language-group table is dispatched as a language-group vote |
| VoteDispatch.Tabulate | meeting.py:344-355 | an unknown shape gives no vote; a generic table parses with the generic parser; a group table with the group parser, with totals that are the sub-vote sums |
| VoteDispatch.Voters | meeting.py:358-363 | every name on a list is looked up with `find_member`, in order |
| VoteDispatch.ReconciledCounts | meeting.py:356-363 | a vote without name lists keeps its tallies; with lists, each count becomes the list's length and each list the resolved members; it raises exactly when some name does not resolve |
| VoteDispatch.ReconciledKnown | vote.py:116-184 | with every name resolved, the reconciled vote holds the lists and counts, and is unsure when some count moved by more than 2 |
| VoteDispatch.ReconciledUnknown | vote.py:450-452 | an unresolved name on any list raises AttributeError |
| VoteDispatch.TableCast | meeting.py:344-364 | a table yields a vote only on a known agenda item; a vote absent from the name-vote dictionary carries no voters |
| VoteDispatch.CastAtItem | meeting.py:326-368 | a vote is attached to a numbered agenda item that the French and the Dutch title lookups agree on, and it is electronic exactly when its number has an electronic count |
| VoteDispatch.CastAtParagraph | meeting.py:330-338 | a marker in a paragraph that is not an electronic count yields no vote |
| VoteDispatch.CastAtDisagree | meeting.py:339-341 | Dutch and French titles naming different items raise AssertionError |
| VoteDispatch.Casts | meeting.py:326-368 | the loop makes at most one vote per marker |
| VoteDispatch.CastsItems | meeting.py:326-368 | every vote of a meeting is attached to a known agenda item other than 0 |
| VoteDispatch.CastsWithoutLists | meeting.py:356-368 | without name or electronic dictionaries no vote carries voters |
| VoteDispatch.NoSection3NoVoters | meeting.py:281-282 | notes without a Section3 block yield votes without voters |
| VoteDispatch.BallotsFor | meeting.py:366-368 | no item receives more votes than were made |
| VoteDispatch.BallotsForPartition | meeting.py:364-368 | the votes filed under an item are exactly the votes attached to that item |
| VoteDispatch.BallotsForSnoc | meeting.py:364-368 | attaching one more vote to an item adds exactly that vote to the item's list |
| VoteDispatch.FindMembers | meeting.py:358-363 | the list of `find_member` answers for the names, loading the roster once |
| VoteDispatch.SetList | vote.py:116-184 | setting one choice's voters from names stores the resolved list and its count, leaves the other choices alone, and posts one vote activity per resolved voter up to the first name that found no member |
| VoteDispatch.SetLists | meeting.py:356-363 | the three setters together give the reconciled vote, or the error the reconciliation raises; the log grows by the yes, then no, then abstention activities, stopping after a list with an unresolved name |
| VoteDispatch.NewNameVote | meeting.py:344-364 | a parsed table vote with its name lists ends up as the reconciled vote, or raises as the reconciliation does; the log grows by the activities of the lists |
| VoteDispatch.ReconciledPosts | meeting.py:356-363 | a reconciled vote without name lists posts nothing; one with lists posts exactly the activities of its lists, one per name |
| VoteDispatch.CastsPostsAreVotes | vote.py:450-452 | every activity the votes of a meeting post is a vote activity dated on the meeting, about an item that has a vote |
| VoteDispatch.NoSection3NoPosts | meeting.py:281-282 | notes without a Section3 block post no vote activity |
| VoteDispatch.MarkedItem | meeting.py:326-343 | a marker read as a vote is electronic or sits in a table |
| VoteDispatch.ReadMarkedItem | meeting.py:326-343 | the two `extract_title_by_vote` loops give the vote number and agenda item of a marker, pass over an absent or zero item, and raise AssertionError when the languages disagree |
| MeetingVotes.MatchesSpaced | meeting.py:283-286 | a marker written with single blanks matches the marker pattern |
| MeetingVotes.FoundSpaced | meeting.py:283-286 | a text containing the marker written with single blanks is found by the search |
| MeetingVotes.Positions | meeting.py:283-286 | the marked nodes, every one of them, in document order |
| MeetingVotes.Marked | meeting.py:283-286 | every position listed holds a node whose text contains the marker |
| MeetingVotes.NameMarkers | meeting.py:283-286 | every name-vote marker is a node of the notes |
| MeetingVotes.VoteMarkerRoundTrip | meeting.py:326-328 | "Stemming/vote N" or "Vote/stemming N" reads back as vote N |
| MeetingVotes.VoteMarkerPrinted | meeting.py:326-328 | a marker followed by one blank and a run of digits reads that number |
| MeetingVotes.VoteMarkerParenthesis | meeting.py:328 | an opening parenthesis before the marker is skipped |
| MeetingVotes.VoteTagsMarked | meeting.py:326 | the vote markers are visited in document order and none is missed |
| MeetingVotes.VoteTags | meeting.py:326 | every vote marker is a node of the notes |
| MeetingVotes.NumberedBefore | meeting.py:230-235 | the item found comes from a numbered title of the language before the vote |
| MeetingVotes.NumberedBeforeNearest | meeting.py:230-236 | the agenda item of a vote is taken from the nearest earlier numbered title of the language |
| MeetingVotes.NumberedBeforeSkip | meeting.py:230-236 | nodes without the title class between two positions do not change the title found |
| MeetingVotes.AgendaItem | meeting.py:225-237 | the lookup raises exactly when no title of the language precedes the vote, and finds an item exactly when a numbered title does |
| MeetingVotes.AgendaItemIsTitle | meeting.py:225-237 | the item found is the number of an earlier title, with no numbered title in between |
| MeetingVotes.AgendaItemUnnumbered | meeting.py:234-235 | when no earlier title is numbered the lookup yields no item |
| MeetingVotes.TitleByVote | meeting.py:225-237 | the backward search loop computes the agenda-item lookup |
| MeetingVotes.FirstNumeral | meeting.py:245-246 | the vote number is the first word of the header made of ASCII digits, and there is none exactly when no word is |
| MeetingVotes.VoteNumberDefault | meeting.py:240-246 | a header without an all-digit word gives the default number |
| MeetingVotes.VoteNumberLeading | meeting.py:240-246 | a header starting with a number gives that number |
| MeetingVotes.CancelScan | meeting.py:262-272 | the scan stops at the first table or cancelling node; it reports cancelled exactly when a node before the table says 'annulé' or '42.5', and returns no node when it runs off the notes |
| MeetingVotes.IsVoteCancelled | meeting.py:262-272 | the sibling loop computes the cancellation scan |
| MeetingVotes.CommaListAppend | meeting.py:256-258 | splitting on commas after a comma-join gives the two lists concatenated |
| MeetingVotes.ListEnd | meeting.py:254 | the list ends at the first table or 'naamstemming' node, and there is none exactly when no later node closes it |
| MeetingVotes.NameList | meeting.py:249-259 | the list under a table is read up to a closing node, which is returned |
| MeetingVotes.ReadNameList | meeting.py:249-259 | the accumulation loop yields the names of the nodes between the start and the closing node, each node read once |
| MeetingVotes.ListText | meeting.py:253-257 | the closing node, when there is one, lies at or after the first node of the list |
| MeetingVotes.ListTextEnd | meeting.py:254-257 | the accumulation stops at the closing node and raises exactly when there is none |
| MeetingVotes.ListTextNames | meeting.py:254-258 | the accumulated text lists the names of the nodes read, in order |
| MeetingVotes.NameListAsWrittenRepeats | meeting.py:253-258 | the list as written is the corrected list with the first node's names in front |
| MeetingVotes.NameListAsWrittenTwice | meeting.py:253-256 | the list as written names the first node under the table twice |
| MeetingVotes.EndBefore | meeting.py:304 | the abstentions start after the nearest earlier table or 'naamstemming' node |
| MeetingVotes.AbstentionStep | meeting.py:304-308 | prepending a node's text extends the abstentions with its names in front |
| MeetingVotes.AbstentionsStop | meeting.py:298-309 | the abstentions are the names between the closing node and the last node, in document order; running off the front raises AttributeError |
| MeetingVotes.ReadAbstentions | meeting.py:298-309 | the backward loop computes the abstention list |
| MeetingVotes.LastParagraph | meeting.py:300 | the last paragraph of the notes: a paragraph with none after it, and none exactly when the notes have no paragraph |
| MeetingVotes.LastParagraphIn | meeting.py:299-300 | the node before the next vote's header, or the block's last paragraph, closes the abstentions |
| MeetingVotes.AbstentionEnd | meeting.py:299-300 | the abstentions end on the node just before the next marker (AttributeError when that marker is the first node), or for the last marker on the last paragraph of the notes (IndexError when there is none) |
| MeetingVotes.OverwriteLast | meeting.py:310 | every key of the dictionary holds the value some vote set it to, and no later vote sets that key |
| MeetingVotes.OverwriteLastWins | meeting.py:310 | the dictionary holds, for each vote number, the entry of the last vote with that number |
| MeetingVotes.OverwriteAllOk | meeting.py:287-310 | filling succeeds exactly when no vote raises, and otherwise fails with the first error |
| MeetingVotes.NameSteps | meeting.py:287-310 | the i-th step is the name vote read at the i-th marker |
| MeetingVotes.NameStepsPrefix | meeting.py:287-310 | name votes are read marker by marker, in order |
| MeetingVotes.ElectronicSteps | meeting.py:313-319 | the i-th step is the electronic count read at the i-th marker |
| MeetingVotes.ElectronicStepsPrefix | meeting.py:313-319 | electronic counts are read marker by marker, in order |
| MeetingVotes.ReadLists | meeting.py:293-309 | the yes, no and abstention lists under a name-vote table |
| MeetingVotes.ReadAbstentionsAfter | meeting.py:297-308 | the abstention list is empty unless the closing node announces abstentions, and is otherwise read backwards from where `AbstentionEnd` says |
| MeetingVotes.NameVoteStep | meeting.py:288-310 | one marker gives its number and three lists, or nothing when the vote is cancelled |
| MeetingVotes.NameVotesNext | meeting.py:287-310 | one more marker adds its entry, keeps the dictionary, or raises |
| MeetingVotes.CollectNameVotes | meeting.py:279-310 | the loop fills the name-vote dictionary as the marker-by-marker definition `NameVotesUpTo` does |
| MeetingVotes.CollectElectronicVotes | meeting.py:311-319 | the loop fills the electronic-count dictionary as the marker-by-marker definition `ElectronicUpTo` does |
| MeetingVotes.GetNameAndElectronicVotes | meeting.py:275-320 | both dictionaries, empty when there is no Section3 block |
| Meetings.Decide | meeting.py:44-68 | the first rule that holds decides, and none gives LEGISLATION |
| Meetings.Classify | meeting.py:44-68 | the classifier never returns LEGISLATION |
| Meetings.ClassifyBudget | meeting.py:48-49 | 'begroting' in the section gives BUDGET whatever the title |
| Meetings.ClassifySectionFirst | meeting.py:48-55 | once a section rule fires the title does not matter |
| Meetings.ClassifySectionOrder | meeting.py:50-55 | CURRENT_AFFAIRS, NAME_VOTE and SECRET_VOTE each fire exactly when their keywords are present and no earlier rule fired |
| Meetings.ClassifyQuestions | meeting.py:56-57 | QUESTIONS fires exactly when 'vragen' is in the section or 'vragen'/'vraag' in the title, after the four section rules fail |
| Meetings.ClassifyBills | meeting.py:62-68 | BILL_PROPOSAL and DRAFT_BILL fire exactly under the 'ontwerp'/'voorstel' rule in the program's order |
| Meetings.ClassifyCaseInsensitive | meeting.py:46-47 | classification ignores the case of the capitals `Strings.Lower` folds |
| Meetings.ClassesDistinct | meeting.py:75-78 | the four class names of the two languages are distinct |
| Meetings.TimeOfDayOf | meeting.py:476-480 | 'PM' gives PM, else 'Avond' gives EVENING, else AM |
| Meetings.MeetingFromRow | meeting.py:462-483 | a row gives a meeting exactly when it has three cells and the first is a number; the meeting's number, time of day and date come from cells 0, 1 and 2 |
| Meetings.DigitRun | meeting.py:412 | the leading digit run of a title is a prefix of digits that stops before a non-digit or at the end |
| Meetings.Line | meeting.py:422 | the text `.*` reaches: a prefix without a newline that stops at the first newline or at the end |
| Meetings.HasItemNumberRun | meeting.py:412 | a title is numbered exactly when it starts with digits followed by a blank |
| Meetings.ItemNumber | meeting.py:412-429 | a title yields an item number exactly when it starts with digits followed by a blank |
| Meetings.ItemNumberRoundTrip | meeting.py:422-429 | "N text" reads back as item N with title `text` |
| Meetings.ItemNumberNeedsDigits | meeting.py:422-425 | a title not starting with a digit has no item number |
| Meetings.LastMatchFurthest | meeting.py:624 | the greedy `.*` takes the last opening parenthesis that matches |
| Meetings.LastMatchNone | meeting.py:624 | no match exactly when no position matches |
| Meetings.BillNumberOf | meeting.py:623-626 | a line "…(digits/…)" cites bill `digits` |
| Meetings.QuestionNumberOf | meeting.py:632-634 | a line "…(8 digits P or C)" cites that question |
| Meetings.OldQuestionNumberOf | meeting.py:636-640 | a line "…(nr. P####)" or "…(nr P####)" cites the question prefixed with the session number |
| Meetings.CitedFrom | meeting.py:622-640 | at most one number per line, each cited by some line |
| Meetings.BillNumbersCited | meeting.py:622-626 | at most one bill per line, each cited by some line |
| Meetings.BillNumbersAll | meeting.py:622-626 | when every line cites a bill, the numbers are those citations in line order |
| Meetings.QuestionNumbersCited | meeting.py:630-640 | at most one question per line, each cited by some line |
| Meetings.CollectBillNumbers | meeting.py:622-626 | the loop collects the bill citations of the title's lines |
| Meetings.CollectQuestionNumbers | meeting.py:630-640 | the loop collects the question citations of the title's lines |
| Meetings.CreateOrGetDoc | meeting.py:495-500 | a registered document is returned unchanged and nothing is posted; an unknown number is loaded, registered, and posts one legislative activity per author; a raising load registers and posts nothing |
| Meetings.CreateOrGetQuestion | meeting.py:502-514 | a registered question is returned unchanged and nothing is posted; an unknown number is loaded, registered, and posts one question activity per author |
| Meetings.CreateOrGetDocs | meeting.py:627-628 | one registered document per number, in order; the registry only grows, and only by these numbers; the log grows by the authors' activities of each number new to the walk, up to the first raise |
| Meetings.CreateOrGetQuestions | meeting.py:641-642 | one registered question per number, in order; the registry only grows, and only by these numbers; the log grows by the authors' activities of each number new to the walk |
| Meetings.LoadPostsKnown | meeting.py:495-514 | a walk over numbers that are all registered already posts nothing |
| Meetings.LoadPostsKinds | document.py:197-255 | what document loads post are legislative activities only, and what question loads post are question activities only |
| Meetings.MeetingTopic.constructor | meeting.py:523-540 | a new topic is GENERAL, without titles, sections, votes or related items |
| Meetings.MeetingTopic.SetTitle | meeting.py:587-596 | sets that language's title and changes nothing else |
| Meetings.MeetingTopic.SetSection | meeting.py:646-660 | sets that language's section and changes nothing else |
| Meetings.MeetingTopic.AddVote | meeting.py:696-697 | appends the vote and changes nothing else |
| Meetings.MeetingTopic.LinkDocuments | meeting.py:622-628 | the related documents are rebuilt as the registered documents of the cited bills; the log grows by what loading them posts |
| Meetings.MeetingTopic.LinkQuestions | meeting.py:629-642 | the related questions are rebuilt as the registered questions cited; the log grows by what loading them posts |
| Meetings.MeetingTopic.CompleteType | meeting.py:601-642 | the type is the one given, else the classification of the Dutch title and section; bill-like types rebuild the related documents and QUESTIONS the related questions; a missing Dutch title or section raises AttributeError; the log grows by the loads of the cited numbers only |
| Meetings.MeetingTopic.LinkPostsAreLoads | meeting.py:622-642 | completing a type posts legislative and question activities only |
| MeetingNotes.TitlesBelowTop | meeting.py:398-403 | the last title in the list is the nearest title paragraph, so `pop()` takes titles last-to-first |
| MeetingNotes.TitlesBelow | meeting.py:398 | the stack holds only title paragraphs of the pass's class before the given node |
| MeetingNotes.MergeStops | meeting.py:411-418 | the merge ends on a numbered line, or on a line whose previous sibling is not a title; the text gathered is the lines from there down; running out of titles raises IndexError |
| MeetingNotes.Merge | meeting.py:412-418 | the merge only walks backwards: where it stops is at or before where it started |
| MeetingNotes.MergeStopsAt | meeting.py:412-418 | the merge stops inside the run of titles, on a numbered line or below a node that is not a title of the class |
| MeetingNotes.MergeGathers | meeting.py:411-418 | the continuation text is the cleaned lines below the stop, joined by newlines |
| MeetingNotes.MergeRaises | meeting.py:415 | the merge raises only when it reaches the first node with an unnumbered run |
| MeetingNotes.SegmentAt | meeting.py:420-439 | a segment carries the item number used next and the section above its title |
| MeetingNotes.WalkSkips | meeting.py:405-409 | a title whose cleaned text is empty or starts with '<' is skipped |
| MeetingNotes.WalkCuts | meeting.py:411-450 | a real title yields its segment followed by the segments of the titles above it |
| MeetingNotes.CutAt | meeting.py:411-432 | one round of the walk: the merge and the segment it yields |
| MeetingNotes.Typed | meeting.py:440 | reclassifying raises exactly when the Dutch title or section is missing, and otherwise sets the type from them |
| MeetingNotes.Retitled | meeting.py:436-439 | retitling never changes the type |
| MeetingNotes.AppliedKeys | meeting.py:433-435 | after a pass the topics are those already present plus the items of its segments |
| MeetingNotes.DutchPassApplies | meeting.py:453 | applying the Dutch pass's segments never raises, because each classification finds the Dutch title and section the segment just set; the merge and the loads can still raise |
| MeetingNotes.FrenchPassKeepsDutch | meeting.py:454-456 | a French pass that succeeds creates no topic and keeps every Dutch title, section and classified type |
| MeetingNotes.FrenchOnlyRaises | meeting.py:433-440 | an item first seen in the French pass raises AttributeError when classified |
| MeetingNotes.LastFor | meeting.py:433-439 | the last segment of an item is one of the item's segments, and there is none exactly when the item has no segment |
| MeetingNotes.AppliedLastWins | meeting.py:436-440 | a topic carries the title and section of its item's last segment, and is classified |
| MeetingNotes.Mentioned | meeting.py:444-447 | no more members are mentioned than the roster has |
| MeetingNotes.MentionedIff | meeting.py:443-447 | a member is mentioned exactly when its name occurs in the normalised title |
| MeetingNotes.MentionedNext | meeting.py:444-447 | members are checked in roster order |
| MeetingNotes.PostMentions | meeting.py:442-447 | one topic activity is posted per mentioned member, in roster order |
| MeetingNotes.MergeRun | meeting.py:411-418 | the merge loop on the title stack computes the merge and leaves the titles above the stop |
| MeetingNotes.RetitleTopic | meeting.py:436-448 | the topic takes the segment's title and section and is reclassified, or raises when that fails; the log grows by the loads of the cited numbers, then, in the Dutch pass, one topic activity per roster member named in the title |
| MeetingNotes.PassPostsMentions | meeting.py:436-448 | a pass posts loads and topic mentions only; every mention is dated on the meeting, posted in the Dutch pass, and names a roster member whose name occurs in the normalised title of the item it points to |
| MeetingNotes.AgendaItems | meeting.py:452-456 | the topics are the items of the Dutch pass, and the French pass adds none |
| MeetingNotes.Meeting.constructor | meeting.py:95-110 | a new meeting has no topics |
| MeetingNotes.Meeting.TopicFor | meeting.py:433-435 | a topic is created only the first time its item is seen, and is reused afterwards |
| MeetingNotes.Meeting.ApplySegment | meeting.py:433-448 | one segment retitles its topic as `ApplyTo` does; the log grows by that item's loads and, in the Dutch pass, its mentions |
| MeetingNotes.Meeting.CutItem | meeting.py:419-448 | cutting the next agenda item at a title and applying it gives the segment the walk gives there, and the log grows by that item's loads and mentions |
| MeetingNotes.Meeting.ParseStep | meeting.py:405-450 | one turn of the title loop keeps the walk invariant: the segments done so far are applied to the items and the log holds their loads and mentions |
| MeetingNotes.Meeting.RetitleItem | meeting.py:436-448 | the item object takes the segment's title and section and is reclassified, the other items keep their headers, and the log grows by the item's loads and mentions |
| MeetingNotes.Meeting.ParseTopics | meeting.py:396-450 | a pass leaves the topics as the walk's segments applied in order, or raises when the walk or a classification does; the log grows by each segment's loads and mentions, in segment order |
| MeetingNotes.Meeting.VotedStart | meeting.py:326 | before the vote loop every topic carries its earlier votes |
| MeetingNotes.Meeting.TableVote | meeting.py:344-364 | a table vote is built, reconciled and attached to its topic as `TableCast` says; the log grows by the vote's activities, and by at most the activities of the lists when it raises |
| MeetingNotes.Meeting.CastVote | meeting.py:326-368 | one marker gives the vote `CastAt` gives, or raises as it does; the log grows by the activities of that vote only |
| MeetingNotes.Meeting.ItemVote | meeting.py:344-368 | the vote of a marker once its item is known is the table vote or the electronic vote `ItemCast` gives, with KeyError for an unknown item; the log grows by that vote's activities only |
| MeetingNotes.Meeting.VoteStep | meeting.py:326-368 | one turn of the dispatch loop adds the marker's vote to the votes so far and its activities to the log, or raises as the marker does |
| MeetingNotes.Meeting.VoteTurn | meeting.py:326-368 | the turn for the i-th marker extends the votes of the markers before it by that marker's vote, and the log by that vote's activities |
| MeetingNotes.Meeting.Record | meeting.py:696-697 | `add_vote` appends the ballot to its item's votes and changes no other item |
| MeetingNotes.Meeting.RecordCast | meeting.py:366-368 | a turn that made a vote records it on its item, and a turn that made none changes nothing |
| MeetingNotes.Meeting.VoteLoop | meeting.py:326-368 | the loop attaches the votes of every marker, in order, or raises; the log grows by the activities of those votes, vote by vote |
| MeetingNotes.Meeting.GetVotes | meeting.py:215-368 | every topic ends with its earlier votes followed by the votes planned for its item; titles and types do not change; the log grows by the activities of the planned votes |
| MeetingNotes.Meeting.GetMeetingTopics | meeting.py:379-460 | the topics are only rebuilt when asked or when empty, and otherwise nothing is posted; then they hold the two passes' result and the votes planned for each item, the log grows by the Dutch pass's posts, the French pass's posts and the votes' activities, or the call raises |
| Document.NameEnd | document.py:13 | `$` matches at the end or before a final newline |
| Document.LastSpace | document.py:13 | the last blank before the end, with no blank after it |
| Document.NameHeadOf | document.py:13-15 | "g t" with a comma-and-blank in `g` and a blank-free last token `t` matches with group `g` |
| Document.NameHeadShape | document.py:13-15 | a matched name is its group, one blank and a non-empty final token |
| Document.ExtractNameDropsToken | document.py:13-19 | on a match the final blank-separated token is dropped |
| Document.ExtractNameDropsComma | document.py:17-18 | a trailing comma left after dropping the token is removed |
| Document.ExtractNameKartel | document.py:16 | every " CD&V -" is removed |
| Document.ExtractNameNoComma | document.py:20-21 | a name without ", " is returned unchanged |
| Document.ExtractNameShorter | document.py:12-21 | the result is the name itself or strictly shorter |
| Document.AuthorLineComma | document.py:182-183 | a line counts as an author exactly when it contains ", " |
| Document.DocumentAuthorNamesHold | document.py:182-183 | every author kept is stripped and contains a comma |
| Document.QuestionAuthorNameSplit | document.py:359-360 | a question author is the stripped line without its last comma field |
| Document.TitleLinesClean | document.py:384-385 | the title's lines are non-empty and stripped |
| Document.JoinTrimmed | document.py:384-385 | the joined title has no leading or trailing blank |
| Document.QuestionTitleIdempotent | document.py:384-385 | normalising a title twice equals normalising it once |
| Document.ResolveKey | document.py:184-192 | the exact key is tried first, then the `extract_name` key; a member found comes from the dictionary |
| Document.ResolvedAuthors | document.py:184-192 | no more authors than names |
| Document.ResolvedAuthorsInDict | document.py:361-371 | every author is a member of the dictionary |
| Document.ResolvedAuthorsExact | document.py:184-187 | names that are all keys resolve one for one, in order |
| Document.ResolvedAuthorsNone | document.py:191-192 | names that resolve by neither key are dropped |
| Document.Initialize | document.py:122-141 | the page is fetched at most 11 times, again only after the error notice; the content is that of the first page without the notice; it gives up only at the last retry |
| Document.GivesUp | document.py:134-141 | the loader gives up exactly when all 11 fetches show the error notice |
| Document.DocumentOf | document.py:143-174 | a loaded page without a document-type row raises IndexError; otherwise the record keeps the number and the authors, and is dated on the session start when the page gives no date |
| Document.DropLastChar | document.py:376-377 | the responding minister loses exactly its last character |
| Document.QuestionOf | document.py:335-389 | the record keeps the number and the authors; an absent page gives no title or minister; a title is already normalised |
| Parliament.SessionRange | parliament_parser.py:37-42 | only sessions 52 to 55 are accepted, with their fixed start and end dates |
| Parliament.NamePartyKeys | parliament_parser.py:219-231 | four keys per member, six for Vooruit |
| Parliament.PutKey | parliament_parser.py:224-231 | filing a member under its keys adds those keys, maps them to the member and keeps every other key |
| Parliament.IndexKeys | parliament_parser.py:219-231 | a key is in the dictionary exactly when some member is filed under it |
| Parliament.IndexValues | parliament_parser.py:219-231 | every key maps to a member that is filed under it |
| Parliament.IndexLastWins | parliament_parser.py:219-231 | a key filed for several members ends with the last of them |
| Parliament.MembersIndexValues | parliament_parser.py:219-231 | every index entry is a roster member filed under that key |
| Parliament.DictAfterIdempotent | parliament_parser.py:216 | asking for the name dictionary again changes nothing |
| Parliament.NamePartyCovers | parliament_parser.py:219-231 | every member is found under "first, last", and a Vooruit member also under ", sp.a" |
| Parliament.FirstNamed | parliament_parser.py:205-209 | the first member in roster order that carries the name, and none exactly when no member does |
| Parliament.FindSpecSound | parliament_parser.py:182-209 | a member found is on the roster |
| Parliament.FindSpecNone | parliament_parser.py:182-209 | nobody is found exactly when no "last first" key equals the normalised query and no member carries the name |
| Parliament.FindSpecExact | parliament_parser.py:200-203 | a query equal to a member's "last first" name finds the last such member |
| Parliament.ParliamentarySession.constructor | parliament_parser.py:139-169 | a new session has its range and empty roster, dictionary and registries |
| Parliament.ParliamentarySession.GetMembers | parliament_parser.py:273-304 | the roster is loaded once and indexed by "last first" |
| Parliament.ParliamentarySession.GetMembersDict | parliament_parser.py:214-233 | the name-and-party dictionary is built only when empty |
| Parliament.ParliamentarySession.FindMember | parliament_parser.py:182-209 | the exact normalised "last first" key first, then the first member carrying the name, else none |
| Parliament.ParliamentarySession.ResolveAuthor | document.py:184-192 | an author name resolves by the exact key, then by the `extract_name` key, else is dropped |
| Parliament.ParliamentarySession.ResolveAuthors | document.py:361-371 | the loop resolves every normalised author name in order |
| Parliament.ParliamentarySession.NewDocument | document.py:28-39 | a loaded document is registered and one legislative activity is posted per author; a raising page registers and posts nothing |
| Parliament.ParliamentarySession.NewQuestion | document.py:219-255 | a loaded question is registered and one question activity is posted per author |
| Parliament.BuildNameParty | parliament_parser.py:219-231 | the dictionary loop files every member in roster order |
| Parliament.FileByNameParty | parliament_parser.py:220-231 | one member's single assignments file it under its keys |

## Left out

- HTTP fetching, BeautifulSoup parsing and the cached soup are not modelled. Pages are parameters: a fetch function per page, the document as a sequence of sibling nodes, the meeting-list rows as cell texts.
- `go_to_p` and the six-level parent ascent from a marker (meeting.py:331-338, util.py:107-119) are not modelled. The node holding a marker is a position in the sibling sequence.
- Regular-expression search over the whole soup is not modelled. Markers are a text predicate on nodes.
- JSON and file output are not modelled (`dump_json`, `json`, `json_representation`, `makedirs`, the index files of parliament_parser.py:83-131). The records render to a dictionary datatype.
- The ThreadPoolExecutor of parliament_parser.py:72-80 is not modelled; the model is sequential.
- `get_plenary_meetings` (parliament_parser.py:240-269) is network I/O and is not modelled. Its per-row step is `Meetings.MeetingFromRow`.
- `dateparser` is a parameter of `Meetings.MeetingFromRow`. Document and question dates arrive already parsed in the page record.
- The Unicode NFKD/ASCII folding in `normalize_str`, `Member.normalized_name` and `Member.has_name` are uninterpreted functions. member.py is not part of this model.
- `Member.post_activity` is the `ActivityLog` every activity is appended to.
- The JSON roster file that `get_members` loads and the replacement linking done there are left out. The roster is given to the session constructor already parsed.
- The document descriptor and keywords (document.py:153-163) are left out: they are pure pass-through text.
- The question's responding department (document.py:378) is left out. The title (document.py:165-168) is kept as given by the page.
- `__repr__`, `get_title`, `get_section`, `get_votes` and `get_notes_url` are plain accessors or text; they are not modelled.
- `print` diagnostics are left out.
- build.py, demo.py and tools/ are command-line orchestration and are not modelled.
- MeetingVotes.ListsAfter: reads the first node under a table once, as `MeetingVotes.NameList` does. The list as written reads it twice; see Findings.
- Document.Initialize: a page without content, or one saying "not found" or "does not exist", is a fetch result (`NoContent`, `NotFound`); the model does not inspect the page text for it.
- VoteDispatch.CastAt: a marker whose parent ascent reaches no table is a node that is not a table in the sibling sequence.
- Strings.Lower: folds only the ASCII capitals and the Latin-1 capitals U+00C0-U+00DE. Python's `str.lower()` folds all of Unicode, including Greek, Cyrillic and Latin Extended letters, and turns some characters into two ('İ'). The topic classifier (meeting.py:46-47) and the mention test (meeting.py:443) can therefore differ from the program on such titles.
- Strings.ParseInt: reads ASCII text only. The underscores and non-ASCII digits that Python's `int()` accepts read as `None` here.
- Vote.Count: like `Strings.ParseInt`, a count written with underscores or non-ASCII digits is a ValueError here, where `int()` would accept it.
- MeetingVotes.FirstNumeral: only ASCII digits make a numeral word. `str.isdigit` also accepts other Unicode digits.
- MeetingVotes.GetNameAndElectronicVotes: searches the markers of the whole notes, not only the Section3 division (meeting.py:281-286, 311-313). A boolean only says whether that division exists.
- MeetingVotes.NameAndElectronicVotes: has the same scope as `MeetingVotes.GetNameAndElectronicVotes`.
- MeetingVotes.LastParagraphIn: finds the last paragraph of the whole notes, not of the marker's parent (meeting.py:300).
- MeetingVotes.LastParagraph: has the same scope as `MeetingVotes.LastParagraphIn`.
- MeetingVotes.AbstentionEnd: the last marker's abstentions end on the last paragraph of the whole notes, as in `MeetingVotes.LastParagraphIn`.
- Document.DocumentOf: a type or author row without a `td0x` cell, or with an empty one, raises AttributeError or IndexError in the program (document.py:172-173, 179-180). The model does not raise there.
- Document.DocumentOf: a date that does not parse is treated as absent, so the record keeps the session start. The program stores `None` (document.py:148-151) and posts activities dated `None` (document.py:211); only the JSON output falls back to the session start (document.py:83-84).
- Document.QuestionOf: never raises. The program raises on an author row without a second cell (document.py:357-358), a minister row without one (document.py:376-378) and a title row without one (document.py:382-383).
- Document.QuestionOf: an unparseable discussion date keeps the session start. The program stores `None` (document.py:388-389) and posts activities dated `None` (document.py:255); only the JSON output falls back (document.py:284-285).
- Parliament.ParliamentarySession.NewQuestion: always registers the question and posts its activities, because `Document.QuestionOf` does not raise.
- Meetings.CreateOrGetQuestion: always registers and posts, for the same reason.

## Findings

| source | as written | input that shows it | evidently intended | confidence | as-written member | corrected member |
|---|---|---|---|---|---|---|
| meeting.py:253-256 | the name list starts as the first node's cleaned text, then the loop appends that same node again | a yes list of one paragraph "Jan, Piet" followed by a table reads as ["Jan", "Piet", "Jan", "Piet"], so the yes count becomes 4 | each node under the table is read once, giving ["Jan", "Piet"] | not executed; the two reads of the first node follow from the code | MeetingVotes.NameListAsWrittenTwice | MeetingVotes.ReadNameList |
