/**
 * Activity records: the typed facts "this member did this on this date"
 * that vote reconciliation, topic segmentation and document loading emit,
 * and the dictionary each one renders to.
 */
module Activity {
  import opened Base
  import opened Strings
  import opened Common

  /**
   * What a vote activity keeps of its vote: the date of the meeting the vote
   * belongs to and the URI of the agenda item it was cast on.
   */
  datatype VoteRef = VoteRef(meetingDate: Date, topicUri: string)

  /** The five activity classes; `Plain` is the abstract base `Activity`. */
  datatype Kind =
    | Plain
    | VoteCast(vote: VoteRef, choice: Choice)
    | TopicMention(topicUri: string)
    | QuestionAsked(questionUri: string)
    | Authored(documentUri: string)

  datatype Activity = Activity(member: Member, date: Date, kind: Kind)

  /** `MeetingTopic.get_uri`: `meetings/<meeting id>/<item>.json`. */
  function TopicUri(meetingId: int, item: int): string {
    "meetings/" + IntToString(meetingId) + "/" + IntToString(item) + ".json"
  }

  /** `ParliamentaryDocument.uri`: `legislation/<number>.json`. */
  function DocumentUri(number: string): string {
    "legislation/" + number + ".json"
  }

  /** `ParliamentaryQuestion.uri`: `questions/<number>.json`. */
  function QuestionUri(number: string): string {
    "questions/" + number + ".json"
  }

  /** `VoteActivity(member, vote, choice)`: dated by the meeting of the vote. */
  function NewVoteActivity(m: Member, v: VoteRef, c: Choice): (a: Activity)
    ensures a.member == m && a.date == v.meetingDate
    ensures a.kind.VoteCast? && a.kind.vote == v && a.kind.choice == c
  {
    Activity(m, v.meetingDate, VoteCast(v, c))
  }

  /** `TopicActivity(member, meeting, topic)`: dated by the meeting. */
  function NewTopicActivity(m: Member, meetingDate: Date, meetingId: int, item: int): (a: Activity)
    ensures a.member == m && a.date == meetingDate
    ensures a.kind == TopicMention(TopicUri(meetingId, item))
  {
    Activity(m, meetingDate, TopicMention(TopicUri(meetingId, item)))
  }

  /** `QuestionActivity(member, date, question)` */
  function NewQuestionActivity(m: Member, date: Date, questionNumber: string): (a: Activity)
    ensures a.member == m && a.date == date && a.kind == QuestionAsked(QuestionUri(questionNumber))
  {
    Activity(m, date, QuestionAsked(QuestionUri(questionNumber)))
  }

  /** `LegislativeActivity(member, date, document)` */
  function NewLegislativeActivity(m: Member, date: Date, documentNumber: string): (a: Activity)
    ensures a.member == m && a.date == date && a.kind == Authored(DocumentUri(documentNumber))
  {
    Activity(m, date, Authored(DocumentUri(documentNumber)))
  }

  /** One activity of the same kind and date per member, in list order. */
  function Posts(ms: seq<Member>, date: Date, kind: Kind): (r: seq<Activity>)
    ensures |r| == |ms|
  {
    if ms == [] then [] else [Activity(ms[0], date, kind)] + Posts(ms[1..], date, kind)
  }

  /** The activity posted for the `i`-th member names that member. */
  lemma {:induction false} PostsAt(ms: seq<Member>, date: Date, kind: Kind, i: nat)
    requires i < |ms|
    ensures Posts(ms, date, kind)[i] == Activity(ms[i], date, kind)
  {
    if i > 0 {
      PostsAt(ms[1..], date, kind, i - 1);
    }
  }

  /** Posting for one more member appends one activity. */
  lemma {:induction false} PostsAppend(ms: seq<Member>, m: Member, date: Date, kind: Kind)
    ensures Posts(ms + [m], date, kind) == Posts(ms, date, kind) + [Activity(m, date, kind)]
  {
    if ms != [] {
      assert (ms + [m])[1..] == ms[1..] + [m];
      PostsAppend(ms[1..], m, date, kind);
    } else {
      assert ms + [m] == [m];
    }
  }

  /** Every activity posted for a list of members has the shared date and kind. */
  lemma {:induction false} PostsKinds(ms: seq<Member>, date: Date, kind: Kind)
    ensures forall a :: a in Posts(ms, date, kind) ==> a.date == date && a.kind == kind && a.member in ms
  {
    if ms != [] {
      PostsKinds(ms[1..], date, kind);
      assert forall m :: m in ms[1..] ==> m in ms;
    }
  }

  type Dict = map<string, string>

  /** The tag under "type" of the dictionary of each concrete activity class. */
  function TypeTag(k: Kind): string {
    match k
    case Plain => ""
    case VoteCast(_, _) => "vote"
    case TopicMention(_) => "topic"
    case QuestionAsked(_) => "question"
    case Authored(_) => "legislation"
  }

  /**
   * `activity.dict(base_URI)`. The base class raises NotImplementedError;
   * every subclass returns its tag and the URI of what it refers to.
   */
  function ToDict(a: Activity, baseUri: string): (r: Outcome<Dict>)
    ensures r.Raised? <==> a.kind.Plain?
    ensures r.Ok? ==> "type" in r.value && r.value["type"] == TypeTag(a.kind)
  {
    match a.kind
    case Plain => Raised("NotImplementedError")
    case VoteCast(v, c) =>
      Ok(map["type" := "vote", "topic" := baseUri + v.topicUri, "choice" := ChoiceStr(c)])
    case TopicMention(u) => Ok(map["type" := "topic", "topic" := baseUri + u])
    case QuestionAsked(u) => Ok(map["type" := "question", "question" := baseUri + u])
    case Authored(u) => Ok(map["type" := "legislation", "document" := baseUri + u])
  }

  /** Reads the class of an activity back from its dictionary. */
  function KindTagOf(d: Dict): (r: Option<string>)
    ensures r.Some? ==> r.value in {"vote", "topic", "question", "legislation"}
  {
    if "type" in d && d["type"] in {"vote", "topic", "question", "legislation"} then Some(d["type"])
    else None
  }

  /**
   * The dictionary identifies the activity: its tag names the class, and a
   * vote's dictionary gives back the choice and the topic of its vote.
   */
  lemma ToDictIdentifies(a: Activity, baseUri: string)
    requires !a.kind.Plain?
    ensures ToDict(a, baseUri).Ok?
    ensures KindTagOf(ToDict(a, baseUri).value) == Some(TypeTag(a.kind))
    ensures a.kind.VoteCast? ==>
      var d := ToDict(a, baseUri).value;
      "choice" in d && ChoiceFromStr(d["choice"]) == Some(a.kind.choice) &&
      "topic" in d && d["topic"] == baseUri + a.kind.vote.topicUri
  {
    if a.kind.VoteCast? {
      ChoiceStrRoundTrip(a.kind.choice);
    }
  }

  /** Two activities of different classes never render the same tag. */
  lemma TypeTagsDistinct(a: Kind, b: Kind)
    requires !a.Plain? && !b.Plain? && TypeTag(a) == TypeTag(b)
    ensures (a.VoteCast? && b.VoteCast?) || (a.TopicMention? && b.TopicMention?) ||
            (a.QuestionAsked? && b.QuestionAsked?) || (a.Authored? && b.Authored?)
  {
  }

  /**
   * Where posted activities end up. Posting in the source appends to the
   * member's own list; one log holding all of them, in posting order, keeps
   * every member's list as its sub-sequence.
   */
  class ActivityLog {
    var posted: seq<Activity>

    constructor ()
      ensures posted == []
    {
      posted := [];
    }

    /** `member.post_activity(a)` */
    method Post(a: Activity)
      modifies this
      ensures posted == old(posted) + [a]
    {
      posted := posted + [a];
    }

    /** One `post_activity` per member, in list order, all of the same kind and date. */
    method PostEach(ms: seq<Member>, date: Date, kind: Kind)
      modifies this
      ensures posted == old(posted) + Posts(ms, date, kind)
    {
      var i := 0;
      while i < |ms|
        invariant 0 <= i <= |ms|
        invariant posted == old(posted) + Posts(ms[..i], date, kind)
      {
        PostsAppend(ms[..i], ms[i], date, kind);
        assert ms[..i + 1] == ms[..i] + [ms[i]];
        Post(Activity(ms[i], date, kind));
        i := i + 1;
      }
      assert ms[..i] == ms;
    }
  }
}
