/**
 * The session object every scraping step hangs off: the member roster and
 * the two name indexes built over it, member lookup, and the registries of
 * loaded documents and questions together with the loaders that fill them.
 */
module Parliament {
  import opened Base
  import opened Strings
  import opened Util
  import opened Common
  import opened Activity
  import opened Document

  // ---------------------------------------------------------------------
  // Sessions

  /** `ParliamentarySession.sessions`; any other session fails the constructor's assertion. */
  function SessionRange(n: int): (r: Outcome<(string, string)>)
    ensures r.Ok? <==> 51 < n < 56
  {
    if n == 55 then Ok(("2019-06-20", "2024-06-19"))
    else if n == 54 then Ok(("2014-06-19", "2019-04-25"))
    else if n == 53 then Ok(("2010-06-13", "2014-04-24"))
    else if n == 52 then Ok(("2007-06-10", "2010-05-06"))
    else Raised("AssertionError")
  }

  // ---------------------------------------------------------------------
  // Name indexes

  /** The two ways the session indexes its members. */
  datatype Scheme =
    | LastFirst    // `_members_fn_ln`, keyed by the normalised "last first"
    | NameParty    // `members_dict`, keyed by "first, last" with and without the party

  /** `normalize_str(f'{last_name} {first_name}')` */
  function LastFirstKey(normalize: string -> string, m: Member): string {
    normalize(m.lastName + " " + m.firstName)
  }

  /**
   * The keys `get_members_dict` files a member under, in assignment order:
   * "first, last", with " party", with ", party", with dashes made blanks,
   * and for Vooruit also the old party name "sp.a" in both spellings.
   */
  function NamePartyKeys(normalize: string -> string, m: Member): (r: seq<string>)
    ensures |r| == (if m.party == "Vooruit" then 6 else 4)
  {
    var name := normalize(m.firstName) + ", " + normalize(m.lastName);
    [name, name + " " + m.party, name + ", " + m.party, ReplaceChar(name, '-', " ")]
      + (if m.party == "Vooruit" then [name + ", sp.a", name + " sp.a"] else [])
  }

  function KeysOf(normalize: string -> string, scheme: Scheme, m: Member): seq<string> {
    match scheme
    case LastFirst => [LastFirstKey(normalize, m)]
    case NameParty => NamePartyKeys(normalize, m)
  }

  /** A member with the keys it is filed under. */
  datatype Entry = Entry(keys: seq<string>, member: Member)

  function Entries(normalize: string -> string, scheme: Scheme, ms: seq<Member>): seq<Entry> {
    seq(|ms|, i requires 0 <= i < |ms| => Entry(KeysOf(normalize, scheme, ms[i]), ms[i]))
  }

  /** Files `m` under each of `keys`, in order. */
  function Put(d: map<string, Member>, m: Member, keys: seq<string>): map<string, Member>
    decreases |keys|
  {
    if keys == [] then d else Put(d[keys[0] := m], m, keys[1..])
  }

  /** After filing, a key is present when it was or is one of `keys`, and then maps to `m`. */
  lemma {:induction false} PutKey(d: map<string, Member>, m: Member, keys: seq<string>, k: string)
    ensures k in Put(d, m, keys) <==> k in d || k in keys
    ensures k in Put(d, m, keys) ==> Put(d, m, keys)[k] == if k in keys then m else d[k]
    decreases |keys|
  {
    if keys != [] {
      PutKey(d[keys[0] := m], m, keys[1..], k);
    }
  }

  /** Files every entry in turn, so that a later entry overwrites an earlier one. */
  function Index(es: seq<Entry>): map<string, Member> {
    if es == [] then map[] else Put(Index(es[..|es| - 1]), es[|es| - 1].member, es[|es| - 1].keys)
  }

  function MembersIndex(normalize: string -> string, scheme: Scheme, ms: seq<Member>): map<string, Member> {
    Index(Entries(normalize, scheme, ms))
  }

  /** The keys of an index are exactly the keys of its entries. */
  lemma {:induction false} IndexKeys(es: seq<Entry>, k: string)
    ensures k in Index(es) <==> exists i :: 0 <= i < |es| && k in es[i].keys
  {
    if es != [] {
      var init := es[..|es| - 1];
      IndexKeys(init, k);
      PutKey(Index(init), es[|es| - 1].member, es[|es| - 1].keys, k);
      assert forall i :: 0 <= i < |init| ==> init[i] == es[i];
    }
  }

  /**
   * Each key maps to the member of the last entry holding that key: the
   * last-wins rule of a dictionary built by assignment.
   */
  lemma {:induction false} IndexLastWins(es: seq<Entry>, i: nat, k: string)
    requires i < |es| && k in es[i].keys
    requires forall j :: i < j < |es| ==> k !in es[j].keys
    ensures k in Index(es) && Index(es)[k] == es[i].member
  {
    var n := |es|;
    var init := es[..n - 1];
    PutKey(Index(init), es[n - 1].member, es[n - 1].keys, k);
    if i < n - 1 {
      assert forall j :: 0 <= j < |init| ==> init[j] == es[j];
      IndexLastWins(init, i, k);
    }
  }

  /** Every value of an index is the member of an entry holding its key. */
  lemma {:induction false} IndexValues(es: seq<Entry>, k: string)
    requires k in Index(es)
    ensures exists i :: 0 <= i < |es| && k in es[i].keys && Index(es)[k] == es[i].member
  {
    var n := |es|;
    var init := es[..n - 1];
    PutKey(Index(init), es[n - 1].member, es[n - 1].keys, k);
    if k !in es[n - 1].keys {
      assert forall j :: 0 <= j < |init| ==> init[j] == es[j];
      IndexValues(init, k);
    }
  }

  /** A member found under a key of an index over `ms` is one of `ms`, filed under that key. */
  lemma MembersIndexValues(normalize: string -> string, scheme: Scheme, ms: seq<Member>, k: string)
    requires k in MembersIndex(normalize, scheme, ms)
    ensures var m := MembersIndex(normalize, scheme, ms)[k]; m in ms && k in KeysOf(normalize, scheme, m)
  {
    IndexValues(Entries(normalize, scheme, ms), k);
  }

  /** The dictionary `get_members_dict` returns when it starts from `d`: built only when empty. */
  function DictAfter(normalize: string -> string, d: map<string, Member>, ms: seq<Member>): map<string, Member> {
    if d == map[] then MembersIndex(normalize, NameParty, ms) else d
  }

  /** Asking for the dictionary again changes nothing. */
  lemma DictAfterIdempotent(normalize: string -> string, d: map<string, Member>, ms: seq<Member>)
    ensures DictAfter(normalize, DictAfter(normalize, d, ms), ms) == DictAfter(normalize, d, ms)
  {
  }

  /** Every member of the roster is found under its plain "first, last" key, and a Vooruit member also under "sp.a". */
  lemma NamePartyCovers(normalize: string -> string, ms: seq<Member>, i: nat)
    requires i < |ms|
    ensures var name := normalize(ms[i].firstName) + ", " + normalize(ms[i].lastName);
      name in MembersIndex(normalize, NameParty, ms) &&
      (ms[i].party == "Vooruit" ==> name + ", sp.a" in MembersIndex(normalize, NameParty, ms))
  {
    var es := Entries(normalize, NameParty, ms);
    var keys := NamePartyKeys(normalize, ms[i]);
    assert es[i].keys == keys;
    IndexKeys(es, keys[0]);
    if ms[i].party == "Vooruit" {
      IndexKeys(es, keys[4]);
    }
  }

  // ---------------------------------------------------------------------
  // Member lookup

  /** The position of the first member for which `has_name(query)` holds. */
  function FirstNamed(hasName: (Member, string) -> bool, ms: seq<Member>, query: string): (r: Option<nat>)
    ensures r.Some? ==> r.value < |ms| && hasName(ms[r.value], query)
    ensures r.Some? ==> forall j :: 0 <= j < r.value ==> !hasName(ms[j], query)
    ensures r.None? ==> forall j :: 0 <= j < |ms| ==> !hasName(ms[j], query)
  {
    if ms == [] then None
    else if hasName(ms[0], query) then Some(0)
    else match FirstNamed(hasName, ms[1..], query)
      case None => None
      case Some(j) => Some(j + 1)
  }

  /**
   * What `find_member` answers once the roster is loaded: the entry of the
   * normalised query in the "last first" index, else the first member that
   * carries the name, else nothing.
   */
  function FindSpec(normalize: string -> string, hasName: (Member, string) -> bool,
                    index: map<string, Member>, ms: seq<Member>, query: string): Option<Member>
  {
    var key := normalize(query);
    if key in index then Some(index[key])
    else match FirstNamed(hasName, ms, query)
      case Some(i) => Some(ms[i])
      case None => None
  }

  /** `find_member` as a function of the query, on the roster `ms` and its "last first" index. */
  function Finder(normalize: string -> string, hasName: (Member, string) -> bool, ms: seq<Member>): string -> Option<Member> {
    query => FindSpec(normalize, hasName, MembersIndex(normalize, LastFirst, ms), ms, query)
  }

  /** A member found is a member of the roster. */
  lemma FindSpecSound(normalize: string -> string, hasName: (Member, string) -> bool, ms: seq<Member>, query: string)
    requires FindSpec(normalize, hasName, MembersIndex(normalize, LastFirst, ms), ms, query).Some?
    ensures FindSpec(normalize, hasName, MembersIndex(normalize, LastFirst, ms), ms, query).value in ms
  {
    var key := normalize(query);
    if key in MembersIndex(normalize, LastFirst, ms) {
      MembersIndexValues(normalize, LastFirst, ms, key);
    }
  }

  /**
   * Nobody is found exactly when no member's "last first" key is the
   * normalised query and no member carries the name.
   */
  lemma FindSpecNone(normalize: string -> string, hasName: (Member, string) -> bool, ms: seq<Member>, query: string)
    ensures FindSpec(normalize, hasName, MembersIndex(normalize, LastFirst, ms), ms, query).None? <==>
      forall i :: 0 <= i < |ms| ==> LastFirstKey(normalize, ms[i]) != normalize(query) && !hasName(ms[i], query)
  {
    var key := normalize(query);
    var es := Entries(normalize, LastFirst, ms);
    IndexKeys(es, key);
    assert forall i :: 0 <= i < |ms| ==> es[i].keys == [LastFirstKey(normalize, ms[i])];
  }

  /** A query that is some member's "last first" name finds the last such member. */
  lemma FindSpecExact(normalize: string -> string, hasName: (Member, string) -> bool, ms: seq<Member>, query: string, i: nat)
    requires i < |ms| && LastFirstKey(normalize, ms[i]) == normalize(query)
    requires forall j :: i < j < |ms| ==> LastFirstKey(normalize, ms[j]) != normalize(query)
    ensures FindSpec(normalize, hasName, MembersIndex(normalize, LastFirst, ms), ms, query) == Some(ms[i])
  {
    var es := Entries(normalize, LastFirst, ms);
    assert forall j :: 0 <= j < |ms| ==> es[j].keys == [LastFirstKey(normalize, ms[j])];
    IndexLastWins(es, i, normalize(query));
  }

  // ---------------------------------------------------------------------
  // The session

  class ParliamentarySession {
    const session: int
    const start: string
    const end: string
    /** The members listed in `data/composition/<session>.json`, parsed. */
    const roster: seq<Member>
    /** `normalize_str(text).decode()`: cleaning followed by the ASCII folding. */
    const normalize: string -> string
    /** `Member.has_name`. */
    const hasName: (Member, string) -> bool

    var members: seq<Member>
    var membersDict: map<string, Member>
    var fnLn: map<string, Member>
    var documents: map<string, DocumentRecord>
    var questions: map<string, QuestionRecord>

    /** The members `get_members` gives: the roster, loaded on first use. */
    function Loaded(): seq<Member>
      reads this
    {
      if members == [] then roster else members
    }

    /** The "last first" index always describes the loaded roster. */
    predicate Valid()
      reads this
    {
      fnLn == MembersIndex(normalize, LastFirst, members)
    }

    constructor (session: int, roster: seq<Member>, fold: string -> string, hasName: (Member, string) -> bool)
      requires SessionRange(session).Ok?
      ensures this.session == session && (start, end) == SessionRange(session).value
      ensures this.roster == roster && this.hasName == hasName
      ensures forall t :: normalize(t) == NormalizeStr(fold, t)
      ensures members == [] && membersDict == map[] && documents == map[] && questions == map[]
      ensures Valid()
    {
      this.session := session;
      var range := SessionRange(session).value;
      start := range.0;
      end := range.1;
      this.roster := roster;
      normalize := t => NormalizeStr(fold, t);
      this.hasName := hasName;
      members := [];
      membersDict := map[];
      fnLn := map[];
      documents := map[];
      questions := map[];
    }

    /** `get_members`: load the roster once and index it by "last first". */
    method GetMembers() returns (ms: seq<Member>)
      requires Valid()
      modifies this
      ensures Valid()
      ensures members == if old(members) == [] then roster else old(members)
      ensures ms == members
      ensures membersDict == old(membersDict) && documents == old(documents) && questions == old(questions)
    {
      if members == [] {
        members := roster;
        fnLn := MembersIndex(normalize, LastFirst, members);
      }
      ms := members;
    }

    /** `get_members_dict`: build the name-and-party index when it is empty. */
    method GetMembersDict() returns (d: map<string, Member>)
      modifies this
      ensures membersDict == DictAfter(normalize, old(membersDict), members)
      ensures d == membersDict
      ensures members == old(members) && fnLn == old(fnLn)
      ensures documents == old(documents) && questions == old(questions)
    {
      if membersDict == map[] {
        membersDict := BuildNameParty(normalize, members);
      }
      d := membersDict;
    }

    /**
     * `find_member`: load the roster if need be, then look the query up
     * by its normalised "last first" form, then by `has_name`.
     */
    method FindMember(query: string) returns (r: Option<Member>)
      requires Valid()
      modifies this
      ensures Valid()
      ensures members == if old(members) == [] then roster else old(members)
      ensures membersDict == old(membersDict) && documents == old(documents) && questions == old(questions)
      ensures r == FindSpec(normalize, hasName, fnLn, members, query)
    {
      if members == [] {
        var _ := GetMembers();
      }
      var normalized := normalize(query);
      if normalized in fnLn {
        return Some(fnLn[normalized]);
      }
      var i := 0;
      while i < |members|
        invariant 0 <= i <= |members|
        invariant forall j :: 0 <= j < i ==> !hasName(members[j], query)
      {
        if hasName(members[i], query) {
          FirstNamedIs(hasName, members, query, i);
          return Some(members[i]);
        }
        i := i + 1;
      }
      return None;
    }

    /**
     * One normalised author name looked up in the members dictionary
     * (built on first use): as it is, else through `extract_name`.
     */
    method ResolveAuthor(name: string) returns (author: Option<Member>)
      modifies this
      ensures membersDict == DictAfter(normalize, old(membersDict), members)
      ensures author == ResolveKey(membersDict, name)
      ensures members == old(members) && fnLn == old(fnLn)
      ensures documents == old(documents) && questions == old(questions)
    {
      var d := GetMembersDict();
      DictAfterIdempotent(normalize, old(membersDict), members);
      if name in d {
        return Some(d[name]);
      }
      d := GetMembersDict();
      if ExtractName(name) in d {
        d := GetMembersDict();
        author := Some(d[ExtractName(name)]);
      } else {
        author := None;
      }
    }

    /**
     * The lookup of an author list on a loaded page: every name is
     * normalised and looked up in the members dictionary (built on first
     * use), first as it is, then through `extract_name`.
     */
    method ResolveAuthors(names: seq<string>) returns (authors: seq<Member>)
      modifies this
      ensures membersDict == if names == [] then old(membersDict) else DictAfter(normalize, old(membersDict), members)
      ensures authors == ResolvedAuthors(membersDict, NormalizedNames(normalize, names))
      ensures members == old(members) && fnLn == old(fnLn)
      ensures documents == old(documents) && questions == old(questions)
    {
      ghost var keys := NormalizedNames(normalize, names);
      authors := [];
      var i := 0;
      while i < |names|
        invariant 0 <= i <= |names|
        invariant members == old(members) && fnLn == old(fnLn)
        invariant documents == old(documents) && questions == old(questions)
        invariant membersDict == if i == 0 then old(membersDict) else DictAfter(normalize, old(membersDict), members)
        invariant authors == ResolvedAuthors(membersDict, keys[..i])
      {
        var name := normalize(names[i]);
        var author := ResolveAuthor(name);
        DictAfterIdempotent(normalize, old(membersDict), members);
        assert ResolvedAuthors(membersDict, keys[..i]) == authors by {
          if i == 0 { assert keys[..i] == []; }
        }
        if author.Some? {
          authors := authors + [author.value];
        }
        assert keys[..i + 1][..i] == keys[..i];
        assert keys[..i + 1][i] == name;
        i := i + 1;
      }
      assert keys[..i] == keys;
    }

    /**
     * `ParliamentaryDocument(session, number)`: load the page (retrying on
     * the error notice), register the document, then post one legislative
     * activity per author. A page without a document-type row raises
     * before anything is registered.
     */
    method NewDocument(number: string, fetch: nat -> Page<DocumentPage>, log: ActivityLog)
      returns (r: Outcome<DocumentRecord>)
      modifies this, log
      ensures var page := Initialize(fetch, 0).0;
        r == DocumentOf(number, Date(start), page, ResolvedAuthors(membersDict, NormalizedNames(normalize, DocumentNames(page))))
      ensures var page := Initialize(fetch, 0).0;
        membersDict == if DocumentNames(page) == [] then old(membersDict) else DictAfter(normalize, old(membersDict), members)
      ensures r.Ok? ==> documents == old(documents)[number := r.value]
      ensures r.Ok? ==> log.posted == old(log.posted) + Posts(r.value.authors, r.value.date, Authored(DocumentUri(number)))
      ensures r.Raised? ==> documents == old(documents) && log.posted == old(log.posted)
      ensures members == old(members) && fnLn == old(fnLn) && questions == old(questions)
    {
      var page := Initialize(fetch, 0).0;
      var authors := ResolveAuthors(DocumentNames(page));
      r := DocumentOf(number, Date(start), page, authors);
      if r.Raised? {
        return;
      }
      documents := documents[number := r.value];
      log.PostEach(r.value.authors, r.value.date, Authored(DocumentUri(number)));
    }

    /**
     * `ParliamentaryQuestion(session, number)`: load the page (retrying on
     * the error notice), register the question, then post one question
     * activity per author.
     */
    method NewQuestion(number: string, fetch: nat -> Page<QuestionPage>, log: ActivityLog)
      returns (q: QuestionRecord)
      modifies this, log
      ensures var page := Initialize(fetch, 0).0;
        q == QuestionOf(number, Date(start), page, ResolvedAuthors(membersDict, NormalizedNames(normalize, QuestionNames(page))))
      ensures var page := Initialize(fetch, 0).0;
        membersDict == if QuestionNames(page) == [] then old(membersDict) else DictAfter(normalize, old(membersDict), members)
      ensures questions == old(questions)[number := q]
      ensures log.posted == old(log.posted) + Posts(q.authors, q.date, QuestionAsked(QuestionUri(number)))
      ensures members == old(members) && fnLn == old(fnLn) && documents == old(documents)
    {
      var page := Initialize(fetch, 0).0;
      var authors := ResolveAuthors(QuestionNames(page));
      q := QuestionOf(number, Date(start), page, authors);
      questions := questions[number := q];
      log.PostEach(q.authors, q.date, QuestionAsked(QuestionUri(number)));
    }
  }

  /** The loop of `get_members_dict`: file every member in roster order. */
  method BuildNameParty(normalize: string -> string, ms: seq<Member>) returns (d: map<string, Member>)
    ensures d == MembersIndex(normalize, NameParty, ms)
  {
    ghost var es := Entries(normalize, NameParty, ms);
    d := map[];
    var i := 0;
    while i < |ms|
      invariant 0 <= i <= |ms| == |es|
      invariant d == Index(es[..i])
    {
      d := FileByNameParty(normalize, d, ms[i]);
      assert es[..i + 1][..i] == es[..i];
      i := i + 1;
    }
    assert es[..i] == es;
  }

  /** One round of `get_members_dict`'s loop: the single assignments for one member. */
  method FileByNameParty(normalize: string -> string, d: map<string, Member>, member: Member)
    returns (r: map<string, Member>)
    ensures r == Put(d, member, NamePartyKeys(normalize, member))
  {
    var firstName := normalize(member.firstName);
    var lastName := normalize(member.lastName);
    var name := firstName + ", " + lastName;
    r := d[name := member];
    r := r[name + " " + member.party := member];
    r := r[name + ", " + member.party := member];
    r := r[ReplaceChar(name, '-', " ") := member];
    if member.party == "Vooruit" {
      r := r[name + ", sp.a" := member];
      r := r[name + " sp.a" := member];
    }
    PutSpelledOut(d, r, member, NamePartyKeys(normalize, member));
  }

  /** Six (or four) single assignments file a member exactly as `Put` does. */
  lemma PutSpelledOut(before: map<string, Member>, after: map<string, Member>, m: Member, keys: seq<string>)
    requires forall k :: k in after <==> k in before || k in keys
    requires forall k :: k in after ==> after[k] == if k in keys then m else before[k]
    ensures after == Put(before, m, keys)
  {
    forall k
      ensures (k in after <==> k in Put(before, m, keys)) && (k in after ==> after[k] == Put(before, m, keys)[k])
    {
      PutKey(before, m, keys, k);
    }
  }

  lemma FirstNamedIs(hasName: (Member, string) -> bool, ms: seq<Member>, query: string, i: nat)
    requires i < |ms| && hasName(ms[i], query)
    requires forall j :: 0 <= j < i ==> !hasName(ms[j], query)
    ensures FirstNamed(hasName, ms, query) == Some(i)
  {
  }
}
