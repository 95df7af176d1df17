/**
 * The two enumerations shared by the scraper, and the member record that the
 * extraction steps hand around.
 */
module Common {
  import opened Base

  /** The two languages of the meeting notes. */
  datatype Language = NL | FR

  /** How a member voted in a name vote. */
  datatype Choice = No | Yes | Abstention

  /** `str(choice)` of the Python enumeration. */
  function ChoiceStr(c: Choice): string {
    match c
    case No => "Choice.NO"
    case Yes => "Choice.YES"
    case Abstention => "Choice.ABSTENTION"
  }

  /** Reads back the text `str(choice)` produces. */
  function ChoiceFromStr(s: string): (r: Option<Choice>)
    ensures r.Some? ==> ChoiceStr(r.value) == s
  {
    if s == "Choice.NO" then Some(No)
    else if s == "Choice.YES" then Some(Yes)
    else if s == "Choice.ABSTENTION" then Some(Abstention)
    else None
  }

  /** A calendar date as produced by the date parser, kept as its ISO text. */
  datatype Date = Date(iso: string)

  /**
   * A member of parliament, as far as the extraction steps look at one:
   * an identifier, the two name parts and the party.
   */
  datatype Member = Member(uuid: string, firstName: string, lastName: string, party: string)

  /** The JSON values the records render to. */
  datatype Json =
    | JInt(i: int)
    | JStr(s: string)
    | JBool(b: bool)
    | JList(items: seq<Json>)
    | JObj(fields: map<string, Json>)

  /** `str(choice)` loses nothing: it reads back to the same choice. */
  lemma ChoiceStrRoundTrip(c: Choice)
    ensures ChoiceFromStr(ChoiceStr(c)) == Some(c)
  {
  }
}
