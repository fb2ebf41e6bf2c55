/**
 * The ticket compliance section of a review: a compliance level for each
 * ticket, an overall level for the pull request, and the section appended
 * to the review markdown.
 */
module Compliance {
  import opened Wrappers
  import opened Text
  import opened PyValues
  import MarkdownUtils

  datatype Level = FullyCompliant | PartiallyCompliant | NotCompliant | CodeVerified
  {
    function Name(): string
    {
      match this
      case FullyCompliant => "Fully compliant"
      case PartiallyCompliant => "Partially compliant"
      case NotCompliant => "Not compliant"
      case CodeVerified => "PR Code Verified"
    }

    /** The mark shown beside the overall level. */
    function Mark(): string
    {
      match this
      case FullyCompliant => CompliantMark
      case CodeVerified => CompliantMark
      case PartiallyCompliant => PartialMark
      case NotCompliant => NotCompliantMark
    }
  }

  const CompliantMark := "✅"
  const PartialMark := "🔶"
  const NotCompliantMark := "❌"

  /**
   * The level of one ticket from its stripped requirement texts: both kinds
   * of requirement give a partial level, compliant ones alone a full level
   * (or a verified one when a human still has to check something), and
   * non-compliant ones alone no compliance. A ticket with neither has none.
   */
  function TicketLevel(fully: string, notCompliant: string, human: string): (r: Option<Level>)
    ensures r.None? <==> fully == "" && notCompliant == ""
    ensures r == Some(PartiallyCompliant) <==> fully != "" && notCompliant != ""
    ensures r == Some(FullyCompliant) <==> fully != "" && notCompliant == "" && human == ""
    ensures r == Some(CodeVerified) <==> fully != "" && notCompliant == "" && human != ""
    ensures r == Some(NotCompliant) <==> fully == "" && notCompliant != ""
  {
    if fully != "" then
      if notCompliant != "" then Some(PartiallyCompliant)
      else if human == "" then Some(FullyCompliant)
      else Some(CodeVerified)
    else if notCompliant != "" then Some(NotCompliant)
    else None
  }

  /**
   * The overall level, decided by the checks in the order the formatter
   * makes them. Read off which levels occur: fully compliant when every
   * ticket is; verified when every ticket is fully compliant or verified
   * and at least one is verified; not compliant when some ticket is not
   * and none is fully compliant or verified (partial tickets do not lift
   * it); partially compliant in the remaining cases.
   */
  function Aggregate(levels: seq<Level>): (r: Level)
    requires levels != []
    ensures (r == FullyCompliant) <==> forall l :: l in levels ==> l == FullyCompliant
    ensures (r == CodeVerified)
              <==> (forall l :: l in levels ==> l == FullyCompliant || l == CodeVerified) && CodeVerified in levels
    ensures (r == NotCompliant)
              <==> NotCompliant in levels && FullyCompliant !in levels && CodeVerified !in levels
    ensures (r == PartiallyCompliant)
              <==> (NotCompliant in levels && (FullyCompliant in levels || CodeVerified in levels))
                   || (NotCompliant !in levels && PartiallyCompliant in levels)
  {
    assert levels[0] in levels;
    if forall l :: l in levels ==> l == FullyCompliant then FullyCompliant
    else if forall l :: l in levels ==> l == CodeVerified then CodeVerified
    else if NotCompliant in levels then
      if FullyCompliant in levels || CodeVerified in levels then PartiallyCompliant else NotCompliant
    else if PartiallyCompliant in levels then PartiallyCompliant
    else CodeVerified
  }

  /** The overall level depends only on which levels occur, not on their order or repetition. */
  lemma AggregateOrderFree(a: seq<Level>, b: seq<Level>)
    requires a != [] && b != []
    requires forall l :: l in a <==> l in b
    ensures Aggregate(a) == Aggregate(b)
  {
  }

  /** The mark of the overall level; no mark when no ticket has a level. */
  function OverallMark(levels: seq<Level>): string
  {
    if levels == [] then "" else Aggregate(levels).Mark()
  }

  // ----- the section -----

  /** The text after the last '/' of a ticket URL, which names the ticket. */
  function LastSegment(url: string): string
  {
    var parts := Split(url, "/");
    parts[|parts| - 1]
  }

  /** Past the first '/', the URL has the same last segment. */
  lemma LastSegmentStep(url: string, i: nat)
    requires i == Find(url, "/") && i != -1
    ensures i < |url| && LastSegment(url) == LastSegment(url[i + 1..])
  {
    assert Split(url, "/") == [url[..i]] + Split(url[i + 1..], "/");
  }

  /** The link text holds no '/'. */
  lemma {:induction false} LastSegmentFree(url: string)
    ensures Free(LastSegment(url), '/')
    decreases |url|
  {
    var i := Find(url, "/");
    if i == -1 {
      NotFoundFree(url, '/');
    } else {
      LastSegmentStep(url, i);
      LastSegmentFree(url[i + 1..]);
    }
  }

  /** The link text is where the URL ends. */
  lemma {:induction false} LastSegmentSuffix(url: string)
    ensures EndsWith(url, LastSegment(url))
    decreases |url|
  {
    var i := Find(url, "/");
    if i != -1 {
      LastSegmentStep(url, i);
      LastSegmentSuffix(url[i + 1..]);
      EndsWithSuffix(url, i + 1, LastSegment(url[i + 1..]));
    }
  }

  /** The requirement texts of a ticket, each under its heading. */
  function Explanation(fully: string, notCompliant: string, human: string): string
  {
    var a := if fully != "" then "Compliant requirements:\n\n" + fully + "\n\n" else "";
    var b := if notCompliant != "" then a + "Non-compliant requirements:\n\n" + notCompliant + "\n\n" else a;
    if human != "" then b + "Requires further human verification:\n\n" + human + "\n\n" else b
  }

  /** A ticket's entry: its link, named by the URL's last segment, its level and its explanation. */
  function Entry(url: string, level: Level, explanation: string): string
  {
    "\n\n**[" + LastSegment(url) + "](" + url + ") - " + level.Name() + "**\n\n" + explanation + "\n\n"
  }

  datatype Ticket = Ticket(level: Level, entry: string)

  /**
   * One ticket of the list: `None` when it is skipped, because it has no
   * requirement text or because reading it raises (an entry that is not a
   * dictionary, a field that is not text), which the loop catches.
   */
  function TicketOf(t: Value): Option<Ticket>
  {
    if !t.Dict? then None
    else
      var url := MarkdownUtils.TextField(t.fields, "ticket_url");
      var fully := MarkdownUtils.TextField(t.fields, "fully_compliant_requirements");
      var notCompliant := MarkdownUtils.TextField(t.fields, "not_compliant_requirements");
      var human := MarkdownUtils.TextField(t.fields, "requires_further_human_verification");
      if url.Err? || fully.Err? || notCompliant.Err? || human.Err? then None
      else
        match TicketLevel(fully.value, notCompliant.value, human.value)
        case None => None
        case Some(level) =>
          Some(Ticket(level, Entry(url.value, level, Explanation(fully.value, notCompliant.value, human.value))))
  }

  /** The entries and the levels of the tickets kept so far, in list order. */
  datatype Tally = Tally(text: string, levels: seq<Level>)

  function TicketsTally(tickets: seq<Value>): (r: Tally)
    ensures |r.levels| <= |tickets|
  {
    if tickets == [] then Tally("", [])
    else
      var prev := TicketsTally(tickets[..|tickets| - 1]);
      match TicketOf(tickets[|tickets| - 1])
      case None => prev
      case Some(t) => Tally(prev.text + t.entry, prev.levels + [t.level])
  }

  /**
   * `ticket_markdown_logic`: for a list of tickets, the markdown so far
   * followed by the compliance section (a table row with GitHub markdown, a
   * heading otherwise) headed by the overall mark; any other value leaves
   * the markdown as it was.
   */
  function TicketMarkdown(emoji: string, markdownText: string, value: Value, gfm: bool): (r: string)
    ensures !value.List? ==> r == markdownText
    ensures StartsWith(r, markdownText)
  {
    if !value.List? then markdownText
    else
      var tally := TicketsTally(value.items);
      var mark := OverallMark(tally.levels);
      if gfm then
        markdownText + "<tr><td>\n\n" + "**" + emoji + " Ticket compliance analysis " + mark + "**\n\n"
        + tally.text + "</td></tr>\n"
      else
        markdownText + "### " + emoji + " Ticket compliance analysis " + mark + "\n\n" + tally.text + "\n\n"
  }

  /** A ticket with neither compliant nor non-compliant text adds neither a level nor an entry. */
  lemma EmptyTicketSkipped(tickets: seq<Value>, t: Value)
    requires t.Dict? && MarkdownUtils.TextField(t.fields, "fully_compliant_requirements") == Ok("")
    requires MarkdownUtils.TextField(t.fields, "not_compliant_requirements") == Ok("")
    ensures TicketsTally(tickets + [t]) == TicketsTally(tickets)
  {
    assert (tickets + [t])[..|tickets|] == tickets;
  }

  /** A kept ticket adds its level and, after the earlier entries, its entry naming the ticket by its URL's last segment. */
  lemma KeptTicketListed(tickets: seq<Value>, t: Value)
    requires TicketOf(t).Some?
    ensures var prev := TicketsTally(tickets);
            var url := MarkdownUtils.TextField(t.fields, "ticket_url").value;
            var now := TicketsTally(tickets + [t]);
            && now.levels == prev.levels + [TicketOf(t).value.level]
            && StartsWith(now.text, prev.text)
            && StartsWith(now.text[|prev.text|..], "\n\n**[" + LastSegment(url) + "](" + url + ") - "
                                                   + TicketOf(t).value.level.Name() + "**")
  {
    assert (tickets + [t])[..|tickets|] == tickets;
    var prev := TicketsTally(tickets);
    var now := TicketsTally(tickets + [t]);
    assert now.text == prev.text + TicketOf(t).value.entry;
    assert now.text[|prev.text|..] == TicketOf(t).value.entry;
  }

  /** One ticket read as the loop body does, returning `None` where it `continue`s. */
  method ProcessTicket(ticketAnalysis: Value) returns (r: Option<Ticket>)
    ensures r == TicketOf(ticketAnalysis)
  {
    if !ticketAnalysis.Dict? {
      return None;
    }
    var d := ticketAnalysis.fields;
    var ticketUrl := MarkdownUtils.TextField(d, "ticket_url");
    var fullyCompliantStr := MarkdownUtils.TextField(d, "fully_compliant_requirements");
    var notCompliantStr := MarkdownUtils.TextField(d, "not_compliant_requirements");
    var human := MarkdownUtils.TextField(d, "requires_further_human_verification");
    if ticketUrl.Err? || fullyCompliantStr.Err? || notCompliantStr.Err? || human.Err? {
      return None;
    }
    if fullyCompliantStr.value == "" && notCompliantStr.value == "" {
      return None;
    }
    var level := TicketLevel(fullyCompliantStr.value, notCompliantStr.value, human.value).value;
    var explanation := "";
    if fullyCompliantStr.value != "" {
      explanation := "Compliant requirements:\n\n" + fullyCompliantStr.value + "\n\n";
    }
    if notCompliantStr.value != "" {
      explanation := explanation + "Non-compliant requirements:\n\n" + notCompliantStr.value + "\n\n";
    }
    if human.value != "" {
      explanation := explanation + "Requires further human verification:\n\n" + human.value + "\n\n";
    }
    assert explanation == Explanation(fullyCompliantStr.value, notCompliantStr.value, human.value);
    return Some(Ticket(level, Entry(ticketUrl.value, level, explanation)));
  }

  /** The loop of `ticket_markdown_logic` over the tickets, collecting entries and levels. */
  method TallyTickets(tickets: seq<Value>) returns (ticketComplianceStr: string, allComplianceLevels: seq<Level>)
    ensures Tally(ticketComplianceStr, allComplianceLevels) == TicketsTally(tickets)
  {
    ticketComplianceStr := "";
    allComplianceLevels := [];
    for k := 0 to |tickets|
      invariant TicketsTally(tickets[..k]) == Tally(ticketComplianceStr, allComplianceLevels)
    {
      assert tickets[..k + 1][..k] == tickets[..k];
      var t := ProcessTicket(tickets[k]);
      if t.Some? {
        allComplianceLevels := allComplianceLevels + [t.value.level];
        ticketComplianceStr := ticketComplianceStr + t.value.entry;
      }
    }
    assert tickets[..|tickets|] == tickets;
  }

  /** `ticket_markdown_logic`: the tickets' loop, the overall level, then the section. */
  method TicketMarkdownLogic(emoji: string, markdownText: string, value: Value, gfm: bool) returns (r: string)
    ensures r == TicketMarkdown(emoji, markdownText, value, gfm)
  {
    r := markdownText;
    if !value.List? {
      return;
    }
    var ticketComplianceStr, allComplianceLevels := TallyTickets(value.items);
    var complianceMark := "";
    if allComplianceLevels != [] {
      complianceMark := Aggregate(allComplianceLevels).Mark();
    }
    if gfm {
      r := r + "<tr><td>\n\n";
      r := r + "**" + emoji + " Ticket compliance analysis " + complianceMark + "**\n\n";
      r := r + ticketComplianceStr;
      r := r + "</td></tr>\n";
    } else {
      r := r + "### " + emoji + " Ticket compliance analysis " + complianceMark + "\n\n";
      r := r + ticketComplianceStr + "\n\n";
    }
  }
}
