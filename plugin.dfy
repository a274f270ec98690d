/** The pieces of Plugin.php that exist only there, as closures handed to the host: the dashboard
    widget's trend direction, the ticket-list NPS column and the contact sidebar. */
module Plugin {
  import opened PhpValues
  import opened Config
  import opened Responses
  import opened Scoring

  // ---------------------------------------------------------------------------
  // Dashboard widget
  // ---------------------------------------------------------------------------

  datatype Direction = Up | Down | Stable

  /** The widget's trend arrow: a move of more than two points up or down; stable otherwise. */
  function TrendDirection(current: int, previous: int): (d: Direction)
    ensures d == Up <==> current > previous + 2
    ensures d == Down <==> current < previous - 2
    ensures d == Stable <==> previous - 2 <= current <= previous + 2
  {
    if current > previous + 2 then Up
    else if current < previous - 2 then Down
    else Stable
  }

  /** Swapping the two scores swaps up and down and keeps stable. */
  lemma {:induction false} DirectionSwaps(a: int, b: int)
    ensures TrendDirection(a, b) == Up <==> TrendDirection(b, a) == Down
    ensures TrendDirection(a, b) == Stable <==> TrendDirection(b, a) == Stable
  {
  }

  /** What the widget shows. */
  datatype WidgetData = WidgetData(nps: NpsResult, trend: Direction, previousScore: int, enabled: bool)

  /** The widget closure: the score over every stored response, compared with the score of the
      older month of a two-month trend (0 if there were none). */
  function Widget(settings: map<string, Value>, records: seq<Response>, calendar: nat -> Month,
                  parse: string -> Option<int>): (w: WidgetData)
    ensures w.nps == Nps(records)
    ensures w.nps.total == |records| && -100 <= w.nps.score <= 100
    ensures w.previousScore == PointFor(Query(records, NoFilters(), parse), calendar(1)).score
    ensures -100 <= w.previousScore <= 100
    ensures w.trend == Up <==> w.nps.score > w.previousScore + 2
    ensures w.trend == Down <==> w.nps.score < w.previousScore - 2
    ensures w.enabled <==> Enabled(settings)
  {
    var nps := Nps(records);
    var trend := TrendOf(Query(records, NoFilters(), parse), 2, calendar);
    var previous := if |trend| > 0 then trend[0].score else 0;
    WidgetData(nps, TrendDirection(nps.score, previous), previous, Enabled(settings))
  }

  /** With no responses at all the widget shows a zero score, a zero previous score and a stable
      trend. */
  lemma WidgetWithoutResponses(settings: map<string, Value>, calendar: nat -> Month, parse: string -> Option<int>)
    ensures var w := Widget(settings, [], calendar, parse);
            w.nps == Zero() && w.previousScore == 0 && w.trend == Stable
  {
    var q := Query([], NoFilters(), parse);
    assert |multiset(q)| == 0;
    assert q == [];
    assert InMonthOf(q, calendar(1)) == [];
  }

  // ---------------------------------------------------------------------------
  // Ticket-list column
  // ---------------------------------------------------------------------------

  /** The ticket id the column resolver reads: `id`, or "" without one. */
  function TicketKey(ticket: map<string, Value>): string {
    StrCast(Lookup(ticket, "id", Str("")))
  }

  /** The query the resolver runs: the ticket's responses, at most one. */
  function ColumnFilter(ticket: map<string, Value>): Filters {
    NoFilters().(ticketId := Some(TicketKey(ticket)), limit := Some(1))
  }

  /** The column resolver: the score of the newest response the query returns, or null. */
  function ColumnScore(records: seq<Response>, ticket: map<string, Value>, parse: string -> Option<int>)
    : (score: Option<int>)
    ensures score.Some? ==> exists r :: r in Query(records, ColumnFilter(ticket), parse)
                                        && FieldMatches(r.ticketId, Some(TicketKey(ticket)))
                                        && r.score == score
  {
    var q := Query(records, ColumnFilter(ticket), parse);
    if q == [] then None else q[0].score
  }

  /** With limit 1 the query keeps the newest matching response. */
  lemma ColumnQueryHead(records: seq<Response>, ticket: map<string, Value>, parse: string -> Option<int>)
    ensures var all := Select(SortNewestFirst(records), ColumnFilter(ticket), parse);
            NewestFirst(all) && ColumnScore(records, ticket, parse) == if all == [] then None else all[0].score
  {
    SelectKeepsOrder(SortNewestFirst(records), ColumnFilter(ticket), parse);
  }

  /** The first of a newest-first sequence is at least as new as any of its elements. */
  lemma HeadIsNewest(s: seq<Response>, r: Response)
    requires NewestFirst(s) && r in s
    ensures StrLeq(CreatedKey(r), CreatedKey(s[0]))
  {
    var k :| 0 <= k < |s| && s[k] == r;
    if k == 0 { StrLeqRefl(CreatedKey(r)); }
  }

  /** The responses the resolver's query picks from are exactly the stored responses carrying the
      ticket's id. */
  lemma ColumnCandidates(records: seq<Response>, ticket: map<string, Value>, parse: string -> Option<int>,
                         r: Response)
    ensures (r in Select(SortNewestFirst(records), ColumnFilter(ticket), parse))
              == (r in records && FieldMatches(r.ticketId, Some(TicketKey(ticket))))
  {
    var all := Select(SortNewestFirst(records), ColumnFilter(ticket), parse);
    assert Matches(r, ColumnFilter(ticket), parse) <==> FieldMatches(r.ticketId, Some(TicketKey(ticket)));
    assert r in all <==> multiset(all)[r] > 0;
    assert r in records <==> multiset(records)[r] > 0;
  }

  /** The column is null when no response carries the ticket's id. */
  lemma ColumnNullWithoutResponse(records: seq<Response>, ticket: map<string, Value>, parse: string -> Option<int>)
    requires forall i :: 0 <= i < |records| ==> !FieldMatches(records[i].ticketId, Some(TicketKey(ticket)))
    ensures ColumnScore(records, ticket, parse) == None
  {
    var all := Select(SortNewestFirst(records), ColumnFilter(ticket), parse);
    ColumnQueryHead(records, ticket, parse);
    forall r ensures multiset(all)[r] == 0 {
      ColumnCandidates(records, ticket, parse, r);
    }
    assert multiset(all) == multiset{};
  }

  /** Otherwise the column shows the score of a newest response carrying the ticket's id. A ticket
      without an id matches every response, so its column shows the newest response overall. */
  lemma ColumnShowsNewest(records: seq<Response>, ticket: map<string, Value>, parse: string -> Option<int>, i: nat)
    requires i < |records| && FieldMatches(records[i].ticketId, Some(TicketKey(ticket)))
    ensures exists w :: w in records && FieldMatches(w.ticketId, Some(TicketKey(ticket)))
                        && ColumnScore(records, ticket, parse) == w.score
                        && forall j :: 0 <= j < |records| && FieldMatches(records[j].ticketId, Some(TicketKey(ticket)))
                                       ==> StrLeq(CreatedKey(records[j]), CreatedKey(w))
  {
    var all := Select(SortNewestFirst(records), ColumnFilter(ticket), parse);
    ColumnQueryHead(records, ticket, parse);
    ColumnCandidates(records, ticket, parse, records[i]);
    var w := all[0];
    ColumnCandidates(records, ticket, parse, w);
    forall j | 0 <= j < |records| && FieldMatches(records[j].ticketId, Some(TicketKey(ticket)))
      ensures StrLeq(CreatedKey(records[j]), CreatedKey(w))
    {
      ColumnCandidates(records, ticket, parse, records[j]);
      HeadIsNewest(all, records[j]);
    }
  }

  // ---------------------------------------------------------------------------
  // Contact sidebar
  // ---------------------------------------------------------------------------

  /** What the sidebar shows. */
  datatype SidebarData = SidebarData(responses: seq<Response>, nps: NpsResult)

  /** The sidebar closure: without a contact id, nothing and an all-zero score; otherwise the ten
      newest of the contact's responses and the score over all of them. */
  function Sidebar(records: seq<Response>, context: map<string, Value>, parse: string -> Option<int>)
    : (s: SidebarData)
    ensures |s.responses| <= 10
    ensures Empty(Lookup(context, "contact_id", Str(""))) ==> s == SidebarData([], Zero())
  {
    var contact := Lookup(context, "contact_id", Str(""));
    if Empty(contact) then SidebarData([], Nps([]))
    else
      var history := ForContact(records, StrCast(contact), parse);
      SidebarData(history[..if |history| < 10 then |history| else 10], Nps(history))
  }

  /** A non-empty contact id casts to a non-empty string. */
  lemma ContactCastNonEmpty(v: Value)
    requires !Empty(v)
    ensures !EmptyStr(StrCast(v))
  {
    if v.Int? {
      IntRenderingEmpty(v.i);
    }
  }

  /** A prefix of a newest-first sequence is newest first. */
  lemma PrefixNewestFirst(s: seq<Response>, n: nat)
    requires NewestFirst(s) && n <= |s|
    ensures NewestFirst(s[..n])
  {
    forall i, j | 0 <= i < j < n ensures StrLeq(CreatedKey(s[..n][j]), CreatedKey(s[..n][i])) {
      assert s[..n][i] == s[i] && s[..n][j] == s[j];
    }
  }

  /** For a contact id, the sidebar lists the newest of that contact's responses, newest first, up to
      ten, while its score counts every response of the contact. */
  lemma SidebarShowsNewestTen(records: seq<Response>, context: map<string, Value>, parse: string -> Option<int>)
    requires !Empty(Lookup(context, "contact_id", Str("")))
    ensures !EmptyStr(StrCast(Lookup(context, "contact_id", Str(""))))
    ensures var history := ForContact(records, StrCast(Lookup(context, "contact_id", Str(""))), parse);
            var s := Sidebar(records, context, parse);
            s.responses == history[..|s.responses|]
            && |s.responses| == (if |history| < 10 then |history| else 10)
            && NewestFirst(s.responses)
            && s.nps == Nps(history) && s.nps.total == |history|
  {
    ContactCastNonEmpty(Lookup(context, "contact_id", Str("")));
    var history := ForContact(records, StrCast(Lookup(context, "contact_id", Str(""))), parse);
    PrefixNewestFirst(history, if |history| < 10 then |history| else 10);
  }

  /** Every response the sidebar lists is a stored response of the contact. */
  lemma SidebarOnlyContact(records: seq<Response>, context: map<string, Value>, parse: string -> Option<int>)
    requires !Empty(Lookup(context, "contact_id", Str("")))
    ensures var contact := StrCast(Lookup(context, "contact_id", Str("")));
            var s := Sidebar(records, context, parse);
            forall i :: 0 <= i < |s.responses| ==>
              s.responses[i] in records && OrElse(s.responses[i].contactId, "") == contact
  {
    var contact := StrCast(Lookup(context, "contact_id", Str("")));
    ContactCastNonEmpty(Lookup(context, "contact_id", Str("")));
    var history := ForContact(records, contact, parse);
    var listed := Sidebar(records, context, parse).responses;
    assert listed == history[..|listed|];
    forall i | 0 <= i < |listed|
      ensures listed[i] in records && OrElse(listed[i].contactId, "") == contact
    {
      InContactHistory(records, contact, parse, history[i]);
    }
  }
}
