/** The host hooks (Handlers/EventHandler.php and the activation hook of Support/Config.php,
    duplicated in Plugin.php): a resolved ticket queues a survey after a chain of guards, the hourly
    cron runs the sweep, and activation creates the missing data files. */
module Events {
  import opened PhpValues
  import opened Config
  import opened Responses
  import opened Surveys

  /** The fields `onTicketResolved` reads off the ticket, each cast to a string. */
  datatype TicketFields = TicketFields(contact: string, ticket: string, agent: string, team: string,
                                       category: string)

  /** The contact falls back to `requester_id` and the agent from `assignee_id` to `agent_id`;
      every missing field reads as "". */
  function Fields(ticket: map<string, Value>): TicketFields {
    TicketFields(
      StrCast(Lookup(ticket, "contact_id", Lookup(ticket, "requester_id", Str("")))),
      StrCast(Lookup(ticket, "id", Str(""))),
      StrCast(Lookup(ticket, "assignee_id", Lookup(ticket, "agent_id", Str("")))),
      StrCast(Lookup(ticket, "team_id", Str(""))),
      StrCast(Lookup(ticket, "category", Str(""))))
  }

  /** Which guard of `onTicketResolved` stops the call, or `Enqueue` when none does. */
  datatype Decision = Disabled | MissingIds | Throttled | AlreadyPending | Enqueue

  /** The guard chain, in the source's order: enabled, both ids non-empty, `canSend`, then no
      pending survey for the contact. */
  function Decide(settings: map<string, Value>, responses: seq<Response>, surveys: seq<Survey>,
                  ticket: map<string, Value>, clock: Clock): (d: Decision)
    ensures !Enabled(settings) ==> d == Disabled
    ensures d == Enqueue <==>
              Enabled(settings) && !EmptyStr(Fields(ticket).contact) && !EmptyStr(Fields(ticket).ticket)
              && CanSend(settings, responses, surveys, Fields(ticket).contact, clock)
              && !PendingFor(surveys, Fields(ticket).contact)
  {
    var f := Fields(ticket);
    if !Enabled(settings) then Disabled
    else if EmptyStr(f.contact) || EmptyStr(f.ticket) then MissingIds
    else if !CanSend(settings, responses, surveys, f.contact, clock) then Throttled
    else if PendingFor(surveys, f.contact) then AlreadyPending
    else Enqueue
  }

  /** The survey a call that passes every guard appends. */
  function Enqueued(settings: map<string, Value>, ticket: map<string, Value>, clock: Clock,
                    freshId: string, token: string): Survey
  {
    var f := Fields(ticket);
    NewSurvey(settings, f.contact, f.ticket, f.agent, f.team, f.category, clock, freshId, token)
  }

  /** A fallback key is read only when the preferred key is absent or null. */
  lemma FallbacksOnlyWhenAbsent(ticket: map<string, Value>)
    ensures "contact_id" in ticket && ticket["contact_id"] != Null ==>
              Fields(ticket).contact == StrCast(ticket["contact_id"])
    ensures ("contact_id" !in ticket || ticket["contact_id"] == Null) ==>
              Fields(ticket).contact == StrCast(Lookup(ticket, "requester_id", Str("")))
    ensures "assignee_id" in ticket && ticket["assignee_id"] != Null ==>
              Fields(ticket).agent == StrCast(ticket["assignee_id"])
    ensures ("assignee_id" !in ticket || ticket["assignee_id"] == Null) ==>
              Fields(ticket).agent == StrCast(Lookup(ticket, "agent_id", Str("")))
  {
  }

  /** A ticket whose id is the number 0, or a missing or empty id, never queues a survey:
      `empty()` sees "0" and "" alike. */
  lemma EmptyTicketIdIgnored(settings: map<string, Value>, responses: seq<Response>, surveys: seq<Survey>,
                             ticket: map<string, Value>, clock: Clock)
    requires "id" !in ticket || ticket["id"] in {Null, Int(0), Str(""), Str("0")}
    ensures Decide(settings, responses, surveys, ticket, clock) != Enqueue
  {
    if "id" in ticket && ticket["id"] == Int(0) {
      IntRenderingEmpty(0);
    }
  }

  /** Once a ticket has queued a survey, resolving any ticket of the same contact again queues
      nothing, whatever the time: the new survey is pending. */
  lemma ResolvingAgainQueuesNothing(settings: map<string, Value>, responses: seq<Response>,
                                    surveys: seq<Survey>, ticket: map<string, Value>, clock: Clock,
                                    freshId: string, token: string, next: map<string, Value>, later: Clock)
    requires Decide(settings, responses, surveys, ticket, clock) == Enqueue
    requires Fields(next).contact == Fields(ticket).contact
    ensures var after := surveys + [Enqueued(settings, ticket, clock, freshId, token)];
            PendingFor(after, Fields(ticket).contact)
            && Decide(settings, responses, after, next, later) != Enqueue
  {
    var after := surveys + [Enqueued(settings, ticket, clock, freshId, token)];
    assert after[|surveys|].contactId == Fields(ticket).contact && after[|surveys|].status == Pending;
  }

  /** Queueing through the guard chain keeps pending surveys unique per contact. */
  lemma QueueingKeepsPendingUnique(settings: map<string, Value>, responses: seq<Response>,
                                   surveys: seq<Survey>, ticket: map<string, Value>, clock: Clock,
                                   freshId: string, token: string)
    requires PendingUnique(surveys)
    requires Decide(settings, responses, surveys, ticket, clock) == Enqueue
    ensures PendingUnique(surveys + [Enqueued(settings, ticket, clock, freshId, token)])
  {
    var s := Enqueued(settings, ticket, clock, freshId, token);
    var after := surveys + [s];
    forall i, j | 0 <= i < j < |after| && after[i].status == Pending && after[j].status == Pending
      ensures after[i].contactId != after[j].contactId
    {
      if j == |surveys| {
        assert after[i] == surveys[i];
      } else {
        assert after[i] == surveys[i] && after[j] == surveys[j];
      }
    }
  }

  /** `EventHandler::onTicketResolved($ticket)`: appends at most one survey, exactly when the guard
      chain lets it through, and returns it. */
  method OnTicketResolved(q: SurveyQueue, ticket: map<string, Value>, clock: Clock, freshId: string,
                          token: string) returns (queued: Option<Survey>)
    modifies q
    ensures var d := Decide(q.config.Settings(), q.log.Records(), old(q.Surveys()), ticket, clock);
            (d == Enqueue ==>
               queued == Some(Enqueued(q.config.Settings(), ticket, clock, freshId, token))
               && q.file == Json(old(q.Surveys()) + [queued.value]))
            && (d != Enqueue ==> queued == None && q.file == old(q.file))
    ensures queued.Some? ==> PendingFor(q.Surveys(), queued.value.contactId)
  {
    var settings := q.config.Settings();
    if !Enabled(settings) {
      return None;
    }
    var f := Fields(ticket);
    if EmptyStr(f.contact) || EmptyStr(f.ticket) {
      return None;
    }
    if !CanSend(settings, q.log.Records(), q.Surveys(), f.contact, clock) {
      return None;
    }
    var pending := q.HasPending(f.contact);
    if pending {
      return None;
    }
    var survey := q.Queue(f.contact, f.ticket, f.agent, f.team, f.category, clock, freshId, token);
    queued := Some(survey);
  }

  /** `EventHandler::onCronHourly()`: the sweep's report, unchanged. */
  method OnCronHourly(q: SurveyQueue, clock: Clock, mailer: Mailer) returns (processed: seq<Survey>)
    modifies q
    ensures !Enabled(q.config.Settings()) ==> processed == [] && q.file == old(q.file)
    ensures Enabled(q.config.Settings()) ==>
              var env := Env(q.config.Settings(), q.log.Records(), clock, mailer);
              q.file == Json(Swept(old(q.Surveys()), env))
              && processed == Processed(old(q.Surveys()), |old(q.Surveys())|, env)
  {
    processed := q.ProcessQueue(clock, mailer);
  }

  /** `Config::onActivate()`: writes the default settings, an empty response list and an empty
      queue, each only where that file does not exist; existing files, readable or not, are kept. */
  method OnActivate(config: ConfigStore, log: ResponseLog, q: SurveyQueue)
    modifies config, log, q
    ensures old(config.file) != Missing ==> config.file == old(config.file)
    ensures old(config.file) == Missing ==> config.file == Json(Arr(Defaults())) && config.Settings() == Defaults()
    ensures old(log.file) != Missing ==> log.file == old(log.file)
    ensures old(log.file) == Missing ==> log.file == Json([])
    ensures old(q.file) != Missing ==> q.file == old(q.file)
    ensures old(q.file) == Missing ==> q.file == Json([])
  {
    if config.file == Missing {
      var _ := config.Save(Defaults());
      ReplaceSelf(Arr(Defaults()));
    }
    if log.file == Missing {
      log.file := Json([]);
    }
    if q.file == Missing {
      q.file := Json([]);
    }
  }
}
