/** The survey queue (Services/SurveyService.php, duplicated in Plugin.php): queued surveys wait
    until their send time, an hourly sweep sends, skips or fails the due ones, and a submission by
    token records a response and completes its survey. */
module Surveys {
  import opened PhpValues
  import opened Config
  import opened Responses

  datatype Status = Pending | Sent | Skipped | Failed | Completed

  /** A queued survey. `sendAt` is the parsed `send_at` (None where it does not parse). */
  datatype Survey = Survey(
    id: string,
    contactId: string,
    ticketId: string,
    agentId: string,
    teamId: string,
    category: string,
    status: Status,
    queuedAt: string,
    sendAt: Option<int>,
    sentAt: Option<string>,
    token: string)

  /** The clock: `time()`, `gmdate('Y-m-d\TH:i:s\Z')` of it, and `strtotime` (None where it fails). */
  datatype Clock = Clock(now: int, stamp: string, parse: string -> Option<int>)

  /** The host's mail transport: absent, or present with the outcome of sending the survey at each
      queue position. */
  datatype Mailer = NoMailer | Mailer(accepts: nat -> bool)

  /** Some stored survey for `contact` is still pending. */
  predicate PendingFor(surveys: seq<Survey>, contact: string) {
    exists i :: 0 <= i < |surveys| && surveys[i].contactId == contact && surveys[i].status == Pending
  }

  /** No contact has two pending surveys. */
  predicate PendingUnique(surveys: seq<Survey>) {
    forall i, j :: 0 <= i < j < |surveys| && surveys[i].status == Pending && surveys[j].status == Pending
      ==> surveys[i].contactId != surveys[j].contactId
  }

  // ---------------------------------------------------------------------------
  // Throttling
  // ---------------------------------------------------------------------------

  /** `SurveyService::canSend($contact)` against the given settings, responses and stored queue. */
  function CanSend(settings: map<string, Value>, responses: seq<Response>, surveys: seq<Survey>,
                   contact: string, clock: Clock): (allowed: bool)
    ensures FrequencyLimitDays(settings) <= 0 ==> allowed
  {
    var days := FrequencyLimitDays(settings);
    if days <= 0 then true
    else
      var history := ForContact(responses, contact, clock.parse);
      if history == [] then !PendingFor(surveys, contact)
      else
        match clock.parse(CreatedKey(history[0]))
        case None => true
        case Some(last) => clock.now - last >= days * 86400
  }

  /** A contact with no responses may be surveyed exactly when no survey of theirs is pending;
      without a frequency limit every contact may be surveyed. */
  lemma FirstTimeContact(settings: map<string, Value>, responses: seq<Response>, surveys: seq<Survey>,
                         contact: string, clock: Clock)
    requires !EmptyStr(contact)
    requires forall i :: 0 <= i < |responses| ==> OrElse(responses[i].contactId, "") != contact
    ensures FrequencyLimitDays(settings) <= 0 ==> CanSend(settings, responses, surveys, contact, clock)
    ensures FrequencyLimitDays(settings) > 0 ==>
              (CanSend(settings, responses, surveys, contact, clock) <==> !PendingFor(surveys, contact))
  {
  }

  /** The first of a contact's responses, newest first, has the newest creation time. */
  lemma HistoryStartsNewest(responses: seq<Response>, contact: string, parse: string -> Option<int>,
                            newest: Response)
    requires !EmptyStr(contact)
    requires newest in responses && OrElse(newest.contactId, "") == contact
    requires forall i :: 0 <= i < |responses| && OrElse(responses[i].contactId, "") == contact ==>
               StrLeq(CreatedKey(responses[i]), CreatedKey(newest))
    ensures var history := ForContact(responses, contact, parse);
            history != [] && CreatedKey(history[0]) == CreatedKey(newest)
  {
    var history := ForContact(responses, contact, parse);
    InContactHistory(responses, contact, parse, newest);
    var k :| 0 <= k < |history| && history[k] == newest;
    if k > 0 {
      assert StrLeq(CreatedKey(newest), CreatedKey(history[0]));
    } else {
      StrLeqRefl(CreatedKey(newest));
    }
    var first := history[0];
    InContactHistory(responses, contact, parse, first);
    var j :| 0 <= j < |responses| && responses[j] == first;
    StrLeqAntisym(CreatedKey(newest), CreatedKey(first));
  }

  /** With a history, only the contact's newest response counts (newest by `created_at` string
      order): a survey may go out when its date does not parse, and otherwise exactly when the
      frequency limit in days has passed since it. */
  lemma NewestResponseDecides(settings: map<string, Value>, responses: seq<Response>, surveys: seq<Survey>,
                              contact: string, clock: Clock, newest: Response)
    requires !EmptyStr(contact) && FrequencyLimitDays(settings) > 0
    requires newest in responses && OrElse(newest.contactId, "") == contact
    requires forall i :: 0 <= i < |responses| && OrElse(responses[i].contactId, "") == contact ==>
               StrLeq(CreatedKey(responses[i]), CreatedKey(newest))
    ensures CanSend(settings, responses, surveys, contact, clock) <==>
              match clock.parse(CreatedKey(newest))
              case None => true
              case Some(last) => clock.now - last >= FrequencyLimitDays(settings) * 86400
  {
    HistoryStartsNewest(responses, contact, clock.parse, newest);
  }

  // ---------------------------------------------------------------------------
  // Queueing
  // ---------------------------------------------------------------------------

  /** The record `queue` appends: pending, due `trigger_delay_hours` after now, not yet sent. */
  function NewSurvey(settings: map<string, Value>, contact: string, ticket: string, agent: string,
                     team: string, category: string, clock: Clock, freshId: string, token: string): Survey
  {
    Survey(freshId, contact, ticket, agent, team, category, Pending, clock.stamp,
           Some(clock.now + TriggerDelayHours(settings) * 3600), None, token)
  }

  /** A survey is due when it is pending and its send time parses and has come. */
  predicate Due(s: Survey, now: int) {
    s.status == Pending && s.sendAt.Some? && s.sendAt.value <= now
  }

  /** A freshly queued survey becomes due exactly `trigger_delay_hours` hours after it was queued. */
  lemma NewSurveyDue(settings: map<string, Value>, contact: string, ticket: string, agent: string,
                     team: string, category: string, clock: Clock, freshId: string, token: string, later: int)
    ensures var s := NewSurvey(settings, contact, ticket, agent, team, category, clock, freshId, token);
            s.status == Pending && s.sentAt == None && s.contactId == contact && s.ticketId == ticket
            && s.agentId == agent && s.teamId == team && s.category == category
            && (Due(s, later) <==> later >= clock.now + TriggerDelayHours(settings) * 3600)
  {
  }

  // ---------------------------------------------------------------------------
  // The sweep
  // ---------------------------------------------------------------------------

  /** What a sweep runs against: the settings, the stored responses, the clock and the transport. */
  datatype Env = Env(settings: map<string, Value>, responses: seq<Response>, clock: Clock, mailer: Mailer)

  /** The new state of a due survey: skipped when throttled, otherwise sent (stamped) when there is
      no transport or the transport accepts it, and failed when the transport refuses it. */
  function Outcome(s: Survey, index: nat, allowed: bool, mailer: Mailer, stamp: string): (t: Survey)
    ensures t.status == Skipped || t.status == Sent || t.status == Failed
    ensures t.status == Skipped <==> !allowed
    ensures t.status == Sent <==> allowed && (mailer.NoMailer? || mailer.accepts(index))
    ensures t.status == Sent ==> t.sentAt == Some(stamp)
    ensures t.status != Sent ==> t.sentAt == s.sentAt
    ensures t.(status := s.status, sentAt := s.sentAt) == s
  {
    if !allowed then s.(status := Skipped)
    else if mailer.NoMailer? || mailer.accepts(index) then s.(status := Sent, sentAt := Some(stamp))
    else s.(status := Failed)
  }

  /** The survey at position i after a sweep over `stored`; throttling reads `stored` itself. */
  function SweptAt(stored: seq<Survey>, i: nat, env: Env): Survey
    requires i < |stored|
  {
    var s := stored[i];
    if Due(s, env.clock.now) then
      Outcome(s, i, CanSend(env.settings, env.responses, stored, s.contactId, env.clock), env.mailer, env.clock.stamp)
    else s
  }

  /** The queue a sweep writes back. */
  function Swept(stored: seq<Survey>, env: Env): (t: seq<Survey>)
    ensures |t| == |stored|
    ensures forall i :: 0 <= i < |t| ==> t[i] == SweptAt(stored, i, env)
  {
    seq(|stored|, i requires 0 <= i < |stored| => SweptAt(stored, i, env))
  }

  /** The records a sweep reports, in queue order: the new states of the due surveys among the
      first n. */
  function Processed(stored: seq<Survey>, n: nat, env: Env): (p: seq<Survey>)
    requires n <= |stored|
    ensures |p| <= n
    ensures forall k :: 0 <= k < |p| ==> p[k].status == Skipped || p[k].status == Sent || p[k].status == Failed
  {
    if n == 0 then []
    else Processed(stored, n - 1, env) + (if Due(stored[n - 1], env.clock.now) then [SweptAt(stored, n - 1, env)] else [])
  }

  /** Part way through a sweep: the first n surveys hold their new states, the rest are as stored. */
  ghost predicate SweptUpTo(stored: seq<Survey>, pending: seq<Survey>, n: nat, env: Env) {
    n <= |pending| == |stored|
    && (forall i :: 0 <= i < n ==> pending[i] == SweptAt(stored, i, env))
    && (forall i :: n <= i < |pending| ==> pending[i] == stored[i])
  }

  /** One step of the sweep: writing the new state of survey n (a no-op when it is not due) extends
      the swept prefix and, for a due survey, the report. */
  lemma SweepStep(stored: seq<Survey>, pending: seq<Survey>, n: nat, env: Env)
    requires n < |stored| && SweptUpTo(stored, pending, n, env)
    ensures pending[n] == stored[n]
    ensures !Due(stored[n], env.clock.now) ==> SweptUpTo(stored, pending, n + 1, env)
    ensures SweptUpTo(stored, pending[n := SweptAt(stored, n, env)], n + 1, env)
    ensures Processed(stored, n + 1, env)
              == Processed(stored, n, env) + (if Due(stored[n], env.clock.now) then [SweptAt(stored, n, env)] else [])
  {
  }

  /** Only due surveys change; each leaves the pending state for exactly one of skipped, sent or
      failed and keeps every other field except the sent stamp. */
  lemma SweepChangesOnlyDue(stored: seq<Survey>, env: Env, i: nat)
    requires i < |stored|
    ensures !Due(stored[i], env.clock.now) ==> Swept(stored, env)[i] == stored[i]
    ensures Due(stored[i], env.clock.now) ==>
              var t := Swept(stored, env)[i];
              (t.status == Skipped || t.status == Sent || t.status == Failed)
              && t.(status := Pending, sentAt := stored[i].sentAt) == stored[i]
  {
  }

  /** A sweep leaves nothing due, so a second sweep at the same time changes nothing. */
  lemma SweepIdempotent(stored: seq<Survey>, env: Env)
    ensures forall i :: 0 <= i < |stored| ==> !Due(Swept(stored, env)[i], env.clock.now)
    ensures Swept(Swept(stored, env), env) == Swept(stored, env)
  {
    var once := Swept(stored, env);
    forall i | 0 <= i < |stored| ensures !Due(once[i], env.clock.now) {
      assert once[i] == SweptAt(stored, i, env);
    }
    assert Swept(once, env) == once;
  }

  /** During a sweep the survey being processed is itself still pending in the stored queue, so a
      due survey of a contact without responses is skipped whenever a frequency limit is set. */
  lemma FirstTimeContactSkipped(stored: seq<Survey>, env: Env, i: nat)
    requires i < |stored| && Due(stored[i], env.clock.now)
    requires !EmptyStr(stored[i].contactId) && FrequencyLimitDays(env.settings) > 0
    requires forall j :: 0 <= j < |env.responses| ==> OrElse(env.responses[j].contactId, "") != stored[i].contactId
    ensures Swept(stored, env)[i].status == Skipped
  {
    FirstTimeContact(env.settings, env.responses, stored, stored[i].contactId, env.clock);
    assert PendingFor(stored, stored[i].contactId);
  }

  /** A sweep never creates a pending survey, so it keeps pending surveys unique per contact. */
  lemma SweepKeepsPendingUnique(stored: seq<Survey>, env: Env)
    requires PendingUnique(stored)
    ensures PendingUnique(Swept(stored, env))
  {
    var t := Swept(stored, env);
    forall i | 0 <= i < |t| && t[i].status == Pending ensures t[i] == stored[i] {
      assert t[i] == SweptAt(stored, i, env);
    }
  }

  // ---------------------------------------------------------------------------
  // Submission
  // ---------------------------------------------------------------------------

  /** Index of the first survey at or after `from` carrying `token`. */
  function FirstToken(surveys: seq<Survey>, token: string, from: nat): (i: Option<nat>)
    requires from <= |surveys|
    ensures i.Some? ==> from <= i.value < |surveys| && surveys[i.value].token == token
    ensures i.Some? ==> forall j :: from <= j < i.value ==> surveys[j].token != token
    ensures i.None? ==> forall j :: from <= j < |surveys| ==> surveys[j].token != token
    decreases |surveys| - from
  {
    if from == |surveys| then None
    else if surveys[from].token == token then Some(from)
    else FirstToken(surveys, token, from + 1)
  }

  lemma {:induction false} FirstTokenAt(surveys: seq<Survey>, token: string, from: nat, i: nat)
    requires from <= i < |surveys| && surveys[i].token == token
    requires forall j :: from <= j < i ==> surveys[j].token != token
    ensures FirstToken(surveys, token, from) == Some(i)
    decreases i - from
  {
    if from < i { FirstTokenAt(surveys, token, from + 1, i); }
  }

  /** The survey a submission with `token` is accepted for: the first survey carrying the token,
      unless it is already completed. */
  function Accepted(surveys: seq<Survey>, token: string): (i: Option<nat>)
    ensures i.Some? ==> i.value < |surveys| && surveys[i.value].token == token
                        && surveys[i.value].status != Completed
                        && forall j :: 0 <= j < i.value ==> surveys[j].token != token
    ensures i.None? ==> forall j :: 0 <= j < |surveys| && surveys[j].token == token ==>
                          exists k :: 0 <= k <= j && surveys[k].token == token && surveys[k].status == Completed
  {
    match FirstToken(surveys, token, 0)
    case None => None
    case Some(i) => if surveys[i].status == Completed then None else Some(i)
  }

  /** The queue after the survey at i is completed. */
  function CompleteAt(surveys: seq<Survey>, i: nat): seq<Survey>
    requires i < |surveys|
  {
    surveys[i := surveys[i].(status := Completed)]
  }

  /** Once a submission is accepted, a second one with the same token is refused. */
  lemma SecondSubmitRejected(surveys: seq<Survey>, token: string)
    requires Accepted(surveys, token).Some?
    ensures Accepted(CompleteAt(surveys, Accepted(surveys, token).value), token).None?
  {
    var i := Accepted(surveys, token).value;
    var after := CompleteAt(surveys, i);
    FirstTokenAt(after, token, 0, i);
  }

  /** Completing a survey keeps pending surveys unique per contact. */
  lemma CompleteKeepsPendingUnique(surveys: seq<Survey>, i: nat)
    requires i < |surveys| && PendingUnique(surveys)
    ensures PendingUnique(CompleteAt(surveys, i))
  {
  }

  /** The response `submit` saves for survey s: the survey's attribution with the given answers. */
  function SubmissionInput(s: Survey, score: int, comment: string, followUp: string): Response {
    Response(None, Some(s.contactId), Some(s.ticketId), Some(score), Some(comment), Some(followUp),
             Some(s.agentId), Some(s.teamId), Some(s.category), None)
  }

  /** The saved response carries a fresh id, the survey's contact, ticket, agent, team and category,
      the score clamped to 0..10, the given comment and follow-up, and the submission time. */
  function Submitted(s: Survey, score: int, comment: string, followUp: string, freshId: string,
                     stamp: string): (r: Response)
    ensures r.id == Some(freshId) && r.createdAt == Some(stamp)
    ensures r.contactId == Some(s.contactId) && r.ticketId == Some(s.ticketId)
    ensures r.agentId == Some(s.agentId) && r.teamId == Some(s.teamId) && r.category == Some(s.category)
    ensures r.comment == Some(comment) && r.followUpResponse == Some(followUp)
    ensures r.score == Some(if score < 0 then 0 else if score > 10 then 10 else score)
  {
    Prepare(SubmissionInput(s, score, comment, followUp), freshId, stamp)
  }

  // ---------------------------------------------------------------------------
  // Survey URL
  // ---------------------------------------------------------------------------

  /** `buildSurveyUrl($token)`: the base URL (empty without a URL helper) without trailing
      slashes, then `/nps/survey/` and the token. */
  function SurveyUrl(base: Option<string>, token: string): (url: string)
    ensures base.None? ==> url == "/nps/survey/" + token
    ensures base.Some? && (base.value == [] || base.value[|base.value| - 1] != '/') ==>
              url == base.value + "/nps/survey/" + token
  {
    RTrim(OrElse(base, ""), '/') + "/nps/survey/" + token
  }

  /** Trailing slashes on the base URL do not change the survey URL. */
  lemma SurveyUrlIgnoresTrailingSlash(base: string, token: string)
    ensures SurveyUrl(Some(base + "/"), token) == SurveyUrl(Some(base), token)
  {
    assert (base + "/")[..|base + "/"| - 1] == base;
  }

  // ---------------------------------------------------------------------------
  // The stored queue
  // ---------------------------------------------------------------------------

  /** The stored survey queue (`pending_surveys.json`) with the settings and responses it reads. */
  class SurveyQueue {
    var file: File<seq<Survey>>
    const config: ConfigStore
    const log: ResponseLog

    constructor (file: File<seq<Survey>>, config: ConfigStore, log: ResponseLog)
      ensures this.file == file && this.config == config && this.log == log
    {
      this.file := file;
      this.config := config;
      this.log := log;
    }

    /** `SurveyService::allPending()`: an unreadable or missing file reads as an empty queue. */
    function Surveys(): seq<Survey>
      reads this
    {
      match file
      case Json(s) => s
      case _ => []
    }

    /** `SurveyService::hasPending($contact)`. */
    method HasPending(contact: string) returns (found: bool)
      ensures found == PendingFor(Surveys(), contact)
    {
      var pending := Surveys();
      var i := 0;
      while i < |pending|
        invariant 0 <= i <= |pending|
        invariant forall j :: 0 <= j < i ==> !(pending[j].contactId == contact && pending[j].status == Pending)
      {
        if pending[i].contactId == contact && pending[i].status == Pending {
          return true;
        }
        i := i + 1;
      }
      return false;
    }

    /** `SurveyService::queue(...)`: appends one pending survey, without de-duplication. */
    method Queue(contact: string, ticket: string, agent: string, team: string, category: string,
                 clock: Clock, freshId: string, token: string) returns (survey: Survey)
      modifies this
      ensures survey == NewSurvey(config.Settings(), contact, ticket, agent, team, category, clock, freshId, token)
      ensures file == Json(old(Surveys()) + [survey])
      ensures PendingFor(Surveys(), contact)
    {
      survey := NewSurvey(config.Settings(), contact, ticket, agent, team, category, clock, freshId, token);
      var pending := Surveys();
      pending := pending + [survey];
      file := Json(pending);
      assert pending[|pending| - 1] == survey;
    }

    /** `SurveyService::processQueue()`: when enabled, sweeps the queue in place and writes it once;
        throttling reads the queue as stored before the sweep. */
    method ProcessQueue(clock: Clock, mailer: Mailer) returns (processed: seq<Survey>)
      modifies this
      ensures !Enabled(config.Settings()) ==> processed == [] && file == old(file)
      ensures Enabled(config.Settings()) ==>
                var env := Env(config.Settings(), log.Records(), clock, mailer);
                file == Json(Swept(old(Surveys()), env))
                && processed == Processed(old(Surveys()), |old(Surveys())|, env)
    {
      var pending := Surveys();
      var settings := config.Settings();
      if !Enabled(settings) {
        return [];
      }
      ghost var env := Env(settings, log.Records(), clock, mailer);
      ghost var stored := pending;
      processed := [];
      var index := 0;
      while index < |pending|
        invariant Surveys() == stored
        invariant SweptUpTo(stored, pending, index, env)
        invariant processed == Processed(stored, index, env)
      {
        SweepStep(stored, pending, index, env);
        var survey := pending[index];
        if survey.status != Pending || survey.sendAt.None? || survey.sendAt.value > clock.now {
          index := index + 1;
          continue;
        }
        var updated;
        if !CanSend(settings, log.Records(), Surveys(), survey.contactId, clock) {
          updated := survey.(status := Skipped);
        } else if mailer.NoMailer? || mailer.accepts(index) {
          updated := survey.(status := Sent, sentAt := Some(clock.stamp));
        } else {
          updated := survey.(status := Failed);
        }
        assert updated == SweptAt(stored, index, env);
        pending := pending[index := updated];
        processed := processed + [updated];
        index := index + 1;
      }
      file := Json(pending);
      assert pending == Swept(stored, env);
    }

    /** `SurveyService::submit(...)`: for an accepted token, saves the response and completes that
        survey; otherwise changes nothing and returns nothing. */
    method Submit(token: string, score: int, comment: string, followUp: string, freshId: string, stamp: string)
      returns (response: Option<Response>)
      modifies this, log
      ensures Accepted(old(Surveys()), token).None? ==>
                response.None? && file == old(file) && log.file == old(log.file)
      ensures Accepted(old(Surveys()), token).Some? ==>
                var i := Accepted(old(Surveys()), token).value;
                response == Some(Submitted(old(Surveys())[i], score, comment, followUp, freshId, stamp))
                && file == Json(CompleteAt(old(Surveys()), i))
                && log.file == Json(Upsert(old(log.Records()), response.value))
    {
      var pending := Surveys();
      var found := false;
      var index := 0;
      while index < |pending|
        invariant 0 <= index <= |pending|
        invariant pending == old(Surveys())
        invariant FirstToken(pending, token, 0) == FirstToken(pending, token, index)
      {
        if pending[index].token == token {
          found := true;
          break;
        }
        index := index + 1;
      }
      if !found || pending[index].status == Completed {
        return None;
      }
      var saved := log.Save(SubmissionInput(pending[index], score, comment, followUp), freshId, stamp);
      pending := pending[index := pending[index].(status := Completed)];
      file := Json(pending);
      response := Some(saved);
    }
  }
}
