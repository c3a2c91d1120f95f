/**
 * `CampaignService` of backend/src/services/campaign.service.ts: scheduling a
 * campaign (one delayed job per lead, spread evenly over the sending window)
 * and pausing it (removing its pending jobs).
 *
 * Times of day are minutes since midnight, and the delay arithmetic is exact
 * (`real`), where `campaign.service.ts` lines 27-35 compute in double precision.
 */
module CampaignService {
  import opened Wrappers
  import opened Types
  import opened EmailQueue
  import opened Lists

  /**
   * The campaign row with its joined template, accounts and leads, as the
   * scheduler reads it: only the ids and the schedule's two times. The joined
   * template may be absent.
   */
  datatype CampaignRecord = CampaignRecord(
    id: string,
    templateId: Option<string>,
    emailAccountIds: seq<string>,
    leadIds: seq<string>,
    startMinutes: real,
    endMinutes: real)

  /** The result of the campaign query: an error, or the row (None when there is none). */
  datatype Fetch = QueryError(message: string) | Fetched(campaign: Option<CampaignRecord>)

  /** What `scheduleCampaign` rethrows. */
  datatype ScheduleError =
    | QueryFailed(message: string)
    | CampaignNotFound
    | TemplateMissing   // `campaign.template.id` on an absent template
    | NoEmailAccount    // `campaign.email_accounts[0].id` on an empty list

  /** The `campaigns` table, as the status of each campaign id. */
  class CampaignTable {
    var status: map<string, Status>

    constructor(initial: map<string, Status>)
      ensures status == initial
    {
      status := initial;
    }

    /**
     * `update({ status }).eq('id', id)`, whose `{ error }` the service never
     * reads: when the store rejects the update (`applied` false) nothing
     * changes and the caller carries on as after a success; no row with that
     * id, no change either.
     */
    method SetStatus(id: string, s: Status, applied: bool)
      modifies this
      ensures status == if applied && id in old(status) then old(status)[id := s] else old(status)
    {
      if applied && id in status {
        status := status[id := s];
      }
    }
  }

  // ---------------------------------------------------------------- delays

  /** Length of the sending window in minutes. */
  function WindowMinutes(c: CampaignRecord): real
  {
    c.endMinutes - c.startMinutes
  }

  /** Milliseconds in a minute. */
  const MinuteMs: real := 60.0 * 1000.0

  /** The delay of the lead at `index` among n: `index * (window / n) * 60 * 1000`. */
  function DelayMs(index: nat, window: real, n: nat): (r: real)
    requires n > 0
    ensures index == 0 ==> r == 0.0
    ensures window >= 0.0 ==> r >= 0.0
  {
    index as real * (window / n as real) * 60.0 * 1000.0
  }

  /** The first lead goes at once. */
  lemma FirstDelayIsZero(window: real, n: nat)
    requires n > 0
    ensures DelayMs(0, window, n) == 0.0
  {
  }

  /** Consecutive leads are spaced by the window over the number of leads. */
  lemma DelayStep(index: nat, window: real, n: nat)
    requires n > 0
    ensures DelayMs(index + 1, window, n) - DelayMs(index, window, n) == window * MinuteMs / n as real
  {
    var step := window / n as real;
    assert DelayMs(index + 1, window, n) == index as real * step * MinuteMs + step * MinuteMs;
    assert DelayMs(index, window, n) == index as real * step * MinuteMs;
    assert step * MinuteMs == window * MinuteMs / n as real;
  }

  /** With a positive window every delay falls inside it. */
  lemma DelayWithinWindow(index: nat, window: real, n: nat)
    requires 0 <= index < n && window > 0.0
    ensures 0.0 <= DelayMs(index, window, n) < window * MinuteMs
  {
    var step := window / n as real;
    assert step > 0.0;
    assert n as real * step == window;
    var x := index as real * step;
    assert 0.0 <= x < window by {
      assert index as real * step < n as real * step;
    }
    assert DelayMs(index, window, n) == x * 60.0 * 1000.0;
    assert x * MinuteMs < window * MinuteMs;
  }

  /** Three leads between 09:00 and 09:30 go at 0, 10 and 20 minutes. */
  lemma DelayExample()
    ensures DelayMs(0, 30.0, 3) == 0.0
    ensures DelayMs(1, 30.0, 3) == 600000.0
    ensures DelayMs(2, 30.0, 3) == 1200000.0
  {
  }

  // ---------------------------------------------------------------- scheduling

  /** `${campaign.id}-${lead.id}` */
  function JobId(campaignId: string, leadId: string): (r: string)
    ensures |r| == |campaignId| + 1 + |leadId|
    ensures r[..|campaignId|] == campaignId && r[|campaignId|] == '-' && r[|campaignId| + 1..] == leadId
  {
    campaignId + "-" + leadId
  }

  /** Within one campaign, different leads get different job ids. */
  lemma JobIdsDistinct(campaignId: string, a: string, b: string)
    requires a != b
    ensures JobId(campaignId, a) != JobId(campaignId, b)
  {
    var p := campaignId + "-";
    assert JobId(campaignId, a)[|p|..] == a;
    assert JobId(campaignId, b)[|p|..] == b;
  }

  /** The jobs for the leads, in lead order, all with the given template and account. */
  function ScheduledJobs(c: CampaignRecord, templateId: string, accountId: string): (jobs: seq<Job>)
    ensures |jobs| == |c.leadIds|
  {
    seq(|c.leadIds|, k requires 0 <= k < |c.leadIds| =>
      NewJob(EmailJob(c.id, templateId, accountId, c.leadIds[k]),
             DelayMs(k, WindowMinutes(c), |c.leadIds|),
             JobId(c.id, c.leadIds[k])))
  }

  /** The error the scheduler throws for a fetched campaign, if any: the template is read before the account. */
  function CampaignError(c: CampaignRecord): Option<ScheduleError>
  {
    if |c.leadIds| == 0 then None
    else if c.templateId.None? then Some(TemplateMissing)
    else if c.emailAccountIds == [] then Some(NoEmailAccount)
    else None
  }

  /** What `scheduleCampaign` returns or throws. */
  function ScheduleOutcome(f: Fetch): Result<CampaignRecord, ScheduleError>
  {
    match f
    case QueryError(m) => Err(QueryFailed(m))
    case Fetched(None) => Err(CampaignNotFound)
    case Fetched(Some(c)) => if CampaignError(c).Some? then Err(CampaignError(c).value) else Ok(c)
  }

  /** The jobs a successful schedule adds. */
  function Plan(c: CampaignRecord): (jobs: seq<Job>)
    requires CampaignError(c).None?
    ensures |jobs| == |c.leadIds|
  {
    if |c.leadIds| == 0 then [] else ScheduledJobs(c, c.templateId.value, c.emailAccountIds[0])
  }

  /**
   * `scheduleCampaign(campaignId)`, given the result of its query: either
   * one job per lead is added and the status becomes active, or the error is
   * rethrown with nothing added and the status untouched.
   */
  method ScheduleCampaign(campaignId: string, fetch: Fetch, statusUpdated: bool, queue: Queue, table: CampaignTable)
    returns (r: Result<(), ScheduleError>)
    modifies queue, table
    ensures ScheduleOutcome(fetch).Ok? ==> r == Ok(())
    ensures ScheduleOutcome(fetch).Err? ==> r == Err(ScheduleOutcome(fetch).error)
    ensures r.Ok? ==> queue.jobs == old(queue.jobs) + Plan(ScheduleOutcome(fetch).value)
    ensures r.Ok? ==> table.status == if statusUpdated && campaignId in old(table.status)
                                      then old(table.status)[campaignId := Status.Active]
                                      else old(table.status)
    ensures r.Err? ==> queue.jobs == old(queue.jobs) && table.status == old(table.status)
  {
    if fetch.QueryError? {
      return Err(QueryFailed(fetch.message));
    }
    if fetch.campaign.None? {
      return Err(CampaignNotFound);
    }
    var c := fetch.campaign.value;
    var totalMinutes := c.endMinutes - c.startMinutes;
    var totalEmails := |c.leadIds|;
    var i := 0;
    while i < totalEmails
      invariant 0 <= i <= totalEmails
      invariant i > 0 ==> c.templateId.Some? && c.emailAccountIds != []
      invariant i > 0 ==> queue.jobs == old(queue.jobs) + ScheduledJobs(c, c.templateId.value, c.emailAccountIds[0])[..i]
      invariant i == 0 ==> queue.jobs == old(queue.jobs)
      invariant table.status == old(table.status)
    {
      if c.templateId.None? {
        return Err(TemplateMissing);
      }
      if c.emailAccountIds == [] {
        return Err(NoEmailAccount);
      }
      var delay := i as real * (totalMinutes / totalEmails as real) * 60.0 * 1000.0;
      var leadId := c.leadIds[i];
      ghost var jobs := ScheduledJobs(c, c.templateId.value, c.emailAccountIds[0]);
      assert jobs[i] == NewJob(EmailJob(c.id, c.templateId.value, c.emailAccountIds[0], leadId), delay, c.id + "-" + leadId);
      queue.Add(EmailJob(c.id, c.templateId.value, c.emailAccountIds[0], leadId), delay, c.id + "-" + leadId);
      assert jobs[..i + 1] == jobs[..i] + [jobs[i]];
      i := i + 1;
    }
    if totalEmails > 0 {
      ghost var jobs := ScheduledJobs(c, c.templateId.value, c.emailAccountIds[0]);
      assert jobs[..i] == jobs;
    }
    table.SetStatus(campaignId, Status.Active, statusUpdated);
    r := Ok(());
  }

  /**
   * Every scheduled job is for its campaign and lead, carries the campaign's
   * template and first account, the default retry options, the job id
   * `${campaign.id}-${lead.id}` and the lead's delay.
   */
  lemma PlanJobs(c: CampaignRecord, k: nat)
    requires CampaignError(c).None? && k < |c.leadIds|
    ensures var j := Plan(c)[k];
            && j.data == EmailJob(c.id, c.templateId.value, c.emailAccountIds[0], c.leadIds[k])
            && j.id == JobId(c.id, c.leadIds[k])
            && j.delay == DelayMs(k, WindowMinutes(c), |c.leadIds|)
            && j.attempts == 3 && j.backoff == Backoff(Exponential, 1000)
  {
  }

  /** Distinct lead ids give distinct job ids. */
  lemma PlanJobIdsDistinct(c: CampaignRecord, k: nat, l: nat)
    requires CampaignError(c).None? && k < |c.leadIds| && l < |c.leadIds|
    requires c.leadIds[k] != c.leadIds[l]
    ensures Plan(c)[k].id != Plan(c)[l].id
  {
    JobIdsDistinct(c.id, c.leadIds[k], c.leadIds[l]);
  }

  /** A campaign without leads schedules nothing and still becomes active. */
  lemma NoLeadsNoJobs(c: CampaignRecord)
    requires c.leadIds == []
    ensures ScheduleOutcome(Fetched(Some(c))) == Ok(c) && Plan(c) == []
  {
  }

  /** With leads, a missing template or an empty account list is an error. */
  lemma ScheduleNeedsTemplateAndAccount(c: CampaignRecord)
    requires c.leadIds != []
    ensures ScheduleOutcome(Fetched(Some(c))).Ok? <==> c.templateId.Some? && c.emailAccountIds != []
  {
  }

  // ---------------------------------------------------------------- pausing

  predicate PendingOf(j: Job, campaignId: string)
  {
    IsPending(j) && j.data.campaignId == campaignId
  }

  /**
   * The queue once the delayed and waiting jobs of the campaign are gone: a
   * job stays exactly when it is not a pending job of the campaign.
   */
  function WithoutPending(xs: seq<Job>, campaignId: string): (r: seq<Job>)
    ensures |r| <= |xs|
    ensures forall j :: j in r <==> j in xs && !PendingOf(j, campaignId)
  {
    Filter(xs, (j: Job) => !PendingOf(j, campaignId))
  }

  /** Jobs of other campaigns and in other states are untouched: as many copies as before. */
  lemma WithoutPendingKeepsOthers(xs: seq<Job>, campaignId: string, j: Job)
    requires !PendingOf(j, campaignId)
    ensures multiset(WithoutPending(xs, campaignId))[j] == multiset(xs)[j]
  {
    FilterCount(xs, (j: Job) => !PendingOf(j, campaignId), j);
  }

  /** Pausing twice removes nothing more. */
  lemma WithoutPendingIdempotent(xs: seq<Job>, campaignId: string)
    ensures WithoutPending(WithoutPending(xs, campaignId), campaignId) == WithoutPending(xs, campaignId)
  {
    FilterTwice(xs, (j: Job) => !PendingOf(j, campaignId));
  }

  /** Dropping a list that holds exactly the campaign's pending jobs of the queue is `WithoutPending`. */
  lemma {:induction false} DropPending(xs: seq<Job>, removed: seq<Job>, campaignId: string)
    requires forall j :: j in xs ==> (j in removed <==> PendingOf(j, campaignId))
    ensures Drop(xs, removed) == WithoutPending(xs, campaignId)
  {
    if xs != [] {
      assert xs[0] in xs;
      DropPending(xs[1..], removed, campaignId);
    }
  }

  /**
   * `pauseCampaign(campaignId)`: every delayed or waiting job of the campaign
   * is removed, the rest of the queue is kept in order, and the status
   * becomes paused.
   */
  method PauseCampaign(campaignId: string, statusUpdated: bool, queue: Queue, table: CampaignTable)
    modifies queue, table
    ensures queue.jobs == WithoutPending(old(queue.jobs), campaignId)
    ensures table.status == if statusUpdated && campaignId in old(table.status)
                            then old(table.status)[campaignId := Paused]
                            else old(table.status)
  {
    var jobs := queue.GetPendingJobs();
    ghost var original := queue.jobs;
    ghost var removed: seq<Job> := [];
    DropNothing(original);
    for i := 0 to |jobs|
      invariant queue.jobs == Drop(original, removed)
      invariant forall j :: j in removed <==> j in jobs[..i] && j.data.campaignId == campaignId
      invariant table.status == old(table.status)
    {
      var job := jobs[i];
      if job.data.campaignId == campaignId {
        queue.Remove(job);
        DropDrop(original, removed, [job]);
        removed := removed + [job];
      }
      assert jobs[..i + 1] == jobs[..i] + [job];
    }
    assert jobs[..|jobs|] == jobs;
    DropPending(original, removed, campaignId);
    table.SetStatus(campaignId, Paused, statusUpdated);
  }
}
