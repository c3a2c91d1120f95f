/**
 * The `email-processing` queue of backend/src/queues/email.queue.ts: the
 * queue itself (jobs and their options) and the handler that runs one
 * attempt of one job.
 *
 * The handler's effects on the outside world (the mail it sends, the two
 * stored procedures it calls) are recorded, in order, in an effect log. What
 * the stored procedures do inside the data store is not part of this model;
 * only the fact and the order of the calls are.
 */
module EmailQueue {
  import opened Wrappers
  import opened Types
  import opened Lists

  /** The payload of a job: which campaign, template, account and lead. */
  datatype EmailJob = EmailJob(campaignId: string, templateId: string, emailAccountId: string, leadId: string)

  datatype BackoffType = Exponential | Fixed

  datatype Backoff = Backoff(kind: BackoffType, delay: nat)

  /** The states a job can be listed under. */
  datatype JobState = Delayed | Waiting | Active | Completed | Failed

  datatype Job = Job(id: string, data: EmailJob, delay: real, attempts: nat, backoff: Backoff, state: JobState)

  /** `defaultJobOptions`: three attempts, exponential backoff from one second. */
  const DefaultAttempts: nat := 3
  const DefaultBackoff: Backoff := Backoff(Exponential, 1000)

  /** A job added with a positive delay waits in the delayed set, any other one is ready at once. */
  function InitialState(delay: real): JobState
  {
    if delay > 0.0 then Delayed else Waiting
  }

  /** The job `add(data, { delay, jobId })` creates, with the queue's default options merged in. */
  function NewJob(data: EmailJob, delay: real, jobId: string): (j: Job)
    ensures j.attempts == 3 && j.backoff == Backoff(Exponential, 1000)
    ensures j.state == Delayed <==> delay > 0.0
    ensures j.state == Waiting <==> delay <= 0.0
  {
    Job(jobId, data, delay, DefaultAttempts, DefaultBackoff, InitialState(delay))
  }

  predicate IsPending(j: Job) { j.state == Delayed || j.state == Waiting }

  /** `getJobs(['delayed', 'waiting'])` on the jobs `xs`: the pending ones. */
  function PendingJobs(xs: seq<Job>): (r: seq<Job>)
    ensures forall j :: j in r <==> j in xs && IsPending(j)
  {
    Filter(xs, IsPending)
  }

  /** `xs` without the jobs listed in `removed`, the others in their order. */
  function Drop(xs: seq<Job>, removed: seq<Job>): (r: seq<Job>)
    ensures forall j :: j in r <==> j in xs && j !in removed
  {
    Filter(xs, (j: Job) => j !in removed)
  }

  lemma DropNothing(xs: seq<Job>)
    ensures Drop(xs, []) == xs
  {
    FilterKeepsAll(xs, (j: Job) => j !in []);
  }

  /** Removing one list of jobs and then another is removing both. */
  lemma {:induction false} DropDrop(xs: seq<Job>, r: seq<Job>, s: seq<Job>)
    ensures Drop(Drop(xs, r), s) == Drop(xs, r + s)
  {
    if xs != [] {
      DropDrop(xs[1..], r, s);
      if xs[0] !in r {
        assert Drop(xs, r) == [xs[0]] + Drop(xs[1..], r);
        assert Drop(xs, r)[1..] == Drop(xs[1..], r);
      }
    }
  }

  /** The queue, as the list of jobs it holds. */
  class Queue {
    var jobs: seq<Job>

    constructor()
      ensures jobs == []
    {
      jobs := [];
    }

    /** `emailQueue.add(data, { delay, jobId })`. */
    method Add(data: EmailJob, delay: real, jobId: string)
      modifies this
      ensures jobs == old(jobs) + [NewJob(data, delay, jobId)]
    {
      jobs := jobs + [NewJob(data, delay, jobId)];
    }

    /** `emailQueue.getJobs(['delayed', 'waiting'])`: every pending job, and nothing else. */
    method GetPendingJobs() returns (r: seq<Job>)
      ensures r == PendingJobs(jobs)
      ensures forall j :: j in r <==> j in jobs && IsPending(j)
    {
      r := [];
      var i := 0;
      while i < |jobs|
        invariant 0 <= i <= |jobs|
        invariant r == PendingJobs(jobs[..i])
      {
        assert jobs[..i + 1] == jobs[..i] + [jobs[i]];
        FilterAppend(jobs[..i], [jobs[i]], IsPending);
        FilterOne(jobs[i], IsPending);
        if IsPending(jobs[i]) {
          r := r + [jobs[i]];
        }
        i := i + 1;
      }
      assert jobs[..i] == jobs;
    }

    /** `job.remove()`. */
    method Remove(j: Job)
      modifies this
      ensures jobs == Drop(old(jobs), [j])
    {
      jobs := Drop(jobs, [j]);
    }
  }

  // ---------------------------------------------------------------- the handler

  datatype Mail = Mail(from: string, to: string, subject: string, html: string)

  /** What the handler does to the outside world, in order. */
  datatype Effect =
    | MailSent(mail: Mail)
    | MetricRecorded(campaignId: string, successful: bool)
    | SentCountIncremented(emailAccountId: string)

  /**
   * How an awaited call turns out: it takes effect; it reports an error in
   * its result, which the handler does not look at; or it throws.
   */
  datatype CallOutcome = Done | Ignored | Threw

  /**
   * Everything the handler cannot see into: the three rows it fetches (None
   * when `.data` is empty), whether the mail transport rejects, and how the
   * three stored-procedure calls turn out.
   */
  datatype Env = Env(
    account: Option<AccountRow>,
    template: Option<EmailTemplate>,
    lead: Option<Lead>,
    sendThrows: bool,
    successMetric: CallOutcome,
    sentCount: CallOutcome,
    failureMetric: CallOutcome)

  /** The message the handler rethrows. */
  datatype WorkerError = RequiredDataNotFound | SendFailed | CallFailed

  /** The template renderer of the back end (`replaceVariables` of its own template utilities). */
  type Renderer = (string, map<string, string>) -> string

  predicate HasData(env: Env) { env.account.Some? && env.template.Some? && env.lead.Some? }

  /** The body is rendered with the lead's name, email and company. */
  function ContentVariables(lead: Lead): (vars: map<string, string>)
    ensures vars.Keys == {"name", "email", "company"}
  {
    map["name" := lead.name, "email" := lead.email, "company" := lead.company]
  }

  /** The subject is rendered with the lead's name and company only. */
  function SubjectVariables(lead: Lead): (vars: map<string, string>)
    ensures vars.Keys == {"name", "company"}
  {
    map["name" := lead.name, "company" := lead.company]
  }

  function MailFor(account: AccountRow, template: EmailTemplate, lead: Lead, render: Renderer): Mail
  {
    Mail(account.email, lead.email, render(template.subject, SubjectVariables(lead)),
         render(template.content, ContentVariables(lead)))
  }

  /** The effect of a call that either takes effect or throws. */
  function Applied(outcome: CallOutcome, e: Effect): seq<Effect>
  {
    if outcome == Done then [e] else []
  }

  datatype Attempt = Attempt(effects: seq<Effect>, result: Result<(), WorkerError>)

  /** Some step inside the `try` threw. */
  predicate Throws(env: Env)
  {
    !HasData(env) || env.sendThrows || env.successMetric == Threw || env.sentCount == Threw
  }

  /** The error thrown inside the `try`, when one is. */
  function TryError(env: Env): WorkerError
  {
    if !HasData(env) then RequiredDataNotFound
    else if env.sendThrows then SendFailed
    else CallFailed
  }

  /**
   * What one attempt does: the steps of the `try` up to the first that
   * throws, then, if one threw, the failure metric of the `catch` and the
   * rethrow (of the catch's own error when its call throws).
   */
  function AttemptOf(job: EmailJob, env: Env, render: Renderer): Attempt
  {
    var steps :=
      if !HasData(env) then []
      else
        var mail := MailFor(env.account.value, env.template.value, env.lead.value, render);
        Applied(if env.sendThrows then Threw else Done, MailSent(mail))
        + (if env.sendThrows then []
           else Applied(env.successMetric, MetricRecorded(job.campaignId, true))
                + (if env.successMetric == Threw then []
                   else Applied(env.sentCount, SentCountIncremented(job.emailAccountId))));
    if !Throws(env) then Attempt(steps, Ok(()))
    else
      Attempt(steps + Applied(env.failureMetric, MetricRecorded(job.campaignId, false)),
              Err(if env.failureMetric == Threw then CallFailed else TryError(env)))
  }

  /** The outside world as the handler sees it: the log of its effects. */
  class Backend {
    var log: seq<Effect>

    constructor()
      ensures log == []
    {
      log := [];
    }

    /** An awaited call producing `e`; reports whether it threw. */
    method Call(e: Effect, outcome: CallOutcome) returns (threw: bool)
      modifies this
      ensures log == old(log) + Applied(outcome, e)
      ensures threw <==> outcome == Threw
    {
      if outcome == Done {
        log := log + [e];
      }
      threw := outcome == Threw;
    }

    /** The `emailQueue.process` handler, run once on `job`. */
    method Process(job: EmailJob, env: Env, render: Renderer) returns (r: Result<(), WorkerError>)
      modifies this
      ensures log == old(log) + AttemptOf(job, env, render).effects
      ensures r == AttemptOf(job, env, render).result
    {
      var error: Option<WorkerError> := None;
      if env.account.None? || env.template.None? || env.lead.None? {
        error := Some(RequiredDataNotFound);
      } else {
        var account, template, lead := env.account.value, env.template.value, env.lead.value;
        var content := render(template.content, ContentVariables(lead));
        var subject := render(template.subject, SubjectVariables(lead));
        var mail := Mail(account.email, lead.email, subject, content);
        var threw := Call(MailSent(mail), if env.sendThrows then Threw else Done);
        if threw {
          error := Some(SendFailed);
        } else {
          threw := Call(MetricRecorded(job.campaignId, true), env.successMetric);
          if threw {
            error := Some(CallFailed);
          } else {
            threw := Call(SentCountIncremented(job.emailAccountId), env.sentCount);
            if threw {
              error := Some(CallFailed);
            }
          }
        }
      }
      if error.Some? {
        var threw := Call(MetricRecorded(job.campaignId, false), env.failureMetric);
        r := Err(if threw then CallFailed else error.value);
      } else {
        r := Ok(());
      }
    }
  }

  // ---------------------------------------------------------------- properties of one attempt

  /** A missing row: no mail, one failed metric (when that call goes through), and the error is rethrown. */
  lemma MissingDataSendsNothing(job: EmailJob, env: Env, render: Renderer)
    requires !HasData(env)
    ensures AttemptOf(job, env, render).effects == Applied(env.failureMetric, MetricRecorded(job.campaignId, false))
    ensures AttemptOf(job, env, render).result
            == Err(if env.failureMetric == Threw then CallFailed else RequiredDataNotFound)
  {
  }

  /** When every call goes through: the mail, then the successful metric, then the sent count. */
  lemma SuccessOrder(job: EmailJob, env: Env, render: Renderer)
    requires HasData(env) && !env.sendThrows && env.successMetric == Done && env.sentCount == Done
    ensures var mail := MailFor(env.account.value, env.template.value, env.lead.value, render);
            AttemptOf(job, env, render)
            == Attempt([MailSent(mail), MetricRecorded(job.campaignId, true), SentCountIncremented(job.emailAccountId)],
                       Ok(()))
  {
  }

  /** A throw after the successful metric was recorded records a failed one as well. */
  lemma FailureAfterSuccessMetric(job: EmailJob, env: Env, render: Renderer)
    requires HasData(env) && !env.sendThrows && env.successMetric == Done && env.sentCount == Threw
    requires env.failureMetric == Done
    ensures var e := AttemptOf(job, env, render).effects;
            MetricRecorded(job.campaignId, true) in e && MetricRecorded(job.campaignId, false) in e
    ensures AttemptOf(job, env, render).result == Err(CallFailed)
  {
  }

  /**
   * The attempt fails exactly when some step of the `try` throws; a failed
   * metric is recorded exactly then (if its own call goes through); the
   * successful metric is never recorded without the mail.
   */
  lemma OutcomeAccounting(job: EmailJob, env: Env, render: Renderer)
    ensures var a := AttemptOf(job, env, render);
            && (a.result.Err? <==> Throws(env))
            && (MetricRecorded(job.campaignId, false) in a.effects <==> Throws(env) && env.failureMetric == Done)
            && (MetricRecorded(job.campaignId, true) in a.effects
                ==> HasData(env) && !env.sendThrows && env.successMetric == Done)
            && ((exists m :: MailSent(m) in a.effects) <==> HasData(env) && !env.sendThrows)
  {
    var a := AttemptOf(job, env, render);
    if HasData(env) && !env.sendThrows {
      var mail := MailFor(env.account.value, env.template.value, env.lead.value, render);
      assert a.effects[0] == MailSent(mail);
    }
  }

  /** The mail goes from the account's address to the lead's, with the rendered subject and body. */
  lemma MailAddressing(job: EmailJob, env: Env, render: Renderer, m: Mail)
    requires MailSent(m) in AttemptOf(job, env, render).effects
    ensures HasData(env)
    ensures m.from == env.account.value.email && m.to == env.lead.value.email
    ensures m.subject == render(env.template.value.subject, SubjectVariables(env.lead.value))
    ensures m.html == render(env.template.value.content, ContentVariables(env.lead.value))
  {
  }

  /** Sending never looks at the account's daily limit or its count of mails sent today. */
  lemma IgnoresSendingLimits(job: EmailJob, env: Env, render: Renderer, dailyLimit: int, sentToday: int)
    requires env.account.Some?
    ensures var other := env.(account := Some(env.account.value.(daily_limit := dailyLimit, sent_today := sentToday)));
            AttemptOf(job, other, render) == AttemptOf(job, env, render)
  {
  }
}
