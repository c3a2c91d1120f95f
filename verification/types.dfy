/**
 * The record shapes shared by the front end (src/types/index.ts), and the
 * snake_case database row of an email account that the pages map from.
 */
module Types {

  datatype EmailAccount = EmailAccount(
    id: string,
    name: string,
    email: string,
    password: string,
    smtpHost: string,
    smtpPort: int,
    useTLS: bool,
    dailyLimit: int,
    sentToday: int)

  datatype Lead = Lead(id: string, name: string, email: string, company: string)

  datatype EmailTemplate = EmailTemplate(id: string, name: string, subject: string, content: string)

  datatype Schedule = Schedule(startTime: string, endTime: string, days: seq<string>)

  datatype Status = Draft | Active | Completed | Paused

  datatype Metrics = Metrics(sent: int, successful: int, failed: int)

  datatype Campaign = Campaign(
    id: string,
    name: string,
    templateId: string,
    leadListIds: seq<string>,
    emailAccountIds: seq<string>,
    schedule: Schedule,
    status: Status,
    metrics: Metrics)

  /** A row of the `email_accounts` table as the data store returns it. */
  datatype AccountRow = AccountRow(
    id: string,
    name: string,
    email: string,
    password: string,
    smtp_host: string,
    smtp_port: int,
    use_tls: bool,
    daily_limit: int,
    sent_today: int)

  /** Key functions, passed to the generic list helpers. */
  function AccountId(a: EmailAccount): string { a.id }
  function LeadId(l: Lead): string { l.id }
  function CampaignId(c: Campaign): string { c.id }
}
