# Mailer: a verified model of the sending core

This project models the logic of a cold-email tool in Dafny. The front end is React with a hosted Postgres store. The back end is a Bull queue worker. The model covers five parts of the system.

- **The template engine** (`src/utils/templateParser.ts`). `{{ key }}` placeholders are filled from a variable map. Each `{{ RANDOM | a | b }}` block is then replaced by one of its trimmed options. The module also has a syntax validator, a preview rewriter and a helper that renders a template several times. The two regular expressions become an explicit left-to-right scan (`TemplateParser.Scan`). Every replace is a map over the pieces of that scan.
- **The campaign scheduler and pause** (`backend/src/services/campaign.service.ts`).
  - Scheduling adds one delayed job per lead, spread evenly over the sending window, and then marks the campaign active.
  - Pausing removes the campaign's delayed and waiting jobs and marks it paused.
  - The queue and the campaigns table are classes whose fields these methods update.
- **One attempt of the email worker** (`backend/src/queues/email.queue.ts`). The rows it fetches, the mail transport and the stored procedures are parameters. Their effects are appended to a log in the order the handler makes them.
- **The CSV readers and writers.** The two import dialogs parse CSV: all-or-nothing, with ordered error rules. The two pages export CSV and offer a downloadable template. Round-trip lemmas connect each writer to its reader.
- **Page state updates.** These cover the campaign form's toggles and select/deselect-all buttons, the campaigns page's status toggle, create, edit and delete, and the leads, email-accounts and settings pages. Each is a pure function from the page state and the data store's answer to the new page state.

Shared pieces:
- `Text` models `trim`, `split`, `join` and a decimal `parseInt`.
- `Csv` models the line filter and the all-or-nothing parse loop.
- `Lists` models `Array.prototype.filter`, used by every delete, the CSV line filter, the form's toggles and the pause.

## Model

| member | source | states |
|---|---|---|
| Text.TrimStartDropsSpace | src/components/LeadImportModal.tsx:21 | `trim` removes exactly the white space at the front of a string |
| Text.TrimEnd | src/components/LeadImportModal.tsx:21 | `trim` removes exactly the white space at the end; what is left is a prefix of the input |
| Text.Trim | src/components/LeadImportModal.tsx:18 | a trimmed string has no white space at either end, and it is empty exactly when the input is blank (the line filter) |
| Text.TrimAll | src/components/LeadImportModal.tsx:21 | `map(s => s.trim())` trims each piece and keeps their number |
| Text.TrimInside | src/components/LeadImportModal.tsx:21 | trimming adds no character, so a trimmed field keeps out what the untrimmed one kept out |
| Text.SplitTrim | src/utils/templateParser.ts:11 | `split(sep).map(s => s.trim())` has as many pieces as the split (at least one, so a block always has an option and a line a field), each trimmed and free of the separator |
| Text.Split | src/components/LeadImportModal.tsx:17 | `split` on one character gives at least one piece, and no piece contains the separator |
| Text.SplitJoin | src/pages/Leads.tsx:124-127 | splitting a join of separator-free pieces gives back the pieces |
| Text.JoinSplit | src/pages/Leads.tsx:124-127 | joining the pieces of a split gives back the text |
| Text.Join | src/pages/Leads.tsx:124-127 | `join` puts the separator between the pieces; `Split` undoes it on separator-free pieces (`SplitJoin`) |
| Text.SplitHasTwoPieces | src/utils/templateParser.ts:30 | a split gives two or more pieces exactly when the separator occurs |
| Text.FieldPrefix | src/components/LeadImportModal.tsx:19 | a line of comma-free fields starts with `w,` exactly when its first field is `w` |
| Text.ParseIntToString | src/pages/Settings.tsx:148-151 | `parseInt(String(i)) == i` for every integer |
| Text.ParseIntOfDigits | src/components/EmailAccountImportModal.tsx:27-28 | a string of decimal digits parses to its value |
| Text.ParseIntOfNegativeDigits | src/components/EmailAccountImportModal.tsx:27-28 | a minus sign before digits parses to the negated value |
| Text.ParseIntNeedsDigits | src/components/EmailAccountImportModal.tsx:30 | the empty string, and a string that starts with no white space, no digit and no sign, parse to NaN (None) |
| Text.ParseInt | src/components/EmailAccountImportModal.tsx:27-28 | decimal `parseInt`: white space, an optional sign, then the longest digit run; `ParseIntToString`, `ParseIntOfDigits` and `ParseIntNeedsDigits` state its results |
| Text.IntToString | src/pages/EmailAccounts.tsx:156 | `String(i)` is never empty and starts with a minus sign exactly when i is negative; `ParseIntToString` is its inverse |
| Text.IntToStringPlain | src/pages/EmailAccounts.tsx:156 | the decimal form of an integer is trimmed and has no comma or line break, so it is exported safely |
| Lists.RemoveKey | src/pages/Leads.tsx:116 | `filter(x => x.id !== id)` keeps exactly the elements whose id differs |
| Lists.RemoveKeyAppend | src/pages/Leads.tsx:116 | the filter keeps the survivors in order (it commutes with concatenation) |
| Lists.RemoveKeyLength | src/pages/Leads.tsx:116 | the filter drops exactly as many elements as carry the id |
| Lists.Filter | src/pages/Leads.tsx:116 | `filter` keeps exactly the elements that pass and never lengthens the list |
| Lists.FilterAppend | src/pages/Leads.tsx:116 | `filter` commutes with concatenation, so the survivors keep their relative order |
| Lists.FilterOne | src/pages/Leads.tsx:116 | one element is kept exactly when it passes |
| Lists.FilterKeepsAll | src/pages/Leads.tsx:116 | a list whose elements all pass comes back unchanged |
| Lists.FilterCount | src/pages/Leads.tsx:116 | a passing element keeps its number of copies; any other has none left |
| Lists.FilterTwice | src/pages/Leads.tsx:116 | filtering again by the same test removes nothing more |
| TemplateParser.MatchPlaceholder | src/utils/templateParser.ts:5 | a placeholder match is at least five characters long and lies inside the text |
| TemplateParser.KeyFrom | src/utils/templateParser.ts:5 | after `{{` and its white space, the key, white space and `}}` take at least three characters and end inside the text |
| TemplateParser.FindClose | src/utils/templateParser.ts:10 | the lazy `(.*?)}}` stops at the first `}}` and crosses no line terminator |
| TemplateParser.PlaceholderMatchIsPlaceholder | src/utils/templateParser.ts:5 | every placeholder match is `{{`, white space, a `\w+` key, white space and `}}`, and it captures the key |
| TemplateParser.PlaceholderIsMatched | src/utils/templateParser.ts:5 | conversely, every such text is matched at its start and captures its key |
| TemplateParser.RandomMatchIsBlock | src/utils/templateParser.ts:10 | every RANDOM match is `{{`, white space, `RANDOM`, white space, `\|`, options with no line break, and the first `}}` |
| TemplateParser.RandomBlockIsMatched | src/utils/templateParser.ts:10 | conversely, every such block whose options have no `}` and no line break is matched and captures its options |
| TemplateParser.MatchRandom | src/utils/templateParser.ts:10 | a RANDOM match is at least eleven characters long and lies inside the text; `RandomMatchIsBlock` gives its shape |
| TemplateParser.Scan | src/utils/templateParser.ts:5 | the global left-to-right scan: its pieces spell the scanned text exactly |
| TemplateParser.ScanWithoutOpening | src/utils/templateParser.ts:5 | from a position after which no `{{` opens, neither pattern matches |
| TemplateParser.ScanBefore | src/utils/templateParser.ts:5-10 | the scan of a text with `{{` at n is the scan of the text cut at n, then the scan from n: no placeholder match crosses a `{{`, and for RANDOM blocks nothing may open before n |
| TemplateParser.ScanSame | src/utils/templateParser.ts:5-10 | the scan from a position depends only on the text from there on |
| TemplateParser.MatchShift | src/utils/templateParser.ts:5-10 | a match at position j is the match at the start of the text from j on, moved by j |
| TemplateParser.ScanSplit | src/utils/templateParser.ts:5-10 | when the second part starts with `{{`, the scan of the whole is the scans of the two parts joined; for placeholders the first part may be anything, for RANDOM blocks it must hold no `{{` |
| TemplateParser.ScanLeadingMatch | src/utils/templateParser.ts:5-10 | a match at the start of a text is one piece, followed by the scan of the rest on its own |
| TemplateParser.SubstituteVariables | src/utils/templateParser.ts:5-7 | phase 1 (`variables[key] \|\| match`): when no matched key is bound, neither to a non-empty value of its own nor as an inherited `Object.prototype` member, the text comes back unchanged; `PlaceholderInText` gives each placeholder's replacement wherever it stands |
| TemplateParser.Lookup | src/utils/templateParser.ts:5-7 | `variables[key] \|\| match`: an own non-empty value; else, for an inherited `Object.prototype` name, that member's string form; else the match; stated by `SinglePlaceholder` |
| TemplateParser.InheritedKeyReplaced | src/utils/templateParser.ts:5-7 | `{{ constructor }}` with no own `constructor` variable is not kept: it becomes the text of the `Object` function |
| TemplateParser.SinglePlaceholder | src/utils/templateParser.ts:5-7 | a text that is one `{{ key }}` becomes the key's own value when it is non-empty, the inherited member's text when the key is only inherited, and is kept as it was when the key is unbound |
| TemplateParser.SubstituteAppend | src/utils/templateParser.ts:5-7 | substituting works piece by piece, so it distributes over joined scans |
| TemplateParser.SubstituteSplit | src/utils/templateParser.ts:5-7 | a text split just before a `{{` substitutes as its two parts substituted and joined, whatever the first part holds |
| TemplateParser.LeadingPlaceholder | src/utils/templateParser.ts:5-7 | a text that starts with `{{ key }}` becomes the key's replacement followed by the rest substituted |
| TemplateParser.PlaceholderInText | src/utils/templateParser.ts:5-7 | for any texts a and b, `a + {{ key }} + b` substitutes as a substituted, then the key's replacement (`Lookup`), then b substituted |
| TemplateParser.ReplaceWithoutBraces | src/utils/templateParser.ts:3-16 | a text without `{{` comes back from `replaceVariables` unchanged |
| TemplateParser.Pick | src/utils/templateParser.ts:12 | `Math.floor(Math.random() * n)` is always a valid index |
| TemplateParser.PickReachesEveryOption | src/utils/templateParser.ts:12 | every option index can be drawn |
| TemplateParser.ResolveRandom | src/utils/templateParser.ts:10-13 | phase 2: whatever the draws, each RANDOM block becomes exactly one of its trimmed options, and every character outside the blocks is kept |
| TemplateParser.ReplaceVariables | src/utils/templateParser.ts:3-16 | `replaceVariables`: each RANDOM block of the phase-1 output becomes one of its options and the rest of that output is kept |
| TemplateParser.SingleBlock | src/utils/templateParser.ts:10-22 | a text that is one RANDOM block has exactly that block: it renders to an option and previews as that block's markup |
| TemplateParser.TwoOptionResolve | src/utils/templateParser.ts:10-13 | `{{ RANDOM \| x \| y }}` resolves to x or y and never to the raw block |
| TemplateParser.TwoOptionRender | src/utils/templateParser.ts:3-16 | with options free of `{`, `replaceVariables` renders `{{ RANDOM \| x \| y }}` as x or y, whatever the variables and the draw |
| TemplateParser.TwoOptionTextHasNoPlaceholder | src/utils/templateParser.ts:5 | a two-option block with brace-free options holds no placeholder match (`RANDOM` is followed by `\|`, not `}}`), so phase 1 leaves it alone |
| TemplateParser.SubstitutedBlockIsResolved | src/utils/templateParser.ts:4-13 | phase 2 runs on the output of phase 1, so a RANDOM block brought in by a variable's value is resolved too |
| TemplateParser.PreviewRandomSyntax | src/utils/templateParser.ts:18-23 | a text with no RANDOM block previews as itself; `BlockInText` gives each block's markup wherever it stands |
| TemplateParser.PreviewAppend | src/utils/templateParser.ts:18-23 | the preview works piece by piece, so it distributes over joined scans |
| TemplateParser.PreviewSplit | src/utils/templateParser.ts:18-23 | a text without `{{` is kept as it is, and what follows it is previewed on its own |
| TemplateParser.LeadingBlock | src/utils/templateParser.ts:18-23 | a text that starts with a RANDOM block previews as that block's markup followed by the rest previewed |
| TemplateParser.BlockInText | src/utils/templateParser.ts:18-23 | for a text a without `{{`, any text b and a block whose options have no `}` and no line break, `a + block + b` previews as a, the block's markup, then b previewed |
| TemplateParser.TwoOptionMarkup | src/utils/templateParser.ts:21 | the markup lists the options joined by ` \| `, shows the first one and says `(2 options)` |
| TemplateParser.TwoOptionPreview | src/utils/templateParser.ts:18-23 | the preview of `{{ RANDOM \| x \| y }}` is the markup of `[x, y]`; no draw is involved |
| TemplateParser.ValidateRandomSyntax | src/utils/templateParser.ts:25-44 | the text is valid exactly when every block's options are non-empty and split into at least two untrimmed pieces; otherwise the result is the one error message |
| TemplateParser.HasTwoOptionsIffPipe | src/utils/templateParser.ts:30 | a block passes the check exactly when its options contain a `\|` |
| TemplateParser.SingleBlockValidity | src/utils/templateParser.ts:28-35 | a one-block text is valid exactly when its options contain `\|`, so `{{ RANDOM \| a \| }}` passes |
| TemplateParser.ValidWithoutBraces | src/utils/templateParser.ts:27-37 | a text without `{{` has no blocks and is valid |
| TemplateParser.WellFormedBlocksOfferChoice | src/utils/templateParser.ts:28-35 | in a valid text, every block offers at least two options to the renderer |
| TemplateParser.GenerateVariations | src/utils/templateParser.ts:47-55 | returns max(count, 0) renders (the default count is 5); the i-th is `replaceVariables` with the i-th draws |
| EmailQueue.NewJob | backend/src/queues/email.queue.ts:14-23 | a new job has 3 attempts and exponential backoff from 1000 ms, and it is delayed exactly when its delay is positive |
| EmailQueue.InitialState | backend/src/services/campaign.service.ts:42-45 | a job added with a positive delay is listed as delayed, any other as waiting; stated by `NewJob` |
| EmailQueue.PendingJobs | backend/src/services/campaign.service.ts:64 | `getJobs(['delayed', 'waiting'])` lists exactly the delayed and waiting jobs |
| EmailQueue.Drop | backend/src/services/campaign.service.ts:65-68 | removing jobs keeps exactly those not removed |
| EmailQueue.DropDrop | backend/src/services/campaign.service.ts:65-68 | removing one list of jobs and then another is the same as removing both |
| EmailQueue.Queue.Add | backend/src/services/campaign.service.ts:37-45 | `add` appends the job built from the data, delay and id |
| EmailQueue.Queue.GetPendingJobs | backend/src/services/campaign.service.ts:64 | returns `PendingJobs` of the queue: every delayed or waiting job, and nothing else |
| EmailQueue.Queue.Remove | backend/src/services/campaign.service.ts:67 | `job.remove()` drops that job from the queue |
| EmailQueue.ContentVariables | backend/src/queues/email.queue.ts:64-68 | the body is rendered with exactly name, email and company |
| EmailQueue.SubjectVariables | backend/src/queues/email.queue.ts:70-73 | the subject is rendered with exactly name and company |
| EmailQueue.Backend.Call | backend/src/queues/email.queue.ts:83-92 | an awaited call logs its effect only when it goes through, and it reports a throw |
| EmailQueue.Backend.Process | backend/src/queues/email.queue.ts:25-105 | one attempt appends to the log exactly the effects of `AttemptOf` and returns its result |
| EmailQueue.AttemptOf | backend/src/queues/email.queue.ts:25-105 | the effects and result of one attempt; `Backend.Process` makes exactly these, and `OutcomeAccounting` and `SuccessOrder` state what they are |
| EmailQueue.MissingDataSendsNothing | backend/src/queues/email.queue.ts:48-50 | with a row missing, no mail is sent, at most one failed metric is recorded, and the error is rethrown |
| EmailQueue.SuccessOrder | backend/src/queues/email.queue.ts:76-92 | when every call goes through, the log is: mail sent, then successful metric, then sent count incremented |
| EmailQueue.FailureAfterSuccessMetric | backend/src/queues/email.queue.ts:83-104 | a throw after the success metric records a failed metric as well |
| EmailQueue.OutcomeAccounting | backend/src/queues/email.queue.ts:28-104 | the attempt fails exactly when a step of the `try` throws, and a failed metric is logged exactly then. A success metric is never logged without the mail. A mail is sent exactly when the data is there and the send does not throw |
| EmailQueue.MailAddressing | backend/src/queues/email.queue.ts:76-81 | a mail goes from the account's address to the lead's, with the rendered subject and body |
| EmailQueue.IgnoresSendingLimits | backend/src/queues/email.queue.ts:28-92 | the attempt is the same whatever the account's daily limit and count sent today |
| CampaignService.CampaignTable.SetStatus | backend/src/services/campaign.service.ts:49-52 | an update by id changes that row's status when the store applies it; no row, or an update the store rejects (its error is never read), leaves the table as it was |
| CampaignService.FirstDelayIsZero | backend/src/services/campaign.service.ts:35 | the first lead goes at once |
| CampaignService.DelayMs | backend/src/services/campaign.service.ts:35 | the first lead's delay is 0, and over a non-negative window no delay is negative |
| CampaignService.DelayStep | backend/src/services/campaign.service.ts:31-35 | consecutive delays differ by window × 60000 / number of leads |
| CampaignService.DelayWithinWindow | backend/src/services/campaign.service.ts:24-35 | with a positive window, every delay is in [0, window × 60000) |
| CampaignService.DelayExample | backend/src/services/campaign.service.ts:35 | three leads over 30 minutes go at 0, 600000 and 1200000 ms |
| CampaignService.JobIdsDistinct | backend/src/services/campaign.service.ts:44 | within a campaign, different lead ids give different job ids |
| CampaignService.JobId | backend/src/services/campaign.service.ts:44 | the job id is the campaign id, a dash, then the lead id |
| CampaignService.ScheduledJobs | backend/src/services/campaign.service.ts:34-46 | one job per lead |
| CampaignService.Plan | backend/src/services/campaign.service.ts:34-46 | a successful schedule adds exactly one job per lead |
| CampaignService.CampaignError | backend/src/services/campaign.service.ts:34-40 | with leads, a missing template or first account makes the schedule throw; stated by `ScheduleNeedsTemplateAndAccount` |
| CampaignService.ScheduleOutcome | backend/src/services/campaign.service.ts:9-40 | a query error or a missing campaign fails the schedule, and otherwise `CampaignError` decides; stated by `ScheduleCampaign` |
| CampaignService.ScheduleCampaign | backend/src/services/campaign.service.ts:6-59 | on success, the jobs of `Plan` are appended in lead order, and the status becomes active when the store applies the update (its error is ignored). On any earlier error, the error is returned and neither the queue nor the table changes |
| CampaignService.PlanJobs | backend/src/services/campaign.service.ts:37-45 | the k-th job is for lead k, with the campaign's template, the first account, id `campaign-lead`, delay k × (W/N) × 60000 and the default options |
| CampaignService.PlanJobIdsDistinct | backend/src/services/campaign.service.ts:44 | distinct leads in a plan get distinct job ids |
| CampaignService.NoLeadsNoJobs | backend/src/services/campaign.service.ts:30-52 | a campaign without leads adds no job and is still scheduled successfully |
| CampaignService.ScheduleNeedsTemplateAndAccount | backend/src/services/campaign.service.ts:38-40 | with leads, scheduling succeeds exactly when the template and a first account exist |
| CampaignService.WithoutPending | backend/src/services/campaign.service.ts:64-69 | pausing keeps exactly the jobs that are not delayed or waiting jobs of the campaign, and never adds one |
| CampaignService.WithoutPendingKeepsOthers | backend/src/services/campaign.service.ts:64-69 | other campaigns' jobs and jobs in other states keep their number of copies |
| CampaignService.WithoutPendingIdempotent | backend/src/services/campaign.service.ts:61-82 | pausing twice removes nothing more |
| CampaignService.DropPending | backend/src/services/campaign.service.ts:64-69 | removing the listed jobs of the campaign is `WithoutPending` |
| CampaignService.PauseCampaign | backend/src/services/campaign.service.ts:61-82 | the queue becomes `WithoutPending` of the old queue (order kept), and the status becomes paused when the store applies the update (its error is ignored) |
| Csv.Keep | src/components/LeadImportModal.tsx:16-19 | the data lines are exactly the input lines that are neither blank nor start with the header, never more than the input |
| Csv.KeepAppend | src/components/LeadImportModal.tsx:18-19 | the line filter commutes with concatenation: kept lines stay in order |
| Csv.KeepOne | src/components/LeadImportModal.tsx:18-19 | one line is kept exactly when it is neither blank nor starts with the header |
| Csv.KeepCount | src/components/LeadImportModal.tsx:18-19 | a kept line keeps its number of copies; any other line has none left |
| Csv.DataLines | src/components/LeadImportModal.tsx:16-19 | the lines of the content that are read as records: the split on `\n`, filtered by `Keep` |
| Csv.KeepAll | src/components/LeadImportModal.tsx:18-19 | lines that are neither blank nor headers are all kept, in order |
| Csv.FieldsOfJoin | src/components/LeadImportModal.tsx:21 | plain fields joined by commas are read back as those fields |
| Csv.LineOfFields | src/pages/Leads.tsx:126 | a line of plain fields is not blank, has no line break and starts with its first field and a comma |
| Csv.ParseAllOk | src/components/LeadImportModal.tsx:20-37 | all or nothing: the parse succeeds exactly when every line does, and it then gives one record per line in order |
| Csv.ParseAllFirstError | src/components/LeadImportModal.tsx:23-29 | a failed parse reports the error of the first failing line |
| Csv.ParseAllEach | src/components/LeadImportModal.tsx:20-37 | if each line parses to its value, the parse gives those values in order |
| Csv.ParsedFromSomeLine | src/components/LeadImportModal.tsx:20-37 | every record of a parse comes from one of the lines |
| Csv.ParseAll | src/components/LeadImportModal.tsx:20-37 | a successful parse gives one record per line; `ParseAllOk` and `ParseAllFirstError` state the rest |
| AccountImport.CompleteFields | src/components/EmailAccountImportModal.tsx:23 | the required check covers all six fields |
| AccountImport.ParseLine | src/components/EmailAccountImportModal.tsx:20-48 | an account read from a line has the line's id, a port in 1..65535, a limit of at least 1, TLS on and nothing sent today; an error is one of the three messages |
| AccountImport.ParseCsv | src/components/EmailAccountImportModal.tsx:15-52 | succeeds exactly when every data line parses, and then gives one account per data line, in order, each that line's account |
| AccountImport.ParseLineRules | src/components/EmailAccountImportModal.tsx:20-48 | the rules in order: missing fields, then port outside 1..65535, then limit below 1. A good line gives the account with TLS on and nothing sent today, and extra columns are ignored |
| AccountImport.ParsedAccountDefaults | src/components/EmailAccountImportModal.tsx:45-47 | an account read from a line has TLS on and nothing sent today |
| AccountImport.ImportedDefaults | src/components/EmailAccountImportModal.tsx:15-52 | every imported account has TLS on and nothing sent today |
| AccountImport.ImportModal.HandleImport | src/components/EmailAccountImportModal.tsx:54-61 | a successful parse hands over all accounts and closes the dialog. A failure shows the error and hands over nothing |
| AccountImport.ImportModal.HandleFileUpload | src/components/EmailAccountImportModal.tsx:64-87 | no file: no change. A non-CSV file: error. A file that is read: its text replaces the content and clears the error. A failed read: error |
| LeadImport.ParseLineRules | src/components/LeadImportModal.tsx:20-37 | the rules in order: missing fields, then no `@` in the email. A good line gives the lead, and extra columns are ignored |
| LeadImport.ParsedLeadValid | src/components/LeadImportModal.tsx:23-29 | a lead read from a line has a name, a company and an `@` in its email |
| LeadImport.ImportedLeadsValid | src/components/LeadImportModal.tsx:15-40 | every imported lead has a name, a company and an `@` in its email |
| LeadImport.ParseLine | src/components/LeadImportModal.tsx:20-37 | a lead read from a line has the line's id, a name, a company and an `@` in its email; an error is one of the two messages |
| LeadImport.ParseCsv | src/components/LeadImportModal.tsx:15-40 | succeeds exactly when every data line parses, and then gives one lead per data line, in order, each that line's lead |
| LeadImport.ImportModal.HandleImport | src/components/LeadImportModal.tsx:42-50 | all leads or none: success hands them over and closes; failure shows the error |
| LeadImport.ImportModal.HandleFileUpload | src/components/LeadImportModal.tsx:52-75 | no file: no change. A non-CSV file: error. A file that is read: its text replaces the content. A failed read: error |
| EmailAccountsPage.FromInsertedRow | src/pages/EmailAccounts.tsx:120-145 | a row read back after an insert is the account under its new id, with nothing sent today |
| EmailAccountsPage.FromRow | src/pages/EmailAccounts.tsx:37-48 | a stored row renamed from snake_case field by field; stated by `Load` and `FromInsertedRow` |
| EmailAccountsPage.Load | src/pages/EmailAccounts.tsx:27-55 | the rows are mapped from snake_case in order; on an error the message is set and the list is unchanged |
| EmailAccountsPage.Submit | src/pages/EmailAccounts.tsx:57-97 | the new account goes first with nothing sent today, and the form is reset and hidden; failure sets the message |
| EmailAccountsPage.Delete | src/pages/EmailAccounts.tsx:99-113 | exactly the accounts with that id leave the list; failure sets the message |
| EmailAccountsPage.DeleteKeepsOrder | src/pages/EmailAccounts.tsx:108 | the survivors keep their order |
| EmailAccountsPage.Import | src/pages/EmailAccounts.tsx:135-147 | the imported rows go first, in order, before the old list |
| EmailAccountsPage.ImportPrepends | src/pages/EmailAccounts.tsx:115-152 | imported accounts come first under their new ids, with nothing sent today |
| EmailAccountsPage.AccountLines | src/pages/EmailAccounts.tsx:155-156 | one line per account, in order |
| EmailAccountsPage.AccountLine | src/pages/EmailAccounts.tsx:156 | the six exported fields joined by commas; `AccountLineParses` reads it back |
| EmailAccountsPage.Export | src/pages/EmailAccounts.tsx:154-157 | the account lines joined by line breaks; `ExportRoundTrip` reads it back |
| EmailAccountsPage.AccountLineParses | src/pages/EmailAccounts.tsx:156 | the line of an exportable account parses back to it, with TLS on and nothing sent today |
| EmailAccountsPage.ExportRoundTrip | src/pages/EmailAccounts.tsx:154-157 | the import dialog reads an export of exportable accounts back as those accounts, in order |
| EmailAccountsPage.ExportEmpty | src/pages/EmailAccounts.tsx:155-157 | an empty list exports the empty text, which reads back as no accounts |
| EmailAccountsPage.HeaderedExportRoundTrip | src/pages/EmailAccounts.tsx:168-172 | a header line before the account lines is skipped |
| EmailAccountsPage.TemplateParses | src/pages/EmailAccounts.tsx:168-172 | the template reads back as its three accounts |
| EmailAccountsPage.TemplateAccountsRead | src/pages/EmailAccounts.tsx:170-172 | those accounts are on port 587 with TLS, and their limits are 100, 150 and 200 |
| LeadsPage.Load | src/pages/Leads.tsx:34-42 | the fetched leads replace the list; an error sets the message |
| LeadsPage.Add | src/pages/Leads.tsx:48-76 | the stored lead goes first, and the form is cleared and hidden; failure sets the message |
| LeadsPage.AddPutsFormFirst | src/pages/Leads.tsx:63-70 | the form's fields come first under the new id |
| LeadsPage.Import | src/pages/Leads.tsx:93-103 | the imported leads go before the old ones |
| LeadsPage.Delete | src/pages/Leads.tsx:107-121 | exactly the leads with that id leave the list; failure sets the message |
| LeadsPage.DeleteKeepsOrder | src/pages/Leads.tsx:116 | the survivors keep their order |
| LeadsPage.LeadLines | src/pages/Leads.tsx:126 | one `name,email,company` line per lead, in order |
| LeadsPage.LeadLine | src/pages/Leads.tsx:126 | `name,email,company`; `LeadLineParses` reads it back |
| LeadsPage.Export | src/pages/Leads.tsx:123-127 | the header line and the lead lines joined by line breaks; `ExportRoundTrip` reads it back |
| LeadsPage.ExportHeaderIsHeader | src/pages/Leads.tsx:125 | the export's header line is one the importer skips |
| LeadsPage.ExportLineCount | src/pages/Leads.tsx:123-127 | N leads without line breaks give N + 1 lines |
| LeadsPage.Surviving | src/components/LeadImportModal.tsx:19 | the leads that survive a re-import are exactly those not named `Name`, never more than the input |
| LeadsPage.SurvivingAppend | src/components/LeadImportModal.tsx:19 | survival commutes with concatenation: survivors stay in order |
| LeadsPage.SurvivingOne | src/components/LeadImportModal.tsx:19 | one lead survives exactly when it is not named `Name` |
| LeadsPage.SurvivingCount | src/components/LeadImportModal.tsx:19 | a surviving lead keeps its number of copies; a lead named `Name` has none left |
| LeadsPage.LeadLineShape | src/components/LeadImportModal.tsx:18-19 | the line of an exportable lead is not blank, is one line, and is taken for a header exactly when the name is `Name` |
| LeadsPage.LeadLineParses | src/components/LeadImportModal.tsx:20-37 | the line of an exportable lead parses back to that lead |
| LeadsPage.KeepLeadLines | src/components/LeadImportModal.tsx:16-19 | the importer keeps the lines of exactly the surviving leads |
| LeadsPage.ExportLines | src/pages/Leads.tsx:124-127 | an export of exportable leads splits back into the header line and one line per lead |
| LeadsPage.ExportRoundTrip | src/pages/Leads.tsx:123-127 | the import dialog reads an export back as the leads not named `Name`, in order, under fresh ids |
| LeadsPage.NoneSkipped | src/pages/Leads.tsx:123-127 | without a lead named `Name`, every lead comes back |
| LeadsPage.NamedNameIsLost | src/components/LeadImportModal.tsx:19 | a lead named `Name` does not survive its own export |
| LeadsPage.TemplateParses | src/pages/Leads.tsx:138-142 | the template reads back as its three leads |
| LeadsPage.TemplateLeadsRead | src/pages/Leads.tsx:139-142 | those leads are John Doe, Jane Smith and Mike Johnson |
| CampaignForm.DayValues | src/components/CampaignForm.tsx:14-22 | the day values, one per `DAYS` entry, in order |
| CampaignForm.DayValuesAreTheWeek | src/components/CampaignForm.tsx:14-22 | Monday to Sunday, no day twice |
| CampaignForm.Without | src/components/CampaignForm.tsx:95 | the filter keeps exactly the other values |
| CampaignForm.Toggle | src/components/CampaignForm.tsx:92-98 | afterwards the value is a member exactly when it was not; every other value keeps its membership |
| CampaignForm.ToggleTwice | src/components/CampaignForm.tsx:92-98 | toggling twice restores the membership of every value |
| CampaignForm.ToggleKeepsOthersInOrder | src/components/CampaignForm.tsx:92-98 | the other values keep their relative order |
| CampaignForm.ToggleAppendsLast | src/components/CampaignForm.tsx:96 | an added value goes last |
| CampaignForm.ToggleEmailAccount | src/components/CampaignForm.tsx:92-98 | only the account list changes, by the toggle rule |
| CampaignForm.ToggleDay | src/components/CampaignForm.tsx:100-112 | only the day list changes, by the toggle rule; the start and end times are kept |
| CampaignForm.SelectAllAccounts | src/components/CampaignForm.tsx:83-86 | the fetched accounts' ids in fetched order; nothing else changes |
| CampaignForm.DeselectAllAccounts | src/components/CampaignForm.tsx:88-90 | no account; nothing else changes |
| CampaignForm.SelectAllDays | src/components/CampaignForm.tsx:114-122 | the seven days in order; the times are kept |
| CampaignForm.DeselectAllDays | src/components/CampaignForm.tsx:124-132 | no day; the times are kept |
| CampaignForm.SelectAllThenToggleDay | src/components/CampaignForm.tsx:100-122 | after select-all, toggling a day removes exactly that day |
| CampaignForm.ToggleFromEmpty | src/components/CampaignForm.tsx:88-98 | after deselect-all, toggling distinct accounts lists them in click order |
| CampaignForm.ToggleAll | src/components/CampaignForm.tsx:92-98 | a run of account clicks changes only the account list |
| CampaignsPage.DefaultDraftIsWorkWeek | src/pages/Campaigns.tsx:14-24 | the blank form runs 09:00 to 17:00, Monday to Friday, with no lists or accounts |
| CampaignsPage.Load | src/pages/Campaigns.tsx:30-60 | the fetched campaigns replace the list; an error sets the message |
| CampaignsPage.NextStatus | src/pages/Campaigns.tsx:183 | the status always changes: active becomes paused, any other becomes active |
| CampaignsPage.NextStatusTwice | src/pages/Campaigns.tsx:183 | two toggles restore exactly the active and paused statuses; draft and completed end up paused |
| CampaignsPage.Find | src/pages/Campaigns.tsx:180 | None exactly when no campaign has the id; otherwise a campaign of the list with that id |
| CampaignsPage.FindIsFirst | src/pages/Campaigns.tsx:180 | the campaign found is the first with that id |
| CampaignsPage.SetStatus | src/pages/Campaigns.tsx:192-200 | every campaign with the id gets the status; the others are unchanged |
| CampaignsPage.ToggleStatus | src/pages/Campaigns.tsx:178-205 | an unknown id changes nothing. A failed update sets the message. Otherwise the campaigns with the id get the next status of the first one |
| CampaignsPage.ToggleChangesOnlyStatus | src/pages/Campaigns.tsx:192-200 | a toggle changes only statuses, only of the campaigns with the id, and keeps the list in place |
| CampaignsPage.ToggleFlipsStatus | src/pages/Campaigns.tsx:183-200 | with distinct ids, the toggled campaign takes its next status |
| CampaignsPage.Created | src/pages/Campaigns.tsx:103-140 | a created campaign is a draft with metrics {0, 0, 0} holding the form's fields |
| CampaignsPage.Edited | src/pages/Campaigns.tsx:84-100 | the campaigns with the id take the form's fields and keep their id, status and metrics; the others are unchanged |
| CampaignsPage.EditUnchanged | src/pages/Campaigns.tsx:84-100 | saving an unchanged form leaves the list as it was |
| CampaignsPage.Edit | src/pages/Campaigns.tsx:162-176 | the campaign is selected and copied into the shown form |
| CampaignsPage.Submit | src/pages/Campaigns.tsx:62-160 | an edit rewrites the selected campaign and a create puts the new one first; the form is then reset and hidden. A failure only sets the message |
| CampaignsPage.CreateGoesFirst | src/pages/Campaigns.tsx:127-140 | the created campaign is first, as a draft without metrics, followed by the old list |
| CampaignsPage.Delete | src/pages/Campaigns.tsx:207-221 | exactly the campaigns with that id leave the list; failure sets the message |
| CampaignsPage.DeleteKeepsOrder | src/pages/Campaigns.tsx:216 | the survivors keep their order |
| SettingsPage.BooleanExactlyForFlags | src/pages/Settings.tsx:138-145 | `typeof settings[key] === 'boolean'` holds exactly for the four notification flags |
| SettingsPage.Get | src/pages/Settings.tsx:139 | `settings[key]` as a typed value; `BooleanExactlyForFlags` states which keys hold booleans |
| SettingsPage.Toggle | src/pages/Settings.tsx:138-145 | a boolean field is negated and every other field is unchanged; a key of another type is a no-op |
| SettingsPage.ToggleTwice | src/pages/Settings.tsx:138-145 | toggling the same key twice restores the settings |
| SettingsPage.ClampedLimit | src/pages/Settings.tsx:147-153 | max(0, parseInt(value) \|\| 0): never negative, and 0 for non-numeric input |
| SettingsPage.SetMaxDailyEmails | src/pages/Settings.tsx:147-153 | only the daily limit changes, and it stays non-negative |
| SettingsPage.ClampedLimitOfDigits | src/pages/Settings.tsx:148-151 | a typed number is taken as it is |
| SettingsPage.ClampedLimitOfNegative | src/pages/Settings.tsx:148-151 | a typed negative number becomes 0 |
| SettingsPage.Defaults | src/pages/Settings.tsx:22-33 | all flags are false, the limit is 1000, every SMTP field is null, and there is no id yet |
| SettingsPage.SaveActionFor | src/pages/Settings.tsx:90-122 | without a user, no save. With a non-empty settings id, an update of that row. Otherwise an insert under the user's id. Either write carries the ten settings fields |
| SettingsPage.DataOfKeepsFields | src/pages/Settings.tsx:98-109 | the written data holds every field except the two ids |
| SettingsPage.DataOf | src/pages/Settings.tsx:98-109 | the ten written fields; `DataOfKeepsFields` states that only the two ids are left out |
| SettingsPage.DefaultsAreInserted | src/pages/Settings.tsx:22-33 | settings fresh from the defaults are inserted |
| SettingsPage.Load | src/pages/Settings.tsx:53-88 | a fetched row replaces the settings; no row keeps them; a failed fetch sets the load message; the success message is never touched |
| SettingsPage.AfterSave | src/pages/Settings.tsx:90-136 | without a user nothing changes. A rejected write clears the success message and sets the failure message. An accepted write sets the success message and is followed by the refetch, whose row replaces the settings or whose failure sets the load message |
| SettingsPage.InsertThenUpdate | src/pages/Settings.tsx:113-129 | the first save inserts; after the refetch brings back the row's id, the next save updates that row |
| SettingsPage.SavedButNotReloaded | src/pages/Settings.tsx:124-129 | a write that succeeds and a refetch that fails leave both messages set: saved, and failed to load |

## Left out

- Data-store calls are not modelled: the hosted Postgres queries, inserts, updates, deletes and the two `increment_*` procedures. Their results are parameters: a `Result`/`Option` row or rows, a `bool`, or a `CallOutcome`. The back end's status updates have their errors ignored; whether the store applied them is a `bool`. What the procedures do inside the store is not modelled.
- Queue internals are not modelled: delay timers, the de-duplication of equal job ids, and the execution of retries and backoff. The model keeps the options each job carries and the state it is listed under. The backoff formula lives in the queue library, which is not part of this model.
- The mail transport and the back end's template renderer (`backend/src/utils/template`) are not part of this model. The transport is a "send throws" flag, and the renderer is a function parameter of the worker.
- Randomness comes from outside the model. `Math.random` in `replaceVariables` is a draw parameter, one value in [0, 1) per block. The ids the import dialogs generate from the clock and `Math.random` are a `newId` parameter indexed by line.
- `TemplateParser.ValidateRandomSyntax`: its `catch` branch ("Invalid random syntax") is not modelled, because no statement inside the `try` can throw on a string.
- `src/utils/randomSyntaxParser` is imported by the template module but never used. It is not part of this model.
- `CampaignService.DelayStep`, `DelayWithinWindow` and the other delay members use exact reals where `campaign.service.ts` lines 27-35 compute in double precision. Rounding of `delayMinutes` and of the delays is not modelled.
- Times of day are minutes since midnight. The `Date` parsing of `HH:MM` strings is not modelled.
- The call to `emailQueue.add` is fire-and-forget. Jobs are modelled as added in lead order, as they are issued, and parallel workers are not modelled.
- Text.ParseInt skips leading white space, reads an optional sign, then reads the longest run of decimal digits. JavaScript's `0x` prefixes and the loss of precision beyond 2^53 are not modelled.
- Text.DigitValue is total: it is 0 on a non-digit, which no caller asks for.
- TemplateParser.Lookup: the string form of an inherited `Object.prototype` member is the one V8 prints for a native function (`function name() { [native code] }`, and `[object Object]` for `__proto__`); other engines' forms are not modelled.
- TemplateParser.TwoOptionRender asks for options without `{`: an option holding a placeholder is substituted first, which the lemma does not cover.
- Strings are sequences of characters. Surrogate pairs and the rest of UTF-16 are not modelled.
- User-interface concerns are not modelled:
  - JSX rendering, loading flags, console logging, and the Blob and anchor download;
  - the asynchronous `FileReader` (its result is a parameter);
  - the timer that clears the settings success message.
- LeadsPage.Load and CampaignsPage.Load take the store's rows already in the page's shape. The snake_case mapping is modelled only for email accounts, where it renames fields.
- The `|| []` fallbacks in the campaign form are not modelled, because the draft datatype always holds its lists.
- Analytics, `useSettings` (fetch or insert the defaults), the back end's HTTP entry point and the client configuration modules are not part of this model.
- LeadsPage.ExportRoundTrip and EmailAccountsPage.ExportRoundTrip hold under these field restrictions:
  - fields are non-empty, trimmed, and free of commas and line breaks;
  - emails contain `@`;
  - ports are in 1..65535 and limits are at least 1;
  - no account is named `Account Name`.
  Outside these restrictions the export is not read back; the lemmas say nothing there.
