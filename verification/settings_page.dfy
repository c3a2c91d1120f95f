/**
 * The settings page of src/pages/Settings.tsx: the user's settings record,
 * the flag toggle, the daily-limit input and the choice `handleSaveAll` makes
 * between updating and inserting the row.
 */
module SettingsPage {
  import opened Wrappers
  import opened Text

  /** `UserSettings`; `id` is absent until the row exists in the store. */
  datatype Settings = Settings(
    id: Option<string>,
    userId: string,
    emailNotifications: bool,
    dailyReports: bool,
    weeklyReports: bool,
    securityAlerts: bool,
    maxDailyEmails: int,
    smtpHost: Option<string>,
    smtpPort: Option<int>,
    smtpUser: Option<string>,
    smtpPass: Option<string>,
    smtpFrom: Option<string>)

  /** `keyof UserSettings` */
  datatype Key =
    | Id | UserId | EmailNotifications | DailyReports | WeeklyReports | SecurityAlerts
    | MaxDailyEmails | SmtpHost | SmtpPort | SmtpUser | SmtpPass | SmtpFrom

  /** A field's value as `settings[key]` reads it, with its run-time type. */
  datatype Value = Bool(b: bool) | Number(n: int) | Text(s: string) | Null | Undefined

  function OfText(o: Option<string>): Value { if o.Some? then Text(o.value) else Null }

  function Get(s: Settings, k: Key): Value
  {
    match k
    case Id => if s.id.Some? then Text(s.id.value) else Undefined
    case UserId => Text(s.userId)
    case EmailNotifications => Bool(s.emailNotifications)
    case DailyReports => Bool(s.dailyReports)
    case WeeklyReports => Bool(s.weeklyReports)
    case SecurityAlerts => Bool(s.securityAlerts)
    case MaxDailyEmails => Number(s.maxDailyEmails)
    case SmtpHost => OfText(s.smtpHost)
    case SmtpPort => if s.smtpPort.Some? then Number(s.smtpPort.value) else Null
    case SmtpUser => OfText(s.smtpUser)
    case SmtpPass => OfText(s.smtpPass)
    case SmtpFrom => OfText(s.smtpFrom)
  }

  /** The four notification flags. */
  predicate IsFlag(k: Key)
  {
    k == EmailNotifications || k == DailyReports || k == WeeklyReports || k == SecurityAlerts
  }

  /** `typeof settings[key] === 'boolean'` holds exactly for the four flags, whatever the settings. */
  lemma BooleanExactlyForFlags(s: Settings, k: Key)
    ensures Get(s, k).Bool? <==> IsFlag(k)
  {
  }

  /** `handleToggle`: a boolean field is negated; a key of any other type is ignored. */
  function Toggle(s: Settings, k: Key): (r: Settings)
    ensures forall k2 :: Get(r, k2) == if k2 == k && Get(s, k).Bool? then Bool(!Get(s, k).b) else Get(s, k2)
  {
    match k
    case EmailNotifications => s.(emailNotifications := !s.emailNotifications)
    case DailyReports => s.(dailyReports := !s.dailyReports)
    case WeeklyReports => s.(weeklyReports := !s.weeklyReports)
    case SecurityAlerts => s.(securityAlerts := !s.securityAlerts)
    case _ => s
  }

  /** Toggling the same key twice restores the settings. */
  lemma ToggleTwice(s: Settings, k: Key)
    ensures Toggle(Toggle(s, k), k) == s
  {
  }

  /** `parseInt(value) || 0`: the decimal prefix, or 0 when there is none. */
  function ParsedOrZero(value: string): int
  {
    match ParseInt(value)
    case None => 0
    case Some(n) => n
  }

  /** `Math.max(0, parseInt(value) || 0)`: never negative. */
  function ClampedLimit(value: string): (r: int)
    ensures r >= 0
    ensures ParseInt(value).None? ==> r == 0
    ensures ParseInt(value).Some? ==> r == if ParseInt(value).value < 0 then 0 else ParseInt(value).value
  {
    var n := ParsedOrZero(value);
    if n < 0 then 0 else n
  }

  /** `handleMaxDailyEmailsChange`: only the daily limit changes. */
  function SetMaxDailyEmails(s: Settings, value: string): (r: Settings)
    ensures r.maxDailyEmails >= 0
    ensures r.(maxDailyEmails := s.maxDailyEmails) == s
  {
    s.(maxDailyEmails := ClampedLimit(value))
  }

  /** A limit typed as its decimal digits is taken as is. */
  lemma ClampedLimitOfDigits(n: nat)
    ensures ClampedLimit(NatToString(n)) == n
  {
    ParseIntToString(n);
  }

  /** A negative number typed in is taken as 0. */
  lemma ClampedLimitOfNegative(n: nat)
    ensures ClampedLimit(IntToString(-(n as int))) == 0
  {
    ParseIntToString(-(n as int));
  }

  /** `defaultSettings`, with the user's id (empty without a user). */
  function Defaults(userId: string): (s: Settings)
    ensures s.id.None? && s.userId == userId && s.maxDailyEmails == 1000
    ensures forall k :: IsFlag(k) ==> Get(s, k) == Bool(false)
    ensures forall k :: k in {SmtpHost, SmtpPort, SmtpUser, SmtpPass, SmtpFrom} ==> Get(s, k) == Null
  {
    Settings(None, userId, false, false, false, false, 1000, None, None, None, None, None)
  }

  // ---------------------------------------------------------------- saving

  /** The ten fields `handleSaveAll` writes. */
  datatype SettingsData = SettingsData(
    emailNotifications: bool,
    dailyReports: bool,
    weeklyReports: bool,
    securityAlerts: bool,
    maxDailyEmails: int,
    smtpHost: Option<string>,
    smtpPort: Option<int>,
    smtpUser: Option<string>,
    smtpPass: Option<string>,
    smtpFrom: Option<string>)

  /** What `handleSaveAll` asks of the store. */
  datatype SaveAction =
    | NoSave
    | Update(id: string, data: SettingsData)
    | Insert(data: SettingsData, userId: string)

  function DataOf(s: Settings): SettingsData
  {
    SettingsData(s.emailNotifications, s.dailyReports, s.weeklyReports, s.securityAlerts, s.maxDailyEmails,
                 s.smtpHost, s.smtpPort, s.smtpUser, s.smtpPass, s.smtpFrom)
  }

  /**
   * `handleSaveAll`: nothing without a signed-in user id; the row is updated
   * when the settings have an id (a non-empty one), otherwise inserted under
   * the user's id.
   */
  function SaveActionFor(s: Settings, user: Option<string>): (a: SaveAction)
    ensures (user.None? || user.value == "") <==> a.NoSave?
    ensures a.Update? <==> a != NoSave && s.id.Some? && s.id.value != ""
    ensures a.Update? ==> a.id == s.id.value && a.data == DataOf(s)
    ensures a.Insert? ==> a.userId == user.value && a.data == DataOf(s)
  {
    if user.None? || user.value == "" then NoSave
    else if s.id.Some? && s.id.value != "" then Update(s.id.value, DataOf(s))
    else Insert(DataOf(s), user.value)
  }

  /** The data written holds every field of the settings but the ids. */
  lemma DataOfKeepsFields(s: Settings, t: Settings)
    requires DataOf(s) == DataOf(t) && s.id == t.id && s.userId == t.userId
    ensures s == t
  {
  }

  /** Settings fresh from the defaults are inserted under the user's id. */
  lemma DefaultsAreInserted(user: string)
    requires user != ""
    ensures SaveActionFor(Defaults(user), Some(user)) == Insert(DataOf(Defaults(user)), user)
  {
  }

  datatype Page = Page(settings: Settings, error: string, success: string)

  /**
   * The answer to `fetchSettings`' query: the user's row, no row (the
   * `PGRST116` error of `.single()`), or any other error.
   */
  datatype SettingsFetch = Row(row: Settings) | NoRow | FetchFailed

  const LoadFailed: string := "Failed to load settings"
  const SaveFailed: string := "Failed to save settings"
  const Saved: string := "Settings saved successfully"

  /**
   * `fetchSettings`: the row, when there is one, replaces the settings; no
   * row leaves them as they are; another error leaves them too and sets the
   * load message. The success message is never touched.
   */
  function Load(p: Page, fetched: SettingsFetch): (r: Page)
    ensures r.success == p.success
    ensures r.settings == if fetched.Row? then fetched.row else p.settings
    ensures r.error == if fetched.FetchFailed? then LoadFailed else p.error
  {
    match fetched
    case Row(row) => p.(settings := row)
    case NoRow => p
    case FetchFailed => p.(error := LoadFailed)
  }

  /**
   * `handleSaveAll`, given whether the store accepted the write and what the
   * refetch that follows a successful write returns: without a user nothing
   * happens; otherwise both messages are cleared, then a rejected write sets
   * the failure message and keeps the settings, and an accepted one sets the
   * success message and reloads the settings from the store.
   */
  function AfterSave(p: Page, user: Option<string>, stored: bool, refetch: SettingsFetch): (r: Page)
    ensures SaveActionFor(p.settings, user).NoSave? ==> r == p
    ensures !SaveActionFor(p.settings, user).NoSave? && !stored
            ==> r == p.(error := SaveFailed, success := "")
    ensures !SaveActionFor(p.settings, user).NoSave? && stored
            ==> r.success == Saved
                && r.settings == (if refetch.Row? then refetch.row else p.settings)
                && r.error == (if refetch.FetchFailed? then LoadFailed else "")
  {
    if user.None? || user.value == "" then p
    else if stored then Load(p.(error := "", success := Saved), refetch)
    else p.(error := SaveFailed, success := "")
  }

  /**
   * The first save of fresh settings inserts them; once the refetch brings
   * back the stored row with its id, the next save updates that row.
   */
  lemma InsertThenUpdate(p: Page, user: string, row: Settings)
    requires user != "" && p.settings.id.None?
    requires row.id.Some? && row.id.value != ""
    ensures SaveActionFor(p.settings, Some(user)) == Insert(DataOf(p.settings), user)
    ensures var q := AfterSave(p, Some(user), true, Row(row));
            SaveActionFor(q.settings, Some(user)) == Update(row.id.value, DataOf(row))
  {
  }

  /** A save that succeeds but whose refetch fails shows both messages and keeps the settings. */
  lemma SavedButNotReloaded(p: Page, user: string)
    requires user != ""
    ensures AfterSave(p, Some(user), true, FetchFailed)
            == Page(p.settings, LoadFailed, Saved)
  {
  }
}
