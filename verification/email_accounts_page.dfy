/**
 * The email-accounts page of src/pages/EmailAccounts.tsx: the list it shows,
 * the add form, the updates its handlers make once the data store has
 * answered, and the CSV it writes for export and as a template.
 */
module EmailAccountsPage {
  import opened Wrappers
  import opened Text
  import opened Types
  import opened Lists
  import opened Csv
  import AccountImport

  // ---------------------------------------------------------------- state

  /** The add-account form. */
  datatype AccountForm = AccountForm(
    name: string,
    email: string,
    password: string,
    smtpHost: string,
    smtpPort: int,
    useTLS: bool,
    dailyLimit: int)

  const DefaultForm: AccountForm := AccountForm("", "", "", "", 587, true, 100)

  datatype Page = Page(accounts: seq<EmailAccount>, form: AccountForm, showForm: bool, error: string)

  const LoadFailed: string := "Failed to load email accounts"
  const AddFailed: string := "Failed to add email account"
  const DeleteFailed: string := "Failed to delete email account"
  const ImportFailed: string := "Failed to import email accounts"

  /** The camelCase record the page keeps for a row of the data store. */
  function FromRow(r: AccountRow): EmailAccount
  {
    EmailAccount(r.id, r.name, r.email, r.password, r.smtp_host, r.smtp_port, r.use_tls, r.daily_limit, r.sent_today)
  }

  /** The row the data store holds after inserting `a` under the id it assigned: nothing sent yet. */
  function InsertedRow(a: EmailAccount, id: string): AccountRow
  {
    AccountRow(id, a.name, a.email, a.password, a.smtpHost, a.smtpPort, a.useTLS, a.dailyLimit, 0)
  }

  /** Reading back an inserted row gives the account under its new id, with nothing sent today. */
  lemma FromInsertedRow(a: EmailAccount, id: string)
    ensures FromRow(InsertedRow(a, id)) == a.(id := id, sentToday := 0)
  {
  }

  /** `fetchAccounts`: the rows, newest first as the store orders them, or an error and an unchanged list. */
  function Load(p: Page, rows: Result<seq<AccountRow>, string>): (r: Page)
    ensures rows.Ok? ==> |r.accounts| == |rows.value|
                         && (forall i :: 0 <= i < |rows.value| ==> r.accounts[i] == FromRow(rows.value[i]))
                         && r.error == p.error
    ensures rows.Err? ==> r == p.(error := LoadFailed)
  {
    if rows.Ok? then p.(accounts := seq(|rows.value|, i requires 0 <= i < |rows.value| => FromRow(rows.value[i])))
    else p.(error := LoadFailed)
  }

  /**
   * `handleSubmit`, given the id the store assigned (None when the insert
   * failed): the new account goes first with nothing sent today, and the
   * form is reset and hidden.
   */
  function Submit(p: Page, inserted: Option<string>): (r: Page)
    ensures inserted.Some? ==>
              && r.accounts == [EmailAccount(inserted.value, p.form.name, p.form.email, p.form.password,
                                             p.form.smtpHost, p.form.smtpPort, p.form.useTLS,
                                             p.form.dailyLimit, 0)] + p.accounts
              && r.form == DefaultForm && !r.showForm && r.error == p.error
    ensures inserted.None? ==> r == p.(error := AddFailed)
  {
    match inserted
    case None => p.(error := AddFailed)
    case Some(id) =>
      var f := p.form;
      var a := EmailAccount(id, f.name, f.email, f.password, f.smtpHost, f.smtpPort, f.useTLS, f.dailyLimit, 0);
      p.(accounts := [a] + p.accounts, form := DefaultForm, showForm := false)
  }

  /** `handleDelete`: when the store deleted the row, every account with that id leaves the list. */
  function Delete(p: Page, id: string, deleted: bool): (r: Page)
    ensures deleted ==> (forall a :: a in r.accounts <==> a in p.accounts && a.id != id)
                        && |r.accounts| + CountKey(p.accounts, AccountId, id) == |p.accounts|
                        && r.error == p.error
    ensures !deleted ==> r == p.(error := DeleteFailed)
  {
    if deleted then
      RemoveKeyLength(p.accounts, AccountId, id);
      p.(accounts := RemoveKey(p.accounts, AccountId, id))
    else p.(error := DeleteFailed)
  }

  /** The survivors of a delete keep their order: deleting from a list is deleting from each part. */
  lemma DeleteKeepsOrder(p: Page, id: string, front: seq<EmailAccount>, back: seq<EmailAccount>)
    requires p.accounts == front + back
    ensures Delete(p, id, true).accounts == RemoveKey(front, AccountId, id) + RemoveKey(back, AccountId, id)
  {
    RemoveKeyAppend(front, back, AccountId, id);
  }

  /** `handleImport`, given the rows the store returned for the insert: they go first, in order. */
  function Import(p: Page, rows: Option<seq<AccountRow>>): (r: Page)
    ensures rows.Some? ==> |r.accounts| == |rows.value| + |p.accounts|
                           && r.accounts[|rows.value|..] == p.accounts
                           && (forall i :: 0 <= i < |rows.value| ==> r.accounts[i] == FromRow(rows.value[i]))
                           && r.error == p.error
    ensures rows.None? ==> r == p.(error := ImportFailed)
  {
    match rows
    case None => p.(error := ImportFailed)
    case Some(rs) =>
      var added := seq(|rs|, i requires 0 <= i < |rs| => FromRow(rs[i]));
      p.(accounts := added + p.accounts)
  }

  /** Importing accounts puts them first, under their new ids, with nothing sent today. */
  lemma ImportPrepends(p: Page, imported: seq<EmailAccount>, ids: seq<string>)
    requires |ids| == |imported|
    ensures var rows := seq(|imported|, i requires 0 <= i < |imported| => InsertedRow(imported[i], ids[i]));
            Import(p, Some(rows)).accounts
              == seq(|imported|, i requires 0 <= i < |imported| => imported[i].(id := ids[i], sentToday := 0))
                 + p.accounts
  {
    var rows := seq(|imported|, i requires 0 <= i < |imported| => InsertedRow(imported[i], ids[i]));
    var r := Import(p, Some(rows)).accounts;
    var want := seq(|imported|, i requires 0 <= i < |imported| => imported[i].(id := ids[i], sentToday := 0))
                + p.accounts;
    forall i | 0 <= i < |r|
      ensures r[i] == want[i]
    {
      if i < |imported| {
        FromInsertedRow(imported[i], ids[i]);
      } else {
        assert r[i] == r[|rows|..][i - |rows|];
      }
    }
  }

  // ---------------------------------------------------------------- export

  /** One exported line: six comma-separated fields, TLS and the sent count left out. */
  function AccountLine(a: EmailAccount): string
  {
    Join(AccountFields(a), ",")
  }

  function AccountFields(a: EmailAccount): seq<string>
  {
    [a.name, a.email, a.password, a.smtpHost, IntToString(a.smtpPort), IntToString(a.dailyLimit)]
  }

  function AccountLines(accounts: seq<EmailAccount>): (r: seq<string>)
    ensures |r| == |accounts| && forall i :: 0 <= i < |r| ==> r[i] == AccountLine(accounts[i])
  {
    seq(|accounts|, i requires 0 <= i < |accounts| => AccountLine(accounts[i]))
  }

  /** `handleExport`: the lines joined by line breaks, with no header and no final line break. */
  function Export(accounts: seq<EmailAccount>): string
  {
    Join(AccountLines(accounts), "\n")
  }

  /** An account whose line the import dialog reads back field for field. */
  predicate Exportable(a: EmailAccount)
  {
    && Plain(a.name) && Plain(a.email) && Plain(a.password) && Plain(a.smtpHost)
    && 1 <= a.smtpPort <= 65535 && a.dailyLimit >= 1
    && a.name != "Account Name"
  }

  /** What the import dialog makes of exported accounts: fresh ids, TLS on, nothing sent today. */
  function Reimported(accounts: seq<EmailAccount>, newId: nat -> string): (r: seq<EmailAccount>)
    ensures |r| == |accounts|
  {
    seq(|accounts|, i requires 0 <= i < |accounts| => accounts[i].(id := newId(i), useTLS := true, sentToday := 0))
  }

  /** The fields of an exportable account are plain, so its line splits back into them. */
  lemma AccountLineFields(a: EmailAccount)
    requires Exportable(a)
    ensures Fields(AccountLine(a)) == AccountFields(a)
    ensures forall k :: 0 <= k < 6 ==> Plain(AccountFields(a)[k])
  {
    IntToStringPlain(a.smtpPort);
    IntToStringPlain(a.dailyLimit);
    FieldsOfJoin(AccountFields(a));
  }

  /** The line of an exportable account parses back to that account. */
  lemma AccountLineParses(a: EmailAccount, id: string)
    requires Exportable(a)
    ensures AccountImport.ParseLine(AccountLine(a), id) == Ok(a.(id := id, useTLS := true, sentToday := 0))
  {
    AccountLineFields(a);
    var f := Fields(AccountLine(a));
    ParseIntToString(a.smtpPort);
    ParseIntToString(a.dailyLimit);
    assert Field(f, 4) == IntToString(a.smtpPort) && Field(f, 5) == IntToString(a.dailyLimit);
    assert AccountImport.Complete(f) by {
      assert forall k :: 0 <= k < 6 ==> Field(f, k) == f[k] && Plain(f[k]);
    }
    AccountImport.ParseLineRules(AccountLine(a), id);
  }

  /** The line of an exportable account is a data line: not blank, one line, not a header. */
  lemma AccountLineIsData(a: EmailAccount)
    requires Exportable(a)
    ensures var line := AccountLine(a);
            !AllSpace(line) && '\n' !in line && !(AccountImport.Header <= line)
  {
    var parts := AccountFields(a);
    IntToStringPlain(a.smtpPort);
    IntToStringPlain(a.dailyLimit);
    LineOfFields(parts);
    assert AccountImport.Header == "Account Name" + ",";
    FieldPrefix("Account Name", a.name, Join(parts[1..], ","));
  }

  /** The i-th line of exportable accounts parses to the i-th account read back. */
  lemma AccountLineParsesAt(accounts: seq<EmailAccount>, newId: nat -> string, i: nat)
    requires i < |accounts| && Exportable(accounts[i])
    ensures ParsesTo(AccountImport.ParseLine, AccountLines(accounts)[i], newId(i), Reimported(accounts, newId)[i])
  {
    AccountLineParses(accounts[i], newId(i));
  }

  /** The lines of exportable accounts parse to those accounts, in order. */
  lemma AccountLinesParse(accounts: seq<EmailAccount>, newId: nat -> string)
    requires forall i :: 0 <= i < |accounts| ==> Exportable(accounts[i])
    ensures ParseAll(AccountLines(accounts), AccountImport.ParseLine, newId, 0) == Ok(Reimported(accounts, newId))
  {
    var lines := AccountLines(accounts);
    var want := Reimported(accounts, newId);
    forall i | 0 <= i < |lines|
      ensures ParsesTo(AccountImport.ParseLine, lines[i], newId(i), want[i])
    {
      AccountLineParsesAt(accounts, newId, i);
    }
    ParseAllFromStart(lines, AccountImport.ParseLine, newId, want);
  }

  /** Every line of exportable accounts is a data line. */
  lemma AccountLinesAreData(accounts: seq<EmailAccount>)
    requires forall i :: 0 <= i < |accounts| ==> Exportable(accounts[i])
    ensures forall k :: 0 <= k < |AccountLines(accounts)| ==>
              var line := AccountLines(accounts)[k];
              !AllSpace(line) && '\n' !in line && !(AccountImport.Header <= line)
  {
    forall k | 0 <= k < |accounts|
      ensures var line := AccountLine(accounts[k]);
              !AllSpace(line) && '\n' !in line && !(AccountImport.Header <= line)
    {
      AccountLineIsData(accounts[k]);
    }
  }

  /**
   * Round trip: the import dialog reads an export back as the same accounts,
   * in order, with fresh ids, TLS on and nothing sent today; an empty list
   * exports the empty text, which reads back as no accounts.
   */
  lemma ExportRoundTrip(accounts: seq<EmailAccount>, newId: nat -> string)
    requires forall i :: 0 <= i < |accounts| ==> Exportable(accounts[i])
    ensures AccountImport.ParseCsv(Export(accounts), newId) == Ok(Reimported(accounts, newId))
  {
    var lines := AccountLines(accounts);
    AccountLinesAreData(accounts);
    if accounts == [] {
      assert Export(accounts) == "";
      assert Split("", '\n') == [""];
      assert DataLines("", AccountImport.Header) == [];
    } else {
      SplitJoin(lines, '\n');
      KeepAll(lines, AccountImport.Header);
    }
    AccountLinesParse(accounts, newId);
  }

  /** An empty list exports the empty text. */
  lemma ExportEmpty(newId: nat -> string)
    ensures Export([]) == "" && AccountImport.ParseCsv(Export([]), newId) == Ok([])
  {
    ExportRoundTrip([], newId);
  }

  // ---------------------------------------------------------------- template

  /** The template's header line, written here field by field. */
  const TemplateHeader: string := Join(["Account Name", "Email Address", "Password", "SMTP Host", "SMTP Port", "Daily Limit"], ",")

  /**
   * `downloadTemplate`: the header line, then the lines of the three sample
   * accounts (`TemplateLine0` to `TemplateLine2` spell each out).
   */
  const TemplateText: string := Join([TemplateHeader] + AccountLines(TemplateAccounts), "\n")

  /** The three accounts the template describes (ids are given on import). */
  const TemplateAccounts: seq<EmailAccount> := [
    EmailAccount("", "Marketing Account", "marketing@company.com", "yourpassword", "smtp.gmail.com", 587, true, 100, 0),
    EmailAccount("", "Support Account", "support@company.com", "yourpassword", "smtp.gmail.com", 587, true, 150, 0),
    EmailAccount("", "Sales Account", "sales@company.com", "yourpassword", "smtp.gmail.com", 587, true, 200, 0)]

  /** A header line before exported lines is skipped: the same accounts are read. */
  lemma HeaderedExportRoundTrip(h: string, accounts: seq<EmailAccount>, newId: nat -> string)
    requires AccountImport.Header <= h && '\n' !in h
    requires forall i :: 0 <= i < |accounts| ==> Exportable(accounts[i])
    ensures AccountImport.ParseCsv(Join([h] + AccountLines(accounts), "\n"), newId) == Ok(Reimported(accounts, newId))
  {
    var lines := AccountLines(accounts);
    AccountLinesAreData(accounts);
    var all := [h] + lines;
    assert forall k :: 0 <= k < |all| ==> '\n' !in all[k];
    SplitJoin(all, '\n');
    assert all[1..] == lines;
    KeepAll(lines, AccountImport.Header);
    assert Keep(all, AccountImport.Header) == lines;
    AccountLinesParse(accounts, newId);
  }

  /** The decimal text of the template's numbers. */
  lemma TemplateNumbers()
    ensures IntToString(587) == "587" && IntToString(100) == "100"
    ensures IntToString(150) == "150" && IntToString(200) == "200"
  {
    assert NatToString(58) == NatToString(5) + [DigitChar(8)];
    assert NatToString(10) == NatToString(1) + [DigitChar(0)];
    assert NatToString(15) == NatToString(1) + [DigitChar(5)];
    assert NatToString(20) == NatToString(2) + [DigitChar(0)];
  }

  /** The first line of the template, field by field. */
  lemma TemplateLine0()
    ensures Join(["Marketing Account", "marketing@company.com", "yourpassword", "smtp.gmail.com", "587", "100"], ",")
         == AccountLine(TemplateAccounts[0])
  {
    TemplateNumbers();
    assert AccountFields(TemplateAccounts[0])
        == ["Marketing Account", "marketing@company.com", "yourpassword", "smtp.gmail.com", "587", "100"];
  }

  /** The second line of the template, field by field. */
  lemma TemplateLine1()
    ensures Join(["Support Account", "support@company.com", "yourpassword", "smtp.gmail.com", "587", "150"], ",")
         == AccountLine(TemplateAccounts[1])
  {
    TemplateNumbers();
    assert AccountFields(TemplateAccounts[1])
        == ["Support Account", "support@company.com", "yourpassword", "smtp.gmail.com", "587", "150"];
  }

  /** The third line of the template, field by field. */
  lemma TemplateLine2()
    ensures Join(["Sales Account", "sales@company.com", "yourpassword", "smtp.gmail.com", "587", "200"], ",")
         == AccountLine(TemplateAccounts[2])
  {
    TemplateNumbers();
    assert AccountFields(TemplateAccounts[2])
        == ["Sales Account", "sales@company.com", "yourpassword", "smtp.gmail.com", "587", "200"];
  }

  lemma TemplateHeaderIsHeader()
    ensures AccountImport.Header <= TemplateHeader && '\n' !in TemplateHeader
  {
    var parts := ["Account Name", "Email Address", "Password", "SMTP Host", "SMTP Port", "Daily Limit"];
    HeaderFieldsPlain();
    LineOfFields(parts);
    assert AccountImport.Header == "Account Name" + ",";
  }

  lemma HeaderFieldsPlain()
    ensures Plain("Account Name") && Plain("Email Address") && Plain("Password")
    ensures Plain("SMTP Host") && Plain("SMTP Port") && Plain("Daily Limit")
  {
    PlainHeaderFieldsA();
    PlainHeaderFieldsB();
  }

  lemma PlainHeaderFieldsA() ensures Plain("Account Name") && Plain("Email Address") && Plain("Password") {}
  lemma PlainHeaderFieldsB() ensures Plain("SMTP Host") && Plain("SMTP Port") && Plain("Daily Limit") {}

  lemma PlainMarketing() ensures Plain("Marketing Account") && Plain("marketing@company.com") {}
  lemma PlainSupport() ensures Plain("Support Account") && Plain("support@company.com") {}
  lemma PlainSales() ensures Plain("Sales Account") && Plain("sales@company.com") {}
  lemma PlainServer() ensures Plain("yourpassword") && Plain("smtp.gmail.com") {}

  lemma TemplateAccountsExportable()
    ensures forall i :: 0 <= i < |TemplateAccounts| ==> Exportable(TemplateAccounts[i])
  {
    PlainMarketing();
    PlainSupport();
    PlainSales();
    PlainServer();
  }

  /** The accounts read from the template are on port 587, with TLS and daily limits 100, 150 and 200. */
  lemma TemplateAccountsRead(newId: nat -> string)
    ensures var r := Reimported(TemplateAccounts, newId);
            && |r| == 3
            && (forall i :: 0 <= i < 3 ==> r[i].smtpPort == 587 && r[i].useTLS && r[i].sentToday == 0)
            && r[0].dailyLimit == 100 && r[1].dailyLimit == 150 && r[2].dailyLimit == 200
  {
  }

  /** The template reads back as the three sample accounts. */
  lemma TemplateParses(newId: nat -> string)
    ensures AccountImport.ParseCsv(TemplateText, newId) == Ok(Reimported(TemplateAccounts, newId))
  {
    TemplateHeaderIsHeader();
    TemplateAccountsExportable();
    HeaderedExportRoundTrip(TemplateHeader, TemplateAccounts, newId);
  }
}
