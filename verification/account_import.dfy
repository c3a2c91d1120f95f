/**
 * The email-account import dialog of src/components/EmailAccountImportModal.tsx:
 * its CSV reader (six fields per line) and the state its buttons change.
 */
module AccountImport {
  import opened Wrappers
  import opened Text
  import opened Types
  import opened Csv

  /** A line starting with this is taken for the header row and skipped. */
  const Header: string := "Account Name,"

  const FieldsRequired: string := "All fields are required"
  const InvalidPort: string := "Invalid SMTP port"
  const InvalidLimit: string := "Invalid daily limit"

  predicate ValidPort(p: Option<int>) { p.Some? && 1 <= p.value <= 65535 }

  predicate ValidLimit(l: Option<int>) { l.Some? && l.value >= 1 }

  /** The six fields of a line are all present and non-empty. */
  predicate Complete(f: seq<string>)
  {
    forall k :: 0 <= k < 6 ==> Field(f, k) != ""
  }

  /**
   * One data line: the required fields first, then the port, then the daily
   * limit. An account it gives has the id it was handed, a port in 1..65535,
   * a positive daily limit, TLS on and nothing sent today; an error is one
   * of the three messages.
   */
  function ParseLine(line: string, id: string): (r: Result<EmailAccount, string>)
    ensures r.Ok? ==> && r.value.id == id && 1 <= r.value.smtpPort <= 65535 && r.value.dailyLimit >= 1
                      && r.value.useTLS && r.value.sentToday == 0
    ensures r.Err? ==> r.error in {FieldsRequired, InvalidPort, InvalidLimit}
  {
    var f := Fields(line);
    var name, email, password, smtpHost, smtpPort, dailyLimit :=
      Field(f, 0), Field(f, 1), Field(f, 2), Field(f, 3), Field(f, 4), Field(f, 5);
    if name == "" || email == "" || password == "" || smtpHost == "" || smtpPort == "" || dailyLimit == "" then
      Err(FieldsRequired)
    else
      var port := ParseInt(smtpPort);
      var limit := ParseInt(dailyLimit);
      if port.None? || port.value < 1 || port.value > 65535 then Err(InvalidPort)
      else if limit.None? || limit.value < 1 then Err(InvalidLimit)
      else Ok(EmailAccount(id, name, email, password, smtpHost, port.value, true, limit.value, 0))
  }

  /** `Complete` is the six-way check the reader writes out. */
  lemma CompleteFields(f: seq<string>)
    ensures Complete(f) <==> Field(f, 0) != "" && Field(f, 1) != "" && Field(f, 2) != ""
                             && Field(f, 3) != "" && Field(f, 4) != "" && Field(f, 5) != ""
  {
    if !Complete(f) {
      var k :| 0 <= k < 6 && Field(f, k) == "";
      assert k == 0 || k == 1 || k == 2 || k == 3 || k == 4 || k == 5;
    }
  }

  /**
   * The error rules of a line, in the order they are checked, and the
   * account a good line gives: TLS on, nothing sent today, extra columns
   * ignored.
   */
  lemma ParseLineRules(line: string, id: string)
    ensures var f := Fields(line);
            var port := ParseInt(Field(f, 4));
            var limit := ParseInt(Field(f, 5));
            var r := ParseLine(line, id);
            && (r == Err(FieldsRequired) <==> !Complete(f))
            && (r == Err(InvalidPort) <==> Complete(f) && !ValidPort(port))
            && (r == Err(InvalidLimit) <==> Complete(f) && ValidPort(port) && !ValidLimit(limit))
            && (r.Ok? <==> Complete(f) && ValidPort(port) && ValidLimit(limit))
            && (r.Ok? ==> r.value == EmailAccount(id, Field(f, 0), Field(f, 1), Field(f, 2), Field(f, 3),
                                                  port.value, true, limit.value, 0))
  {
    var f := Fields(line);
    CompleteFields(f);
    var port := ParseInt(Field(f, 4));
    var limit := ParseInt(Field(f, 5));
    assert FieldsRequired != InvalidPort && FieldsRequired != InvalidLimit && InvalidPort != InvalidLimit;
    if !Complete(f) {
      assert ParseLine(line, id) == Err(FieldsRequired);
    } else if !ValidPort(port) {
      assert ParseLine(line, id) == Err(InvalidPort);
    } else if !ValidLimit(limit) {
      assert ParseLine(line, id) == Err(InvalidLimit);
    } else {
      assert ParseLine(line, id) == Ok(EmailAccount(id, Field(f, 0), Field(f, 1), Field(f, 2), Field(f, 3),
                                                    port.value, true, limit.value, 0));
    }
  }

  /**
   * `parseCSV(content)`: it succeeds exactly when every data line does, and
   * then gives one account per data line, in order, the i-th under the i-th
   * new id.
   */
  function ParseCsv(content: string, newId: nat -> string): (r: Result<seq<EmailAccount>, string>)
    ensures var lines := DataLines(content, Header);
            && (r.Ok? <==> forall i :: 0 <= i < |lines| ==> ParseLine(lines[i], newId(i)).Ok?)
            && (r.Ok? ==> |r.value| == |lines|
                          && forall i :: 0 <= i < |lines| ==> r.value[i] == ParseLine(lines[i], newId(i)).value)
  {
    ParseAllOkFromStart(DataLines(content, Header), ParseLine, newId);
    ParseAll(DataLines(content, Header), ParseLine, newId, 0)
  }

  /** An account read from a line has TLS on and nothing sent today. */
  lemma ParsedAccountDefaults(line: string, id: string, a: EmailAccount)
    requires ParsesTo(ParseLine, line, id, a)
    ensures a.useTLS && a.sentToday == 0
  {
    ParseLineRules(line, id);
  }

  /** Every imported account has TLS on and nothing sent today. */
  lemma ImportedDefaults(content: string, newId: nat -> string)
    ensures ParseCsv(content, newId).Ok? ==>
              forall a :: a in ParseCsv(content, newId).value ==> a.useTLS && a.sentToday == 0
  {
    var lines := DataLines(content, Header);
    forall a | ParseCsv(content, newId).Ok? && a in ParseCsv(content, newId).value
      ensures a.useTLS && a.sentToday == 0
    {
      ParsedFromSomeLine(lines, ParseLine, newId, a);
      var i :| 0 <= i < |lines| && ParsesTo(ParseLine, lines[i], newId(i), a);
      ParsedAccountDefaults(lines[i], newId(i), a);
    }
  }

  /** The dialog's state and what it has handed to the page. */
  class ImportModal {
    var csvContent: string
    var error: string
    /** The accounts passed to `onImport`, if it was called. */
    var imported: Option<seq<EmailAccount>>
    /** Whether `onClose` was called. */
    var closed: bool

    constructor()
      ensures csvContent == "" && error == "" && imported == None && !closed
    {
      csvContent, error, imported, closed := "", "", None, false;
    }

    /** `handleImport`: all accounts or none; on failure the message is shown and the dialog stays open. */
    method HandleImport(newId: nat -> string)
      modifies this
      ensures var r := ParseCsv(old(csvContent), newId);
              && (r.Ok? ==> imported == Some(r.value) && closed && error == old(error))
              && (r.Err? ==> error == r.error && imported == old(imported) && closed == old(closed))
      ensures csvContent == old(csvContent)
    {
      var r := ParseCsv(csvContent, newId);
      if r.Ok? {
        imported, closed := Some(r.value), true;
      } else {
        error := r.error;
      }
    }

    /**
     * `handleFileUpload`: no file, nothing; a file that is not CSV, an error;
     * otherwise the text read (None when reading fails) replaces the content
     * and clears the error.
     */
    method HandleFileUpload(file: Option<File>, read: Option<string>)
      modifies this
      ensures file.None? ==> csvContent == old(csvContent) && error == old(error)
      ensures file.Some? && !IsCsvFile(file.value) ==> csvContent == old(csvContent) && error == NotCsv
      ensures file.Some? && IsCsvFile(file.value) && read.Some? ==> csvContent == read.value && error == ""
      ensures file.Some? && IsCsvFile(file.value) && read.None? ==> csvContent == old(csvContent) && error == ReadFailed
      ensures imported == old(imported) && closed == old(closed)
    {
      if file.None? {
        return;
      }
      var f := file.value;
      if f.mimeType != "text/csv" && !(|f.name| >= 4 && f.name[|f.name| - 4..] == ".csv") {
        error := NotCsv;
        return;
      }
      if read.Some? {
        csvContent := read.value;
        error := "";
      } else {
        error := ReadFailed;
      }
    }
  }
}
