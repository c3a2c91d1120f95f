/**
 * The lead import dialog of src/components/LeadImportModal.tsx: its CSV
 * reader (three fields per line) and the state its buttons change.
 */
module LeadImport {
  import opened Wrappers
  import opened Text
  import opened Types
  import opened Csv

  /** A line starting with this is taken for the header row and skipped. */
  const Header: string := "Name,"

  const FieldsRequired: string := "All fields are required"
  const InvalidEmail: string := "Invalid email format"

  /** The three fields of a line are all present and non-empty. */
  predicate Complete(f: seq<string>)
  {
    Field(f, 0) != "" && Field(f, 1) != "" && Field(f, 2) != ""
  }

  /**
   * One data line: the required fields first, then the `@` in the address.
   * A lead it gives has the id it was handed, a name, a company and an `@`
   * in its address; an error is one of the two messages.
   */
  function ParseLine(line: string, id: string): (r: Result<Lead, string>)
    ensures r.Ok? ==> r.value.id == id && r.value.name != "" && r.value.company != "" && '@' in r.value.email
    ensures r.Err? ==> r.error in {FieldsRequired, InvalidEmail}
  {
    var f := Fields(line);
    var name, email, company := Field(f, 0), Field(f, 1), Field(f, 2);
    if name == "" || email == "" || company == "" then Err(FieldsRequired)
    else if '@' !in email then Err(InvalidEmail)
    else Ok(Lead(id, name, email, company))
  }

  /**
   * The error rules of a line, in the order they are checked, and the lead a
   * good line gives; extra columns are ignored.
   */
  lemma ParseLineRules(line: string, id: string)
    ensures var f := Fields(line);
            var r := ParseLine(line, id);
            && (r == Err(FieldsRequired) <==> !Complete(f))
            && (r == Err(InvalidEmail) <==> Complete(f) && '@' !in Field(f, 1))
            && (r.Ok? <==> Complete(f) && '@' in Field(f, 1))
            && (r.Ok? ==> r.value == Lead(id, Field(f, 0), Field(f, 1), Field(f, 2)))
  {
    var f := Fields(line);
    assert FieldsRequired != InvalidEmail;
    if !Complete(f) {
      assert ParseLine(line, id) == Err(FieldsRequired);
    } else if '@' !in Field(f, 1) {
      assert ParseLine(line, id) == Err(InvalidEmail);
    } else {
      assert ParseLine(line, id) == Ok(Lead(id, Field(f, 0), Field(f, 1), Field(f, 2)));
    }
  }

  /**
   * `parseCSV(content)`: it succeeds exactly when every data line does, and
   * then gives one lead per data line, in order, the i-th under the i-th new
   * id.
   */
  function ParseCsv(content: string, newId: nat -> string): (r: Result<seq<Lead>, string>)
    ensures var lines := DataLines(content, Header);
            && (r.Ok? <==> forall i :: 0 <= i < |lines| ==> ParseLine(lines[i], newId(i)).Ok?)
            && (r.Ok? ==> |r.value| == |lines|
                          && forall i :: 0 <= i < |lines| ==> r.value[i] == ParseLine(lines[i], newId(i)).value)
  {
    ParseAllOkFromStart(DataLines(content, Header), ParseLine, newId);
    ParseAll(DataLines(content, Header), ParseLine, newId, 0)
  }

  /** A lead read from a line has a name, a company and an address with an `@`. */
  lemma ParsedLeadValid(line: string, id: string, l: Lead)
    requires ParsesTo(ParseLine, line, id, l)
    ensures l.name != "" && l.company != "" && '@' in l.email
  {
    ParseLineRules(line, id);
  }

  /** Every imported lead has a name, a company and an address with an `@`. */
  lemma ImportedLeadsValid(content: string, newId: nat -> string)
    ensures ParseCsv(content, newId).Ok? ==>
              forall l :: l in ParseCsv(content, newId).value ==> l.name != "" && l.company != "" && '@' in l.email
  {
    var lines := DataLines(content, Header);
    forall l | ParseCsv(content, newId).Ok? && l in ParseCsv(content, newId).value
      ensures l.name != "" && l.company != "" && '@' in l.email
    {
      ParsedFromSomeLine(lines, ParseLine, newId, l);
      var i :| 0 <= i < |lines| && ParsesTo(ParseLine, lines[i], newId(i), l);
      ParsedLeadValid(lines[i], newId(i), l);
    }
  }

  /** The dialog's state and what it has handed to the page. */
  class ImportModal {
    var csvContent: string
    var error: string
    /** The leads passed to `onImport`, if it was called. */
    var imported: Option<seq<Lead>>
    /** Whether `onClose` was called. */
    var closed: bool

    constructor()
      ensures csvContent == "" && error == "" && imported == None && !closed
    {
      csvContent, error, imported, closed := "", "", None, false;
    }

    /** `handleImport`: all leads or none; on failure the message is shown and the dialog stays open. */
    method HandleImport(newId: nat -> string)
      modifies this
      ensures var r := ParseCsv(old(csvContent), newId);
              && (r.Ok? ==> imported == Some(r.value) && closed && error == old(error))
              && (r.Err? ==> error == r.error && imported == old(imported) && closed == old(closed))
      ensures csvContent == old(csvContent)
    {
      var r := ParseCsv(csvContent, newId);
      if r.Ok? {
        imported, closed := Some(r.value), true;
      } else {
        error := r.error;
      }
    }

    /**
     * `handleFileUpload`: no file, nothing; a file that is not CSV, an error;
     * otherwise the text read (None when reading fails) replaces the content
     * and clears the error.
     */
    method HandleFileUpload(file: Option<File>, read: Option<string>)
      modifies this
      ensures file.None? ==> csvContent == old(csvContent) && error == old(error)
      ensures file.Some? && !IsCsvFile(file.value) ==> csvContent == old(csvContent) && error == NotCsv
      ensures file.Some? && IsCsvFile(file.value) && read.Some? ==> csvContent == read.value && error == ""
      ensures file.Some? && IsCsvFile(file.value) && read.None? ==> csvContent == old(csvContent) && error == ReadFailed
      ensures imported == old(imported) && closed == old(closed)
    {
      if file.None? {
        return;
      }
      var f := file.value;
      if f.mimeType != "text/csv" && !(|f.name| >= 4 && f.name[|f.name| - 4..] == ".csv") {
        error := NotCsv;
        return;
      }
      if read.Some? {
        csvContent := read.value;
        error := "";
      } else {
        error := ReadFailed;
      }
    }
  }
}
