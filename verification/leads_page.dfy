/**
 * The leads page of src/pages/Leads.tsx: the list it shows, the add form,
 * the updates its handlers make once the data store has answered, and the
 * CSV it writes for export and as a template.
 */
module LeadsPage {
  import opened Wrappers
  import opened Text
  import opened Types
  import opened Lists
  import opened Csv
  import LeadImport

  // ---------------------------------------------------------------- state

  datatype LeadForm = LeadForm(name: string, email: string, company: string)

  const EmptyForm: LeadForm := LeadForm("", "", "")

  datatype Page = Page(leads: seq<Lead>, form: LeadForm, showForm: bool, error: string)

  const LoadFailed: string := "Failed to load leads"
  const AddFailed: string := "Failed to add lead"
  const ImportFailed: string := "Failed to import leads"
  const DeleteFailed: string := "Failed to delete lead"

  /**
   * `fetchLeads`, given the rows the store returned (newest first), each
   * reduced to the four columns the page keeps.
   */
  function Load(p: Page, rows: Result<seq<Lead>, string>): (r: Page)
    ensures rows.Ok? ==> r == p.(leads := rows.value)
    ensures rows.Err? ==> r == p.(error := LoadFailed)
  {
    match rows
    case Ok(ls) => p.(leads := ls)
    case Err(_) => p.(error := LoadFailed)
  }

  /**
   * `handleAddLead`, given the row the store returned for the insert (None
   * when it failed): the lead goes first, and the form is cleared and hidden.
   */
  function Add(p: Page, stored: Option<Lead>): (r: Page)
    ensures stored.Some? ==> r.leads == [stored.value] + p.leads && r.form == EmptyForm && !r.showForm
                             && r.error == p.error
    ensures stored.None? ==> r == p.(error := AddFailed)
  {
    match stored
    case None => p.(error := AddFailed)
    case Some(l) => p.(leads := [l] + p.leads, form := EmptyForm, showForm := false)
  }

  /** The row the store holds after inserting the form's fields under the id it assigned. */
  function InsertedLead(f: LeadForm, id: string): Lead
  {
    Lead(id, f.name, f.email, f.company)
  }

  /** Adding a lead puts the form's fields first in the list, under the new id, and clears the form. */
  lemma AddPutsFormFirst(p: Page, id: string)
    ensures var r := Add(p, Some(InsertedLead(p.form, id)));
            && r.leads[0] == Lead(id, p.form.name, p.form.email, p.form.company)
            && r.leads[1..] == p.leads && r.form == EmptyForm
  {
  }

  /** `handleImport`, given the rows the store returned for the insert: they go first, in order. */
  function Import(p: Page, stored: Option<seq<Lead>>): (r: Page)
    ensures stored.Some? ==> r.leads == stored.value + p.leads && r.error == p.error
    ensures stored.None? ==> r == p.(error := ImportFailed)
  {
    match stored
    case None => p.(error := ImportFailed)
    case Some(ls) => p.(leads := ls + p.leads)
  }

  /** `handleDelete`: when the store deleted the row, every lead with that id leaves the list. */
  function Delete(p: Page, id: string, deleted: bool): (r: Page)
    ensures deleted ==> (forall l :: l in r.leads <==> l in p.leads && l.id != id)
                        && |r.leads| + CountKey(p.leads, LeadId, id) == |p.leads|
                        && r.error == p.error
    ensures !deleted ==> r == p.(error := DeleteFailed)
  {
    if deleted then
      RemoveKeyLength(p.leads, LeadId, id);
      p.(leads := RemoveKey(p.leads, LeadId, id))
    else p.(error := DeleteFailed)
  }

  /** The survivors of a delete keep their order: deleting from a list is deleting from each part. */
  lemma DeleteKeepsOrder(p: Page, id: string, front: seq<Lead>, back: seq<Lead>)
    requires p.leads == front + back
    ensures Delete(p, id, true).leads == RemoveKey(front, LeadId, id) + RemoveKey(back, LeadId, id)
  {
    RemoveKeyAppend(front, back, LeadId, id);
  }

  // ---------------------------------------------------------------- export

  /** The header line of an export, written here field by field. */
  const ExportHeader: string := Join(["Name", "Email", "Company"], ",")

  function LeadFields(l: Lead): seq<string>
  {
    [l.name, l.email, l.company]
  }

  /** One exported line: name, email and company, separated by commas. */
  function LeadLine(l: Lead): string
  {
    Join(LeadFields(l), ",")
  }

  function LeadLines(leads: seq<Lead>): (r: seq<string>)
    ensures |r| == |leads| && forall i :: 0 <= i < |r| ==> r[i] == LeadLine(leads[i])
  {
    seq(|leads|, i requires 0 <= i < |leads| => LeadLine(leads[i]))
  }

  /** `handleExport`: the header line, then one line per lead, joined by line breaks. */
  function Export(leads: seq<Lead>): string
  {
    Join([ExportHeader] + LeadLines(leads), "\n")
  }

  /** A lead whose fields hold no line break. */
  predicate OneLine(l: Lead)
  {
    '\n' !in l.name && '\n' !in l.email && '\n' !in l.company
  }

  /** The header line holds the header the importer skips, and no line break. */
  lemma ExportHeaderIsHeader()
    ensures LeadImport.Header <= ExportHeader && '\n' !in ExportHeader && !AllSpace(ExportHeader)
  {
    assert Plain("Name") && Plain("Email") && Plain("Company");
    LineOfFields(["Name", "Email", "Company"]);
    assert LeadImport.Header == "Name" + ",";
  }

  /** The export of leads without line breaks in their fields has one line more than there are leads. */
  lemma ExportLineCount(leads: seq<Lead>)
    requires forall i :: 0 <= i < |leads| ==> OneLine(leads[i])
    ensures |Split(Export(leads), '\n')| == |leads| + 1
  {
    var all := [ExportHeader] + LeadLines(leads);
    ExportHeaderIsHeader();
    forall k | 0 <= k < |all|
      ensures '\n' !in all[k]
    {
      if k > 0 {
        var l := leads[k - 1];
        JoinExcludes(LeadFields(l), ",", '\n');
      }
    }
    SplitJoin(all, '\n');
  }

  /** A lead the import dialog reads back from its line. */
  predicate Exportable(l: Lead)
  {
    Plain(l.name) && Plain(l.email) && Plain(l.company) && '@' in l.email
  }

  /** A lead whose line the import dialog does not take for a header. */
  predicate Survives(l: Lead) { l.name != "Name" }

  /** The leads whose line the import dialog does not take for a header: all but those named `Name`. */
  function Surviving(leads: seq<Lead>): (r: seq<Lead>)
    ensures |r| <= |leads|
    ensures forall l :: l in r <==> l in leads && l.name != "Name"
  {
    Filter(leads, Survives)
  }

  /** The survivors keep their order: `Surviving` commutes with concatenation. */
  lemma SurvivingAppend(a: seq<Lead>, b: seq<Lead>)
    ensures Surviving(a + b) == Surviving(a) + Surviving(b)
  {
    FilterAppend(a, b, Survives);
  }

  /** A single lead survives exactly when it is not named `Name`. */
  lemma SurvivingOne(l: Lead)
    ensures Surviving([l]) == if l.name != "Name" then [l] else []
  {
    FilterOne(l, Survives);
  }

  /** A surviving lead appears as often as it did; a lead named `Name` not at all. */
  lemma SurvivingCount(leads: seq<Lead>, l: Lead)
    ensures multiset(Surviving(leads))[l] == if l.name != "Name" then multiset(leads)[l] else 0
  {
    FilterCount(leads, Survives, l);
  }

  /** What the import dialog makes of leads: the same fields under fresh ids. */
  function Reimported(leads: seq<Lead>, newId: nat -> string): (r: seq<Lead>)
    ensures |r| == |leads|
  {
    seq(|leads|, i requires 0 <= i < |leads| => leads[i].(id := newId(i)))
  }

  /** The line of an exportable lead is not blank, is one line, and is a header exactly when the name is `Name`. */
  lemma LeadLineShape(l: Lead)
    requires Exportable(l)
    ensures var line := LeadLine(l);
            && !AllSpace(line) && '\n' !in line
            && (LeadImport.Header <= line <==> l.name == "Name")
  {
    var parts := LeadFields(l);
    LineOfFields(parts);
    assert LeadImport.Header == "Name" + ",";
    FieldPrefix("Name", l.name, Join(parts[1..], ","));
  }

  /** The line of an exportable lead parses back to that lead. */
  lemma LeadLineParses(l: Lead, id: string)
    requires Exportable(l)
    ensures ParsesTo(LeadImport.ParseLine, LeadLine(l), id, l.(id := id))
  {
    FieldsOfJoin(LeadFields(l));
    LeadImport.ParseLineRules(LeadLine(l), id);
  }

  /** The lines of a list with a first lead: that lead's line, then the others'. */
  lemma LeadLinesCons(l: Lead, rest: seq<Lead>)
    ensures LeadLines([l] + rest) == [LeadLine(l)] + LeadLines(rest)
  {
    assert forall i :: 1 <= i < |rest| + 1 ==> ([l] + rest)[i] == rest[i - 1];
  }

  /** The importer keeps the lines of exactly the surviving leads. */
  lemma {:induction false} KeepLeadLines(leads: seq<Lead>)
    requires forall i :: 0 <= i < |leads| ==> Exportable(leads[i])
    ensures Keep(LeadLines(leads), LeadImport.Header) == LeadLines(Surviving(leads))
  {
    if leads != [] {
      var l, rest := leads[0], leads[1..];
      assert leads == [l] + rest;
      LeadLinesCons(l, rest);
      LeadLineShape(l);
      KeepLeadLines(rest);
      KeepAppend([LeadLine(l)], LeadLines(rest), LeadImport.Header);
      KeepOne(LeadLine(l), LeadImport.Header);
      SurvivingAppend([l], rest);
      SurvivingOne(l);
      if l.name != "Name" {
        LeadLinesCons(l, Surviving(rest));
      }
    }
  }

  /** The lines of exportable leads parse to those leads, in order. */
  lemma LeadLinesParse(leads: seq<Lead>, newId: nat -> string)
    requires forall i :: 0 <= i < |leads| ==> Exportable(leads[i])
    ensures ParseAll(LeadLines(leads), LeadImport.ParseLine, newId, 0) == Ok(Reimported(leads, newId))
  {
    var lines := LeadLines(leads);
    var want := Reimported(leads, newId);
    forall i | 0 <= i < |lines|
      ensures ParsesTo(LeadImport.ParseLine, lines[i], newId(i), want[i])
    {
      LeadLineParses(leads[i], newId(i));
    }
    ParseAllFromStart(lines, LeadImport.ParseLine, newId, want);
  }

  /**
   * Round trip: the import dialog reads an export back as the same leads, in
   * order, under fresh ids, except that a lead named exactly `Name` is taken
   * for a header and lost.
   */
  lemma ExportRoundTrip(leads: seq<Lead>, newId: nat -> string)
    requires forall i :: 0 <= i < |leads| ==> Exportable(leads[i])
    ensures LeadImport.ParseCsv(Export(leads), newId) == Ok(Reimported(Surviving(leads), newId))
  {
    ExportLines(leads);
    ExportHeaderIsHeader();
    var all := [ExportHeader] + LeadLines(leads);
    assert all[1..] == LeadLines(leads);
    KeepLeadLines(leads);
    assert Keep(all, LeadImport.Header) == LeadLines(Surviving(leads));
    SurvivorsExportable(leads);
    LeadLinesParse(Surviving(leads), newId);
  }

  /** An export of exportable leads splits back into its header line and the leads' lines. */
  lemma ExportLines(leads: seq<Lead>)
    requires forall i :: 0 <= i < |leads| ==> Exportable(leads[i])
    ensures Split(Export(leads), '\n') == [ExportHeader] + LeadLines(leads)
  {
    var all := [ExportHeader] + LeadLines(leads);
    ExportHeaderIsHeader();
    forall k | 0 <= k < |all|
      ensures '\n' !in all[k]
    {
      if k > 0 {
        LeadLineShape(leads[k - 1]);
      }
    }
    SplitJoin(all, '\n');
  }

  /** The surviving leads are exportable when all leads are. */
  lemma SurvivorsExportable(leads: seq<Lead>)
    requires forall i :: 0 <= i < |leads| ==> Exportable(leads[i])
    ensures forall i :: 0 <= i < |Surviving(leads)| ==> Exportable(Surviving(leads)[i])
  {
    forall i | 0 <= i < |Surviving(leads)|
      ensures Exportable(Surviving(leads)[i])
    {
      assert Surviving(leads)[i] in leads;
    }
  }

  /** Without a lead named `Name`, every lead comes back. */
  lemma NoneSkipped(leads: seq<Lead>)
    requires forall i :: 0 <= i < |leads| ==> leads[i].name != "Name"
    ensures Surviving(leads) == leads
  {
    FilterKeepsAll(leads, Survives);
  }

  /** A lead named `Name` does not survive its own export. */
  lemma NamedNameIsLost(l: Lead, newId: nat -> string)
    requires Exportable(l) && l.name == "Name"
    ensures LeadImport.ParseCsv(Export([l]), newId) == Ok([])
  {
    ExportRoundTrip([l], newId);
    assert Surviving([l]) == [];
  }

  // ---------------------------------------------------------------- template

  /** The three leads of the downloadable template (ids are given on import). */
  const TemplateLeads: seq<Lead> := [
    Lead("", "John Doe", "john@example.com", "Acme Inc"),
    Lead("", "Jane Smith", "jane@example.com", "Tech Corp"),
    Lead("", "Mike Johnson", "mike@example.com", "Global Solutions")]

  /** `downloadTemplate`: the header line and the three sample leads, as an export writes them. */
  const TemplateText: string := Export(TemplateLeads)

  lemma PlainJohn() ensures Plain("John Doe") && Plain("john@example.com") && Plain("Acme Inc") {}
  lemma PlainJane() ensures Plain("Jane Smith") && Plain("jane@example.com") && Plain("Tech Corp") {}
  lemma PlainMike() ensures Plain("Mike Johnson") && Plain("mike@example.com") {}
  lemma PlainGlobal() ensures Plain("Global Solutions") {}

  lemma TemplateLeadsExportable()
    ensures forall i :: 0 <= i < |TemplateLeads| ==> Exportable(TemplateLeads[i])
  {
    PlainJohn();
    PlainJane();
    PlainMike();
    PlainGlobal();
  }

  /** The template reads back as its three leads, in order. */
  lemma TemplateParses(newId: nat -> string)
    ensures LeadImport.ParseCsv(TemplateText, newId) == Ok(Reimported(TemplateLeads, newId))
  {
    TemplateLeadsExportable();
    NoneSkipped(TemplateLeads);
    ExportRoundTrip(TemplateLeads, newId);
  }

  /** The leads read from the template: three, with the template's names. */
  lemma TemplateLeadsRead(newId: nat -> string)
    ensures var r := Reimported(TemplateLeads, newId);
            |r| == 3 && r[0].name == "John Doe" && r[1].name == "Jane Smith" && r[2].name == "Mike Johnson"
  {
  }
}
