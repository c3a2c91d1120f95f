/**
 * The campaigns page of src/pages/Campaigns.tsx: the list it shows, the
 * draft its form edits, and the list updates its handlers make once the data
 * store has answered.
 */
module CampaignsPage {
  import opened Wrappers
  import opened Types
  import opened Lists
  import opened CampaignForm

  datatype Page = Page(
    campaigns: seq<Campaign>,
    draft: Draft,
    /** The campaign being edited, if any. */
    selected: Option<Campaign>,
    showForm: bool,
    error: string)

  const LoadFailed: string := "Failed to load campaigns"
  const SaveFailed: string := "Failed to save campaign"
  const StatusFailed: string := "Failed to update campaign status"
  const DeleteFailed: string := "Failed to delete campaign"

  /** The form a new campaign starts from: 09:00 to 17:00, Monday to Friday. */
  const DefaultDraft: Draft := CampaignForm.Draft("", "", [], [], Schedule("09:00", "17:00", DayValues()[..5]))

  lemma DefaultDraftIsWorkWeek()
    ensures DefaultDraft.schedule == Schedule("09:00", "17:00", ["monday", "tuesday", "wednesday", "thursday", "friday"])
    ensures DefaultDraft.leadListIds == [] && DefaultDraft.emailAccountIds == []
  {
    DayValuesAreTheWeek();
  }

  /** `fetchCampaigns`, given the campaigns the store returned, newest first. */
  function Load(p: Page, rows: Result<seq<Campaign>, string>): (r: Page)
    ensures rows.Ok? ==> r == p.(campaigns := rows.value)
    ensures rows.Err? ==> r == p.(error := LoadFailed)
  {
    match rows
    case Ok(cs) => p.(campaigns := cs)
    case Err(_) => p.(error := LoadFailed)
  }

  // ---------------------------------------------------------------- status

  /** `campaign.status === 'active' ? 'paused' : 'active'` */
  function NextStatus(s: Status): (r: Status)
    ensures r != s
    ensures r == Status.Paused <==> s == Status.Active
  {
    if s == Status.Active then Status.Paused else Status.Active
  }

  /** Two toggles bring a running or paused campaign back; a draft or completed one ends up paused. */
  lemma NextStatusTwice(s: Status)
    ensures NextStatus(NextStatus(s)) == s <==> s == Status.Active || s == Status.Paused
    ensures s == Status.Draft || s == Status.Completed ==> NextStatus(NextStatus(s)) == Status.Paused
  {
  }

  /** `campaigns.find(c => c.id === id)`: a campaign with that id, if there is one. */
  function Find(cs: seq<Campaign>, id: string): (r: Option<Campaign>)
    ensures r.None? <==> forall c :: c in cs ==> c.id != id
    ensures r.Some? ==> r.value in cs && r.value.id == id
  {
    if cs == [] then None
    else if cs[0].id == id then Some(cs[0])
    else
      assert forall c :: c in cs ==> c == cs[0] || c in cs[1..];
      Find(cs[1..], id)
  }

  /** The campaign found is the first with that id. */
  lemma {:induction false} FindIsFirst(cs: seq<Campaign>, id: string)
    requires Find(cs, id).Some?
    ensures exists i :: 0 <= i < |cs| && cs[i] == Find(cs, id).value && forall j :: 0 <= j < i ==> cs[j].id != id
  {
    if cs[0].id != id {
      FindIsFirst(cs[1..], id);
      var i :| 0 <= i < |cs[1..]| && cs[1..][i] == Find(cs, id).value && forall j :: 0 <= j < i ==> cs[1..][j].id != id;
      assert cs[i + 1] == Find(cs, id).value;
      assert forall j :: 1 <= j < i + 1 ==> cs[j] == cs[1..][j - 1];
    } else {
      assert cs[0] == Find(cs, id).value;
    }
  }

  /** Every campaign with the given id gets status `s`; the others are left alone. */
  function SetStatus(cs: seq<Campaign>, id: string, s: Status): (r: seq<Campaign>)
    ensures |r| == |cs|
    ensures forall i :: 0 <= i < |cs| ==> r[i] == if cs[i].id == id then cs[i].(status := s) else cs[i]
  {
    seq(|cs|, i requires 0 <= i < |cs| => if cs[i].id == id then cs[i].(status := s) else cs[i])
  }

  /**
   * `toggleCampaignStatus`, given whether the store accepted the update: an
   * unknown id changes nothing; otherwise the new status is computed from the
   * first campaign with that id and given to every campaign with that id.
   */
  function ToggleStatus(p: Page, id: string, stored: bool): (r: Page)
    ensures Find(p.campaigns, id).None? ==> r == p
    ensures Find(p.campaigns, id).Some? && !stored ==> r == p.(error := StatusFailed)
    ensures Find(p.campaigns, id).Some? && stored ==>
              r == p.(campaigns := SetStatus(p.campaigns, id, NextStatus(Find(p.campaigns, id).value.status)))
  {
    match Find(p.campaigns, id)
    case None => p
    case Some(c) =>
      if stored then p.(campaigns := SetStatus(p.campaigns, id, NextStatus(c.status)))
      else p.(error := StatusFailed)
  }

  /** A toggle changes only the status, only of the campaigns with that id, and leaves the list in place. */
  lemma ToggleChangesOnlyStatus(p: Page, id: string)
    ensures var r := ToggleStatus(p, id, true);
            && |r.campaigns| == |p.campaigns|
            && forall i :: 0 <= i < |p.campaigns| ==>
                 r.campaigns[i].(status := p.campaigns[i].status) == p.campaigns[i]
                 && (p.campaigns[i].id != id ==> r.campaigns[i] == p.campaigns[i])
  {
  }

  /** With distinct ids, the toggled campaign goes from running to paused and from anything else to running. */
  lemma ToggleFlipsStatus(p: Page, i: nat)
    requires i < |p.campaigns|
    requires forall j :: 0 <= j < |p.campaigns| && j != i ==> p.campaigns[j].id != p.campaigns[i].id
    ensures var c := p.campaigns[i];
            ToggleStatus(p, c.id, true).campaigns[i] == c.(status := NextStatus(c.status))
  {
    var c := p.campaigns[i];
    assert c in p.campaigns;
    FindIsFirst(p.campaigns, c.id);
    var k :| 0 <= k < |p.campaigns| && p.campaigns[k] == Find(p.campaigns, c.id).value
             && forall j :: 0 <= j < k ==> p.campaigns[j].id != c.id;
    assert k == i;
  }

  // ---------------------------------------------------------------- saving

  /** The row the store returns for a created campaign: the draft's fields, `draft` status, no metrics yet. */
  function Created(d: Draft, id: string): (c: Campaign)
    ensures c.status == Status.Draft && c.metrics == Metrics(0, 0, 0) && c.id == id
    ensures DraftOf(c) == d
  {
    Campaign(id, d.name, d.templateId, d.leadListIds, d.emailAccountIds, d.schedule, Status.Draft, Metrics(0, 0, 0))
  }

  /** `handleEdit`'s copy of a campaign into the form. */
  function DraftOf(c: Campaign): Draft
  {
    CampaignForm.Draft(c.name, c.templateId, c.leadListIds, c.emailAccountIds, c.schedule)
  }

  /** The edit branch of `handleSubmit`: the campaigns with that id take the draft's fields. */
  function Edited(cs: seq<Campaign>, id: string, d: Draft): (r: seq<Campaign>)
    ensures |r| == |cs|
    ensures forall i :: 0 <= i < |cs| ==> r[i].id == cs[i].id && r[i].status == cs[i].status && r[i].metrics == cs[i].metrics
    ensures forall i :: 0 <= i < |cs| ==> if cs[i].id == id then DraftOf(r[i]) == d else r[i] == cs[i]
  {
    seq(|cs|, i requires 0 <= i < |cs| =>
      if cs[i].id == id then
        cs[i].(name := d.name, templateId := d.templateId, leadListIds := d.leadListIds,
               emailAccountIds := d.emailAccountIds, schedule := d.schedule)
      else cs[i])
  }

  /** Saving an edit without changing the form leaves the list as it was. */
  lemma EditUnchanged(cs: seq<Campaign>, c: Campaign)
    requires forall x :: x in cs && x.id == c.id ==> x == c
    ensures Edited(cs, c.id, DraftOf(c)) == cs
  {
    forall i | 0 <= i < |cs|
      ensures Edited(cs, c.id, DraftOf(c))[i] == cs[i]
    {
      if cs[i].id == c.id {
        assert cs[i] in cs;
      }
    }
  }

  /** `handleEdit`: the campaign is selected and copied into the shown form. */
  function Edit(p: Page, c: Campaign): (r: Page)
    ensures r.selected == Some(c) && r.draft == DraftOf(c) && r.showForm
    ensures r.campaigns == p.campaigns && r.error == p.error
  {
    p.(selected := Some(c), draft := DraftOf(c), showForm := true)
  }

  /**
   * `handleSubmit`, given whether the store accepted the write and the id it
   * gave a created campaign: an edit rewrites the selected campaign, a create
   * puts the new campaign first; either way the form is reset and hidden.
   */
  function Submit(p: Page, stored: bool, newId: string): (r: Page)
    ensures !stored ==> r == p.(error := SaveFailed)
    ensures stored && p.selected.Some? ==> r.campaigns == Edited(p.campaigns, p.selected.value.id, p.draft)
    ensures stored && p.selected.None? ==> r.campaigns == [Created(p.draft, newId)] + p.campaigns
    ensures stored ==> r.draft == DefaultDraft && r.selected.None? && !r.showForm && r.error == p.error
  {
    if !stored then p.(error := SaveFailed)
    else
      var cs := match p.selected
        case Some(c) => Edited(p.campaigns, c.id, p.draft)
        case None => [Created(p.draft, newId)] + p.campaigns;
      p.(campaigns := cs, draft := DefaultDraft, selected := None, showForm := false)
  }

  /** A created campaign goes first, as a draft without metrics, and the rest follow unchanged. */
  lemma CreateGoesFirst(p: Page, newId: string)
    requires p.selected.None?
    ensures var r := Submit(p, true, newId);
            && r.campaigns[0].status == Status.Draft && r.campaigns[0].metrics == Metrics(0, 0, 0)
            && DraftOf(r.campaigns[0]) == p.draft && r.campaigns[1..] == p.campaigns
  {
  }

  /** `deleteCampaign`: when the store deleted the row, every campaign with that id leaves the list. */
  function Delete(p: Page, id: string, deleted: bool): (r: Page)
    ensures deleted ==> (forall c :: c in r.campaigns <==> c in p.campaigns && c.id != id)
                        && |r.campaigns| + CountKey(p.campaigns, CampaignId, id) == |p.campaigns|
                        && r.error == p.error
    ensures !deleted ==> r == p.(error := DeleteFailed)
  {
    if deleted then
      RemoveKeyLength(p.campaigns, CampaignId, id);
      p.(campaigns := RemoveKey(p.campaigns, CampaignId, id))
    else p.(error := DeleteFailed)
  }

  /** The survivors of a delete keep their order. */
  lemma DeleteKeepsOrder(p: Page, id: string, front: seq<Campaign>, back: seq<Campaign>)
    requires p.campaigns == front + back
    ensures Delete(p, id, true).campaigns == RemoveKey(front, CampaignId, id) + RemoveKey(back, CampaignId, id)
  {
    RemoveKeyAppend(front, back, CampaignId, id);
  }
}
