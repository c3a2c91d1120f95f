/**
 * The campaign form of src/components/CampaignForm.tsx: the draft campaign
 * it edits and the membership toggles and select/deselect-all buttons for
 * sending accounts and week days. Every handler hands a new draft to the
 * page; none changes a field other than its own.
 */
module CampaignForm {
  import opened Types
  import opened Lists

  /** The fields of a campaign the form edits; the page keeps status and metrics. */
  datatype Draft = Draft(
    name: string,
    templateId: string,
    leadListIds: seq<string>,
    emailAccountIds: seq<string>,
    schedule: Schedule)

  /** A week day as the form lists it: the stored value and the name shown. */
  datatype Day = Day(value: string, shown: string)

  /** `DAYS`: Monday to Sunday, in that order. */
  const Days: seq<Day> := [
    Day("monday", "Monday"), Day("tuesday", "Tuesday"), Day("wednesday", "Wednesday"),
    Day("thursday", "Thursday"), Day("friday", "Friday"), Day("saturday", "Saturday"),
    Day("sunday", "Sunday")]

  /** `DAYS.map(day => day.value)` */
  function DayValues(): (r: seq<string>)
    ensures |r| == |Days| && forall i :: 0 <= i < |r| ==> r[i] == Days[i].value
  {
    seq(|Days|, i requires 0 <= i < |Days| => Days[i].value)
  }

  /** The seven values, Monday first, Sunday last, none twice. */
  lemma DayValuesAreTheWeek()
    ensures DayValues() == ["monday", "tuesday", "wednesday", "thursday", "friday", "saturday", "sunday"]
    ensures forall i, j :: 0 <= i < j < |DayValues()| ==> DayValues()[i] != DayValues()[j]
  {
    var v := DayValues();
    assert v[0] == "monday" && v[1] == "tuesday" && v[2] == "wednesday" && v[3] == "thursday";
    assert v[4] == "friday" && v[5] == "saturday" && v[6] == "sunday";
  }

  // ---------------------------------------------------------------- toggling

  /** `xs.filter(y => y !== x)` */
  function Without(xs: seq<string>, x: string): (r: seq<string>)
    ensures |r| <= |xs|
    ensures forall y :: y in r <==> y in xs && y != x
  {
    Filter(xs, y => y != x)
  }

  /** A list without x is its own filter. */
  lemma WithoutAbsent(xs: seq<string>, x: string)
    requires x !in xs
    ensures Without(xs, x) == xs
  {
    FilterKeepsAll(xs, y => y != x);
  }

  /** Filtering commutes with appending. */
  lemma WithoutAppend(xs: seq<string>, ys: seq<string>, x: string)
    ensures Without(xs + ys, x) == Without(xs, x) + Without(ys, x)
  {
    FilterAppend(xs, ys, y => y != x);
  }

  /**
   * The shared rule of `toggleEmailAccount` and `toggleDay`: every occurrence
   * removed when present, appended at the end when absent; so x is a member
   * afterwards exactly when it was not, and every other value keeps its
   * membership.
   */
  function Toggle(xs: seq<string>, x: string): (r: seq<string>)
    ensures forall y :: y in r <==> (if y == x then x !in xs else y in xs)
  {
    if x in xs then Without(xs, x) else xs + [x]
  }

  /** Toggling the same value twice restores the membership of every value. */
  lemma ToggleTwice(xs: seq<string>, x: string)
    ensures forall y :: y in Toggle(Toggle(xs, x), x) <==> y in xs
  {
  }

  /** Toggling moves no other value: with x filtered out, the list is the same before and after. */
  lemma ToggleKeepsOthersInOrder(xs: seq<string>, x: string)
    ensures Without(Toggle(xs, x), x) == Without(xs, x)
  {
    if x in xs {
      WithoutAbsent(Without(xs, x), x);
    } else {
      WithoutAppend(xs, [x], x);
      assert Without([x], x) == [];
    }
  }

  /** A value added by a toggle goes last. */
  lemma ToggleAppendsLast(xs: seq<string>, x: string)
    requires x !in xs
    ensures var r := Toggle(xs, x); |r| == |xs| + 1 && r[..|xs|] == xs && r[|xs|] == x
  {
    assert (xs + [x])[..|xs|] == xs;
  }

  // ---------------------------------------------------------------- handlers

  /** `toggleEmailAccount`: only the account list changes, by the toggle rule. */
  function ToggleEmailAccount(d: Draft, accountId: string): (r: Draft)
    ensures r.(emailAccountIds := d.emailAccountIds) == d
    ensures forall y :: y in r.emailAccountIds <==> (if y == accountId then accountId !in d.emailAccountIds else y in d.emailAccountIds)
  {
    d.(emailAccountIds := Toggle(d.emailAccountIds, accountId))
  }

  /** `toggleDay`: only the day list changes, by the toggle rule; the times are kept. */
  function ToggleDay(d: Draft, day: string): (r: Draft)
    ensures r.(schedule := d.schedule) == d
    ensures r.schedule.startTime == d.schedule.startTime && r.schedule.endTime == d.schedule.endTime
    ensures forall y :: y in r.schedule.days <==> (if y == day then day !in d.schedule.days else y in d.schedule.days)
  {
    d.(schedule := d.schedule.(days := Toggle(d.schedule.days, day)))
  }

  /** `handleSelectAllAccounts`: the ids of the fetched accounts, in the order fetched. */
  function SelectAllAccounts(d: Draft, accounts: seq<EmailAccount>): (r: Draft)
    ensures r.(emailAccountIds := d.emailAccountIds) == d
    ensures |r.emailAccountIds| == |accounts|
    ensures forall i :: 0 <= i < |accounts| ==> r.emailAccountIds[i] == accounts[i].id
  {
    d.(emailAccountIds := seq(|accounts|, i requires 0 <= i < |accounts| => accounts[i].id))
  }

  /** `handleDeselectAllAccounts` */
  function DeselectAllAccounts(d: Draft): (r: Draft)
    ensures r.(emailAccountIds := d.emailAccountIds) == d
    ensures forall y :: y !in r.emailAccountIds
  {
    d.(emailAccountIds := [])
  }

  /** `handleSelectAllDays`: the seven days, Monday to Sunday; the times are kept. */
  function SelectAllDays(d: Draft): (r: Draft)
    ensures r.(schedule := d.schedule) == d
    ensures r.schedule.startTime == d.schedule.startTime && r.schedule.endTime == d.schedule.endTime
    ensures r.schedule.days == DayValues()
  {
    d.(schedule := d.schedule.(days := DayValues()))
  }

  /** `handleDeselectAllDays`: no day; the times are kept. */
  function DeselectAllDays(d: Draft): (r: Draft)
    ensures r.(schedule := d.schedule) == d
    ensures r.schedule.startTime == d.schedule.startTime && r.schedule.endTime == d.schedule.endTime
    ensures forall y :: y !in r.schedule.days
  {
    d.(schedule := d.schedule.(days := []))
  }

  /** After select-all, a toggle of any week day removes exactly that day. */
  lemma SelectAllThenToggleDay(d: Draft, i: nat)
    requires i < |Days|
    ensures var r := ToggleDay(SelectAllDays(d), Days[i].value);
            forall y :: y in r.schedule.days <==> y in DayValues() && y != Days[i].value
  {
    assert DayValues()[i] == Days[i].value;
  }

  /** After deselect-all, toggling accounts in turn lists them in the order they were toggled. */
  lemma {:induction false} ToggleFromEmpty(d: Draft, ids: seq<string>)
    requires forall i, j :: 0 <= i < j < |ids| ==> ids[i] != ids[j]
    ensures ToggleAll(DeselectAllAccounts(d), ids).emailAccountIds == ids
    decreases |ids|
  {
    if ids != [] {
      var front := ids[..|ids| - 1];
      var last := ids[|ids| - 1];
      ToggleFromEmpty(d, front);
      assert last !in front by {
        forall j | 0 <= j < |front|
          ensures front[j] != last
        {
          assert front[j] == ids[j];
        }
      }
      assert front + [last] == ids;
    }
  }

  /** Clicking the accounts of `ids` one after the other. */
  function ToggleAll(d: Draft, ids: seq<string>): (r: Draft)
    ensures r.(emailAccountIds := d.emailAccountIds) == d
    decreases |ids|
  {
    if ids == [] then d else ToggleEmailAccount(ToggleAll(d, ids[..|ids| - 1]), ids[|ids| - 1])
  }
}
