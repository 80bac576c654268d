/**
 * The calendar view: the schedule form and its handler, the list of the
 * selected day's schedules with their outfits, the thumbnails in a grid cell,
 * and the Remove button of a listed schedule.
 */
module Calendar {
  import opened Collections
  import opened Types
  import opened Store

  /** A schedule shown together with the outfit it names. */
  datatype DayEntry = DayEntry(schedule: Schedule, outfit: Outfit)

  /** The schedules of a list of entries, in the same order. */
  function EntrySchedules(es: seq<DayEntry>): (ss: seq<Schedule>)
    ensures |ss| == |es| && forall k :: 0 <= k < |es| ==> ss[k] == es[k].schedule
  {
    if es == [] then [] else [es[0].schedule] + EntrySchedules(es[1..])
  }

  function ResolvesIn(os: seq<Outfit>): Schedule -> bool {
    (s: Schedule) => OutfitById(os, s.outfitId).Some?
  }

  /**
   * `schedules.map(s => getOutfitById(s.outfitId) ? ... : null)`: each
   * schedule paired with its outfit; a schedule whose outfit is missing
   * renders nothing.
   */
  function Resolve(ss: seq<Schedule>, os: seq<Outfit>): (r: seq<DayEntry>)
    ensures |r| <= |ss|
    ensures forall k :: 0 <= k < |r| ==> r[k].schedule in ss
    ensures forall k :: 0 <= k < |r| ==> OutfitById(os, r[k].schedule.outfitId) == Some(r[k].outfit)
  {
    if ss == [] then []
    else match OutfitById(os, ss[0].outfitId)
      case Some(o) => [DayEntry(ss[0], o)] + Resolve(ss[1..], os)
      case None => Resolve(ss[1..], os)
  }

  /** The listed schedules are exactly those whose outfit resolves, in their original order. */
  lemma {:induction false} ResolveSkipsDangling(ss: seq<Schedule>, os: seq<Outfit>)
    ensures EntrySchedules(Resolve(ss, os)) == Filter(ss, ResolvesIn(os))
  {
    if ss != [] {
      ResolveSkipsDangling(ss[1..], os);
      var rest := Resolve(ss[1..], os);
      var p := ResolvesIn(os);
      match OutfitById(os, ss[0].outfitId)
      case Some(o) =>
        assert p(ss[0]);
        assert Filter(ss, p) == [ss[0]] + Filter(ss[1..], p);
        var es := [DayEntry(ss[0], o)] + rest;
        assert es[1..] == rest;
        assert EntrySchedules(es) == [ss[0]] + EntrySchedules(rest);
      case None =>
        assert !p(ss[0]);
        assert Filter(ss, p) == Filter(ss[1..], p);
    }
  }

  /** Resolving a concatenation resolves each part. */
  lemma {:induction false} ResolveAppend(a: seq<Schedule>, b: seq<Schedule>, os: seq<Outfit>)
    ensures Resolve(a + b, os) == Resolve(a, os) + Resolve(b, os)
  {
    if a == [] {
      assert a + b == b;
    } else {
      assert (a + b)[1..] == a[1..] + b;
      ResolveAppend(a[1..], b, os);
    }
  }

  /** A JavaScript string value that is truthy: present and non-empty. */
  predicate Truthy(d: Option<string>) {
    d.Some? && d.value != ""
  }

  /** `selectedDate ? getScheduleByDate(selectedDate) : []` */
  function DayList(ss: seq<Schedule>, selectedDate: Option<string>): (r: seq<Schedule>)
    ensures !Truthy(selectedDate) ==> r == []
    ensures Truthy(selectedDate) ==>
              forall k :: 0 <= k < |r| ==> r[k].date == selectedDate.value && r[k] in ss
    ensures Truthy(selectedDate) ==>
              forall i :: 0 <= i < |ss| && ss[i].date == selectedDate.value ==> ss[i] in r
  {
    if Truthy(selectedDate) then ScheduleByDate(ss, selectedDate.value) else []
  }

  /** The day modal's list: the selected day's schedules, skipping those whose outfit is gone. */
  function DayEntries(ss: seq<Schedule>, os: seq<Outfit>, selectedDate: Option<string>): (r: seq<DayEntry>)
    ensures !Truthy(selectedDate) ==> r == []
    ensures Truthy(selectedDate) ==>
              forall k :: 0 <= k < |r| ==> r[k].schedule.date == selectedDate.value && r[k].schedule in ss
    ensures forall k :: 0 <= k < |r| ==> OutfitById(os, r[k].schedule.outfitId) == Some(r[k].outfit)
  {
    var day := DayList(ss, selectedDate);
    var r := Resolve(day, os);
    assert forall k :: 0 <= k < |r| ==> r[k].schedule in day;
    r
  }

  /** `schedules.slice(0, 2)`, then resolved: the thumbnails in the grid cell of `date`. */
  function CellEntries(ss: seq<Schedule>, os: seq<Outfit>, date: string): (r: seq<DayEntry>)
    ensures |r| <= 2
    ensures forall k :: 0 <= k < |r| ==> r[k].schedule.date == date && r[k].schedule in ss
    ensures forall k :: 0 <= k < |r| ==> OutfitById(os, r[k].schedule.outfitId) == Some(r[k].outfit)
  {
    var day := ScheduleByDate(ss, date);
    var shown := if |day| <= 2 then day else day[..2];
    var r := Resolve(shown, os);
    assert forall k :: 0 <= k < |r| ==> r[k].schedule in shown;
    assert forall x :: x in shown ==> x in day;
    r
  }

  /** `hasSchedule`: a cell is highlighted exactly when some stored schedule is on its date. */
  predicate CellHighlighted(ss: seq<Schedule>, date: string): (b: bool)
    ensures b <==> exists i :: 0 <= i < |ss| && ss[i].date == date
  {
    var day := ScheduleByDate(ss, date);
    assert |day| > 0 ==> day[0] in ss;
    |day| > 0
  }

  /**
   * The day list holds exactly the schedules on the selected date, in
   * stored order, and is empty when no date is selected; its entries show the
   * outfit each schedule names.
   */
  lemma DayEntriesSpec(ss: seq<Schedule>, os: seq<Outfit>, selectedDate: Option<string>)
    ensures !Truthy(selectedDate) ==> DayEntries(ss, os, selectedDate) == []
    ensures Truthy(selectedDate) ==>
              EntrySchedules(DayEntries(ss, os, selectedDate)) ==
              Filter(ScheduleByDate(ss, selectedDate.value), ResolvesIn(os))
    ensures forall e :: e in DayEntries(ss, os, selectedDate) ==>
              OutfitById(os, e.schedule.outfitId) == Some(e.outfit)
  {
    ResolveSkipsDangling(DayList(ss, selectedDate), os);
  }

  /**
   * A grid cell shows the day's first two schedules, in order, minus those
   * whose outfit is gone.
   */
  lemma CellShowsFirstTwo(ss: seq<Schedule>, os: seq<Outfit>, date: string)
    ensures var day := ScheduleByDate(ss, date);
            EntrySchedules(CellEntries(ss, os, date)) ==
            Filter(if |day| <= 2 then day else day[..2], ResolvesIn(os))
  {
    var day := ScheduleByDate(ss, date);
    ResolveSkipsDangling(if |day| <= 2 then day else day[..2], os);
  }

  class CalendarView {
    var selectedDate: Option<string>
    var showScheduleModal: bool
    var selectedOutfitId: string
    var selectedTimeSlot: Option<TimeSlot>

    constructor ()
      ensures selectedDate == None && !showScheduleModal
      ensures selectedOutfitId == "" && selectedTimeSlot == None
    {
      selectedDate, showScheduleModal := None, false;
      selectedOutfitId, selectedTimeSlot := "", None;
    }

    /**
     * `handleSchedule`: with a selected date and outfit, add the schedule,
     * close the form and clear the outfit and slot; otherwise do nothing.
     */
    method HandleSchedule(store: AppStore, now: nat) returns (scheduled: bool)
      modifies this, store
      ensures scheduled <==> Truthy(old(selectedDate)) && old(selectedOutfitId) != ""
      ensures scheduled ==>
                && store.schedules == old(store.schedules) +
                     [Schedule(ClockId(now), old(selectedOutfitId), old(selectedDate).value, old(selectedTimeSlot))]
                && store.storedSchedules == store.schedules
                && store.outfits == old(store.outfits) && store.storedOutfits == old(store.storedOutfits)
                && store.tags == old(store.tags) && store.storedTags == old(store.storedTags)
                && !showScheduleModal && selectedOutfitId == "" && selectedTimeSlot == None
                && selectedDate == old(selectedDate)
      ensures !scheduled ==> unchanged(this) && unchanged(store)
    {
      scheduled := Truthy(selectedDate) && selectedOutfitId != "";
      if scheduled {
        store.AddSchedule(ScheduleDraft(selectedOutfitId, selectedDate.value, selectedTimeSlot), now);
        showScheduleModal := false;
        selectedOutfitId := "";
        selectedTimeSlot := None;
      }
    }

    /** A listed schedule's Remove button deletes exactly that schedule's id. */
    method Remove(store: AppStore, entry: DayEntry)
      modifies store
      ensures store.schedules == WithoutSchedule(old(store.schedules), entry.schedule.id)
      ensures store.storedSchedules == store.schedules
      ensures store.outfits == old(store.outfits) && store.storedOutfits == old(store.storedOutfits)
      ensures store.tags == old(store.tags) && store.storedTags == old(store.storedTags)
    {
      store.DeleteSchedule(entry.schedule.id);
    }
  }

  /**
   * After a successful `handleSchedule`, the new schedule is the last one
   * listed for its day, and it is shown there exactly when its outfit resolves.
   */
  lemma ScheduledJoinsDayList(ss: seq<Schedule>, os: seq<Outfit>, s: Schedule)
    requires s.date != ""
    ensures DayList(ss + [s], Some(s.date)) == DayList(ss, Some(s.date)) + [s]
    ensures OutfitById(os, s.outfitId).Some? ==>
              DayEntries(ss + [s], os, Some(s.date)) ==
              DayEntries(ss, os, Some(s.date)) + [DayEntry(s, OutfitById(os, s.outfitId).value)]
    ensures OutfitById(os, s.outfitId).None? ==>
              DayEntries(ss + [s], os, Some(s.date)) == DayEntries(ss, os, Some(s.date))
  {
    var before := DayList(ss, Some(s.date));
    ScheduleByDateAfterAdd(ss, s, s.date);
    assert DayList(ss + [s], Some(s.date)) == before + [s];
    ResolveAppend(before, [s], os);
    ResolveSingle(s, os);
  }

  lemma ResolveSingle(s: Schedule, os: seq<Outfit>)
    ensures OutfitById(os, s.outfitId).Some? ==> Resolve([s], os) == [DayEntry(s, OutfitById(os, s.outfitId).value)]
    ensures OutfitById(os, s.outfitId).None? ==> Resolve([s], os) == []
  {
    assert [s][1..] == [];
  }

  /** After Remove, no schedule with the removed id is listed for any day. */
  lemma RemovedLeavesDayList(ss: seq<Schedule>, id: string, selectedDate: Option<string>)
    ensures forall s :: s in DayList(WithoutSchedule(ss, id), selectedDate) ==> s.id != id
  {
    DeleteScheduleRemovesId(ss, id);
  }
}
