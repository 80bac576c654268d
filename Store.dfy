/**
 * The application store (`AppProvider`): the in-memory outfits, schedules and
 * tag registry, the snapshot of each kept in local storage, the five
 * mutations that write through to those snapshots, and the two queries.
 */
module Store {
  import opened Collections
  import opened Types

  // ---------------------------------------------------------------------------
  // What each operation computes, as functions of the collections
  // ---------------------------------------------------------------------------

  function OutfitKey(): Outfit -> string {
    (o: Outfit) => o.id
  }

  function ScheduleKey(): Schedule -> string {
    (s: Schedule) => s.id
  }

  /** The outfit ids, in stored order. */
  function OutfitIds(os: seq<Outfit>): (ids: seq<string>)
    ensures |ids| == |os| && forall i :: 0 <= i < |os| ==> ids[i] == os[i].id
  {
    Map(os, OutfitKey())
  }

  /** The schedule ids, in stored order. */
  function ScheduleIds(ss: seq<Schedule>): (ids: seq<string>)
    ensures |ids| == |ss| && forall i :: 0 <= i < |ss| ==> ids[i] == ss[i].id
  {
    Map(ss, ScheduleKey())
  }

  /** The fields of an outfit the caller supplies. */
  function OutfitDraftOf(o: Outfit): OutfitDraft {
    OutfitDraft(o.title, o.imageBase64, o.tags, o.notes)
  }

  /** The fields of a schedule the caller supplies. */
  function ScheduleDraftOf(s: Schedule): ScheduleDraft {
    ScheduleDraft(s.outfitId, s.date, s.timeSlot)
  }

  /** The record `addOutfit` builds: the caller's fields, a clock id and a creation time. */
  function NewOutfit(d: OutfitDraft, now: nat, createdAt: string): (o: Outfit)
    ensures OutfitDraftOf(o) == d
    ensures o.id == ClockId(now) && o.createdAt == createdAt
  {
    Outfit(ClockId(now), d.title, d.imageBase64, d.tags, d.notes, createdAt)
  }

  /** The record `addSchedule` builds: the caller's fields, unchecked, and a clock id. */
  function NewSchedule(d: ScheduleDraft, now: nat): (s: Schedule)
    ensures ScheduleDraftOf(s) == d
    ensures s.id == ClockId(now)
  {
    Schedule(ClockId(now), d.outfitId, d.date, d.timeSlot)
  }

  function OtherOutfit(id: string): Outfit -> bool {
    (o: Outfit) => o.id != id
  }

  function NotReferencing(id: string): Schedule -> bool {
    (s: Schedule) => s.outfitId != id
  }

  function OtherSchedule(id: string): Schedule -> bool {
    (s: Schedule) => s.id != id
  }

  function OnDate(date: string): Schedule -> bool {
    (s: Schedule) => s.date == date
  }

  function HasId(id: string): Outfit -> bool {
    (o: Outfit) => o.id == id
  }

  /** `outfits.filter(o => o.id !== id)` */
  function WithoutOutfit(os: seq<Outfit>, id: string): (r: seq<Outfit>)
    ensures |r| <= |os|
    ensures forall k :: 0 <= k < |r| ==> r[k].id != id && r[k] in os
    ensures forall i :: 0 <= i < |os| && os[i].id != id ==> os[i] in r
  {
    Filter(os, OtherOutfit(id))
  }

  /** `schedules.filter(s => s.outfitId !== id)`: the cascade of `deleteOutfit`. */
  function WithoutOutfitSchedules(ss: seq<Schedule>, id: string): (r: seq<Schedule>)
    ensures |r| <= |ss|
    ensures forall k :: 0 <= k < |r| ==> r[k].outfitId != id && r[k] in ss
    ensures forall i :: 0 <= i < |ss| && ss[i].outfitId != id ==> ss[i] in r
  {
    Filter(ss, NotReferencing(id))
  }

  /** `schedules.filter(s => s.id !== id)` */
  function WithoutSchedule(ss: seq<Schedule>, id: string): (r: seq<Schedule>)
    ensures |r| <= |ss|
    ensures forall k :: 0 <= k < |r| ==> r[k].id != id && r[k] in ss
    ensures forall i :: 0 <= i < |ss| && ss[i].id != id ==> ss[i] in r
  {
    Filter(ss, OtherSchedule(id))
  }

  /** The registry after `addTag(t)`: unchanged when `t` is present, else `t` appended. */
  function WithTag(tags: seq<string>, t: string): (r: seq<string>)
    ensures tags <= r && |r| <= |tags| + 1
    ensures forall x :: x in r <==> x in tags || x == t
  {
    if t in tags then tags else tags + [t]
  }

  /** `getScheduleByDate(date)` */
  function ScheduleByDate(ss: seq<Schedule>, date: string): (r: seq<Schedule>)
    ensures forall k :: 0 <= k < |r| ==> r[k].date == date && r[k] in ss
    ensures forall i :: 0 <= i < |ss| && ss[i].date == date ==> ss[i] in r
  {
    Filter(ss, OnDate(date))
  }

  /** `getOutfitById(id)`: the first outfit with that id, if any. */
  function OutfitById(os: seq<Outfit>, id: string): (r: Option<Outfit>)
    ensures r.None? <==> forall i :: 0 <= i < |os| ==> os[i].id != id
    ensures r.Some? ==> r.value.id == id &&
                        exists i :: 0 <= i < |os| && os[i] == r.value &&
                                    forall j :: 0 <= j < i ==> os[j].id != id
  {
    Find(os, HasId(id))
  }

  /** Every schedule names an outfit that exists. */
  ghost predicate SchedulesResolve(os: seq<Outfit>, ss: seq<Schedule>) {
    forall k :: 0 <= k < |ss| ==> NamesOutfitIn(ss[k], os)
  }

  /** The outfit that `s` names is one of `os`. */
  ghost predicate NamesOutfitIn(s: Schedule, os: seq<Outfit>) {
    exists i :: 0 <= i < |os| && os[i].id == s.outfitId
  }

  // ---------------------------------------------------------------------------
  // The store
  // ---------------------------------------------------------------------------

  class AppStore {
    var outfits: seq<Outfit>
    var schedules: seq<Schedule>
    var tags: seq<string>
    // The snapshots under the storage keys closely_outfits, closely_schedules and closely_tags.
    var storedOutfits: seq<Outfit>
    var storedSchedules: seq<Schedule>
    var storedTags: seq<string>

    /** Every collection equals its stored snapshot. */
    ghost predicate Persisted()
      reads this
    {
      storedOutfits == outfits && storedSchedules == schedules && storedTags == tags
    }

    /** The provider before its first effect runs: empty collections, whatever storage holds. */
    constructor (outfitsInStorage: seq<Outfit>, schedulesInStorage: seq<Schedule>, tagsInStorage: seq<string>)
      ensures outfits == [] && schedules == [] && tags == []
      ensures storedOutfits == outfitsInStorage
      ensures storedSchedules == schedulesInStorage
      ensures storedTags == tagsInStorage
    {
      outfits, schedules, tags := [], [], [];
      storedOutfits, storedSchedules, storedTags := outfitsInStorage, schedulesInStorage, tagsInStorage;
    }

    /** The initial load: install the three stored snapshots. */
    method Load()
      modifies this
      ensures outfits == storedOutfits == old(storedOutfits)
      ensures schedules == storedSchedules == old(storedSchedules)
      ensures tags == storedTags == old(storedTags)
      ensures Persisted()
    {
      outfits, schedules, tags := storedOutfits, storedSchedules, storedTags;
    }

    method AddOutfit(draft: OutfitDraft, now: nat, createdAt: string)
      modifies this
      ensures outfits == old(outfits) + [NewOutfit(draft, now, createdAt)]
      ensures storedOutfits == outfits
      ensures schedules == old(schedules) && storedSchedules == old(storedSchedules)
      ensures tags == old(tags) && storedTags == old(storedTags)
      ensures old(Persisted()) ==> Persisted()
    {
      var updated := outfits + [NewOutfit(draft, now, createdAt)];
      storedOutfits := updated;
      outfits := updated;
    }

    method DeleteOutfit(id: string)
      modifies this
      ensures outfits == WithoutOutfit(old(outfits), id) && storedOutfits == outfits
      ensures schedules == WithoutOutfitSchedules(old(schedules), id) && storedSchedules == schedules
      ensures tags == old(tags) && storedTags == old(storedTags)
      ensures old(Persisted()) ==> Persisted()
    {
      var updated := WithoutOutfit(outfits, id);
      storedOutfits := updated;
      outfits := updated;
      var remaining := WithoutOutfitSchedules(schedules, id);
      storedSchedules := remaining;
      schedules := remaining;
    }

    method AddSchedule(draft: ScheduleDraft, now: nat)
      modifies this
      ensures schedules == old(schedules) + [NewSchedule(draft, now)]
      ensures storedSchedules == schedules
      ensures outfits == old(outfits) && storedOutfits == old(storedOutfits)
      ensures tags == old(tags) && storedTags == old(storedTags)
      ensures old(Persisted()) ==> Persisted()
    {
      var updated := schedules + [NewSchedule(draft, now)];
      storedSchedules := updated;
      schedules := updated;
    }

    method DeleteSchedule(id: string)
      modifies this
      ensures schedules == WithoutSchedule(old(schedules), id) && storedSchedules == schedules
      ensures outfits == old(outfits) && storedOutfits == old(storedOutfits)
      ensures tags == old(tags) && storedTags == old(storedTags)
      ensures old(Persisted()) ==> Persisted()
    {
      var updated := WithoutSchedule(schedules, id);
      storedSchedules := updated;
      schedules := updated;
    }

    /** A tag already present changes nothing and writes nothing. */
    method AddTag(t: string)
      modifies this
      ensures tags == WithTag(old(tags), t)
      ensures storedTags == if t in old(tags) then old(storedTags) else tags
      ensures outfits == old(outfits) && storedOutfits == old(storedOutfits)
      ensures schedules == old(schedules) && storedSchedules == old(storedSchedules)
      ensures old(Persisted()) ==> Persisted()
    {
      if t !in tags {
        var updated := tags + [t];
        storedTags := updated;
        tags := updated;
      }
    }
  }

  // ---------------------------------------------------------------------------
  // Properties of the operations
  // ---------------------------------------------------------------------------

  /**
   * `deleteOutfit(id)` leaves no outfit with that id and no schedule naming it,
   * keeps every other outfit and schedule, and keeps their order.
   */
  lemma DeleteOutfitCascades(os: seq<Outfit>, ss: seq<Schedule>, id: string)
    ensures forall o :: o in WithoutOutfit(os, id) ==> o.id != id
    ensures forall s :: s in WithoutOutfitSchedules(ss, id) ==> s.outfitId != id
    ensures forall o :: o in os && o.id != id ==> o in WithoutOutfit(os, id)
    ensures forall s :: s in ss && s.outfitId != id ==> s in WithoutOutfitSchedules(ss, id)
    ensures OrderedSelection(WithoutOutfit(os, id), os, OtherOutfit(id))
    ensures OrderedSelection(WithoutOutfitSchedules(ss, id), ss, NotReferencing(id))
  {
    FilterIsOrderedSelection(os, OtherOutfit(id));
    FilterIsOrderedSelection(ss, NotReferencing(id));
  }

  /**
   * The outfits are unchanged exactly when no outfit has the id; the schedules
   * exactly when none names it.
   */
  lemma DeleteOutfitAbsent(os: seq<Outfit>, ss: seq<Schedule>, id: string)
    ensures WithoutOutfit(os, id) == os <==> forall i :: 0 <= i < |os| ==> os[i].id != id
    ensures WithoutOutfitSchedules(ss, id) == ss <==> forall i :: 0 <= i < |ss| ==> ss[i].outfitId != id
  {
    FilterKeepsAll(os, OtherOutfit(id));
    FilterKeepsAll(ss, NotReferencing(id));
  }

  /** Deleting an outfit never leaves a schedule pointing at a missing outfit that was not already dangling. */
  lemma DeleteOutfitKeepsSchedulesResolved(os: seq<Outfit>, ss: seq<Schedule>, id: string)
    requires SchedulesResolve(os, ss)
    ensures SchedulesResolve(WithoutOutfit(os, id), WithoutOutfitSchedules(ss, id))
  {
    var os', ss' := WithoutOutfit(os, id), WithoutOutfitSchedules(ss, id);
    forall k | 0 <= k < |ss'|
      ensures NamesOutfitIn(ss'[k], os')
    {
      var s := ss'[k];
      var j :| 0 <= j < |ss| && ss[j] == s;
      assert NamesOutfitIn(ss[j], os);
      var i :| 0 <= i < |os| && os[i].id == s.outfitId;
      assert os[i] in os';
      var i' :| 0 <= i' < |os'| && os'[i'] == os[i];
    }
  }

  /** `deleteSchedule(id)` removes every schedule with that id and keeps the rest in order. */
  lemma DeleteScheduleRemovesId(ss: seq<Schedule>, id: string)
    ensures forall s :: s in WithoutSchedule(ss, id) ==> s.id != id
    ensures forall s :: s in ss && s.id != id ==> s in WithoutSchedule(ss, id)
    ensures OrderedSelection(WithoutSchedule(ss, id), ss, OtherSchedule(id))
    ensures WithoutSchedule(ss, id) == ss <==> forall i :: 0 <= i < |ss| ==> ss[i].id != id
  {
    FilterIsOrderedSelection(ss, OtherSchedule(id));
    FilterKeepsAll(ss, OtherSchedule(id));
  }

  /**
   * `addTag` keeps the registry free of duplicates, adds exactly `t`, never
   * reorders or drops an existing tag, and a second call with the same tag
   * changes nothing.
   */
  lemma AddTagKeepsRegistry(tags: seq<string>, t: string)
    requires NoDuplicates(tags)
    ensures NoDuplicates(WithTag(tags, t))
    ensures forall x :: x in WithTag(tags, t) <==> x in tags || x == t
    ensures tags <= WithTag(tags, t)
    ensures WithTag(WithTag(tags, t), t) == WithTag(tags, t)
  {
    NoDuplicatesAppend(tags, t);
  }

  /** After two `addTag(t)` calls, `t` occurs exactly once in a duplicate-free registry. */
  lemma AddTagTwiceOnce(tags: seq<string>, t: string)
    requires NoDuplicates(tags)
    ensures var r := WithTag(WithTag(tags, t), t);
            exists i :: 0 <= i < |r| && r[i] == t && forall j :: 0 <= j < |r| && r[j] == t ==> j == i
  {
    AddTagKeepsRegistry(tags, t);
    var r := WithTag(tags, t);
    var i :| 0 <= i < |r| && r[i] == t;
    assert forall j :: 0 <= j < |r| && r[j] == t ==> j == i;
  }

  /** `getScheduleByDate(d)` is exactly the schedules on `d`, in stored order. */
  lemma ScheduleByDateSelects(ss: seq<Schedule>, date: string)
    ensures OrderedSelection(ScheduleByDate(ss, date), ss, OnDate(date))
  {
    FilterIsOrderedSelection(ss, OnDate(date));
  }

  /** A schedule added on `date` shows up at the end of that day's list; other days are unchanged. */
  lemma ScheduleByDateAfterAdd(ss: seq<Schedule>, s: Schedule, date: string)
    ensures ScheduleByDate(ss + [s], date) ==
            if s.date == date then ScheduleByDate(ss, date) + [s] else ScheduleByDate(ss, date)
  {
    FilterAppend(ss, [s], OnDate(date));
  }

  /**
   * `addOutfit` keeps outfit ids pairwise distinct exactly when the clock id
   * is not already in use, which the code does not check.
   */
  lemma AddOutfitIdsDistinct(os: seq<Outfit>, d: OutfitDraft, now: nat, createdAt: string)
    requires NoDuplicates(OutfitIds(os))
    ensures NoDuplicates(OutfitIds(os + [NewOutfit(d, now, createdAt)])) <==> ClockId(now) !in OutfitIds(os)
  {
    assert OutfitIds(os + [NewOutfit(d, now, createdAt)]) == OutfitIds(os) + [ClockId(now)];
    NoDuplicatesAppend(OutfitIds(os), ClockId(now));
  }

  /** The same for `addSchedule`. */
  lemma AddScheduleIdsDistinct(ss: seq<Schedule>, d: ScheduleDraft, now: nat)
    requires NoDuplicates(ScheduleIds(ss))
    ensures NoDuplicates(ScheduleIds(ss + [NewSchedule(d, now)])) <==> ClockId(now) !in ScheduleIds(ss)
  {
    assert ScheduleIds(ss + [NewSchedule(d, now)]) == ScheduleIds(ss) + [ClockId(now)];
    NoDuplicatesAppend(ScheduleIds(ss), ClockId(now));
  }

  /**
   * With a clock that moves forward between creations, outfit ids stay
   * pairwise distinct: every id was issued at an earlier clock value.
   */
  lemma AddOutfitWithLaterClock(os: seq<Outfit>, d: OutfitDraft, now: nat, createdAt: string)
    requires NoDuplicates(OutfitIds(os))
    requires IssuedBefore(OutfitIds(os), now)
    ensures NoDuplicates(OutfitIds(os + [NewOutfit(d, now, createdAt)]))
    ensures IssuedBefore(OutfitIds(os + [NewOutfit(d, now, createdAt)]), now + 1)
  {
    assert OutfitIds(os + [NewOutfit(d, now, createdAt)]) == OutfitIds(os) + [ClockId(now)];
    FreshClockIdAppend(OutfitIds(os), now);
  }

  /** The same for schedules. */
  lemma AddScheduleWithLaterClock(ss: seq<Schedule>, d: ScheduleDraft, now: nat)
    requires NoDuplicates(ScheduleIds(ss))
    requires IssuedBefore(ScheduleIds(ss), now)
    ensures NoDuplicates(ScheduleIds(ss + [NewSchedule(d, now)]))
    ensures IssuedBefore(ScheduleIds(ss + [NewSchedule(d, now)]), now + 1)
  {
    assert ScheduleIds(ss + [NewSchedule(d, now)]) == ScheduleIds(ss) + [ClockId(now)];
    FreshClockIdAppend(ScheduleIds(ss), now);
  }

  /**
   * When every schedule names an existing outfit, deleting an id that no
   * outfit has changes neither collection.
   */
  lemma DeleteAbsentOutfitNoOp(os: seq<Outfit>, ss: seq<Schedule>, id: string)
    requires SchedulesResolve(os, ss)
    requires forall i :: 0 <= i < |os| ==> os[i].id != id
    ensures WithoutOutfit(os, id) == os
    ensures WithoutOutfitSchedules(ss, id) == ss
  {
    DeleteOutfitAbsent(os, ss, id);
    forall k | 0 <= k < |ss|
      ensures ss[k].outfitId != id
    {
      assert NamesOutfitIn(ss[k], os);
    }
  }

  /** Ids that are pairwise distinct and were all issued before clock value `now`. */
  ghost predicate IdsFresh(ids: seq<string>, now: nat) {
    NoDuplicates(ids) && IssuedBefore(ids, now)
  }

  lemma FilterOutfitsKeepsIdsFresh(os: seq<Outfit>, p: Outfit -> bool, now: nat)
    requires IdsFresh(OutfitIds(os), now)
    ensures IdsFresh(OutfitIds(Filter(os, p)), now)
  {
    FilterKeepsKeysDistinct(os, p, OutfitKey());
    FilterKeepsKeys(os, p, OutfitKey());
    IssuedBeforeSublist(OutfitIds(os), OutfitIds(Filter(os, p)), now);
  }

  lemma FilterSchedulesKeepsIdsFresh(ss: seq<Schedule>, p: Schedule -> bool, now: nat)
    requires IdsFresh(ScheduleIds(ss), now)
    ensures IdsFresh(ScheduleIds(Filter(ss, p)), now)
  {
    FilterKeepsKeysDistinct(ss, p, ScheduleKey());
    FilterKeepsKeys(ss, p, ScheduleKey());
    IssuedBeforeSublist(ScheduleIds(ss), ScheduleIds(Filter(ss, p)), now);
  }

  /**
   * `deleteOutfit` keeps outfit and schedule ids pairwise distinct and issued
   * before `now`, so the forward-clock argument carries across deletes.
   */
  lemma DeleteOutfitKeepsIdsFresh(os: seq<Outfit>, ss: seq<Schedule>, id: string, now: nat)
    requires IdsFresh(OutfitIds(os), now) && IdsFresh(ScheduleIds(ss), now)
    ensures IdsFresh(OutfitIds(WithoutOutfit(os, id)), now)
    ensures IdsFresh(ScheduleIds(WithoutOutfitSchedules(ss, id)), now)
  {
    FilterOutfitsKeepsIdsFresh(os, OtherOutfit(id), now);
    FilterSchedulesKeepsIdsFresh(ss, NotReferencing(id), now);
  }

  /** The same for `deleteSchedule`. */
  lemma DeleteScheduleKeepsIdsFresh(ss: seq<Schedule>, id: string, now: nat)
    requires IdsFresh(ScheduleIds(ss), now)
    ensures IdsFresh(ScheduleIds(WithoutSchedule(ss, id)), now)
  {
    FilterSchedulesKeepsIdsFresh(ss, OtherSchedule(id), now);
  }
}
