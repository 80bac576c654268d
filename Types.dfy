/**
 * The records the wardrobe application stores, and the identifiers it gives
 * them: an id is the decimal text of the clock value `Date.now()` at creation.
 */
module Types {
  import opened Collections

  datatype TimeSlot = Morning | Afternoon | Evening

  datatype Outfit = Outfit(
    id: string,
    title: string,
    imageBase64: string,
    tags: seq<string>,
    notes: string,
    createdAt: string)

  /** `timeSlot` is `null` in the application when no slot was chosen. */
  datatype Schedule = Schedule(
    id: string,
    outfitId: string,
    date: string,
    timeSlot: Option<TimeSlot>)

  /** What the caller passes to `addOutfit`: an outfit without `id` and `createdAt`. */
  datatype OutfitDraft = OutfitDraft(
    title: string,
    imageBase64: string,
    tags: seq<string>,
    notes: string)

  /** What the caller passes to `addSchedule`: a schedule without `id`. */
  datatype ScheduleDraft = ScheduleDraft(
    outfitId: string,
    date: string,
    timeSlot: Option<TimeSlot>)

  function Digit(d: nat): (c: char)
    requires d < 10
    ensures '0' <= c <= '9'
  {
    ('0' as int + d) as char
  }

  function DigitValue(c: char): nat {
    if '0' <= c <= '9' then c as int - '0' as int else 0
  }

  /** `n.toString()` for a non-negative integer: its decimal digits, most significant first. */
  function DecimalString(n: nat): (s: string)
    ensures |s| >= 1
    ensures forall i :: 0 <= i < |s| ==> '0' <= s[i] <= '9'
    ensures s[0] == '0' <==> n == 0
  {
    if n < 10 then [Digit(n)] else DecimalString(n / 10) + [Digit(n % 10)]
  }

  /** Reads decimal digits back into a number. */
  function ParseDecimal(s: string): nat {
    if s == [] then 0 else ParseDecimal(s[..|s| - 1]) * 10 + DigitValue(s[|s| - 1])
  }

  lemma {:induction false} ParseDecimalString(n: nat)
    ensures ParseDecimal(DecimalString(n)) == n
  {
    var s := DecimalString(n);
    if n >= 10 {
      ParseDecimalString(n / 10);
      assert s[..|s| - 1] == DecimalString(n / 10);
    }
  }

  /** Different clock values give different ids. */
  lemma DecimalStringInjective(a: nat, b: nat)
    ensures DecimalString(a) == DecimalString(b) <==> a == b
  {
    ParseDecimalString(a);
    ParseDecimalString(b);
  }

  /** `Date.now().toString()`: the id given to a record created at clock value `now`. */
  function ClockId(now: nat): (id: string)
    ensures |id| >= 1 && forall i :: 0 <= i < |id| ==> '0' <= id[i] <= '9'
    ensures ParseDecimal(id) == now
  {
    ParseDecimalString(now);
    DecimalString(now)
  }

  /** `id` was issued at some clock value before `now`. */
  ghost predicate IssuedAt(id: string, now: nat) {
    exists c: nat :: c < now && id == ClockId(c)
  }

  /** Every id in `ids` was issued at a clock value before `now`. */
  ghost predicate IssuedBefore(ids: seq<string>, now: nat) {
    forall i :: 0 <= i < |ids| ==> IssuedAt(ids[i], now)
  }

  /**
   * If every existing id was issued at an earlier clock value, the id issued
   * now is new, and the ids stay pairwise distinct. The application relies on
   * the clock for this; it never checks it.
   */
  lemma FreshClockIdAppend(ids: seq<string>, now: nat)
    requires NoDuplicates(ids) && IssuedBefore(ids, now)
    ensures ClockId(now) !in ids
    ensures NoDuplicates(ids + [ClockId(now)])
    ensures IssuedBefore(ids + [ClockId(now)], now + 1)
  {
    forall i | 0 <= i < |ids|
      ensures ids[i] != ClockId(now)
    {
      assert IssuedAt(ids[i], now);
      var c: nat :| c < now && ids[i] == ClockId(c);
      assert ParseDecimal(ids[i]) == c;
    }
    NoDuplicatesAppend(ids, ClockId(now));
    var ids' := ids + [ClockId(now)];
    forall i | 0 <= i < |ids'|
      ensures IssuedAt(ids'[i], now + 1)
    {
      if i < |ids| {
        assert IssuedAt(ids[i], now);
        var c: nat :| c < now && ids[i] == ClockId(c);
        assert ids'[i] == ClockId(c);
      } else {
        assert ids'[i] == ClockId(now);
      }
    }
  }

  /** Ids drawn from ids issued before `now` were issued before `now`. */
  lemma IssuedBeforeSublist(ids: seq<string>, ids': seq<string>, now: nat)
    requires IssuedBefore(ids, now)
    requires forall k :: 0 <= k < |ids'| ==> ids'[k] in ids
    ensures IssuedBefore(ids', now)
  {
    forall k | 0 <= k < |ids'|
      ensures IssuedAt(ids'[k], now)
    {
      var i :| 0 <= i < |ids| && ids[i] == ids'[k];
      assert IssuedAt(ids[i], now);
    }
  }
}
