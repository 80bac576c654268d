/**
 * The library view: the search box filters the outfits by title or tag,
 * ignoring letter case, and a card's delete button asks for confirmation.
 */
module Library {
  import opened Collections
  import opened Types
  import opened Store

  /** `toLowerCase` on one character, for the ASCII letters A to Z. */
  function LowerChar(c: char): char {
    if 'A' <= c <= 'Z' then (c as int + 32) as char else c
  }

  predicate IsUpper(c: char) {
    'A' <= c <= 'Z'
  }

  /** `s.toLowerCase()`: each capital letter becomes its small letter, nothing else changes. */
  function ToLower(s: string): (r: string)
    ensures |r| == |s|
    ensures forall i :: 0 <= i < |s| && IsUpper(s[i]) ==> r[i] as int == s[i] as int - 'A' as int + 'a' as int
    ensures forall i :: 0 <= i < |s| && !IsUpper(s[i]) ==> r[i] == s[i]
    ensures forall i :: 0 <= i < |r| ==> !IsUpper(r[i])
  {
    seq(|s|, i requires 0 <= i < |s| => LowerChar(s[i]))
  }

  /** Lowering twice is lowering once. */
  lemma ToLowerIdempotent(s: string)
    ensures ToLower(ToLower(s)) == ToLower(s)
  {
  }

  /** `sub` occurs in `s` starting at position `i`. */
  predicate OccursAt(s: string, sub: string, i: nat) {
    i + |sub| <= |s| && s[i..i + |sub|] == sub
  }

  /** `s.includes(sub)`: `sub` occurs in `s` at some position. */
  predicate Contains(s: string, sub: string): (b: bool)
    ensures b ==> |sub| <= |s|
    ensures sub <= s ==> b
    ensures sub == "" ==> b
  {
    assert sub <= s ==> OccursAt(s, sub, 0);
    exists i: nat :: i <= |s| && OccursAt(s, sub, i)
  }

  /** The search predicate: the query occurs in the title or in some tag, ignoring case. */
  predicate Matches(o: Outfit, query: string): (b: bool)
    ensures query == "" ==> b
    ensures b ==> |query| <= |o.title| || exists t :: t in o.tags && |query| <= |t|
  {
    Contains(ToLower(o.title), ToLower(query)) ||
    exists t :: t in o.tags && Contains(ToLower(t), ToLower(query))
  }

  function MatchesQuery(query: string): Outfit -> bool {
    (o: Outfit) => Matches(o, query)
  }

  /** `filteredOutfits` */
  function Search(os: seq<Outfit>, query: string): (r: seq<Outfit>)
    ensures |r| <= |os|
    ensures forall k :: 0 <= k < |r| ==> r[k] in os && Matches(r[k], query)
    ensures forall i :: 0 <= i < |os| && Matches(os[i], query) ==> os[i] in r
  {
    Filter(os, MatchesQuery(query))
  }

  /** The "No outfits found" message: shown exactly when no outfit matches. */
  predicate ShowsNoOutfitsFound(os: seq<Outfit>, query: string): (b: bool)
    ensures b <==> forall i :: 0 <= i < |os| ==> !Matches(os[i], query)
  {
    var r := Search(os, query);
    assert |r| > 0 ==> r[0] in os && Matches(r[0], query);
    |r| == 0
  }

  /** `c` and `d` are the same character, or the capital and small forms of one ASCII letter. */
  predicate CaseVariant(c: char, d: char) {
    c == d ||
    ('A' <= c <= 'Z' && d as int == c as int + 32) ||
    ('A' <= d <= 'Z' && c as int == d as int + 32)
  }

  /** Two queries that differ only in the case of their ASCII letters. */
  ghost predicate SameIgnoringCase(q: string, q': string) {
    |q| == |q'| && forall i :: 0 <= i < |q| ==> CaseVariant(q[i], q'[i])
  }

  /**
   * The search keeps exactly the matching outfits, in library order: an
   * outfit is kept if and only if its title or one of its tags contains the
   * query, ignoring case.
   */
  lemma SearchKeepsMatches(os: seq<Outfit>, query: string)
    ensures OrderedSelection(Search(os, query), os, MatchesQuery(query))
    ensures forall o :: o in Search(os, query) <==> o in os && Matches(o, query)
  {
    FilterIsOrderedSelection(os, MatchesQuery(query));
    forall o | o in os && Matches(o, query)
      ensures o in Search(os, query)
    {
      var i :| 0 <= i < |os| && os[i] == o;
    }
  }

  /** An empty query shows the whole library. */
  lemma SearchEmptyQuery(os: seq<Outfit>)
    ensures Search(os, "") == os
  {
    FilterKeepsAll(os, MatchesQuery(""));
  }

  /** Changing the letter case of the query does not change the result. */
  lemma SearchIgnoresQueryCase(os: seq<Outfit>, q: string, q': string)
    requires SameIgnoringCase(q, q')
    ensures Search(os, q) == Search(os, q')
  {
    var l, l' := ToLower(q), ToLower(q');
    forall i | 0 <= i < |q|
      ensures l[i] == l'[i]
    {
      assert CaseVariant(q[i], q'[i]);
    }
    assert l == l';
    FilterCongruent(os, MatchesQuery(q), MatchesQuery(q'));
  }

  /** The card's delete button: the outfit is deleted only if the user confirmed. */
  method OnDelete(store: AppStore, outfit: Outfit, confirmed: bool)
    modifies store
    ensures confirmed ==> store.outfits == WithoutOutfit(old(store.outfits), outfit.id) &&
                          store.storedOutfits == store.outfits &&
                          store.schedules == WithoutOutfitSchedules(old(store.schedules), outfit.id) &&
                          store.storedSchedules == store.schedules &&
                          store.tags == old(store.tags) && store.storedTags == old(store.storedTags)
    ensures !confirmed ==> unchanged(store)
  {
    if confirmed {
      store.DeleteOutfit(outfit.id);
    }
  }
}
