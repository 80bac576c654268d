/**
 * The outfit-creation form: its fields, the tag chips the user adds and
 * removes, and the handler that registers the chips' tags and then adds the
 * outfit.
 */
module Create {
  import opened Collections
  import opened Types
  import opened Store

  /** The registry after `addTag` has been called on each of `ts`, in order. */
  function WithTags(tags: seq<string>, ts: seq<string>): (r: seq<string>)
    ensures tags <= r && |r| <= |tags| + |ts|
    ensures forall x :: x in r <==> x in tags || x in ts
    decreases |ts|
  {
    if ts == [] then tags
    else
      assert ts == ts[..|ts| - 1] + [ts[|ts| - 1]];
      WithTag(WithTags(tags, ts[..|ts| - 1]), ts[|ts| - 1])
  }

  /**
   * Registering a list of tags keeps a duplicate-free registry duplicate-free,
   * keeps the existing tags first and in order, and adds exactly the listed tags.
   */
  lemma {:induction false} WithTagsKeepsRegistry(tags: seq<string>, ts: seq<string>)
    requires NoDuplicates(tags)
    ensures NoDuplicates(WithTags(tags, ts))
    ensures tags <= WithTags(tags, ts)
    ensures forall x :: x in WithTags(tags, ts) <==> x in tags || x in ts
    decreases |ts|
  {
    if ts != [] {
      var init, last := ts[..|ts| - 1], ts[|ts| - 1];
      WithTagsKeepsRegistry(tags, init);
      AddTagKeepsRegistry(WithTags(tags, init), last);
      assert ts == init + [last];
    }
  }

  /** Registering tags that are all present already changes nothing. */
  lemma {:induction false} WithTagsPresent(tags: seq<string>, ts: seq<string>)
    requires forall i :: 0 <= i < |ts| ==> ts[i] in tags
    ensures WithTags(tags, ts) == tags
    decreases |ts|
  {
    if ts != [] {
      WithTagsPresent(tags, ts[..|ts| - 1]);
    }
  }

  class CreateForm {
    var image: string
    var title: string
    var notes: string
    var selectedTags: seq<string>
    var newTag: string

    constructor ()
      ensures image == "" && title == "" && notes == "" && selectedTags == [] && newTag == ""
    {
      image, title, notes, selectedTags, newTag := "", "", "", [], "";
    }

    /** The create button is enabled only while the title is non-empty. */
    predicate CreateEnabled()
      reads this
    {
      title != ""
    }

    /** The Add button: a non-empty pending tag becomes the last chip and the input clears. */
    method AddChip()
      modifies this
      ensures old(newTag) != "" ==> selectedTags == old(selectedTags) + [old(newTag)] && newTag == ""
      ensures old(newTag) == "" ==> selectedTags == old(selectedTags) && newTag == old(newTag)
      ensures image == old(image) && title == old(title) && notes == old(notes)
    {
      if newTag != "" {
        selectedTags := selectedTags + [newTag];
        newTag := "";
      }
    }

    /** A key press in the tag input: Enter acts like the Add button, other keys do nothing. */
    method OnTagKeyPress(key: string)
      modifies this
      ensures key == "Enter" && old(newTag) != "" ==>
                selectedTags == old(selectedTags) + [old(newTag)] && newTag == ""
      ensures key != "Enter" || old(newTag) == "" ==>
                selectedTags == old(selectedTags) && newTag == old(newTag)
      ensures image == old(image) && title == old(title) && notes == old(notes)
    {
      if key == "Enter" {
        AddChip();
      }
    }

    /** A chip's remove button: chip `i` goes, the others keep their order. */
    method RemoveChip(i: nat)
      modifies this
      ensures selectedTags == RemoveAt(old(selectedTags), i)
      ensures image == old(image) && title == old(title) && notes == old(notes) && newTag == old(newTag)
    {
      selectedTags := RemoveAt(selectedTags, i);
    }

    /**
     * `handleCreate`: without an image or a title nothing happens; otherwise
     * every chip's tag is registered in chip order, then the outfit is added
     * with the chips exactly as they stand. `created` says whether the form
     * went back to the previous view.
     */
    method HandleCreate(store: AppStore, now: nat, createdAt: string) returns (created: bool)
      modifies store
      ensures created <==> image != "" && title != ""
      ensures created ==>
                && store.tags == WithTags(old(store.tags), selectedTags)
                && store.storedTags == (if store.tags == old(store.tags) then old(store.storedTags) else store.tags)
                && store.outfits == old(store.outfits) + [NewOutfit(OutfitDraft(title, image, selectedTags, notes), now, createdAt)]
                && store.storedOutfits == store.outfits
                && store.schedules == old(store.schedules)
                && store.storedSchedules == old(store.storedSchedules)
      ensures !created ==> unchanged(store)
    {
      if image == "" || title == "" {
        return false;
      }
      ghost var tags0, storedTags0 := store.tags, store.storedTags;
      var chips := selectedTags;
      var i := 0;
      while i < |chips|
        invariant 0 <= i <= |chips|
        invariant store.tags == WithTags(tags0, chips[..i])
        invariant |store.tags| >= |tags0|
        invariant store.storedTags == if store.tags == tags0 then storedTags0 else store.tags
        invariant store.outfits == old(store.outfits) && store.storedOutfits == old(store.storedOutfits)
        invariant store.schedules == old(store.schedules) && store.storedSchedules == old(store.storedSchedules)
      {
        assert chips[..i + 1][..i] == chips[..i];
        assert WithTags(tags0, chips[..i + 1]) == WithTag(WithTags(tags0, chips[..i]), chips[i]);
        store.AddTag(chips[i]);
        i := i + 1;
      }
      assert chips[..i] == chips;
      store.AddOutfit(OutfitDraft(title, image, selectedTags, notes), now, createdAt);
      created := true;
    }

    /**
     * A click on the create button. While the title is empty the button is
     * disabled and nothing happens; otherwise the click runs `handleCreate`.
     */
    method ClickCreate(store: AppStore, now: nat, createdAt: string) returns (created: bool)
      modifies store
      ensures !CreateEnabled() ==> !created && unchanged(store)
      ensures CreateEnabled() ==> (created <==> image != "")
      ensures created ==>
                && store.tags == WithTags(old(store.tags), selectedTags)
                && store.storedTags == (if store.tags == old(store.tags) then old(store.storedTags) else store.tags)
                && store.outfits == old(store.outfits) + [NewOutfit(OutfitDraft(title, image, selectedTags, notes), now, createdAt)]
                && store.storedOutfits == store.outfits
                && store.schedules == old(store.schedules)
                && store.storedSchedules == old(store.storedSchedules)
      ensures !created ==> unchanged(store)
    {
      if !CreateEnabled() {
        return false;
      }
      created := HandleCreate(store, now, createdAt);
    }
  }
}
